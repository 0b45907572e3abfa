/** The observable field `live_data::LiveData<T>`: one stored value, a list of
    callbacks and a list of observer pointers. Every listener invocation is
    recorded in the ghost `log`, so the contracts can say who was called, in
    which order and with what value. */
module LiveData {
  import opened Options
  import opened Notification

  class LiveData<T> {
    var data: T
    var callbacks: seq<CallbackId>
    var observers: seq<Option<ObserverId>>
    /** All listener invocations made by this object so far. */
    ghost var log: seq<Event<T>>

    /** Both constructors of the source: the stored value is initialised
        (default-constructed, or built from the forwarded arguments) and no
        listener is registered. */
    constructor (init: T)
      ensures data == init
      ensures callbacks == [] && observers == []
      ensures log == []
    {
      data := init;
      callbacks := [];
      observers := [];
      log := [];
    }

    /** The `addObserver` overload taking a callback: appended at the end,
        duplicates kept, nothing notified. */
    method AddCallback(c: CallbackId)
      modifies this
      ensures callbacks == old(callbacks) + [c]
      ensures observers == old(observers) && data == old(data)
      ensures log == old(log)
    {
      callbacks := callbacks + [c];
    }

    /** The `addObserver` overload taking an observer pointer: appended at the
        end even when null or already present, nothing notified. */
    method AddObserver(p: Option<ObserverId>)
      modifies this
      ensures observers == old(observers) + [p]
      ensures callbacks == old(callbacks) && data == old(data)
      ensures log == old(log)
    {
      observers := observers + [p];
    }

    /** The private notification pass: every callback in order, then every
        non-null observer in order, each handed the stored value. */
    method NotifyAll()
      modifies this`log
      ensures log == old(log) + ExpectedTrace(callbacks, observers, data)
    {
      for i := 0 to |callbacks|
        invariant log == old(log) + CallbackTrace(callbacks[..i], data)
      {
        CallbackTraceAppend(callbacks[..i], [callbacks[i]], data);
        assert callbacks[..i + 1] == callbacks[..i] + [callbacks[i]];
        log := log + [Event(Callback(callbacks[i]), data)];
      }
      assert callbacks[..|callbacks|] == callbacks;
      ghost var afterCallbacks := log;
      for j := 0 to |observers|
        invariant log == afterCallbacks + ObserverTrace(observers[..j], data)
      {
        ObserverTraceAppend(observers[..j], [observers[j]], data);
        assert observers[..j + 1] == observers[..j] + [observers[j]];
        if observers[j].Some? {
          log := log + [Event(Observer(observers[j].value), data)];
        }
      }
      assert observers[..|observers|] == observers;
    }

    /** Stores v, then runs one notification pass with it. */
    method SetValue(v: T)
      modifies this
      ensures data == v
      ensures callbacks == old(callbacks) && observers == old(observers)
      ensures log == old(log) + ExpectedTrace(callbacks, observers, v)
    {
      data := v;
      NotifyAll();
    }

    /** Stores v without notifying anybody. */
    method SetValueQuietly(v: T)
      modifies this`data
      ensures data == v
      ensures callbacks == old(callbacks) && observers == old(observers)
      ensures log == old(log)
    {
      data := v;
    }

    /** Reads the stored value. */
    method Get() returns (r: T)
      ensures r == data
    {
      r := data;
    }

    /** `operator=`: exactly `SetValue(v)`, and the object itself is returned
        so that assignments can be chained. */
    method Assign(v: T) returns (self: LiveData<T>)
      modifies this
      ensures self == this
      ensures data == v
      ensures callbacks == old(callbacks) && observers == old(observers)
      ensures log == old(log) + ExpectedTrace(callbacks, observers, v)
    {
      SetValue(v);
      self := this;
    }

    /** Drops every callback and every observer; the stored value stays. */
    method ClearCallbacksAndObservers()
      modifies this`callbacks, this`observers
      ensures callbacks == [] && observers == []
      ensures data == old(data) && log == old(log)
    {
      callbacks := [];
      observers := [];
    }
  }

  /** `(d = v) = w`: the final value is w and there are two notification
      passes, the first with v and the second with w, over the same
      listeners. */
  method ChainedAssign<T>(d: LiveData<T>, v: T, w: T)
    modifies d
    ensures d.data == w
    ensures d.callbacks == old(d.callbacks) && d.observers == old(d.observers)
    ensures d.log == old(d.log) + ExpectedTrace(d.callbacks, d.observers, v)
                                + ExpectedTrace(d.callbacks, d.observers, w)
  {
    var e := d.Assign(v);
    e := e.Assign(w);
  }

  /** After clearing, setting a value updates it but calls nobody. */
  method ClearThenSet<T>(d: LiveData<T>, v: T)
    modifies d
    ensures d.data == v
    ensures d.callbacks == [] && d.observers == []
    ensures d.log == old(d.log)
  {
    d.ClearCallbacksAndObservers();
    d.SetValue(v);
  }

  /** A client run: one callback, a null observer and a live observer. */
  method Scenario()
  {
    var d := new LiveData<int>(0);
    d.AddCallback(7);
    d.AddObserver(None);
    d.AddObserver(Some(3));
    assert d.callbacks == [7] && d.observers == [None, Some(3)];
    d.SetValue(5);
    assert [None, Some(3)][1..] == [Some(3)];
    assert ObserverTrace([None, Some(3)], 5) == [Event(Observer(3), 5)];
    assert CallbackTrace([7], 5) == [Event(Callback(7), 5)];
    assert d.log == [Event(Callback(7), 5), Event(Observer(3), 5)];
    d.SetValueQuietly(9);
    var x := d.Get();
    assert x == 9 && |d.log| == 2;
    d.ClearCallbacksAndObservers();
    d.SetValue(1);
    x := d.Get();
    assert x == 1 && |d.log| == 2;
  }
}
