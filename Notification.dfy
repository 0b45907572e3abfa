/** The notification protocol of `live_data::LiveData<T>`, stated on values.

    Listener bodies are foreign code, so a listener is represented only by its
    identity, and invoking it is represented by an `Event` pairing that
    identity with the value it was handed. `ExpectedTrace` is the sequence of
    events that one notification pass must produce. */
module Notification {
  import opened Options

  /** Identity of one registered `std::function` callback. Equal ids may be
      registered several times; each registration is a separate entry. */
  type CallbackId = nat

  /** Identity of one `IObserver<T>` object reached through a `shared_ptr`. */
  type ObserverId = nat

  /** Who was invoked during a notification pass. */
  datatype Listener = Callback(cb: CallbackId) | Observer(obs: ObserverId)

  /** One invocation: `listener` was called with `value`. */
  datatype Event<+T> = Event(listener: Listener, value: T)

  /** The events of the first loop of a notification pass: every callback, in
      registration order, called with `v`. */
  function CallbackTrace<T>(cbs: seq<CallbackId>, v: T): (r: seq<Event<T>>)
    ensures |r| == |cbs|
  {
    if cbs == [] then []
    else [Event(Callback(cbs[0]), v)] + CallbackTrace(cbs[1..], v)
  }

  /** The events of the second loop: every non-null observer, in registration
      order, observes `v`; a null entry produces nothing. */
  function ObserverTrace<T>(obs: seq<Option<ObserverId>>, v: T): (r: seq<Event<T>>)
    ensures |r| <= |obs|
  {
    if obs == [] then []
    else
      (match obs[0]
       case None => []
       case Some(o) => [Event(Observer(o), v)])
      + ObserverTrace(obs[1..], v)
  }

  /** The non-null entries of an observer list, in their order. */
  function LiveObservers(obs: seq<Option<ObserverId>>): (r: seq<ObserverId>)
    ensures |r| <= |obs|
  {
    if obs == [] then []
    else
      (match obs[0]
       case None => []
       case Some(o) => [o])
      + LiveObservers(obs[1..])
  }

  /** The whole notification pass: callbacks first, then observers. */
  function ExpectedTrace<T>(cbs: seq<CallbackId>, obs: seq<Option<ObserverId>>, v: T): (r: seq<Event<T>>)
    ensures |r| == |cbs| + |LiveObservers(obs)|
  {
    ObserverTraceAt(obs, v);
    CallbackTrace(cbs, v) + ObserverTrace(obs, v)
  }

  /** `k` registrations of the same callback. */
  function Repeat(c: CallbackId, k: nat): (r: seq<CallbackId>)
    ensures |r| == k
    ensures multiset(r) == multiset{}[c := k]
  {
    if k == 0 then [] else Repeat(c, k - 1) + [c]
  }

  // ---------------------------------------------------------------------------
  // Splitting a list splits its trace (this is what lets a loop build a trace
  // one entry at a time).

  lemma {:induction false} CallbackTraceAppend<T>(a: seq<CallbackId>, b: seq<CallbackId>, v: T)
    ensures CallbackTrace(a + b, v) == CallbackTrace(a, v) + CallbackTrace(b, v)
  {
    if a != [] {
      assert (a + b)[1..] == a[1..] + b;
      CallbackTraceAppend(a[1..], b, v);
    } else {
      assert a + b == b;
    }
  }

  lemma {:induction false} ObserverTraceAppend<T>(a: seq<Option<ObserverId>>, b: seq<Option<ObserverId>>, v: T)
    ensures ObserverTrace(a + b, v) == ObserverTrace(a, v) + ObserverTrace(b, v)
  {
    if a != [] {
      assert (a + b)[1..] == a[1..] + b;
      ObserverTraceAppend(a[1..], b, v);
    } else {
      assert a + b == b;
    }
  }

  lemma {:induction false} LiveObserversAppend(a: seq<Option<ObserverId>>, b: seq<Option<ObserverId>>)
    ensures LiveObservers(a + b) == LiveObservers(a) + LiveObservers(b)
  {
    if a != [] {
      assert (a + b)[1..] == a[1..] + b;
      LiveObserversAppend(a[1..], b);
    } else {
      assert a + b == b;
    }
  }

  // ---------------------------------------------------------------------------
  // Position by position.

  /** The i-th callback event is the i-th registered callback, called with v. */
  lemma {:induction false} CallbackTraceAt<T>(cbs: seq<CallbackId>, v: T)
    ensures |CallbackTrace(cbs, v)| == |cbs|
    ensures forall i :: 0 <= i < |cbs| ==> CallbackTrace(cbs, v)[i] == Event(Callback(cbs[i]), v)
  {
    if cbs != [] {
      CallbackTraceAt(cbs[1..], v);
    }
  }

  /** The j-th observer event is the j-th non-null observer, observing v. */
  lemma {:induction false} ObserverTraceAt<T>(obs: seq<Option<ObserverId>>, v: T)
    ensures |ObserverTrace(obs, v)| == |LiveObservers(obs)|
    ensures forall j :: 0 <= j < |LiveObservers(obs)| ==>
      ObserverTrace(obs, v)[j] == Event(Observer(LiveObservers(obs)[j]), v)
  {
    if obs != [] {
      ObserverTraceAt(obs[1..], v);
    }
  }

  /** A non-null entry obs[i] is notified right after the live entries before
      it, that is, at the position given by the number of those entries. */
  lemma ObserverTraceAtEntry<T>(obs: seq<Option<ObserverId>>, i: nat, v: T)
    requires i < |obs| && obs[i].Some?
    ensures |LiveObservers(obs[..i])| < |ObserverTrace(obs, v)|
    ensures ObserverTrace(obs, v)[|LiveObservers(obs[..i])|] == Event(Observer(obs[i].value), v)
  {
    assert obs == obs[..i] + [obs[i]] + obs[i + 1..];
    ObserverTraceAppend(obs[..i] + [obs[i]], obs[i + 1..], v);
    ObserverTraceAppend(obs[..i], [obs[i]], v);
    ObserverTraceAt(obs[..i], v);
  }

  /** Null entries are skipped: there are exactly as many live observers as
      non-null entries, and each id is kept once per registration. */
  lemma {:induction false} LiveObserversCount(obs: seq<Option<ObserverId>>)
    ensures |LiveObservers(obs)| == |obs| - multiset(obs)[None]
    ensures forall o :: multiset(LiveObservers(obs))[o] == multiset(obs)[Some(o)]
  {
    if obs != [] {
      assert obs == [obs[0]] + obs[1..];
      LiveObserversCount(obs[1..]);
    }
  }

  /** The shape of one notification pass: one event per callback registration,
      in order, followed by one event per non-null observer entry, in order,
      each carrying v. */
  lemma ExpectedTraceShape<T>(cbs: seq<CallbackId>, obs: seq<Option<ObserverId>>, v: T)
    ensures |ExpectedTrace(cbs, obs, v)| == |cbs| + |LiveObservers(obs)|
    ensures |ExpectedTrace(cbs, obs, v)| == |cbs| + |obs| - multiset(obs)[None]
    ensures forall i :: 0 <= i < |cbs| ==> ExpectedTrace(cbs, obs, v)[i] == Event(Callback(cbs[i]), v)
    ensures forall j :: 0 <= j < |LiveObservers(obs)| ==>
      ExpectedTrace(cbs, obs, v)[|cbs| + j] == Event(Observer(LiveObservers(obs)[j]), v)
    ensures forall e :: e in ExpectedTrace(cbs, obs, v) ==> e.value == v
  {
    CallbackTraceAt(cbs, v);
    ObserverTraceAt(obs, v);
    LiveObserversCount(obs);
  }

  // ---------------------------------------------------------------------------
  // Multiplicities: every registration fires exactly once.

  lemma {:induction false} CallbackTraceCount<T>(cbs: seq<CallbackId>, v: T, c: CallbackId)
    ensures multiset(CallbackTrace(cbs, v))[Event(Callback(c), v)] == multiset(cbs)[c]
  {
    if cbs != [] {
      assert cbs == [cbs[0]] + cbs[1..];
      CallbackTraceCount(cbs[1..], v, c);
    }
  }

  lemma {:induction false} ObserverTraceCount<T>(obs: seq<Option<ObserverId>>, v: T, o: ObserverId)
    ensures multiset(ObserverTrace(obs, v))[Event(Observer(o), v)] == multiset(obs)[Some(o)]
  {
    if obs != [] {
      assert obs == [obs[0]] + obs[1..];
      ObserverTraceCount(obs[1..], v, o);
    }
  }

  /** A callback registered k times is called k times; an observer whose
      pointer was registered k times observes k times. Together with
      `ExpectedTraceShape` (every event carries v) this says that nobody else
      is called during the pass. */
  lemma ExpectedTraceCounts<T>(cbs: seq<CallbackId>, obs: seq<Option<ObserverId>>, v: T, c: CallbackId, o: ObserverId)
    ensures multiset(ExpectedTrace(cbs, obs, v))[Event(Callback(c), v)] == multiset(cbs)[c]
    ensures multiset(ExpectedTrace(cbs, obs, v))[Event(Observer(o), v)] == multiset(obs)[Some(o)]
  {
    CallbackTraceCount(cbs, v, c);
    ObserverTraceCount(obs, v, o);
    ObserverTraceValues(obs, v);
    CallbackTraceAt(cbs, v);
    assert Event(Observer(o), v) !in CallbackTrace(cbs, v);
  }

  lemma {:induction false} ObserverTraceValues<T>(obs: seq<Option<ObserverId>>, v: T)
    ensures forall e :: e in ObserverTrace(obs, v) ==> e.listener.Observer? && e.value == v
  {
    if obs != [] {
      ObserverTraceValues(obs[1..], v);
    }
  }

  /** Duplicate registrations are not merged: adding c k more times adds
      exactly k calls of c to the next pass. */
  lemma DuplicateCallbacksFireEach<T>(cbs: seq<CallbackId>, obs: seq<Option<ObserverId>>, c: CallbackId, k: nat, v: T)
    ensures multiset(ExpectedTrace(cbs + Repeat(c, k), obs, v))[Event(Callback(c), v)] == multiset(cbs)[c] + k
  {
    ExpectedTraceCounts(cbs + Repeat(c, k), obs, v, c, 0);
  }

  // ---------------------------------------------------------------------------
  // How registration changes the next notification pass.

  /** A callback added last is called right after the earlier callbacks and
      before every observer. */
  lemma AddCallbackTrace<T>(cbs: seq<CallbackId>, obs: seq<Option<ObserverId>>, c: CallbackId, v: T)
    ensures ExpectedTrace(cbs + [c], obs, v)
         == CallbackTrace(cbs, v) + [Event(Callback(c), v)] + ObserverTrace(obs, v)
  {
    CallbackTraceAppend(cbs, [c], v);
  }

  /** An observer pointer added last is notified after everyone else, or not
      at all when it is null. */
  lemma AddObserverTrace<T>(cbs: seq<CallbackId>, obs: seq<Option<ObserverId>>, p: Option<ObserverId>, v: T)
    ensures ExpectedTrace(cbs, obs + [p], v)
         == ExpectedTrace(cbs, obs, v) + (if p.Some? then [Event(Observer(p.value), v)] else [])
  {
    ObserverTraceAppend(obs, [p], v);
  }
}
