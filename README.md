# LiveData: an observable field, modelled in Dafny

`live_data::LiveData<T>` (header `LiveData.h`) holds one value `data_` and two
ordered listener lists: `callbacks` (`std::function<void(const T&)>`) and
`observers` (`std::shared_ptr<IObserver<T>>`). Listeners are registered by
appending to a list. `setValue` stores a value and runs a notification pass.
`setValueQuietly` stores a value without notifying. `Get` reads the value.
`operator=` is `setValue` followed by `return *this`.
`clearCallbacksAndObservers` empties both lists.

The model has three files:

- `Options.dfy`: an `Option` type. `None` stands for a null `shared_ptr`.
- `Notification.dfy`: the notification protocol as pure functions.
  - A listener is only an identity (`CallbackId`, `ObserverId`).
  - An invocation is an `Event(listener, value)`.
  - `ExpectedTrace(callbacks, observers, v)` is the list of events one pass
    must produce: every callback in order, then every non-null observer in
    order, each with `v`.
  - The lemmas state the trace's length, its contents position by position,
    how many times each listener fires, and how one more registration changes
    the next pass.
- `LiveData.dfy`: the class `LiveData<T>`. It has the three fields of the
  source and a ghost `log` of every invocation. `NotifyAll` is written as the
  source's two `for` loops, and each loop appends one event per invoked
  listener. It is proved to append exactly `ExpectedTrace(callbacks, observers,
  data)`. The second loop reads an observer's identity only under its `Some?`
  test, so Dafny's destructor check proves that a null entry is never
  dereferenced.

The C++ overloads `addObserver(callback)` and `addObserver(shared_ptr)` are
named `AddCallback` and `AddObserver`, because Dafny has no overloading.

The vector holds its own `shared_ptr` copies, and nothing resets them, so the
only null entries skipped are null pointers passed to `addObserver`
(LiveData.h:131-133, LiveData.h:92).

## Model

| member | source | states |
|---|---|---|
| LiveData.LiveData.constructor | LiveData.h:35-37 | the stored value is the given initial value, both listener lists are empty, and nothing has been notified |
| LiveData.LiveData.AddCallback | LiveData.h:81-84 | the callback is appended at the end of `callbacks` with no deduplication; `observers` and the value are unchanged; no listener is invoked |
| LiveData.LiveData.AddObserver | LiveData.h:130-133 | the pointer is appended at the end of `observers`, even if null or already present; `callbacks` and the value are unchanged; no listener is invoked |
| LiveData.LiveData.NotifyAll | LiveData.h:86-96 | the two loops append exactly `ExpectedTrace(callbacks, observers, data)` to the log and change nothing else |
| LiveData.LiveData.SetValue | LiveData.h:98-103 | afterwards the value is `v`, the lists are unchanged, and the log has grown by exactly one pass `ExpectedTrace(callbacks, observers, v)` |
| LiveData.LiveData.SetValueQuietly | LiveData.h:116-120 | afterwards the value is `v`, the lists are unchanged, and no listener is invoked |
| LiveData.LiveData.Get | LiveData.h:105-108 | returns the stored value, so after `SetValue(v)` or `SetValueQuietly(v)` it returns `v` |
| LiveData.LiveData.Assign | LiveData.h:124-128 | has exactly the effect of `SetValue(v)` and returns the same object |
| LiveData.LiveData.ClearCallbacksAndObservers | LiveData.h:110-114 | both lists become empty; the value and the log are unchanged |
| LiveData.ChainedAssign | LiveData.h:124-128 | chaining two assignments leaves the second value, and the log grows by two passes over the same listeners, first with the first value, then with the second |
| LiveData.ClearThenSet | LiveData.h:110-114 | after clearing, `SetValue(v)` updates the value but invokes nobody |
| Notification.CallbackTrace | LiveData.h:88-90 | the first loop produces exactly one event per entry of `callbacks` |
| Notification.ObserverTrace | LiveData.h:91-95 | the second loop produces at most one event per entry of `observers` |
| Notification.LiveObservers | LiveData.h:91-92 | the non-null observer entries are at most as many as all entries |
| Notification.ExpectedTrace | LiveData.h:87-96 | one notification pass: the callback events followed by the observer events, one per callback plus one per non-null observer |
| Notification.ObserverTraceAtEntry | LiveData.h:91-95 | a non-null entry `obs[i]` observes `v` at the position equal to the number of non-null entries before it, so observers are notified in registration order |
| Notification.CallbackTraceAppend | LiveData.h:88-90 | the callback events for a concatenated list are the events for each part, in order; this lets the loop build the trace one entry at a time |
| Notification.ObserverTraceAppend | LiveData.h:91-95 | the observer events for a concatenated list are the events for each part, in order |
| Notification.LiveObserversAppend | LiveData.h:91-92 | the non-null entries of a concatenation are those of each part, in order |
| Notification.CallbackTraceAt | LiveData.h:88-90 | the i-th callback event is the i-th registered callback called with `v` |
| Notification.ObserverTraceAt | LiveData.h:91-95 | the j-th observer event is the j-th non-null observer entry, observing `v`; there are as many observer events as non-null entries |
| Notification.LiveObserversCount | LiveData.h:91-92 | null entries are exactly the ones skipped: the number of live observers is the number of entries minus the number of nulls, and each observer occurs as often as its pointer was registered |
| Notification.ExpectedTraceShape | LiveData.h:87-96 | a pass has one event per callback plus one per non-null observer; callbacks come first, each group in registration order, and every event carries `v` |
| Notification.CallbackTraceCount | LiveData.h:88-90 | a callback is called as many times as it is registered |
| Notification.ObserverTraceCount | LiveData.h:91-95 | an observer is notified as many times as a non-null pointer to it is registered |
| Notification.ObserverTraceValues | LiveData.h:91-95 | the second loop invokes only observers, and always with `v` |
| Notification.ExpectedTraceCounts | LiveData.h:87-96 | in a whole pass, each callback fires once per registration and each observer once per non-null registration |
| Notification.DuplicateCallbacksFireEach | LiveData.h:82-90 | adding the same callback k more times adds exactly k calls of it to the next pass |
| Notification.AddCallbackTrace | LiveData.h:82-90 | a callback appended last is called right after the earlier callbacks and before every observer |
| Notification.AddObserverTrace | LiveData.h:131-133 | an observer pointer appended last is notified after every other listener, or not at all if it is null |

`LiveData.Scenario` is a client run with no contract. It shows that the
contracts above fix the log of a concrete sequence of calls.

## Left out

- What a callback or `IObserver::Observe` does (LiveData.h:20, 89, 93): that is foreign code. An invocation is only recorded as an event.
- Re-entrancy: a listener that calls `setValue` or `addObserver` during a pass. `notifyAll` passes `data_` by reference, and appending during the loop invalidates its iterator. The outcome depends on listener code, so the model assumes listeners do not touch the object.
- Exceptions thrown by listeners, calling an empty `std::function`, and `std::terminate` through the `noexcept` on `operator=` (LiveData.h:65).
- `shared_ptr` reference counting and object lifetimes (LiveData.h:76, 91): only null versus non-null is tracked.
- Perfect forwarding, move and copy semantics, and variadic construction (LiveData.h:36, 101, 119). The default and forwarding constructors are one constructor that receives the initial value. Building that value from arguments, or default-constructing it, is left to the caller.
- LiveData.LiveData.Get: returns the value, not a mutable reference (LiveData.h:60). External mutation through that reference bypasses notification, and the model does not capture it.
- The notification log is ghost state. The source keeps no such record; it exists only to state which listeners were invoked.
