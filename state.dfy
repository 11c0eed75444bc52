/** The state a `Scope` owns (src/scope.js:5-13), as a value, together with the records
    it holds: watchers, `$watchGroup` closures, queued tasks and pending timers. */
module ScopeState {
  import opened Values
  import opened Callables
  import opened Wrappers

  /** A watcher's `last` field: `initLastProp` until its watch function has been
      evaluated once, the last value seen afterwards. */
  datatype Last = NeverEvaluated | Seen(value: Value)

  /** The listener stored in a watcher: a user callable, or the closure `$watchGroup`
      installs for slot `index` of group `group`. */
  datatype Listener = Callback(fn: Fn) | GroupMember(group: nat, index: nat)

  /** A watcher record. `id` is its registration number, which plays the role of the
      object identity the source compares with `===` and `indexOf`. */
  datatype Watcher = Watcher(id: nat, watchFn: Fn, listener: Listener, last: Last, byValue: bool)

  /** The variables a `$watchGroup` call closes over: the group listener, the ids of
      the component watchers (none when no watch function was given), the `newValues`
      and `oldValues` arrays, and the flags `changeReactionScheduled`, `firstRun` and
      `shouldCall`. */
  datatype Group = Group(
    listener: Fn,
    members: seq<nat>,
    newValues: seq<Value>,
    oldValues: seq<Value>,
    scheduled: bool,
    firstRun: bool,
    shouldCall: bool)

  /** An entry of `$$asyncQueue`: the expression `$evalAsync` was given, the
      `watchGroupListener` closure of a group, or the closure `$watchGroup` queues when
      it has no watch functions. */
  datatype Task = Evaluate(expr: Fn) | GroupReaction(group: nat, listener: Fn) | EmptyGroupCall(group: nat, listener: Fn)

  /** The two callbacks scope.js hands to `setTimeout`. */
  datatype TimerKind = DigestWakeup | FlushWakeup
  datatype Timer = Timer(handle: nat, kind: TimerKind)

  datatype Phase = Digesting | Applying

  /** What can be thrown: the two errors scope.js raises and a user callable's own. */
  datatype Thrown = AlreadyInProgress(phase: Phase) | IterationsReached | UserError

  /** Observations of the kind the test suite's spies make: a watch function was
      called, or a listener was called with these arguments. */
  datatype Call =
    | WatchCall(id: nat)
    | ListenerCall(id: nat, newValue: Value, oldValue: Value)
    | GroupListenerCall(group: nat, newValues: Value, oldValues: Value)

  /** How a call ends: with a value or with an exception. */
  datatype Outcome = Returned(value: Value) | Threw(error: Thrown)

  /** The whole scope.
      - `vars`: the ad-hoc properties user code sets on the scope;
      - `watchers`: `$$watchers`, newest first;
      - `lastDirty`: `$$lastDirtyWatch`, the id of a watcher that may since have been removed;
      - `asyncQueue`, `applyAsyncQueue`, `postDigestQueue`: the three FIFO queues;
      - `applyAsyncId`: `$$applyAsyncId`, the handle of the pending flush timer;
      - `phase`: `$$phase`;
      - `groups`: the closures of every `$watchGroup` call, by call number;
      - `timers`: callbacks handed to `setTimeout` and not yet run or cleared, in firing order;
      - `nextWatcher`, `nextTimer`: the next registration number and timer handle;
      - `log`: the errors caught and written to the console;
      - `calls`: the watch-function and listener calls made, in order. */
  datatype State = State(
    vars: map<string, Value>,
    watchers: seq<Watcher>,
    lastDirty: Option<nat>,
    asyncQueue: seq<Task>,
    applyAsyncQueue: seq<Fn>,
    applyAsyncId: Option<nat>,
    postDigestQueue: seq<Fn>,
    phase: Option<Phase>,
    groups: seq<Group>,
    timers: seq<Timer>,
    nextWatcher: nat,
    nextTimer: nat,
    log: seq<Thrown>,
    calls: seq<Call>)

  /** `new Scope()`, with ad-hoc properties `vars`. */
  function Initial(vars: map<string, Value>): State
  {
    State(vars, [], None, [], [], None, [], None, [], [], 0, 1, [], [])
  }

  /** The result of an operation that may throw. */
  datatype Run = Run(state: State, outcome: Outcome)

  /** The strings stored in `$$phase`. */
  function PhaseName(p: Phase): string
  {
    match p
    case Digesting => "$digest"
    case Applying => "$apply"
  }

  /** The message of a thrown error. */
  function Message(e: Thrown): string
  {
    match e
    case AlreadyInProgress(p) => PhaseName(p) + " already in progress."
    case IterationsReached => "10 $digest iterations reached"
    case UserError => "Error"
  }

  /** The ids of a registry, in order. */
  function Ids(ws: seq<Watcher>): (r: seq<nat>)
    ensures |r| == |ws|
    ensures forall k :: 0 <= k < |ws| ==> r[k] == ws[k].id
  {
    seq(|ws|, k requires 0 <= k < |ws| => ws[k].id)
  }
}
