/** The behaviour of every operation of src/scope.js as a function from the old scope
    state to the new one. The `Scope` class is proved to compute exactly these
    functions; the lemma modules state what they guarantee. */
module Semantics {
  import opened Values
  import opened Callables
  import opened Wrappers
  import opened ScopeState

  // ----- host collaborators: console and timers -----

  /** `console.log(e)` / `console.error(e)` for a caught error. */
  function Log(s: State, e: Thrown): State
  {
    s.(log := s.log + [e])
  }

  /** The state after a call whose exception, if any, is caught and logged. */
  function Caught(r: Run): State
  {
    if r.outcome.Threw? then Log(r.state, r.outcome.error) else r.state
  }

  /** `setTimeout(callback, 0)`: queue the callback under a fresh handle. */
  function SetTimeout(s: State, kind: TimerKind): State
  {
    s.(timers := s.timers + [Timer(s.nextTimer, kind)], nextTimer := s.nextTimer + 1)
  }

  function WithoutHandle(ts: seq<Timer>, h: nat): (r: seq<Timer>)
    ensures forall k :: 0 <= k < |r| ==> r[k].handle != h && r[k] in ts
  {
    if ts == [] then []
    else (if ts[0].handle == h then [] else [ts[0]]) + WithoutHandle(ts[1..], h)
  }

  /** `clearTimeout(h)`: drop the pending callback with handle `h`, if any. */
  function ClearTimeout(s: State, h: nat): State
  {
    s.(timers := WithoutHandle(s.timers, h))
  }

  // ----- watcher registry -----

  /** `$watch(watchFn, listenerFn, eqValue)` (src/scope.js:19-28): a missing listener
      becomes a no-op; the remover it returns is identified by the registration number
      `s.nextWatcher`. */
  function Watch(s: State, watchFn: Fn, listener: Option<Listener>, byValue: bool): State
  {
    s.(lastDirty := None,
       watchers := [Watcher(s.nextWatcher, watchFn, listener.GetOr(Callback(NoOp)), NeverEvaluated, byValue)] + s.watchers,
       nextWatcher := s.nextWatcher + 1)
  }

  /** `$$watchers.indexOf(watcher)`: the first index holding registration `id`, or -1. */
  function IndexOf(ws: seq<Watcher>, id: nat): (i: int)
    ensures -1 <= i < |ws|
  {
    if ws == [] then -1
    else if ws[0].id == id then 0
    else var j := IndexOf(ws[1..], id); if j < 0 then -1 else j + 1
  }

  /** The remover closure of registration `id` (src/scope.js:29-35). */
  function Deregister(s: State, id: nat): State
  {
    var i := IndexOf(s.watchers, id);
    if i >= 0 then s.(watchers := s.watchers[..i] + s.watchers[i + 1..], lastDirty := None)
    else s
  }

  /** Writing `watcher.last` on the watcher object with registration `id`. */
  function SetLast(ws: seq<Watcher>, id: nat, v: Value): (r: seq<Watcher>)
    ensures |r| == |ws|
    ensures forall k :: 0 <= k < |ws| ==> r[k] == if ws[k].id == id then ws[k].(last := Seen(v)) else ws[k]
  {
    seq(|ws|, k requires 0 <= k < |ws| => if ws[k].id == id then ws[k].(last := Seen(v)) else ws[k])
  }

  // ----- task scheduling and phases -----

  /** `$evalAsync(expr)` (src/scope.js:163-173). */
  function EvalAsync(s: State, t: Task): State
  {
    var s1 := if s.phase.None? && s.asyncQueue == [] then SetTimeout(s, DigestWakeup) else s;
    s1.(asyncQueue := s1.asyncQueue + [t])
  }

  /** `$applyAsync(expr)` (src/scope.js:207-217). */
  function ApplyAsync(s: State, f: Fn): State
  {
    var s1 := s.(applyAsyncQueue := s.applyAsyncQueue + [f]);
    if s1.applyAsyncId.None? then SetTimeout(s1, FlushWakeup).(applyAsyncId := Some(s1.nextTimer))
    else s1
  }

  /** `$$postDigest(fn)` (src/scope.js:219-221). */
  function PostDigest(s: State, f: Fn): State
  {
    s.(postDigestQueue := s.postDigestQueue + [f])
  }

  /** `$beginPhase(phase)` (src/scope.js:185-190). */
  function BeginPhase(s: State, p: Phase): Run
  {
    if s.phase.Some? then Run(s, Threw(AlreadyInProgress(s.phase.value)))
    else Run(s.(phase := Some(p)), Returned(Undefined))
  }

  /** `$clearPhase()` (src/scope.js:192-194). */
  function ClearPhase(s: State): State
  {
    s.(phase := None)
  }

  // ----- $watchGroup -----

  /** `n` slots of `new Array(n)`, which read as undefined. */
  function Holes(n: nat): (r: seq<Value>)
    ensures |r| == n && forall k :: 0 <= k < n ==> r[k] == Undefined
  {
    seq(n, _ => Undefined)
  }

  /** `$watchGroup(watchFns, listenerFn)` (src/scope.js:38-83). The group's number is
      `|s.groups|`; with watch functions, one watcher per function is registered in
      order, and they receive the next registration numbers. */
  function WatchGroup(s: State, watchFns: seq<Fn>, listener: Fn): State
  {
    var g := |s.groups|;
    var n := |watchFns|;
    if n == 0 then
      var s1 := s.(groups := s.groups + [Group(listener, [], [], [], false, true, true)]);
      EvalAsync(s1, EmptyGroupCall(g, listener))
    else
      var members := seq(n, k => s.nextWatcher + k);
      var s1 := s.(groups := s.groups + [Group(listener, members, Holes(n), Holes(n), false, true, true)]);
      RegisterMembers(s1, watchFns, g, 0)
  }

  /** `_.map(watchFns, ...)`: one `$watch` per function, from index `i` on. */
  function RegisterMembers(s: State, watchFns: seq<Fn>, g: nat, i: nat): State
    decreases |watchFns| - i
  {
    if i >= |watchFns| then s
    else RegisterMembers(Watch(s, watchFns[i], Some(GroupMember(g, i)), false), watchFns, g, i + 1)
  }

  /** The deregistrar `$watchGroup` returns. */
  function DeregisterGroup(s: State, g: nat): State
  {
    if g >= |s.groups| then s
    else if s.groups[g].members == [] then s.(groups := s.groups[g := s.groups[g].(shouldCall := false)])
    else DeregisterAll(s, s.groups[g].members)
  }

  /** `_.forEach(destroyFunctions, ...)`. */
  function DeregisterAll(s: State, ids: seq<nat>): State
    decreases ids
  {
    if ids == [] then s else DeregisterAll(Deregister(s, ids[0]), ids[1..])
  }

  /** The listener `$watchGroup` gives component watcher `i` (src/scope.js:68-75).
      The guard is never false for a watcher that `WatchGroup` registered. */
  function GroupMemberChanged(s: State, g: nat, i: nat, newValue: Value, oldValue: Value): State
  {
    if g < |s.groups| && i < |s.groups[g].newValues| && i < |s.groups[g].oldValues| then
      var gr := s.groups[g];
      var gr1 := gr.(newValues := gr.newValues[i := newValue], oldValues := gr.oldValues[i := oldValue]);
      if gr1.scheduled then s.(groups := s.groups[g := gr1])
      else EvalAsync(s.(groups := s.groups[g := gr1.(scheduled := true)]), GroupReaction(g, gr.listener))
    else s
  }

  function SetScheduled(s: State, g: nat, b: bool): State
  {
    if g < |s.groups| then s.(groups := s.groups[g := s.groups[g].(scheduled := b)]) else s
  }

  // ----- running user callables -----

  /** One action of a callable other than `Throw`. */
  function Perform(s: State, a: Action, args: seq<Value>): State
    requires !a.Throw?
  {
    match a
    case Assign(k, e) => s.(vars := s.vars[k := EvalExpr(s.vars, e, args)])
    case Watch(w, l, byValue) => Watch(s, w, if l.Some? then Some(Callback(l.value)) else None, byValue)
    case Deregister(id) => Deregister(s, id)
    case WatchGroup(fns, l) => WatchGroup(s, fns, l)
    case DeregisterGroup(g) => DeregisterGroup(s, g)
    case EvalAsync(t) => EvalAsync(s, Evaluate(t))
    case ApplyAsync(t) => ApplyAsync(s, t)
    case PostDigest(c) => PostDigest(s, c)
  }

  function RunActions(s: State, body: seq<Action>, args: seq<Value>): Run
    decreases body
  {
    if body == [] then Run(s, Returned(Undefined))
    else if body[0].Throw? then Run(s, Threw(UserError))
    else RunActions(Perform(s, body[0], args), body[1..], args)
  }

  /** Calling a user callable with the given arguments (the scope argument left out). */
  function RunFn(s: State, f: Fn, args: seq<Value>): Run
  {
    var r := RunActions(s, f.body, args);
    if r.outcome.Threw? then r else Run(r.state, Returned(EvalExpr(r.state.vars, f.result, args)))
  }

  /** `watcher.listenerFn(newValue, oldValue, self)`. */
  function RunListener(s: State, w: Watcher, newValue: Value, oldValue: Value): Run
  {
    var s1 := s.(calls := s.calls + [ListenerCall(w.id, newValue, oldValue)]);
    match w.listener
    case Callback(f) => RunFn(s1, f, [newValue, oldValue])
    case GroupMember(g, i) => Run(GroupMemberChanged(s1, g, i, newValue, oldValue), Returned(Undefined))
  }

  /** `asyncTask.scope.$eval(asyncTask.expression)` for each kind of queued task. */
  function RunTask(s: State, t: Task): Run
  {
    match t
    case Evaluate(f) => RunFn(s, f, [])
    case GroupReaction(g, l) =>
      if g < |s.groups| then
        // watchGroupListener (src/scope.js:57-65)
        var gr := s.groups[g];
        var nv := Arr(NewValuesOf(g), gr.newValues);
        var ov := if gr.firstRun then nv else Arr(OldValuesOf(g), gr.oldValues);
        var s1 := s.(groups := s.groups[g := gr.(firstRun := false)], calls := s.calls + [GroupListenerCall(g, nv, ov)]);
        var r := RunFn(s1, l, [nv, ov]);
        if r.outcome.Threw? then r else Run(SetScheduled(r.state, g, false), Returned(Undefined))
      else Run(s, Returned(Undefined))
    case EmptyGroupCall(g, l) =>
      // the task queued by an empty $watchGroup (src/scope.js:47-51)
      if g < |s.groups| && s.groups[g].shouldCall then
        var nv := Arr(NewValuesOf(g), s.groups[g].newValues);
        RunFn(s.(calls := s.calls + [GroupListenerCall(g, nv, nv)]), l, [nv, nv])
      else Run(s, Returned(Undefined))
  }

  // ----- the weight measure that makes the queue drains terminate -----

  function TaskWeight(t: Task): nat
  {
    match t
    case Evaluate(f) => Size(f)
    case GroupReaction(_, l) => Size(l)
    case EmptyGroupCall(_, l) => Size(l)
  }

  function Weight(q: seq<Task>): nat
  {
    if q == [] then 0 else TaskWeight(q[0]) + Weight(q[1..])
  }

  function FnsWeight(q: seq<Fn>): nat
  {
    if q == [] then 0 else Size(q[0]) + FnsWeight(q[1..])
  }

  lemma {:induction false} WeightAppend(q: seq<Task>, t: Task)
    ensures Weight(q + [t]) == Weight(q) + TaskWeight(t)
  {
    if q != [] {
      assert (q + [t])[1..] == q[1..] + [t];
      WeightAppend(q[1..], t);
    }
  }

  lemma {:induction false} FnsWeightAppend(q: seq<Fn>, f: Fn)
    ensures FnsWeight(q + [f]) == FnsWeight(q) + Size(f)
  {
    if q != [] {
      assert (q + [f])[1..] == q[1..] + [f];
      FnsWeightAppend(q[1..], f);
    }
  }

  /** The three queue weights of a state. */
  function Pending(s: State): (nat, nat, nat)
  {
    (Weight(s.asyncQueue), FnsWeight(s.applyAsyncQueue), FnsWeight(s.postDigestQueue))
  }

  /** `s'` adds at most `budget` to each queue's weight. */
  predicate Grows(s: State, s': State, budget: nat)
  {
    Weight(s'.asyncQueue) <= Weight(s.asyncQueue) + budget &&
    FnsWeight(s'.applyAsyncQueue) <= FnsWeight(s.applyAsyncQueue) + budget &&
    FnsWeight(s'.postDigestQueue) <= FnsWeight(s.postDigestQueue) + budget
  }

  lemma {:induction false} RegisterMembersQueues(s: State, watchFns: seq<Fn>, g: nat, i: nat)
    ensures var s' := RegisterMembers(s, watchFns, g, i);
      s'.asyncQueue == s.asyncQueue && s'.applyAsyncQueue == s.applyAsyncQueue && s'.postDigestQueue == s.postDigestQueue
    decreases |watchFns| - i
  {
    if i < |watchFns| {
      RegisterMembersQueues(Watch(s, watchFns[i], Some(GroupMember(g, i)), false), watchFns, g, i + 1);
    }
  }

  lemma {:induction false} DeregisterAllQueues(s: State, ids: seq<nat>)
    ensures var s' := DeregisterAll(s, ids);
      s'.asyncQueue == s.asyncQueue && s'.applyAsyncQueue == s.applyAsyncQueue && s'.postDigestQueue == s.postDigestQueue
    decreases ids
  {
    if ids != [] {
      DeregisterAllQueues(Deregister(s, ids[0]), ids[1..]);
    }
  }

  /** One action queues less than its own size on each queue. */
  lemma PerformGrows(s: State, a: Action, args: seq<Value>)
    requires !a.Throw?
    ensures Grows(s, Perform(s, a, args), ActionSize(a) - 1)
  {
    match a
    case EvalAsync(t) => WeightAppend(s.asyncQueue, Evaluate(t));
    case ApplyAsync(t) => FnsWeightAppend(s.applyAsyncQueue, t);
    case PostDigest(c) => FnsWeightAppend(s.postDigestQueue, c);
    case WatchGroup(fns, l) =>
      if fns == [] {
        WeightAppend(s.asyncQueue, EmptyGroupCall(|s.groups|, l));
      } else {
        var members := seq(|fns|, k => s.nextWatcher + k);
        RegisterMembersQueues(s.(groups := s.groups + [Group(l, members, Holes(|fns|), Holes(|fns|), false, true, true)]), fns, |s.groups|, 0);
      }
    case DeregisterGroup(g) =>
      if g < |s.groups| && s.groups[g].members != [] {
        DeregisterAllQueues(s, s.groups[g].members);
      }
    case _ =>
  }

  lemma {:induction false} RunActionsGrows(s: State, body: seq<Action>, args: seq<Value>)
    ensures Grows(s, RunActions(s, body, args).state, BodySize(body))
    decreases body
  {
    if body != [] && !body[0].Throw? {
      PerformGrows(s, body[0], args);
      RunActionsGrows(Perform(s, body[0], args), body[1..], args);
    }
  }

  /** Running a callable queues strictly less than its size on each queue. */
  lemma RunFnGrows(s: State, f: Fn, args: seq<Value>)
    ensures Grows(s, RunFn(s, f, args).state, Size(f) - 1)
  {
    RunActionsGrows(s, f.body, args);
  }

  lemma RunTaskGrows(s: State, t: Task)
    ensures Grows(s, RunTask(s, t).state, TaskWeight(t) - 1)
  {
    match t
    case Evaluate(f) => RunFnGrows(s, f, []);
    case GroupReaction(g, l) =>
      if g < |s.groups| {
        var gr := s.groups[g];
        var nv := Arr(NewValuesOf(g), gr.newValues);
        var ov := if gr.firstRun then nv else Arr(OldValuesOf(g), gr.oldValues);
        var s1 := s.(groups := s.groups[g := gr.(firstRun := false)], calls := s.calls + [GroupListenerCall(g, nv, ov)]);
        RunFnGrows(s1, l, [nv, ov]);
      }
    case EmptyGroupCall(g, l) =>
      if g < |s.groups| && s.groups[g].shouldCall {
        var nv := Arr(NewValuesOf(g), s.groups[g].newValues);
        RunFnGrows(s.(calls := s.calls + [GroupListenerCall(g, nv, nv)]), l, [nv, nv]);
      }
  }

  // ----- the digest -----

  /** Whether a freshly computed value counts as unchanged: never for a watcher that
      still holds `initLastProp`, which equals nothing a watch function returns. */
  predicate Unchanged(v: Value, last: Last, byValue: bool)
  {
    last.Seen? && IsEqual(v, last.value, byValue)
  }

  datatype Visited = Visited(state: State, dirty: bool, stop: bool)

  /** One step of `_.forEachRight` in `$$digestOnce` (src/scope.js:88-105): the slot at
      index `i` of the live registry. `stop` is the iteratee returning false. */
  function Visit(s: State, i: nat, dirty: bool): Visited
  {
    if i >= |s.watchers| then Visited(s, dirty, false)
    else
      var w := s.watchers[i];
      var r := RunFn(s.(calls := s.calls + [WatchCall(w.id)]), w.watchFn, []);
      if r.outcome.Threw? then Visited(Log(r.state, r.outcome.error), dirty, false)
      else
        var v := r.outcome.value;
        if Unchanged(v, w.last, w.byValue) then Visited(r.state, dirty, r.state.lastDirty == Some(w.id))
        else
          var prior := if w.last.Seen? then w.last.value else v;
          var s1 := r.state.(lastDirty := Some(w.id), watchers := SetLast(r.state.watchers, w.id, v));
          var l := RunListener(s1, w, v, prior);
          if l.outcome.Threw? then Visited(Log(l.state, l.outcome.error), dirty, false)
          else Visited(l.state, true, false)
  }

  datatype Scan = Scan(state: State, dirty: bool)

  /** The rest of a pass, from index `i` down to 0. */
  function ScanFrom(s: State, i: int, dirty: bool): Scan
    decreases i + 1
  {
    if i < 0 then Scan(s, dirty)
    else
      var v := Visit(s, i, dirty);
      if v.stop then Scan(v.state, v.dirty) else ScanFrom(v.state, i - 1, v.dirty)
  }

  /** `$$digestOnce()` (src/scope.js:85-107): the length is taken on entry. */
  function DigestOnce(s: State): Scan
  {
    ScanFrom(s, |s.watchers| - 1, false)
  }

  /** `while ($$asyncQueue.length) { ... shift() ... }` (src/scope.js:121-128). */
  function DrainAsync(s: State): State
    decreases Weight(s.asyncQueue)
  {
    if s.asyncQueue == [] then s
    else
      var s1 := s.(asyncQueue := s.asyncQueue[1..]);
      RunTaskGrows(s1, s.asyncQueue[0]);
      DrainAsync(Caught(RunTask(s1, s.asyncQueue[0])))
  }

  /** `$$flushApplyAsync()` (src/scope.js:196-205). */
  function FlushApplyAsync(s: State): State
    decreases FnsWeight(s.applyAsyncQueue)
  {
    if s.applyAsyncQueue == [] then s.(applyAsyncId := None)
    else
      var s1 := s.(applyAsyncQueue := s.applyAsyncQueue[1..]);
      RunFnGrows(s1, s.applyAsyncQueue[0], []);
      FlushApplyAsync(Caught(RunFn(s1, s.applyAsyncQueue[0], [])))
  }

  /** The drain of `$$postDigestQueue` (src/scope.js:137-143). */
  function DrainPostDigest(s: State): State
    decreases FnsWeight(s.postDigestQueue)
  {
    if s.postDigestQueue == [] then s
    else
      var s1 := s.(postDigestQueue := s.postDigestQueue[1..]);
      RunFnGrows(s1, s.postDigestQueue[0], []);
      DrainPostDigest(Caught(RunFn(s1, s.postDigestQueue[0], [])))
  }

  /** Whether a pass left work: it was dirty or the async queue is non-empty. */
  predicate Busy(c: Scan)
  {
    c.dirty || c.state.asyncQueue != []
  }

  /** One iteration of the do-while of `$digest`: drain, then one pass. */
  function Pass(s: State): Scan
  {
    DigestOnce(DrainAsync(s))
  }

  datatype Settled = Settled(state: State, converged: bool)

  /** The do-while of `$digest` (src/scope.js:120-134) with `ttl` passes to spare. */
  function DigestLoop(s: State, ttl: nat): Settled
    decreases ttl
  {
    var c := Pass(s);
    if Busy(c) && ttl == 0 then Settled(ClearPhase(c.state), false)
    else if Busy(c) then DigestLoop(c.state, ttl - 1)
    else Settled(c.state, true)
  }

  /** One unfolding of `DigestLoop`, given the outcome `c` of its first pass. */
  lemma DigestLoopStep(s: State, ttl: nat, c: Scan)
    requires c == Pass(s)
    ensures Busy(c) && ttl == 0 ==> DigestLoop(s, ttl) == Settled(ClearPhase(c.state), false)
    ensures Busy(c) && ttl > 0 ==> DigestLoop(s, ttl) == DigestLoop(c.state, ttl - 1)
    ensures !Busy(c) ==> DigestLoop(s, ttl) == Settled(c.state, true)
  {
  }

  /** `$digest()` (src/scope.js:109-144). */
  function Digest(s: State): Run
  {
    var b := BeginPhase(s.(lastDirty := None), Digesting);
    if b.outcome.Threw? then b
    else
      var s1 := b.state;
      var s2 := if s1.applyAsyncId.Some? then FlushApplyAsync(ClearTimeout(s1, s1.applyAsyncId.value)) else s1;
      var l := DigestLoop(s2, 10);
      if !l.converged then Run(l.state, Threw(IterationsReached))
      else Run(DrainPostDigest(ClearPhase(l.state)), Returned(Undefined))
  }

  /** `$eval(expr, locals)` (src/scope.js:159-161). */
  function Eval(s: State, f: Fn, locals: Value): Run
  {
    RunFn(s, f, [locals])
  }

  /** What `$apply` evaluates: a user expression, or the bound `$$flushApplyAsync` the
      flush timer passes. */
  datatype Applied = UserExpr(f: Fn) | FlushQueue

  function EvalApplied(s: State, e: Applied): Run
  {
    match e
    case UserExpr(f) => RunFn(s, f, [])
    case FlushQueue => Run(FlushApplyAsync(s), Returned(Undefined))
  }

  /** `$apply(expr)` (src/scope.js:175-183): the `finally` block clears the phase and
      digests whatever the `try` block did; an exception from the digest replaces the
      outcome of the `try` block. */
  function Apply(s: State, e: Applied): Run
  {
    var b := BeginPhase(s, Applying);
    var r := if b.outcome.Threw? then b else EvalApplied(b.state, e);
    var d := Digest(ClearPhase(r.state));
    if d.outcome.Threw? then d else Run(d.state, r.outcome)
  }

  /** The host runs the oldest pending timer callback: the wake-up `$evalAsync` arms
      (src/scope.js:166-170) or the flush `$applyAsync` arms (src/scope.js:213-215). */
  function FireTimer(s: State): Run
  {
    if s.timers == [] then Run(s, Returned(Undefined))
    else
      var s1 := s.(timers := s.timers[1..]);
      match s.timers[0].kind
      case DigestWakeup => if s1.asyncQueue != [] then Digest(s1) else Run(s1, Returned(Undefined))
      case FlushWakeup => Apply(s1, FlushQueue)
  }
}
