/** A program using a scope: any sequence of calls to the public operations of
    src/scope.js, with the host running pending timer callbacks in between. An exception
    a call throws reaches the program, which carries on with the scope as the call left
    it. What holds of every scope such a program can reach is proved here. */
module Client {
  import opened Values
  import opened Callables
  import opened Wrappers
  import opened ScopeState
  import opened Invariants
  import opened Preservation
  import S = Semantics

  datatype Op =
    | CallWatch(watchFn: Fn, listener: Option<Fn>, byValue: bool)
    | CallRemover(registration: nat)
    | CallWatchGroup(watchFns: seq<Fn>, groupListener: Fn)
    | CallGroupRemover(group: nat)
    | CallEval(expr: Fn, locals: Value)
    | CallEvalAsync(expr: Fn)
    | CallApply(expr: Fn)
    | CallApplyAsync(expr: Fn)
    | CallPostDigest(fn: Fn)
    | CallDigest
    | TimerFires

  function Invoke(s: State, op: Op): Run
  {
    match op
    case CallWatch(w, l, byValue) =>
      Run(S.Watch(s, w, if l.Some? then Some(Callback(l.value)) else None, byValue), Returned(Undefined))
    case CallRemover(id) => Run(S.Deregister(s, id), Returned(Undefined))
    case CallWatchGroup(fns, l) => Run(S.WatchGroup(s, fns, l), Returned(Undefined))
    case CallGroupRemover(g) => Run(S.DeregisterGroup(s, g), Returned(Undefined))
    case CallEval(f, locals) => S.Eval(s, f, locals)
    case CallEvalAsync(f) => Run(S.EvalAsync(s, Evaluate(f)), Returned(Undefined))
    case CallApply(f) => S.Apply(s, S.UserExpr(f))
    case CallApplyAsync(f) => Run(S.ApplyAsync(s, f), Returned(Undefined))
    case CallPostDigest(f) => Run(S.PostDigest(s, f), Returned(Undefined))
    case CallDigest => S.Digest(s)
    case TimerFires => S.FireTimer(s)
  }

  /** The scope after the calls `ops`, in order. */
  function Drive(s: State, ops: seq<Op>): State
    decreases ops
  {
    if ops == [] then s else Drive(Invoke(s, ops[0]).state, ops[1..])
  }

  lemma InvokeMoves(s: State, op: Op)
    ensures Evolves(s, Invoke(s, op).state)
    ensures Wf(s) ==> Wf(Invoke(s, op).state)
  {
    match op
    case CallWatch(w, l, byValue) => WatchStep(s, w, if l.Some? then Some(Callback(l.value)) else None, byValue);
    case CallRemover(id) => DeregisterStep(s, id);
    case CallWatchGroup(fns, l) => WatchGroupStep(s, fns, l);
    case CallGroupRemover(g) => DeregisterGroupStep(s, g);
    case CallEval(f, locals) => RunFnStep(s, f, [locals]);
    case CallEvalAsync(f) => EvalAsyncStep(s, Evaluate(f));
    case CallApply(f) =>
      ApplyMoves(s, S.UserExpr(f));
      if Wf(s) {
        ApplyWf(s, S.UserExpr(f));
      }
    case CallApplyAsync(f) => ApplyAsyncStep(s, f);
    case CallPostDigest(f) =>
    case CallDigest =>
      DigestMoves(s);
      if Wf(s) {
        DigestWf(s);
      }
    case TimerFires =>
      FireTimerMoves(s);
      if Wf(s) {
        FireTimerWf(s);
      }
  }

  lemma {:induction false} DriveMoves(s: State, ops: seq<Op>)
    ensures Evolves(s, Drive(s, ops))
    ensures Wf(s) ==> Wf(Drive(s, ops))
    decreases ops
  {
    if ops != [] {
      var s1 := Invoke(s, ops[0]).state;
      InvokeMoves(s, ops[0]);
      DriveMoves(s1, ops[1..]);
      EvolvesTrans(s, s1, Drive(s1, ops[1..]));
    }
  }

  /** Every scope a program can reach keeps the invariants. */
  lemma ReachableWf(vars: map<string, Value>, ops: seq<Op>)
    ensures Wf(Drive(Initial(vars), ops))
  {
    InitialWf(vars);
    DriveMoves(Initial(vars), ops);
  }

  /** A watcher removed from the registry is never run again: neither its watch function
      nor its listener, whatever the program does next. */
  lemma RemovedWatcherNeverRuns(s: State, ops: seq<Op>, id: nat)
    requires Retired(s, id)
    ensures var t := Drive(s, ops);
      Retired(t, id) &&
      forall k :: |s.calls| <= k < |t.calls| ==> t.calls[k] != WatchCall(id) && !(t.calls[k].ListenerCall? && t.calls[k].id == id)
  {
    DriveMoves(s, ops);
    var t := Drive(s, ops);
    forall k | |s.calls| <= k < |t.calls|
      ensures t.calls[k] != WatchCall(id) && !(t.calls[k].ListenerCall? && t.calls[k].id == id)
    {
      assert !RunsRetired(t.calls[k], s);
    }
  }

  lemma {:induction false} NoFlushTimers(ts: seq<Timer>)
    requires forall k :: 0 <= k < |ts| ==> ts[k].kind != FlushWakeup
    ensures FlushTimers(ts) == 0
  {
    if ts != [] {
      NoFlushTimers(ts[1..]);
    }
  }

  lemma {:induction false} OneFlushTimer(ts: seq<Timer>, h: nat)
    requires Ordered(ts)
    requires forall k :: 0 <= k < |ts| && ts[k].kind == FlushWakeup ==> ts[k].handle == h
    ensures FlushTimers(ts) <= 1
  {
    if ts != [] {
      if ts[0].kind == FlushWakeup {
        forall k | 0 <= k < |ts[1..]| ensures ts[1..][k].kind != FlushWakeup {
          assert ts[0].handle < ts[k + 1].handle;
        }
        NoFlushTimers(ts[1..]);
      } else {
        OneFlushTimer(ts[1..], h);
      }
    }
  }

  /** `$applyAsync` arms at most one flush callback at a time, and none is pending once
      `$$applyAsyncId` is cleared. */
  lemma AtMostOneFlushPending(vars: map<string, Value>, ops: seq<Op>)
    ensures var t := Drive(Initial(vars), ops);
      FlushTimers(t.timers) <= 1 && (t.applyAsyncId.None? ==> FlushTimers(t.timers) == 0)
  {
    ReachableWf(vars, ops);
    var t := Drive(Initial(vars), ops);
    if t.applyAsyncId.None? {
      NoFlushTimers(t.timers);
    } else {
      OneFlushTimer(t.timers, t.applyAsyncId.value);
    }
  }

  /** A `$watchGroup` queues at most one call of its listener at a time, however many of
      its watch functions change in a digest. */
  lemma AtMostOneReactionQueued(vars: map<string, Value>, ops: seq<Op>, g: nat)
    ensures Reactions(Drive(Initial(vars), ops).asyncQueue, g) <= 1
  {
    ReachableWf(vars, ops);
    var t := Drive(Initial(vars), ops);
    if g >= |t.groups| {
      NoReactionsBeyond(t.asyncQueue, |t.groups|, g);
    }
  }

  /** The registry never holds a watcher twice, and removers of different registrations
      never remove each other's watcher. */
  lemma RegistrationsUnique(vars: map<string, Value>, ops: seq<Op>)
    ensures var t := Drive(Initial(vars), ops);
      UniqueIds(t.watchers) && forall k :: 0 <= k < |t.watchers| ==> t.watchers[k].id < t.nextWatcher
  {
    ReachableWf(vars, ops);
  }
}
