/** What one visit of `$$digestOnce`, a whole pass, the `ttl`-bounded loop of `$digest`,
    `$apply` and the scheduling operations guarantee (src/scope.js:85-217). */
module DigestFacts {
  import opened Values
  import opened Callables
  import opened Wrappers
  import opened ScopeState
  import opened Invariants
  import opened Preservation
  import S = Semantics

  // ----- one visit -----

  /** The call of the watch function of the watcher at index `i`, as a visit makes it. */
  function WatchRun(s: State, i: nat): Run
    requires i < |s.watchers|
  {
    S.RunFn(s.(calls := s.calls + [WatchCall(s.watchers[i].id)]), s.watchers[i].watchFn, [])
  }

  /** A watch function that throws is logged, and the pass goes on to the next watcher
      without calling the listener and without counting the watcher dirty. */
  lemma VisitWatchThrows(s: State, i: nat, dirty: bool)
    requires i < |s.watchers| && WatchRun(s, i).outcome.Threw?
    ensures var t := S.Visit(s, i, dirty);
      t.dirty == dirty && !t.stop &&
      t.state.calls == s.calls + [WatchCall(s.watchers[i].id)] &&
      t.state.log == s.log + [WatchRun(s, i).outcome.error]
  {
    RunFnStep(s.(calls := s.calls + [WatchCall(s.watchers[i].id)]), s.watchers[i].watchFn, []);
  }

  /** A watcher whose value is unchanged does not call its listener and keeps its stored
      value; the pass stops at it only if it is `$$lastDirtyWatch`, and then exactly so
      when the watch function left that pointer alone. */
  lemma VisitUnchanged(s: State, i: nat, dirty: bool)
    requires RegistryOk(s) && i < |s.watchers| && WatchRun(s, i).outcome.Returned?
    requires S.Unchanged(WatchRun(s, i).outcome.value, s.watchers[i].last, s.watchers[i].byValue)
    ensures var w := s.watchers[i]; var t := S.Visit(s, i, dirty);
      t.dirty == dirty && t.state.calls == s.calls + [WatchCall(w.id)] && t.state.log == s.log &&
      (forall x :: x in t.state.watchers && x.id == w.id ==> x == w) &&
      (t.stop ==> s.lastDirty == Some(w.id)) &&
      (WatchRun(s, i).state.lastDirty == s.lastDirty ==> (t.stop <==> s.lastDirty == Some(w.id)))
  {
    var w := s.watchers[i];
    var s' := s.(calls := s.calls + [WatchCall(w.id)]);
    RunFnStep(s', w.watchFn, []);
    var t := S.Visit(s, i, dirty);
    forall x | x in t.state.watchers && x.id == w.id ensures x == w {
      assert x in s.watchers;
      var k :| 0 <= k < |s.watchers| && s.watchers[k] == x;
      assert k == i;
    }
  }

  lemma ListenerStep(m: State, w: Watcher, v: Value, prior: Value)
    ensures var l := S.RunListener(m, w, v, prior);
      l.state.calls == m.calls + [ListenerCall(w.id, v, prior)] && l.state.log == m.log &&
      (l.state.lastDirty == m.lastDirty || l.state.lastDirty == None) &&
      (forall x :: x in l.state.watchers ==> x in m.watchers || x.id >= m.nextWatcher)
  {
    var s1 := m.(calls := m.calls + [ListenerCall(w.id, v, prior)]);
    match w.listener
    case Callback(f) => RunFnStep(s1, f, [v, prior]);
    case GroupMember(g, j) =>
  }

  /** A watcher whose value changed becomes `$$lastDirtyWatch` and stores the new value
      before its listener runs; the listener is called with the new value and the
      previous one (the new one again on the first evaluation). A listener that throws is
      logged and the pass goes on, without counting the watcher dirty; the stored value
      stays. */
  lemma VisitChanged(s: State, i: nat, dirty: bool)
    requires RegistryOk(s) && i < |s.watchers| && WatchRun(s, i).outcome.Returned?
    requires !S.Unchanged(WatchRun(s, i).outcome.value, s.watchers[i].last, s.watchers[i].byValue)
    ensures var w := s.watchers[i]; var v := WatchRun(s, i).outcome.value; var t := S.Visit(s, i, dirty);
      t.state.calls == s.calls + [WatchCall(w.id), ListenerCall(w.id, v, if w.last.Seen? then w.last.value else v)] &&
      !t.stop &&
      (t.state.lastDirty == Some(w.id) || t.state.lastDirty == None) &&
      (forall x :: x in t.state.watchers && x.id == w.id ==> x.last == Seen(v)) &&
      (t.state.log == s.log ==> t.dirty) &&
      (t.state.log != s.log ==> t.dirty == dirty && |t.state.log| == |s.log| + 1)
  {
    var w := s.watchers[i];
    var s' := s.(calls := s.calls + [WatchCall(w.id)]);
    var r := WatchRun(s, i);
    RunFnStep(s', w.watchFn, []);
    var v := r.outcome.value;
    var prior := if w.last.Seen? then w.last.value else v;
    var m := Marked(r.state, w, v);
    ListenerStep(m, w, v, prior);
    var t := S.Visit(s, i, dirty);
    assert w.id < m.nextWatcher;
    forall x | x in t.state.watchers && x.id == w.id ensures x.last == Seen(v) {
      assert x in m.watchers;
      var k :| 0 <= k < |m.watchers| && m.watchers[k] == x;
      assert r.state.watchers[k].id == w.id;
    }
  }

  // ----- a whole pass -----

  /** A watcher whose watch function only reads the scope and returns a value equal to
      the one it stored. */
  predicate Quiet(vars: map<string, Value>, w: Watcher)
  {
    w.watchFn.body == [] && S.Unchanged(EvalExpr(vars, w.watchFn.result, []), w.last, w.byValue)
  }

  /** The watch calls of a pass that visits the slots from `i` down to 0. */
  function CallsDown(ws: seq<Watcher>, i: int): (r: seq<Call>)
    requires i < |ws|
    ensures |r| == if i < 0 then 0 else i + 1
    decreases i + 1
  {
    if i < 0 then [] else [WatchCall(ws[i].id)] + CallsDown(ws, i - 1)
  }

  /** Over quiet watchers, with no last-dirty watcher to stop at, a pass calls every watch
      function once, from the highest index down (the oldest registration first), calls
      no listener and changes nothing else. */
  lemma {:induction false} QuietScan(s: State, i: int, dirty: bool)
    requires i < |s.watchers| && s.lastDirty == None
    requires forall k :: 0 <= k < |s.watchers| ==> Quiet(s.vars, s.watchers[k])
    ensures S.ScanFrom(s, i, dirty) == S.Scan(s.(calls := s.calls + CallsDown(s.watchers, i)), dirty)
    decreases i + 1
  {
    if i >= 0 {
      var s' := s.(calls := s.calls + [WatchCall(s.watchers[i].id)]);
      assert S.Visit(s, i, dirty) == S.Visited(s', dirty, false);
      QuietScan(s', i - 1, dirty);
      assert s.calls + CallsDown(s.watchers, i) == s'.calls + CallsDown(s.watchers, i - 1);
    }
  }

  lemma QuietLoop(s: State, ttl: nat)
    requires s.lastDirty == None && s.asyncQueue == []
    requires forall k :: 0 <= k < |s.watchers| ==> Quiet(s.vars, s.watchers[k])
    ensures S.DigestLoop(s, ttl) == S.Settled(s.(calls := s.calls + CallsDown(s.watchers, |s.watchers| - 1)), true)
  {
    QuietScan(s, |s.watchers| - 1, false);
    S.DigestLoopStep(s, ttl, S.Pass(s));
  }

  /** A digest of a settled scope (nothing queued, no flush pending, every watch function
      returning what it returned last) runs each watch function once, oldest first, calls
      no listener, and changes nothing but `$$lastDirtyWatch`: this is the second digest of
      test/scope_spec.js:42-62 and 224-244. */
  lemma SettledDigest(s: State)
    requires s.phase.None? && s.asyncQueue == [] && s.applyAsyncId.None? && s.postDigestQueue == []
    requires forall k :: 0 <= k < |s.watchers| ==> Quiet(s.vars, s.watchers[k])
    ensures S.Digest(s) == Run(s.(lastDirty := None, calls := s.calls + CallsDown(s.watchers, |s.watchers| - 1)), Returned(Undefined))
  {
    QuietLoop(s.(lastDirty := None, phase := Some(Digesting)), 10);
  }

  // ----- the loop of $digest -----

  /** `n` consecutive passes from `s` each leave work: a dirty watcher or a queued task. */
  predicate AllBusy(s: State, n: nat)
    decreases n
  {
    n == 0 || (S.Busy(S.Pass(s)) && AllBusy(S.Pass(s).state, n - 1))
  }

  /** The loop gives up exactly when `ttl + 1` passes in a row leave work; when it
      settles, the last pass found nothing dirty and nothing queued. */
  lemma {:induction false} LoopOutcome(s: State, ttl: nat)
    ensures var l := S.DigestLoop(s, ttl);
      (l.converged <==> !AllBusy(s, ttl + 1)) && (l.converged ==> l.state.asyncQueue == [])
    decreases ttl
  {
    var c := S.Pass(s);
    S.DigestLoopStep(s, ttl, c);
    if S.Busy(c) && ttl > 0 {
      LoopOutcome(c.state, ttl - 1);
    }
  }

  /** What `$digest` does after `$beginPhase` succeeded, with `ttl` passes to spare. */
  function Settle(s: State, ttl: nat): Run
  {
    var l := S.DigestLoop(FlushFirst(s), ttl);
    if l.converged then Run(S.DrainPostDigest(S.ClearPhase(l.state)), Returned(Undefined))
    else Run(l.state, Threw(IterationsReached))
  }

  lemma SettleOutcome(s: State, ttl: nat)
    ensures var r := Settle(s, ttl);
      Evolves(s, r.state) && r.state.phase == None &&
      (r.outcome == Threw(IterationsReached) <==> AllBusy(FlushFirst(s), ttl + 1)) &&
      (r.outcome.Returned? ==> r.outcome == Returned(Undefined) && r.state.postDigestQueue == []) &&
      (r.outcome.Threw? ==> r.outcome == Threw(IterationsReached) && s.postDigestQueue <= r.state.postDigestQueue)
  {
    var f := FlushFirst(s);
    FlushFirstMoves(s);
    LoopMoves(f, ttl);
    LoopOutcome(f, ttl);
    var l := S.DigestLoop(f, ttl);
    EvolvesTrans(s, f, l.state);
    if l.converged {
      DrainPostDigestMoves(S.ClearPhase(l.state));
      EvolvesTrans(s, S.ClearPhase(l.state), S.DrainPostDigest(S.ClearPhase(l.state)));
    }
  }

  /** `$digest` refuses to start inside another phase. Otherwise it always ends outside
      any phase; it throws exactly when eleven passes in a row leave work (`ttl` starts at
      10 and is post-decremented), and then leaves the post-digest queue undrained; when
      it returns, every post-digest callback has run. */
  lemma DigestOutcome(s: State)
    ensures var r := S.Digest(s);
      (s.phase.Some? ==> r == Run(s.(lastDirty := None), Threw(AlreadyInProgress(s.phase.value)))) &&
      (s.phase.None? ==>
        r.state.phase == None &&
        (r.outcome == Threw(IterationsReached) <==> AllBusy(FlushFirst(s.(lastDirty := None, phase := Some(Digesting))), 11)) &&
        (r.outcome.Returned? ==> r.outcome == Returned(Undefined) && r.state.postDigestQueue == []) &&
        (r.outcome.Threw? ==> r.outcome == Threw(IterationsReached) && s.postDigestQueue <= r.state.postDigestQueue))
  {
    if s.phase.None? {
      var s1 := s.(lastDirty := None, phase := Some(Digesting));
      assert S.Digest(s) == Settle(s1, 10);
      SettleOutcome(s1, 10);
    }
  }

  /** A pending `$applyAsync` flush is cancelled by a digest, which runs the queue itself:
      no callback with that handle is left afterwards. */
  lemma DigestCancelsPendingFlush(s: State)
    requires Wf(s) && s.phase.None? && s.applyAsyncId.Some?
    ensures forall t :: t in S.Digest(s).state.timers ==> t.handle != s.applyAsyncId.value
  {
    var h := s.applyAsyncId.value;
    var s1 := s.(lastDirty := None, phase := Some(Digesting));
    var c := S.ClearTimeout(s1, h);
    assert S.Digest(s) == Settle(s1, 10);
    FlushMoves(c);
    var f := FlushFirst(s1);
    SettleOutcome(f, 10);
    assert Settle(s1, 10) == Settle(f, 10) by {
      assert f.applyAsyncId == None;
    }
    EvolvesTrans(c, f, S.Digest(s).state);
  }

  // ----- $beginPhase, $clearPhase and $apply -----

  /** `$beginPhase` throws `'<phase> already in progress.'` exactly when a phase is set,
      changing nothing; otherwise it sets the phase, and `$clearPhase` undoes it. */
  lemma BeginPhaseGuard(s: State, p: Phase)
    ensures var r := S.BeginPhase(s, p);
      (r.outcome.Threw? <==> s.phase.Some?) &&
      (r.outcome.Threw? ==> r.state == s && Message(r.outcome.error) == PhaseName(s.phase.value) + " already in progress.") &&
      (r.outcome.Returned? ==> r.state.phase == Some(p) && S.ClearPhase(r.state) == s)
  {
  }

  /** `$apply` always ends outside any phase, because its `finally` block clears the
      phase and digests even when the expression or `$beginPhase` throws. It returns only
      what the expression returned, and only when no phase was set; it throws the
      digest's error, or else the phase error, or else the expression's. */
  lemma ApplyOutcome(s: State, f: Fn)
    ensures var r := S.Apply(s, S.UserExpr(f)); var e := S.RunFn(s.(phase := Some(Applying)), f, []);
      r.state.phase == None &&
      (r.outcome.Returned? ==> s.phase.None? && r.outcome == e.outcome) &&
      (r.outcome.Threw? ==>
        r.outcome == Threw(IterationsReached) ||
        (s.phase.Some? && r.outcome == Threw(AlreadyInProgress(s.phase.value))) ||
        (s.phase.None? && r.outcome == e.outcome))
  {
    var b := S.BeginPhase(s, Applying);
    var r := if b.outcome.Threw? then b else S.EvalApplied(b.state, S.UserExpr(f));
    DigestOutcome(S.ClearPhase(r.state));
  }

  // ----- scheduling -----

  /** The number of pending digest wake-ups. */
  function Wakeups(ts: seq<Timer>): nat
  {
    if ts == [] then 0 else (if ts[0].kind == DigestWakeup then 1 else 0) + Wakeups(ts[1..])
  }

  lemma {:induction false} WakeupsAppend(ts: seq<Timer>, t: Timer)
    ensures Wakeups(ts + [t]) == Wakeups(ts) + (if t.kind == DigestWakeup then 1 else 0)
    ensures FlushTimers(ts + [t]) == FlushTimers(ts) + (if t.kind == FlushWakeup then 1 else 0)
  {
    if ts != [] {
      assert (ts + [t])[1..] == ts[1..] + [t];
      WakeupsAppend(ts[1..], t);
    }
  }

  /** `$evalAsync` queues the task last and arms one wake-up exactly when no phase is set
      and the queue was empty; pending flushes are untouched. */
  lemma EvalAsyncSchedules(s: State, t: Task)
    ensures var r := S.EvalAsync(s, t);
      r.asyncQueue == s.asyncQueue + [t] && s.timers <= r.timers &&
      Wakeups(r.timers) == Wakeups(s.timers) + (if s.phase.None? && s.asyncQueue == [] then 1 else 0) &&
      FlushTimers(r.timers) == FlushTimers(s.timers)
  {
    WakeupsAppend(s.timers, Timer(s.nextTimer, DigestWakeup));
  }

  /** `$applyAsync` queues the expression last and arms a flush only when none is
      pending, recording its handle; a pending one is kept. */
  lemma ApplyAsyncArmsOnce(s: State, f: Fn)
    ensures var r := S.ApplyAsync(s, f);
      r.applyAsyncQueue == s.applyAsyncQueue + [f] && r.applyAsyncId.Some? && s.timers <= r.timers &&
      (s.applyAsyncId.Some? ==> r.applyAsyncId == s.applyAsyncId) &&
      FlushTimers(r.timers) == FlushTimers(s.timers) + (if s.applyAsyncId.None? then 1 else 0) &&
      Wakeups(r.timers) == Wakeups(s.timers)
  {
    WakeupsAppend(s.timers, Timer(s.nextTimer, FlushWakeup));
  }
}
