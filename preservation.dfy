/** Every step of a digest and of a queue drain only moves the state forward (`Moves`)
    and keeps the invariants of `Invariants` (the `...Wf` lemmas). */
module Preservation {
  import opened Values
  import opened Callables
  import opened Wrappers
  import opened ScopeState
  import opened Invariants
  import S = Semantics

  /** What a step inside a digest keeps: the phase, a pending flush's id, and the
      post-digest callbacks queued so far. */
  ghost predicate Keeps(s: State, s': State)
  {
    s'.phase == s.phase && (s.applyAsyncId.Some? ==> s'.applyAsyncId == s.applyAsyncId) &&
    s.postDigestQueue <= s'.postDigestQueue
  }

  ghost predicate Moves(s: State, s': State)
  {
    Evolves(s, s') && Keeps(s, s')
  }

  lemma MovesTrans(a: State, b: State, c: State)
    requires Moves(a, b) && Moves(b, c)
    ensures Moves(a, c)
  {
    EvolvesTrans(a, b, c);
  }

  /** No pending timer is a flush callback. */
  predicate NoFlushPending(s: State)
  {
    forall k :: 0 <= k < |s.timers| ==> s.timers[k].kind != FlushWakeup
  }

  // ----- timers -----

  lemma {:induction false} WithoutHandleOrdered(ts: seq<Timer>, h: nat)
    requires Ordered(ts)
    ensures Ordered(S.WithoutHandle(ts, h))
  {
    if ts != [] {
      WithoutHandleOrdered(ts[1..], h);
      var tail := S.WithoutHandle(ts[1..], h);
      forall k | 0 <= k < |tail| ensures ts[0].handle < tail[k].handle {
        var m :| 0 <= m < |ts[1..]| && ts[1..][m] == tail[k];
        assert ts[m + 1] == tail[k];
      }
      var r := S.WithoutHandle(ts, h);
      if ts[0].handle != h {
        assert r == [ts[0]] + tail;
        forall j, k | 0 <= j < k < |r| ensures r[j].handle < r[k].handle {
          assert r[k] == tail[k - 1];
          if j == 0 {
            assert r[j] == ts[0];
          } else {
            assert r[j] == tail[j - 1];
          }
        }
      } else {
        assert r == tail;
      }
    }
  }

  lemma ClearTimeoutMoves(s: State, h: nat)
    ensures Moves(s, S.ClearTimeout(s, h))
  {
    var c := S.ClearTimeout(s, h);
    forall t | t in c.timers ensures t in s.timers {
      var k :| 0 <= k < |c.timers| && c.timers[k] == t;
    }
  }

  /** `clearTimeout($$applyAsyncId)` leaves no flush callback pending. */
  lemma ClearFlushTimer(s: State)
    requires Wf(s) && s.applyAsyncId.Some?
    ensures var c := S.ClearTimeout(s, s.applyAsyncId.value);
      Wf(c) && NoFlushPending(c)
  {
    var h := s.applyAsyncId.value;
    WithoutHandleOrdered(s.timers, h);
    var c := S.ClearTimeout(s, h);
    assert c.timers == S.WithoutHandle(s.timers, h);
    forall k | 0 <= k < |c.timers| ensures c.timers[k].kind != FlushWakeup && c.timers[k].handle < c.nextTimer {
      var m :| 0 <= m < |s.timers| && s.timers[m] == c.timers[k];
    }
  }

  // ----- $watchGroup listeners -----

  lemma EvalAsyncReactionMoves(s: State, g: nat, l: Fn)
    ensures var s' := S.EvalAsync(s, GroupReaction(g, l));
      Moves(s, s') && s'.calls == s.calls && s'.log == s.log && s'.watchers == s.watchers && s'.nextWatcher == s.nextWatcher
  {
    SetTimeoutEvolves(s, DigestWakeup);
  }

  lemma EvalAsyncReactionWf(s: State, g: nat, l: Fn)
    requires Wf(s) && g < |s.groups| && s.groups[g].scheduled && Reactions(s.asyncQueue, g) == 0
    ensures Wf(S.EvalAsync(s, GroupReaction(g, l)))
  {
    SetTimeoutEvolves(s, DigestWakeup);
    var s1 := if s.phase.None? && s.asyncQueue == [] then S.SetTimeout(s, DigestWakeup) else s;
    forall g' ensures Reactions(s1.asyncQueue + [GroupReaction(g, l)], g') == Reactions(s.asyncQueue, g') + if g' == g then 1 else 0 {
      ReactionsAppend(s1.asyncQueue, GroupReaction(g, l), g');
    }
  }

  lemma GroupMemberChangedMoves(s: State, g: nat, i: nat, newValue: Value, oldValue: Value)
    ensures var s' := S.GroupMemberChanged(s, g, i, newValue, oldValue);
      Moves(s, s') && s'.calls == s.calls && s'.log == s.log && s'.watchers == s.watchers && s'.nextWatcher == s.nextWatcher
  {
    if g < |s.groups| && i < |s.groups[g].newValues| && i < |s.groups[g].oldValues| {
      var gr := s.groups[g];
      var gr1 := gr.(newValues := gr.newValues[i := newValue], oldValues := gr.oldValues[i := oldValue]);
      if !gr1.scheduled {
        EvalAsyncReactionMoves(s.(groups := s.groups[g := gr1.(scheduled := true)]), g, gr.listener);
      }
    }
  }

  lemma GroupMemberChangedWf(s: State, g: nat, i: nat, newValue: Value, oldValue: Value)
    requires Wf(s)
    ensures Wf(S.GroupMemberChanged(s, g, i, newValue, oldValue))
  {
    if g < |s.groups| && i < |s.groups[g].newValues| && i < |s.groups[g].oldValues| {
      var gr := s.groups[g];
      var gr1 := gr.(newValues := gr.newValues[i := newValue], oldValues := gr.oldValues[i := oldValue]);
      if !gr1.scheduled {
        var s1 := s.(groups := s.groups[g := gr1.(scheduled := true)]);
        assert Wf(s1);
        EvalAsyncReactionWf(s1, g, gr.listener);
      }
    }
  }

  // ----- watcher visits -----

  lemma RunListenerMoves(s: State, w: Watcher, newValue: Value, oldValue: Value)
    ensures var r := S.RunListener(s, w, newValue, oldValue);
      Advances(s, r.state) && Keeps(s, r.state) && r.state.log == s.log &&
      r.state.calls == s.calls + [ListenerCall(w.id, newValue, oldValue)]
  {
    var s1 := s.(calls := s.calls + [ListenerCall(w.id, newValue, oldValue)]);
    match w.listener
    case Callback(f) => RunFnStep(s1, f, [newValue, oldValue]);
    case GroupMember(g, i) => GroupMemberChangedMoves(s1, g, i, newValue, oldValue);
  }

  lemma RunListenerWf(s: State, w: Watcher, newValue: Value, oldValue: Value)
    requires Wf(s)
    ensures Wf(S.RunListener(s, w, newValue, oldValue).state)
  {
    var s1 := s.(calls := s.calls + [ListenerCall(w.id, newValue, oldValue)]);
    match w.listener
    case Callback(f) => RunFnStep(s1, f, [newValue, oldValue]);
    case GroupMember(g, i) => GroupMemberChangedWf(s1, g, i, newValue, oldValue);
  }

  lemma SetLastKeeps(ws: seq<Watcher>, id: nat, v: Value)
    ensures var r := S.SetLast(ws, id, v);
      (forall x :: Registered(r, x) <==> Registered(ws, x)) && (UniqueIds(ws) ==> UniqueIds(r)) &&
      forall k :: 0 <= k < |r| ==> r[k].id == ws[k].id
  {
    var r := S.SetLast(ws, id, v);
    forall x ensures Registered(r, x) <==> Registered(ws, x) {
      if Registered(r, x) {
        var k :| 0 <= k < |r| && r[k].id == x;
        assert ws[k].id == x;
      }
      if Registered(ws, x) {
        var k :| 0 <= k < |ws| && ws[k].id == x;
        assert r[k].id == x;
      }
    }
  }

  /** The state a visit reaches after the watch function returned `v` and was found
      changed, before the listener runs. */
  function Marked(r: State, w: Watcher, v: Value): State
  {
    r.(lastDirty := Some(w.id), watchers := S.SetLast(r.watchers, w.id, v))
  }

  lemma MarkedMoves(r: State, w: Watcher, v: Value)
    ensures Advances(r, Marked(r, w, v)) && Keeps(r, Marked(r, w, v)) && Marked(r, w, v).calls == r.calls
    ensures Wf(r) ==> Wf(Marked(r, w, v))
  {
    SetLastKeeps(r.watchers, w.id, v);
  }

  /** A state reached from `s` by calls of registration `id` alone, which `s` has. */
  lemma RunsOnly(s: State, s': State, id: nat, extra: seq<Call>)
    requires Advances(s, s') && Registered(s.watchers, id) && s'.calls == s.calls + extra
    requires forall k :: 0 <= k < |extra| ==> (extra[k].WatchCall? || extra[k].ListenerCall?) && extra[k].id == id
    ensures Evolves(s, s')
  {
    forall k | |s.calls| <= k < |s'.calls| ensures !RunsRetired(s'.calls[k], s) {
      assert s'.calls[k] == extra[k - |s.calls|];
    }
  }

  /** The changed branch of a visit: mark the watcher dirty, then call its listener. */
  lemma ListenerBranch(r: State, w: Watcher, v: Value, prior: Value)
    ensures var l := S.RunListener(Marked(r, w, v), w, v, prior);
      var final := if l.outcome.Threw? then S.Log(l.state, l.outcome.error) else l.state;
      Advances(r, final) && Keeps(r, final) && final.calls == r.calls + [ListenerCall(w.id, v, prior)] &&
      (Wf(r) ==> Wf(final))
  {
    var s1 := Marked(r, w, v);
    MarkedMoves(r, w, v);
    RunListenerMoves(s1, w, v, prior);
    AdvancesTrans(r, s1, S.RunListener(s1, w, v, prior).state);
    if Wf(r) {
      RunListenerWf(s1, w, v, prior);
    }
  }

  /** A visit runs at most the visited watcher's function and listener, and nothing is
      run for a watcher already removed when the visit starts. */
  lemma VisitMoves(s: State, i: nat, dirty: bool)
    ensures Moves(s, S.Visit(s, i, dirty).state)
  {
    if i < |s.watchers| {
      var w := s.watchers[i];
      assert Registered(s.watchers, w.id);
      var s0 := s.(calls := s.calls + [WatchCall(w.id)]);
      var r := S.RunFn(s0, w.watchFn, []);
      RunFnStep(s0, w.watchFn, []);
      AdvancesTrans(s, s0, r.state);
      var final := S.Visit(s, i, dirty).state;
      if r.outcome.Threw? {
        assert final == S.Log(r.state, r.outcome.error);
        RunsOnly(s, final, w.id, [WatchCall(w.id)]);
      } else if S.Unchanged(r.outcome.value, w.last, w.byValue) {
        assert final == r.state;
        RunsOnly(s, final, w.id, [WatchCall(w.id)]);
      } else {
        var v := r.outcome.value;
        var prior := if w.last.Seen? then w.last.value else v;
        ListenerBranch(r.state, w, v, prior);
        AdvancesTrans(s, r.state, final);
        RunsOnly(s, final, w.id, [WatchCall(w.id), ListenerCall(w.id, v, prior)]);
      }
    }
  }

  lemma VisitWf(s: State, i: nat, dirty: bool)
    requires Wf(s)
    ensures Wf(S.Visit(s, i, dirty).state)
  {
    if i < |s.watchers| {
      var w := s.watchers[i];
      var s0 := s.(calls := s.calls + [WatchCall(w.id)]);
      var r := S.RunFn(s0, w.watchFn, []);
      RunFnStep(s0, w.watchFn, []);
      if !r.outcome.Threw? && !S.Unchanged(r.outcome.value, w.last, w.byValue) {
        var v := r.outcome.value;
        ListenerBranch(r.state, w, v, if w.last.Seen? then w.last.value else v);
      }
    }
  }

  lemma {:induction false} ScanFromMoves(s: State, i: int, dirty: bool)
    ensures Moves(s, S.ScanFrom(s, i, dirty).state)
    ensures Wf(s) ==> Wf(S.ScanFrom(s, i, dirty).state)
    decreases i + 1
  {
    if i >= 0 {
      var v := S.Visit(s, i, dirty);
      VisitMoves(s, i, dirty);
      if Wf(s) {
        VisitWf(s, i, dirty);
      }
      if !v.stop {
        ScanFromMoves(v.state, i - 1, v.dirty);
        MovesTrans(s, v.state, S.ScanFrom(v.state, i - 1, v.dirty).state);
      }
    }
  }

  // ----- queued tasks -----

  /** The state a group reaction reaches after `firstRun` is cleared and before the
      group listener runs. */
  function ReactionStarted(s: State, g: nat): State
    requires g < |s.groups|
  {
    var gr := s.groups[g];
    var nv := Arr(NewValuesOf(g), gr.newValues);
    var ov := if gr.firstRun then nv else Arr(OldValuesOf(g), gr.oldValues);
    s.(groups := s.groups[g := gr.(firstRun := false)], calls := s.calls + [GroupListenerCall(g, nv, ov)])
  }

  lemma RunTaskMoves(s: State, t: Task)
    ensures Moves(s, S.RunTask(s, t).state)
  {
    match t
    case Evaluate(f) => RunFnStep(s, f, []);
    case GroupReaction(g, l) =>
      if g < |s.groups| {
        var s1 := ReactionStarted(s, g);
        assert Moves(s, s1);
        var args := S.RunTask(s, t);
        var gr := s.groups[g];
        var nv := Arr(NewValuesOf(g), gr.newValues);
        var ov := if gr.firstRun then nv else Arr(OldValuesOf(g), gr.oldValues);
        RunFnStep(s1, l, [nv, ov]);
        var r := S.RunFn(s1, l, [nv, ov]);
        MovesTrans(s, s1, r.state);
        if !r.outcome.Threw? {
          assert Moves(r.state, S.SetScheduled(r.state, g, false));
          MovesTrans(s, r.state, S.SetScheduled(r.state, g, false));
        }
      }
    case EmptyGroupCall(g, l) =>
      if g < |s.groups| && s.groups[g].shouldCall {
        var nv := Arr(NewValuesOf(g), s.groups[g].newValues);
        var s1 := s.(calls := s.calls + [GroupListenerCall(g, nv, nv)]);
        assert Moves(s, s1);
        RunFnStep(s1, l, [nv, nv]);
        MovesTrans(s, s1, S.RunFn(s1, l, [nv, nv]).state);
      }
  }

  lemma RunTaskWf(s: State, t: Task)
    requires Wf(s)
    requires t.GroupReaction? ==> Reactions(s.asyncQueue, t.group) == 0
    ensures Wf(S.RunTask(s, t).state)
  {
    match t
    case Evaluate(f) => RunFnStep(s, f, []);
    case GroupReaction(g, l) =>
      if g < |s.groups| {
        var s1 := ReactionStarted(s, g);
        assert Wf(s1);
        var gr := s.groups[g];
        var nv := Arr(NewValuesOf(g), gr.newValues);
        var ov := if gr.firstRun then nv else Arr(OldValuesOf(g), gr.oldValues);
        RunFnStep(s1, l, [nv, ov]);
        var r := S.RunFn(s1, l, [nv, ov]);
        if !r.outcome.Threw? {
          assert Reactions(r.state.asyncQueue, g) == 0;
          assert Wf(S.SetScheduled(r.state, g, false));
        }
      }
    case EmptyGroupCall(g, l) =>
      if g < |s.groups| && s.groups[g].shouldCall {
        var nv := Arr(NewValuesOf(g), s.groups[g].newValues);
        RunFnStep(s.(calls := s.calls + [GroupListenerCall(g, nv, nv)]), l, [nv, nv]);
      }
  }

  /** Taking the head of the async queue keeps the invariants and dequeues it. */
  lemma ShiftWf(s: State)
    requires Wf(s) && s.asyncQueue != []
    ensures var s1 := s.(asyncQueue := s.asyncQueue[1..]);
      Wf(s1) && (s.asyncQueue[0].GroupReaction? ==> Reactions(s1.asyncQueue, s.asyncQueue[0].group) == 0)
  {
    var q := s.asyncQueue;
    forall g | 0 <= g < |s.groups| ensures Reactions(q[1..], g) <= Reactions(q, g) {
    }
    assert q[0].GroupReaction? ==> q[0].group < |s.groups|;
  }

  lemma {:induction false} DrainAsyncMoves(s: State)
    ensures Moves(s, S.DrainAsync(s))
    ensures Wf(s) ==> Wf(S.DrainAsync(s))
    decreases S.Weight(s.asyncQueue)
  {
    if s.asyncQueue != [] {
      var s1 := s.(asyncQueue := s.asyncQueue[1..]);
      assert Moves(s, s1);
      S.RunTaskGrows(s1, s.asyncQueue[0]);
      RunTaskMoves(s1, s.asyncQueue[0]);
      if Wf(s) {
        ShiftWf(s);
        RunTaskWf(s1, s.asyncQueue[0]);
      }
      var s2 := S.Caught(S.RunTask(s1, s.asyncQueue[0]));
      MovesTrans(s, s1, s2);
      DrainAsyncMoves(s2);
      MovesTrans(s, s2, S.DrainAsync(s2));
    }
  }

  // ----- the other two queues -----

  /** No flush callback gets armed while `$$applyAsyncId` is set. */
  lemma NoNewFlush(s: State, s': State)
    requires UserStep(s, s') && Wf(s) && NoFlushPending(s) && s.applyAsyncId.Some?
    ensures NoFlushPending(s')
  {
    forall k | 0 <= k < |s'.timers| ensures s'.timers[k].kind != FlushWakeup {
      assert s'.timers[k] in s'.timers;
    }
  }

  lemma {:induction false} FlushMoves(s: State)
    ensures var s' := S.FlushApplyAsync(s);
      Evolves(s, s') && s'.phase == s.phase && s.postDigestQueue <= s'.postDigestQueue &&
      s'.applyAsyncQueue == [] && s'.applyAsyncId == None
    decreases S.FnsWeight(s.applyAsyncQueue)
  {
    if s.applyAsyncQueue != [] {
      var s1 := s.(applyAsyncQueue := s.applyAsyncQueue[1..]);
      S.RunFnGrows(s1, s.applyAsyncQueue[0], []);
      RunFnStep(s1, s.applyAsyncQueue[0], []);
      var s2 := S.Caught(S.RunFn(s1, s.applyAsyncQueue[0], []));
      EvolvesTrans(s, s1, s2);
      FlushMoves(s2);
      EvolvesTrans(s, s2, S.FlushApplyAsync(s2));
    }
  }

  lemma {:induction false} FlushWf(s: State)
    requires Wf(s) && NoFlushPending(s) && s.applyAsyncId.Some?
    ensures Wf(S.FlushApplyAsync(s))
    decreases S.FnsWeight(s.applyAsyncQueue)
  {
    if s.applyAsyncQueue != [] {
      var s1 := s.(applyAsyncQueue := s.applyAsyncQueue[1..]);
      S.RunFnGrows(s1, s.applyAsyncQueue[0], []);
      RunFnStep(s1, s.applyAsyncQueue[0], []);
      var r := S.RunFn(s1, s.applyAsyncQueue[0], []);
      NoNewFlush(s1, r.state);
      FlushWf(S.Caught(r));
    }
  }

  lemma {:induction false} DrainPostDigestMoves(s: State)
    ensures var s' := S.DrainPostDigest(s);
      Evolves(s, s') && s'.phase == s.phase && s'.postDigestQueue == [] &&
      (s.applyAsyncId.Some? ==> s'.applyAsyncId == s.applyAsyncId)
    decreases S.FnsWeight(s.postDigestQueue)
  {
    if s.postDigestQueue != [] {
      var s1 := s.(postDigestQueue := s.postDigestQueue[1..]);
      S.RunFnGrows(s1, s.postDigestQueue[0], []);
      RunFnStep(s1, s.postDigestQueue[0], []);
      var s2 := S.Caught(S.RunFn(s1, s.postDigestQueue[0], []));
      EvolvesTrans(s, s1, s2);
      DrainPostDigestMoves(s2);
      EvolvesTrans(s, s2, S.DrainPostDigest(s2));
    }
  }

  lemma {:induction false} DrainPostDigestWf(s: State)
    requires Wf(s)
    ensures Wf(S.DrainPostDigest(s))
    decreases S.FnsWeight(s.postDigestQueue)
  {
    if s.postDigestQueue != [] {
      var s1 := s.(postDigestQueue := s.postDigestQueue[1..]);
      S.RunFnGrows(s1, s.postDigestQueue[0], []);
      RunFnStep(s1, s.postDigestQueue[0], []);
      DrainPostDigestWf(S.Caught(S.RunFn(s1, s.postDigestQueue[0], [])));
    }
  }

  // ----- the digest loop -----

  lemma PassMoves(s: State)
    ensures Moves(s, S.Pass(s).state)
    ensures Wf(s) ==> Wf(S.Pass(s).state)
  {
    var d := S.DrainAsync(s);
    DrainAsyncMoves(s);
    ScanFromMoves(d, |d.watchers| - 1, false);
    MovesTrans(s, d, S.Pass(s).state);
  }

  lemma {:induction false} LoopMoves(s: State, ttl: nat)
    ensures var l := S.DigestLoop(s, ttl);
      Evolves(s, l.state) && s.postDigestQueue <= l.state.postDigestQueue &&
      (s.applyAsyncId.Some? ==> l.state.applyAsyncId == s.applyAsyncId) &&
      l.state.phase == (if l.converged then s.phase else None) && (Wf(s) ==> Wf(l.state))
    decreases ttl
  {
    var c := S.Pass(s);
    PassMoves(s);
    S.DigestLoopStep(s, ttl, c);
    if S.Busy(c) && ttl > 0 {
      LoopMoves(c.state, ttl - 1);
      EvolvesTrans(s, c.state, S.DigestLoop(c.state, ttl - 1).state);
    }
  }

  /** The flush `$digest` starts with when `$$applyAsyncId` is set. */
  function FlushFirst(s: State): State
  {
    if s.applyAsyncId.Some? then S.FlushApplyAsync(S.ClearTimeout(s, s.applyAsyncId.value)) else s
  }

  lemma FlushFirstMoves(s: State)
    ensures var s' := FlushFirst(s);
      Evolves(s, s') && s'.phase == s.phase && s.postDigestQueue <= s'.postDigestQueue && (Wf(s) ==> Wf(s'))
  {
    if s.applyAsyncId.Some? {
      var c := S.ClearTimeout(s, s.applyAsyncId.value);
      ClearTimeoutMoves(s, s.applyAsyncId.value);
      FlushMoves(c);
      EvolvesTrans(s, c, FlushFirst(s));
      if Wf(s) {
        ClearFlushTimer(s);
        FlushWf(c);
      }
    }
  }

  lemma DigestMoves(s: State)
    ensures Evolves(s, S.Digest(s).state)
  {
    var b := S.BeginPhase(s.(lastDirty := None), Digesting);
    if !b.outcome.Threw? {
      var s1 := b.state;
      var s2 := FlushFirst(s1);
      FlushFirstMoves(s1);
      EvolvesTrans(s, s1, s2);
      LoopMoves(s2, 10);
      var l := S.DigestLoop(s2, 10);
      EvolvesTrans(s, s2, l.state);
      if l.converged {
        DrainPostDigestMoves(S.ClearPhase(l.state));
        EvolvesTrans(s, S.ClearPhase(l.state), S.Digest(s).state);
      }
    }
  }

  /** The part of `$digest` after `$beginPhase`, for any number of passes to spare. */
  lemma SettleWf(s: State, ttl: nat)
    requires Wf(s)
    ensures var l := S.DigestLoop(FlushFirst(s), ttl);
      Wf(if l.converged then S.DrainPostDigest(S.ClearPhase(l.state)) else l.state)
  {
    FlushFirstMoves(s);
    LoopMoves(FlushFirst(s), ttl);
    var l := S.DigestLoop(FlushFirst(s), ttl);
    if l.converged {
      DrainPostDigestWf(S.ClearPhase(l.state));
    }
  }

  lemma DigestWf(s: State)
    requires Wf(s)
    ensures Wf(S.Digest(s).state)
  {
    var b := S.BeginPhase(s.(lastDirty := None), Digesting);
    if !b.outcome.Threw? {
      SettleWf(b.state, 10);
    }
  }

  // ----- $apply and the timer callbacks -----

  lemma ApplyMoves(s: State, e: S.Applied)
    ensures Evolves(s, S.Apply(s, e).state)
  {
    var b := S.BeginPhase(s, Applying);
    var r := if b.outcome.Threw? then b else S.EvalApplied(b.state, e);
    if !b.outcome.Threw? {
      match e
      case UserExpr(f) => RunFnStep(b.state, f, []);
      case FlushQueue => FlushMoves(b.state);
    }
    assert Evolves(s, r.state);
    var c := S.ClearPhase(r.state);
    EvolvesTrans(s, r.state, c);
    DigestMoves(c);
    EvolvesTrans(s, c, S.Apply(s, e).state);
  }

  lemma ApplyWf(s: State, e: S.Applied)
    requires Wf(s)
    requires e.FlushQueue? ==> s.applyAsyncId.Some? && NoFlushPending(s)
    ensures Wf(S.Apply(s, e).state)
  {
    var b := S.BeginPhase(s, Applying);
    var r := if b.outcome.Threw? then b else S.EvalApplied(b.state, e);
    if !b.outcome.Threw? {
      match e
      case UserExpr(f) => RunFnStep(b.state, f, []);
      case FlushQueue => FlushWf(b.state);
    }
    DigestWf(S.ClearPhase(r.state));
  }

  lemma FireTimerMoves(s: State)
    ensures Evolves(s, S.FireTimer(s).state)
  {
    if s.timers != [] {
      var s1 := s.(timers := s.timers[1..]);
      assert Evolves(s, s1);
      match s.timers[0].kind
      case DigestWakeup =>
        if s1.asyncQueue != [] {
          DigestMoves(s1);
          EvolvesTrans(s, s1, S.Digest(s1).state);
        }
      case FlushWakeup =>
        ApplyMoves(s1, S.FlushQueue);
        EvolvesTrans(s, s1, S.Apply(s1, S.FlushQueue).state);
    }
  }

  lemma FireTimerWf(s: State)
    requires Wf(s)
    ensures Wf(S.FireTimer(s).state)
  {
    if s.timers != [] {
      var s1 := s.(timers := s.timers[1..]);
      assert Wf(s1);
      match s.timers[0].kind
      case DigestWakeup =>
        if s1.asyncQueue != [] {
          DigestWf(s1);
        }
      case FlushWakeup =>
        forall k | 0 <= k < |s1.timers| ensures s1.timers[k].kind != FlushWakeup {
          assert s1.timers[k] == s.timers[k + 1];
        }
        ApplyWf(s1, S.FlushQueue);
    }
  }
}
