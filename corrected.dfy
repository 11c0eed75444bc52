/** `$digest` with two corrections to src/scope.js that make a digest that returns leave
    every watcher clean:
    - `$$lastDirtyWatch` is reset after each task the loop drains from `$$asyncQueue`, so a
      task that writes a watched property cannot make the next pass stop short of the
      watcher that sees the write (src/scope.js:121-128 never resets it);
    - a watcher whose value changed counts as dirty before its listener runs, so a
      listener that writes a watched property and then throws still forces another pass
      (src/scope.js:96-97 sets `dirty` only after the listener returned).
    Everything else is the digest of module Semantics. */
module Corrected {
  import opened Values
  import opened Callables
  import opened Wrappers
  import opened ScopeState
  import S = Semantics
  import DigestFacts

  /** The watcher at index `i` returns a value other than the one it stored: the visit
      calls its listener. */
  predicate Fires(s: State, i: nat)
  {
    i < |s.watchers| && DigestFacts.WatchRun(s, i).outcome.Returned? &&
    !S.Unchanged(DigestFacts.WatchRun(s, i).outcome.value, s.watchers[i].last, s.watchers[i].byValue)
  }

  /** A visit that counts a firing watcher dirty whether or not its listener throws. */
  function Visit(s: State, i: nat, dirty: bool): S.Visited
  {
    var v := S.Visit(s, i, dirty);
    if Fires(s, i) then v.(dirty := true) else v
  }

  function ScanFrom(s: State, i: int, dirty: bool): S.Scan
    decreases i + 1
  {
    if i < 0 then S.Scan(s, dirty)
    else
      var v := Visit(s, i, dirty);
      if v.stop then S.Scan(v.state, v.dirty) else ScanFrom(v.state, i - 1, v.dirty)
  }

  /** The drain of `$$asyncQueue`, forgetting the last dirty watcher after each task. */
  function Drain(s: State): State
    decreases S.Weight(s.asyncQueue)
  {
    if s.asyncQueue == [] then s
    else
      var s1 := s.(asyncQueue := s.asyncQueue[1..]);
      S.RunTaskGrows(s1, s.asyncQueue[0]);
      Drain(S.Caught(S.RunTask(s1, s.asyncQueue[0])).(lastDirty := None))
  }

  function Pass(s: State): S.Scan
  {
    var d := Drain(s);
    ScanFrom(d, |d.watchers| - 1, false)
  }

  function Loop(s: State, ttl: nat): S.Settled
    decreases ttl
  {
    var c := Pass(s);
    if S.Busy(c) && ttl == 0 then S.Settled(S.ClearPhase(c.state), false)
    else if S.Busy(c) then Loop(c.state, ttl - 1)
    else S.Settled(c.state, true)
  }

  function Digest(s: State): Run
  {
    var b := S.BeginPhase(s.(lastDirty := None), Digesting);
    if b.outcome.Threw? then b
    else
      var s1 := b.state;
      var s2 := if s1.applyAsyncId.Some? then S.FlushApplyAsync(S.ClearTimeout(s1, s1.applyAsyncId.value)) else s1;
      var l := Loop(s2, 10);
      if !l.converged then Run(l.state, Threw(IterationsReached))
      else Run(S.DrainPostDigest(S.ClearPhase(l.state)), Returned(Undefined))
  }
}

/** What a digest that returns promises about the watchers it leaves, for scopes whose
    watch functions only read properties and whose listeners and queued tasks only assign
    properties, throw, or (listeners) queue such tasks with `$evalAsync`. */
module FixedPoint {
  import opened Values
  import opened Callables
  import opened Wrappers
  import opened ScopeState
  import opened Invariants
  import opened DigestFacts
  import S = Semantics
  import C = Corrected

  // ----- the scopes considered -----

  /** A body that only assigns properties or throws. */
  predicate Writes(body: seq<Action>)
  {
    forall k :: 0 <= k < |body| ==> body[k].Assign? || body[k].Throw?
  }

  /** A body that assigns, throws, or queues a task that only assigns or throws. */
  predicate Reacts(body: seq<Action>)
  {
    forall k :: 0 <= k < |body| ==> body[k].Assign? || body[k].Throw? || (body[k].EvalAsync? && Writes(body[k].task.body))
  }

  predicate PlainWatcher(w: Watcher)
  {
    w.watchFn.body == [] && w.listener.Callback? && Reacts(w.listener.fn.body)
  }

  predicate PlainQueue(q: seq<Task>)
  {
    forall k :: 0 <= k < |q| ==> q[k].Evaluate? && Writes(q[k].expr.body)
  }

  /** The scopes the fixed-point theorem is about: distinct registrations of plain
      watchers, plain queued tasks, no flush pending and nothing queued after the digest. */
  predicate Plain(s: State)
  {
    UniqueIds(s.watchers) && (forall k :: 0 <= k < |s.watchers| ==> PlainWatcher(s.watchers[k])) &&
    PlainQueue(s.asyncQueue) && s.applyAsyncId.None? && s.postDigestQueue == []
  }

  /** Every watcher would see the value it stored: a pass calls no listener. */
  predicate AllQuiet(s: State)
  {
    forall k :: 0 <= k < |s.watchers| ==> Quiet(s.vars, s.watchers[k])
  }

  // ----- what a plain callable can change -----

  /** A plain body changes the properties, the async queue (with plain tasks) and the
      timers, and nothing else. */
  lemma {:induction false} ReactsFrame(s: State, body: seq<Action>, args: seq<Value>)
    requires Reacts(body)
    ensures var r := S.RunActions(s, body, args).state;
      r.watchers == s.watchers && r.lastDirty == s.lastDirty && r.calls == s.calls && r.log == s.log &&
      r.applyAsyncId == s.applyAsyncId && r.postDigestQueue == s.postDigestQueue &&
      (PlainQueue(s.asyncQueue) ==> PlainQueue(r.asyncQueue))
    decreases body
  {
    if body != [] && !body[0].Throw? {
      var s1 := S.Perform(s, body[0], args);
      if body[0].EvalAsync? {
        var q := S.EvalAsync(s, Evaluate(body[0].task)).asyncQueue;
        assert PlainQueue(s.asyncQueue) ==> PlainQueue(q) by {
          if PlainQueue(s.asyncQueue) {
            assert q == (if s.phase.None? && s.asyncQueue == [] then S.SetTimeout(s, DigestWakeup) else s).asyncQueue + [Evaluate(body[0].task)];
            forall k | 0 <= k < |q| ensures q[k].Evaluate? && Writes(q[k].expr.body) {
              if k < |q| - 1 {
                assert q[k] == s.asyncQueue[k];
              }
            }
          }
        }
      }
      assert Reacts(body[1..]) by {
        forall k | 0 <= k < |body[1..]| ensures body[1..][k] == body[k + 1] { }
      }
      ReactsFrame(s1, body[1..], args);
    }
  }

  /** A body that only assigns returns, and changes nothing but the properties. */
  predicate Assigns(body: seq<Action>)
  {
    forall k :: 0 <= k < |body| ==> body[k].Assign?
  }

  lemma {:induction false} AssignsFrame(s: State, body: seq<Action>, args: seq<Value>)
    requires Assigns(body)
    ensures var r := S.RunActions(s, body, args);
      r.outcome.Returned? && r.state == s.(vars := r.state.vars)
    decreases body
  {
    if body != [] {
      assert Assigns(body[1..]) by {
        forall k | 0 <= k < |body[1..]| ensures body[1..][k] == body[k + 1] { }
      }
      AssignsFrame(S.Perform(s, body[0], args), body[1..], args);
    }
  }

  // ----- one visit -----

  /** The indices strictly between `lo` and `hi` hold quiet watchers. */
  predicate QuietBetween(s: State, lo: int, hi: int)
  {
    forall k :: lo < k < hi && 0 <= k < |s.watchers| ==> Quiet(s.vars, s.watchers[k])
  }

  /** Every slot holding `$$lastDirtyWatch` lies above `lo`, with only quiet watchers
      between `lo` and it. With `lo == -1`: a pass that stops there skips only quiet
      watchers. */
  predicate LastDirtyAbove(s: State, lo: int)
  {
    s.lastDirty.Some? ==>
      forall j :: 0 <= j < |s.watchers| && s.watchers[j].id == s.lastDirty.value ==> lo < j && QuietBetween(s, lo, j)
  }

  /** The same registrations in the same order; only the stored values may differ. */
  predicate SameShape(ws: seq<Watcher>, ws': seq<Watcher>)
  {
    |ws'| == |ws| && forall k :: 0 <= k < |ws| ==> ws'[k] == ws[k].(last := ws'[k].last)
  }

  /** A quiet watcher is passed over (the pass stops at it if it is the last dirty one); a
      watcher that is not quiet calls its listener, becomes the last dirty watcher and
      makes the pass dirty. */
  lemma PlainVisit(s: State, i: nat, d: bool)
    requires Plain(s) && i < |s.watchers|
    ensures var w := s.watchers[i]; var t := C.Visit(s, i, d);
      (Quiet(s.vars, w) ==> t == S.Visited(s.(calls := s.calls + [WatchCall(w.id)]), d, s.lastDirty == Some(w.id))) &&
      (!Quiet(s.vars, w) ==>
         !t.stop && t.dirty && t.state.lastDirty == Some(w.id) && Plain(t.state) &&
         |t.state.watchers| == |s.watchers| && t.state.watchers[i].id == w.id)
  {
    var w := s.watchers[i];
    var s' := s.(calls := s.calls + [WatchCall(w.id)]);
    var v := EvalExpr(s.vars, w.watchFn.result, []);
    assert S.RunFn(s', w.watchFn, []) == Run(s', Returned(v));
    if !Quiet(s.vars, w) {
      assert PlainWatcher(w);
      var prior := if w.last.Seen? then w.last.value else v;
      var ws1 := S.SetLast(s.watchers, w.id, v);
      var m := s'.(lastDirty := Some(w.id), watchers := ws1, calls := s'.calls + [ListenerCall(w.id, v, prior)]);
      ReactsFrame(m, w.listener.fn.body, [v, prior]);
      var t := C.Visit(s, i, d);
      assert t.state.watchers == ws1;
      assert SameShape(s.watchers, ws1);
      assert Plain(t.state) by {
        forall j, k | 0 <= j < k < |ws1| ensures ws1[j].id != ws1[k].id {
          assert ws1[j].id == s.watchers[j].id && ws1[k].id == s.watchers[k].id;
        }
        forall k | 0 <= k < |ws1| ensures PlainWatcher(ws1[k]) {
          assert PlainWatcher(s.watchers[k]);
        }
      }
    }
  }

  // ----- a pass -----

  /** What holds in the middle of a pass, with the slots above `i` visited: a dirty pass
      has a last dirty watcher above `i` with quiet watchers between; a clean pass has
      seen only quiet watchers, and the pointer it may stop at is preceded by quiet ones. */
  predicate ScanInv(s: State, i: int, d: bool)
  {
    (d ==> s.lastDirty.Some? && LastDirtyAbove(s, i)) &&
    (!d ==> QuietBetween(s, i, |s.watchers|) && LastDirtyAbove(s, -1))
  }

  lemma {:induction false} ScanSettles(s: State, i: int, d: bool)
    requires Plain(s) && -1 <= i < |s.watchers| && ScanInv(s, i, d)
    ensures var c := C.ScanFrom(s, i, d);
      Plain(c.state) && LastDirtyAbove(c.state, -1) && (!c.dirty ==> AllQuiet(c.state))
    decreases i + 1
  {
    if i >= 0 {
      var w := s.watchers[i];
      PlainVisit(s, i, d);
      var t := C.Visit(s, i, d);
      if Quiet(s.vars, w) {
        if !t.stop {
          assert ScanInv(t.state, i - 1, d);
          ScanSettles(t.state, i - 1, d);
        } else {
          assert !d;
          assert AllQuiet(t.state) by {
            forall k | 0 <= k < |s.watchers| ensures Quiet(s.vars, s.watchers[k]) {
              if k < i {
                assert QuietBetween(s, -1, i);
              }
            }
          }
        }
      } else {
        assert LastDirtyAbove(t.state, i - 1) by {
          forall j | 0 <= j < |t.state.watchers| && t.state.watchers[j].id == w.id ensures j == i {
            assert UniqueIds(t.state.watchers);
          }
        }
        ScanSettles(t.state, i - 1, true);
      }
    }
  }

  // ----- the drain and the loop -----

  lemma {:induction false} DrainSettles(s: State)
    requires Plain(s) && LastDirtyAbove(s, -1)
    ensures var r := C.Drain(s); Plain(r) && r.asyncQueue == [] && LastDirtyAbove(r, -1)
    decreases S.Weight(s.asyncQueue)
  {
    if s.asyncQueue != [] {
      var s1 := s.(asyncQueue := s.asyncQueue[1..]);
      var t := s.asyncQueue[0];
      S.RunTaskGrows(s1, t);
      assert PlainQueue(s1.asyncQueue) by {
        forall k | 0 <= k < |s1.asyncQueue| ensures s1.asyncQueue[k] == s.asyncQueue[k + 1] { }
      }
      ReactsFrame(s1, t.expr.body, []);
      DrainSettles(S.Caught(S.RunTask(s1, t)).(lastDirty := None));
    }
  }

  lemma {:induction false} LoopSettles(s: State, ttl: nat)
    requires Plain(s) && LastDirtyAbove(s, -1)
    ensures var l := C.Loop(s, ttl);
      l.converged ==> Plain(l.state) && l.state.asyncQueue == [] && AllQuiet(l.state)
    decreases ttl
  {
    DrainSettles(s);
    var d := C.Drain(s);
    ScanSettles(d, |d.watchers| - 1, false);
    var c := C.Pass(s);
    if S.Busy(c) && ttl > 0 {
      LoopSettles(c.state, ttl - 1);
    }
  }

  // ----- the theorems -----

  /** With the two corrections, a digest that returns leaves every watcher quiet, and
      nothing queued and no phase: the state is a fixed point of the digest. */
  lemma CorrectedDigestSettles(s: State)
    requires Plain(s)
    ensures var r := C.Digest(s);
      r.outcome.Returned? ==>
        AllQuiet(r.state) && Plain(r.state) && r.state.asyncQueue == [] && r.state.phase.None?
  {
    if s.phase.None? {
      LoopSettles(s.(lastDirty := None, phase := Some(Digesting)), 10);
    }
  }

  /** Over quiet watchers the corrected pass is the pass as written. */
  lemma {:induction false} QuietScanAgrees(s: State, i: int, d: bool)
    requires i < |s.watchers| && AllQuiet(s)
    ensures C.ScanFrom(s, i, d) == S.ScanFrom(s, i, d)
    decreases i + 1
  {
    if i >= 0 {
      var w := s.watchers[i];
      var s' := s.(calls := s.calls + [WatchCall(w.id)]);
      assert S.RunFn(s', w.watchFn, []) == Run(s', Returned(EvalExpr(s.vars, w.watchFn.result, [])));
      assert !C.Fires(s, i);
      QuietScanAgrees(s', i - 1, d);
    }
  }

  /** Over quiet watchers with nothing queued and no last dirty watcher, the corrected loop
      is the loop as written. */
  lemma QuietLoopAgrees(s: State, ttl: nat)
    requires AllQuiet(s) && s.asyncQueue == [] && s.lastDirty == None
    ensures C.Loop(s, ttl) == S.DigestLoop(s, ttl)
  {
    assert C.Drain(s) == s == S.DrainAsync(s);
    QuietScanAgrees(s, |s.watchers| - 1, false);
    QuietScan(s, |s.watchers| - 1, false);
    S.DigestLoopStep(s, ttl, S.Pass(s));
  }

  /** A corrected digest of a settled scope is the digest as written: one watch call per
      watcher, oldest first, and no listener call. */
  lemma SettledCorrectedDigest(s: State)
    requires s.phase.None? && s.asyncQueue == [] && s.applyAsyncId.None? && s.postDigestQueue == []
    requires AllQuiet(s)
    ensures C.Digest(s) == Run(s.(lastDirty := None, calls := s.calls + CallsDown(s.watchers, |s.watchers| - 1)), Returned(Undefined))
  {
    QuietLoopAgrees(s.(lastDirty := None, phase := Some(Digesting)), 10);
    assert C.Digest(s) == S.Digest(s);
    SettledDigest(s);
  }

  /** A second corrected digest after one that returned calls no listener. */
  lemma CorrectedDigestIsFixedPoint(s: State)
    requires Plain(s)
    ensures var r := C.Digest(s);
      r.outcome.Returned? ==>
        C.Digest(r.state) == Run(r.state.(lastDirty := None, calls := r.state.calls + CallsDown(r.state.watchers, |r.state.watchers| - 1)), Returned(Undefined))
  {
    var r := C.Digest(s);
    CorrectedDigestSettles(s);
    if r.outcome.Returned? {
      SettledCorrectedDigest(r.state);
    }
  }

  // ----- the digest as written, when no listener throws or queues -----

  /** Plain scopes with nothing queued whose listeners only assign: neither correction
      comes into play. */
  predicate Tame(s: State)
  {
    Plain(s) && s.asyncQueue == [] &&
    forall k :: 0 <= k < |s.watchers| ==> s.watchers[k].listener.Callback? && Assigns(s.watchers[k].listener.fn.body)
  }

  lemma TameVisit(s: State, i: nat, d: bool)
    requires Tame(s) && i < |s.watchers|
    ensures C.Visit(s, i, d) == S.Visit(s, i, d) && Tame(S.Visit(s, i, d).state) && |S.Visit(s, i, d).state.watchers| == |s.watchers|
  {
    var w := s.watchers[i];
    PlainVisit(s, i, d);
    var s' := s.(calls := s.calls + [WatchCall(w.id)]);
    var v := EvalExpr(s.vars, w.watchFn.result, []);
    assert S.RunFn(s', w.watchFn, []) == Run(s', Returned(v));
    if !Quiet(s.vars, w) {
      var prior := if w.last.Seen? then w.last.value else v;
      var ws1 := S.SetLast(s.watchers, w.id, v);
      var m := s'.(lastDirty := Some(w.id), watchers := ws1, calls := s'.calls + [ListenerCall(w.id, v, prior)]);
      AssignsFrame(m, w.listener.fn.body, [v, prior]);
      var t := S.Visit(s, i, d);
      assert t.dirty;
      assert t.state.watchers == ws1;
      forall k | 0 <= k < |ws1| ensures ws1[k].listener == s.watchers[k].listener { }
    }
  }

  lemma {:induction false} TameScan(s: State, i: int, d: bool)
    requires Tame(s) && i < |s.watchers|
    ensures C.ScanFrom(s, i, d) == S.ScanFrom(s, i, d) && Tame(S.ScanFrom(s, i, d).state)
    decreases i + 1
  {
    if i >= 0 {
      TameVisit(s, i, d);
      TameScan(S.Visit(s, i, d).state, i - 1, S.Visit(s, i, d).dirty);
    }
  }

  lemma {:induction false} TameLoop(s: State, ttl: nat)
    requires Tame(s)
    ensures C.Loop(s, ttl) == S.DigestLoop(s, ttl)
    decreases ttl
  {
    assert C.Drain(s) == s == S.DrainAsync(s);
    TameScan(s, |s.watchers| - 1, false);
    var c := S.Pass(s);
    S.DigestLoopStep(s, ttl, c);
    if S.Busy(c) && ttl > 0 {
      TameLoop(c.state, ttl - 1);
    }
  }

  /** As written, `$digest` reaches a fixed point when no listener throws or queues a
      task: a digest that returns leaves every watcher quiet. */
  lemma TameDigestSettles(s: State)
    requires Tame(s)
    ensures var r := S.Digest(s); r.outcome.Returned? ==> AllQuiet(r.state) && r.state.asyncQueue == []
  {
    if s.phase.None? {
      TameLoop(s.(lastDirty := None, phase := Some(Digesting)), 10);
    }
    CorrectedDigestSettles(s);
  }
}
