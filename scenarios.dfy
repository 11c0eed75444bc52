/** The behaviour test/scope_spec.js pins down, replayed on the model. Each lemma builds
    the test's scope, runs the same calls, and states what the test expects. User
    callables are written in the action language of module Callables; the tests'
    string operations and the array of test/scope_spec.js:151-177 are replaced by plain
    reads and separate properties. */
module Scenarios {
  import opened Values
  import opened Callables
  import opened Wrappers
  import opened ScopeState
  import S = Semantics

  /** The registration numbers of the watch functions called, in call order. */
  function WatchOrder(cs: seq<Call>): (r: seq<nat>)
    ensures |r| <= |cs|
  {
    if cs == [] then [] else (if cs[0].WatchCall? then [cs[0].id] else []) + WatchOrder(cs[1..])
  }

  lemma {:induction false} WatchOrderAppend(a: seq<Call>, b: seq<Call>)
    ensures WatchOrder(a + b) == WatchOrder(a) + WatchOrder(b)
  {
    if a == [] {
      assert a + b == b;
    } else {
      var head := if a[0].WatchCall? then [a[0].id] else [];
      assert (a + b)[0] == a[0];
      assert (a + b)[1..] == a[1..] + b;
      calc {
        WatchOrder(a + b);
        head + WatchOrder(a[1..] + b);
        { WatchOrderAppend(a[1..], b); }
        head + (WatchOrder(a[1..]) + WatchOrder(b));
        (head + WatchOrder(a[1..])) + WatchOrder(b);
      }
    }
  }

  /** The loop of `$digest` given its passes `cs`: all leave work but the last. */
  lemma {:induction false} LoopSettles(s: State, ttl: nat, cs: seq<S.Scan>)
    requires 1 <= |cs| <= ttl + 1
    requires cs[0] == S.Pass(s)
    requires forall k :: 0 < k < |cs| ==> cs[k] == S.Pass(cs[k - 1].state)
    requires forall k :: 0 <= k < |cs| - 1 ==> S.Busy(cs[k])
    requires !S.Busy(cs[|cs| - 1])
    ensures S.DigestLoop(s, ttl) == S.Settled(cs[|cs| - 1].state, true)
    decreases ttl
  {
    S.DigestLoopStep(s, ttl, cs[0]);
    if |cs| > 1 {
      LoopSettles(cs[0].state, ttl - 1, cs[1..]);
    }
  }

  /** One pass of the loop that leaves the watchers dirty. */
  lemma LoopBusyStep(s: State, ttl: nat, t: State)
    requires S.Pass(s) == S.Scan(t, true)
    ensures ttl == 0 ==> S.DigestLoop(s, ttl) == S.Settled(S.ClearPhase(t), false)
    ensures ttl > 0 ==> S.DigestLoop(s, ttl) == S.DigestLoop(t, ttl - 1)
  {
    S.DigestLoopStep(s, ttl, S.Scan(t, true));
  }

  /** A loop whose passes, from the `k`-th on, all leave the watchers dirty runs out of
      passes: it ends at the state after its last pass, with the phase cleared. */
  lemma {:induction false} BusyFrom(f: nat -> State, k: nat, ttl: nat)
    requires forall j: nat :: k <= j <= k + ttl ==> S.Pass(f(j)) == S.Scan(f(j + 1), true)
    ensures S.DigestLoop(f(k), ttl) == S.Settled(S.ClearPhase(f(k + ttl + 1)), false)
    decreases ttl
  {
    LoopBusyStep(f(k), ttl, f(k + 1));
    if ttl > 0 {
      BusyFrom(f, k + 1, ttl - 1);
    }
  }

  /** `$digest` of a scope outside any phase with no flush pending, given its passes. */
  lemma DigestSettles(s: State, cs: seq<S.Scan>)
    requires s.phase.None? && s.applyAsyncId.None?
    requires 1 <= |cs| <= 11
    requires cs[0] == S.Pass(s.(lastDirty := None, phase := Some(Digesting)))
    requires forall k :: 0 < k < |cs| ==> cs[k] == S.Pass(cs[k - 1].state)
    requires forall k :: 0 <= k < |cs| - 1 ==> S.Busy(cs[k])
    requires !S.Busy(cs[|cs| - 1])
    ensures S.Digest(s) == Run(S.DrainPostDigest(S.ClearPhase(cs[|cs| - 1].state)), Returned(Undefined))
  {
    LoopSettles(s.(lastDirty := None, phase := Some(Digesting)), 10, cs);
  }

  /** `$digest` of a scope outside any phase with no flush pending, when its first
      eleven passes, given by `f`, all leave work. */
  lemma DigestGivesUp(s: State, f: nat -> State)
    requires s.phase.None? && s.applyAsyncId.None?
    requires f(0) == s.(lastDirty := None, phase := Some(Digesting))
    requires forall j: nat :: j <= 10 ==> S.Pass(f(j)) == S.Scan(f(j + 1), true)
    ensures S.Digest(s) == Run(S.ClearPhase(f(11)), Threw(IterationsReached))
  {
    BusyFrom(f, 0, 10);
  }

  // ----- test/scope_spec.js:315-345 -----

  function First(): Fn { Fn([], Read("aValue")) }
  function SelfRemover(): Fn { Fn([Deregister(1)], Const(Undefined)) }

  /** The scope of the test after its three `$watch` calls. */
  function DestroySetup(): State
  {
    S.Watch(S.Watch(S.Watch(Initial(map["aValue" := Str("abc")]), First(), None, false), SelfRemover(), None, false), First(), None, false)
  }

  function DestroyState(ws: seq<Watcher>, lastDirty: Option<nat>, calls: seq<Call>): State
  {
    Initial(map["aValue" := Str("abc")]).(watchers := ws, nextWatcher := 3, lastDirty := lastDirty, calls := calls, phase := Some(Digesting))
  }

  function W(id: nat, f: Fn, last: Last): Watcher { Watcher(id, f, Callback(NoOp), last, false) }

  lemma DestroyPass1()
    ensures S.Pass(DestroyState([W(2, First(), NeverEvaluated), W(1, SelfRemover(), NeverEvaluated), W(0, First(), NeverEvaluated)], None, []))
      == S.Scan(DestroyState([W(2, First(), Seen(Str("abc"))), W(0, First(), Seen(Str("abc")))], Some(2),
           [WatchCall(0), ListenerCall(0, Str("abc"), Str("abc")), WatchCall(1), ListenerCall(1, Undefined, Undefined),
            WatchCall(2), ListenerCall(2, Str("abc"), Str("abc"))]), true)
  {
    var abc := Str("abc");
    var w0, w1, w2 := W(0, First(), NeverEvaluated), W(1, SelfRemover(), NeverEvaluated), W(2, First(), NeverEvaluated);
    var x0, x2 := W(0, First(), Seen(abc)), W(2, First(), Seen(abc));
    var b := DestroyState([w2, w1, w0], None, []);
    assert S.DrainAsync(b) == b;
    var c0 := [WatchCall(0), ListenerCall(0, abc, abc)];
    var v2 := S.Visit(b, 2, false);
    assert v2 == S.Visited(DestroyState([w2, w1, x0], Some(0), c0), true, false);
    var r1 := S.RunFn(v2.state.(calls := c0 + [WatchCall(1)]), SelfRemover(), []);
    assert S.IndexOf([w2, w1, x0], 1) == 1;
    assert r1 == Run(DestroyState([w2, x0], None, c0 + [WatchCall(1)]), Returned(Undefined));
    var c1 := c0 + [WatchCall(1), ListenerCall(1, Undefined, Undefined)];
    var v1 := S.Visit(v2.state, 1, true);
    assert v1 == S.Visited(DestroyState([w2, x0], Some(1), c1), true, false);
    var v0 := S.Visit(v1.state, 0, true);
    var p1 := DestroyState([x2, x0], Some(2), c1 + [WatchCall(2), ListenerCall(2, abc, abc)]);
    assert v0 == S.Visited(p1, true, false);
    assert S.ScanFrom(v0.state, -1, true) == S.Scan(p1, true);
    assert S.ScanFrom(v1.state, 0, true) == S.Scan(p1, true);
    assert S.ScanFrom(v2.state, 1, true) == S.Scan(p1, true);
  }

  lemma DestroyPass2(calls: seq<Call>)
    ensures var ws := [W(2, First(), Seen(Str("abc"))), W(0, First(), Seen(Str("abc")))];
      S.Pass(DestroyState(ws, Some(2), calls)) == S.Scan(DestroyState(ws, Some(2), calls + [WatchCall(0), WatchCall(2)]), false)
  {
    var ws := [W(2, First(), Seen(Str("abc"))), W(0, First(), Seen(Str("abc")))];
    var p1 := DestroyState(ws, Some(2), calls);
    assert S.DrainAsync(p1) == p1;
    var u1 := S.Visit(p1, 1, false);
    assert u1 == S.Visited(DestroyState(ws, Some(2), calls + [WatchCall(0)]), false, false);
    var u0 := S.Visit(u1.state, 0, false);
    assert u0 == S.Visited(DestroyState(ws, Some(2), calls + [WatchCall(0), WatchCall(2)]), false, true);
  }

  lemma WatchOrderCons(c: Call, cs: seq<Call>)
    ensures WatchOrder([c] + cs) == (if c.WatchCall? then [c.id] else []) + WatchOrder(cs)
  {
    assert ([c] + cs)[1..] == cs;
  }

  lemma DestroyOrder(abc: Value)
    ensures WatchOrder([WatchCall(0), ListenerCall(0, abc, abc), WatchCall(1), ListenerCall(1, Undefined, Undefined),
      WatchCall(2), ListenerCall(2, abc, abc)] + [WatchCall(0), WatchCall(2)]) == [0, 1, 2, 0, 2]
  {
    var tail := [WatchCall(0), WatchCall(2)];
    WatchOrderCons(WatchCall(2), []);
    WatchOrderCons(WatchCall(0), [WatchCall(2)]);
    WatchOrderCons(ListenerCall(2, abc, abc), []);
    WatchOrderCons(WatchCall(2), [ListenerCall(2, abc, abc)]);
    WatchOrderCons(ListenerCall(1, Undefined, Undefined), [WatchCall(2), ListenerCall(2, abc, abc)]);
    WatchOrderCons(WatchCall(1), [ListenerCall(1, Undefined, Undefined), WatchCall(2), ListenerCall(2, abc, abc)]);
    WatchOrderCons(ListenerCall(0, abc, abc), [WatchCall(1), ListenerCall(1, Undefined, Undefined), WatchCall(2), ListenerCall(2, abc, abc)]);
    WatchOrderCons(WatchCall(0), [ListenerCall(0, abc, abc), WatchCall(1), ListenerCall(1, Undefined, Undefined), WatchCall(2), ListenerCall(2, abc, abc)]);
    WatchOrderAppend([WatchCall(0), ListenerCall(0, abc, abc), WatchCall(1), ListenerCall(1, Undefined, Undefined), WatchCall(2), ListenerCall(2, abc, abc)], tail);
  }

  lemma DestroySetupShape()
    ensures DestroySetup() == DestroyState([W(2, First(), NeverEvaluated), W(1, SelfRemover(), NeverEvaluated), W(0, First(), NeverEvaluated)], None, []).(phase := None)
  {
  }

  /** A watcher that removes itself inside its watch function is still treated as
      changed in that visit; the slot it vacated makes the next (newer) watcher be
      visited in turn, and the second pass stops at the last dirty one. */
  lemma DestroyDuringDigest()
    ensures WatchOrder(S.Digest(DestroySetup()).state.calls) == [0, 1, 2, 0, 2]
  {
    var abc := Str("abc");
    var calls := [WatchCall(0), ListenerCall(0, abc, abc), WatchCall(1), ListenerCall(1, Undefined, Undefined), WatchCall(2), ListenerCall(2, abc, abc)];
    var ws := [W(2, First(), Seen(abc)), W(0, First(), Seen(abc))];
    DestroySetupShape();
    DestroyPass1();
    DestroyPass2(calls);
    var p2 := DestroyState(ws, Some(2), calls + [WatchCall(0), WatchCall(2)]);
    DigestSettles(DestroySetup(), [S.Scan(DestroyState(ws, Some(2), calls), true), S.Scan(p2, false)]);
    assert S.DrainPostDigest(S.ClearPhase(p2)) == S.ClearPhase(p2);
    DestroyOrder(abc);
  }

  // ----- test/scope_spec.js:347-374 -----

  /** `function() { destroyWatch(); }`, the remover of registration 1. */
  function RemoveSecond(): Fn { Fn([Deregister(1)], Const(Undefined)) }
  /** `function(scope) { }` */
  function Blank(): Fn { Fn([], Const(Undefined)) }

  function AnotherVars(counter: int): map<string, Value> { map["aValue" := Str("abc"), "counter" := Num(counter)] }

  /** The scope of the test after its three `$watch` calls. */
  function AnotherSetup(): State
  {
    S.Watch(S.Watch(S.Watch(Initial(AnotherVars(0)), First(), Some(Callback(RemoveSecond())), false),
      Blank(), Some(Callback(NoOp)), false), First(), Some(Callback(Bump("counter"))), false)
  }

  function AnotherState(ws: seq<Watcher>, counter: int, lastDirty: Option<nat>, calls: seq<Call>): State
  {
    Initial(AnotherVars(counter)).(watchers := ws, nextWatcher := 3, lastDirty := lastDirty, calls := calls, phase := Some(Digesting))
  }

  function A0(last: Last): Watcher { Watcher(0, First(), Callback(RemoveSecond()), last, false) }
  function A2(last: Last): Watcher { Watcher(2, First(), Callback(Bump("counter")), last, false) }
  const A1 := Watcher(1, Blank(), Callback(NoOp), NeverEvaluated, false)

  lemma AnotherSetupShape()
    ensures AnotherSetup() == AnotherState([A2(NeverEvaluated), A1, A0(NeverEvaluated)], 0, None, []).(phase := None)
  {
  }

  /** The first watcher's visit: it fires, and its listener removes the second watcher,
      which also forgets the last dirty watcher. */
  lemma AnotherVisit0()
    ensures var abc := Str("abc");
      S.Visit(AnotherState([A2(NeverEvaluated), A1, A0(NeverEvaluated)], 0, None, []), 2, false)
      == S.Visited(AnotherState([A2(NeverEvaluated), A0(Seen(abc))], 0, None, [WatchCall(0), ListenerCall(0, abc, abc)]), true, false)
  {
    var abc := Str("abc");
    var b := AnotherState([A2(NeverEvaluated), A1, A0(NeverEvaluated)], 0, None, []);
    var b1 := b.(calls := [WatchCall(0)]);
    ReadRun(b1, "aValue");
    SetLastThree(A2(NeverEvaluated), A1, A0(NeverEvaluated), 0, abc);
    var s1 := b1.(lastDirty := Some(0), watchers := [A2(NeverEvaluated), A1, A0(Seen(abc))]);
    var s2 := s1.(calls := [WatchCall(0), ListenerCall(0, abc, abc)]);
    assert S.IndexOf(s2.watchers, 1) == 1;
    assert S.Deregister(s2, 1) == AnotherState([A2(NeverEvaluated), A0(Seen(abc))], 0, None, s2.calls);
    assert S.RunFn(s2, RemoveSecond(), [abc, abc]) == Run(S.Deregister(s2, 1), Returned(Undefined));
  }

  lemma SetLastThree(x: Watcher, y: Watcher, z: Watcher, id: nat, v: Value)
    ensures S.SetLast([x, y, z], id, v) == [if x.id == id then x.(last := Seen(v)) else x,
      if y.id == id then y.(last := Seen(v)) else y, if z.id == id then z.(last := Seen(v)) else z]
  {
  }

  /** The revisit of the first watcher in the slot the removal vacated: clean, and not
      the last dirty watcher any more. */
  lemma AnotherVisit1(calls: seq<Call>)
    ensures var m := AnotherState([A2(NeverEvaluated), A0(Seen(Str("abc")))], 0, None, calls);
      S.Visit(m, 1, true) == S.Visited(m.(calls := calls + [WatchCall(0)]), true, false)
  {
    var m := AnotherState([A2(NeverEvaluated), A0(Seen(Str("abc")))], 0, None, calls);
    ReadRun(m.(calls := calls + [WatchCall(0)]), "aValue");
  }

  /** The third watcher's visit: it fires and bumps the counter. */
  lemma AnotherVisit2(calls: seq<Call>)
    ensures var abc := Str("abc");
      S.Visit(AnotherState([A2(NeverEvaluated), A0(Seen(abc))], 0, None, calls), 0, true)
      == S.Visited(AnotherState([A2(Seen(abc)), A0(Seen(abc))], 1, Some(2), calls + [WatchCall(2), ListenerCall(2, abc, abc)]), true, false)
  {
    var abc := Str("abc");
    var m1 := AnotherState([A2(NeverEvaluated), A0(Seen(abc))], 0, None, calls);
    ReadRun(m1.(calls := calls + [WatchCall(2)]), "aValue");
    SetLastTwo(A2(NeverEvaluated), A0(Seen(abc)), 2, abc);
    var t := m1.(calls := calls + [WatchCall(2)], lastDirty := Some(2), watchers := [A2(Seen(abc)), A0(Seen(abc))]);
    var t1 := t.(calls := t.calls + [ListenerCall(2, abc, abc)]);
    BumpRun(t1, "counter", 0, [abc, abc]);
    assert AnotherVars(0)["counter" := Num(1)] == AnotherVars(1);
  }

  /** The first pass: the slot the removal vacated brings the first watcher round again,
      clean; since no watcher is marked last dirty any more the pass goes on to the third
      watcher, which fires. */
  lemma AnotherPass1()
    ensures var abc := Str("abc");
      S.Pass(AnotherState([A2(NeverEvaluated), A1, A0(NeverEvaluated)], 0, None, []))
      == S.Scan(AnotherState([A2(Seen(abc)), A0(Seen(abc))], 1, Some(2),
           [WatchCall(0), ListenerCall(0, abc, abc), WatchCall(0), WatchCall(2), ListenerCall(2, abc, abc)]), true)
  {
    var abc := Str("abc");
    var b := AnotherState([A2(NeverEvaluated), A1, A0(NeverEvaluated)], 0, None, []);
    assert S.DrainAsync(b) == b;
    var c0 := [WatchCall(0), ListenerCall(0, abc, abc)];
    AnotherVisit0();
    var m := AnotherState([A2(NeverEvaluated), A0(Seen(abc))], 0, None, c0);
    AnotherVisit1(c0);
    AnotherVisit2(c0 + [WatchCall(0)]);
    var e := AnotherState([A2(Seen(abc)), A0(Seen(abc))], 1, Some(2), c0 + [WatchCall(0)] + [WatchCall(2), ListenerCall(2, abc, abc)]);
    assert S.ScanFrom(m.(calls := c0 + [WatchCall(0)]), 0, true) == S.Scan(e, true);
    assert S.ScanFrom(m, 1, true) == S.Scan(e, true);
    assert e.calls == [WatchCall(0), ListenerCall(0, abc, abc), WatchCall(0), WatchCall(2), ListenerCall(2, abc, abc)];
  }

  /** The second pass finds both watchers clean and stops at the third. */
  lemma AnotherPass2(calls: seq<Call>)
    ensures var ws := [A2(Seen(Str("abc"))), A0(Seen(Str("abc")))];
      S.Pass(AnotherState(ws, 1, Some(2), calls)) == S.Scan(AnotherState(ws, 1, Some(2), calls + [WatchCall(0), WatchCall(2)]), false)
  {
    var ws := [A2(Seen(Str("abc"))), A0(Seen(Str("abc")))];
    var p := AnotherState(ws, 1, Some(2), calls);
    assert S.DrainAsync(p) == p;
    var u1 := S.Visit(p, 1, false);
    assert u1 == S.Visited(AnotherState(ws, 1, Some(2), calls + [WatchCall(0)]), false, false);
    var u0 := S.Visit(u1.state, 0, false);
    assert u0 == S.Visited(AnotherState(ws, 1, Some(2), calls + [WatchCall(0), WatchCall(2)]), false, true);
  }

  lemma AnotherOrder(abc: Value)
    ensures WatchOrder([WatchCall(0), ListenerCall(0, abc, abc), WatchCall(0), WatchCall(2), ListenerCall(2, abc, abc)]
      + [WatchCall(0), WatchCall(2)]) == [0, 0, 2, 0, 2]
  {
    var tail := [WatchCall(0), WatchCall(2)];
    WatchOrderCons(WatchCall(2), []);
    WatchOrderCons(WatchCall(0), [WatchCall(2)]);
    WatchOrderCons(ListenerCall(2, abc, abc), []);
    WatchOrderCons(WatchCall(2), [ListenerCall(2, abc, abc)]);
    WatchOrderCons(WatchCall(0), [WatchCall(2), ListenerCall(2, abc, abc)]);
    WatchOrderCons(ListenerCall(0, abc, abc), [WatchCall(0), WatchCall(2), ListenerCall(2, abc, abc)]);
    WatchOrderCons(WatchCall(0), [ListenerCall(0, abc, abc), WatchCall(0), WatchCall(2), ListenerCall(2, abc, abc)]);
    WatchOrderAppend([WatchCall(0), ListenerCall(0, abc, abc), WatchCall(0), WatchCall(2), ListenerCall(2, abc, abc)], tail);
  }

  /** A listener that removes a newer watcher makes the pass revisit the current watcher
      in the freed slot, and the third watcher's listener still runs exactly once. */
  lemma DestroyAnotherDuringDigest()
    ensures var r := S.Digest(AnotherSetup());
      WatchOrder(r.state.calls) == [0, 0, 2, 0, 2] && Counter(r.state) == Num(1)
  {
    var abc := Str("abc");
    var calls := [WatchCall(0), ListenerCall(0, abc, abc), WatchCall(0), WatchCall(2), ListenerCall(2, abc, abc)];
    var ws := [A2(Seen(abc)), A0(Seen(abc))];
    AnotherSetupShape();
    AnotherPass1();
    AnotherPass2(calls);
    var p2 := AnotherState(ws, 1, Some(2), calls + [WatchCall(0), WatchCall(2)]);
    DigestSettles(AnotherSetup(), [S.Scan(AnotherState(ws, 1, Some(2), calls), true), S.Scan(p2, false)]);
    assert S.DrainPostDigest(S.ClearPhase(p2)) == S.ClearPhase(p2);
    AnotherOrder(abc);
  }

  // ----- test/scope_spec.js:376-398 -----

  /** `function(scope) { destroyWatch1(); destroyWatch2(); }` */
  function RemoveBoth(): Fn { Fn([Deregister(0), Deregister(1)], Const(Undefined)) }

  function SeveralSetup(): State
  {
    S.Watch(S.Watch(Initial(AnotherVars(0)), RemoveBoth(), None, false), First(), Some(Callback(Bump("counter"))), false)
  }

  function SeveralState(ws: seq<Watcher>, lastDirty: Option<nat>, calls: seq<Call>): State
  {
    Initial(AnotherVars(0)).(watchers := ws, nextWatcher := 2, lastDirty := lastDirty, calls := calls, phase := Some(Digesting))
  }

  /** The one pass that does anything: the oldest watcher empties the registry from its
      watch function and still counts as changed; the slot of the other is then empty. */
  lemma SeveralPass1()
    ensures S.Pass(SeveralState([Watcher(1, First(), Callback(Bump("counter")), NeverEvaluated, false),
        Watcher(0, RemoveBoth(), Callback(NoOp), NeverEvaluated, false)], None, []))
      == S.Scan(SeveralState([], Some(0), [WatchCall(0), ListenerCall(0, Undefined, Undefined)]), true)
  {
    var w1 := Watcher(1, First(), Callback(Bump("counter")), NeverEvaluated, false);
    var w0 := Watcher(0, RemoveBoth(), Callback(NoOp), NeverEvaluated, false);
    var b := SeveralState([w1, w0], None, []);
    assert S.DrainAsync(b) == b;
    var b1 := b.(calls := [WatchCall(0)]);
    assert S.IndexOf([w1, w0], 0) == 1;
    var c1 := SeveralState([w1], None, [WatchCall(0)]);
    assert S.Deregister(b1, 0) == c1;
    assert S.IndexOf([w1], 1) == 0;
    assert S.Deregister(c1, 1) == SeveralState([], None, [WatchCall(0)]);
    assert S.RunFn(b1, RemoveBoth(), []) == Run(SeveralState([], None, [WatchCall(0)]), Returned(Undefined));
    var e := SeveralState([], Some(0), [WatchCall(0), ListenerCall(0, Undefined, Undefined)]);
    assert S.Visit(b, 1, false) == S.Visited(e, true, false);
    assert S.Visit(e, 0, true) == S.Visited(e, true, false);
  }

  /** A watch function that removes itself and the only other watcher ends the digest
      after one watch call, and the other watcher's listener never runs. */
  lemma DestroySeveralDuringDigest()
    ensures var r := S.Digest(SeveralSetup());
      WatchOrder(r.state.calls) == [0] && Counter(r.state) == Num(0) && r.state.watchers == []
  {
    var e := SeveralState([], Some(0), [WatchCall(0), ListenerCall(0, Undefined, Undefined)]);
    assert SeveralSetup() == SeveralState([Watcher(1, First(), Callback(Bump("counter")), NeverEvaluated, false),
        Watcher(0, RemoveBoth(), Callback(NoOp), NeverEvaluated, false)], None, []).(phase := None);
    SeveralPass1();
    assert S.DrainAsync(e) == e;
    assert S.Pass(e) == S.Scan(e, false);
    DigestSettles(SeveralSetup(), [S.Scan(e, true), S.Scan(e, false)]);
    assert S.DrainPostDigest(S.ClearPhase(e)) == S.ClearPhase(e);
    WatchOrderCons(WatchCall(0), [ListenerCall(0, Undefined, Undefined)]);
    WatchOrderCons(ListenerCall(0, Undefined, Undefined), []);
  }

  // ----- the ten-iteration limit (test/scope_spec.js:127-149) -----

  /** `function() { scope.<key>++; }` */
  function Bump(key: string): Fn { Fn([Assign(key, Incremented(Read(key)))], Const(Undefined)) }

  lemma ReadRun(s: State, key: string)
    ensures S.RunFn(s, Fn([], Read(key)), []) == Run(s, Returned(if key in s.vars then s.vars[key] else Undefined))
  {
  }

  lemma BumpRun(s: State, key: string, n: int, args: seq<Value>)
    requires key in s.vars && s.vars[key] == Num(n)
    ensures S.RunFn(s, Bump(key), args) == Run(s.(vars := s.vars[key := Num(n + 1)]), Returned(Undefined))
  {
    assert EvalExpr(s.vars, Read(key), args) == Num(n);
    assert EvalExpr(s.vars, Incremented(Read(key)), args) == Num(n + 1);
    var s1 := S.Perform(s, Assign(key, Incremented(Read(key))), args);
    assert s1 == s.(vars := s.vars[key := Num(n + 1)]);
    var body := Bump(key).body;
    assert body[1..] == [];
    assert S.RunActions(s, body, args) == S.RunActions(s1, [], args) == Run(s1, Returned(Undefined));
  }

  lemma SetLastTwo(x: Watcher, y: Watcher, id: nat, v: Value)
    ensures S.SetLast([x, y], id, v) == [if x.id == id then x.(last := Seen(v)) else x, if y.id == id then y.(last := Seen(v)) else y]
  {
  }

  function Counters(a: int, b: int): map<string, Value> { map["counterA" := Num(a), "counterB" := Num(b)] }

  /** Two watchers that keep each other dirty: the first watches `counterA` and bumps
      `counterB`, the second watches `counterB` and bumps `counterA`. */
  function PingPongSetup(): State
  {
    S.Watch(S.Watch(Initial(Counters(0, 0)), Fn([], Read("counterA")), Some(Callback(Bump("counterB"))), false),
      Fn([], Read("counterB")), Some(Callback(Bump("counterA"))), false)
  }

  function PingPongState(a: int, b: int, lastA: Last, lastB: Last, lastDirty: Option<nat>, calls: seq<Call>): State
  {
    Initial(Counters(a, b)).(watchers := [Watcher(1, Fn([], Read("counterB")), Callback(Bump("counterA")), lastB, false),
      Watcher(0, Fn([], Read("counterA")), Callback(Bump("counterB")), lastA, false)],
      nextWatcher := 2, lastDirty := lastDirty, calls := calls, phase := Some(Digesting))
  }

  /** The calls one pass makes when both counters stood at `n`. */
  function PingPongCalls(n: int, oldA: Value, oldB: Value): seq<Call>
  {
    [WatchCall(0), ListenerCall(0, Num(n), oldA), WatchCall(1), ListenerCall(1, Num(n + 1), oldB)]
  }

  /** The visit of the first watcher when `counterA` differs from what it last saw. */
  lemma PingPongVisitA(n: int, lastA: Last, lastB: Last, lastDirty: Option<nat>, calls: seq<Call>, prior: Value)
    requires lastA != Seen(Num(n)) && prior == (if lastA.Seen? then lastA.value else Num(n))
    ensures S.Visit(PingPongState(n, n, lastA, lastB, lastDirty, calls), 1, false)
      == S.Visited(PingPongState(n, n + 1, Seen(Num(n)), lastB, Some(0), calls + [WatchCall(0), ListenerCall(0, Num(n), prior)]), true, false)
  {
    var b := PingPongState(n, n, lastA, lastB, lastDirty, calls);
    var w := b.watchers[1];
    var b1 := b.(calls := calls + [WatchCall(0)]);
    ReadRun(b1, "counterA");
    assert !S.Unchanged(Num(n), lastA, false);
    SetLastTwo(b.watchers[0], w, 0, Num(n));
    var s1 := b1.(lastDirty := Some(0), watchers := S.SetLast(b.watchers, 0, Num(n)));
    var s2 := s1.(calls := s1.calls + [ListenerCall(0, Num(n), prior)]);
    BumpRun(s2, "counterB", n, [Num(n), prior]);
    assert Counters(n, n)["counterB" := Num(n + 1)] == Counters(n, n + 1);
  }

  /** The visit of the second watcher when `counterB` differs from what it last saw. */
  lemma PingPongVisitB(a: int, n: int, lastA: Last, lastB: Last, calls: seq<Call>, prior: Value)
    requires lastB != Seen(Num(n)) && prior == (if lastB.Seen? then lastB.value else Num(n))
    ensures S.Visit(PingPongState(a, n, lastA, lastB, Some(0), calls), 0, true)
      == S.Visited(PingPongState(a + 1, n, lastA, Seen(Num(n)), Some(1), calls + [WatchCall(1), ListenerCall(1, Num(n), prior)]), true, false)
  {
    var b := PingPongState(a, n, lastA, lastB, Some(0), calls);
    var w := b.watchers[0];
    var b1 := b.(calls := calls + [WatchCall(1)]);
    ReadRun(b1, "counterB");
    assert !S.Unchanged(Num(n), lastB, false);
    SetLastTwo(w, b.watchers[1], 1, Num(n));
    var s1 := b1.(lastDirty := Some(1), watchers := S.SetLast(b.watchers, 1, Num(n)));
    var s2 := s1.(calls := s1.calls + [ListenerCall(1, Num(n), prior)]);
    BumpRun(s2, "counterA", a, [Num(n), prior]);
    assert Counters(a, n)["counterA" := Num(a + 1)] == Counters(a + 1, n);
  }

  /** The first pass finds both watchers never evaluated. */
  lemma PingPongFirstPass(n: int, calls: seq<Call>)
    ensures S.Pass(PingPongState(n, n, NeverEvaluated, NeverEvaluated, None, calls))
      == S.Scan(PingPongState(n + 1, n + 1, Seen(Num(n)), Seen(Num(n + 1)), Some(1), calls + PingPongCalls(n, Num(n), Num(n + 1))), true)
  {
    var b := PingPongState(n, n, NeverEvaluated, NeverEvaluated, None, calls);
    assert S.DrainAsync(b) == b;
    var c1 := calls + [WatchCall(0), ListenerCall(0, Num(n), Num(n))];
    PingPongVisitA(n, NeverEvaluated, NeverEvaluated, None, calls, Num(n));
    var m := PingPongState(n, n + 1, Seen(Num(n)), NeverEvaluated, Some(0), c1);
    PingPongVisitB(n, n + 1, Seen(Num(n)), NeverEvaluated, c1, Num(n + 1));
    var e := PingPongState(n + 1, n + 1, Seen(Num(n)), Seen(Num(n + 1)), Some(1), calls + PingPongCalls(n, Num(n), Num(n + 1)));
    assert e.calls == c1 + [WatchCall(1), ListenerCall(1, Num(n + 1), Num(n + 1))];
    assert S.ScanFrom(m, 0, true) == S.Scan(e, true);
  }

  /** Every later pass finds both counters changed by the other watcher's listener. */
  lemma PingPongPass(n: int, calls: seq<Call>)
    ensures S.Pass(PingPongState(n, n, Seen(Num(n - 1)), Seen(Num(n)), Some(1), calls))
      == S.Scan(PingPongState(n + 1, n + 1, Seen(Num(n)), Seen(Num(n + 1)), Some(1), calls + PingPongCalls(n, Num(n - 1), Num(n))), true)
  {
    var b := PingPongState(n, n, Seen(Num(n - 1)), Seen(Num(n)), Some(1), calls);
    assert S.DrainAsync(b) == b;
    PingPongVisitA(n, Seen(Num(n - 1)), Seen(Num(n)), Some(1), calls, Num(n - 1));
    var m := PingPongState(n, n + 1, Seen(Num(n)), Seen(Num(n)), Some(0), calls + [WatchCall(0), ListenerCall(0, Num(n), Num(n - 1))]);
    PingPongVisitB(n, n + 1, Seen(Num(n)), Seen(Num(n)), calls + [WatchCall(0), ListenerCall(0, Num(n), Num(n - 1))], Num(n));
    var e := PingPongState(n + 1, n + 1, Seen(Num(n)), Seen(Num(n + 1)), Some(1), calls + PingPongCalls(n, Num(n - 1), Num(n)));
    assert e.calls == calls + [WatchCall(0), ListenerCall(0, Num(n), Num(n - 1))] + [WatchCall(1), ListenerCall(1, Num(n + 1), Num(n))];
    assert S.ScanFrom(m, 0, true) == S.Scan(e, true);
  }

  lemma PingPongSetupShape()
    ensures PingPongSetup() == PingPongState(0, 0, NeverEvaluated, NeverEvaluated, None, []).(phase := None)
  {
  }

  /** The scope after `k` passes of the loop. */
  function PingPongAfter(k: nat): State
  {
    if k == 0 then PingPongState(0, 0, NeverEvaluated, NeverEvaluated, None, [])
    else PingPongState(k, k, Seen(Num(k - 1)), Seen(Num(k)), Some(1), PingPongTrace(k))
  }

  function PingPongTrace(k: nat): seq<Call>
  {
    if k == 0 then []
    else if k == 1 then PingPongCalls(0, Num(0), Num(1))
    else PingPongTrace(k - 1) + PingPongCalls(k - 1, Num(k - 2), Num(k - 1))
  }

  /** Every pass finds both counters changed by the other watcher's listener. */
  lemma PingPongStep(k: nat)
    ensures S.Pass(PingPongAfter(k)) == S.Scan(PingPongAfter(k + 1), true)
  {
    if k == 0 {
      var first := PingPongCalls(0, Num(0), Num(1));
      assert PingPongAfter(0) == PingPongState(0, 0, NeverEvaluated, NeverEvaluated, None, []);
      assert PingPongAfter(1) == PingPongState(1, 1, Seen(Num(0)), Seen(Num(1)), Some(1), first);
      PingPongFirstPass(0, []);
      assert [] + first == first;
    } else {
      var trace := PingPongTrace(k);
      assert PingPongAfter(k) == PingPongState(k, k, Seen(Num(k - 1)), Seen(Num(k)), Some(1), trace);
      assert PingPongTrace(k + 1) == trace + PingPongCalls(k, Num(k - 1), Num(k));
      assert PingPongAfter(k + 1) == PingPongState(k + 1, k + 1, Seen(Num(k)), Seen(Num(k + 1)), Some(1), trace + PingPongCalls(k, Num(k - 1), Num(k)));
      PingPongPass(k, trace);
    }
  }

  /** Watchers that keep changing each other make `$digest` give up: it throws
      "10 $digest iterations reached" with the phase cleared, after eleven passes have
      each run both listeners. */
  lemma PingPongDigestThrows()
    ensures var r := S.Digest(PingPongSetup());
      r.outcome == Threw(IterationsReached) && Message(r.outcome.error) == "10 $digest iterations reached" &&
      r.state.phase.None? && r.state.vars == Counters(11, 11)
  {
    PingPongSetupShape();
    forall k: nat | k <= 10 ensures S.Pass(PingPongAfter(k)) == S.Scan(PingPongAfter(k + 1), true) {
      PingPongStep(k);
    }
    DigestGivesUp(PingPongSetup(), PingPongAfter);
    assert PingPongAfter(11).vars == Counters(11, 11);
  }

  /** The registrations test/scope_spec.js:127-149 actually makes: both watch functions
      read `testValue`, which is never set. */
  function TwinState(a: int, b: int, last: Last, lastDirty: Option<nat>, calls: seq<Call>): State
  {
    Initial(Counters(a, b)).(watchers := [Watcher(1, Fn([], Read("testValue")), Callback(Bump("counterA")), last, false),
      Watcher(0, Fn([], Read("testValue")), Callback(Bump("counterB")), last, false)],
      nextWatcher := 2, lastDirty := lastDirty, calls := calls, phase := Some(Digesting))
  }

  function TwinSetup(): State
  {
    S.Watch(S.Watch(Initial(Counters(0, 0)), Fn([], Read("testValue")), Some(Callback(Bump("counterB"))), false),
      Fn([], Read("testValue")), Some(Callback(Bump("counterA"))), false)
  }

  function TwinFirstCalls(): seq<Call>
  {
    [WatchCall(0), ListenerCall(0, Undefined, Undefined), WatchCall(1), ListenerCall(1, Undefined, Undefined)]
  }

  lemma TwinFirstPass()
    ensures S.Pass(TwinState(0, 0, NeverEvaluated, None, [])) == S.Scan(TwinState(1, 1, Seen(Undefined), Some(1), TwinFirstCalls()), true)
  {
    var b := TwinState(0, 0, NeverEvaluated, None, []);
    assert S.DrainAsync(b) == b;
    var ws := b.watchers;
    var x0 := ws[1].(last := Seen(Undefined));
    var x1 := ws[0].(last := Seen(Undefined));
    // the older watcher
    var b1 := b.(calls := [WatchCall(0)]);
    ReadRun(b1, "testValue");
    SetLastTwo(ws[0], ws[1], 0, Undefined);
    var s1 := b1.(lastDirty := Some(0), watchers := [ws[0], x0], calls := [WatchCall(0), ListenerCall(0, Undefined, Undefined)]);
    BumpRun(s1, "counterB", 0, [Undefined, Undefined]);
    assert Counters(0, 0)["counterB" := Num(1)] == Counters(0, 1);
    var m := s1.(vars := Counters(0, 1));
    assert S.Visit(b, 1, false) == S.Visited(m, true, false);
    // the newer watcher
    var m1 := m.(calls := m.calls + [WatchCall(1)]);
    ReadRun(m1, "testValue");
    SetLastTwo(ws[0], x0, 1, Undefined);
    var s2 := m1.(lastDirty := Some(1), watchers := [x1, x0], calls := TwinFirstCalls());
    BumpRun(s2, "counterA", 0, [Undefined, Undefined]);
    assert Counters(0, 1)["counterA" := Num(1)] == Counters(1, 1);
    assert S.Visit(m, 0, true) == S.Visited(TwinState(1, 1, Seen(Undefined), Some(1), TwinFirstCalls()), true, false);
  }

  lemma TwinSecondPass(calls: seq<Call>)
    ensures S.Pass(TwinState(1, 1, Seen(Undefined), Some(1), calls))
      == S.Scan(TwinState(1, 1, Seen(Undefined), Some(1), calls + [WatchCall(0), WatchCall(1)]), false)
  {
    var b := TwinState(1, 1, Seen(Undefined), Some(1), calls);
    assert S.DrainAsync(b) == b;
    var b1 := b.(calls := calls + [WatchCall(0)]);
    ReadRun(b1, "testValue");
    assert S.Visit(b, 1, false) == S.Visited(b1, false, false);
    var b2 := b1.(calls := b1.calls + [WatchCall(1)]);
    ReadRun(b2, "testValue");
    assert S.Visit(b1, 0, false) == S.Visited(b2, false, true);
  }

  /** As written, the two watchers of test/scope_spec.js:127-149 watch the same property
      that neither listener changes, so `$digest` settles after two passes with each
      listener run once: the limit is not reached. */
  lemma TwinDigestSettles()
    ensures var r := S.Digest(TwinSetup());
      r.outcome == Returned(Undefined) && r.state.vars == Counters(1, 1)
  {
    assert TwinSetup() == TwinState(0, 0, NeverEvaluated, None, []).(phase := None);
    TwinFirstPass();
    TwinSecondPass(TwinFirstCalls());
    var e := TwinState(1, 1, Seen(Undefined), Some(1), TwinFirstCalls() + [WatchCall(0), WatchCall(1)]);
    DigestSettles(TwinSetup(), [S.Scan(TwinState(1, 1, Seen(Undefined), Some(1), TwinFirstCalls()), true), S.Scan(e, false)]);
    assert S.DrainPostDigest(S.ClearPhase(e)) == S.ClearPhase(e);
  }

  // ----- one watcher counting its listener calls -----

  /** `scope.$watch(function(scope) { return scope.test; }, function() { scope.counter++; }, byValue)`
      as the only registration, with `test` holding `v` and `counter` holding `n`. */
  function Counting(v: Value, n: int, last: Last, byValue: bool, lastDirty: Option<nat>, calls: seq<Call>, phase: Option<Phase>): State
  {
    Initial(map["test" := v, "counter" := Num(n)]).(
      watchers := [Watcher(0, Fn([], Read("test")), Callback(Bump("counter")), last, byValue)],
      nextWatcher := 1, lastDirty := lastDirty, calls := calls, phase := phase)
  }

  function CountingSetup(v: Value, byValue: bool): State
  {
    S.Watch(Initial(map["test" := v, "counter" := Num(0)]), Fn([], Read("test")), Some(Callback(Bump("counter"))), byValue)
  }

  lemma CountingChangedPass(v: Value, n: int, last: Last, byValue: bool, lastDirty: Option<nat>, calls: seq<Call>)
    requires !S.Unchanged(v, last, byValue)
    ensures S.Pass(Counting(v, n, last, byValue, lastDirty, calls, Some(Digesting)))
      == S.Scan(Counting(v, n + 1, Seen(v), byValue, Some(0), calls + [WatchCall(0), ListenerCall(0, v, if last.Seen? then last.value else v)], Some(Digesting)), true)
  {
    var b := Counting(v, n, last, byValue, lastDirty, calls, Some(Digesting));
    assert S.DrainAsync(b) == b;
    var b1 := b.(calls := calls + [WatchCall(0)]);
    ReadRun(b1, "test");
    var prior := if last.Seen? then last.value else v;
    assert S.SetLast(b.watchers, 0, v) == [b.watchers[0].(last := Seen(v))];
    var s1 := b1.(lastDirty := Some(0), watchers := [b.watchers[0].(last := Seen(v))], calls := calls + [WatchCall(0), ListenerCall(0, v, prior)]);
    BumpRun(s1, "counter", n, [v, prior]);
    assert map["test" := v, "counter" := Num(n)]["counter" := Num(n + 1)] == map["test" := v, "counter" := Num(n + 1)];
    assert S.Visit(b, 0, false) == S.Visited(Counting(v, n + 1, Seen(v), byValue, Some(0), s1.calls, Some(Digesting)), true, false);
  }

  lemma CountingQuietPass(v: Value, n: int, last: Last, byValue: bool, lastDirty: Option<nat>, calls: seq<Call>)
    requires S.Unchanged(v, last, byValue)
    ensures S.Pass(Counting(v, n, last, byValue, lastDirty, calls, Some(Digesting)))
      == S.Scan(Counting(v, n, last, byValue, lastDirty, calls + [WatchCall(0)], Some(Digesting)), false)
  {
    var b := Counting(v, n, last, byValue, lastDirty, calls, Some(Digesting));
    assert S.DrainAsync(b) == b;
    ReadRun(b.(calls := calls + [WatchCall(0)]), "test");
  }

  /** `$digest` with the one counting watcher when the watched value differs from the
      one it last saw: the listener runs once, passing that value (the new value itself
      on the first run) as old value, and a second pass confirms the new value. */
  lemma CountingDigestChanged(v: Value, n: int, last: Last, byValue: bool, lastDirty: Option<nat>, calls: seq<Call>)
    requires !S.Unchanged(v, last, byValue)
    ensures S.Digest(Counting(v, n, last, byValue, lastDirty, calls, None)) ==
      Run(Counting(v, n + 1, Seen(v), byValue, Some(0),
        calls + [WatchCall(0), ListenerCall(0, v, if last.Seen? then last.value else v), WatchCall(0)], None), Returned(Undefined))
  {
    var s := Counting(v, n, last, byValue, lastDirty, calls, None);
    var calls1 := calls + [WatchCall(0), ListenerCall(0, v, if last.Seen? then last.value else v)];
    CountingChangedPass(v, n, last, byValue, None, calls);
    IsEqualReflexive(v, byValue);
    CountingQuietPass(v, n + 1, Seen(v), byValue, Some(0), calls1);
    var m := Counting(v, n + 1, Seen(v), byValue, Some(0), calls1, Some(Digesting));
    var e := Counting(v, n + 1, Seen(v), byValue, Some(0), calls1 + [WatchCall(0)], Some(Digesting));
    DigestSettles(s, [S.Scan(m, true), S.Scan(e, false)]);
    assert S.DrainPostDigest(S.ClearPhase(e)) == S.ClearPhase(e);
  }

  /** `$digest` with the one counting watcher when the watched value is the one it last
      saw: one pass, and the listener does not run. */
  lemma CountingDigestQuiet(v: Value, n: int, last: Last, byValue: bool, lastDirty: Option<nat>, calls: seq<Call>)
    requires S.Unchanged(v, last, byValue)
    ensures S.Digest(Counting(v, n, last, byValue, lastDirty, calls, None)) ==
      Run(Counting(v, n, last, byValue, None, calls + [WatchCall(0)], None), Returned(Undefined))
  {
    var s := Counting(v, n, last, byValue, lastDirty, calls, None);
    CountingQuietPass(v, n, last, byValue, None, calls);
    var e := Counting(v, n, last, byValue, None, calls + [WatchCall(0)], Some(Digesting));
    DigestSettles(s, [S.Scan(e, false)]);
    assert S.DrainPostDigest(S.ClearPhase(e)) == S.ClearPhase(e);
  }

  /** The value of `scope.counter`. */
  function Counter(s: State): Value
  {
    if "counter" in s.vars then s.vars["counter"] else Undefined
  }

  lemma CountingCounter(v: Value, n: int, last: Last, byValue: bool, lastDirty: Option<nat>, calls: seq<Call>, phase: Option<Phase>)
    ensures Counter(Counting(v, n, last, byValue, lastDirty, calls, phase)) == Num(n)
  {
  }

  lemma CountingSetupShape(v: Value, byValue: bool)
    ensures CountingSetup(v, byValue) == Counting(v, 0, NeverEvaluated, byValue, None, [], None)
  {
  }

  /** The user code between digests assigns `scope.test`. */
  lemma CountingAssign(v: Value, n: int, last: Last, byValue: bool, lastDirty: Option<nat>, calls: seq<Call>, w: Value)
    ensures var s := Counting(v, n, last, byValue, lastDirty, calls, None);
      s.(vars := s.vars["test" := w]) == Counting(w, n, last, byValue, lastDirty, calls, None)
  {
    assert map["test" := v, "counter" := Num(n)]["test" := w] == map["test" := w, "counter" := Num(n)];
  }

  /** test/scope_spec.js:42-62 and 64-72: whatever the watched value is, undefined
      included, the first digest after the registration (see `CountingSetupShape`) calls
      the listener once, passing the new value as the old value too, and a second pass
      finds the watcher clean. */
  lemma FirstDigestFires(v: Value, byValue: bool, n: int, lastDirty: Option<nat>, calls: seq<Call>)
    ensures S.Digest(Counting(v, n, NeverEvaluated, byValue, lastDirty, calls, None)) ==
      Run(Counting(v, n + 1, Seen(v), byValue, Some(0), calls + [WatchCall(0), ListenerCall(0, v, v), WatchCall(0)], None), Returned(Undefined))
  {
    CountingDigestChanged(v, n, NeverEvaluated, byValue, lastDirty, calls);
  }

  /** test/scope_spec.js:42-62 and 224-244: digesting again while the watched value is
      the one last seen does not call the listener, whatever that value is; NaN included,
      although `NaN !== NaN`. */
  lemma DigestAgainQuiet(v: Value, n: int, byValue: bool, lastDirty: Option<nat>, calls: seq<Call>)
    ensures S.Digest(Counting(v, n, Seen(v), byValue, lastDirty, calls, None)) ==
      Run(Counting(v, n, Seen(v), byValue, None, calls + [WatchCall(0)], None), Returned(Undefined))
  {
    IsEqualReflexive(v, byValue);
    CountingDigestQuiet(v, n, Seen(v), byValue, lastDirty, calls);
  }

  /** test/scope_spec.js:74-86: assigning another string to the watched property makes the
      next digest call the listener with the new string and the previous one as old value. */
  lemma ChangedStringFires(x: string, y: string, n: int, lastDirty: Option<nat>, calls: seq<Call>)
    requires x != y
    ensures var s := Counting(Str(x), n, Seen(Str(x)), false, lastDirty, calls, None);
      S.Digest(s.(vars := s.vars["test" := Str(y)])) ==
      Run(Counting(Str(y), n + 1, Seen(Str(y)), false, Some(0), calls + [WatchCall(0), ListenerCall(0, Str(y), Str(x)), WatchCall(0)], None), Returned(Undefined))
  {
    CountingAssign(Str(x), n, Seen(Str(x)), false, lastDirty, calls, Str(y));
    CountingDigestChanged(Str(y), n, Seen(Str(x)), false, lastDirty, calls);
  }

  /** test/scope_spec.js:201-222, by-value watcher: pushing onto the watched array (the
      same reference, one more element) makes the next digest call the listener. */
  lemma ArrayPushByValue(r: Ref, items: seq<Value>, x: Value, n: int, lastDirty: Option<nat>, calls: seq<Call>)
    ensures var s := Counting(Arr(r, items), n, Seen(Arr(r, items)), true, lastDirty, calls, None);
      var pushed := Arr(r, items + [x]);
      S.Digest(s.(vars := s.vars["test" := pushed])) ==
      Run(Counting(pushed, n + 1, Seen(pushed), true, Some(0), calls + [WatchCall(0), ListenerCall(0, pushed, Arr(r, items)), WatchCall(0)], None), Returned(Undefined))
  {
    var pushed := Arr(r, items + [x]);
    ModesOnArrays(r, if r == Allocated(0) then Allocated(1) else Allocated(0), items, x);
    CountingAssign(Arr(r, items), n, Seen(Arr(r, items)), true, lastDirty, calls, pushed);
    CountingDigestChanged(pushed, n, Seen(Arr(r, items)), true, lastDirty, calls);
  }

  /** The by-reference counterpart of test/scope_spec.js:201-222: the same push goes
      unnoticed, since the array is still `===` to the one last seen. */
  lemma ArrayPushByReference(r: Ref, items: seq<Value>, x: Value, n: int, lastDirty: Option<nat>, calls: seq<Call>)
    ensures var s := Counting(Arr(r, items), n, Seen(Arr(r, items)), false, lastDirty, calls, None);
      var pushed := Arr(r, items + [x]);
      S.Digest(s.(vars := s.vars["test" := pushed])) ==
      Run(Counting(pushed, n, Seen(Arr(r, items)), false, None, calls + [WatchCall(0)], None), Returned(Undefined))
  {
    var pushed := Arr(r, items + [x]);
    ModesOnArrays(r, if r == Allocated(0) then Allocated(1) else Allocated(0), items, x);
    CountingAssign(Arr(r, items), n, Seen(Arr(r, items)), false, lastDirty, calls, pushed);
    CountingDigestQuiet(pushed, n, Seen(Arr(r, items)), false, lastDirty, calls);
  }
}
