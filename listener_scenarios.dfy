/** Two tests of test/scope_spec.js in which a listener calls back into the scope, replayed
    on the model: a listener that registers a watcher (179-199) and a listener that queues
    a task with `$evalAsync` (466-484). */
module ListenerScenarios {
  import opened Values
  import opened Callables
  import opened Wrappers
  import opened ScopeState
  import opened Scenarios
  import S = Semantics

  // ----- test/scope_spec.js:179-199 -----

  function Watched(): Fn { Fn([], Read("testValue")) }

  /** The outer listener: `scope.$watch(function(scope) { return scope.testValue; },
      function() { scope.counter++; })`. */
  function Registrar(): Fn { Fn([Watch(Watched(), Some(Bump("counter")), false)], Const(Undefined)) }

  function Outer(last: Last): Watcher { Watcher(0, Watched(), Callback(Registrar()), last, false) }
  function Inner(last: Last): Watcher { Watcher(1, Watched(), Callback(Bump("counter")), last, false) }

  function NestedVars(v: Value, n: int): map<string, Value> { map["testValue" := v, "counter" := Num(n)] }

  function NestedState(v: Value, n: int, ws: seq<Watcher>, lastDirty: Option<nat>, calls: seq<Call>, phase: Option<Phase>): State
  {
    Initial(NestedVars(v, n)).(watchers := ws, nextWatcher := |ws|, lastDirty := lastDirty, calls := calls, phase := phase)
  }

  /** The scope of the test after its one `$watch` call, with `testValue` holding `v`. */
  function NestedSetup(v: Value, n: int): State
  {
    S.Watch(Initial(NestedVars(v, n)), Watched(), Some(Callback(Registrar())), false)
  }

  function NestedCalls1(v: Value): seq<Call> { [WatchCall(0), ListenerCall(0, v, v)] }
  function NestedCalls2(v: Value): seq<Call> { NestedCalls1(v) + [WatchCall(0), WatchCall(1), ListenerCall(1, v, v)] }

  /** First pass: the outer watcher fires and its listener registers the inner one, which
      also forgets the last dirty watcher. */
  lemma NestedPass1(v: Value, n: int)
    ensures S.Pass(NestedState(v, n, [Outer(NeverEvaluated)], None, [], Some(Digesting)))
      == S.Scan(NestedState(v, n, [Inner(NeverEvaluated), Outer(Seen(v))], None, NestedCalls1(v), Some(Digesting)), true)
  {
    var b := NestedState(v, n, [Outer(NeverEvaluated)], None, [], Some(Digesting));
    assert S.DrainAsync(b) == b;
    var b1 := b.(calls := [WatchCall(0)]);
    ReadRun(b1, "testValue");
    assert S.SetLast(b.watchers, 0, v) == [Outer(Seen(v))];
    var m := b1.(lastDirty := Some(0), watchers := [Outer(Seen(v))], calls := NestedCalls1(v));
    var m1 := S.Watch(m, Watched(), Some(Callback(Bump("counter"))), false);
    assert m1 == NestedState(v, n, [Inner(NeverEvaluated), Outer(Seen(v))], None, NestedCalls1(v), Some(Digesting));
    assert S.Perform(m, Registrar().body[0], [v, v]) == m1;
    assert Registrar().body[1..] == [];
    assert S.RunFn(m, Registrar(), [v, v]) == Run(m1, Returned(Undefined));
    assert S.Visit(b, 0, false) == S.Visited(m1, true, false);
  }

  /** Second pass: the outer watcher is clean; the inner one runs for the first time and
      bumps the counter. */
  lemma NestedPass2(v: Value, n: int)
    ensures S.Pass(NestedState(v, n, [Inner(NeverEvaluated), Outer(Seen(v))], None, NestedCalls1(v), Some(Digesting)))
      == S.Scan(NestedState(v, n + 1, [Inner(Seen(v)), Outer(Seen(v))], Some(1), NestedCalls2(v), Some(Digesting)), true)
  {
    var b := NestedState(v, n, [Inner(NeverEvaluated), Outer(Seen(v))], None, NestedCalls1(v), Some(Digesting));
    assert S.DrainAsync(b) == b;
    IsEqualReflexive(v, false);
    var b1 := b.(calls := NestedCalls1(v) + [WatchCall(0)]);
    ReadRun(b1, "testValue");
    assert S.Visit(b, 1, false) == S.Visited(b1, false, false);
    var b2 := b1.(calls := b1.calls + [WatchCall(1)]);
    ReadRun(b2, "testValue");
    SetLastTwo(Inner(NeverEvaluated), Outer(Seen(v)), 1, v);
    var m := b2.(lastDirty := Some(1), watchers := [Inner(Seen(v)), Outer(Seen(v))], calls := NestedCalls2(v));
    BumpRun(m, "counter", n, [v, v]);
    assert NestedVars(v, n)["counter" := Num(n + 1)] == NestedVars(v, n + 1);
    assert S.Visit(b1, 0, false) == S.Visited(NestedState(v, n + 1, [Inner(Seen(v)), Outer(Seen(v))], Some(1), NestedCalls2(v), Some(Digesting)), true, false);
  }

  /** Third pass: both watchers are clean and the pass stops at the inner one. */
  lemma NestedPass3(v: Value, n: int, calls: seq<Call>)
    ensures var ws := [Inner(Seen(v)), Outer(Seen(v))];
      S.Pass(NestedState(v, n, ws, Some(1), calls, Some(Digesting)))
      == S.Scan(NestedState(v, n, ws, Some(1), calls + [WatchCall(0), WatchCall(1)], Some(Digesting)), false)
  {
    var ws := [Inner(Seen(v)), Outer(Seen(v))];
    var b := NestedState(v, n, ws, Some(1), calls, Some(Digesting));
    assert S.DrainAsync(b) == b;
    IsEqualReflexive(v, false);
    var b1 := b.(calls := calls + [WatchCall(0)]);
    ReadRun(b1, "testValue");
    assert S.Visit(b, 1, false) == S.Visited(b1, false, false);
    var b2 := b1.(calls := b1.calls + [WatchCall(1)]);
    ReadRun(b2, "testValue");
    assert S.Visit(b1, 0, false) == S.Visited(b2, false, true);
  }

  /** A watcher that a listener registers during a digest is run in that same digest:
      its listener bumps the counter once, and the digest returns. */
  lemma ListenerRegistersWatcher(v: Value, n: int)
    ensures S.Digest(NestedSetup(v, n)) ==
      Run(NestedState(v, n + 1, [Inner(Seen(v)), Outer(Seen(v))], Some(1), NestedCalls2(v) + [WatchCall(0), WatchCall(1)], None), Returned(Undefined))
  {
    var s := NestedSetup(v, n);
    assert s.(lastDirty := None, phase := Some(Digesting)) == NestedState(v, n, [Outer(NeverEvaluated)], None, [], Some(Digesting));
    NestedPass1(v, n);
    NestedPass2(v, n);
    NestedPass3(v, n + 1, NestedCalls2(v));
    var ws := [Inner(Seen(v)), Outer(Seen(v))];
    var p1 := NestedState(v, n, [Inner(NeverEvaluated), Outer(Seen(v))], None, NestedCalls1(v), Some(Digesting));
    var p2 := NestedState(v, n + 1, ws, Some(1), NestedCalls2(v), Some(Digesting));
    var e := NestedState(v, n + 1, ws, Some(1), NestedCalls2(v) + [WatchCall(0), WatchCall(1)], Some(Digesting));
    DigestSettles(s, [S.Scan(p1, true), S.Scan(p2, true), S.Scan(e, false)]);
    assert S.DrainPostDigest(S.ClearPhase(e)) == S.ClearPhase(e);
  }

  // ----- test/scope_spec.js:466-484 -----

  /** `function(scope) { scope.asyncEvaluated = true; }` */
  function SetEvaluated(): Fn { Fn([Assign("asyncEvaluated", Const(Bool(true)))], Const(Undefined)) }

  /** The listener: queue `SetEvaluated`, then copy `asyncEvaluated` into
      `asyncEvaluatedImmediately`. */
  function Deferrer(): Fn
  {
    Fn([EvalAsync(SetEvaluated()), Assign("asyncEvaluatedImmediately", Read("asyncEvaluated"))], Const(Undefined))
  }

  function Flags(v: Value, evaluated: bool, immediately: bool): map<string, Value>
  {
    map["aValue" := v, "asyncEvaluated" := Bool(evaluated), "asyncEvaluatedImmediately" := Bool(immediately)]
  }

  function Deferring(last: Last): Watcher { Watcher(0, Fn([], Read("aValue")), Callback(Deferrer()), last, false) }

  function AsyncState(v: Value, evaluated: bool, last: Last, queue: seq<Task>, lastDirty: Option<nat>, calls: seq<Call>, phase: Option<Phase>): State
  {
    Initial(Flags(v, evaluated, false)).(watchers := [Deferring(last)], nextWatcher := 1, asyncQueue := queue,
      lastDirty := lastDirty, calls := calls, phase := phase)
  }

  /** The scope of the test after its `$watch` call, with `aValue` holding `v`. */
  function AsyncSetup(v: Value): State
  {
    S.Watch(Initial(Flags(v, false, false)), Fn([], Read("aValue")), Some(Callback(Deferrer())), false)
  }

  /** First pass: the listener queues the task and then reads `asyncEvaluated`, still
      false. */
  lemma AsyncPass1(v: Value)
    ensures S.Pass(AsyncState(v, false, NeverEvaluated, [], None, [], Some(Digesting)))
      == S.Scan(AsyncState(v, false, Seen(v), [Evaluate(SetEvaluated())], Some(0), [WatchCall(0), ListenerCall(0, v, v)], Some(Digesting)), true)
  {
    var b := AsyncState(v, false, NeverEvaluated, [], None, [], Some(Digesting));
    assert S.DrainAsync(b) == b;
    var b1 := b.(calls := [WatchCall(0)]);
    ReadRun(b1, "aValue");
    assert S.SetLast(b.watchers, 0, v) == [Deferring(Seen(v))];
    var m := b1.(lastDirty := Some(0), watchers := [Deferring(Seen(v))], calls := [WatchCall(0), ListenerCall(0, v, v)]);
    var args := [v, v];
    var m1 := m.(asyncQueue := [Evaluate(SetEvaluated())]);
    assert S.Perform(m, Deferrer().body[0], args) == m1;
    assert Flags(v, false, false)["asyncEvaluatedImmediately" := Bool(false)] == Flags(v, false, false);
    assert S.Perform(m1, Deferrer().body[1], args) == m1;
    assert Deferrer().body[1..][1..] == [];
    assert S.RunActions(m1, Deferrer().body[1..], args) == Run(m1, Returned(Undefined));
    assert S.RunFn(m, Deferrer(), args) == Run(m1, Returned(Undefined));
    assert S.Visit(b, 0, false) == S.Visited(m1, true, false);
  }

  /** Second pass: the task sets `asyncEvaluated`; the watcher is clean and the pass
      stops at it. */
  lemma AsyncPass2(v: Value, calls: seq<Call>)
    ensures S.Pass(AsyncState(v, false, Seen(v), [Evaluate(SetEvaluated())], Some(0), calls, Some(Digesting)))
      == S.Scan(AsyncState(v, true, Seen(v), [], Some(0), calls + [WatchCall(0)], Some(Digesting)), false)
  {
    var b := AsyncState(v, false, Seen(v), [Evaluate(SetEvaluated())], Some(0), calls, Some(Digesting));
    var b0 := b.(asyncQueue := []);
    var d := AsyncState(v, true, Seen(v), [], Some(0), calls, Some(Digesting));
    assert Flags(v, false, false)["asyncEvaluated" := Bool(true)] == Flags(v, true, false);
    assert S.Perform(b0, SetEvaluated().body[0], []) == d;
    assert SetEvaluated().body[1..] == [];
    assert S.RunTask(b0, Evaluate(SetEvaluated())) == Run(d, Returned(Undefined));
    assert S.DrainAsync(d) == d;
    assert S.DrainAsync(b) == d;
    IsEqualReflexive(v, false);
    var d1 := d.(calls := calls + [WatchCall(0)]);
    ReadRun(d1, "aValue");
    assert S.Visit(d, 0, false) == S.Visited(d1, false, true);
  }

  /** A task a listener queues with `$evalAsync` runs later in the same digest: after the
      listener has returned (so the listener saw `asyncEvaluated` still false) and before
      `$digest` returns (so it is true afterwards). */
  lemma EvalAsyncLaterInDigest(v: Value)
    ensures S.Digest(AsyncSetup(v)) ==
      Run(AsyncState(v, true, Seen(v), [], Some(0), [WatchCall(0), ListenerCall(0, v, v), WatchCall(0)], None), Returned(Undefined))
    ensures Flags(v, true, false)["asyncEvaluated"] == Bool(true)
    ensures Flags(v, true, false)["asyncEvaluatedImmediately"] == Bool(false)
  {
    var s := AsyncSetup(v);
    assert s.(lastDirty := None, phase := Some(Digesting)) == AsyncState(v, false, NeverEvaluated, [], None, [], Some(Digesting));
    AsyncPass1(v);
    var c1 := [WatchCall(0), ListenerCall(0, v, v)];
    AsyncPass2(v, c1);
    var p1 := AsyncState(v, false, Seen(v), [Evaluate(SetEvaluated())], Some(0), c1, Some(Digesting));
    var e := AsyncState(v, true, Seen(v), [], Some(0), c1 + [WatchCall(0)], Some(Digesting));
    DigestSettles(s, [S.Scan(p1, true), S.Scan(e, false)]);
    assert S.DrainPostDigest(S.ClearPhase(e)) == S.ClearPhase(e);
  }
}
