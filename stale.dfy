/** Two ways `$digest` as written returns while a watcher still holds a value other than
    the one its watch function now returns, so that the next digest calls its listener.
    Both scopes are plain in the sense of module FixedPoint, where the corrected digest
    is proved to leave every watcher quiet. */
module StaleWatchers {
  import opened Values
  import opened Callables
  import opened Wrappers
  import opened ScopeState
  import opened Scenarios
  import S = Semantics
  import DigestFacts
  import FixedPoint

  // ----- a listener that writes a watched property and then throws (src/scope.js:96-97) -----

  /** `function() { scope.x++; throw ...; }` */
  function BumpThenThrow(): Fn { Fn([Assign("x", Incremented(Read("x"))), Throw], Const(Undefined)) }

  /** Watcher 0 watches `x` with a no-op listener; watcher 1 watches `y` and its listener
      bumps `x` and throws. `y` has changed since watcher 1 last saw it. */
  function ThrowState(x: int, y: int, lastY: int, calls: seq<Call>, lastDirty: Option<nat>, phase: Option<Phase>): State
  {
    Initial(map["x" := Num(x), "y" := Num(y)]).(
      watchers := [Watcher(1, Fn([], Read("y")), Callback(BumpThenThrow()), Seen(Num(lastY)), false),
                   Watcher(0, Fn([], Read("x")), Callback(NoOp), Seen(Num(x)), false)],
      nextWatcher := 2, calls := calls, lastDirty := lastDirty, phase := phase)
  }

  lemma ThrowPass(n: int, m: int, p: int)
    requires m != p
    ensures var calls := [WatchCall(0), WatchCall(1), ListenerCall(1, Num(m), Num(p))];
      S.Pass(ThrowState(n, m, p, [], None, Some(Digesting)))
      == S.Scan(ThrowState(n, m, m, calls, Some(1), Some(Digesting)).(
           vars := map["x" := Num(n + 1), "y" := Num(m)],
           watchers := [Watcher(1, Fn([], Read("y")), Callback(BumpThenThrow()), Seen(Num(m)), false),
                        Watcher(0, Fn([], Read("x")), Callback(NoOp), Seen(Num(n)), false)],
           log := [UserError]), false)
  {
    var b := ThrowState(n, m, p, [], None, Some(Digesting));
    var wy, wx := b.watchers[0], b.watchers[1];
    assert S.DrainAsync(b) == b;
    var b1 := b.(calls := [WatchCall(0)]);
    ReadRun(b1, "x");
    assert S.Visit(b, 1, false) == S.Visited(b1, false, false);
    var b2 := b1.(calls := [WatchCall(0), WatchCall(1)]);
    ReadRun(b2, "y");
    var wy' := wy.(last := Seen(Num(m)));
    SetLastTwo(wy, wx, 1, Num(m));
    var m1 := b2.(lastDirty := Some(1), watchers := [wy', wx], calls := [WatchCall(0), WatchCall(1), ListenerCall(1, Num(m), Num(p))]);
    var args := [Num(m), Num(p)];
    assert EvalExpr(m1.vars, Incremented(Read("x")), args) == Num(n + 1);
    var m2 := m1.(vars := map["x" := Num(n + 1), "y" := Num(m)]);
    assert S.Perform(m1, Assign("x", Incremented(Read("x"))), args) == m2;
    assert BumpThenThrow().body[1..] == [Throw];
    assert S.RunFn(m1, BumpThenThrow(), args) == Run(m2, Threw(UserError));
    assert S.Visit(b1, 0, false) == S.Visited(m2.(log := [UserError]), false, false);
  }

  /** The final state of the digest of `ThrowState(n, m, p, ...)`. */
  function ThrowEnd(n: int, m: int, p: int): State
  {
    ThrowState(n, m, m, [WatchCall(0), WatchCall(1), ListenerCall(1, Num(m), Num(p))], Some(1), None).(
      vars := map["x" := Num(n + 1), "y" := Num(m)],
      watchers := [Watcher(1, Fn([], Read("y")), Callback(BumpThenThrow()), Seen(Num(m)), false),
                   Watcher(0, Fn([], Read("x")), Callback(NoOp), Seen(Num(n)), false)],
      log := [UserError])
  }

  /** As written, a digest in which the only listener that runs bumps `x` and throws
      returns normally, with watcher 0 still holding the old `x`. */
  lemma StaleAfterThrow(n: int, m: int, p: int)
    requires m != p
    ensures FixedPoint.Plain(ThrowState(n, m, p, [], None, None))
    ensures S.Digest(ThrowState(n, m, p, [], None, None)) == Run(ThrowEnd(n, m, p), Returned(Undefined))
    ensures ThrowEnd(n, m, p).vars["x"] == Num(n + 1) && ThrowEnd(n, m, p).watchers[1].last == Seen(Num(n))
    ensures !DigestFacts.Quiet(ThrowEnd(n, m, p).vars, ThrowEnd(n, m, p).watchers[1])
  {
    ThrowDigest(n, m, p);
    assert EvalExpr(ThrowEnd(n, m, p).vars, Read("x"), []) == Num(n + 1);
  }

  lemma ThrowDigest(n: int, m: int, p: int)
    requires m != p
    ensures S.Digest(ThrowState(n, m, p, [], None, None)) == Run(ThrowEnd(n, m, p), Returned(Undefined))
  {
    var s := ThrowState(n, m, p, [], None, None);
    ThrowPass(n, m, p);
    var e := ThrowEnd(n, m, p).(phase := Some(Digesting));
    assert s.(lastDirty := None, phase := Some(Digesting)) == ThrowState(n, m, p, [], None, Some(Digesting));
    DigestSettles(s, [S.Scan(e, false)]);
    assert S.DrainPostDigest(S.ClearPhase(e)) == S.ClearPhase(e);
  }

  // ----- a task that writes a watched property (src/scope.js:121-128) -----

  /** `function() { scope.$evalAsync(function() { scope.b++; }); }` */
  function QueueBump(): Fn { Fn([EvalAsync(Bump("b"))], Const(Undefined)) }

  /** Watcher 0 watches `a` and its listener queues `b++`; watcher 1 watches `b` with a
      no-op listener and has seen `b`. */
  function TaskState(a: int, b: int, lastA: int, queue: seq<Task>, calls: seq<Call>, lastDirty: Option<nat>, phase: Option<Phase>): State
  {
    Initial(map["a" := Num(a), "b" := Num(b)]).(
      watchers := [Watcher(1, Fn([], Read("b")), Callback(NoOp), Seen(Num(b)), false),
                   Watcher(0, Fn([], Read("a")), Callback(QueueBump()), Seen(Num(lastA)), false)],
      nextWatcher := 2, asyncQueue := queue, calls := calls, lastDirty := lastDirty, phase := phase)
  }

  function TaskCalls(n: int, p: int): seq<Call>
  {
    [WatchCall(0), ListenerCall(0, Num(n), Num(p)), WatchCall(1)]
  }

  /** First pass: watcher 0 fires and queues the task; watcher 1 is unchanged. */
  lemma TaskPass1(n: int, m: int, p: int)
    requires n != p
    ensures S.Pass(TaskState(n, m, p, [], [], None, Some(Digesting)))
      == S.Scan(TaskState(n, m, n, [Evaluate(Bump("b"))], TaskCalls(n, p), Some(0), Some(Digesting)), true)
  {
    var b := TaskState(n, m, p, [], [], None, Some(Digesting));
    var wb, wa := b.watchers[0], b.watchers[1];
    assert S.DrainAsync(b) == b;
    var b1 := b.(calls := [WatchCall(0)]);
    ReadRun(b1, "a");
    SetLastTwo(wb, wa, 0, Num(n));
    var m1 := b1.(lastDirty := Some(0), watchers := [wb, wa.(last := Seen(Num(n)))], calls := [WatchCall(0), ListenerCall(0, Num(n), Num(p))]);
    var m2 := m1.(asyncQueue := [Evaluate(Bump("b"))]);
    assert S.Perform(m1, EvalAsync(Bump("b")), [Num(n), Num(p)]) == m2;
    assert QueueBump().body[1..] == [];
    assert S.RunFn(m1, QueueBump(), [Num(n), Num(p)]) == Run(m2, Returned(Undefined));
    assert S.Visit(b, 1, false) == S.Visited(m2, true, false);
    var m3 := m2.(calls := TaskCalls(n, p));
    ReadRun(m3, "b");
    assert S.Visit(m2, 0, true) == S.Visited(m3, true, false);
  }

  /** Second pass: the task bumps `b`; the pass then stops at watcher 0, which is still
      the last dirty watcher, before it reaches watcher 1. */
  lemma TaskPass2(n: int, m: int, calls: seq<Call>)
    ensures var e := TaskState(n, m, n, [], calls + [WatchCall(0)], Some(0), Some(Digesting)).(
        vars := map["a" := Num(n), "b" := Num(m + 1)]);
      S.Pass(TaskState(n, m, n, [Evaluate(Bump("b"))], calls, Some(0), Some(Digesting))) == S.Scan(e, false)
  {
    var b := TaskState(n, m, n, [Evaluate(Bump("b"))], calls, Some(0), Some(Digesting));
    var b0 := b.(asyncQueue := []);
    BumpRun(b0, "b", m, []);
    var d := b0.(vars := map["a" := Num(n), "b" := Num(m + 1)]);
    assert b0.vars["b" := Num(m + 1)] == d.vars;
    assert S.RunTask(b0, Evaluate(Bump("b"))) == Run(d, Returned(Undefined));
    assert S.DrainAsync(d) == d;
    assert S.DrainAsync(b) == d;
    var d1 := d.(calls := calls + [WatchCall(0)]);
    ReadRun(d1, "a");
    assert S.Visit(d, 1, false) == S.Visited(d1, false, true);
  }

  /** The final state of the digest of `TaskState(n, m, p, ...)`. */
  function TaskEnd(n: int, m: int, p: int): State
  {
    TaskState(n, m, n, [], TaskCalls(n, p) + [WatchCall(0)], Some(0), None).(vars := map["a" := Num(n), "b" := Num(m + 1)])
  }

  /** As written, a digest in which a listener queues `b++` returns normally, with `b`
      bumped and the watcher of `b` still holding the old `b`. */
  lemma StaleAfterTask(n: int, m: int, p: int)
    requires n != p
    ensures FixedPoint.Plain(TaskState(n, m, p, [], [], None, None))
    ensures S.Digest(TaskState(n, m, p, [], [], None, None)) == Run(TaskEnd(n, m, p), Returned(Undefined))
    ensures TaskEnd(n, m, p).vars["b"] == Num(m + 1) && TaskEnd(n, m, p).watchers[0].last == Seen(Num(m))
    ensures !DigestFacts.Quiet(TaskEnd(n, m, p).vars, TaskEnd(n, m, p).watchers[0])
  {
    TaskDigest(n, m, p);
    assert EvalExpr(TaskEnd(n, m, p).vars, Read("b"), []) == Num(m + 1);
  }

  lemma TaskDigest(n: int, m: int, p: int)
    requires n != p
    ensures S.Digest(TaskState(n, m, p, [], [], None, None)) == Run(TaskEnd(n, m, p), Returned(Undefined))
  {
    var s := TaskState(n, m, p, [], [], None, None);
    TaskPass1(n, m, p);
    TaskPass2(n, m, TaskCalls(n, p));
    var p1 := TaskState(n, m, n, [Evaluate(Bump("b"))], TaskCalls(n, p), Some(0), Some(Digesting));
    var e := TaskEnd(n, m, p).(phase := Some(Digesting));
    assert s.(lastDirty := None, phase := Some(Digesting)) == TaskState(n, m, p, [], [], None, Some(Digesting));
    assert S.Pass(p1) == S.Scan(e, false);
    DigestSettles(s, [S.Scan(p1, true), S.Scan(e, false)]);
    assert S.DrainPostDigest(S.ClearPhase(e)) == S.ClearPhase(e);
  }
}
