/** The `$$lastDirtyWatch` short circuit of `$$digestOnce` (src/scope.js:85-107), counted
    in watch-function calls as test/scope_spec.js:151-177 counts them: a pass stops at
    the watcher that was last found dirty once that watcher is clean again. */
module ShortCircuit {
  import opened Values
  import opened Callables
  import opened Wrappers
  import opened ScopeState
  import opened Invariants
  import opened DigestFacts
  import opened Scenarios
  import S = Semantics

  /** The number of watch-function calls in a trace. */
  function WatchCount(cs: seq<Call>): nat
  {
    |WatchOrder(cs)|
  }

  lemma WatchCountAppend(a: seq<Call>, b: seq<Call>)
    ensures WatchCount(a + b) == WatchCount(a) + WatchCount(b)
  {
    WatchOrderAppend(a, b);
  }

  /** A watcher whose watch function only reads the scope and whose listener does
      nothing, like the hundred watchers of test/scope_spec.js:151-177. */
  predicate Plain(w: Watcher)
  {
    w.watchFn.body == [] && w.listener == Callback(NoOp)
  }

  /** The value the watch function of `w` returns on variables `vars`. */
  function Reading(vars: map<string, Value>, w: Watcher): Value
  {
    EvalExpr(vars, w.watchFn.result, [])
  }

  /** The registry after the watchers at indices `0..i` stored what they read. */
  function Refreshed(vars: map<string, Value>, ws: seq<Watcher>, i: int): (r: seq<Watcher>)
    ensures |r| == |ws|
  {
    seq(|ws|, k requires 0 <= k < |ws| => if k <= i then ws[k].(last := Seen(Reading(vars, ws[k]))) else ws[k])
  }

  /** The calls of a pass over changed plain watchers from index `i` down to 0. */
  function ChangedCalls(vars: map<string, Value>, ws: seq<Watcher>, i: int): seq<Call>
    requires i < |ws|
    decreases i + 1
  {
    if i < 0 then []
    else
      var v := Reading(vars, ws[i]);
      [WatchCall(ws[i].id), ListenerCall(ws[i].id, v, if ws[i].last.Seen? then ws[i].last.value else v)] + ChangedCalls(vars, ws, i - 1)
  }

  /** A watch call followed by another kind of call counts one. */
  lemma WatchCountPair(id: nat, c: Call, rest: seq<Call>)
    requires !c.WatchCall?
    ensures WatchCount([WatchCall(id), c] + rest) == WatchCount(rest) + 1
  {
    assert [WatchCall(id), c] + rest == [WatchCall(id)] + ([c] + rest);
    WatchOrderCons(WatchCall(id), [c] + rest);
    WatchOrderCons(c, rest);
  }

  lemma {:induction false} ChangedCallsCount(vars: map<string, Value>, ws: seq<Watcher>, i: int)
    requires i < |ws|
    ensures WatchCount(ChangedCalls(vars, ws, i)) == if i < 0 then 0 else i + 1
    decreases i + 1
  {
    if i >= 0 {
      var v := Reading(vars, ws[i]);
      var c := ListenerCall(ws[i].id, v, if ws[i].last.Seen? then ws[i].last.value else v);
      assert ChangedCalls(vars, ws, i) == [WatchCall(ws[i].id), c] + ChangedCalls(vars, ws, i - 1);
      WatchCountPair(ws[i].id, c, ChangedCalls(vars, ws, i - 1));
      ChangedCallsCount(vars, ws, i - 1);
    }
  }

  lemma {:induction false} ChangedCallsFrame(vars: map<string, Value>, ws: seq<Watcher>, ws': seq<Watcher>, i: int)
    requires i < |ws| && i < |ws'|
    requires forall k :: 0 <= k <= i ==> ws[k] == ws'[k]
    ensures ChangedCalls(vars, ws, i) == ChangedCalls(vars, ws', i)
    decreases i + 1
  {
    if i >= 0 {
      ChangedCallsFrame(vars, ws, ws', i - 1);
    }
  }

  lemma {:induction false} CallsDownCount(ws: seq<Watcher>, i: int)
    requires i < |ws|
    ensures WatchCount(CallsDown(ws, i)) == if i < 0 then 0 else i + 1
    decreases i + 1
  {
    if i >= 0 {
      WatchOrderCons(WatchCall(ws[i].id), CallsDown(ws, i - 1));
      CallsDownCount(ws, i - 1);
    }
  }

  /** The visit of a plain watcher whose value changed: it stores the value, becomes the
      last dirty watcher, and its (empty) listener is called. */
  lemma ChangedVisit(s: State, i: nat, dirty: bool)
    requires i < |s.watchers| && UniqueIds(s.watchers) && Plain(s.watchers[i])
    requires !S.Unchanged(Reading(s.vars, s.watchers[i]), s.watchers[i].last, s.watchers[i].byValue)
    ensures var w := s.watchers[i]; var v := Reading(s.vars, w);
      S.Visit(s, i, dirty) == S.Visited(s.(watchers := s.watchers[i := w.(last := Seen(v))], lastDirty := Some(w.id),
        calls := s.calls + [WatchCall(w.id), ListenerCall(w.id, v, if w.last.Seen? then w.last.value else v)]), true, false)
  {
    var w := s.watchers[i];
    var v := Reading(s.vars, w);
    assert S.SetLast(s.watchers, w.id, v) == s.watchers[i := w.(last := Seen(v))];
  }

  /** Storing the value read at slot `i` keeps ids unique, and refreshing below `i`
      afterwards is refreshing up to `i`. */
  lemma Restamped(vars: map<string, Value>, ws: seq<Watcher>, i: nat)
    requires i < |ws| && UniqueIds(ws)
    ensures var ws' := ws[i := ws[i].(last := Seen(Reading(vars, ws[i])))];
      UniqueIds(ws') && Refreshed(vars, ws', i - 1) == Refreshed(vars, ws, i)
  {
    var ws' := ws[i := ws[i].(last := Seen(Reading(vars, ws[i])))];
    forall j, k | 0 <= j < k < |ws'| ensures ws'[j].id != ws'[k].id {
      assert ws'[j].id == ws[j].id && ws'[k].id == ws[k].id;
    }
  }

  /** The state after the visit of a changed plain watcher at index `i`. */
  function AfterChange(s: State, i: nat): State
    requires i < |s.watchers|
  {
    var w := s.watchers[i];
    var v := Reading(s.vars, w);
    s.(watchers := s.watchers[i := w.(last := Seen(v))], lastDirty := Some(w.id),
      calls := s.calls + [WatchCall(w.id), ListenerCall(w.id, v, if w.last.Seen? then w.last.value else v)])
  }

  /** The state after a pass over changed plain watchers from index `i` down to 0. */
  function AfterChanges(s: State, i: int): State
    requires i < |s.watchers|
  {
    s.(watchers := Refreshed(s.vars, s.watchers, i),
      lastDirty := if i >= 0 then Some(s.watchers[0].id) else s.lastDirty,
      calls := s.calls + ChangedCalls(s.vars, s.watchers, i))
  }

  /** The visit of a changed plain watcher does not stop the pass. */
  lemma ChangedStep(s: State, i: nat, dirty: bool)
    requires i < |s.watchers| && UniqueIds(s.watchers) && Plain(s.watchers[i])
    requires !S.Unchanged(Reading(s.vars, s.watchers[i]), s.watchers[i].last, s.watchers[i].byValue)
    ensures S.ScanFrom(s, i, dirty) == S.ScanFrom(AfterChange(s, i), i - 1, true)
  {
    ChangedVisit(s, i, dirty);
  }

  /** Visiting the watcher at `i`, then the rest below it, is visiting all up to `i`. */
  lemma AfterChangesSplit(s: State, i: nat)
    requires i < |s.watchers| && UniqueIds(s.watchers)
    ensures |AfterChange(s, i).watchers| == |s.watchers|
    ensures AfterChanges(AfterChange(s, i), i - 1) == AfterChanges(s, i)
  {
    var s1 := AfterChange(s, i);
    Restamped(s.vars, s.watchers, i);
    ChangedCallsFrame(s.vars, s.watchers, s1.watchers, i - 1);
    assert s1.calls + ChangedCalls(s1.vars, s1.watchers, i - 1) == s.calls + ChangedCalls(s.vars, s.watchers, i);
    assert (if i - 1 >= 0 then Some(s1.watchers[0].id) else s1.lastDirty) == Some(s.watchers[0].id);
  }

  /** A pass over plain watchers that all changed, from index `i` down to 0, refreshes
      them all, calls each watch function and listener once, and leaves the newest
      watcher as the last dirty one. */
  lemma {:induction false} ChangedScan(s: State, i: int, dirty: bool)
    requires i < |s.watchers| && UniqueIds(s.watchers)
    requires forall k :: 0 <= k <= i ==> Plain(s.watchers[k]) && !S.Unchanged(Reading(s.vars, s.watchers[k]), s.watchers[k].last, s.watchers[k].byValue)
    ensures S.ScanFrom(s, i, dirty) == S.Scan(AfterChanges(s, i), i >= 0 || dirty)
    decreases i + 1
  {
    if i >= 0 {
      var s1 := AfterChange(s, i);
      ChangedStep(s, i, dirty);
      Restamped(s.vars, s.watchers, i);
      forall k | 0 <= k <= i - 1
        ensures Plain(s1.watchers[k]) && !S.Unchanged(Reading(s1.vars, s1.watchers[k]), s1.watchers[k].last, s1.watchers[k].byValue)
      {
        assert s1.watchers[k] == s.watchers[k];
      }
      ChangedScan(s1, i - 1, true);
      AfterChangesSplit(s, i);
    }
  }

  /** A pass over watchers that are all clean, from index `i` down to 0, where none but
      possibly the one at index 0 is the last dirty watcher, calls each watch function
      once and changes nothing else. */
  lemma {:induction false} CleanScan(s: State, i: int, dirty: bool)
    requires i < |s.watchers|
    requires forall k :: 0 <= k <= i ==> Quiet(s.vars, s.watchers[k])
    requires forall k :: 0 < k <= i ==> s.lastDirty != Some(s.watchers[k].id)
    ensures S.ScanFrom(s, i, dirty) == S.Scan(s.(calls := s.calls + CallsDown(s.watchers, i)), dirty)
    decreases i + 1
  {
    if i >= 0 {
      var s1 := s.(calls := s.calls + [WatchCall(s.watchers[i].id)]);
      assert S.Visit(s, i, dirty) == S.Visited(s1, dirty, s.lastDirty == Some(s.watchers[i].id));
      CleanScan(s1, i - 1, dirty);
      assert s.calls + CallsDown(s.watchers, i) == s1.calls + CallsDown(s.watchers, i - 1);
    }
  }

  /** A clean watcher that is the last dirty one ends the pass where it stands. */
  lemma CleanStop(s: State, i: nat, dirty: bool)
    requires i < |s.watchers| && Quiet(s.vars, s.watchers[i]) && s.lastDirty == Some(s.watchers[i].id)
    ensures S.ScanFrom(s, i, dirty) == S.Scan(s.(calls := s.calls + [WatchCall(s.watchers[i].id)]), dirty)
  {
    assert S.Visit(s, i, dirty) == S.Visited(s.(calls := s.calls + [WatchCall(s.watchers[i].id)]), dirty, true);
  }

  /** The conditions under which a digest consists of passes alone. */
  predicate Idle(s: State)
  {
    s.phase.None? && s.applyAsyncId.None? && s.asyncQueue == [] && s.postDigestQueue == []
  }

  /** The first pass over plain watchers that have never been evaluated finds them all
      changed. */
  lemma FirstPass(b: State)
    requires |b.watchers| >= 1 && UniqueIds(b.watchers) && b.asyncQueue == []
    requires forall k :: 0 <= k < |b.watchers| ==> Plain(b.watchers[k]) && b.watchers[k].last == NeverEvaluated
    ensures S.Pass(b) == S.Scan(AfterChanges(b, |b.watchers| - 1), true)
  {
    assert S.DrainAsync(b) == b;
    ChangedScan(b, |b.watchers| - 1, false);
  }

  /** The second pass finds them all clean and stops at the newest, which was the last
      one found dirty. */
  lemma SecondPass(m: State)
    requires |m.watchers| >= 1 && UniqueIds(m.watchers) && m.asyncQueue == [] && m.lastDirty == Some(m.watchers[0].id)
    requires forall k :: 0 <= k < |m.watchers| ==> Quiet(m.vars, m.watchers[k])
    ensures S.Pass(m) == S.Scan(m.(calls := m.calls + CallsDown(m.watchers, |m.watchers| - 1)), false)
  {
    assert S.DrainAsync(m) == m;
    CleanScan(m, |m.watchers| - 1, false);
  }

  /** The watchers refreshed by the first pass keep their ids and are clean on the same
      variables. */
  lemma RefreshedQuiet(vars: map<string, Value>, ws: seq<Watcher>, rs: seq<Watcher>)
    requires forall k :: 0 <= k < |ws| ==> Plain(ws[k])
    requires UniqueIds(ws) && rs == Refreshed(vars, ws, |ws| - 1)
    ensures UniqueIds(rs) && forall k :: 0 <= k < |rs| ==> Quiet(vars, rs[k])
  {
    forall k | 0 <= k < |rs| ensures Quiet(vars, rs[k]) && rs[k].id == ws[k].id {
      IsEqualReflexive(Reading(vars, ws[k]), ws[k].byValue);
    }
  }

  /** The first digest of `n` plain watchers that have never been evaluated makes `2n`
      watch calls: a pass that finds all of them changed, then a pass that finds them
      clean and stops at the newest, which was the last one found dirty. */
  lemma FirstDigest(s: State)
    requires Idle(s) && |s.watchers| >= 1 && UniqueIds(s.watchers)
    requires forall k :: 0 <= k < |s.watchers| ==> Plain(s.watchers[k]) && s.watchers[k].last == NeverEvaluated
    ensures var r := S.Digest(s); var n := |s.watchers|;
      r.outcome == Returned(Undefined) && r.state.vars == s.vars &&
      r.state.watchers == Refreshed(s.vars, s.watchers, n - 1) &&
      r.state.lastDirty == Some(s.watchers[0].id) && Idle(r.state) &&
      WatchCount(r.state.calls) == WatchCount(s.calls) + 2 * n
  {
    var n := |s.watchers|;
    var b := s.(lastDirty := None, phase := Some(Digesting));
    FirstPass(b);
    var m := AfterChanges(b, n - 1);
    RefreshedQuiet(s.vars, s.watchers, m.watchers);
    SecondPass(m);
    var e := m.(calls := m.calls + CallsDown(m.watchers, n - 1));
    DigestSettles(s, [S.Scan(m, true), S.Scan(e, false)]);
    assert S.DrainPostDigest(S.ClearPhase(e)) == S.ClearPhase(e);
    ChangedCallsCount(s.vars, s.watchers, n - 1);
    CallsDownCount(m.watchers, n - 1);
    WatchCountAppend(s.calls, ChangedCalls(s.vars, s.watchers, n - 1));
    WatchCountAppend(m.calls, CallsDown(m.watchers, n - 1));
  }

  /** The first pass of such a digest: the oldest watcher fires and becomes the last
      dirty one, and every other watch function is called once. */
  lemma OldestChangedPass(s: State)
    requires |s.watchers| >= 1 && UniqueIds(s.watchers) && s.asyncQueue == [] && s.lastDirty == None
    requires forall k :: 0 <= k < |s.watchers| ==> Plain(s.watchers[k])
    requires forall k :: 0 <= k < |s.watchers| - 1 ==> Quiet(s.vars, s.watchers[k])
    requires var w := s.watchers[|s.watchers| - 1]; !S.Unchanged(Reading(s.vars, w), w.last, w.byValue)
    ensures var n := |s.watchers|; var w := s.watchers[n - 1]; var v := Reading(s.vars, w);
      var ws := s.watchers[n - 1 := w.(last := Seen(v))];
      S.Pass(s) == S.Scan(s.(watchers := ws, lastDirty := Some(w.id),
        calls := s.calls + [WatchCall(w.id), ListenerCall(w.id, v, if w.last.Seen? then w.last.value else v)] + CallsDown(ws, n - 2)), true)
  {
    var n := |s.watchers|;
    var w := s.watchers[n - 1];
    var v := Reading(s.vars, w);
    assert S.DrainAsync(s) == s;
    ChangedVisit(s, n - 1, false);
    var c1 := [WatchCall(w.id), ListenerCall(w.id, v, if w.last.Seen? then w.last.value else v)];
    var b1 := s.(watchers := s.watchers[n - 1 := w.(last := Seen(v))], lastDirty := Some(w.id), calls := s.calls + c1);
    forall k | 0 <= k <= n - 2 ensures b1.lastDirty != Some(b1.watchers[k].id) {
      assert b1.watchers[k].id == s.watchers[k].id;
    }
    CleanScan(b1, n - 2, true);
  }

  /** The number of watch calls in the first pass of such a digest. */
  lemma OldestChangedPassCount(w: Watcher, v: Value, prior: Value, ws: seq<Watcher>, n: nat, calls: seq<Call>)
    requires 1 <= n && n - 2 < |ws|
    ensures WatchCount(calls + [WatchCall(w.id), ListenerCall(w.id, v, prior)] + CallsDown(ws, n - 2)) == WatchCount(calls) + n
  {
    var c1 := [WatchCall(w.id), ListenerCall(w.id, v, prior)];
    WatchOrderCons(WatchCall(w.id), [c1[1]]);
    WatchOrderCons(c1[1], []);
    assert c1 == [WatchCall(w.id)] + [c1[1]];
    CallsDownCount(ws, n - 2);
    WatchCountAppend(calls, c1);
    WatchCountAppend(calls + c1, CallsDown(ws, n - 2));
  }

  /** When only the oldest of `n` plain watchers sees a new value, a digest makes `n + 1`
      watch calls: a pass over all of them, then a single call, because the oldest is
      visited first, is clean again, and was the last one found dirty. */
  lemma OldestChangedDigest(s: State)
    requires Idle(s) && |s.watchers| >= 1 && UniqueIds(s.watchers)
    requires forall k :: 0 <= k < |s.watchers| ==> Plain(s.watchers[k])
    requires forall k :: 0 <= k < |s.watchers| - 1 ==> Quiet(s.vars, s.watchers[k])
    requires var w := s.watchers[|s.watchers| - 1]; !S.Unchanged(Reading(s.vars, w), w.last, w.byValue)
    ensures var r := S.Digest(s); var n := |s.watchers|; var w := s.watchers[n - 1];
      r.outcome == Returned(Undefined) && r.state.vars == s.vars &&
      r.state.watchers == s.watchers[n - 1 := w.(last := Seen(Reading(s.vars, w)))] &&
      r.state.lastDirty == Some(w.id) && Idle(r.state) &&
      WatchCount(r.state.calls) == WatchCount(s.calls) + n + 1
  {
    var n := |s.watchers|;
    var w := s.watchers[n - 1];
    var v := Reading(s.vars, w);
    var prior := if w.last.Seen? then w.last.value else v;
    var ws := s.watchers[n - 1 := w.(last := Seen(v))];
    var b := s.(lastDirty := None, phase := Some(Digesting));
    OldestChangedPass(b);
    var m := b.(watchers := ws, lastDirty := Some(w.id),
      calls := s.calls + [WatchCall(w.id), ListenerCall(w.id, v, prior)] + CallsDown(ws, n - 2));
    assert S.DrainAsync(m) == m;
    IsEqualReflexive(v, w.byValue);
    CleanStop(m, n - 1, false);
    var e := m.(calls := m.calls + [WatchCall(w.id)]);
    assert S.Pass(m) == S.Scan(e, false);
    DigestSettles(s, [S.Scan(m, true), S.Scan(e, false)]);
    assert S.DrainPostDigest(S.ClearPhase(e)) == S.ClearPhase(e);
    OldestChangedPassCount(w, v, prior, ws, n, s.calls);
    WatchOrderCons(WatchCall(w.id), []);
    WatchCountAppend(m.calls, [WatchCall(w.id)]);
  }

  // ----- test/scope_spec.js:151-177: a hundred watchers over one array -----

  /** `scope.$watch(function(scope) { return scope.array[i]; }, function() {})` as it
      stands in the registry. */
  function ElementWatcher(i: nat, last: Last): Watcher
  {
    Watcher(i, Fn([], Element(Read("array"), i)), Callback(NoOp), last, false)
  }

  /** `_.times(n, ...)`: the `n` registrations of element watchers, in index order. */
  function RegisterElements(s: State, n: nat): State
  {
    if n == 0 then s
    else S.Watch(RegisterElements(s, n - 1), Fn([], Element(Read("array"), n - 1)), Some(Callback(NoOp)), false)
  }

  /** The registry after those registrations, newest first, the watcher of item `i`
      holding `lasts[i]`. */
  function Elements(n: nat, lasts: seq<Last>): (ws: seq<Watcher>)
    requires n <= |lasts|
    ensures |ws| == n
  {
    seq(n, k requires 0 <= k < n => ElementWatcher(n - 1 - k, lasts[n - 1 - k]))
  }

  function Unseen(n: nat): (r: seq<Last>)
    ensures |r| == n && forall i :: 0 <= i < n ==> r[i] == NeverEvaluated
  {
    seq(n, i => NeverEvaluated)
  }

  /** What each element watcher holds once it has read `items`. */
  function SeenItems(items: seq<Value>): (r: seq<Last>)
    ensures |r| == |items| && forall i :: 0 <= i < |items| ==> r[i] == Seen(items[i])
  {
    seq(|items|, i requires 0 <= i < |items| => Seen(items[i]))
  }

  /** `scope.array`, with the contents `items`. */
  function ArrayVars(items: seq<Value>): map<string, Value>
  {
    map["array" := Arr(Allocated(0), items)]
  }

  lemma {:induction false} RegisterElementsShape(vars: map<string, Value>, n: nat)
    ensures RegisterElements(Initial(vars), n) == Initial(vars).(watchers := Elements(n, Unseen(n)), nextWatcher := n)
  {
    if n > 0 {
      RegisterElementsShape(vars, n - 1);
      assert [ElementWatcher(n - 1, NeverEvaluated)] + Elements(n - 1, Unseen(n - 1)) == Elements(n, Unseen(n));
    }
  }

  lemma ElementsFacts(n: nat, lasts: seq<Last>)
    requires n <= |lasts|
    ensures UniqueIds(Elements(n, lasts))
    ensures forall k :: 0 <= k < n ==> Plain(Elements(n, lasts)[k]) && Elements(n, lasts)[k].last == lasts[n - 1 - k]
  {
    var ws := Elements(n, lasts);
    forall k | 0 <= k < n ensures ws[k] == ElementWatcher(n - 1 - k, lasts[n - 1 - k]) {
    }
  }

  /** The element watchers read the items of the array. */
  lemma ElementReadings(items: seq<Value>, n: nat, lasts: seq<Last>)
    requires n <= |items| && n <= |lasts|
    ensures forall k :: 0 <= k < n ==> Reading(ArrayVars(items), Elements(n, lasts)[k]) == items[n - 1 - k]
  {
    var ws := Elements(n, lasts);
    forall k | 0 <= k < n ensures Reading(ArrayVars(items), ws[k]) == items[n - 1 - k] {
      assert ws[k] == ElementWatcher(n - 1 - k, lasts[n - 1 - k]);
      assert EvalExpr(ArrayVars(items), Read("array"), []) == Arr(Allocated(0), items);
      assert EvalExpr(ArrayVars(items), Element(Read("array"), n - 1 - k), []) == items[n - 1 - k];
    }
  }

  /** Refreshing the unseen element watchers stores their items. */
  lemma RefreshedElements(items: seq<Value>, n: nat)
    requires 1 <= n <= |items|
    ensures Refreshed(ArrayVars(items), Elements(n, Unseen(n)), n - 1) == Elements(n, SeenItems(items))
  {
    var ws := Elements(n, Unseen(n));
    ElementReadings(items, n, Unseen(n));
    forall k | 0 <= k < n
      ensures Refreshed(ArrayVars(items), ws, n - 1)[k] == Elements(n, SeenItems(items))[k]
    {
      assert ws[k] == ElementWatcher(n - 1 - k, NeverEvaluated);
      assert Elements(n, SeenItems(items))[k] == ElementWatcher(n - 1 - k, Seen(items[n - 1 - k]));
    }
  }

  /** The first digest of `n` element watchers makes `2n` watch calls and leaves each
      watcher holding its item. */
  lemma ElementsFirstDigest(items: seq<Value>, n: nat)
    requires 1 <= n <= |items|
    ensures var r := S.Digest(RegisterElements(Initial(ArrayVars(items)), n));
      r.outcome == Returned(Undefined) && r.state.vars == ArrayVars(items) && Idle(r.state) &&
      r.state.watchers == Elements(n, SeenItems(items)) &&
      WatchCount(r.state.calls) == 2 * n
  {
    var s := RegisterElements(Initial(ArrayVars(items)), n);
    RegisterElementsShape(ArrayVars(items), n);
    ElementsFacts(n, Unseen(n));
    FirstDigest(s);
    RefreshedElements(items, n);
  }

  /** Changing the first item of the array, in place, makes the next digest call `n + 1`
      watch functions: the whole first pass, then only the oldest watcher, which was the
      last one found dirty. */
  lemma ElementsFirstItemChanged(s: State, items: seq<Value>, x: Value, n: nat)
    requires 1 <= n <= |items| && !IsEqual(x, items[0], false)
    requires Idle(s) && s.watchers == Elements(n, SeenItems(items))
    requires s.vars == ArrayVars(items[0 := x])
    ensures var r := S.Digest(s);
      r.outcome == Returned(Undefined) && r.state.vars == s.vars && Idle(r.state) &&
      WatchCount(r.state.calls) == WatchCount(s.calls) + n + 1
  {
    ElementsFacts(n, SeenItems(items));
    ElementReadings(items[0 := x], n, SeenItems(items));
    forall k | 0 <= k < n - 1 ensures Quiet(s.vars, s.watchers[k]) {
      IsEqualReflexive(items[n - 1 - k], false);
    }
    var w := s.watchers[n - 1];
    assert w == ElementWatcher(0, Seen(items[0]));
    assert Reading(s.vars, w) == x;
    OldestChangedDigest(s);
  }

  /** test/scope_spec.js:151-177 for any `n` watchers over an array of at least `n`
      items (the test takes 100 and `_.range(100)`): `2n` watch calls in the first digest
      and `3n + 1` once the first item has changed. */
  lemma LastDirtyShortCircuit(items: seq<Value>, x: Value, n: nat)
    requires 1 <= n <= |items| && !IsEqual(x, items[0], false)
    ensures var d1 := S.Digest(RegisterElements(Initial(ArrayVars(items)), n));
      var d2 := S.Digest(d1.state.(vars := ArrayVars(items[0 := x])));
      WatchCount(d1.state.calls) == 2 * n && WatchCount(d2.state.calls) == 3 * n + 1
  {
    ElementsFirstDigest(items, n);
    var d1 := S.Digest(RegisterElements(Initial(ArrayVars(items)), n));
    ElementsFirstItemChanged(d1.state.(vars := ArrayVars(items[0 := x])), items, x, n);
  }
}
