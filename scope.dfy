/** The `Scope` object of src/scope.js. Its fields are the properties the constructor
    creates (src/scope.js:5-13) plus the ad-hoc properties user code sets, the host's
    pending timers and console, and the call record of the test suite's spies. Each
    method performs the source's steps in the source's order, and its postcondition
    says that the new state (and result) is exactly what the function of the same name
    in `Semantics` gives for the old state. */
module Scopes {
  import opened Values
  import opened Callables
  import opened Wrappers
  import opened ScopeState
  import S = Semantics

  class Scope {
    var vars: map<string, Value>
    var watchers: seq<Watcher>
    var lastDirty: Option<nat>
    var asyncQueue: seq<Task>
    var applyAsyncQueue: seq<Fn>
    var applyAsyncId: Option<nat>
    var postDigestQueue: seq<Fn>
    var phase: Option<Phase>
    var groups: seq<Group>
    var timers: seq<Timer>
    var nextWatcher: nat
    var nextTimer: nat
    var log: seq<Thrown>
    var calls: seq<Call>

    /** The whole object as a value. */
    function Snapshot(): State
      reads this
    {
      State(vars, watchers, lastDirty, asyncQueue, applyAsyncQueue, applyAsyncId, postDigestQueue,
            phase, groups, timers, nextWatcher, nextTimer, log, calls)
    }

    /** `new Scope()`, followed by setting the ad-hoc properties `initial`. */
    constructor (initial: map<string, Value>)
      ensures Snapshot() == Initial(initial)
    {
      vars := initial;
      watchers := [];
      lastDirty := None;
      asyncQueue := [];
      applyAsyncQueue := [];
      applyAsyncId := None;
      postDigestQueue := [];
      phase := None;
      groups := [];
      timers := [];
      nextWatcher := 0;
      nextTimer := 1;
      log := [];
      calls := [];
    }

    // ----- host collaborators -----

    method Log(e: Thrown)
      modifies this
      ensures Snapshot() == S.Log(old(Snapshot()), e)
    {
      log := log + [e];
    }

    method SetTimeout(kind: TimerKind) returns (handle: nat)
      modifies this
      ensures Snapshot() == S.SetTimeout(old(Snapshot()), kind)
      ensures handle == old(nextTimer)
    {
      handle := nextTimer;
      timers := timers + [Timer(handle, kind)];
      nextTimer := nextTimer + 1;
    }

    method ClearTimeout(handle: nat)
      modifies this
      ensures Snapshot() == S.ClearTimeout(old(Snapshot()), handle)
    {
      timers := S.WithoutHandle(timers, handle);
    }

    // ----- watcher registry -----

    /** `$watch(watchFn, listenerFn, eqValue)`; the returned number names the remover. */
    method Watch(watchFn: Fn, listener: Option<Listener>, byValue: bool) returns (remover: nat)
      modifies this
      ensures Snapshot() == S.Watch(old(Snapshot()), watchFn, listener, byValue)
      ensures remover == old(nextWatcher)
      ensures watchers[0].id == remover && watchers[0].last == NeverEvaluated && watchers[1..] == old(watchers)
    {
      var watcher := Watcher(nextWatcher, watchFn, listener.GetOr(Callback(NoOp)), NeverEvaluated, byValue);
      remover := nextWatcher;
      nextWatcher := nextWatcher + 1;
      lastDirty := None;
      watchers := [watcher] + watchers;
    }

    /** `self.$$watchers.indexOf(watcher)` for the watcher of registration `id`. */
    method IndexOf(id: nat) returns (i: int)
      ensures i == S.IndexOf(watchers, id)
      ensures 0 <= i ==> i < |watchers| && watchers[i].id == id
      ensures forall k :: 0 <= k < |watchers| && (i < 0 || k < i) ==> watchers[k].id != id
    {
      i := 0;
      while i < |watchers|
        invariant 0 <= i <= |watchers|
        invariant forall k :: 0 <= k < i ==> watchers[k].id != id
        invariant S.IndexOf(watchers, id) == (var j := S.IndexOf(watchers[i..], id); if j < 0 then -1 else j + i)
      {
        if watchers[i].id == id {
          return;
        }
        assert watchers[i..][1..] == watchers[i + 1..];
        i := i + 1;
      }
      i := -1;
    }

    /** The remover closure of registration `id` (src/scope.js:29-35). */
    method Deregister(id: nat)
      modifies this
      ensures Snapshot() == S.Deregister(old(Snapshot()), id)
    {
      var index := IndexOf(id);
      if index >= 0 {
        watchers := watchers[..index] + watchers[index + 1..];
        lastDirty := None;
      }
    }

    // ----- $watchGroup -----

    /** `$watchGroup(watchFns, listenerFn)`; the returned number names the deregistrar. */
    method WatchGroup(watchFns: seq<Fn>, listener: Fn) returns (deregistrar: nat)
      modifies this
      ensures Snapshot() == S.WatchGroup(old(Snapshot()), watchFns, listener)
      ensures deregistrar == |old(groups)|
    {
      deregistrar := |groups|;
      var n := |watchFns|;
      if n == 0 {
        groups := groups + [Group(listener, [], [], [], false, true, true)];
        EvalAsync(EmptyGroupCall(deregistrar, listener));
        return;
      }
      var first := nextWatcher;
      groups := groups + [Group(listener, seq(n, k => first + k), S.Holes(n), S.Holes(n), false, true, true)];
      var i := 0;
      while i < n
        invariant 0 <= i <= n
        invariant S.RegisterMembers(Snapshot(), watchFns, deregistrar, i) == S.WatchGroup(old(Snapshot()), watchFns, listener)
        decreases n - i
      {
        var _ := Watch(watchFns[i], Some(GroupMember(deregistrar, i)), false);
        i := i + 1;
      }
    }

    /** The deregistrar of group `g` (src/scope.js:52-54, 78-82). */
    method DeregisterGroup(g: nat)
      modifies this
      ensures Snapshot() == S.DeregisterGroup(old(Snapshot()), g)
    {
      if g >= |groups| {
        return;
      }
      var members := groups[g].members;
      if members == [] {
        groups := groups[g := groups[g].(shouldCall := false)];
        return;
      }
      var i := 0;
      while i < |members|
        invariant 0 <= i <= |members|
        invariant S.DeregisterAll(Snapshot(), members[i..]) == S.DeregisterGroup(old(Snapshot()), g)
      {
        assert members[i..][1..] == members[i + 1..];
        Deregister(members[i]);
        i := i + 1;
      }
    }

    /** The listener of component watcher `i` of group `g` (src/scope.js:68-75). */
    method GroupMemberChanged(g: nat, i: nat, newValue: Value, oldValue: Value)
      modifies this
      ensures Snapshot() == S.GroupMemberChanged(old(Snapshot()), g, i, newValue, oldValue)
    {
      if g < |groups| && i < |groups[g].newValues| && i < |groups[g].oldValues| {
        var gr := groups[g];
        gr := gr.(newValues := gr.newValues[i := newValue], oldValues := gr.oldValues[i := oldValue]);
        if !gr.scheduled {
          groups := groups[g := gr.(scheduled := true)];
          EvalAsync(GroupReaction(g, gr.listener));
        } else {
          groups := groups[g := gr];
        }
      }
    }

    // ----- phases and scheduling -----

    /** `$beginPhase(p)` (src/scope.js:185-190). */
    method BeginPhase(p: Phase) returns (outcome: Outcome)
      modifies this
      ensures Run(Snapshot(), outcome) == S.BeginPhase(old(Snapshot()), p)
    {
      if phase.Some? {
        return Threw(AlreadyInProgress(phase.value));
      }
      phase := Some(p);
      outcome := Returned(Undefined);
    }

    /** `$clearPhase()` (src/scope.js:192-194). */
    method ClearPhase()
      modifies this
      ensures Snapshot() == S.ClearPhase(old(Snapshot()))
    {
      phase := None;
    }

    /** `$evalAsync(expr)` (src/scope.js:163-173). */
    method EvalAsync(task: Task)
      modifies this
      ensures Snapshot() == S.EvalAsync(old(Snapshot()), task)
    {
      if phase.None? && asyncQueue == [] {
        var _ := SetTimeout(DigestWakeup);
      }
      asyncQueue := asyncQueue + [task];
    }

    /** `$applyAsync(expr)` (src/scope.js:207-217). */
    method ApplyAsync(expr: Fn)
      modifies this
      ensures Snapshot() == S.ApplyAsync(old(Snapshot()), expr)
    {
      applyAsyncQueue := applyAsyncQueue + [expr];
      if applyAsyncId.None? {
        var handle := SetTimeout(FlushWakeup);
        applyAsyncId := Some(handle);
      }
    }

    /** `$$postDigest(fn)` (src/scope.js:219-221). */
    method PostDigest(callback: Fn)
      modifies this
      ensures Snapshot() == S.PostDigest(old(Snapshot()), callback)
    {
      postDigestQueue := postDigestQueue + [callback];
    }

    // ----- running user callables -----

    method Perform(a: Action, args: seq<Value>)
      requires !a.Throw?
      modifies this
      ensures Snapshot() == S.Perform(old(Snapshot()), a, args)
    {
      match a
      case Assign(k, e) => vars := vars[k := EvalExpr(vars, e, args)];
      case Watch(w, l, byValue) => var _ := Watch(w, if l.Some? then Some(Callback(l.value)) else None, byValue);
      case Deregister(id) => Deregister(id);
      case WatchGroup(fns, l) => var _ := WatchGroup(fns, l);
      case DeregisterGroup(g) => DeregisterGroup(g);
      case EvalAsync(t) => EvalAsync(Evaluate(t));
      case ApplyAsync(t) => ApplyAsync(t);
      case PostDigest(c) => PostDigest(c);
    }

    /** Call a user callable with the given arguments. */
    method RunFn(f: Fn, args: seq<Value>) returns (outcome: Outcome)
      modifies this
      ensures Run(Snapshot(), outcome) == S.RunFn(old(Snapshot()), f, args)
    {
      var i := 0;
      while i < |f.body|
        invariant 0 <= i <= |f.body|
        invariant S.RunActions(Snapshot(), f.body[i..], args) == S.RunActions(old(Snapshot()), f.body, args)
      {
        assert f.body[i..][0] == f.body[i] && f.body[i..][1..] == f.body[i + 1..];
        if f.body[i].Throw? {
          return Threw(UserError);
        }
        Perform(f.body[i], args);
        i := i + 1;
      }
      outcome := Returned(EvalExpr(vars, f.result, args));
    }

    method RunListener(w: Watcher, newValue: Value, oldValue: Value) returns (outcome: Outcome)
      modifies this
      ensures Run(Snapshot(), outcome) == S.RunListener(old(Snapshot()), w, newValue, oldValue)
    {
      calls := calls + [ListenerCall(w.id, newValue, oldValue)];
      match w.listener
      case Callback(f) =>
        outcome := RunFn(f, [newValue, oldValue]);
      case GroupMember(g, i) =>
        GroupMemberChanged(g, i, newValue, oldValue);
        outcome := Returned(Undefined);
    }

    /** `asyncTask.scope.$eval(asyncTask.expression)`. */
    method RunTask(task: Task) returns (outcome: Outcome)
      modifies this
      ensures Run(Snapshot(), outcome) == S.RunTask(old(Snapshot()), task)
    {
      match task
      case Evaluate(f) =>
        outcome := RunFn(f, []);
      case GroupReaction(g, l) =>
        if g >= |groups| {
          return Returned(Undefined);
        }
        // watchGroupListener (src/scope.js:57-65)
        var gr := groups[g];
        var nv := Arr(NewValuesOf(g), gr.newValues);
        var ov := if gr.firstRun then nv else Arr(OldValuesOf(g), gr.oldValues);
        groups := groups[g := gr.(firstRun := false)];
        calls := calls + [GroupListenerCall(g, nv, ov)];
        outcome := RunFn(l, [nv, ov]);
        if outcome.Returned? {
          if g < |groups| {
            groups := groups[g := groups[g].(scheduled := false)];
          }
          outcome := Returned(Undefined);
        }
      case EmptyGroupCall(g, l) =>
        if g < |groups| && groups[g].shouldCall {
          var nv := Arr(NewValuesOf(g), groups[g].newValues);
          calls := calls + [GroupListenerCall(g, nv, nv)];
          outcome := RunFn(l, [nv, nv]);
        } else {
          outcome := Returned(Undefined);
        }
    }

    /** `$eval(expr, locals)` (src/scope.js:159-161). */
    method Eval(expr: Fn, locals: Value) returns (outcome: Outcome)
      modifies this
      ensures Run(Snapshot(), outcome) == S.Eval(old(Snapshot()), expr, locals)
    {
      outcome := RunFn(expr, [locals]);
    }

    // ----- the digest -----

    /** One step of the `_.forEachRight` in `$$digestOnce` (src/scope.js:88-105). */
    method Visit(i: nat, dirty: bool) returns (dirty': bool, stop: bool)
      modifies this
      ensures S.Visited(Snapshot(), dirty', stop) == S.Visit(old(Snapshot()), i, dirty)
    {
      if i >= |watchers| {
        return dirty, false;
      }
      var w := watchers[i];
      calls := calls + [WatchCall(w.id)];
      var out := RunFn(w.watchFn, []);
      if out.Threw? {
        Log(out.error);
        return dirty, false;
      }
      var v := out.value;
      if S.Unchanged(v, w.last, w.byValue) {
        return dirty, lastDirty == Some(w.id);
      }
      var prior := if w.last.Seen? then w.last.value else v;
      lastDirty := Some(w.id);
      watchers := S.SetLast(watchers, w.id, v);
      out := RunListener(w, v, prior);
      if out.Threw? {
        Log(out.error);
        return dirty, false;
      }
      return true, false;
    }

    /** `$$digestOnce()` (src/scope.js:85-107). */
    method DigestOnce() returns (dirty: bool)
      modifies this
      ensures S.Scan(Snapshot(), dirty) == S.DigestOnce(old(Snapshot()))
    {
      dirty := false;
      var i := |watchers| - 1;
      while i >= 0
        invariant S.ScanFrom(Snapshot(), i, dirty) == S.DigestOnce(old(Snapshot()))
        decreases i + 1
      {
        var stop;
        dirty, stop := Visit(i, dirty);
        if stop {
          return;
        }
        i := i - 1;
      }
    }

    /** The drain of `$$asyncQueue` inside `$digest` (src/scope.js:121-128). */
    method DrainAsync()
      modifies this
      ensures Snapshot() == S.DrainAsync(old(Snapshot()))
    {
      while asyncQueue != []
        invariant S.DrainAsync(Snapshot()) == S.DrainAsync(old(Snapshot()))
        decreases S.Weight(asyncQueue)
      {
        var task := asyncQueue[0];
        asyncQueue := asyncQueue[1..];
        S.RunTaskGrows(Snapshot(), task);
        var out := RunTask(task);
        if out.Threw? {
          Log(out.error);
        }
      }
    }

    /** `$$flushApplyAsync()` (src/scope.js:196-205). */
    method FlushApplyAsync()
      modifies this
      ensures Snapshot() == S.FlushApplyAsync(old(Snapshot()))
    {
      while applyAsyncQueue != []
        invariant S.FlushApplyAsync(Snapshot()) == S.FlushApplyAsync(old(Snapshot()))
        decreases S.FnsWeight(applyAsyncQueue)
      {
        var expr := applyAsyncQueue[0];
        applyAsyncQueue := applyAsyncQueue[1..];
        S.RunFnGrows(Snapshot(), expr, []);
        var out := RunFn(expr, []);
        if out.Threw? {
          Log(out.error);
        }
      }
      applyAsyncId := None;
    }

    /** The drain of `$$postDigestQueue` at the end of `$digest` (src/scope.js:137-143). */
    method DrainPostDigest()
      modifies this
      ensures Snapshot() == S.DrainPostDigest(old(Snapshot()))
    {
      while postDigestQueue != []
        invariant S.DrainPostDigest(Snapshot()) == S.DrainPostDigest(old(Snapshot()))
        decreases S.FnsWeight(postDigestQueue)
      {
        var callback := postDigestQueue[0];
        postDigestQueue := postDigestQueue[1..];
        S.RunFnGrows(Snapshot(), callback, []);
        var out := RunFn(callback, []);
        if out.Threw? {
          Log(out.error);
        }
      }
    }

    /** The body of the do-while of `$digest`: drain the async queue, then one pass. */
    method Pass() returns (dirty: bool)
      modifies this
      ensures S.Scan(Snapshot(), dirty) == S.Pass(old(Snapshot()))
    {
      DrainAsync();
      dirty := DigestOnce();
    }

    /** The do-while of `$digest` (src/scope.js:120-134); `$digest` starts `ttl` at 10. */
    method DigestLoop(budget: nat) returns (converged: bool)
      modifies this
      ensures S.Settled(Snapshot(), converged) == S.DigestLoop(old(Snapshot()), budget)
    {
      var ttl := budget;
      while true
        invariant S.DigestLoop(Snapshot(), ttl) == S.DigestLoop(old(Snapshot()), budget)
        decreases ttl
      {
        ghost var before := Snapshot();
        var dirty := Pass();
        S.DigestLoopStep(before, ttl, S.Scan(Snapshot(), dirty));
        if (dirty || asyncQueue != []) && ttl == 0 {
          ClearPhase();
          return false;
        }
        if !(dirty || asyncQueue != []) {
          return true;
        }
        ttl := ttl - 1;
      }
    }

    /** `$digest()` (src/scope.js:109-144). */
    method Digest() returns (outcome: Outcome)
      modifies this
      ensures Run(Snapshot(), outcome) == S.Digest(old(Snapshot()))
    {
      lastDirty := None;
      outcome := BeginPhase(Digesting);
      if outcome.Threw? {
        return;
      }
      if applyAsyncId.Some? {
        ClearTimeout(applyAsyncId.value);
        FlushApplyAsync();
      }
      var converged := DigestLoop(10);
      if !converged {
        return Threw(IterationsReached);
      }
      ClearPhase();
      DrainPostDigest();
      outcome := Returned(Undefined);
    }

    /** `$apply(expr)` (src/scope.js:175-183). */
    method Apply(expr: S.Applied) returns (outcome: Outcome)
      modifies this
      ensures Run(Snapshot(), outcome) == S.Apply(old(Snapshot()), expr)
    {
      outcome := BeginPhase(Applying);
      if outcome.Returned? {
        match expr
        case UserExpr(f) =>
          outcome := RunFn(f, []);
        case FlushQueue =>
          FlushApplyAsync();
          outcome := Returned(Undefined);
      }
      // finally
      ClearPhase();
      var digested := Digest();
      if digested.Threw? {
        outcome := digested;
      }
    }

    /** The host runs the oldest pending `setTimeout` callback. */
    method FireTimer() returns (outcome: Outcome)
      modifies this
      ensures Run(Snapshot(), outcome) == S.FireTimer(old(Snapshot()))
    {
      if timers == [] {
        return Returned(Undefined);
      }
      var timer := timers[0];
      timers := timers[1..];
      match timer.kind
      case DigestWakeup =>
        if asyncQueue != [] {
          outcome := Digest();
        } else {
          outcome := Returned(Undefined);
        }
      case FlushWakeup =>
        outcome := Apply(S.FlushQueue);
    }
  }
}
