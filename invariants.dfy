/** The invariants every reachable scope keeps, and what running a user callable can and
    cannot change. These are the facts the digest properties are built on. */
module Invariants {
  import opened Values
  import opened Callables
  import opened Wrappers
  import opened ScopeState
  import S = Semantics

  // ----- the registry -----

  /** Registration `id` is in the registry. */
  predicate Registered(ws: seq<Watcher>, id: nat)
  {
    exists k :: 0 <= k < |ws| && ws[k].id == id
  }

  /** Registration `id` was made and its watcher has since been removed. */
  predicate Retired(s: State, id: nat)
  {
    id < s.nextWatcher && !Registered(s.watchers, id)
  }

  /** A spy observation of the watch function or listener of a watcher retired in `s`. */
  predicate RunsRetired(c: Call, s: State)
  {
    (c.WatchCall? || c.ListenerCall?) && Retired(s, c.id)
  }

  predicate UniqueIds(ws: seq<Watcher>)
  {
    forall j, k :: 0 <= j < k < |ws| ==> ws[j].id != ws[k].id
  }

  /** Each watcher object is in `$$watchers` at most once, and only registrations that
      were made are there. */
  predicate RegistryOk(s: State)
  {
    UniqueIds(s.watchers) && forall k :: 0 <= k < |s.watchers| ==> s.watchers[k].id < s.nextWatcher
  }

  // ----- timers -----

  /** Handles increase along the pending timers: they fire in the order they were armed. */
  predicate Ordered(ts: seq<Timer>)
  {
    forall j, k :: 0 <= j < k < |ts| ==> ts[j].handle < ts[k].handle
  }

  /** Pending timers fire in the order they were armed, every handle was handed out, and
      a pending flush callback is the one `$$applyAsyncId` names. */
  predicate TimersOk(s: State)
  {
    Ordered(s.timers) &&
    (forall k :: 0 <= k < |s.timers| ==> s.timers[k].handle < s.nextTimer) &&
    (forall k :: 0 <= k < |s.timers| && s.timers[k].kind == FlushWakeup ==> s.applyAsyncId == Some(s.timers[k].handle)) &&
    (s.applyAsyncId.Some? ==> s.applyAsyncId.value < s.nextTimer)
  }

  /** The number of flush callbacks pending. */
  function FlushTimers(ts: seq<Timer>): nat
  {
    if ts == [] then 0 else (if ts[0].kind == FlushWakeup then 1 else 0) + FlushTimers(ts[1..])
  }

  // ----- $watchGroup -----

  /** The number of queued `watchGroupListener` calls of group `g`. */
  function Reactions(q: seq<Task>, g: nat): nat
  {
    if q == [] then 0 else (if q[0].GroupReaction? && q[0].group == g then 1 else 0) + Reactions(q[1..], g)
  }

  /** Queued group reactions belong to existing groups, and a group has one queued only
      while its `changeReactionScheduled` flag is set. */
  predicate GroupsOk(s: State)
  {
    (forall k :: 0 <= k < |s.asyncQueue| && s.asyncQueue[k].GroupReaction? ==> s.asyncQueue[k].group < |s.groups|) &&
    (forall g :: 0 <= g < |s.groups| ==> Reactions(s.asyncQueue, g) <= if s.groups[g].scheduled then 1 else 0)
  }

  predicate Wf(s: State)
  {
    RegistryOk(s) && TimersOk(s) && GroupsOk(s)
  }

  lemma InitialWf(vars: map<string, Value>)
    ensures Wf(Initial(vars))
  {
  }

  // ----- what only grows -----

  /** `s'` comes after `s`: counters and observations only grow, removed watchers stay
      removed, and every pending timer was pending before or is new. */
  ghost predicate Advances(s: State, s': State)
  {
    s.nextWatcher <= s'.nextWatcher && s.nextTimer <= s'.nextTimer && |s.groups| <= |s'.groups| &&
    s.calls <= s'.calls && s.log <= s'.log &&
    (forall id :: Retired(s, id) ==> Retired(s', id)) &&
    (forall t :: t in s'.timers ==> t in s.timers || t.handle >= s.nextTimer)
  }

  /** No call made between `s` and `s'` ran a watcher that was already removed in `s`. */
  ghost predicate NoRetiredRuns(s: State, s': State)
    requires s.calls <= s'.calls
  {
    forall k :: |s.calls| <= k < |s'.calls| ==> !RunsRetired(s'.calls[k], s)
  }

  ghost predicate Evolves(s: State, s': State)
  {
    Advances(s, s') && NoRetiredRuns(s, s')
  }

  lemma AdvancesTrans(a: State, b: State, c: State)
    requires Advances(a, b) && Advances(b, c)
    ensures Advances(a, c)
  {
  }

  lemma EvolvesTrans(a: State, b: State, c: State)
    requires Evolves(a, b) && Evolves(b, c)
    ensures Evolves(a, c)
  {
    forall k | |a.calls| <= k < |c.calls|
      ensures !RunsRetired(c.calls[k], a)
    {
      if k < |b.calls| {
        assert c.calls[k] == b.calls[k];
      }
    }
  }

  /** What running a user callable may do: it makes no spy observation, logs nothing,
      keeps the phase, only appends to the queues, never re-arms a pending flush, leaves
      existing groups alone but for their `shouldCall` flag, changes no existing watcher
      (it only adds and removes), queues no group reaction, and keeps the invariants. */
  ghost predicate UserStep(s: State, s': State)
  {
    Evolves(s, s') && s'.calls == s.calls && s'.log == s.log && s'.phase == s.phase &&
    (s'.lastDirty == s.lastDirty || s'.lastDirty == None) &&
    s.asyncQueue <= s'.asyncQueue && s.applyAsyncQueue <= s'.applyAsyncQueue && s.postDigestQueue <= s'.postDigestQueue &&
    (s.applyAsyncId.Some? ==> s'.applyAsyncId == s.applyAsyncId) &&
    (forall g :: 0 <= g < |s.groups| ==> s'.groups[g] == s.groups[g].(shouldCall := s'.groups[g].shouldCall)) &&
    (forall w :: w in s'.watchers ==> w in s.watchers || w.id >= s.nextWatcher) &&
    (forall g :: Reactions(s'.asyncQueue, g) == Reactions(s.asyncQueue, g)) &&
    (Wf(s) ==> Wf(s'))
  }

  lemma UserStepTrans(a: State, b: State, c: State)
    requires UserStep(a, b) && UserStep(b, c)
    ensures UserStep(a, c)
  {
    EvolvesTrans(a, b, c);
  }

  // ----- queue helpers -----

  lemma {:induction false} ReactionsAppend(q: seq<Task>, t: Task, g: nat)
    ensures Reactions(q + [t], g) == Reactions(q, g) + if t.GroupReaction? && t.group == g then 1 else 0
  {
    if q != [] {
      assert (q + [t])[1..] == q[1..] + [t];
      ReactionsAppend(q[1..], t, g);
    }
  }

  lemma {:induction false} NoReactionsBeyond(q: seq<Task>, n: nat, g: nat)
    requires forall k :: 0 <= k < |q| && q[k].GroupReaction? ==> q[k].group < n
    requires g >= n
    ensures Reactions(q, g) == 0
  {
    if q != [] {
      NoReactionsBeyond(q[1..], n, g);
    }
  }

  // ----- the primitive operations -----

  lemma WatchStep(s: State, watchFn: Fn, listener: Option<Listener>, byValue: bool)
    ensures UserStep(s, S.Watch(s, watchFn, listener, byValue))
  {
    var s' := S.Watch(s, watchFn, listener, byValue);
    forall id | Registered(s'.watchers, id) && id != s.nextWatcher ensures Registered(s.watchers, id) {
      var k :| 0 <= k < |s'.watchers| && s'.watchers[k].id == id;
      assert s.watchers[k - 1].id == id;
    }
  }

  /** Removing the watcher at index `i` keeps the others, in order. */
  lemma Removal(ws: seq<Watcher>, i: nat)
    requires i < |ws|
    ensures var r := ws[..i] + ws[i + 1..];
      |r| == |ws| - 1 &&
      (forall k :: 0 <= k < |r| ==> r[k] == if k < i then ws[k] else ws[k + 1]) &&
      (forall w :: w in r ==> w in ws) &&
      (forall x :: Registered(r, x) ==> Registered(ws, x)) &&
      (UniqueIds(ws) ==> UniqueIds(r))
  {
    var r := ws[..i] + ws[i + 1..];
    assert forall k :: 0 <= k < |r| ==> r[k] == if k < i then ws[k] else ws[k + 1];
    forall x | Registered(r, x) ensures Registered(ws, x) {
      var k :| 0 <= k < |r| && r[k].id == x;
      if k < i { assert ws[k].id == x; } else { assert ws[k + 1].id == x; }
    }
    forall w | w in r ensures w in ws {
      var k :| 0 <= k < |r| && r[k] == w;
      if k < i { assert ws[k] == w; } else { assert ws[k + 1] == w; }
    }
  }

  lemma DeregisterStep(s: State, id: nat)
    ensures UserStep(s, S.Deregister(s, id))
  {
    var i := S.IndexOf(s.watchers, id);
    if i >= 0 {
      Removal(s.watchers, i);
    }
  }

  lemma {:induction false} RegisterMembersStep(s: State, watchFns: seq<Fn>, g: nat, i: nat)
    ensures UserStep(s, S.RegisterMembers(s, watchFns, g, i))
    decreases |watchFns| - i
  {
    if i < |watchFns| {
      var s1 := S.Watch(s, watchFns[i], Some(GroupMember(g, i)), false);
      WatchStep(s, watchFns[i], Some(GroupMember(g, i)), false);
      RegisterMembersStep(s1, watchFns, g, i + 1);
      UserStepTrans(s, s1, S.RegisterMembers(s1, watchFns, g, i + 1));
    }
  }

  lemma {:induction false} DeregisterAllStep(s: State, ids: seq<nat>)
    ensures UserStep(s, S.DeregisterAll(s, ids))
    decreases ids
  {
    if ids != [] {
      var s1 := S.Deregister(s, ids[0]);
      DeregisterStep(s, ids[0]);
      DeregisterAllStep(s1, ids[1..]);
      UserStepTrans(s, s1, S.DeregisterAll(s1, ids[1..]));
    }
  }

  lemma SetTimeoutEvolves(s: State, kind: TimerKind)
    ensures Evolves(s, S.SetTimeout(s, kind))
    ensures TimersOk(s) && (kind == FlushWakeup ==> s.applyAsyncId.None?) ==>
      TimersOk(S.SetTimeout(s, kind).(applyAsyncId := if kind == FlushWakeup then Some(s.nextTimer) else s.applyAsyncId))
  {
  }

  /** Queueing a task other than a group reaction. */
  lemma EvalAsyncStep(s: State, t: Task)
    requires !t.GroupReaction?
    ensures UserStep(s, S.EvalAsync(s, t))
  {
    var s1 := if s.phase.None? && s.asyncQueue == [] then S.SetTimeout(s, DigestWakeup) else s;
    SetTimeoutEvolves(s, DigestWakeup);
    forall g ensures Reactions(s1.asyncQueue + [t], g) == Reactions(s.asyncQueue, g) {
      ReactionsAppend(s1.asyncQueue, t, g);
    }
  }

  lemma ApplyAsyncStep(s: State, f: Fn)
    ensures UserStep(s, S.ApplyAsync(s, f))
  {
    var s1 := s.(applyAsyncQueue := s.applyAsyncQueue + [f]);
    SetTimeoutEvolves(s1, FlushWakeup);
  }

  lemma WatchGroupStep(s: State, watchFns: seq<Fn>, listener: Fn)
    ensures UserStep(s, S.WatchGroup(s, watchFns, listener))
  {
    var g := |s.groups|;
    var n := |watchFns|;
    if n == 0 {
      var s1 := s.(groups := s.groups + [Group(listener, [], [], [], false, true, true)]);
      if Wf(s) {
        NoReactionsBeyond(s.asyncQueue, g, g);
        assert Wf(s1);
      }
      EvalAsyncStep(s1, EmptyGroupCall(g, listener));
      UserStepTrans(s, s1, S.WatchGroup(s, watchFns, listener));
    } else {
      var members := seq(n, k => s.nextWatcher + k);
      var s1 := s.(groups := s.groups + [Group(listener, members, S.Holes(n), S.Holes(n), false, true, true)]);
      if Wf(s) {
        NoReactionsBeyond(s.asyncQueue, g, g);
        assert Wf(s1);
      }
      RegisterMembersStep(s1, watchFns, g, 0);
      UserStepTrans(s, s1, S.WatchGroup(s, watchFns, listener));
    }
  }

  lemma DeregisterGroupStep(s: State, g: nat)
    ensures UserStep(s, S.DeregisterGroup(s, g))
  {
    if g < |s.groups| && s.groups[g].members != [] {
      DeregisterAllStep(s, s.groups[g].members);
    }
  }

  lemma PerformStep(s: State, a: Action, args: seq<Value>)
    requires !a.Throw?
    ensures UserStep(s, S.Perform(s, a, args))
  {
    match a
    case Assign(_, _) =>
    case Watch(w, l, byValue) => WatchStep(s, w, if l.Some? then Some(Callback(l.value)) else None, byValue);
    case Deregister(id) => DeregisterStep(s, id);
    case WatchGroup(fns, l) => WatchGroupStep(s, fns, l);
    case DeregisterGroup(g) => DeregisterGroupStep(s, g);
    case EvalAsync(t) => EvalAsyncStep(s, Evaluate(t));
    case ApplyAsync(t) => ApplyAsyncStep(s, t);
    case PostDigest(c) =>
  }

  lemma {:induction false} RunActionsStep(s: State, body: seq<Action>, args: seq<Value>)
    ensures UserStep(s, S.RunActions(s, body, args).state)
    decreases body
  {
    if body != [] && !body[0].Throw? {
      var s1 := S.Perform(s, body[0], args);
      PerformStep(s, body[0], args);
      RunActionsStep(s1, body[1..], args);
      UserStepTrans(s, s1, S.RunActions(s1, body[1..], args).state);
    }
  }

  /** Running a user callable, whether it returns or throws, is a `UserStep`. */
  lemma RunFnStep(s: State, f: Fn, args: seq<Value>)
    ensures UserStep(s, S.RunFn(s, f, args).state)
  {
    RunActionsStep(s, f.body, args);
  }
}
