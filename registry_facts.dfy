/** What `$watch`, its remover, `$watchGroup` and the group deregistrar do to `$$watchers`
    (src/scope.js:19-83), stated against a filter over the registry. */
module RegistryFacts {
  import opened Values
  import opened Callables
  import opened Wrappers
  import opened ScopeState
  import opened Invariants
  import S = Semantics

  /** The registry with the watchers of the registrations in `ids` taken out, the others
      kept in order. */
  function Without(ws: seq<Watcher>, ids: set<nat>): (r: seq<Watcher>)
    ensures |r| <= |ws|
  {
    if ws == [] then [] else (if ws[0].id in ids then [] else [ws[0]]) + Without(ws[1..], ids)
  }

  /** A watcher survives the filter exactly when it was there and is not named. */
  lemma {:induction false} WithoutMembers(ws: seq<Watcher>, ids: set<nat>)
    ensures forall w :: w in Without(ws, ids) <==> w in ws && w.id !in ids
  {
    if ws != [] {
      WithoutMembers(ws[1..], ids);
      assert ws == [ws[0]] + ws[1..];
    }
  }

  lemma {:induction false} WithoutAppend(a: seq<Watcher>, b: seq<Watcher>, ids: set<nat>)
    ensures Without(a + b, ids) == Without(a, ids) + Without(b, ids)
  {
    if a == [] {
      assert a + b == b;
    } else {
      assert (a + b)[1..] == a[1..] + b;
      WithoutAppend(a[1..], b, ids);
    }
  }

  lemma {:induction false} WithoutNothing(ws: seq<Watcher>, ids: set<nat>)
    requires forall k :: 0 <= k < |ws| ==> ws[k].id !in ids
    ensures Without(ws, ids) == ws
  {
    if ws != [] {
      WithoutNothing(ws[1..], ids);
      assert ws == [ws[0]] + ws[1..];
    }
  }

  lemma {:induction false} WithoutEverything(ws: seq<Watcher>, ids: set<nat>)
    requires forall k :: 0 <= k < |ws| ==> ws[k].id in ids
    ensures Without(ws, ids) == []
  {
    if ws != [] {
      WithoutEverything(ws[1..], ids);
    }
  }

  lemma {:induction false} WithoutTwice(ws: seq<Watcher>, a: set<nat>, b: set<nat>)
    ensures Without(Without(ws, a), b) == Without(ws, a + b)
  {
    if ws != [] {
      var head := if ws[0].id in a then [] else [ws[0]];
      WithoutAppend(head, Without(ws[1..], a), b);
      WithoutTwice(ws[1..], a, b);
      assert Without(head, b) == if ws[0].id in a + b then [] else [ws[0]] by {
        if head != [] {
          assert head[1..] == [];
        }
      }
    }
  }

  /** `indexOf` yields the first slot holding the registration, and -1 exactly when the
      registration is not in the registry. */
  lemma {:induction false} IndexOfFinds(ws: seq<Watcher>, id: nat)
    ensures var i := S.IndexOf(ws, id);
      (0 <= i <==> Registered(ws, id)) &&
      (0 <= i ==> ws[i].id == id && forall k :: 0 <= k < i ==> ws[k].id != id)
  {
    if ws != [] && ws[0].id != id {
      IndexOfFinds(ws[1..], id);
      forall k | 0 <= k < |ws| && ws[k].id == id ensures Registered(ws[1..], id) {
        assert ws[1..][k - 1].id == id;
      }
      forall k | 0 <= k < |ws[1..]| && ws[1..][k].id == id ensures Registered(ws, id) {
        assert ws[k + 1].id == id;
      }
    }
  }

  /** Taking out the slot of a registration that no other slot holds is filtering it out. */
  lemma {:induction false} WithoutSlot(ws: seq<Watcher>, i: nat)
    requires i < |ws|
    requires forall k :: 0 <= k < |ws| && k != i ==> ws[k].id != ws[i].id
    ensures Without(ws, {ws[i].id}) == ws[..i] + ws[i + 1..]
  {
    var ids := {ws[i].id};
    if i == 0 {
      forall k | 0 <= k < |ws[1..]| ensures ws[1..][k].id !in ids {
        assert ws[1..][k] == ws[k + 1];
      }
      WithoutNothing(ws[1..], ids);
    } else {
      var rest := ws[1..];
      assert rest[i - 1] == ws[i];
      forall k | 0 <= k < |rest| && k != i - 1 ensures rest[k].id != rest[i - 1].id {
        assert rest[k] == ws[k + 1];
      }
      WithoutSlot(rest, i - 1);
      assert ws[..i] == [ws[0]] + rest[..i - 1];
      assert ws[i + 1..] == rest[i..];
    }
  }

  /** The remover takes out exactly its own watcher, keeps every other one in order, and
      nulls `$$lastDirtyWatch` only when it removed something. */
  lemma DeregisterRemoves(s: State, id: nat)
    requires UniqueIds(s.watchers)
    ensures var r := S.Deregister(s, id);
      r.watchers == Without(s.watchers, {id}) &&
      r.lastDirty == (if Registered(s.watchers, id) then None else s.lastDirty) &&
      r == s.(watchers := r.watchers, lastDirty := r.lastDirty) &&
      UniqueIds(r.watchers) && !Registered(r.watchers, id)
  {
    var ws := s.watchers;
    var i := S.IndexOf(ws, id);
    IndexOfFinds(ws, id);
    if 0 <= i {
      forall k | 0 <= k < |ws| && k != i ensures ws[k].id != ws[i].id {
        if k < i {
          assert ws[k].id != ws[i].id;
        }
      }
      WithoutSlot(ws, i);
      Removal(ws, i);
    } else {
      WithoutNothing(ws, {id});
    }
    var r := S.Deregister(s, id);
    WithoutMembers(ws, {id});
    forall k | 0 <= k < |r.watchers| ensures r.watchers[k].id != id {
      assert r.watchers[k] in Without(ws, {id});
    }
  }

  /** Calling a remover a second time is a no-op (test/scope_spec.js:289-313). */
  lemma DeregisterIdempotent(s: State, id: nat)
    requires UniqueIds(s.watchers)
    ensures S.Deregister(S.Deregister(s, id), id) == S.Deregister(s, id)
  {
    var r := S.Deregister(s, id);
    DeregisterRemoves(s, id);
    IndexOfFinds(r.watchers, id);
  }

  /** `$watch` puts the new watcher in front of the others, never evaluated, with the
      no-op listener when none is given; calling the remover it returns gives the
      registry back as it was. */
  lemma WatchThenRemove(s: State, watchFn: Fn, listener: Option<Listener>, byValue: bool)
    ensures var r := S.Watch(s, watchFn, listener, byValue);
      r.watchers == [Watcher(s.nextWatcher, watchFn, if listener.Some? then listener.value else Callback(NoOp), NeverEvaluated, byValue)] + s.watchers &&
      r.lastDirty == None &&
      S.Deregister(r, s.nextWatcher) == s.(lastDirty := None, nextWatcher := s.nextWatcher + 1)
  {
    var r := S.Watch(s, watchFn, listener, byValue);
    assert r.watchers[..0] + r.watchers[1..] == s.watchers;
  }

  function Elems(ids: seq<nat>): set<nat>
  {
    set x | x in ids
  }

  /** The removers of all registrations in `ids`, called one after the other. */
  lemma {:induction false} DeregisterAllRemoves(s: State, ids: seq<nat>)
    requires UniqueIds(s.watchers)
    ensures S.DeregisterAll(s, ids).watchers == Without(s.watchers, Elems(ids))
    decreases ids
  {
    if ids == [] {
      assert Elems(ids) == {};
      WithoutNothing(s.watchers, {});
    } else {
      var s1 := S.Deregister(s, ids[0]);
      DeregisterRemoves(s, ids[0]);
      DeregisterAllRemoves(s1, ids[1..]);
      var rest := Elems(ids[1..]);
      WithoutTwice(s.watchers, {ids[0]}, rest);
      assert ids == [ids[0]] + ids[1..];
      assert Elems(ids) == {ids[0]} + rest;
      assert S.DeregisterAll(s, ids) == S.DeregisterAll(s1, ids[1..]);
    }
  }

  /** The watchers `RegisterMembers` adds from index `i` on: the newest first, each with
      the next registration number and the group-member listener of its slot. */
  lemma {:induction false} RegisterMembersShape(s: State, watchFns: seq<Fn>, g: nat, i: nat)
    requires i <= |watchFns|
    ensures var r := S.RegisterMembers(s, watchFns, g, i); var n := |watchFns| - i;
      |r.watchers| == |s.watchers| + n &&
      (forall k :: 0 <= k < n ==>
        r.watchers[k] == Watcher(s.nextWatcher + (n - 1 - k), watchFns[|watchFns| - 1 - k], GroupMember(g, |watchFns| - 1 - k), NeverEvaluated, false)) &&
      r.watchers[n..] == s.watchers &&
      r == s.(watchers := r.watchers, nextWatcher := s.nextWatcher + n, lastDirty := if n == 0 then s.lastDirty else None)
    decreases |watchFns| - i
  {
    if i < |watchFns| {
      var s1 := S.Watch(s, watchFns[i], Some(GroupMember(g, i)), false);
      RegisterMembersShape(s1, watchFns, g, i + 1);
      var r := S.RegisterMembers(s1, watchFns, g, i + 1);
      var n := |watchFns| - i;
      assert r.watchers[n - 1..] == s1.watchers;
      assert r.watchers[n..] == s1.watchers[1..];
    }
  }

  /** `$watchGroup` with watch functions registers one watcher per function, in order, so
      that the newest (the last function's) comes first; the group records their
      registration numbers and starts unscheduled and on its first run. */
  lemma WatchGroupRegisters(s: State, watchFns: seq<Fn>, listener: Fn)
    requires watchFns != []
    ensures var r := S.WatchGroup(s, watchFns, listener); var n := |watchFns|; var g := |s.groups|;
      |r.watchers| == |s.watchers| + n &&
      (forall k :: 0 <= k < n ==>
        r.watchers[k] == Watcher(s.nextWatcher + (n - 1 - k), watchFns[n - 1 - k], GroupMember(g, n - 1 - k), NeverEvaluated, false)) &&
      r.watchers[n..] == s.watchers &&
      |r.groups| == g + 1 && r.groups[..g] == s.groups &&
      |r.groups[g].members| == n && (forall j :: 0 <= j < n ==> r.groups[g].members[j] == r.watchers[n - 1 - j].id) &&
      !r.groups[g].scheduled && r.groups[g].firstRun &&
      r.asyncQueue == s.asyncQueue && r.timers == s.timers
  {
    var n := |watchFns|;
    var members := seq(n, k => s.nextWatcher + k);
    var s1 := s.(groups := s.groups + [Group(listener, members, S.Holes(n), S.Holes(n), false, true, true)]);
    RegisterMembersShape(s1, watchFns, |s.groups|, 0);
  }

  /** The watchers a `$watchGroup` call registers are exactly those whose ids the group
      records, and they keep the ids of the registry unique. */
  lemma WatchGroupMembers(s: State, watchFns: seq<Fn>, listener: Fn)
    requires RegistryOk(s) && watchFns != []
    ensures |S.WatchGroup(s, watchFns, listener).groups| == |s.groups| + 1
    ensures var r := S.WatchGroup(s, watchFns, listener); var n := |watchFns|; var ids := Elems(r.groups[|s.groups|].members);
      |r.watchers| == |s.watchers| + n && r.watchers == r.watchers[..n] + s.watchers &&
      UniqueIds(r.watchers) &&
      (forall k :: 0 <= k < n ==> r.watchers[k].id in ids) &&
      (forall k :: 0 <= k < |s.watchers| ==> s.watchers[k].id !in ids)
  {
    var n := |watchFns|;
    var g := |s.groups|;
    var r := S.WatchGroup(s, watchFns, listener);
    WatchGroupRegisters(s, watchFns, listener);
    var ids := r.groups[g].members;
    assert r.watchers == r.watchers[..n] + s.watchers;
    forall j, k | 0 <= j < k < |r.watchers| ensures r.watchers[j].id != r.watchers[k].id {
      if k >= n {
        assert r.watchers[k] == s.watchers[k - n];
        if j >= n {
          assert r.watchers[j] == s.watchers[j - n];
        }
      }
    }
    forall k | 0 <= k < n ensures r.watchers[k].id in Elems(ids) {
      assert r.watchers[k].id == ids[n - 1 - k];
    }
    forall k | 0 <= k < |s.watchers| ensures s.watchers[k].id !in Elems(ids) {
      assert s.watchers[k].id < s.nextWatcher;
    }
  }

  /** The deregistrar of a `$watchGroup` with watch functions removes every watcher the
      call registered and no other. */
  lemma WatchGroupThenDeregister(s: State, watchFns: seq<Fn>, listener: Fn)
    requires RegistryOk(s)
    ensures S.DeregisterGroup(S.WatchGroup(s, watchFns, listener), |s.groups|).watchers == s.watchers
  {
    if watchFns != [] {
      var n := |watchFns|;
      var r := S.WatchGroup(s, watchFns, listener);
      WatchGroupMembers(s, watchFns, listener);
      var ids := r.groups[|s.groups|].members;
      DeregisterAllRemoves(r, ids);
      var added := r.watchers[..n];
      WithoutAppend(added, s.watchers, Elems(ids));
      WithoutEverything(added, Elems(ids));
      WithoutNothing(s.watchers, Elems(ids));
    }
  }
}
