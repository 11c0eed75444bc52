/** How `$watchGroup` coalesces the changes of its watchers into calls of its listener
    (src/scope.js:38-83). */
module GroupFacts {
  import opened Values
  import opened Callables
  import opened Wrappers
  import opened ScopeState
  import opened Invariants
  import S = Semantics

  /** A component watcher's listener records the new and old value of its slot, and
      queues the group listener only when no call of it is queued yet: however many
      components change, one call is queued per batch. */
  lemma MemberChangeCoalesces(s: State, g: nat, i: nat, newValue: Value, oldValue: Value)
    requires g < |s.groups| && i < |s.groups[g].newValues| && i < |s.groups[g].oldValues|
    ensures var r := S.GroupMemberChanged(s, g, i, newValue, oldValue);
      |r.groups| == |s.groups| && r.groups[g].scheduled &&
      r.groups[g].newValues == s.groups[g].newValues[i := newValue] &&
      r.groups[g].oldValues == s.groups[g].oldValues[i := oldValue] &&
      Reactions(r.asyncQueue, g) == Reactions(s.asyncQueue, g) + (if s.groups[g].scheduled then 0 else 1) &&
      s.asyncQueue <= r.asyncQueue && r.watchers == s.watchers && r.calls == s.calls
  {
    if !s.groups[g].scheduled {
      var gr := s.groups[g];
      var s1 := s.(groups := s.groups[g := gr.(newValues := gr.newValues[i := newValue], oldValues := gr.oldValues[i := oldValue], scheduled := true)]);
      var s2 := if s1.phase.None? && s1.asyncQueue == [] then S.SetTimeout(s1, DigestWakeup) else s1;
      ReactionsAppend(s2.asyncQueue, GroupReaction(g, gr.listener), g);
    }
  }

  /** Running a queued group reaction calls the group listener once with the group's
      `newValues` array and, on its first run, that same array as the old values
      (afterwards its `oldValues` array). The run is no longer the first one afterwards;
      the scheduled flag is cleared only when the listener returns, so that one that
      throws leaves the group scheduled and no later change queues another call. */
  lemma ReactionCallsListener(s: State, g: nat, l: Fn)
    requires g < |s.groups|
    ensures var gr := s.groups[g]; var r := S.RunTask(s, GroupReaction(g, l));
      var nv := Arr(NewValuesOf(g), gr.newValues);
      r.state.calls == s.calls + [GroupListenerCall(g, nv, if gr.firstRun then nv else Arr(OldValuesOf(g), gr.oldValues))] &&
      g < |r.state.groups| && !r.state.groups[g].firstRun &&
      r.state.groups[g].newValues == gr.newValues && r.state.groups[g].oldValues == gr.oldValues &&
      r.state.groups[g].scheduled == (gr.scheduled && r.outcome.Threw?)
  {
    var gr := s.groups[g];
    var nv := Arr(NewValuesOf(g), gr.newValues);
    var ov := if gr.firstRun then nv else Arr(OldValuesOf(g), gr.oldValues);
    var s1 := s.(groups := s.groups[g := gr.(firstRun := false)], calls := s.calls + [GroupListenerCall(g, nv, ov)]);
    RunFnStep(s1, l, [nv, ov]);
  }

  /** `$watchGroup` without watch functions registers no watcher and queues one call of
      its listener, which passes the (empty) `newValues` array as both arguments. */
  lemma EmptyGroupCallsOnce(s: State, listener: Fn)
    ensures var g := |s.groups|; var r := S.WatchGroup(s, [], listener);
      r.watchers == s.watchers && r.asyncQueue == s.asyncQueue + [EmptyGroupCall(g, listener)] &&
      S.RunTask(r, EmptyGroupCall(g, listener)).state.calls == r.calls + [GroupListenerCall(g, Arr(NewValuesOf(g), []), Arr(NewValuesOf(g), []))]
  {
    var g := |s.groups|;
    var r := S.WatchGroup(s, [], listener);
    var nv := Arr(NewValuesOf(g), []);
    RunFnStep(r.(calls := r.calls + [GroupListenerCall(g, nv, nv)]), listener, [nv, nv]);
  }

  /** Calling the deregistrar of a `$watchGroup` without watch functions before its
      queued call runs turns that call into a no-op. */
  lemma EmptyGroupCancelled(s: State, listener: Fn)
    ensures var g := |s.groups|; var r := S.DeregisterGroup(S.WatchGroup(s, [], listener), g);
      r.asyncQueue == s.asyncQueue + [EmptyGroupCall(g, listener)] &&
      S.RunTask(r, EmptyGroupCall(g, listener)) == Run(r, Returned(Undefined))
  {
  }
}
