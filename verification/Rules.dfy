/** When a location is patched: the rule that ties patches to enable flags, which runs keep it,
    and the one command that can break it. */
module Rules {
  import opened Memory
  import opened Machine
  import opened Sequences
  import opened Model
  import opened Invariants
  import opened Bulk
  import opened Resolution

  /** Patched if all its breakpoints are enabled, unpatched if none is; anything goes in between. */
  ghost predicate Follows(s: State, l: Loc) {
    && (l.ring != [] && AllEnabled(s, l.ring) ==> l.patched)
    && (NoneEnabled(s, l.ring) ==> !l.patched)
  }

  ghost predicate RuleHolds(s: State) {
    forall a :: a in s.locs ==> Follows(s, s.locs[a])
  }

  lemma SameFlagsFollow(s: State, r: State, l: Loc)
    requires forall id :: id in l.ring ==> Enabled(r, id) == Enabled(s, id)
    ensures Follows(r, l) == Follows(s, l)
  {
  }

  /** A location that agrees with one of its breakpoints follows the rule. */
  lemma FollowsMember(s: State, l: Loc, id: nat)
    requires id in l.ring && Enabled(s, id) == l.patched
    ensures Follows(s, l)
  {
  }

  lemma FollowsEmpty(s: State, l: Loc)
    requires l.ring == [] && !l.patched
    ensures Follows(s, l)
  {
  }

  lemma SetKeepsRuleAt(s: State, r: State, id: nat, a: int, b: int)
    requires Linked(s) && RuleHolds(s) && id !in s.bps && id in r.bps && r.bps[id].enable
    requires forall x :: x in s.bps ==> x in r.bps && r.bps[x].enable == s.bps[x].enable
    requires b in r.locs
    requires if b == a then id in r.locs[b].ring && r.locs[b].patched else b in s.locs && r.locs[b] == s.locs[b]
    ensures Follows(r, r.locs[b])
  {
  }

  lemma SetKeepsRule(s: State, instrAddr: Addr)
    requires Inv(s) && RuleHolds(s)
    ensures RuleHolds(SetBp(s, instrAddr))
  {
    var id, s1, r := s.nextId, Registered(s, instrAddr), SetBp(s, instrAddr);
    if s.active {
      var a := RunningAddr(s1, id);
      RegisteredKeepsWf(s, instrAddr);
      AttachShape(s1, id);
      assert Last(r.locs[a].ring) == id;
      forall b | b in r.locs
        ensures Follows(r, r.locs[b])
      {
        SetKeepsRuleAt(s, r, id, a, b);
      }
    }
  }

  lemma EnableBpKeepsRule(s: State, id: nat)
    requires Wf(s) && RuleHolds(s)
    ensures RuleHolds(EnableBp(s, id))
  {
    if id in s.bps {
      var r := EnableBp(s, id);
      EnableBpEffect(s, id);
      forall a | a in r.locs
        ensures Follows(r, r.locs[a])
      {
        if id !in s.locs[a].ring {
          SameFlagsFollow(s, r, s.locs[a]);
        } else {
          assert Enabled(r, id);
        }
      }
    }
  }

  lemma DisableBpKeepsRule(s: State, id: nat)
    requires Wf(s) && RuleHolds(s)
    ensures RuleHolds(DisableBp(s, id))
  {
    if id in s.bps {
      var r := DisableBp(s, id);
      DisableBpEffect(s, id);
      forall a | a in r.locs
        ensures Follows(r, r.locs[a])
      {
        if id !in s.locs[a].ring {
          SameFlagsFollow(s, r, s.locs[a]);
        } else {
          assert !Enabled(r, id);
        }
      }
    }
  }

  lemma AgreementFollows(s: State, l: Loc, flag: bool)
    requires forall id :: id in l.ring ==> Enabled(s, id) == flag
    requires l.patched == (flag && l.ring != [])
    ensures Follows(s, l)
  {
    if l.ring == [] {
      FollowsEmpty(s, l);
    } else {
      FollowsMember(s, l, Last(l.ring));
    }
  }

  lemma AgreementGivesRule(s: State, flag: bool)
    requires Linked(s) && forall id :: id in s.bps ==> s.bps[id].enable == flag
    requires forall a :: a in s.locs ==> s.locs[a].patched == (flag && s.locs[a].ring != [])
    ensures RuleHolds(s)
  {
    forall a | a in s.locs
      ensures Follows(s, s.locs[a])
    {
      AgreementFollows(s, s.locs[a], flag);
    }
  }

  lemma EnableAllGivesRule(s: State)
    requires Inv(s)
    ensures RuleHolds(EnableEach(s, s.pending))
  {
    EnableAllErasesHistory(s);
    AgreementGivesRule(EnableEach(s, s.pending), true);
  }

  lemma DisableAllGivesRule(s: State)
    requires Inv(s)
    ensures RuleHolds(DisableEach(s, s.pending))
  {
    DisableAllErasesHistory(s);
    AgreementGivesRule(DisableEach(s, s.pending), false);
  }

  lemma DeleteAllGivesRule(s: State)
    requires Inv(s)
    ensures RuleHolds(DeleteEach(s, s.pending))
  {
    DeleteAllIsComplete(s);
  }

  lemma GroupFollows(s: State, r: State, ids: seq<nat>, a: int)
    requires a in r.locs && HoldsGroup(s, ids, a, r.locs[a])
    requires forall id :: Enabled(r, id) == Enabled(s, id)
    ensures Follows(r, r.locs[a])
  {
  }

  lemma ResolveGivesRule(s: State, prog: Program)
    requires Inv(s) && !s.active && !ResolveAborts(Loaded(s, prog))
    ensures RuleHolds(Resolve(Loaded(s, prog)))
  {
    var s1, r := Loaded(s, prog).(hasTable := true), Resolve(Loaded(s, prog));
    ResolveGroups(s, prog);
    assert forall id :: Enabled(r, id) == Enabled(s1, id);
    forall a | a in r.locs
      ensures Follows(r, r.locs[a])
    {
      GroupFollows(s1, r, s.pending, a);
    }
  }

  // ----- deleting one breakpoint

  /** The only breakpoint of a shared location with its enable flag, while the patch follows that flag. */
  ghost predicate SoleDissenter(s: State, id: nat) {
    id in s.bps && s.bps[id].location.Some? &&
    var a := s.bps[id].location.value;
    a in s.locs && Without(s.locs[a].ring, id) != [] &&
    s.locs[a].patched == s.bps[id].enable &&
    forall other :: other in Without(s.locs[a].ring, id) ==> Enabled(s, other) != s.bps[id].enable
  }

  lemma RingAfterRemove(s: State, id: nat, a: int)
    requires Inv(s) && id in s.bps && a in s.locs
    ensures a in Remove(s, id).locs
    ensures Remove(s, id).locs[a].patched ==
      (s.locs[a].patched && (s.bps[id].location == Some(a) ==> Without(s.locs[a].ring, id) != []))
  {
    RemoveKeepsWf(s, id);
    UnlinkShape(s.(pending := Without(s.pending, id)), id, a);
  }

  /** Deleting a breakpoint breaks the rule exactly when it is such a dissenter: the patch that
      followed it is not recomputed for the breakpoints that stay. */
  lemma RemoveKeepsRuleExactly(s: State, id: nat)
    requires Inv(s) && RuleHolds(s) && id in s.bps
    ensures RuleHolds(Remove(s, id)) <==> !SoleDissenter(s, id)
  {
    var r := Remove(s, id);
    RemoveKeepsWf(s, id);
    forall a | a in r.locs && s.bps[id].location != Some(a)
      ensures Follows(r, r.locs[a])
    {
      RingAfterRemove(s, id, a);
      RingIsWhoPointsHere(s, a, id);
      SameFlagsFollow(s, r, s.locs[a]);
    }
    if s.bps[id].location.Some? {
      assert PointsHome(s, id);
      var a := s.bps[id].location.value;
      if SoleDissenter(s, id) {
        DissenterAtHome(s, id, a);
      } else {
        OthersAtHome(s, id, a);
      }
    }
  }

  lemma DissenterAtHome(s: State, id: nat, a: int)
    requires Inv(s) && SoleDissenter(s, id) && s.bps[id].location == Some(a)
    ensures a in Remove(s, id).locs && !Follows(Remove(s, id), Remove(s, id).locs[a])
  {
    var r, rest := Remove(s, id), Without(s.locs[a].ring, id);
    RemoveKeepsWf(s, id);
    RingAfterRemove(s, id, a);
    assert r.locs[a].ring == rest && r.locs[a].patched == s.bps[id].enable;
    assert forall x :: x in rest ==> Enabled(r, x) == Enabled(s, x);
    assert Last(rest) in rest;
  }

  /** A location that follows the rule with `id` in its ring, and not because of `id` alone, follows it without. */
  lemma FollowsWithout(s: State, l: Loc, l': Loc, id: nat)
    requires Follows(s, l) && l'.ring == Without(l.ring, id)
    requires if l'.ring == [] then !l'.patched else l'.patched == l.patched
    requires id in l.ring && l'.ring != [] && l.patched == Enabled(s, id) ==>
      exists x :: x in l'.ring && Enabled(s, x) == Enabled(s, id)
    ensures Follows(s, l')
  {
    if l'.ring == [] {
      FollowsEmpty(s, l');
    } else if id in l.ring && l.patched == Enabled(s, id) {
      var x :| x in l'.ring && Enabled(s, x) == Enabled(s, id);
      FollowsMember(s, l', x);
    }
  }

  lemma OthersAtHome(s: State, id: nat, a: int)
    requires Inv(s) && RuleHolds(s) && id in s.bps && s.bps[id].location == Some(a) && a in s.locs
    requires !SoleDissenter(s, id)
    ensures a in Remove(s, id).locs && Follows(Remove(s, id), Remove(s, id).locs[a])
  {
    var r := Remove(s, id);
    RemoveKeepsWf(s, id);
    RingAfterRemove(s, id, a);
    FollowsWithout(s, s.locs[a], r.locs[a], id);
    SameFlagsFollow(s, r, r.locs[a]);
  }

  lemma SetShape(s: State, instrAddr: Addr)
    requires Inv(s)
    ensures if s.active
      then AttachedTo(Registered(s, instrAddr), SetBp(s, instrAddr), s.nextId, Wrap(instrAddr + s.base))
      else SetBp(s, instrAddr) == Registered(s, instrAddr)
  {
    if s.active {
      var s1 := Registered(s, instrAddr);
      assert Listed(s1) && Linked(s1) by {
        RegisteredKeepsWf(s, instrAddr);
      }
      AttachShape(s1, s.nextId);
    }
  }

  lemma InvAfterAttach(s: State, s1: State, r: State, id: nat, a: int)
    requires Inv(s) && s.active && Wf(r)
    requires s1 == s.(bps := s1.bps, pending := s1.pending, nextId := s1.nextId)
    requires id in s1.bps && s1.bps == s.bps[id := s1.bps[id]] && AttachedTo(s1, r, id, a)
    ensures Inv(r)
  {
    assert forall x :: x in r.locs && x != a ==> x in s.locs;
  }

  /** Setting a breakpoint keeps the invariant. */
  lemma SetKeepsInv(s: State, instrAddr: Addr)
    requires Inv(s) && !SetAborts(s, instrAddr)
    ensures Inv(SetBp(s, instrAddr)) && SameProcess(s.proc, SetBp(s, instrAddr).proc)
  {
    var s1 := Registered(s, instrAddr);
    RegisteredKeepsWf(s, instrAddr);
    SetShape(s, instrAddr);
    if s.active {
      AttachKeepsWf(s1, s.nextId);
      InvAfterAttach(s, s1, SetBp(s, instrAddr), s.nextId, Wrap(instrAddr + s.base));
    }
  }

  lemma TwoAttached(s: State, s1: State, s2: State, instrAddr: Addr, a: int)
    requires a !in s.locs
    requires AttachedTo(Registered(s, instrAddr), s1, s.nextId, a)
    requires AttachedTo(Registered(s1, instrAddr), s2, s.nextId + 1, a)
    ensures Enabled(s2, s.nextId) && Enabled(s2, s.nextId + 1)
    ensures s2.bps[s.nextId].location == Some(a) == s2.bps[s.nextId + 1].location
    ensures a in s2.locs && s2.locs[a].ring == [s.nextId, s.nextId + 1] && s2.locs[a].patched
  {
  }

  lemma SecondSet(s: State, s1: State, instrAddr: Addr, a: int)
    requires a !in s.locs && a != 0 && a == Wrap(instrAddr + s1.base) && Inv(s1) && s1.active
    requires AttachedTo(Registered(s, instrAddr), s1, s.nextId, a)
    ensures var r := SetBp(s1, instrAddr);
      && Enabled(r, s.nextId) && Enabled(r, s.nextId + 1) && r.bps[s.nextId].location == Some(a)
      && a in r.locs && r.locs[a].ring == [s.nextId, s.nextId + 1] && r.locs[a].patched
  {
    SetShape(s1, instrAddr);
    TwoAttached(s, s1, SetBp(s1, instrAddr), instrAddr, a);
  }

  /** A dissenter's deletion leaves a location that does not follow the rule, whatever held before. */
  lemma DissenterBreaksRule(s: State, id: nat)
    requires Inv(s) && SoleDissenter(s, id)
    ensures !RuleHolds(Remove(s, id))
  {
    DissenterAtHome(s, id, s.bps[id].location.value);
  }

  /** Two enabled breakpoints share a patched location that has no others. */
  ghost predicate Shared(s: State, i: nat, j: nat, a: int) {
    && i != j && Enabled(s, i) && Enabled(s, j) && s.bps[i].location == Some(a)
    && a in s.locs && s.locs[a].ring == [i, j] && s.locs[a].patched
  }

  lemma DisableSecond(s: State, i: nat, j: nat, a: int)
    requires Inv(s) && Shared(s, i, j, a)
    ensures Inv(DisableBp(s, j)) && SoleDissenter(DisableBp(s, j), i)
  {
    var m := DisableBp(s, j);
    DisableBpEffect(s, j);
    DisableBpKeepsWf(s, j);
    InvOfSameShape(s, m);
    assert Enabled(m, i) && i in m.locs[a].ring;
    assert Without([i, j], i) == [j] by {
      assert Front([i, j]) == [i] && Front([i]) == [];
    }
  }

  lemma TwoSets(s: State, instrAddr: Addr)
    requires Inv(s) && s.active && Wrap(instrAddr + s.base) != 0 && Wrap(instrAddr + s.base) !in s.locs
    ensures var s2 := SetBp(SetBp(s, instrAddr), instrAddr);
      Inv(s2) && Shared(s2, s.nextId, s.nextId + 1, Wrap(instrAddr + s.base)) && (RuleHolds(s) ==> RuleHolds(s2))
  {
    var s1 := SetBp(s, instrAddr);
    SetKeepsInv(s, instrAddr);
    SetShape(s, instrAddr);
    SetKeepsInv(s1, instrAddr);
    SecondSet(s, s1, instrAddr, Wrap(instrAddr + s.base));
    if RuleHolds(s) {
      SetKeepsRule(s, instrAddr);
      SetKeepsRule(s1, instrAddr);
    }
  }

  lemma DeleteFirst(s: State, i: nat, j: nat, a: int)
    requires Inv(s) && Shared(s, i, j, a)
    ensures var m := DisableBp(s, j);
      Inv(m) && i in m.bps && (RuleHolds(s) ==> RuleHolds(m)) && !RuleHolds(Remove(m, i))
  {
    DisableSecond(s, i, j, a);
    DissenterBreaksRule(DisableBp(s, j), i);
    if RuleHolds(s) {
      DisableBpKeepsRule(s, j);
    }
  }

  /** From every active state the rule can be broken: set two breakpoints at one fresh address,
      disable the second, delete the first.  The rule lasts until the deletion, which leaves the
      location patched for a disabled breakpoint. */
  lemma RemoveCanBreakRule(s: State, instrAddr: Addr)
    requires Inv(s) && s.active && Wrap(instrAddr + s.base) != 0 && Wrap(instrAddr + s.base) !in s.locs
    ensures var m := DisableBp(SetBp(SetBp(s, instrAddr), instrAddr), s.nextId + 1);
      && Inv(m) && s.nextId in m.bps
      && (RuleHolds(s) ==> RuleHolds(m)) && !RuleHolds(Remove(m, s.nextId))
  {
    TwoSets(s, instrAddr);
    DeleteFirst(SetBp(SetBp(s, instrAddr), instrAddr), s.nextId, s.nextId + 1, Wrap(instrAddr + s.base));
  }

  // ----- restarting

  /** The same groups at the same addresses, with the same patch where the group agrees. */
  ghost predicate AgreesWith(s: State, r: State) {
    && r.locs.Keys == (set a | a in s.locs && s.locs[a].ring != [])
    && forall a :: a in r.locs ==> AgreesAt(s, r.locs[a], s.locs[a])
  }

  ghost predicate AgreesAt(s: State, l: Loc, was: Loc) {
    && (forall id :: id in l.ring <==> id in was.ring)
    && (AllEnabled(s, was.ring) || NoneEnabled(s, was.ring) ==> l.patched == was.patched)
  }

  lemma GroupsAgree(s: State, s1: State, r: State)
    requires Inv(s) && RuleHolds(s) && s.active && s1.bps.Keys == s.bps.Keys
    requires forall id :: id in s.bps ==>
      s1.bps[id].enable == s.bps[id].enable && RunningAddr(s1, id) == RunningAddr(s, id)
    requires r.locs.Keys == AddrsOf(s, s.pending)
    requires forall a :: a in r.locs ==> HoldsGroup(s1, s.pending, a, r.locs[a])
    ensures AgreesWith(s, r)
  {
    hide Inv, RuleHolds, HoldsGroup, AgreesAt, AddrsOf, RunningAddr;
    forall a | a in r.locs
      ensures a in s.locs && s.locs[a].ring != [] && AgreesAt(s, r.locs[a], s.locs[a])
    {
      SameGroup(s, s1, a, r.locs[a]);
    }
    forall a | a in s.locs && s.locs[a].ring != []
      ensures a in r.locs
    {
      OccupiedAddresses(s, a);
    }
  }

  lemma ResolveAgrees(s: State, c: State, prog: Program)
    requires Inv(s) && RuleHolds(s) && s.active && prog.base == s.base
    requires Inv(c) && !c.active && c.pending == s.pending && c.bps.Keys == s.bps.Keys
    requires forall id :: id in s.bps ==>
      c.bps[id].enable == s.bps[id].enable && c.bps[id].instrAddr == s.bps[id].instrAddr
    ensures !ResolveAborts(Loaded(c, prog))
    ensures AgreesWith(s, Resolve(Loaded(c, prog)))
  {
    var s1 := Loaded(c, prog).(hasTable := true);
    forall id | id in s.bps
      ensures RunningAddr(s1, id) == RunningAddr(s, id) != 0
    {
      assert PointsHome(s, id);
    }
    assert AddrsOf(s1, s.pending) == AddrsOf(s, s.pending);
    ResolveGroups(c, prog);
    GroupsAgree(s, s1, Resolve(Loaded(c, prog)));
  }

  /** Restarting at the same load address rebuilds every location that has a breakpoint and keeps
      its patch if its breakpoints agree. */
  lemma RestartKeepsAgreedPatches(s: State, prog: Program)
    requires Inv(s) && RuleHolds(s) && s.active && prog.base == s.base
    ensures !ResolveAborts(Loaded(Cleanup(s), prog))
    ensures AgreesWith(s, Resolve(Loaded(Cleanup(s), prog)))
  {
    CleanupKeepsInv(s);
    ResolveAgrees(s, Cleanup(s), prog);
  }

  lemma SameGroup(s: State, s1: State, a: int, l: Loc)
    requires Inv(s) && RuleHolds(s) && s.active && s1.bps.Keys == s.bps.Keys
    requires forall id :: id in s.bps ==>
      s1.bps[id].enable == s.bps[id].enable && RunningAddr(s1, id) == RunningAddr(s, id)
    requires HoldsGroup(s1, s.pending, a, l)
    ensures a in s.locs && s.locs[a].ring != []
    ensures AgreesAt(s, l, s.locs[a])
  {
    assert Last(l.ring) in l.ring && PointsHome(s, Last(l.ring));
    forall id | id in s.bps
      ensures id in l.ring <==> id in s.locs[a].ring
    {
      assert PointsHome(s, id);
      RingIsWhoPointsHere(s, a, id);
    }
    assert Last(l.ring) in s.locs[a].ring;
  }
}
