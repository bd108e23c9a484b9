/** What holds of the engine between any two operations, and that every operation keeps it. */
module Invariants {
  import opened Memory
  import opened Machine
  import opened Sequences
  import opened Model

  /** The id map and the pending ring hold the same breakpoints, each once. */
  ghost predicate Listed(s: State) {
    && Distinct(s.pending)
    && (forall id :: id in s.pending ==> id in s.bps)
    && (forall id :: id in s.bps ==> id in s.pending && id < s.nextId)
  }

  /** A breakpoint is in the ring of exactly the location it points to, the one at its running address. */
  ghost predicate Linked(s: State) {
    && (forall a, id :: a in s.locs && id in s.locs[a].ring ==> id in s.bps && s.bps[id].location == Some(a))
    && (forall id :: id in s.bps && s.bps[id].location.Some? ==> PointsHome(s, id))
    && (forall a :: a in s.locs ==> Distinct(s.locs[a].ring))
  }

  ghost predicate PointsHome(s: State, id: nat)
    requires id in s.bps && s.bps[id].location.Some?
  {
    var a := s.bps[id].location.value;
    a == RunningAddr(s, id) && a in s.locs && id in s.locs[a].ring
  }

  /** A patched location has a breakpoint, unless it is a temporary one. */
  ghost predicate Justified(l: Loc) {
    if l.isTemp then l.patched && l.ring == [] else l.patched ==> l.ring != []
  }

  ghost predicate AllJustified(s: State) {
    forall a :: a in s.locs ==> a != 0 && Justified(s.locs[a])
  }

  /** The addresses whose byte is replaced: the patched locations whose word can be written. */
  function Armed(locs: map<int, Loc>, image: Mem): set<int> {
    set a | a in locs && locs[a].patched && Readable(image.Keys, a)
  }

  /** The code is the image with 0xCC at the patched locations, each of which has saved the image's byte. */
  ghost predicate Overlay(locs: map<int, Loc>, p: Process) {
    p.Live? ==>
      && Overlaid(p.code, p.image, Armed(locs, p.image))
      && forall a :: a in locs && locs[a].patched ==> locs[a].saved == ByteAt(p.image, a)
  }

  ghost predicate Wf(s: State) {
    Listed(s) && Linked(s) && AllJustified(s) && Overlay(s.locs, s.proc)
  }

  /** The location map exists exactly while there is a process. */
  ghost predicate Lifecycle(s: State) {
    && (s.active <==> s.hasTable)
    && (s.active <==> s.proc.Live?)
    && (!s.hasTable ==> s.locs == map[])
    && (!s.active ==> s.base == 0)
  }

  ghost predicate Attached(s: State) {
    s.active ==> forall id :: id in s.bps ==> s.bps[id].location.Some?
  }

  /** The invariant, temporary locations included. */
  ghost predicate Running(s: State) {
    Wf(s) && Lifecycle(s) && Attached(s)
  }

  ghost predicate NoTemps(s: State) {
    forall a :: a in s.locs ==> !s.locs[a].isTemp
  }

  /** The invariant at command boundaries. */
  ghost predicate Inv(s: State) {
    Running(s) && NoTemps(s)
  }

  // ----- patches

  lemma ArmedAfterUpdate(locs: map<int, Loc>, image: Mem, a: int, l: Loc)
    ensures l.patched && Readable(image.Keys, a) ==> Armed(locs[a := l], image) == Armed(locs, image) + {a}
    ensures !(l.patched && Readable(image.Keys, a)) ==> Armed(locs[a := l], image) == Armed(locs, image) - {a}
  {
  }

  lemma EnableLocKeepsOverlay(s: State, a: int)
    requires Overlay(s.locs, s.proc)
    ensures Overlay(EnableLoc(s, a).locs, EnableLoc(s, a).proc)
  {
  }

  lemma DisableLocKeepsOverlay(s: State, a: int)
    requires Overlay(s.locs, s.proc)
    ensures Overlay(DisableLoc(s, a).locs, DisableLoc(s, a).proc)
  {
  }

  // ----- links

  /** Same locations with the same rings; patches may differ. */
  ghost predicate SameRings(locs: map<int, Loc>, locs': map<int, Loc>) {
    && locs.Keys == locs'.Keys
    && forall a :: a in locs ==> locs'[a].ring == locs[a].ring && locs'[a].isTemp == locs[a].isTemp
  }

  /** Same breakpoints at the same places; enable flags may differ. */
  ghost predicate SamePlaces(bps: map<nat, Bp>, bps': map<nat, Bp>) {
    && bps.Keys == bps'.Keys
    && forall id :: id in bps ==> bps'[id].instrAddr == bps[id].instrAddr && bps'[id].location == bps[id].location
  }

  ghost predicate SameShape(s: State, r: State) {
    && SameRings(s.locs, r.locs) && SamePlaces(s.bps, r.bps)
    && r == s.(locs := r.locs, bps := r.bps, proc := r.proc)
  }

  lemma LinksOfSameShape(s: State, r: State)
    requires Listed(s) && Linked(s) && SameShape(s, r)
    ensures Listed(r) && Linked(r)
  {
    forall id | id in r.bps && r.bps[id].location.Some?
      ensures PointsHome(r, id)
    {
      assert PointsHome(s, id);
    }
  }

  ghost predicate SameProcess(p: Process, p': Process) {
    if p.Live? then p'.Live? && p'.cpu == p.cpu && p'.image == p.image else p' == p
  }

  lemma EnableLocShape(s: State, a: int)
    ensures SameShape(s, EnableLoc(s, a)) && EnableLoc(s, a).bps == s.bps
    ensures SameProcess(s.proc, EnableLoc(s, a).proc)
    ensures forall x :: x in s.locs && x != a ==> EnableLoc(s, a).locs[x] == s.locs[x]
  {
  }

  lemma DisableLocShape(s: State, a: int)
    ensures SameShape(s, DisableLoc(s, a)) && DisableLoc(s, a).bps == s.bps
    ensures SameProcess(s.proc, DisableLoc(s, a).proc)
    ensures forall x :: x in s.locs && x != a ==> DisableLoc(s, a).locs[x] == s.locs[x]
  {
  }

  lemma EnableLocKeepsWf(s: State, a: int)
    requires Listed(s) && Linked(s) && Overlay(s.locs, s.proc)
    requires forall x :: x in s.locs ==>
      x != 0 && (Justified(s.locs[x]) || (x == a && s.locs[x].isTemp && s.locs[x].ring == []))
    requires a in s.locs && !s.locs[a].isTemp ==> s.locs[a].ring != []
    ensures Wf(EnableLoc(s, a))
  {
    EnableLocShape(s, a);
    LinksOfSameShape(s, EnableLoc(s, a));
    EnableLocKeepsOverlay(s, a);
  }

  lemma DisableLocKeepsWf(s: State, a: int)
    requires Listed(s) && Linked(s) && Overlay(s.locs, s.proc)
    requires forall x :: x in s.locs ==> x != 0 && (x != a ==> Justified(s.locs[x]))
    requires a in s.locs ==> !s.locs[a].isTemp
    ensures Wf(DisableLoc(s, a))
  {
    DisableLocShape(s, a);
    LinksOfSameShape(s, DisableLoc(s, a));
    DisableLocKeepsOverlay(s, a);
  }

  // ----- single breakpoints

  lemma EnableBpKeepsWf(s: State, id: nat)
    requires Wf(s)
    ensures Wf(EnableBp(s, id)) && SameShape(s, EnableBp(s, id))
  {
    if id in s.bps {
      var s1 := FlagSet(s, id, true);
      LinksOfSameShape(s, s1);
      if s.bps[id].location.Some? {
        assert PointsHome(s, id);
        var a := s.bps[id].location.value;
        EnableLocShape(s1, a);
        EnableLocKeepsWf(s1, a);
      }
    }
  }

  lemma DisableBpKeepsWf(s: State, id: nat)
    requires Wf(s)
    ensures Wf(DisableBp(s, id)) && SameShape(s, DisableBp(s, id))
  {
    if id in s.bps {
      var s1 := FlagSet(s, id, false);
      LinksOfSameShape(s, s1);
      if s.bps[id].location.Some? {
        assert PointsHome(s, id);
        var a := s.bps[id].location.value;
        DisableLocShape(s1, a);
        DisableLocKeepsWf(s1, a);
      }
    }
  }

  // ----- removal

  /** The part of the invariant that does not mention the pending ring. */
  ghost predicate Core(s: State) {
    Linked(s) && AllJustified(s) && Overlay(s.locs, s.proc)
  }

  lemma DroppingUnpatched(locs: map<int, Loc>, p: Process, a: int)
    requires Overlay(locs, p) && a in locs && !locs[a].patched
    ensures Overlay(locs - {a}, p)
  {
  }

  lemma RingIsWhoPointsHere(s: State, a: int, id: nat)
    requires Linked(s) && id in s.bps
    ensures a in s.locs ==> (id in s.locs[a].ring <==> s.bps[id].location == Some(a))
    ensures a !in s.locs ==> s.bps[id].location != Some(a)
  {
  }

  function DetachedFrom(bps: map<nat, Bp>, a: int): map<nat, Bp> {
    map id | id in bps :: if bps[id].location == Some(a) then bps[id].(location := None) else bps[id]
  }

  lemma FreeLocShape(s: State, a: int)
    requires Linked(s)
    ensures var r := FreeLoc(s, a);
      && r == s.(locs := s.locs - {a}, bps := DetachedFrom(s.bps, a), proc := r.proc)
      && SameProcess(s.proc, r.proc)
  {
    forall id | id in s.bps {
      RingIsWhoPointsHere(s, a, id);
    }
    if a in s.locs {
      var s1 := Detached(s, s.locs[a].ring);
      assert s1.bps == DetachedFrom(s.bps, a);
      DisableLocShape(s1, a);
      assert DisableLoc(s1, a).locs - {a} == s.locs - {a};
    } else {
      assert s.locs - {a} == s.locs && DetachedFrom(s.bps, a) == s.bps;
    }
  }

  lemma FreeLocOverlay(s: State, a: int)
    requires Overlay(s.locs, s.proc)
    ensures Overlay(FreeLoc(s, a).locs, FreeLoc(s, a).proc)
  {
    if a in s.locs {
      var s1 := Detached(s, s.locs[a].ring);
      DisableLocKeepsOverlay(s1, a);
      DroppingUnpatched(DisableLoc(s1, a).locs, DisableLoc(s1, a).proc, a);
    }
  }

  lemma FreeLocKeepsLinks(s: State, a: int)
    requires Linked(s)
    ensures Linked(FreeLoc(s, a))
  {
    var r := FreeLoc(s, a);
    FreeLocShape(s, a);
    forall id | id in r.bps && r.bps[id].location.Some?
      ensures PointsHome(r, id)
    {
      assert PointsHome(s, id);
    }
  }

  lemma FreeLocKeepsCore(s: State, a: int)
    requires Core(s)
    ensures Core(FreeLoc(s, a))
  {
    FreeLocShape(s, a);
    FreeLocOverlay(s, a);
    FreeLocKeepsLinks(s, a);
  }

  ghost predicate NoTempHome(s: State, id: nat) {
    forall a :: id in s.bps && s.bps[id].location == Some(a) && a in s.locs ==> !s.locs[a].isTemp
  }

  /** What is left once a breakpoint is unlinked from its location and forgotten. */
  ghost predicate Forgotten(s: State, r: State, id: nat) {
    && r == s.(locs := r.locs, proc := r.proc, bps := s.bps - {id})
    && r.locs.Keys == s.locs.Keys && SameProcess(s.proc, r.proc)
    && forall a :: a in s.locs ==> r.locs[a].ring == Without(s.locs[a].ring, id) && r.locs[a].isTemp == s.locs[a].isTemp
  }

  lemma ForgottenPointers(s: State, r: State, id: nat, x: nat)
    requires Linked(s) && Forgotten(s, r, id) && x in r.bps && r.bps[x].location.Some?
    ensures PointsHome(r, x)
  {
  }

  lemma ForgottenMembers(s: State, r: State, id: nat, a: int)
    requires Linked(s) && Forgotten(s, r, id) && a in r.locs
    ensures Distinct(r.locs[a].ring)
    ensures forall x :: x in r.locs[a].ring ==> x in r.bps && r.bps[x].location == Some(a)
  {
    WithoutKeepsDistinct(s.locs[a].ring, id);
  }

  lemma ForgottenIsLinked(s: State, r: State, id: nat)
    requires Linked(s) && Forgotten(s, r, id)
    ensures Linked(r)
  {
    forall a | a in r.locs {
      ForgottenMembers(s, r, id, a);
    }
    forall x | x in r.bps && r.bps[x].location.Some? {
      ForgottenPointers(s, r, id, x);
    }
  }

  lemma UnlinkShape(s: State, id: nat, a: int)
    ensures var r := Unlink(s, id, a);
      && r == s.(locs := r.locs, proc := r.proc)
      && r.locs.Keys == s.locs.Keys && SameProcess(s.proc, r.proc)
      && (forall x :: x in s.locs && x != a ==> r.locs[x] == s.locs[x])
      && (a in s.locs ==> r.locs[a].ring == Without(s.locs[a].ring, id) && r.locs[a].isTemp == s.locs[a].isTemp)
      && (a in s.locs && Without(s.locs[a].ring, id) == [] ==> !r.locs[a].patched)
  {
  }

  lemma FreeBpForgets(s: State, id: nat)
    requires Linked(s)
    ensures Forgotten(s, FreeBp(s, id), id)
    ensures id in s.bps && s.bps[id].location.None? ==> FreeBp(s, id) == s.(bps := s.bps - {id})
  {
    if id !in s.bps {
      assert s.bps - {id} == s.bps;
    } else if s.bps[id].location.Some? {
      UnlinkShape(s, id, s.bps[id].location.value);
    }
    assert forall a :: a in s.locs && id in s.locs[a].ring ==> id in s.bps && s.bps[id].location == Some(a);
  }

  lemma RingsDoNotArm(locs: map<int, Loc>, p: Process, a: int, ring: seq<nat>)
    requires Overlay(locs, p) && a in locs
    ensures Overlay(locs[a := locs[a].(ring := ring)], p)
  {
  }

  lemma UnlinkOverlay(s: State, id: nat, a: int)
    requires Overlay(s.locs, s.proc)
    ensures Overlay(Unlink(s, id, a).locs, Unlink(s, id, a).proc)
  {
    if a in s.locs {
      var ring := Without(s.locs[a].ring, id);
      RingsDoNotArm(s.locs, s.proc, a, ring);
      DisableLocKeepsOverlay(s.(locs := s.locs[a := s.locs[a].(ring := ring)]), a);
    }
  }

  lemma FreeBpKeepsCore(s: State, id: nat)
    requires Core(s) && NoTempHome(s, id)
    ensures Core(FreeBp(s, id))
  {
    FreeBpForgets(s, id);
    ForgottenIsLinked(s, FreeBp(s, id), id);
    if id in s.bps && s.bps[id].location.Some? {
      var a := s.bps[id].location.value;
      UnlinkOverlay(s, id, a);
      UnlinkShape(s, id, a);
    }
  }

  lemma RemoveKeepsWf(s: State, id: nat)
    requires Wf(s) && NoTemps(s)
    ensures Wf(Remove(s, id)) && NoTemps(Remove(s, id))
    ensures id in s.bps ==> Forgotten(s.(pending := Without(s.pending, id)), Remove(s, id), id)
  {
    if id in s.bps {
      var s0 := s.(pending := Without(s.pending, id));
      PendingDoesNotLink(s, s0);
      WithoutKeepsDistinct(s.pending, id);
      FreeBpForgets(s0, id);
      FreeBpKeepsCore(s0, id);
    }
  }

  lemma PendingDoesNotLink(s: State, r: State)
    requires Linked(s) && r == s.(pending := r.pending)
    ensures Linked(r)
  {
  }

  // ----- attaching

  lemma LinkupShape(s: State, id: nat, a: int)
    requires Linked(s) && id in s.bps && s.bps[id].location.None?
    ensures var ring := if a in s.locs then s.locs[a].ring else [];
      id !in ring && Distinct(ring + [id]) && Linkup(s, id, a).locs[a].ring == ring + [id]
  {
  }

  lemma LinkupPointers(s: State, id: nat, a: int, x: nat)
    requires Linked(s) && id in s.bps && s.bps[id].location.None? && a == RunningAddr(s, id)
    requires x in s.bps && Linkup(s, id, a).bps[x].location.Some?
    ensures PointsHome(Linkup(s, id, a), x)
  {
  }

  lemma LinkupMembers(s: State, id: nat, a: int, b: int, x: nat)
    requires Linked(s) && id in s.bps && s.bps[id].location.None?
    requires b in Linkup(s, id, a).locs && x in Linkup(s, id, a).locs[b].ring
    ensures x in s.bps && Linkup(s, id, a).bps[x].location == Some(b)
  {
  }

  lemma LinkupKeepsLinks(s: State, id: nat)
    requires Listed(s) && Linked(s) && id in s.bps && s.bps[id].location.None?
    ensures var r := Linkup(s, id, RunningAddr(s, id)); Listed(r) && Linked(r)
  {
    var a := RunningAddr(s, id);
    LinkupShape(s, id, a);
    forall x | x in s.bps && Linkup(s, id, a).bps[x].location.Some? {
      LinkupPointers(s, id, a, x);
    }
    forall b, x | b in Linkup(s, id, a).locs && x in Linkup(s, id, a).locs[b].ring {
      LinkupMembers(s, id, a, b, x);
    }
  }

  lemma LinkupOverlay(s: State, id: nat, a: int)
    requires Overlay(s.locs, s.proc) && id in s.bps
    ensures Overlay(Linkup(s, id, a).locs, s.proc)
  {
  }

  /** Attaching one breakpoint: its location follows its flag, all others are left alone. */
  ghost predicate AttachedTo(s: State, r: State, id: nat, a: int)
    requires id in s.bps
  {
    && r == s.(locs := r.locs, proc := r.proc, bps := s.bps[id := s.bps[id].(location := Some(a))])
    && SameProcess(s.proc, r.proc)
    && r.locs.Keys == s.locs.Keys + {a}
    && (forall x :: x in s.locs && x != a ==> r.locs[x] == s.locs[x])
    && r.locs[a].ring == (if a in s.locs then s.locs[a].ring else []) + [id]
    && r.locs[a].isTemp == (a in s.locs && s.locs[a].isTemp)
    && r.locs[a].patched == s.bps[id].enable
  }

  lemma AttachShape(s: State, id: nat)
    requires Listed(s) && Linked(s) && id in s.bps && s.bps[id].location.None?
    ensures AttachedTo(s, Attach(s, id), id, RunningAddr(s, id))
  {
    var a := RunningAddr(s, id);
    LinkupShape(s, id, a);
    EnableLocShape(Linkup(s, id, a), a);
    DisableLocShape(Linkup(s, id, a), a);
  }

  lemma AttachKeepsWf(s: State, id: nat)
    requires Wf(s) && id in s.bps && s.bps[id].location.None?
    requires RunningAddr(s, id) != 0 && (RunningAddr(s, id) in s.locs ==> !s.locs[RunningAddr(s, id)].isTemp)
    ensures Wf(Attach(s, id))
  {
    var a := RunningAddr(s, id);
    LinkupKeepsLinks(s, id);
    LinkupOverlay(s, id, a);
    LinkupShape(s, id, a);
    var s1 := Linkup(s, id, a);
    EnableLocKeepsWf(s1, a);
    DisableLocKeepsWf(s1, a);
  }

  lemma RegisteredKeepsWf(s: State, instrAddr: Addr)
    requires Wf(s)
    ensures Wf(Registered(s, instrAddr))
  {
    var r := Registered(s, instrAddr);
    DistinctSnoc(s.pending, s.nextId);
    forall id | id in r.bps && r.bps[id].location.Some?
      ensures PointsHome(r, id)
    {
      assert PointsHome(s, id);
    }
  }

  // ----- life of a process

  lemma CleanupKeepsInv(s: State)
    requires Listed(s)
    ensures Inv(Cleanup(s))
  {
  }

  /** Only the processor state of the process changes. */
  lemma CpuKeepsRunning(s: State, cpu: Cpu)
    requires Running(s) && s.proc.Live?
    ensures Running(s.(proc := s.proc.(cpu := cpu)))
  {
    var r := s.(proc := s.proc.(cpu := cpu));
    forall id | id in r.bps && r.bps[id].location.Some?
      ensures PointsHome(r, id)
    {
      assert PointsHome(s, id);
    }
  }

  lemma SetTempKeepsRunning(s: State, a: int)
    requires Running(s) && s.active && a != 0
    ensures Running(SetTemp(s, a))
  {
    if a !in s.locs {
      var s1 := s.(locs := s.locs[a := Loc(true, false, 0, [])]);
      forall id | id in s1.bps && s1.bps[id].location.Some?
        ensures PointsHome(s1, id)
      {
        assert PointsHome(s, id);
      }
      assert Armed(s1.locs, s.proc.image) == Armed(s.locs, s.proc.image);
      EnableLocKeepsWf(s1, a);
      EnableLocShape(s1, a);
    }
  }
}
