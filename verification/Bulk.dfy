/** The commands that walk the whole pending ring: enable all, disable all,
    delete all. */
module Bulk {
  import opened Machine
  import opened Sequences
  import opened Model
  import opened Invariants

  // ----- one flag after another

  ghost predicate Within(ring: seq<nat>, ids: seq<nat>) {
    ring != [] && forall i :: 0 <= i < |ring| ==> ring[i] in ids
  }

  lemma WithinNothing(ring: seq<nat>)
    ensures !Within(ring, [])
  {
    assert ring == [] || ring[0] !in [];
  }

  lemma WithinFront(ring: seq<nat>, front: seq<nat>, id: nat)
    requires Within(ring, front + [id]) && id !in ring
    ensures Within(ring, front)
  {
  }

  /** All breakpoints of a ring have the flag. */
  ghost predicate Unanimous(s: State, ring: seq<nat>, flag: bool) {
    forall i :: 0 <= i < |ring| ==> Enabled(s, ring[i]) == flag
  }

  /** The flag of one breakpoint is set, and its location follows it if that makes the ring unanimous. */
  ghost predicate Switched(s: State, r: State, id: nat, flag: bool) {
    && SameShape(s, r) && SameProcess(s.proc, r.proc)
    && id in s.bps && r.bps == s.bps[id := s.bps[id].(enable := flag)]
    && forall a :: a in s.locs ==> FollowsSwitch(r, s.locs[a], r.locs[a], id, flag)
  }

  ghost predicate FollowsSwitch(r: State, l: Loc, l': Loc, id: nat, flag: bool) {
    l'.patched == if id in l.ring && Unanimous(r, l.ring, flag) then flag else l.patched
  }

  /** Walking `ids` has given them the flag, has brought no location away from it, and has brought the
      rings it has gone through to it. */
  ghost predicate SwitchedAlong(s: State, r: State, ids: seq<nat>, flag: bool) {
    && SameShape(s, r) && SameProcess(s.proc, r.proc) && FlagsAlong(s, r, ids, flag)
    && forall a :: a in s.locs ==> BroughtAlong(s.locs[a], r.locs[a], ids, flag)
  }

  ghost predicate FlagsAlong(s: State, r: State, ids: seq<nat>, flag: bool) {
    && r.bps.Keys == s.bps.Keys
    && forall id :: id in s.bps ==> r.bps[id].enable == if id in ids then flag else s.bps[id].enable
  }

  ghost predicate BroughtAlong(l: Loc, l': Loc, ids: seq<nat>, flag: bool) {
    l.patched == flag || Within(l.ring, ids) ==> l'.patched == flag
  }

  /** A ring that has been gone through is unanimous. */
  lemma RingIsUnanimous(s: State, r: State, ids: seq<nat>, ring: seq<nat>, flag: bool)
    requires FlagsAlong(s, r, ids, flag) && Within(ring, ids)
    requires forall i :: 0 <= i < |ring| ==> ring[i] in s.bps
    ensures Unanimous(r, ring, flag)
  {
  }

  lemma LocationOneMore(s: State, r: State, front: seq<nat>, id: nat, flag: bool, l: Loc, m: Loc, l': Loc)
    requires BroughtAlong(l, m, front, flag) && m.ring == l.ring && FollowsSwitch(r, m, l', id, flag)
    requires FlagsAlong(s, r, front + [id], flag) && forall i :: 0 <= i < |l.ring| ==> l.ring[i] in s.bps
    ensures BroughtAlong(l, l', front + [id], flag)
  {
    if Within(l.ring, front + [id]) {
      RingIsUnanimous(s, r, front + [id], l.ring, flag);
      if id !in l.ring {
        WithinFront(l.ring, front, id);
      }
    }
  }

  lemma FlagsOneMore(s: State, m: State, r: State, front: seq<nat>, id: nat, flag: bool)
    requires FlagsAlong(s, m, front, flag) && id in m.bps && r.bps == m.bps[id := m.bps[id].(enable := flag)]
    ensures FlagsAlong(s, r, front + [id], flag)
  {
  }

  lemma SwitchOneMore(s: State, m: State, r: State, front: seq<nat>, id: nat, flag: bool)
    requires Linked(m) && SwitchedAlong(s, m, front, flag) && Switched(m, r, id, flag)
    ensures SwitchedAlong(s, r, front + [id], flag)
  {
    FlagsOneMore(s, m, r, front, id, flag);
    forall a | a in s.locs
      ensures BroughtAlong(s.locs[a], r.locs[a], front + [id], flag)
    {
      assert forall i :: 0 <= i < |m.locs[a].ring| ==> m.locs[a].ring[i] in m.locs[a].ring;
      LocationOneMore(s, r, front, id, flag, s.locs[a], m.locs[a], r.locs[a]);
    }
  }

  lemma NothingSwitched(s: State, flag: bool)
    ensures SwitchedAlong(s, s, [], flag)
  {
    forall a | a in s.locs {
      WithinNothing(s.locs[a].ring);
    }
  }

  // ----- enable all

  lemma EnableBpEffect(s: State, id: nat)
    requires Wf(s) && id in s.bps
    ensures var r := EnableBp(s, id);
      && SameShape(s, r) && SameProcess(s.proc, r.proc)
      && r.bps == s.bps[id := s.bps[id].(enable := true)]
      && forall a :: a in s.locs ==>
        (r.locs[a].patched <==> s.locs[a].patched || (id in s.locs[a].ring && AllEnabled(r, s.locs[a].ring)))
  {
    EnableBpKeepsWf(s, id);
    forall a | a in s.locs {
      RingIsWhoPointsHere(s, a, id);
    }
    if s.bps[id].location.Some? {
      EnableLocShape(FlagSet(s, id, true), s.bps[id].location.value);
    }
  }

  lemma EnableSwitches(s: State, id: nat)
    requires Wf(s) && id in s.bps
    ensures Wf(EnableBp(s, id)) && Switched(s, EnableBp(s, id), id, true)
  {
    EnableBpKeepsWf(s, id);
    EnableBpEffect(s, id);
    forall a | a in s.locs
      ensures Unanimous(EnableBp(s, id), s.locs[a].ring, true) == AllEnabled(EnableBp(s, id), s.locs[a].ring)
    {
    }
  }

  lemma {:induction false} EnableEachAlong(s: State, ids: seq<nat>)
    requires Wf(s) && forall id :: id in ids ==> id in s.bps
    ensures Wf(EnableEach(s, ids)) && SwitchedAlong(s, EnableEach(s, ids), ids, true)
  {
    if ids == [] {
      NothingSwitched(s, true);
    } else {
      var front, id := Front(ids), Last(ids);
      assert ids == front + [id];
      EnableEachAlong(s, front);
      EnableSwitches(EnableEach(s, front), id);
      SwitchOneMore(s, EnableEach(s, front), EnableEach(s, ids), front, id, true);
    }
  }

  lemma InvOfSameShape(s: State, r: State)
    requires Inv(s) && Wf(r) && SameShape(s, r) && SameProcess(s.proc, r.proc)
    ensures Inv(r)
  {
  }

  lemma RingsAreListed(s: State, a: int)
    requires Wf(s) && a in s.locs && s.locs[a].ring != []
    ensures Within(s.locs[a].ring, s.pending)
  {
  }

  /** Enabling all breakpoints patches exactly the locations that have one, whatever the history. */
  lemma EnableAllErasesHistory(s: State)
    requires Inv(s)
    ensures var r := EnableEach(s, s.pending);
      && Inv(r) && SameShape(s, r)
      && (forall id :: id in r.bps ==> r.bps[id].enable)
      && forall a :: a in r.locs ==> (r.locs[a].patched <==> r.locs[a].ring != [])
  {
    EnableEachAlong(s, s.pending);
    InvOfSameShape(s, EnableEach(s, s.pending));
    forall a | a in s.locs && s.locs[a].ring != []
      ensures Within(s.locs[a].ring, s.pending)
    {
      RingsAreListed(s, a);
    }
  }

  // ----- disable all

  lemma DisableBpEffect(s: State, id: nat)
    requires Wf(s) && id in s.bps
    ensures var r := DisableBp(s, id);
      && SameShape(s, r) && SameProcess(s.proc, r.proc)
      && r.bps == s.bps[id := s.bps[id].(enable := false)]
      && forall a :: a in s.locs ==>
        (r.locs[a].patched <==> s.locs[a].patched && !(id in s.locs[a].ring && NoneEnabled(r, s.locs[a].ring)))
  {
    DisableBpKeepsWf(s, id);
    forall a | a in s.locs {
      RingIsWhoPointsHere(s, a, id);
    }
    if s.bps[id].location.Some? {
      DisableLocShape(FlagSet(s, id, false), s.bps[id].location.value);
    }
  }

  lemma DisableSwitches(s: State, id: nat)
    requires Wf(s) && id in s.bps
    ensures Wf(DisableBp(s, id)) && Switched(s, DisableBp(s, id), id, false)
  {
    DisableBpKeepsWf(s, id);
    DisableBpEffect(s, id);
    forall a | a in s.locs
      ensures Unanimous(DisableBp(s, id), s.locs[a].ring, false) == NoneEnabled(DisableBp(s, id), s.locs[a].ring)
    {
    }
  }

  lemma {:induction false} DisableEachAlong(s: State, ids: seq<nat>)
    requires Wf(s) && forall id :: id in ids ==> id in s.bps
    ensures Wf(DisableEach(s, ids)) && SwitchedAlong(s, DisableEach(s, ids), ids, false)
  {
    if ids == [] {
      NothingSwitched(s, false);
    } else {
      var front, id := Front(ids), Last(ids);
      assert ids == front + [id];
      DisableEachAlong(s, front);
      DisableSwitches(DisableEach(s, front), id);
      SwitchOneMore(s, DisableEach(s, front), DisableEach(s, ids), front, id, false);
    }
  }

  ghost predicate Pristine(s: State) {
    && (forall a :: a in s.locs ==> !s.locs[a].patched)
    && (s.proc.Live? ==> s.proc.code == s.proc.image)
  }

  lemma NothingPatchedNothingChanged(s: State)
    requires Overlay(s.locs, s.proc) && forall a :: a in s.locs ==> !s.locs[a].patched
    ensures Pristine(s)
  {
    if s.proc.Live? {
      assert Armed(s.locs, s.proc.image) == {};
      assert forall x :: x in s.proc.image ==> s.proc.code[x] == s.proc.image[x];
    }
  }

  /** Disabling all breakpoints gives the process its original code back, whatever the history. */
  lemma DisableAllErasesHistory(s: State)
    requires Inv(s)
    ensures var r := DisableEach(s, s.pending);
      && Inv(r) && SameShape(s, r) && Pristine(r)
      && forall id :: id in r.bps ==> !r.bps[id].enable
  {
    var r := DisableEach(s, s.pending);
    DisableEachAlong(s, s.pending);
    InvOfSameShape(s, r);
    forall a | a in s.locs
      ensures !r.locs[a].patched
    {
      if s.locs[a].ring != [] {
        RingsAreListed(s, a);
      }
    }
    NothingPatchedNothingChanged(r);
  }

  // ----- delete all

  function AddrsOf(s: State, ids: seq<nat>): set<int> {
    set id | id in ids :: RunningAddr(s, id)
  }

  function Bereft(s: State, ids: seq<nat>): map<nat, Bp> {
    map id | id in s.bps && id !in ids ::
      if s.bps[id].location.Some? && s.bps[id].location.value in AddrsOf(s, ids)
      then s.bps[id].(location := None) else s.bps[id]
  }

  /** Deleting along `ids` leaves the others, less the locations that went with the deleted ones. */
  ghost predicate DeletedAlong(s: State, r: State, ids: seq<nat>) {
    && r == s.(bps := Bereft(s, ids), pending := r.pending, locs := s.locs - AddrsOf(s, ids), proc := r.proc)
    && SameProcess(s.proc, r.proc)
    && Distinct(r.pending)
    && forall id :: id in r.pending <==> id in s.pending && id !in ids
  }

  lemma {:induction false} DeleteEachAlong(s: State, ids: seq<nat>)
    requires Wf(s) && Distinct(ids) && forall id :: id in ids ==> id in s.bps
    ensures Core(DeleteEach(s, ids)) && DeletedAlong(s, DeleteEach(s, ids), ids)
  {
    if ids == [] {
      assert s.locs - AddrsOf(s, ids) == s.locs;
      assert Bereft(s, ids) == s.bps;
    } else {
      var front, id := Front(ids), Last(ids);
      assert ids == front + [id];
      DeleteEachAlong(s, front);
      DeleteOneMore(s, DeleteEach(s, front), front, id);
    }
  }

  lemma BereftOfOneMore(s: State, front: seq<nat>, id: nat)
    requires Linked(s) && id in s.bps
    ensures Bereft(s, front + [id]) == DetachedFrom(Bereft(s, front), RunningAddr(s, id)) - {id}
    ensures s.locs - AddrsOf(s, front + [id]) == (s.locs - AddrsOf(s, front)) - {RunningAddr(s, id)}
  {
    assert AddrsOf(s, front + [id]) == AddrsOf(s, front) + {RunningAddr(s, id)};
  }

  lemma DeleteOneMore(s: State, m: State, front: seq<nat>, id: nat)
    requires Wf(s) && Core(m) && DeletedAlong(s, m, front)
    requires id in s.bps && id !in front
    ensures Core(DeleteOne(m, id)) && DeletedAlong(s, DeleteOne(m, id), front + [id])
  {
    var a := RunningAddr(s, id);
    assert a == RunningAddr(m, id);
    var m1 := m.(pending := Without(m.pending, id));
    PendingDoesNotLink(m, m1);
    WithoutKeepsDistinct(m.pending, id);
    var m2 := FreeLoc(m1, a);
    FreeLocShape(m1, a);
    FreeLocKeepsCore(m1, a);
    assert m2.bps[id].location.None? by {
      if m.bps[id].location.Some? {
        assert PointsHome(m, id);
      }
    }
    FreeBpForgets(m2, id);
    FreeBpKeepsCore(m2, id);
    BereftOfOneMore(s, front, id);
  }

  lemma OccupiedAddresses(s: State, a: int)
    requires Inv(s) && a in s.locs
    ensures a in AddrsOf(s, s.pending) <==> s.locs[a].ring != []
  {
    if s.locs[a].ring != [] {
      var id := s.locs[a].ring[0];
      assert id in s.locs[a].ring && PointsHome(s, id);
      assert RunningAddr(s, id) in AddrsOf(s, s.pending);
    }
    if a in AddrsOf(s, s.pending) {
      var id :| id in s.pending && RunningAddr(s, id) == a;
      assert PointsHome(s, id);
    }
  }

  lemma DeleteAllShape(s: State)
    requires Inv(s)
    ensures var r := DeleteEach(s, s.pending);
      && Core(r) && SameProcess(s.proc, r.proc)
      && r == s.(bps := map[], pending := [], locs := r.locs, proc := r.proc)
      && r.locs == map a | a in s.locs && s.locs[a].ring == [] :: s.locs[a]
  {
    var r := DeleteEach(s, s.pending);
    assert r.pending == [] || r.pending[0] in r.pending;
    DeleteEachAlong(s, s.pending);
    assert r.bps == map[];
    forall a | a in s.locs {
      OccupiedAddresses(s, a);
    }
  }

  /** Deleting all breakpoints forgets every one, frees every location that has one, keeps the
      empty ones, and gives the process its original code back. */
  lemma DeleteAllIsComplete(s: State)
    requires Inv(s)
    ensures var r := DeleteEach(s, s.pending);
      && Inv(r) && Pristine(r)
      && r == s.(bps := map[], pending := [], locs := r.locs, proc := r.proc) && SameProcess(s.proc, r.proc)
      && r.locs == map a | a in s.locs && s.locs[a].ring == [] :: s.locs[a]
  {
    DeleteAllShape(s);
    NothingPatchedNothingChanged(DeleteEach(s, s.pending));
  }
}
