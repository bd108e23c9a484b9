/** Resolving the pending breakpoints against a fresh process groups them by running address. */
module Resolution {
  import opened Machine
  import opened Sequences
  import opened Model
  import opened Invariants
  import opened Bulk

  /** The breakpoints of `ids` that belong at address `a`, in their order. */
  function Group(s: State, ids: seq<nat>, a: int): (g: seq<nat>)
    ensures forall id :: id in g <==> id in ids && RunningAddr(s, id) == a
  {
    if ids == [] then []
    else
      var front, id := Front(ids), Last(ids);
      assert ids == front + [id];
      if RunningAddr(s, id) == a then Group(s, front, a) + [id] else Group(s, front, a)
  }

  /** A location holds exactly the group of its address and follows the last breakpoint of it. */
  ghost predicate HoldsGroup(s: State, ids: seq<nat>, a: int, l: Loc) {
    var g := Group(s, ids, a);
    g != [] && l.ring == g && !l.isTemp && l.patched == Enabled(s, g[|g| - 1])
  }

  function PointedHome(s: State, ids: seq<nat>): map<nat, Bp> {
    map id | id in s.bps :: if id in ids then s.bps[id].(location := Some(RunningAddr(s, id))) else s.bps[id]
  }

  ghost predicate GroupedAlong(s: State, r: State, ids: seq<nat>) {
    && r == s.(bps := r.bps, locs := r.locs, proc := r.proc) && SameProcess(s.proc, r.proc)
    && r.bps == PointedHome(s, ids)
    && r.locs.Keys == AddrsOf(s, ids)
    && forall a :: a in r.locs ==> HoldsGroup(s, ids, a, r.locs[a])
  }

  ghost predicate Unresolved(s: State) {
    s.locs == map[] && forall id :: id in s.bps ==> s.bps[id].location.None?
  }

  lemma {:induction false} NobodyThere(s: State, ids: seq<nat>, a: int)
    requires a !in AddrsOf(s, ids)
    ensures Group(s, ids, a) == []
  {
    if ids != [] {
      var front, id := Front(ids), Last(ids);
      assert ids == front + [id];
      assert AddrsOf(s, ids) == AddrsOf(s, front) + {RunningAddr(s, id)};
      NobodyThere(s, front, a);
    }
  }

  lemma HoldsOneMore(s: State, front: seq<nat>, id: nat, b: int, l: Loc)
    requires if RunningAddr(s, id) == b
      then l.ring == Group(s, front, b) + [id] && !l.isTemp && l.patched == Enabled(s, id)
      else HoldsGroup(s, front, b, l)
    ensures HoldsGroup(s, front + [id], b, l)
  {
  }

  lemma GroupedLocs(s: State, m: State, front: seq<nat>, id: nat, r: State, b: int)
    requires id in s.bps && id in m.bps && m.bps[id].enable == s.bps[id].enable
    requires m.locs.Keys == AddrsOf(s, front)
    requires b in m.locs ==> HoldsGroup(s, front, b, m.locs[b])
    requires AttachedTo(m, r, id, RunningAddr(s, id)) && b in r.locs
    ensures HoldsGroup(s, front + [id], b, r.locs[b])
  {
    if b !in m.locs {
      NobodyThere(s, front, b);
    }
    HoldsOneMore(s, front, id, b, r.locs[b]);
  }

  lemma PointedOneMore(s: State, front: seq<nat>, id: nat)
    requires id in s.bps && id !in front
    ensures PointedHome(s, front + [id]) ==
      PointedHome(s, front)[id := s.bps[id].(location := Some(RunningAddr(s, id)))]
    ensures AddrsOf(s, front + [id]) == AddrsOf(s, front) + {RunningAddr(s, id)}
  {
  }

  lemma GroupedOneMore(s: State, m: State, front: seq<nat>, id: nat)
    requires Unresolved(s) && Wf(m) && GroupedAlong(s, m, front) && id in s.bps && id !in front
    requires RunningAddr(s, id) != 0
    ensures Wf(Attach(m, id)) && GroupedAlong(s, Attach(m, id), front + [id])
  {
    var a, r := RunningAddr(s, id), Attach(m, id);
    assert a == RunningAddr(m, id) && m.bps[id] == s.bps[id];
    AttachShape(m, id);
    assert a in m.locs ==> HoldsGroup(s, front, a, m.locs[a]);
    AttachKeepsWf(m, id);
    PointedOneMore(s, front, id);
    forall b | b in r.locs
      ensures HoldsGroup(s, front + [id], b, r.locs[b])
    {
      GroupedLocs(s, m, front, id, r, b);
    }
  }

  lemma {:induction false} AttachEachGroups(s: State, ids: seq<nat>)
    requires Unresolved(s) && Wf(s) && Distinct(ids)
    requires forall id :: id in ids ==> id in s.bps && RunningAddr(s, id) != 0
    ensures Wf(AttachEach(s, ids)) && GroupedAlong(s, AttachEach(s, ids), ids)
  {
    if ids == [] {
      assert s.bps == map id | id in s.bps :: s.bps[id];
    } else {
      var front, id := Front(ids), Last(ids);
      assert ids == front + [id];
      AttachEachGroups(s, front);
      GroupedOneMore(s, AttachEach(s, front), front, id);
    }
  }

  /** Resolution makes one location per running address of a pending breakpoint, each ring the
      sub-sequence of the pending ring that belongs there, patched iff the last of it is enabled. */
  lemma ResolveGroups(s: State, prog: Program)
    requires Inv(s) && !s.active && !ResolveAborts(Loaded(s, prog))
    ensures var s1 := Loaded(s, prog).(hasTable := true); var r := Resolve(Loaded(s, prog));
      Inv(r) && GroupedAlong(s1, r, s.pending)
  {
    var s1 := Loaded(s, prog).(hasTable := true, locs := map[]);
    forall id | id in s.bps
      ensures s.bps[id].location.None?
    {
      assert s.bps[id].location.Some? ==> PointsHome(s, id);
    }
    assert Armed(s1.locs, prog.image) == {};
    AttachEachGroups(s1, s.pending);
    assert Loaded(s, prog).(hasTable := true) == s1;
  }
}
