/** What each command on breakpoints and on the life of the process does, told of the states before and
    after it alone. */
module Commands {
  import opened Memory
  import opened Machine
  import opened Sequences
  import opened Model
  import opened Invariants
  import opened Bulk
  import opened Resolution
  import opened Rules
  import opened Transparency
  import opened Stepping
  import opened Sessions

  /** Where an instruction is once its program is loaded at `base`. */
  function Place(instrAddr: Addr, base: Addr): (a: Addr) {
    (instrAddr + base) % ADDRESS_SPACE
  }

  lemma RunningAddrIsPlace(s: State, id: nat)
    requires id in s.bps
    ensures RunningAddr(s, id) == Place(s.bps[id].instrAddr, s.base)
  {
    WrapIsModulo(s.bps[id].instrAddr + s.base);
  }

  /** The process is where it was, in the same life of the debugger. */
  ghost predicate Unmoved(s: State, r: State) {
    && r.active == s.active && r.base == s.base && r.hasTable == s.hasTable && r.nextId == s.nextId
    && r.proc.Live? == s.proc.Live?
    && (s.proc.Live? ==> r.proc.cpu == s.proc.cpu && r.proc.image == s.proc.image)
  }

  /** The eight bytes from `a` on are mapped in the image of the process. */
  ghost predicate Mapped(s: State, a: int)
    requires s.proc.Live?
  {
    forall x :: a <= x < a + 8 ==> x in s.proc.image
  }

  /** Between commands, the code of a process is its image with 0xCC at the patched locations. */
  lemma BytesArePatches(s: State, a: int)
    requires Inv(s) && s.proc.Live? && a in s.proc.image
    ensures a in s.proc.code
    ensures s.proc.code[a] == if a in s.locs && s.locs[a].patched && Mapped(s, a) then 0xCC else s.proc.image[a]
  {
  }

  // ----- the order of the rings

  ghost predicate Increasing(xs: seq<nat>) {
    forall i, j :: 0 <= i < j < |xs| ==> xs[i] < xs[j]
  }

  /** Every ring lists its breakpoints in the order in which they were set. */
  ghost predicate InOrder(s: State) {
    Increasing(s.pending) && forall a :: a in s.locs ==> Increasing(s.locs[a].ring)
  }

  lemma IncreasingSnoc(xs: seq<nat>, x: nat)
    requires Increasing(xs) && forall y :: y in xs ==> y < x
    ensures Increasing(xs + [x])
  {
    assert forall i :: 0 <= i < |xs| ==> xs[i] in xs;
  }

  lemma IncreasingFront(xs: seq<nat>)
    requires Increasing(xs) && xs != []
    ensures Increasing(Front(xs)) && forall y :: y in Front(xs) ==> y < Last(xs)
  {
    forall y | y in Front(xs)
      ensures y < Last(xs)
    {
      var i :| 0 <= i < |xs| - 1 && Front(xs)[i] == y;
      assert xs[i] == y;
    }
  }

  lemma {:induction false} WithoutIncreases(xs: seq<nat>, x: nat)
    requires Increasing(xs)
    ensures Increasing(Without(xs, x))
  {
    if xs != [] {
      IncreasingFront(xs);
      WithoutIncreases(Front(xs), x);
      if Last(xs) != x {
        IncreasingSnoc(Without(Front(xs), x), Last(xs));
      }
    }
  }

  lemma {:induction false} GroupIncreases(s: State, ids: seq<nat>, a: int)
    requires Increasing(ids)
    ensures Increasing(Group(s, ids, a))
  {
    if ids != [] {
      IncreasingFront(ids);
      GroupIncreases(s, Front(ids), a);
      if RunningAddr(s, Last(ids)) == a {
        IncreasingSnoc(Group(s, Front(ids), a), Last(ids));
      }
    }
  }

  lemma SomeMember(xs: seq<nat>)
    ensures xs == [] || exists x :: x in xs
  {
    assert xs == [] || xs[0] in xs;
  }

  /** Members and order make a ring. */
  lemma {:induction false} OrderDetermines(xs: seq<nat>, ys: seq<nat>)
    requires Increasing(xs) && Increasing(ys) && forall x :: x in xs <==> x in ys
    ensures xs == ys
  {
    if xs == [] {
      SomeMember(ys);
    } else {
      SomeMember(ys);
      assert Last(xs) in ys && Last(ys) in xs;
      IncreasingFront(xs);
      IncreasingFront(ys);
      assert xs == Front(xs) + [Last(xs)] && ys == Front(ys) + [Last(ys)];
      assert Last(xs) == Last(ys);
      assert forall x :: x in Front(xs) <==> x in xs && x != Last(xs);
      assert forall x :: x in Front(ys) <==> x in ys && x != Last(ys);
      OrderDetermines(Front(xs), Front(ys));
    }
  }

  // ----- break

  /** A new enabled breakpoint, last in every ring it is put in; while there is a process it is at its
      place there, which gets patched. */
  ghost predicate Added(s: State, r: State, instrAddr: Addr) {
    var id, a := s.nextId, Place(instrAddr, s.base);
    && Unmoved(s, r.(nextId := s.nextId)) && r.nextId == id + 1
    && r.pending == s.pending + [id]
    && r.bps == s.bps[id := Bp(instrAddr, true, if s.active then Some(a) else None)]
    && if s.active then AddedAt(s, r, id, a) else r.locs == s.locs
  }

  ghost predicate AddedAt(s: State, r: State, id: nat, a: int) {
    && r.locs.Keys == s.locs.Keys + {a}
    && (forall x :: x in s.locs && x != a ==> r.locs[x] == s.locs[x])
    && r.locs[a].ring == (if a in s.locs then s.locs[a].ring else []) + [id]
    && r.locs[a].patched && !r.locs[a].isTemp
  }

  lemma AttachedIsAdded(s: State, r: State, instrAddr: Addr)
    requires NoTemps(s) && s.active && AttachedTo(Registered(s, instrAddr), r, s.nextId, Place(instrAddr, s.base))
    ensures Added(s, r, instrAddr)
  {
  }

  lemma SetAdds(s: State, instrAddr: Addr)
    requires Inv(s)
    ensures Added(s, SetBp(s, instrAddr), instrAddr)
  {
    WrapIsModulo(instrAddr + s.base);
    SetShape(s, instrAddr);
    assert Wrap(instrAddr + s.base) == Place(instrAddr, s.base);
    hide Wf, Lifecycle, Attached, AttachedTo, Place, Wrap;
    if s.active {
      AttachedIsAdded(s, SetBp(s, instrAddr), instrAddr);
    }
  }

  /** `break` fails exactly for address 0 of a running process. */
  lemma BreakAdds(w: World, s: State, instrAddr: Addr)
    requires Inv(s)
    ensures match Exec(w, s, Break(instrAddr))
      case Ok(r) => Added(s, r, instrAddr) && !(s.active && Place(instrAddr, s.base) == 0)
      case Aborted => s.active && Place(instrAddr, s.base) == 0
      case other => false
  {
    WrapIsModulo(instrAddr + s.base);
    SetAdds(s, instrAddr);
  }

  // ----- delete

  /** The breakpoint is gone from the map and from every ring; a location left empty stays, unpatched. */
  ghost predicate Deleted(s: State, r: State, id: nat) {
    && Unmoved(s, r)
    && r.bps == s.bps - {id}
    && (forall x :: x in r.pending <==> x in s.pending && x != id)
    && r.locs.Keys == s.locs.Keys
    && forall a :: a in s.locs ==> LeftBy(s.locs[a], r.locs[a], id)
  }

  ghost predicate LeftBy(l: Loc, l': Loc, id: nat) {
    && !l'.isTemp
    && (forall x :: x in l'.ring <==> x in l.ring && x != id)
    && l'.patched == (l.patched && l'.ring != [])
  }

  lemma RemoveLeaves(s: State, id: nat, a: int)
    requires Inv(s) && id in s.bps && a in s.locs
    ensures a in Remove(s, id).locs && LeftBy(s.locs[a], Remove(s, id).locs[a], id)
  {
    RemoveKeepsWf(s, id);
    RingAfterRemove(s, id, a);
    RingIsWhoPointsHere(s, a, id);
  }

  /** `delete` with an id. */
  lemma DeleteDeletes(w: World, s: State, id: nat)
    requires Inv(s)
    ensures Exec(w, s, Delete(id)).Ok?
    ensures if id in s.bps then Deleted(s, Exec(w, s, Delete(id)).s, id) else Exec(w, s, Delete(id)).s == s
  {
    if id in s.bps {
      RemoveKeepsWf(s, id);
      forall a | a in s.locs {
        RemoveLeaves(s, id, a);
      }
    }
  }

  // ----- enable and disable

  ghost predicate HasFlag(s: State, id: nat, flag: bool) {
    id in s.bps && s.bps[id].enable == flag
  }

  /** One breakpoint has a new flag; its location follows if all that are there have it now. */
  ghost predicate Flagged(s: State, r: State, id: nat, flag: bool)
    requires id in s.bps
  {
    && Unmoved(s, r) && r.pending == s.pending
    && r.bps == s.bps[id := Bp(s.bps[id].instrAddr, flag, s.bps[id].location)]
    && r.locs.Keys == s.locs.Keys
    && forall a :: a in s.locs ==> FlaggedAt(r, s.locs[a], r.locs[a], id, flag)
  }

  ghost predicate FlaggedAt(r: State, l: Loc, l': Loc, id: nat, flag: bool) {
    && l'.ring == l.ring && l'.isTemp == l.isTemp
    && l'.patched == if id in l.ring && forall x :: x in l.ring ==> HasFlag(r, x, flag) then flag else l.patched
  }

  lemma EnableFlags(s: State, id: nat)
    requires Inv(s) && id in s.bps
    ensures Flagged(s, EnableBp(s, id), id, true)
  {
    EnableBpEffect(s, id);
  }

  lemma DisableFlags(s: State, id: nat)
    requires Inv(s) && id in s.bps
    ensures Flagged(s, DisableBp(s, id), id, false)
  {
    var r := DisableBp(s, id);
    DisableBpEffect(s, id);
    forall a | a in s.locs
      ensures NoneEnabled(r, s.locs[a].ring) <==> forall x :: x in s.locs[a].ring ==> HasFlag(r, x, false)
    {
      AllListed(s, r, a);
    }
    hide DisableBp, Inv, Linked, NoneEnabled;
  }

  lemma AllListed(s: State, r: State, a: int)
    requires Linked(s) && a in s.locs && r.bps.Keys == s.bps.Keys
    ensures NoneEnabled(r, s.locs[a].ring) <==> forall x :: x in s.locs[a].ring ==> HasFlag(r, x, false)
  {
  }

  /** `enable` with an id. */
  lemma EnableEnables(w: World, s: State, id: nat)
    requires Inv(s)
    ensures Exec(w, s, Enable(id)).Ok?
    ensures if id in s.bps then Flagged(s, Exec(w, s, Enable(id)).s, id, true) else Exec(w, s, Enable(id)).s == s
  {
    if id in s.bps {
      EnableFlags(s, id);
    }
  }

  /** `disable` with an id. */
  lemma DisableDisables(w: World, s: State, id: nat)
    requires Inv(s)
    ensures Exec(w, s, Disable(id)).Ok?
    ensures if id in s.bps then Flagged(s, Exec(w, s, Disable(id)).s, id, false) else Exec(w, s, Disable(id)).s == s
  {
    if id in s.bps {
      DisableFlags(s, id);
    }
  }

  /** Every breakpoint has the flag, and exactly the locations with a breakpoint follow it. */
  ghost predicate AllFlagged(s: State, r: State, flag: bool) {
    && Unmoved(s, r) && r.pending == s.pending
    && r.bps.Keys == s.bps.Keys && r.locs.Keys == s.locs.Keys
    && (forall id :: id in s.bps ==> r.bps[id] == Bp(s.bps[id].instrAddr, flag, s.bps[id].location))
    && forall a :: a in s.locs ==> r.locs[a].ring == s.locs[a].ring && !r.locs[a].isTemp
                                   && r.locs[a].patched == (flag && s.locs[a].ring != [])
  }

  /** `enable` without arguments. */
  lemma EnableAllEnables(w: World, s: State)
    requires Inv(s)
    ensures Exec(w, s, EnableAll).Ok? && AllFlagged(s, Exec(w, s, EnableAll).s, true)
  {
    EnableAllErasesHistory(s);
    EnableEachAlong(s, s.pending);
  }

  /** `disable` without arguments. */
  lemma DisableAllDisables(w: World, s: State)
    requires Inv(s)
    ensures Exec(w, s, DisableAll).Ok? && AllFlagged(s, Exec(w, s, DisableAll).s, false)
    ensures var p := Exec(w, s, DisableAll).s.proc; p.Live? ==> p.code == p.image
  {
    DisableAllErasesHistory(s);
    DisableEachAlong(s, s.pending);
  }

  /** No breakpoint is left, and only the locations that had none; the code is that of the image. */
  ghost predicate Cleared(s: State, r: State) {
    && Unmoved(s, r) && r.bps == map[] && r.pending == []
    && (forall a :: a in r.locs <==> a in s.locs && s.locs[a].ring == [])
    && (forall a :: a in r.locs ==> r.locs[a].ring == [] && !r.locs[a].patched)
    && (r.proc.Live? ==> r.proc.code == r.proc.image)
  }

  lemma EmptyOnesLeft(s: State, r: State)
    requires r == s.(bps := map[], pending := [], locs := r.locs, proc := r.proc) && SameProcess(s.proc, r.proc)
    requires Pristine(r) && r.locs == map a | a in s.locs && s.locs[a].ring == [] :: s.locs[a]
    ensures Cleared(s, r)
  {
  }

  /** `delete` without arguments. */
  lemma DeleteAllDeletes(w: World, s: State)
    requires Inv(s)
    ensures Exec(w, s, DeleteAll).Ok? && Cleared(s, Exec(w, s, DeleteAll).s)
  {
    assert Exec(w, s, DeleteAll) == Ok(DeleteEach(s, s.pending));
    hide *;
    DeleteAllIsComplete(s);
    EmptyOnesLeft(s, DeleteEach(s, s.pending));
  }

  // ----- the life of a process

  /** No process, and every breakpoint waits for the next one. */
  ghost predicate Emptied(s: State, r: State) {
    && !r.active && r.proc.Dead? && r.base == 0 && !r.hasTable && r.locs == map[]
    && r.nextId == s.nextId && r.pending == s.pending && r.bps.Keys == s.bps.Keys
    && forall id :: id in s.bps ==> r.bps[id] == Bp(s.bps[id].instrAddr, s.bps[id].enable, None)
  }

  lemma CleanupEnds(s: State)
    ensures Emptied(s, Cleanup(s))
  {
  }

  /** `kill`, and without a process nothing. */
  lemma KillEnds(w: World, s: State)
    ensures Exec(w, s, Kill).Ok?
    ensures if s.active then Emptied(s, Exec(w, s, Kill).s) else Exec(w, s, Kill).s == s
  {
    CleanupEnds(s);
  }

  /** The command starts a process of the program: `run` without one or once confirmed, `restart` with one. */
  predicate Starts(s: State, c: Command, prog: Program) {
    match c
    case Run(p, confirmed, _) => p == prog && (s.active ==> confirmed)
    case Restart(p, _) => p == prog && s.active
    case other => false
  }

  lemma StartsLaunched(s: State, c: Command, prog: Program)
    ensures Starts(s, c, prog) <==> Launched(s, c) == Some(prog)
  {
  }

  /** `run` without the user's consent, `restart` and the commands that run a process without one. */
  lemma RefusedChangesNothing(w: World, s: State, c: Command)
    requires (c.Run? && s.active && !c.confirmed) || (!s.active && (c.Restart? || c.Kill? || Runs(c)))
    ensures Exec(w, s, c) == Ok(s)
  {
  }

  /** A process of `prog`, with a location exactly where a breakpoint is now, which holds all that are
      there and is patched iff the one set last is enabled. */
  ghost predicate Resolved(s: State, r: State, prog: Program) {
    && r.active && r.hasTable && r.base == prog.base && r.nextId == s.nextId && r.pending == s.pending
    && r.proc.Live? && r.proc.image == prog.image
    && r.bps.Keys == s.bps.Keys
    && (forall id :: id in s.bps ==> ResolvedTo(s.bps[id], r.bps[id], r, prog.base))
    && forall a :: a in r.locs ==> HoldsAll(s, a, r.locs[a], prog.base)
  }

  ghost predicate ResolvedTo(b: Bp, b': Bp, r: State, base: Addr) {
    b' == Bp(b.instrAddr, b.enable, Some(Place(b.instrAddr, base))) && Place(b.instrAddr, base) in r.locs
  }

  ghost predicate HoldsAll(s: State, a: int, l: Loc, base: Addr) {
    && l.ring != [] && !l.isTemp
    && (forall id :: id in l.ring <==> id in s.bps && Place(s.bps[id].instrAddr, base) == a)
    && forall id :: id in l.ring && (forall x :: x in l.ring ==> x <= id) ==> HasFlag(s, id, l.patched)
  }

  /** The last of a ring in order is the largest. */
  lemma LargestIsLast(xs: seq<nat>, id: nat)
    requires Increasing(xs) && id in xs && forall x :: x in xs ==> x <= id
    ensures id == xs[|xs| - 1]
  {
    assert xs[|xs| - 1] in xs;
  }

  lemma GroupHoldsAll(s: State, s1: State, a: int, l: Loc, base: Addr)
    requires Listed(s) && Increasing(s.pending) && s1.base == base && s1.bps.Keys == s.bps.Keys
    requires forall id :: id in s.bps ==>
      s1.bps[id].enable == s.bps[id].enable && s1.bps[id].instrAddr == s.bps[id].instrAddr
    requires HoldsGroup(s1, s.pending, a, l)
    ensures HoldsAll(s, a, l, base)
  {
    forall id | id in s.bps {
      RunningAddrIsPlace(s1, id);
    }
    GroupIncreases(s1, s.pending, a);
    forall id | id in l.ring && forall x :: x in l.ring ==> x <= id
      ensures HasFlag(s, id, l.patched)
    {
      LargestIsLast(l.ring, id);
    }
  }

  /** The engine before resolution: the breakpoints of `s`, no locations and a process of `prog`. */
  ghost predicate Unattached(s: State, s1: State, prog: Program) {
    && s1.base == prog.base && s1.nextId == s.nextId && s1.pending == s.pending && s1.active && s1.hasTable
    && s1.proc.Live? && s1.proc.image == prog.image && s1.bps.Keys == s.bps.Keys
    && forall id :: id in s.bps ==>
      s1.bps[id].enable == s.bps[id].enable && s1.bps[id].instrAddr == s.bps[id].instrAddr
  }

  lemma PointedIsResolved(s: State, s1: State, r: State, prog: Program, id: nat)
    requires Unattached(s, s1, prog) && id in s.bps && id in s.pending
    requires r.bps == PointedHome(s1, s.pending) && r.locs.Keys == AddrsOf(s1, s.pending)
    ensures id in r.bps && ResolvedTo(s.bps[id], r.bps[id], r, prog.base)
  {
    RunningAddrIsPlace(s1, id);
    assert RunningAddr(s1, id) in AddrsOf(s1, s.pending);
  }

  lemma ResolvedFrom(s: State, s1: State, r: State, prog: Program)
    requires Listed(s) && Increasing(s.pending) && Unattached(s, s1, prog) && GroupedAlong(s1, r, s.pending)
    ensures Resolved(s, r, prog)
  {
    hide HoldsGroup, HoldsAll, ResolvedTo, AddrsOf, Distinct, Increasing;
    forall id | id in s.bps
      ensures ResolvedTo(s.bps[id], r.bps[id], r, prog.base)
    {
      PointedIsResolved(s, s1, r, prog, id);
    }
    forall a | a in r.locs
      ensures HoldsAll(s, a, r.locs[a], prog.base)
    {
      GroupHoldsAll(s, s1, a, r.locs[a], prog.base);
    }
  }

  lemma LoadedIsUnattached(s: State, prog: Program)
    ensures Unattached(s, Loaded(WithoutProcess(s), prog).(hasTable := true), prog)
  {
  }

  lemma FreshIsGrouped(s: State, prog: Program)
    requires Inv(s) && !ResolveAborts(Loaded(WithoutProcess(s), prog))
    ensures GroupedAlong(Loaded(WithoutProcess(s), prog).(hasTable := true), Fresh(s, prog), s.pending)
  {
    CleanupKeepsInv(s);
    hide Inv, Resolve, GroupedAlong, ResolveAborts;
    ResolveGroups(WithoutProcess(s), prog);
  }

  lemma FreshIsResolved(s: State, prog: Program)
    requires Inv(s) && InOrder(s) && !ResolveAborts(Loaded(WithoutProcess(s), prog))
    ensures Resolved(s, Fresh(s, prog), prog)
  {
    assert Listed(s) && Increasing(s.pending);
    hide *;
    FreshIsGrouped(s, prog);
    LoadedIsUnattached(s, prog);
    ResolvedFrom(s, Loaded(WithoutProcess(s), prog).(hasTable := true), Fresh(s, prog), prog);
  }

  /** A breakpoint of `s` would be at address 0 in a process loaded at `base`. */
  ghost predicate PlacedAtZero(s: State, base: Addr) {
    exists id :: id in s.bps && Place(s.bps[id].instrAddr, base) == 0
  }

  lemma ResolveAbortsAtZero(s: State, prog: Program)
    requires Inv(s)
    ensures ResolveAborts(Loaded(WithoutProcess(s), prog)) <==> PlacedAtZero(s, prog.base)
  {
    var s1 := Loaded(WithoutProcess(s), prog);
    forall id | id in s.bps
      ensures RunningAddr(s1, id) == Place(s.bps[id].instrAddr, prog.base)
    {
      RunningAddrIsPlace(s1, id);
    }
    if id :| id in s.pending && RunningAddr(s1, id) == 0 {
      assert id in s.bps;
    }
  }

  /** Starting a process with a breakpoint at address 0 fails; any other start that comes to a stop leaves
      a process with every breakpoint resolved, or none. */
  lemma StartResolves(w: World, s: State, c: Command, prog: Program)
    requires Inv(s) && InOrder(s) && Starts(s, c, prog)
    ensures PlacedAtZero(s, prog.base) ==> Exec(w, s, c).Aborted?
    ensures Exec(w, s, c).Ok? ==> var r := Exec(w, s, c).s; if r.active then Resolved(s, r, prog) else Emptied(s, r)
  {
    StartsLaunched(s, c, prog);
    LaunchingCommand(w, s, c);
    ResolveAbortsAtZero(s, prog);
    if !PlacedAtZero(s, prog.base) && Exec(w, s, c).Ok? {
      RunnerKeepsInv(s, prog);
      FreshIsResolved(s, prog);
      ContinueOnlyRuns(w, Fresh(s, prog), Budget(c));
      RunKeepsResolved(s, Fresh(s, prog), Exec(w, s, c).s, prog);
    }
  }

  lemma RunKeepsResolved(s: State, b: State, r: State, prog: Program)
    requires Resolved(s, b, prog) && OnlyRan(b, r)
    ensures if r.active then Resolved(s, r, prog) else Emptied(s, r)
  {
  }

  // ----- the order of the rings, kept

  lemma AddedKeepsOrder(s: State, r: State, instrAddr: Addr)
    requires Listed(s) && Linked(s) && InOrder(s) && Added(s, r, instrAddr)
    ensures InOrder(r)
  {
    IncreasingSnoc(s.pending, s.nextId);
    var a := Place(instrAddr, s.base);
    if s.active && a in s.locs {
      assert forall y :: y in s.locs[a].ring ==> y in s.bps;
      IncreasingSnoc(s.locs[a].ring, s.nextId);
    }
  }

  lemma RemoveKeepsOrder(s: State, id: nat)
    requires Inv(s) && InOrder(s)
    ensures InOrder(Remove(s, id))
  {
    if id in s.bps {
      RemoveKeepsWf(s, id);
      WithoutIncreases(s.pending, id);
      forall a | a in s.locs {
        WithoutIncreases(s.locs[a].ring, id);
      }
    }
  }

  lemma OnlyRanKeepsOrder(s: State, r: State)
    requires InOrder(s) && OnlyRan(s, r)
    ensures InOrder(r)
  {
  }

  lemma LaunchKeepsOrder(w: World, s: State, c: Command, prog: Program)
    requires Inv(s) && InOrder(s) && Starts(s, c, prog) && Exec(w, s, c).Ok?
    ensures InOrder(Exec(w, s, c).s)
  {
    StartsLaunched(s, c, prog);
    LaunchingCommand(w, s, c);
    CleanupKeepsInv(s);
    ResolveGroups(WithoutProcess(s), prog);
    var s1, b := Loaded(WithoutProcess(s), prog).(hasTable := true), Fresh(s, prog);
    forall a | a in b.locs
      ensures Increasing(b.locs[a].ring)
    {
      GroupIncreases(s1, s.pending, a);
    }
    ContinueOnlyRuns(w, b, Budget(c));
    OnlyRanKeepsOrder(b, Exec(w, s, c).s);
  }

  /** Every command keeps the order of the rings. */
  lemma ExecKeepsOrder(w: World, s: State, c: Command)
    requires Inv(s) && InOrder(s) && Exec(w, s, c).Ok?
    ensures InOrder(Exec(w, s, c).s)
  {
    match c
    case Break(addr) =>
      SetAdds(s, addr);
      AddedKeepsOrder(s, SetBp(s, addr), addr);
    case Delete(id) => RemoveKeepsOrder(s, id);
    case Enable(id) => EnableEnables(w, s, id);
    case Disable(id) => DisableDisables(w, s, id);
    case DeleteAll => DeleteAllDeletes(w, s);
    case EnableAll => EnableAllEnables(w, s);
    case DisableAll => DisableAllDisables(w, s);
    case Kill => KillEnds(w, s);
    case Run(prog, confirmed, fuel) =>
      if Starts(s, c, prog) {
        LaunchKeepsOrder(w, s, c, prog);
      }
    case Restart(prog, fuel) =>
      if s.active {
        LaunchKeepsOrder(w, s, c, prog);
      }
    case other =>
      if s.active {
        RunningOnlyRuns(w, s, c);
        OnlyRanKeepsOrder(s, Exec(w, s, c).s);
      }
  }

  /** After any run of commands from the start, every ring is in the order in which the breakpoints
      were set, so the one attached last at an address is the newest there. */
  lemma {:induction false} SessionKeepsOrder(w: World, s: State, cmds: seq<Command>)
    requires Inv(s) && InOrder(s)
    ensures InOrder(START)
    ensures Session(w, s, cmds).Ok? ==> InOrder(Session(w, s, cmds).s)
    decreases |cmds|
  {
    if cmds != [] && Exec(w, s, cmds[0]).Ok? {
      ExecKeepsInv(w, s, cmds[0]);
      ExecKeepsOrder(w, s, cmds[0]);
      SessionKeepsOrder(w, Exec(w, s, cmds[0]).s, cmds[1..]);
    }
  }

  // ----- runs of commands

  /** A session is its commands one after the other, up to the first that does not come to an end. */
  lemma {:induction false} SessionComposes(w: World, s: State, cmds: seq<Command>, more: seq<Command>)
    ensures Session(w, s, cmds + more) ==
      match Session(w, s, cmds) case Ok(m) => Session(w, m, more) case other => other
    decreases |cmds|
  {
    if cmds == [] {
      assert cmds + more == more;
    } else {
      assert (cmds + more)[0] == cmds[0] && (cmds + more)[1..] == cmds[1..] + more;
      if Exec(w, s, cmds[0]).Ok? {
        SessionComposes(w, Exec(w, s, cmds[0]).s, cmds[1..], more);
      }
    }
  }

  lemma SessionOfOne(w: World, s: State, c: Command)
    ensures Session(w, s, [c]) == Exec(w, s, c)
  {
    assert [c][1..] == [];
  }
}
