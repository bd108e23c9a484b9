/** The debugger's objects and the methods that update them in place, each proved to do what the
    state machine of `Model` says.  `live` is false once an object has been freed; no method
    touches or frees a freed object. */
module Engine {
  import opened Memory
  import opened Machine
  import opened Sequences
  import opened Model
  import opened Invariants
  import opened Resolution
  import Sessions

  /** The process as seen through ptrace, waitpid and kill. */
  class Tracee {
    var proc: Process

    constructor ()
      ensures proc == Dead
    {
      proc := Dead;
    }

    method PeekData(a: int) returns (w: Word)
      ensures w == if proc.Live? then Peek(proc.code, a) else READ_FAILED
    {
      w := if proc.Live? then Peek(proc.code, a) else READ_FAILED;
    }

    method PokeData(a: int, w: Word)
      modifies this
      ensures proc == if old(proc).Live? then old(proc).(code := Poke(old(proc).code, a, w)) else old(proc)
    {
      if proc.Live? {
        proc := proc.(code := Poke(proc.code, a, w));
      }
    }

    /** PTRACE_SINGLESTEP and the wait. */
    method SingleStep(isa: Isa) returns (e: Event)
      requires proc.Live?
      modifies this
      ensures e == HardwareStep(isa, old(proc).code, old(proc).cpu) && proc == Follow(old(proc), e)
    {
      e := HardwareStep(isa, proc.code, proc.cpu);
      proc := Follow(proc, e);
    }

    /** PTRACE_CONT and the wait. */
    method Resume(isa: Isa, fuel: nat) returns (e: Event)
      requires proc.Live?
      modifies this
      ensures e == RunToTrap(isa, old(proc).code, old(proc).cpu, fuel) && proc == Follow(old(proc), e)
    {
      e := RunToTrap(isa, proc.code, proc.cpu, fuel);
      proc := Follow(proc, e);
    }

    /** Overwriting the low byte of the word at `a`, as patching and unpatching do. */
    method ReplaceByte(a: int, b: Byte) returns (was: Byte)
      modifies this
      ensures was == ReadByte(old(proc), a)
      ensures proc == WriteByte(old(proc), a, b)
    {
      var data := PeekData(a);
      was := LowByte(data);
      ReadModifyWriteIsOneByte(if proc.Live? then proc.code else map[], a, b);
      LowByteOfFailedRead();
      PokeData(a, WithLowByte(data, b));
    }
  }

  /** The process after an event. */
  function Follow(p: Process, e: Event): Process
    requires p.Live?
  {
    match e
    case Gone => Dead
    case Busy => p
    case Stepped(cpu) => p.(cpu := cpu)
    case Trapped(cpu) => p.(cpu := cpu)
  }

  class Breakpoint {
    const id: nat
    const instrAddr: Addr
    var enable: bool
    var location: BpLocation?
    ghost var live: bool

    constructor (id: nat, instrAddr: Addr)
      ensures this.id == id && this.instrAddr == instrAddr
      ensures enable && location == null && live
    {
      this.id, this.instrAddr := id, instrAddr;
      enable, location, live := true, null, true;
    }

    /** Cannot be called twice. */
    method Free()
      requires live
      modifies this`live
      ensures !live
    {
      live := false;
    }
  }

  class BpLocation {
    const tracee: Tracee
    const isTemp: bool
    const runningAddr: int
    var patched: bool
    var savedData: Byte
    var ring: seq<Breakpoint>
    ghost var live: bool

    /** Loops and list operations never touch the ring of a temporary location. */
    constructor (tracee: Tracee, runningAddr: int, isTemp: bool)
      requires runningAddr != 0
      ensures this.tracee == tracee && this.runningAddr == runningAddr && this.isTemp == isTemp
      ensures !patched && savedData == 0 && ring == [] && live
    {
      this.tracee, this.runningAddr, this.isTemp := tracee, runningAddr, isTemp;
      patched, savedData, ring, live := false, 0, [], true;
    }

    /** Cannot be called twice. */
    method Free()
      requires live
      modifies this`live
      ensures !live
    {
      live := false;
    }

    twostate predicate IsUntouched()
      reads this, tracee
    {
      && patched == old(patched) && savedData == old(savedData) && ring == old(ring) && live == old(live)
      && tracee.proc == old(tracee.proc)
    }

    twostate predicate HasBeenEnabled()
      reads this, tracee
    {
      if old(patched) then IsUntouched()
      else
        && patched && savedData == ReadByte(old(tracee.proc), runningAddr) && ring == old(ring) && live == old(live)
        && tracee.proc == WriteByte(old(tracee.proc), runningAddr, INT3)
    }

    twostate predicate HasBeenDisabled()
      reads this, tracee
    {
      if !old(patched) then IsUntouched()
      else
        && !patched && savedData == old(savedData) && ring == old(ring) && live == old(live)
        && tracee.proc == WriteByte(old(tracee.proc), runningAddr, savedData)
    }

    method Enable()
      requires live
      modifies this, tracee
      ensures HasBeenEnabled()
    {
      if patched {
        return;
      }
      savedData := tracee.ReplaceByte(runningAddr, INT3);
      patched := true;
    }

    method Disable()
      requires live
      modifies this, tracee
      ensures HasBeenDisabled()
    {
      if !patched {
        return;
      }
      if tracee.proc.Dead? {
        patched := false;
        return;
      }
      var _ := tracee.ReplaceByte(runningAddr, savedData);
      patched := false;
    }
  }

  function Ids(bs: seq<Breakpoint>): (ids: seq<nat>)
    ensures |ids| == |bs| && forall i :: 0 <= i < |bs| ==> ids[i] == bs[i].id
  {
    seq(|bs|, i requires 0 <= i < |bs| => bs[i].id)
  }

  /** What freeing needs: rings and pointers are inverse, and temporary locations have no ring. */
  ghost predicate Tidy(s: State) {
    Linked(s) && forall a :: a in s.locs && s.locs[a].isTemp ==> s.locs[a].ring == []
  }

  method AnyOf<K>(keys: set<K>) returns (k: K)
    requires keys != {}
    ensures k in keys
  {
    k :| k in keys;
  }

  lemma IdsOfOneMore(bs: seq<Breakpoint>, i: nat)
    requires i < |bs|
    ensures bs[..i + 1] == bs[..i] + [bs[i]] && Ids(bs[..i + 1]) == Ids(bs[..i]) + [bs[i].id] && bs[i] in bs
    ensures Front(Ids(bs[..i + 1])) == Ids(bs[..i]) && Last(Ids(bs[..i + 1])) == bs[i].id
  {
  }

  lemma IdInIds(bs: seq<Breakpoint>, b: Breakpoint)
    requires forall x :: x in bs && x.id == b.id ==> x == b
    ensures b in bs <==> b.id in Ids(bs)
  {
  }

  /** Removing a node from a ring of breakpoints with distinct ids removes its id. */
  lemma {:induction false} IdsWithout(bs: seq<Breakpoint>, b: Breakpoint)
    requires forall x :: x in bs && x.id == b.id ==> x == b
    ensures Ids(Without(bs, b)) == Without(Ids(bs), b.id)
  {
    if bs == [] {
      assert Ids(bs) == [];
    } else {
      assert bs == Front(bs) + [Last(bs)] && Last(bs) in bs;
      assert Front(Ids(bs)) == Ids(Front(bs)) && Last(Ids(bs)) == Last(bs).id;
      IdsWithout(Front(bs), b);
      assert Ids(Without(Front(bs), b) + [Last(bs)]) == Ids(Without(Front(bs), b)) + [Last(bs).id];
    }
  }

  ghost function AbsBp(b: Breakpoint): Bp
    reads b
  {
    Bp(b.instrAddr, b.enable, if b.location == null then None else Some(b.location.runningAddr))
  }

  ghost function AbsLoc(l: BpLocation): Loc
    reads l
  {
    Loc(l.isTemp, l.patched, l.savedData, Ids(l.ring))
  }

  /** How a method that runs the process ended; the last three never return to the prompt. */
  datatype Verdict = Fine | StillRunning | AssertionFailed | Lost

  class Debugger {
    const tracee: Tracee
    const world: World
    var active: bool
    var loadAddress: Addr
    var nextId: nat
    var breakpoints: map<nat, Breakpoint>
    var pending: seq<Breakpoint>
    var hasTable: bool
    var locations: map<int, BpLocation>
    /** What the objects represent. */
    ghost var state: State

    constructor (world: World)
      ensures Valid() && state == START && fresh(Repr())
    {
      this.world := world;
      tracee := new Tracee();
      active, loadAddress, nextId := false, 0, 1;
      breakpoints, pending := map[], [];
      hasTable, locations := false, map[];
      state := START;
    }

    ghost function Repr(): set<object>
      reads this
    {
      {this, tracee} + breakpoints.Values + locations.Values
    }

    /** `b` is the breakpoint registered under its id. */
    ghost predicate Registers(b: Breakpoint)
      reads this`breakpoints
    {
      b.id in breakpoints && breakpoints[b.id] == b
    }

    /** `l` is the location stored under its address. */
    ghost predicate Maps(l: BpLocation)
      reads this`locations
    {
      l.runningAddr in locations && locations[l.runningAddr] == l
    }

    ghost predicate ValidBp(id: nat, b: Breakpoint, bp: Bp)
      reads this`locations, b
    {
      b.id == id && b.live && AbsBp(b) == bp && (b.location != null ==> Maps(b.location))
    }

    ghost predicate ValidBps(bps: map<nat, Bp>)
      reads this`breakpoints, this`locations, breakpoints.Values
    {
      bps.Keys == breakpoints.Keys && forall id :: id in breakpoints ==> ValidBp(id, breakpoints[id], bps[id])
    }

    ghost predicate ValidLoc(a: int, l: BpLocation, loc: Loc)
      reads this`breakpoints, l
    {
      l.runningAddr == a && l.live && l.tracee == tracee && AbsLoc(l) == loc && forall b :: b in l.ring ==> Registers(b)
    }

    ghost predicate ValidLocs(locs: map<int, Loc>)
      reads this`breakpoints, this`locations, locations.Values
    {
      locs.Keys == locations.Keys && forall a :: a in locations ==> ValidLoc(a, locations[a], locs[a])
    }

    ghost predicate ValidPending(ids: seq<nat>)
      reads this`breakpoints, this`pending
    {
      ids == Ids(pending) && forall b :: b in pending ==> Registers(b)
    }

    /** The objects represent `state`; none that can be reached from here has been freed. */
    ghost predicate Valid()
      reads Repr()
    {
      && state.active == active && state.base == loadAddress && state.nextId == nextId
      && state.hasTable == hasTable && state.proc == tracee.proc
      && ValidPending(state.pending) && ValidBps(state.bps) && ValidLocs(state.locs)
    }

    lemma Mirrors()
      requires Valid()
      ensures state.active == active && state.base == loadAddress && state.hasTable == hasTable
      ensures state.proc == tracee.proc && state.pending == Ids(pending)
      ensures state.bps.Keys == breakpoints.Keys && state.locs.Keys == locations.Keys
    {
    }

    /** Every location there was in `before` is still stored, or has been freed. */
    ghost predicate LocsFreed(before: map<int, BpLocation>)
      reads this`locations, before.Values
    {
      forall a :: a in before ==> if a in locations then locations[a] == before[a] else !before[a].live
    }

    /** Every breakpoint there was in `before` is still registered, or has been freed. */
    ghost predicate BpsFreed(before: map<nat, Breakpoint>)
      reads this`breakpoints, before.Values
    {
      forall id :: id in before ==> if id in breakpoints then breakpoints[id] == before[id] else !before[id].live
    }

    ghost predicate Freed(bps: map<nat, Breakpoint>, locs: map<int, BpLocation>)
      reads this`breakpoints, this`locations, bps.Values, locs.Values
    {
      BpsFreed(bps) && LocsFreed(locs)
    }

    lemma NothingFreed()
      ensures Freed(breakpoints, locations)
    {
    }

    /** What has been freed is nowhere in the maps any more. */
    lemma FreedAreElsewhere(bps: map<nat, Breakpoint>, locs: map<int, BpLocation>)
      requires Valid() && Freed(bps, locs)
      ensures forall id :: id in bps && id !in breakpoints ==> bps[id] !in breakpoints.Values
      ensures forall a :: a in locs && a !in locations ==> locs[a] !in locations.Values
    {
      assert forall a :: a in locations ==> ValidLoc(a, locations[a], state.locs[a]);
      assert forall id :: id in breakpoints ==> ValidBp(id, breakpoints[id], state.bps[id]);
    }

    method EnableLocation(a: int)
      requires Valid() && a in locations
      modifies this`state, locations[a], tracee
      ensures Valid() && state == EnableLoc(old(state), a)
    {
      locations[a].Enable();
      state := EnableLoc(state, a);
    }

    method DisableLocation(a: int)
      requires Valid() && a in locations
      modifies this`state, locations[a], tracee
      ensures Valid() && state == DisableLoc(old(state), a)
    {
      locations[a].Disable();
      state := DisableLoc(state, a);
    }

    // ----- single updates

    method SetFlag(b: Breakpoint, flag: bool)
      requires Valid() && Registers(b)
      modifies this`state, b`enable
      ensures Valid() && state == FlagSet(old(state), b.id, flag)
    {
      hide ValidLoc;
      b.enable := flag;
      state := FlagSet(state, b.id, flag);
      forall id | id in breakpoints
        ensures ValidBp(id, breakpoints[id], state.bps[id])
      {
        assert old(ValidBp(id, breakpoints[id], state.bps[id]));
      }
      forall a | a in locations
        ensures ValidLoc(a, locations[a], state.locs[a])
      {
        assert old(ValidLoc(a, locations[a], state.locs[a]));
      }
    }

    method PointTo(b: Breakpoint, l: BpLocation)
      requires Valid() && Registers(b) && Maps(l)
      modifies this`state, b`location
      ensures Valid() && state == Pointed(old(state), b.id, Some(l.runningAddr))
    {
      hide ValidLoc;
      b.location := l;
      state := Pointed(state, b.id, Some(l.runningAddr));
      forall id | id in breakpoints
        ensures ValidBp(id, breakpoints[id], state.bps[id])
      {
        assert old(ValidBp(id, breakpoints[id], state.bps[id]));
      }
      forall a | a in locations
        ensures ValidLoc(a, locations[a], state.locs[a])
      {
        assert old(ValidLoc(a, locations[a], state.locs[a]));
      }
    }

    method PointNowhere(b: Breakpoint)
      requires Valid() && Registers(b)
      modifies this`state, b`location
      ensures Valid() && state == Pointed(old(state), b.id, None)
    {
      hide ValidLoc;
      b.location := null;
      state := Pointed(state, b.id, None);
      forall id | id in breakpoints
        ensures ValidBp(id, breakpoints[id], state.bps[id])
      {
        assert old(ValidBp(id, breakpoints[id], state.bps[id]));
      }
      forall a | a in locations
        ensures ValidLoc(a, locations[a], state.locs[a])
      {
        assert old(ValidLoc(a, locations[a], state.locs[a]));
      }
    }

    method SetRing(l: BpLocation, ring: seq<Breakpoint>)
      requires Valid() && Maps(l) && forall b :: b in ring ==> Registers(b)
      modifies this`state, l`ring
      ensures Valid() && l.ring == ring
      ensures state == RingSet(old(state), l.runningAddr, Ids(ring))
    {
      l.ring := ring;
      state := RingSet(state, l.runningAddr, Ids(ring));
    }

    method NewLocation(a: int, isTemp: bool) returns (l: BpLocation)
      requires Valid() && a != 0 && a !in locations
      modifies this`state, this`locations
      ensures Valid() && fresh(l) && Maps(l) && l.runningAddr == a && l.ring == []
      ensures locations == old(locations)[a := l]
      ensures state == old(state).(locs := old(state).locs[a := Loc(isTemp, false, 0, [])])
    {
      l := new BpLocation(tracee, a, isTemp);
      locations := locations[a := l];
      state := state.(locs := state.locs[a := Loc(isTemp, false, 0, [])]);
    }

    /** Takes a location that nothing points to out of the map and frees it. */
    method DropLocation(a: int)
      requires Valid() && a in locations
      requires forall id :: id in state.bps ==> state.bps[id].location != Some(a)
      modifies this`state, this`locations, locations[a]
      ensures Valid() && locations == old(locations) - {a} && !old(locations)[a].live
      ensures state == old(state).(locs := old(state).locs - {a})
    {
      assert ValidLoc(a, locations[a], state.locs[a]);
      locations[a].Free();
      locations := locations - {a};
      state := state.(locs := state.locs - {a});
    }

    method NewBreakpoint(instrAddr: Addr) returns (b: Breakpoint)
      requires Valid() && nextId !in breakpoints
      modifies this`state, this`nextId, this`breakpoints
      ensures Valid() && fresh(b) && Registers(b) && b.id == old(nextId)
      ensures breakpoints == old(breakpoints)[b.id := b]
      ensures state == old(state).(nextId := b.id + 1, bps := old(state).bps[b.id := Bp(instrAddr, true, None)])
    {
      b := new Breakpoint(nextId, instrAddr);
      nextId := nextId + 1;
      breakpoints := breakpoints[b.id := b];
      state := state.(nextId := nextId, bps := state.bps[b.id := Bp(instrAddr, true, None)]);
    }

    method SetPending(bs: seq<Breakpoint>)
      requires Valid() && forall b :: b in bs ==> Registers(b)
      modifies this`state, this`pending
      ensures Valid() && pending == bs && state == old(state).(pending := Ids(bs))
    {
      hide ValidBp, ValidLoc;
      pending := bs;
      state := state.(pending := Ids(bs));
    }

    /** A breakpoint whose id occurs nowhere is itself nowhere. */
    lemma Nowhere(b: Breakpoint)
      requires Valid() && b.id !in state.pending
      requires forall a :: a in state.locs ==> b.id !in state.locs[a].ring
      ensures b !in pending
      ensures forall a :: a in locations ==> b !in locations[a].ring
    {
    }

    /** Takes a breakpoint that is in no ring any more out of the map and frees it. */
    method Forget(b: Breakpoint)
      requires Valid() && Registers(b) && b.id !in state.pending
      requires forall a :: a in state.locs ==> b.id !in state.locs[a].ring
      modifies this`state, this`breakpoints, b`live
      ensures Valid() && breakpoints == old(breakpoints) - {b.id} && !b.live
      ensures state == old(state).(bps := old(state).bps - {b.id})
    {
      Nowhere(b);
      assert ValidBp(b.id, b, state.bps[b.id]);
      b.Free();
      breakpoints := breakpoints - {b.id};
      state := state.(bps := state.bps - {b.id});
    }

    method SetLife(active: bool, base: Addr, hasTable: bool, proc: Process)
      requires Valid()
      modifies this`state, this`active, this`loadAddress, this`hasTable, tracee
      ensures Valid() && state == old(state).(active := active, base := base, hasTable := hasTable, proc := proc)
    {
      hide ValidBp, ValidLoc;
      this.active, loadAddress, this.hasTable, tracee.proc := active, base, hasTable, proc;
      state := state.(active := active, base := base, hasTable := hasTable, proc := proc);
    }

    /** If all breakpoints of its location are enabled, the location is patched. */
    method EnableBreakpoint(b: Breakpoint)
      requires Valid() && Registers(b)
      modifies this`state, breakpoints.Values, locations.Values, tracee
      ensures Valid() && state == EnableBp(old(state), b.id)
    {
      hide Valid;
      HomeFields(b);
      SetFlag(b, true);
      HomeFields(b);
      if b.location == null {
        return;
      }
      var ring := b.location.ring;
      var toPatch := true;
      for i := 0 to |ring|
        invariant toPatch <==> forall j :: 0 <= j < i ==> ring[j].enable
      {
        if !ring[i].enable {
          toPatch := false;
        }
      }
      FlagsInRing(b.location);
      if toPatch {
        EnableLocation(b.location.runningAddr);
      }
    }

    /** If no breakpoint of its location is enabled, the location is unpatched. */
    method DisableBreakpoint(b: Breakpoint)
      requires Valid() && Registers(b)
      modifies this`state, breakpoints.Values, locations.Values, tracee
      ensures Valid() && state == DisableBp(old(state), b.id)
    {
      hide Valid;
      HomeFields(b);
      SetFlag(b, false);
      HomeFields(b);
      if b.location == null {
        return;
      }
      var ring := b.location.ring;
      var toUnpatch := true;
      for i := 0 to |ring|
        invariant toUnpatch <==> forall j :: 0 <= j < i ==> !ring[j].enable
      {
        if ring[i].enable {
          toUnpatch := false;
        }
      }
      FlagsInRing(b.location);
      if toUnpatch {
        DisableLocation(b.location.runningAddr);
      }
    }

    lemma HomeFields(b: Breakpoint)
      requires Valid() && Registers(b)
      ensures b.id in state.bps && state.bps[b.id] == AbsBp(b)
      ensures b.location != null ==>
        && Maps(b.location) && b.location.runningAddr in state.locs
        && state.locs[b.location.runningAddr] == AbsLoc(b.location)
    {
      FieldsOf(b, b.location);
    }

    lemma FlagsInRing(l: BpLocation)
      requires Valid() && Maps(l)
      ensures AllEnabled(state, Ids(l.ring)) <==> forall j :: 0 <= j < |l.ring| ==> l.ring[j].enable
      ensures NoneEnabled(state, Ids(l.ring)) <==> forall j :: 0 <= j < |l.ring| ==> !l.ring[j].enable
    {
      var ids := Ids(l.ring);
      assert ValidLoc(l.runningAddr, l, state.locs[l.runningAddr]);
      forall j | 0 <= j < |ids|
        ensures ids[j] in ids && Enabled(state, ids[j]) == l.ring[j].enable
      {
        assert l.ring[j] in l.ring && Registers(l.ring[j]);
        assert ValidBp(ids[j], breakpoints[ids[j]], state.bps[ids[j]]);
      }
    }

    // ----- attaching

    lemma LinkupInSteps(s: State, id: nat, a: int)
      requires id in s.bps
      ensures a !in s.locs ==>
        Linkup(s, id, a) == Pointed(RingSet(s.(locs := s.locs[a := Loc(false, false, 0, [])]), a, [id]), id, Some(a))
      ensures a in s.locs ==>
        Linkup(s, id, a) ==
          if id in s.locs[a].ring then Pointed(s, id, Some(a))
          else RingSet(Pointed(s, id, Some(a)), a, s.locs[a].ring + [id])
    {
      if a !in s.locs {
        assert [] + [id] == [id];
        assert s.locs[a := Loc(false, false, 0, [])][a := Loc(false, false, 0, [id])] ==
          s.locs[a := Loc(false, false, 0, [id])];
      } else {
        assert s.locs[a := s.locs[a]] == s.locs;
      }
    }

    method Missing(b: Breakpoint, l: BpLocation) returns (missing: bool)
      requires Valid() && Registers(b) && Maps(l)
      ensures Valid() && (missing <==> b.id !in state.locs[l.runningAddr].ring)
      ensures Ids(l.ring + [b]) == state.locs[l.runningAddr].ring + [b.id] && forall x :: x in l.ring ==> Registers(x)
    {
      assert ValidLoc(l.runningAddr, l, state.locs[l.runningAddr]);
      IdInIds(l.ring, b);
      for i := 0 to |l.ring|
        invariant b !in l.ring[..i]
      {
        if l.ring[i] == b {
          return false;
        }
      }
      return true;
    }

    method LinkNew(b: Breakpoint, a: int)
      requires Valid() && Registers(b) && a != 0 && a !in locations
      modifies this`state, this`locations, b
      ensures Valid() && fresh(locations.Values - old(locations.Values)) && a in locations && fresh(locations[a])
      ensures state == Linkup(old(state), b.id, a) && b.enable == old(b.enable)
    {
      hide Valid;
      Mirrors();
      LinkupInSteps(state, b.id, a);
      assert Ids([b]) == [b.id];
      var l := NewLocation(a, false);
      SetRing(l, [b]);
      PointTo(b, l);
    }

    method LinkOld(b: Breakpoint, l: BpLocation) returns (appended: bool)
      requires Valid() && Registers(b) && Maps(l)
      modifies this`state, l, b
      ensures Valid() && state == Linkup(old(state), b.id, l.runningAddr)
      ensures appended <==> b.id !in old(state).locs[l.runningAddr].ring
      ensures b.enable == old(b.enable) && l.patched == old(l.patched)
    {
      hide Valid;
      FieldsOf(b, l);
      LinkupInSteps(state, b.id, l.runningAddr);
      PointTo(b, l);
      appended := Missing(b, l);
      if appended {
        SetRing(l, l.ring + [b]);
      }
    }

    /** Appends `b` to the ring, unless it is in it; the location then follows its flag. */
    method AppendBreakpoint(b: Breakpoint, l: BpLocation)
      requires Valid() && Registers(b) && Maps(l) && l.runningAddr == RunningAddr(state, b.id)
      modifies this`state, breakpoints.Values, locations.Values, tracee
      ensures Valid() && state == Attach(old(state), b.id)
    {
      FieldsOf(b, l);
      var appended := LinkOld(b, l);
      if appended {
        if b.enable && !l.patched {
          EnableLocation(l.runningAddr);
        } else if !b.enable && l.patched {
          DisableLocation(l.runningAddr);
        }
      }
    }

    lemma FieldsOf(b: Breakpoint, l: BpLocation?)
      requires Valid() && Registers(b) && (l != null ==> Maps(l))
      ensures b.id in state.bps && state.bps[b.id] == AbsBp(b)
      ensures l != null ==> l.runningAddr in state.locs && state.locs[l.runningAddr] == AbsLoc(l)
    {
    }

    method AttachNew(b: Breakpoint, a: int)
      requires Valid() && Registers(b) && a != 0 && a !in locations && a == RunningAddr(state, b.id)
      modifies this`state, this`locations, b, tracee
      ensures Valid() && fresh(locations.Values - old(locations.Values))
      ensures state == Attach(old(state), b.id)
    {
      hide Valid;
      Mirrors();
      FieldsOf(b, null);
      LinkNew(b, a);
      if b.enable {
        EnableLocation(a);
      }
    }

    /** Attaches `b` to the location at its running address.  Fails, as the assertion of the
        location constructor does, when a location would have to be made at address 0. */
    method AttachBreakpoint(b: Breakpoint) returns (ok: bool)
      requires Valid() && Registers(b)
      modifies this`state, this`locations, breakpoints.Values, locations.Values, tracee
      ensures Valid() && fresh(locations.Values - old(locations.Values))
      ensures ok <==> RunningAddr(old(state), b.id) != 0 || 0 in old(state).locs
      ensures ok ==> state == Attach(old(state), b.id)
    {
      FieldsOf(b, null);
      var a := Wrap(b.instrAddr + loadAddress);
      if a in locations {
        assert ValidLoc(a, locations[a], state.locs[a]);
        AppendBreakpoint(b, locations[a]);
      } else if a == 0 {
        return false;
      } else {
        assert b in breakpoints.Values;
        AttachNew(b, a);
      }
      ok := true;
    }

    /** A new breakpoint: in the id map, last in the pending ring, and attached if there is a process. */
    method SetBreakpoint(instrAddr: Addr) returns (ok: bool)
      requires Valid() && Listed(state)
      modifies Repr()
      ensures ok <==> !SetAborts(old(state), instrAddr)
      ensures ok ==> Valid() && state == SetBp(old(state), instrAddr)
      ensures fresh(Repr() - old(Repr()))
    {
      hide Valid;
      var b := Enlist(instrAddr);
      ok := true;
      if active {
        ok := AttachBreakpoint(b);
      }
    }

    method Enlist(instrAddr: Addr) returns (b: Breakpoint)
      requires Valid() && Listed(state)
      modifies this`state, this`nextId, this`breakpoints, this`pending
      ensures Valid() && fresh(b) && Registers(b) && b.id == old(state).nextId
      ensures breakpoints == old(breakpoints)[b.id := b]
      ensures state == Registered(old(state), instrAddr)
    {
      b := NewBreakpoint(instrAddr);
      assert Ids(pending + [b]) == Ids(pending) + [b.id];
      SetPending(pending + [b]);
    }

    // ----- removing

    /** Unlinks `b` from its location, if it has one, then forgets and frees it. */
    method FreeBreakpoint(b: Breakpoint)
      requires Valid() && Registers(b) && b.id !in state.pending && Linked(state)
      modifies this`state, this`breakpoints, b, locations.Values, tracee
      ensures Valid() && breakpoints == old(breakpoints) - {b.id} && !b.live
      ensures state == FreeBp(old(state), b.id)
    {
      FieldsOf(b, b.location);
      FreeBpForgets(state, b.id);
      if b.location != null {
        UnlinkBreakpoint(b, b.location);
      }
      Forget(b);
    }

    /** Takes `b` out of the ring; a location left empty loses its patch. */
    method UnlinkBreakpoint(b: Breakpoint, l: BpLocation)
      requires Valid() && Registers(b) && Maps(l)
      modifies this`state, l, tracee
      ensures Valid() && state == Unlink(old(state), b.id, l.runningAddr)
    {
      assert ValidLoc(l.runningAddr, l, state.locs[l.runningAddr]);
      IdsWithout(l.ring, b);
      SetRing(l, Without(l.ring, b));
      if l.ring == [] {
        DisableLocation(l.runningAddr);
      }
    }

    /** Deleting one breakpoint. */
    method RemoveBreakpoint(b: Breakpoint)
      requires Valid() && Registers(b) && Linked(state)
      modifies this`state, this`breakpoints, this`pending, b, locations.Values, tracee
      ensures Valid() && breakpoints == old(breakpoints) - {b.id} && !b.live
      ensures state == Remove(old(state), b.id)
    {
      PendingDoesNotLink(state, Unlisted(state, b.id));
      Unlist(b);
      FreeBreakpoint(b);
    }

    lemma DetachedOneMore(s: State, ids: seq<nat>, id: nat)
      requires id in s.bps
      ensures Detached(s, ids + [id]) == Pointed(Detached(s, ids), id, None)
    {
    }

    method DetachNext(ring: seq<Breakpoint>, i: nat, ghost was: State)
      requires Valid() && i < |ring| && Registers(ring[i]) && state == Detached(was, Ids(ring[..i]))
      modifies this`state, breakpoints.Values
      ensures Valid() && state == Detached(was, Ids(ring[..i + 1]))
    {
      IdsOfOneMore(ring, i);
      DetachedOneMore(was, Ids(ring[..i]), ring[i].id);
      PointNowhere(ring[i]);
    }

    method DetachRing(l: BpLocation)
      requires Valid() && Maps(l)
      modifies this`state, breakpoints.Values
      ensures Valid() && state == Detached(old(state), old(state).locs[l.runningAddr].ring)
    {
      ghost var was := state;
      assert ValidLoc(l.runningAddr, l, state.locs[l.runningAddr]);
      assert Detached(state, []).bps == state.bps;
      for i := 0 to |l.ring|
        invariant Valid() && state == Detached(was, Ids(l.ring[..i]))
      {
        DetachNext(l.ring, i, was);
      }
      assert l.ring[..|l.ring|] == l.ring;
    }

    /** Deleting a location from the map: its breakpoints are detached, its byte is restored, it is freed. */
    method FreeLocation(a: int)
      requires Valid() && Tidy(state)
      modifies this`state, this`locations, breakpoints.Values, locations.Values, tracee
      ensures Valid() && locations == old(locations) - {a} && (a in old(locations) ==> !old(locations)[a].live)
      ensures state == FreeLoc(old(state), a)
    {
      hide Valid, Linked;
      Mirrors();
      if a !in locations {
        assert locations - {a} == locations;
        return;
      }
      ghost var was := state;
      var l := locations[a];
      FieldsAt(a);
      if l.isTemp {
        assert Detached(state, []).bps == state.bps;
      } else {
        DetachRing(l);
      }
      DisableLocation(a);
      NobodyPointsThere(was, a);
      DropLocation(a);
    }

    lemma NobodyPointsThere(s: State, a: int)
      requires Linked(s) && a in s.locs
      ensures forall id :: id in s.bps ==> DisableLoc(Detached(s, s.locs[a].ring), a).bps[id].location != Some(a)
    {
    }

    // ----- commands on all breakpoints

    method EnableNext(i: nat, ghost was: State)
      requires Valid() && i < |pending| && state == EnableEach(was, Ids(pending[..i]))
      modifies this`state, breakpoints.Values, locations.Values, tracee
      ensures Valid() && state == EnableEach(was, Ids(pending[..i + 1]))
    {
      IdsOfOneMore(pending, i);
      EnableBreakpoint(pending[i]);
    }

    method EnableAllBreakpoints()
      requires Valid()
      modifies this`state, breakpoints.Values, locations.Values, tracee
      ensures Valid() && state == EnableEach(old(state), old(state).pending)
    {
      ghost var was := state;
      for i := 0 to |pending|
        invariant Valid() && state == EnableEach(was, Ids(pending[..i]))
      {
        EnableNext(i, was);
      }
      assert pending[..|pending|] == pending;
    }

    method DisableNext(i: nat, ghost was: State)
      requires Valid() && i < |pending| && state == DisableEach(was, Ids(pending[..i]))
      modifies this`state, breakpoints.Values, locations.Values, tracee
      ensures Valid() && state == DisableEach(was, Ids(pending[..i + 1]))
    {
      IdsOfOneMore(pending, i);
      DisableBreakpoint(pending[i]);
    }

    method DisableAllBreakpoints()
      requires Valid()
      modifies this`state, breakpoints.Values, locations.Values, tracee
      ensures Valid() && state == DisableEach(old(state), old(state).pending)
    {
      ghost var was := state;
      for i := 0 to |pending|
        invariant Valid() && state == DisableEach(was, Ids(pending[..i]))
      {
        DisableNext(i, was);
      }
      assert pending[..|pending|] == pending;
    }

    method Unlist(b: Breakpoint)
      requires Valid() && Registers(b)
      modifies this`state, this`pending
      ensures Valid() && state == Unlisted(old(state), b.id)
    {
      IdsWithout(pending, b);
      SetPending(Without(pending, b));
    }

    function Unlisted(s: State, id: nat): State {
      s.(pending := Without(s.pending, id))
    }

    lemma UnlistedIsTidy(s: State, id: nat)
      requires Core(s)
      ensures Tidy(Unlisted(s, id))
    {
    }

    lemma DeleteSteps(s: State, id: nat)
      requires Core(s) && id in s.bps
      ensures var s2 := FreeLoc(Unlisted(s, id), RunningAddr(s, id));
        Core(s2) && id !in s2.pending && DeleteOne(s, id) == FreeBp(s2, id)
    {
      PendingDoesNotLink(s, Unlisted(s, id));
      FreeLocShape(Unlisted(s, id), RunningAddr(s, id));
      FreeLocKeepsCore(Unlisted(s, id), RunningAddr(s, id));
    }

    /** Nothing that has been freed is touched in freeing one more. */
    method FreeOneLocation(a: int, ghost bps: map<nat, Breakpoint>, ghost locs: map<int, BpLocation>)
      requires Valid() && Tidy(state) && Freed(bps, locs)
      modifies this`state, this`locations, breakpoints.Values, locations.Values, tracee
      ensures Valid() && locations == old(locations) - {a} && Freed(bps, locs)
      ensures state == FreeLoc(old(state), a)
    {
      hide Valid, Tidy;
      FreedAreElsewhere(bps, locs);
      FreeLocation(a);
    }

    method FreeOneBreakpoint(b: Breakpoint, ghost bps: map<nat, Breakpoint>, ghost locs: map<int, BpLocation>)
      requires Valid() && Registers(b) && b.id !in state.pending && Linked(state) && Freed(bps, locs)
      modifies this`state, this`breakpoints, b, locations.Values, tracee
      ensures Valid() && breakpoints == old(breakpoints) - {b.id} && Freed(bps, locs)
      ensures state == FreeBp(old(state), b.id)
    {
      hide Valid, Linked;
      FreedAreElsewhere(bps, locs);
      FreeBreakpoint(b);
    }

    lemma HomeOf(b: Breakpoint)
      requires Valid() && Registers(b)
      ensures RunningAddr(state, b.id) == Wrap(b.instrAddr + loadAddress)
    {
      FieldsOf(b, null);
      Mirrors();
    }

    method FreeHome(b: Breakpoint, ghost bps: map<nat, Breakpoint>, ghost locs: map<int, BpLocation>)
      requires Valid() && Registers(b) && Core(state) && Freed(bps, locs)
      modifies this`state, this`pending, this`locations, breakpoints.Values, locations.Values, tracee
      ensures Valid() && locations.Values <= old(locations).Values && Freed(bps, locs)
      ensures state == FreeLoc(Unlisted(old(state), b.id), RunningAddr(old(state), b.id))
    {
      hide Valid, Core, Tidy, Freed, FreeLoc, RunningAddr;
      HomeOf(b);
      UnlistedIsTidy(state, b.id);
      var a := Wrap(b.instrAddr + loadAddress);
      Unlist(b);
      FreeOneLocation(a, bps, locs);
    }

    /** One round of deleting all: off the pending ring, its location freed with it, itself freed. */
    method DeleteBreakpoint(b: Breakpoint, ghost bps: map<nat, Breakpoint>, ghost locs: map<int, BpLocation>)
      requires Valid() && Registers(b) && Core(state) && Freed(bps, locs)
      modifies this`state, this`breakpoints, this`pending, this`locations, breakpoints.Values, locations.Values, tracee
      ensures Valid() && breakpoints == old(breakpoints) - {b.id} && Freed(bps, locs)
      ensures locations.Values <= old(locations).Values
      ensures state == DeleteOne(old(state), b.id)
    {
      hide Valid, Core, Linked;
      Mirrors();
      ghost var s2 := FreeLoc(Unlisted(state, b.id), RunningAddr(state, b.id));
      assert Linked(s2) && b.id !in s2.pending && DeleteOne(state, b.id) == FreeBp(s2, b.id) by {
        DeleteSteps(state, b.id);
      }
      FreeHome(b, bps, locs);
      FreeOneBreakpoint(b, bps, locs);
    }

    lemma HomeIsFreed(s: State, id: nat)
      requires Core(s) && id in s.bps
      ensures id in FreeLoc(Unlisted(s, id), RunningAddr(s, id)).bps
      ensures FreeLoc(Unlisted(s, id), RunningAddr(s, id)).bps[id].location.None?
    {
      PendingDoesNotLink(s, Unlisted(s, id));
      FreeLocShape(Unlisted(s, id), RunningAddr(s, id));
      assert s.bps[id].location.Some? ==> PointsHome(s, id);
    }

    lemma DeleteOneKeepsCore(s: State, id: nat)
      requires Core(s) && id in s.bps
      ensures Core(DeleteOne(s, id))
    {
      DeleteSteps(s, id);
      HomeIsFreed(s, id);
      FreeBpKeepsCore(FreeLoc(Unlisted(s, id), RunningAddr(s, id)), id);
    }

    lemma DeleteEachStep(was: State, all: seq<Breakpoint>, i: nat)
      requires i < |all| && all[i].id in DeleteEach(was, Ids(all[..i])).bps && Core(DeleteEach(was, Ids(all[..i])))
      ensures Core(DeleteEach(was, Ids(all[..i + 1])))
      ensures DeleteEach(was, Ids(all[..i + 1])) == DeleteOne(DeleteEach(was, Ids(all[..i])), all[i].id)
    {
      IdsOfOneMore(all, i);
      DeleteOneKeepsCore(DeleteEach(was, Ids(all[..i])), all[i].id);
    }

    /** The first `i` of `all` are deleted, the others still registered; what is gone from the maps
        there were is freed. */
    ghost predicate Deleting(all: seq<Breakpoint>, i: nat, was: State, bps: map<nat, Breakpoint>,
                             locs: map<int, BpLocation>)
      requires i <= |all|
      reads Repr(), bps.Values, locs.Values
    {
      && Valid() && Core(state) && Distinct(Ids(all)) && state == DeleteEach(was, Ids(all[..i])) && Freed(bps, locs)
      && (forall j :: i <= j < |all| ==> Registers(all[j]))
      && forall j :: 0 <= j < i ==> all[j].id !in breakpoints
    }

    method DeleteRound(all: seq<Breakpoint>, i: nat, ghost was: State,
                       ghost bps: map<nat, Breakpoint>, ghost locs: map<int, BpLocation>)
      requires i < |all| && Deleting(all, i, was, bps, locs)
      modifies this`state, this`breakpoints, this`pending, this`locations, breakpoints.Values, locations.Values, tracee
      ensures Deleting(all, i + 1, was, bps, locs)
      ensures breakpoints.Values <= old(breakpoints).Values && locations.Values <= old(locations).Values
    {
      hide Valid, Core, Freed, DeleteOne;
      LaterIdsDiffer(all, i);
      FieldsOf(all[i], null);
      DeleteEachStep(was, all, i);
      DeleteBreakpoint(all[i], bps, locs);
    }

    /** Deleting all breakpoints: each is visited once and freed, locations are kept or freed, and nothing
        freed is touched or freed again. */
    method RemoveAllBreakpoints()
      requires Valid() && Core(state) && Distinct(state.pending)
      modifies Repr()
      ensures Valid() && state == DeleteEach(old(state), old(state).pending)
      ensures breakpoints.Values <= old(breakpoints).Values && locations.Values <= old(locations).Values
      ensures Freed(old(breakpoints), old(locations)) && forall b :: b in old(pending) ==> !b.live
    {
      hide Core;
      ghost var was, bps, locs := state, breakpoints, locations;
      var all := pending;
      assert Ids(all[..0]) == [];
      for i := 0 to |all|
        invariant Deleting(all, i, was, bps, locs)
        invariant breakpoints.Values <= bps.Values && locations.Values <= locs.Values
      {
        DeleteRound(all, i, was, bps, locs);
      }
      assert all[..|all|] == all;
    }

    lemma LaterIdsDiffer(bs: seq<Breakpoint>, i: nat)
      requires Distinct(Ids(bs)) && i < |bs|
      ensures forall j :: i < j < |bs| ==> bs[j].id != bs[i].id
    {
      forall j | i < j < |bs|
        ensures bs[j].id != bs[i].id
      {
        DistinctIndices(Ids(bs), i, j);
      }
    }

    // ----- life of a process

    /** What freeing some of the locations of a dead process leaves: breakpoints differ in their pointer only. */
    ghost predicate Unwinding(s: State, r: State) {
      && r == s.(locs := r.locs, bps := r.bps) && r.bps.Keys == s.bps.Keys
      && forall id :: id in s.bps ==> r.bps[id].(location := None) == s.bps[id].(location := None)
    }

    lemma UnwindOneMore(s: State, r: State, a: int)
      requires Unwinding(s, r) && Tidy(r) && r.proc.Dead?
      ensures Unwinding(s, FreeLoc(r, a)) && Tidy(FreeLoc(r, a))
    {
      FreeLocShape(r, a);
      FreeLocKeepsLinks(r, a);
    }

    lemma Unwound(s: State, r: State)
      requires Unwinding(s, r) && Linked(r) && r.locs == map[]
      ensures Cleanup(s) == r.(active := false, base := 0, hasTable := false, proc := Dead)
    {
    }

    method FreeNextLocation(a: int, ghost was: State, ghost locs: map<int, BpLocation>)
      requires Valid() && a in locations && Tidy(state) && state.proc.Dead? && Unwinding(was, state)
      requires LocsFreed(locs)
      modifies this`state, this`locations, breakpoints.Values, locations.Values, tracee
      ensures Valid() && Tidy(state) && state.proc.Dead? && Unwinding(was, state) && LocsFreed(locs)
      ensures locations.Values <= old(locations).Values && locations.Keys == old(locations).Keys - {a}
    {
      UnwindOneMore(was, state, a);
      FreeOneLocation(a, map[], locs);
    }

    /** Frees all locations of a dead process, in whatever order the map yields them. */
    method FreeLocations()
      requires Valid() && Tidy(state) && state.proc.Dead?
      modifies this`state, this`locations, breakpoints.Values, locations.Values, tracee
      ensures Valid() && Tidy(state) && Unwinding(old(state), state) && locations == map[]
      ensures LocsFreed(old(locations))
    {
      ghost var was, locs := state, locations;
      var rest := locations.Keys;
      while rest != {}
        invariant Valid() && Tidy(state) && state.proc.Dead? && Unwinding(was, state)
        invariant locations.Values <= old(locations).Values && rest == locations.Keys && LocsFreed(locs)
        decreases rest
      {
        var a := AnyOf(rest);
        FreeNextLocation(a, was, locs);
        rest := rest - {a};
      }
    }

    method CleanupAtDeath()
      requires Valid() && Tidy(state) && state.proc.Dead?
      modifies Repr()
      ensures Valid() && state == Cleanup(old(state)) && Repr() <= old(Repr())
      ensures breakpoints == old(breakpoints) && forall a :: a in old(locations) ==> !old(locations)[a].live
    {
      hide Valid;
      ghost var was := state;
      FreeLocations();
      NoLocations();
      Unwound(was, state);
      SetLife(false, 0, false, Dead);
    }

    lemma NoLocations()
      requires Valid() && locations == map[]
      ensures state.locs == map[]
    {
    }

    lemma AttachAddrs(s: State, id: nat)
      requires 0 !in s.locs && RunningAddr(s, id) != 0
      ensures 0 !in Attach(s, id).locs
      ensures forall x :: RunningAddr(Attach(s, id), x) == RunningAddr(s, x)
    {
      var a := RunningAddr(s, id);
      EnableLocShape(Linkup(s, id, a), a);
      DisableLocShape(Linkup(s, id, a), a);
    }

    lemma {:induction false} AttachEachAddrs(s: State, ids: seq<nat>)
      requires 0 !in s.locs && forall id :: id in ids ==> RunningAddr(s, id) != 0
      ensures 0 !in AttachEach(s, ids).locs
      ensures forall id :: RunningAddr(AttachEach(s, ids), id) == RunningAddr(s, id)
    {
      if ids != [] {
        assert ids == Front(ids) + [Last(ids)];
        AttachEachAddrs(s, Front(ids));
        AttachAddrs(AttachEach(s, Front(ids)), Last(ids));
      }
    }

    ghost predicate NoneAtZero(was: State, ids: seq<nat>) {
      0 !in was.locs && forall id :: id in ids ==> RunningAddr(was, id) != 0
    }

    lemma AddrsOfOneMore(was: State, bs: seq<Breakpoint>, i: nat)
      requires i < |bs| && NoneAtZero(was, Ids(bs[..i]))
      ensures var s := AttachEach(was, Ids(bs[..i]));
        0 !in s.locs && RunningAddr(s, bs[i].id) == RunningAddr(was, bs[i].id)
      ensures RunningAddr(was, bs[i].id) != 0 <==> NoneAtZero(was, Ids(bs[..i + 1]))
      ensures NoneAtZero(was, Ids(bs)) ==> NoneAtZero(was, Ids(bs[..i + 1]))
    {
      AttachEachAddrs(was, Ids(bs[..i]));
      IdsOfOneMore(bs, i);
      assert Ids(bs)[i] in Ids(bs);
    }

    method AttachAll(bs: seq<Breakpoint>) returns (ok: bool)
      requires Valid() && locations == map[] && forall b :: b in bs ==> Registers(b)
      modifies this`state, this`locations, breakpoints.Values, locations.Values, tracee
      ensures ok <==> NoneAtZero(old(state), Ids(bs))
      ensures ok ==> Valid() && state == AttachEach(old(state), Ids(bs))
      ensures fresh(locations.Values)
    {
      hide Valid;
      ghost var was := state;
      Mirrors();
      assert was.locs == map[] && Ids(bs[..0]) == [];
      for i := 0 to |bs|
        invariant Valid() && state == AttachEach(was, Ids(bs[..i])) && NoneAtZero(was, Ids(bs[..i]))
        invariant fresh(locations.Values)
      {
        ok := AttachNext(bs, i, was);
        if !ok {
          return;
        }
      }
      assert bs[..|bs|] == bs;
      ok := true;
    }

    lemma ResolveInSteps(s: State)
      requires !s.hasTable && s.locs == map[]
      ensures Resolve(s) == AttachEach(s.(hasTable := true), s.pending)
      ensures ResolveAborts(s) <==> exists id :: id in s.pending && RunningAddr(s.(hasTable := true), id) == 0
    {
    }

    method MakeTable()
      requires Valid() && !hasTable && locations == map[]
      modifies this`state, this`active, this`loadAddress, this`hasTable, tracee
      ensures Valid() && state == old(state).(hasTable := true) && state.locs == map[]
    {
      SetLife(active, loadAddress, true, tracee.proc);
    }

    /** Attaches every pending breakpoint to the fresh process. */
    method ResolvePending() returns (ok: bool)
      requires Valid() && (!hasTable ==> locations == map[])
      modifies Repr()
      ensures ok <==> !ResolveAborts(old(state))
      ensures ok ==> Valid() && state == Resolve(old(state))
      ensures breakpoints == old(breakpoints) && fresh(locations.Values - old(locations).Values)
    {
      if hasTable {
        return false;
      }
      assert state.locs == map[];
      ResolveInSteps(state);
      MakeTable();
      ok := AttachAll(pending);
    }

    method AttachNext(bs: seq<Breakpoint>, i: nat, ghost was: State) returns (ok: bool)
      requires Valid() && i < |bs| && Registers(bs[i])
      requires state == AttachEach(was, Ids(bs[..i])) && NoneAtZero(was, Ids(bs[..i]))
      modifies this`state, this`locations, breakpoints.Values, locations.Values, tracee
      ensures Valid() && fresh(locations.Values - old(locations.Values))
      ensures ok <==> NoneAtZero(was, Ids(bs[..i + 1]))
      ensures NoneAtZero(was, Ids(bs)) ==> NoneAtZero(was, Ids(bs[..i + 1]))
      ensures ok ==> state == AttachEach(was, Ids(bs[..i + 1]))
    {
      AddrsOfOneMore(was, bs, i);
      IdsOfOneMore(bs, i);
      ok := AttachBreakpoint(bs[i]);
    }

    // ----- running the process

    /** The outcome the state machine prescribes has come about. */
    ghost predicate Did(o: Outcome, v: Verdict)
      reads Repr()
    {
      match o
      case Ok(s) => v.Fine? && Valid() && state == s
      case Hung => v.StillRunning?
      case Aborted => v.AssertionFailed?
      case Dangling => v.Lost?
    }

    method SetProcess(proc: Process)
      requires Valid()
      modifies this`state, tracee
      ensures Valid() && state == old(state).(proc := proc)
    {
      hide ValidBp, ValidLoc;
      tracee.proc := proc;
      state := state.(proc := proc);
    }

    /** The loop of the hit message: it takes the first breakpoint and asserts of the others that
        they are not that one. */
    method HasReport(l: BpLocation, a: int) returns (ok: bool)
      requires Valid() && a in locations && locations[a] == l
      ensures Valid() && (ok <==> Reportable(state.locs[a]))
    {
      FieldsAt(a);
      if l.isTemp {
        return true;
      }
      var got: Breakpoint? := null;
      for i := 0 to |l.ring|
        invariant got == if i == 0 then null else l.ring[0]
        invariant forall j :: 1 <= j < i ==> l.ring[j] != l.ring[0]
      {
        if got == l.ring[i] {
          RepeatedId(l, a, i);
          return false;
        }
        if got == null {
          got := l.ring[i];
        }
      }
      UnrepeatedId(l, a);
      ok := got != null;
    }

    lemma RepeatedId(l: BpLocation, a: int, i: nat)
      requires Valid() && a in locations && locations[a] == l && 1 <= i < |l.ring| && l.ring[i] == l.ring[0]
      ensures a in state.locs && state.locs[a].ring != [] && state.locs[a].ring[0] in state.locs[a].ring[1..]
    {
      FieldsAt(a);
      var ids := state.locs[a].ring;
      assert ids[1..][i - 1] == ids[0];
    }

    lemma UnrepeatedId(l: BpLocation, a: int)
      requires Valid() && a in locations && locations[a] == l
      requires forall j :: 1 <= j < |l.ring| ==> l.ring[j] != l.ring[0]
      ensures a in state.locs && (l.ring != [] ==> state.locs[a].ring[0] !in state.locs[a].ring[1..])
    {
      FieldsAt(a);
      assert ValidLoc(a, l, state.locs[a]);
      assert forall j :: 0 <= j < |l.ring| ==> Registers(l.ring[j]);
    }

    /** Handles one wait for the process. */
    method HandleEvent(e: Event, ghost was: State) returns (v: Verdict)
      requires Valid() && Tidy(state) && was.proc.Live? && state == was.(proc := Follow(was.proc, e))
      modifies Repr()
      ensures Did(OnEvent(was, e), v) && Repr() <= old(Repr())
    {
      match e
      case Busy => v := StillRunning;
      case Gone =>
        CleanupAtDeath();
        v := Fine;
      case Stepped(cpu) => v := Fine;
      case Trapped(cpu) => v := HandleTrap(cpu, was);
    }

    /** Sets the pc back by one and reports the breakpoint there. */
    method HandleTrap(cpu: Cpu, ghost was: State) returns (v: Verdict)
      requires Valid() && was.proc.Live? && state == was.(proc := was.proc.(cpu := cpu))
      modifies this`state, tracee
      ensures Did(OnEvent(was, Trapped(cpu)), v) && Repr() == old(Repr())
    {
      hide Valid, Reportable;
      Mirrors();
      var pc := Wrap(tracee.proc.cpu.pc - 1);
      if pc !in locations {
        return AssertionFailed;
      }
      var reportable := HasReport(locations[pc], pc);
      if !reportable {
        return AssertionFailed;
      }
      SetProcess(tracee.proc.(cpu := tracee.proc.cpu.(pc := pc)));
      v := Fine;
    }

    lemma EventKeepsTidy(s: State, e: Event)
      requires Tidy(s) && s.proc.Live?
      ensures Tidy(s.(proc := Follow(s.proc, e)))
    {
    }

    lemma OtherProcessLinked(s: State, r: State)
      requires Linked(s) && r == s.(proc := r.proc)
      ensures Linked(r)
    {
    }

    method SingleStepInstruction() returns (v: Verdict)
      requires Valid() && Tidy(state) && state.proc.Live?
      modifies Repr()
      ensures Did(SingleStep(world, old(state)), v) && Repr() <= old(Repr())
    {
      ghost var was := state;
      var e := tracee.SingleStep(world.isa);
      state := state.(proc := tracee.proc);
      EventKeepsTidy(was, e);
      v := HandleEvent(e, was);
    }

    method ResumeAndWait(fuel: nat) returns (v: Verdict)
      requires Valid() && Tidy(state) && state.proc.Live?
      modifies Repr()
      ensures Did(OnEvent(old(state), RunToTrap(world.isa, old(state).proc.code, old(state).proc.cpu, fuel)), v)
      ensures Repr() <= old(Repr())
    {
      ghost var was := state;
      var e := tracee.Resume(world.isa, fuel);
      state := state.(proc := tracee.proc);
      EventKeepsTidy(was, e);
      v := HandleEvent(e, was);
    }

    lemma DisabledIsTidy(s: State, a: int)
      requires Tidy(s)
      ensures Tidy(DisableLoc(s, a))
    {
      DisableLocShape(s, a);
      forall id | id in s.bps && s.bps[id].location.Some?
        ensures PointsHome(DisableLoc(s, a), id)
      {
        assert PointsHome(s, id);
      }
    }

    method StepUnpatched(a: int) returns (v: Verdict)
      requires Valid() && Tidy(state) && state.proc.Live? && a in locations
      modifies Repr()
      ensures DisableLoc(old(state), a).proc.Live? && Did(SingleStep(world, DisableLoc(old(state), a)), v)
      ensures Repr() <= old(Repr())
    {
      hide Valid;
      DisableLocShape(state, a);
      DisabledIsTidy(state, a);
      DisableLocation(a);
      v := SingleStepInstruction();
    }

    /** The patch is put back, unless the process has ended: its locations are freed then. */
    method Repatch(a: int, v: Verdict, ghost o: Outcome) returns (v': Verdict)
      requires Did(o, v) && (o.Ok? && o.s.active ==> a in o.s.locs)
      modifies Repr()
      ensures Did(Repatched(o, a), v') && Repr() <= old(Repr())
    {
      v' := v;
      if v.Fine? {
        if !active {
          return Lost;
        }
        EnableLocation(a);
      }
    }

    /** Takes the patch at `a` away for one instruction. */
    method StepOffPatch(a: int) returns (v: Verdict)
      requires Valid() && Tidy(state) && state.proc.Live? && a in locations && state.locs[a].patched
      modifies Repr()
      ensures Did(StepOverLoc(world, old(state), a), v) && Repr() <= old(Repr())
    {
      DisableLocShape(state, a);
      ghost var o := SingleStep(world, DisableLoc(state, a));
      v := StepUnpatched(a);
      v := Repatch(a, v, o);
    }

    method StepOverLocation(a: int) returns (v: Verdict)
      requires Valid() && Tidy(state) && state.proc.Live?
      modifies Repr()
      ensures Did(StepOverLoc(world, old(state), a), v) && Repr() <= old(Repr())
    {
      v := Fine;
      if a in locations {
        FieldsAt(a);
        if locations[a].patched {
          v := StepOffPatch(a);
        }
      }
    }

    lemma FieldsAt(a: int)
      requires Valid() && a in locations
      ensures a in state.locs && state.locs[a] == AbsLoc(locations[a]) && locations[a].runningAddr == a
    {
    }

    /** What a step over a location leaves of the process is fit for the next event. */
    lemma StepOverIsTidy(s: State, a: int)
      requires Tidy(s) && s.proc.Live?
      ensures StepOverLoc(world, s, a).Ok? ==> Tidy(StepOverLoc(world, s, a).s)
    {
      if a in s.locs && s.locs[a].patched {
        var d := DisableLoc(s, a);
        DisabledIsTidy(s, a);
        match SingleStep(world, d)
        case Ok(s1) =>
          if s1.active {
            OtherProcessLinked(d, s1);
            EnabledIsTidy(s1, a);
          }
        case other =>
      }
    }

    lemma EnabledIsTidy(s: State, a: int)
      requires Tidy(s)
      ensures Tidy(EnableLoc(s, a))
    {
      EnableLocShape(s, a);
      forall id | id in s.bps && s.bps[id].location.Some?
        ensures PointsHome(EnableLoc(s, a), id)
      {
        assert PointsHome(s, id);
      }
    }

    method ContinueExecution(fuel: nat) returns (v: Verdict)
      requires Valid() && Tidy(state) && state.proc.Live?
      modifies Repr()
      ensures Did(Continue(world, old(state), fuel), v) && Repr() <= old(Repr())
    {
      var pc := tracee.proc.cpu.pc;
      var over := IsPatched(pc);
      if over && fuel == 0 {
        return StillRunning;
      }
      StepOverIsTidy(state, pc);
      v := StepOverLocation(pc);
      if v.Fine? {
        if tracee.proc.Dead? {
          return Lost;
        }
        v := ResumeAndWait(if over then fuel - 1 else fuel);
      }
    }

    method IsPatched(a: int) returns (patched: bool)
      requires Valid()
      ensures patched <==> a in state.locs && state.locs[a].patched
    {
      if a in locations {
        FieldsAt(a);
        patched := locations[a].patched;
      } else {
        patched := false;
      }
    }

    method StepOneInstruction() returns (v: Verdict)
      requires Valid() && Tidy(state) && state.proc.Live?
      modifies Repr()
      ensures Did(StepInstruction(world, old(state)), v) && Repr() <= old(Repr())
    {
      var pc := tracee.proc.cpu.pc;
      if pc in locations {
        v := StepOverLocation(pc);
      } else {
        v := SingleStepInstruction();
      }
    }

    lemma StepInstructionIsTidy(s: State)
      requires Tidy(s) && s.proc.Live?
      ensures var o := StepInstruction(world, s); o.Ok? && o.s.proc.Live? ==> Tidy(o.s)
    {
      if s.proc.cpu.pc in s.locs {
        StepOverIsTidy(s, s.proc.cpu.pc);
      } else {
        var o := SingleStep(world, s);
        if o.Ok? && o.s.proc.Live? {
          OtherProcessLinked(s, o.s);
        }
      }
    }

    /** `step` has still to go from here, within `left` instructions, to come to the outcome `all`. */
    ghost predicate Going(line: int, left: nat, all: Outcome, repr: set<object>)
      reads Repr()
    {
      && Valid() && Tidy(state) && state.proc.Live? && Repr() <= repr
      && StepWhile(world, state, line, left) == all
    }

    /** Either the process is still on the line, or the command has ended with `v`. */
    ghost predicate Looping(on: bool, v: Verdict, line: int, left: nat, all: Outcome, repr: set<object>)
      reads Repr()
    {
      if on then Going(line, left, all, repr) && CurrentLine(world, state) == line else Did(all, v) && Repr() <= repr
    }

    method IsOnLine(line: int, left: nat, ghost all: Outcome, ghost repr: set<object>) returns (on: bool)
      requires Going(line, left, all, repr)
      ensures Looping(on, Fine, line, left, all, repr)
    {
      on := world.line(tracee.proc.cpu.pc, loadAddress) == line;
    }

    /** The body of the loop of `step`, and the test for the next round. */
    method StepRound(line: int, left: nat, ghost all: Outcome, ghost repr: set<object>)
      returns (on: bool, v: Verdict, left': nat)
      requires Looping(true, Fine, line, left, all, repr)
      modifies repr
      ensures Looping(on, v, line, left', all, repr) && (on ==> left' < left)
    {
      if left == 0 {
        return false, StillRunning, 0;
      }
      left' := left - 1;
      StepInstructionIsTidy(state);
      v := StepOneInstruction();
      if !v.Fine? {
        return false, v, left';
      }
      if tracee.proc.Dead? {
        return false, Lost, left';
      }
      on := IsOnLine(line, left', all, repr);
    }

    method StepLoop(line: int, fuel: nat, ghost all: Outcome, ghost repr: set<object>) returns (v: Verdict)
      requires Going(line, fuel, all, repr)
      modifies repr
      ensures Looping(false, v, line, 0, all, repr)
    {
      var left := fuel;
      v := Fine;
      var on := IsOnLine(line, left, all, repr);
      while on
        invariant Looping(on, v, line, left, all, repr)
        decreases if on then left + 1 else 0
      {
        on, v, left := StepRound(line, left, all, repr);
      }
    }

    /** Stepping until the source line changes. */
    method StepToOtherLine(fuel: nat) returns (v: Verdict)
      requires Valid() && Tidy(state) && state.proc.Live?
      modifies Repr()
      ensures Did(StepIn(world, old(state), fuel), v) && Repr() <= old(Repr())
    {
      var line := world.line(tracee.proc.cpu.pc, loadAddress);
      if line == 0 {
        return Fine;
      }
      v := StepLoop(line, fuel, StepIn(world, state, fuel), Repr());
    }

    // ----- temporary locations

    lemma PatchedAndRestored(p: Process, a: int)
      ensures WriteByte(WriteByte(p, a, INT3), a, ReadByte(p, a)) == p
      ensures WriteByte(p, a, INT3).Live? == p.Live?
    {
    }

    /** A refused temporary location: it patches and, freed again, restores, which is no change. */
    method TryTempOver(a: int) returns (l: BpLocation)
      requires Valid() && a != 0
      modifies tracee
      ensures Valid() && tracee.proc == old(tracee.proc) && fresh(l) && !l.live
    {
      PatchedAndRestored(tracee.proc, a);
      l := new BpLocation(tracee, a, true);
      l.Enable();
      l.Disable();
      l.Free();
    }

    /** A temporary location at `a`, unless there is one there; a location at 0 cannot be made. */
    method SetTempLocation(a: int) returns (placed: bool)
      requires Valid() && Tidy(state) && a != 0
      modifies this`state, this`locations, tracee
      ensures Valid() && Tidy(state) && state == SetTemp(old(state), a) && placed == (a !in old(state).locs)
      ensures state.proc.Live? == old(state).proc.Live? && fresh(locations.Values - old(locations).Values)
    {
      hide Valid, Tidy;
      Mirrors();
      SetTempIsTidy(state, a);
      placed := a !in locations;
      if placed {
        var l := NewLocation(a, true);
        EnableLocation(a);
      } else {
        var _ := TryTempOver(a);
      }
    }

    /** Drops the temporary locations again. */
    method UnsetTempLocations(addrs: array<int>, n: nat)
      requires Valid() && Tidy(state) && n <= addrs.Length
      modifies this`state, this`locations, breakpoints.Values, locations.Values, tracee
      ensures Valid() && state == UnsetEach(old(state), addrs[..n]) && locations.Values <= old(locations).Values
      ensures LocsFreed(old(locations)) && forall i :: 0 <= i < n ==> addrs[i] !in locations
    {
      hide Valid, Tidy, LocsFreed;
      ghost var was, locs := state, locations;
      NothingFreed();
      for i := 0 to n
        invariant Valid() && Tidy(state) && state == UnsetEach(was, addrs[..i])
        invariant locations.Values <= old(locations).Values
        invariant LocsFreed(locs) && forall j :: 0 <= j < i ==> addrs[j] !in locations
      {
        UnsetNext(addrs[..], i, was, locs, addrs[i]);
      }
    }

    method UnsetNext(ghost addrs: seq<int>, ghost i: nat, ghost was: State, ghost locs: map<int, BpLocation>, a: int)
      requires Valid() && Tidy(state) && i < |addrs| && addrs[i] == a && state == UnsetEach(was, addrs[..i])
      requires LocsFreed(locs)
      modifies this`state, this`locations, breakpoints.Values, locations.Values, tracee
      ensures Valid() && Tidy(state) && state == UnsetEach(was, addrs[..i + 1])
      ensures locations.Values <= old(locations).Values && locations == old(locations) - {a} && LocsFreed(locs)
    {
      assert Front(addrs[..i + 1]) == addrs[..i] && Last(addrs[..i + 1]) == a;
      FreeLocIsTidy(state, a);
      FreeOneLocation(a, map[], locs);
    }

    lemma FreeLocIsTidy(s: State, a: int)
      requires Tidy(s)
      ensures Tidy(FreeLoc(s, a))
    {
      FreeLocShape(s, a);
      FreeLocKeepsLinks(s, a);
    }

    lemma ContinueIsTidy(s: State, fuel: nat)
      requires Tidy(s) && s.proc.Live?
      ensures var o := Continue(world, s, fuel); o.Ok? && o.s.active ==> Tidy(o.s)
    {
      StepOverIsTidy(s, s.proc.cpu.pc);
      var o, m := Continue(world, s, fuel), StepOverLoc(world, s, s.proc.cpu.pc);
      if o.Ok? && o.s.active {
        OtherProcessLinked(m.s, o.s);
      }
    }

    lemma SetTempIsTidy(s: State, a: int)
      requires Tidy(s)
      ensures Tidy(SetTemp(s, a))
    {
      if a !in s.locs {
        var s1 := s.(locs := s.locs[a := Loc(true, false, 0, [])]);
        forall id | id in s1.bps && s1.bps[id].location.Some?
          ensures PointsHome(s1, id)
        {
          assert PointsHome(s, id);
        }
        EnabledIsTidy(s1, a);
      }
    }

    /** Drops the temporary locations after the process has run; that asserts the process alive. */
    method UnsetWhenBack(v: Verdict, addrs: array<int>, n: nat, ghost o: Outcome) returns (v': Verdict)
      requires Did(o, v) && (o.Ok? && o.s.active ==> Tidy(o.s)) && n <= addrs.Length
      modifies Repr()
      ensures Did(UnsetAfter(o, addrs[..n]), v') && Repr() <= old(Repr())
    {
      v' := v;
      if v.Fine? && n > 0 {
        if !active {
          return AssertionFailed;
        }
        UnsetTempLocations(addrs, n);
      }
    }

    method ContinueThenUnset(addrs: array<int>, n: nat, fuel: nat) returns (v: Verdict)
      requires Valid() && Tidy(state) && state.proc.Live? && n <= addrs.Length
      modifies Repr()
      ensures Did(ContinueAndUnset(world, old(state), addrs[..n], fuel), v) && Repr() <= old(Repr())
    {
      ghost var o := Continue(world, state, fuel);
      ContinueIsTidy(state, fuel);
      v := ContinueExecution(fuel);
      v := UnsetWhenBack(v, addrs, n, o);
    }

    method RunWithTemps(addrs: array<int>, n: nat, ghost temps: seq<int>, fuel: nat, ghost all: Outcome)
      returns (v: Verdict)
      requires Valid() && Tidy(state) && state.proc.Live? && n <= addrs.Length && addrs[..n] == temps
      requires ContinueAndUnset(world, state, temps, fuel) == all
      modifies Repr()
      ensures Did(all, v) && Repr() <= old(Repr())
    {
      hide Valid;
      v := ContinueThenUnset(addrs, n, fuel);
    }

    /** Drops the temporary location at the return address, if it was put in, after the process has
        run; that asserts the process alive. */
    method UnsetReturn(v: Verdict, ret: int, placed: bool, ghost o: Outcome) returns (v': Verdict)
      requires Did(o, v) && (o.Ok? && o.s.active ==> Tidy(o.s))
      modifies Repr()
      ensures Did(UnsetAfter(o, if placed then [ret] else []), v') && Repr() <= old(Repr())
    {
      v' := v;
      if v.Fine? && placed {
        if !active {
          return AssertionFailed;
        }
        assert UnsetEach(state, [ret]) == FreeLoc(state, ret) by {
          assert Front([ret]) == [];
        }
        FreeLocation(ret);
      }
    }

    method RunToReturn(ret: int, fuel: nat, ghost all: Outcome) returns (v: Verdict)
      requires Valid() && Tidy(state) && state.proc.Live? && ret != 0 && SetTemp(state, ret).proc.Live?
      requires ContinueAndUnset(world, SetTemp(state, ret), if ret in state.locs then [] else [ret], fuel) == all
      modifies Repr()
      ensures Did(all, v) && fresh(Repr() - old(Repr()))
    {
      hide Valid, Tidy;
      var placed := SetTempLocation(ret);
      ghost var o := Continue(world, state, fuel);
      ContinueIsTidy(state, fuel);
      v := ContinueExecution(fuel);
      v := UnsetReturn(v, ret, placed, o);
    }

    /** Running to the return address of the current function. */
    method StepOut(fuel: nat) returns (v: Verdict)
      requires Valid() && Tidy(state) && state.proc.Live?
      modifies Repr()
      ensures Did(Finish(world, old(state), fuel), v) && fresh(Repr() - old(Repr()))
    {
      var ret := ReturnTarget(tracee.proc.cpu);
      if ret == 0 {
        return AssertionFailed;
      }
      v := RunToReturn(ret, fuel, Finish(world, state, fuel));
    }

    // ----- next

    /** The addresses to delete, in a buffer with room for two more. */
    ghost predicate Collected(addrs: array<int>, n: nat, sc: Scan)
      reads Repr(), addrs
    {
      Valid() && Tidy(state) && n + 1 < addrs.Length && sc == Scan(state, addrs[..n])
    }

    /** Grows the buffer when there is room for one more only. */
    method Grown(addrs: array<int>, n: nat) returns (r: array<int>)
      requires n < addrs.Length && 2 <= addrs.Length
      ensures n + 1 < r.Length && r[..n] == addrs[..n] && (r == addrs || fresh(r))
    {
      r := addrs;
      if n >= addrs.Length - 1 {
        r := new int[2 * addrs.Length];
        for i := 0 to addrs.Length
          invariant r[..i] == addrs[..i]
        {
          r[i] := addrs[i];
        }
        assert r[..n] == r[..addrs.Length][..n] == addrs[..n];
      }
    }

    method Store(addrs: array<int>, n: nat, a: int)
      requires n < addrs.Length
      modifies addrs
      ensures addrs[..n + 1] == old(addrs[..n]) + [a]
    {
      addrs[n] := a;
    }

    method Collect(addrs: array<int>, n: nat, a: int) returns (addrs': array<int>, n': nat)
      requires n + 1 < addrs.Length
      modifies addrs
      ensures n' + 1 < addrs'.Length && addrs'[..n'] == old(addrs[..n]) + [a] && (addrs' == addrs || fresh(addrs'))
    {
      Store(addrs, n, a);
      n' := n + 1;
      addrs' := Grown(addrs, n');
    }

    method Place(addrs: array<int>, n: nat, a: int, ghost sc: Scan) returns (addrs': array<int>, n': nat)
      requires Collected(addrs, n, sc) && a != 0
      modifies this`state, this`locations, tracee, addrs
      ensures Collected(addrs', n', Placed(sc, a)) && (addrs' == addrs || fresh(addrs'))
      ensures fresh(locations.Values - old(locations).Values)
    {
      addrs', n' := addrs, n;
      var placed := SetTempLocation(a);
      if placed {
        addrs', n' := Collect(addrs, n, a);
      }
    }

    /** The scan has collected `sc`, in locations among `known`, and has still to go from `pc` to
        come to `all`. */
    ghost predicate Scanning(addrs: array<int>, n: nat, sc: Scan, pc: int, end: Addr, line: int, all: Scan,
                             known: set<BpLocation>)
      reads Repr(), addrs
    {
      && locations.Values <= known && Collected(addrs, n, sc) && state.proc.Live?
      && 0 <= pc && (pc == 0 && pc < end ==> world.line(pc, loadAddress) == line)
      && ScanLines(world, sc, pc, end, line) == all
    }

    lemma ScanDone(addrs: array<int>, n: nat, sc: Scan, pc: int, end: Addr, line: int, all: Scan,
                   known: set<BpLocation>)
      requires Scanning(addrs, n, sc, pc, end, line, all, known) && pc >= end
      ensures Scanned(addrs, n, all, known)
    {
    }

    /** The scan has come to `sc`. */
    ghost predicate Scanned(addrs: array<int>, n: nat, sc: Scan, known: set<BpLocation>)
      reads Repr(), addrs
    {
      locations.Values <= known && Collected(addrs, n, sc) && state.proc.Live?
    }

    /** The body of the scan at one address. */
    method ScanNext(addrs: array<int>, n: nat, pc: int, end: Addr, line: int, ghost sc: Scan, ghost all: Scan,
                    ghost known: set<BpLocation>)
      returns (addrs': array<int>, n': nat, line': int, ghost sc': Scan, ghost known': set<BpLocation>)
      requires Scanning(addrs, n, sc, pc, end, line, all, known) && pc < end
      modifies this`state, this`locations, tracee, addrs
      ensures Scanning(addrs', n', sc', pc + 1, end, line', all, known') && (addrs' == addrs || fresh(addrs'))
      ensures fresh(known' - known)
    {
      addrs', n' := addrs, n;
      line' := world.line(pc, loadAddress);
      sc' := ScanStep(world, sc, pc, line);
      if line' != line {
        addrs', n' := Place(addrs, n, pc, sc);
      }
      known' := known + locations.Values;
    }

    method StartScan(start: Addr, end: Addr, line: int, ghost all: Scan) returns (addrs: array<int>)
      requires Valid() && Tidy(state) && state.proc.Live? && line == world.line(start, loadAddress)
      requires ScanLines(world, Scan(state, []), start, end, line) == all
      ensures fresh(addrs) && Scanning(addrs, 0, Scan(state, []), start, end, line, all, locations.Values)
    {
      addrs := new int[100];
      assert addrs[..0] == [];
    }

    /** Looks at every address from `start` to the end of the function and collects line starts. */
    method ScanFunction(start: Addr, end: Addr, line: int, ghost all: Scan)
      returns (addrs: array<int>, n: nat, ghost known: set<BpLocation>)
      requires Valid() && Tidy(state) && state.proc.Live? && line == world.line(start, loadAddress)
      requires ScanLines(world, Scan(state, []), start, end, line) == all
      modifies this`state, this`locations, tracee
      ensures Scanned(addrs, n, all, known)
      ensures fresh(addrs) && fresh(known - old(locations).Values)
    {
      hide *;
      ghost var sc := Scan(state, []);
      addrs := StartScan(start, end, line, all);
      n, known := 0, locations.Values;
      var pc: int, currentLine := start, line;
      while pc < end
        invariant Scanning(addrs, n, sc, pc, end, currentLine, all, known) && fresh(addrs)
        invariant fresh(known - old(locations).Values)
        decreases end - pc
      {
        addrs, n, currentLine, sc, known := ScanNext(addrs, n, pc, end, currentLine, sc, all, known);
        pc := pc + 1;
      }
      ScanDone(addrs, n, sc, pc, end, currentLine, all, known);
    }

    /** The temporary locations of `sc` are in place and their addresses in the buffer. */
    ghost predicate Ready(addrs: array<int>, n: nat, sc: Scan, known: set<BpLocation>)
      reads Repr(), addrs
    {
      && Valid() && Tidy(state) && state.proc.Live? && locations.Values <= known
      && n <= addrs.Length && sc == Scan(state, addrs[..n])
    }

    /** Outside main, the return address goes into the buffer without another look at its capacity. */
    method PlaceReturn(addrs: array<int>, n: nat, f: Func, ret: int, ghost sc: Scan, ghost known: set<BpLocation>)
      returns (n': nat, ghost known': set<BpLocation>)
      requires Scanned(addrs, n, sc, known)
      requires f.name != "main" ==> ret != 0
      modifies this`state, this`locations, tracee, addrs
      ensures Ready(addrs, n', if f.name != "main" then Placed(sc, ret) else sc, known') && fresh(known' - known)
    {
      n' := n;
      if f.name != "main" {
        var placed := SetTempLocation(ret);
        if placed {
          Store(addrs, n, ret);
          n' := n + 1;
        }
      }
      known' := known + locations.Values;
    }

    method PlaceTargets(pc: Addr, end: Addr, line: int, f: Func, ret: int, ghost lines: Scan, ghost sc: Scan)
      returns (addrs: array<int>, n: nat, ghost known: set<BpLocation>)
      requires Valid() && Tidy(state) && state.proc.Live? && line == world.line(pc, loadAddress)
      requires ScanLines(world, Scan(state, []), pc, end, line) == lines
      requires f.name != "main" ==> ret != 0
      requires sc == if f.name != "main" then Placed(lines, ret) else lines
      modifies this`state, this`locations, tracee
      ensures Ready(addrs, n, sc, known)
      ensures fresh(addrs) && fresh(known - old(locations).Values)
    {
      addrs, n, known := ScanFunction(pc, end, line, lines);
      n, known := PlaceReturn(addrs, n, f, ret, lines, known);
    }

    method RunToTargets(f: Func, ghost sc: Scan, fuel: nat, ghost all: Outcome) returns (v: Verdict)
      requires Valid() && Tidy(state) && state.proc.Live? && sc == Targets(world, state, f)
      requires f.name != "main" ==> ReturnTarget(state.proc.cpu) != 0
      requires sc.s.proc.Live? && ContinueAndUnset(world, sc.s, sc.temps, fuel) == all
      modifies Repr()
      ensures Did(all, v) && fresh(Repr() - old(Repr()))
    {
      var cpu := tracee.proc.cpu;
      var end, line := Wrap(f.high + loadAddress), world.line(cpu.pc, loadAddress);
      ghost var known;
      var addrs, n;
      addrs, n, known := PlaceTargets(cpu.pc, end, line, f, ReturnTarget(cpu),
                                      ScanLines(world, Scan(state, []), cpu.pc, end, line), sc);
      v := RunWithTemps(addrs, n, sc.temps, fuel, all);
    }

    /** Running to the next source line of this function or its caller, or to a breakpoint. */
    method StepOver(fuel: nat) returns (v: Verdict)
      requires Valid() && Tidy(state) && state.proc.Live?
      modifies Repr()
      ensures Did(Next(world, old(state), fuel), v) && fresh(Repr() - old(Repr()))
    {
      var cpu := tracee.proc.cpu;
      match world.func(cpu.pc, loadAddress)
      case None => v := Fine;
      case Some(f) =>
        if world.line(cpu.pc, loadAddress) == 0 || (f.name != "main" && ReturnTarget(cpu) == 0) {
          return AssertionFailed;
        }
        v := RunToTargets(f, Targets(world, state, f), fuel, Next(world, state, fuel));
    }

    // ----- commands that start and end a process

    /** The process is killed and its locations are freed. */
    method KillTracee()
      requires Valid() && Tidy(state)
      modifies Repr()
      ensures Valid() && state == Cleanup(old(state)) && Repr() <= old(Repr())
      ensures breakpoints == old(breakpoints) && forall a :: a in old(locations) ==> !old(locations)[a].live
    {
      OtherProcessLinked(state, state.(proc := Dead));
      SetProcess(Dead);
      CleanupAtDeath();
    }

    /** Starts a process: loads it, resolves the pending breakpoints, and lets it run. */
    method SpawnTracee(prog: Program, fuel: nat) returns (v: Verdict)
      requires Valid() && Inv(state) && !active
      modifies Repr()
      ensures Did(Sessions.Launch(world, old(state), prog, fuel), v) && fresh(Repr() - old(Repr()))
    {
      hide Valid, Inv, Tidy;
      ghost var was := state;
      Mirrors();
      EmptyWhenIdle(state);
      SetLife(true, prog.base, hasTable, Live(prog.entry, prog.image, prog.image));
      var ok := ResolvePending();
      if !ok {
        return AssertionFailed;
      }
      ResolvedIsTidy(was, prog);
      v := ContinueExecution(fuel);
    }

    lemma EmptyWhenIdle(s: State)
      requires Inv(s) && !s.active
      ensures !s.hasTable && s.locs == map[]
    {
    }

    lemma ResolvedIsTidy(s: State, prog: Program)
      requires Inv(s) && !s.active && !ResolveAborts(Loaded(s, prog))
      ensures Tidy(Resolve(Loaded(s, prog))) && Resolve(Loaded(s, prog)).proc.Live?
    {
      ResolveGroups(s, prog);
    }

    /** Kills the process and starts a new one. */
    method RestartTracee(prog: Program, fuel: nat) returns (v: Verdict)
      requires Valid() && Inv(state)
      modifies Repr()
      ensures Did(Sessions.Launch(world, Cleanup(old(state)), prog, fuel), v) && fresh(Repr() - old(Repr()))
    {
      hide Valid;
      InvIsTidy(state);
      CleanupKeepsInv(state);
      KillTracee();
      Mirrors();
      v := SpawnTracee(prog, fuel);
    }

    lemma InvIsTidy(s: State)
      requires Inv(s)
      ensures Tidy(s)
    {
    }
  }
}
