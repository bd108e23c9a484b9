/** Breakpoint transparency: what the process does under the debugger is what it does natively. */
module Transparency {
  import opened Memory
  import opened Machine
  import opened Sequences
  import opened Model
  import opened Invariants

  /** The same engine state, with the process at another point of its run. */
  function At(s: State, cpu: Cpu): State
    requires s.proc.Live?
  {
    s.(proc := s.proc.(cpu := cpu))
  }

  function Stops(s: State): set<int>
    requires s.proc.Live?
  {
    Armed(s.locs, s.proc.image)
  }

  /** The process runs an instruction set whose decoder looks no further than an instruction, and
      its native run, for `n` instructions from here or until it is at one of `halts` again, executes
      no int3 of its own and no instruction with one of `sites` strictly inside. */
  ghost predicate Undisturbed(w: World, s: State, sites: set<int>, halts: set<int>, n: nat)
    requires s.proc.Live?
  {
    PrefixDecoder(w.isa) && CleanRun(w.isa, s.proc.image, sites, halts, s.proc.cpu, n)
  }

  /** The same, for a command that lets the process run until it is at one of the patched addresses. */
  ghost predicate UndisturbedTo(w: World, s: State, stops: set<int>, n: nat)
    requires s.proc.Live?
  {
    Undisturbed(w, s, stops, stops, n)
  }

  function Native(w: World, s: State, k: nat): Option<Cpu>
    requires s.proc.Live?
  {
    NativeRun(w.isa, s.proc.image, s.proc.cpu, k)
  }

  // ----- one step over a location

  /** Removing a patch and putting it back is no change, wherever the process has got to in between. */
  lemma UnpatchRepatch(s: State, a: int, cpu: Cpu)
    requires Overlay(s.locs, s.proc) && s.proc.Live? && a in s.locs && s.locs[a].patched
    ensures DisableLoc(s, a).proc.Live?
    ensures EnableLoc(At(DisableLoc(s, a), cpu), a) == At(s, cpu)
  {
    var d := DisableLoc(s, a);
    var r := EnableLoc(At(d, cpu), a);
    assert a in Stops(s) <==> Readable(s.proc.image.Keys, a);
    assert r.locs == s.locs;
    assert r.proc.code == s.proc.code;
  }

  lemma UnpatchedStepIsNative(w: World, s: State, a: int)
    requires Overlay(s.locs, s.proc) && s.proc.Live? && a in s.locs && s.locs[a].patched
    requires a == s.proc.cpu.pc && PrefixDecoder(w.isa) && Clean(w.isa, s.proc.image, Stops(s), s.proc.cpu)
    ensures DisableLoc(s, a).proc.Live? && DisableLoc(s, a).proc.cpu == s.proc.cpu
    ensures HardwareStep(w.isa, DisableLoc(s, a).proc.code, s.proc.cpu) ==
      match NativeStep(w.isa, s.proc.image, s.proc.cpu) case Exited => Gone case Ran(next) => Stepped(next)
  {
    var d := DisableLoc(s, a);
    DisableLocShape(s, a);
    DisableLocKeepsOverlay(s, a);
    ArmedAfterUpdate(s.locs, s.proc.image, a, d.locs[a]);
    PatchedStepIsNative(w.isa, d.proc.code, s.proc.image, Stops(d), s.proc.cpu);
  }

  /** Stepping over a patched location: one native step, and the patch is back. */
  lemma StepOverIsNative(w: World, s: State, a: int)
    requires Running(s) && s.active && a in s.locs && s.locs[a].patched
    requires a == s.proc.cpu.pc && PrefixDecoder(w.isa) && Clean(w.isa, s.proc.image, Stops(s), s.proc.cpu)
    ensures StepOverLoc(w, s, a) ==
      match NativeStep(w.isa, s.proc.image, s.proc.cpu) case Exited => Dangling case Ran(next) => Ok(At(s, next))
  {
    UnpatchedStepIsNative(w, s, a);
    DisableLocShape(s, a);
    match NativeStep(w.isa, s.proc.image, s.proc.cpu)
    case Exited =>
    case Ran(next) => UnpatchRepatch(s, a, next);
  }

  // ----- stepi

  /** `stepi` is one native step, except at an unpatched location, where it does nothing. */
  lemma StepInstructionIsNative(w: World, s: State)
    requires Running(s) && s.active && PrefixDecoder(w.isa)
    requires Clean(w.isa, s.proc.image, Stops(s), s.proc.cpu)
    ensures var pc := s.proc.cpu.pc;
      StepInstruction(w, s) ==
        if pc in s.locs && !s.locs[pc].patched then Ok(s)
        else
          match NativeStep(w.isa, s.proc.image, s.proc.cpu)
          case Exited => if pc in s.locs then Dangling else Ok(Cleanup(s))
          case Ran(next) => Ok(At(s, next))
  {
    var pc := s.proc.cpu.pc;
    if pc in s.locs && s.locs[pc].patched {
      StepOverIsNative(w, s, pc);
    } else {
      PatchedStepIsNative(w.isa, s.proc.code, s.proc.image, Stops(s), s.proc.cpu);
    }
  }

  // ----- continue

  lemma FirstIsNotRepeated(ring: seq<nat>)
    requires Distinct(ring) && ring != []
    ensures ring[0] !in ring[1..]
  {
    forall j | 1 <= j < |ring|
      ensures ring[j] != ring[0]
    {
      DistinctIndices(ring, 0, j);
    }
  }

  /** A trap at a patched location is rewound to it and passes the checks of the hit message. */
  lemma TrapIsRewound(s: State, cpu: Cpu)
    requires Running(s) && s.active && cpu.pc in Stops(s)
    ensures OnEvent(s, Trapped(cpu.(pc := Wrap(cpu.pc + 1)))) == Ok(At(s, cpu))
  {
    assert Justified(s.locs[cpu.pc]);
    if !s.locs[cpu.pc].isTemp {
      FirstIsNotRepeated(s.locs[cpu.pc].ring);
    }
  }

  /** What a sighting of the native run means for the engine. */
  function AtSighting(s: State, sighting: Sighting): Outcome
    requires s.proc.Live?
  {
    match sighting
    case Hit(c) => Ok(At(s, c))
    case Ended => Ok(Cleanup(s))
    case NotYet => Hung
  }

  lemma RunIsWatch(w: World, s: State, fuel: nat)
    requires Running(s) && s.active && PrefixDecoder(w.isa)
    requires s.proc.cpu.pc in Stops(s) || UndisturbedTo(w, s, Stops(s), fuel)
    ensures OnEvent(s, RunToTrap(w.isa, s.proc.code, s.proc.cpu, fuel)) ==
      AtSighting(s, Watch(w.isa, s.proc.image, Stops(s), s.proc.cpu, fuel))
  {
    PatchedRunIsWatch(w.isa, s.proc.code, s.proc.image, Stops(s), s.proc.cpu, fuel);
    WatchStops(w.isa, s.proc.image, Stops(s), s.proc.cpu, fuel);
    match Watch(w.isa, s.proc.image, Stops(s), s.proc.cpu, fuel)
    case Hit(c) => TrapIsRewound(s, c);
    case Ended =>
    case NotYet =>
  }

  lemma {:induction false} WatchStops(isa: Isa, image: Mem, stops: set<int>, cpu: Cpu, fuel: nat)
    ensures var r := Watch(isa, image, stops, cpu, fuel); r.Hit? ==> r.cpu.pc in stops
    decreases fuel
  {
    if cpu.pc !in stops && fuel > 0 {
      match NativeStep(isa, image, cpu)
      case Exited =>
      case Ran(next) => WatchStops(isa, image, stops, next, fuel - 1);
    }
  }

  /** What `continue` has to do, told of the native run alone: stop at its first state, after at
      least one instruction, whose pc is a patched address. */
  function ContinueReference(w: World, s: State, stops: set<int>, fuel: nat): Outcome
    requires s.proc.Live?
  {
    match FirstStop(w.isa, s.proc.image, stops, s.proc.cpu, fuel)
    case Hit(c) => Ok(At(s, c))
    case NotYet => Hung
    case Ended =>
      if StepsOver(s) && NativeStep(w.isa, s.proc.image, s.proc.cpu).Exited? then Dangling else Ok(Cleanup(s))
  }

  predicate StepsOver(s: State)
    requires s.proc.Live?
  {
    s.proc.cpu.pc in s.locs && s.locs[s.proc.cpu.pc].patched
  }

  lemma ContinueGoesOn(w: World, s: State, s1: State, fuel: nat)
    requires s.proc.Live? && StepsOver(s) && fuel > 0 && s1.proc.Live?
    requires StepOverLoc(w, s, s.proc.cpu.pc) == Ok(s1)
    ensures Continue(w, s, fuel) == OnEvent(s1, RunToTrap(w.isa, s1.proc.code, s1.proc.cpu, fuel - 1))
  {
  }

  lemma RunFromNext(w: World, s: State, next: Cpu, fuel: nat)
    requires Running(s) && s.active && UndisturbedTo(w, s, Stops(s), fuel) && fuel > 0
    requires NativeStep(w.isa, s.proc.image, s.proc.cpu) == Ran(next)
    ensures OnEvent(At(s, next), RunToTrap(w.isa, s.proc.code, next, fuel - 1)) ==
      AtSighting(s, FirstStop(w.isa, s.proc.image, Stops(s), s.proc.cpu, fuel))
  {
    CpuKeepsRunning(s, next);
    RunIsWatch(w, At(s, next), fuel - 1);
    assert Cleanup(At(s, next)) == Cleanup(s);
  }

  lemma ContinueOverPatch(w: World, s: State, fuel: nat)
    requires Running(s) && s.active && UndisturbedTo(w, s, Stops(s), fuel) && StepsOver(s) && fuel > 0
    ensures Continue(w, s, fuel) == ContinueReference(w, s, Stops(s), fuel)
  {
    StepOverIsNative(w, s, s.proc.cpu.pc);
    match NativeStep(w.isa, s.proc.image, s.proc.cpu)
    case Exited =>
    case Ran(next) =>
      RunFromNext(w, s, next, fuel);
      ContinueGoesOn(w, s, At(s, next), fuel);
  }

  lemma ContinueStraight(w: World, s: State, fuel: nat)
    requires Running(s) && s.active && UndisturbedTo(w, s, Stops(s), fuel) && !StepsOver(s)
    ensures Continue(w, s, fuel) == ContinueReference(w, s, Stops(s), fuel)
  {
    assert s.proc.cpu.pc !in Stops(s);
    RunIsWatch(w, s, fuel);
  }

  /** `continue` ends, pc rewound, in exactly the first native successor that is at a patched
      address, with breakpoints, locations, patches and code unchanged. */
  lemma ContinueIsNative(w: World, s: State, fuel: nat)
    requires Running(s) && s.active && UndisturbedTo(w, s, Stops(s), fuel)
    ensures Continue(w, s, fuel) == ContinueReference(w, s, Stops(s), fuel)
  {
    if !StepsOver(s) {
      ContinueStraight(w, s, fuel);
    } else if fuel > 0 {
      ContinueOverPatch(w, s, fuel);
    }
  }

  /** The same, counted: if the native run first meets a patched address after `k` instructions,
      that is where a budget of `k` or more takes `continue`. */
  lemma ContinueEndsAtFirstStop(w: World, s: State, k: nat, fuel: nat)
    requires Running(s) && s.active && UndisturbedTo(w, s, Stops(s), fuel) && k <= fuel
    requires FirstAt(w.isa, s.proc.image, Stops(s), s.proc.cpu, 1, k)
    ensures Continue(w, s, fuel) == Ok(At(s, Native(w, s, k).value))
  {
    ContinueIsNative(w, s, fuel);
    FirstStopIs(w.isa, s.proc.image, Stops(s), s.proc.cpu, k, fuel);
  }

  lemma FirstAtLater(isa: Isa, image: Mem, stops: set<int>, cpu: Cpu, next: Cpu, from: nat, k: nat)
    requires from <= 1 && k > 0 && FirstAt(isa, image, stops, cpu, from, k)
    requires NativeStep(isa, image, cpu) == Ran(next)
    ensures FirstAt(isa, image, stops, next, 0, k - 1)
    ensures NativeRun(isa, image, cpu, k) == NativeRun(isa, image, next, k - 1)
  {
    forall j | 0 <= j < k - 1
      ensures NativeRun(isa, image, next, j).Some? && NativeRun(isa, image, next, j).value.pc !in stops
    {
      assert NativeRun(isa, image, next, j) == NativeRun(isa, image, cpu, j + 1);
    }
  }

  lemma {:induction false} WatchIs(isa: Isa, image: Mem, stops: set<int>, cpu: Cpu, k: nat, fuel: nat)
    requires FirstAt(isa, image, stops, cpu, 0, k) && k <= fuel
    ensures Watch(isa, image, stops, cpu, fuel) == Hit(NativeRun(isa, image, cpu, k).value)
    decreases k
  {
    if k > 0 {
      assert NativeRun(isa, image, cpu, 0) == Some(cpu);
      var next := NativeStep(isa, image, cpu).cpu;
      FirstAtLater(isa, image, stops, cpu, next, 0, k);
      WatchIs(isa, image, stops, next, k - 1, fuel - 1);
    }
  }

  lemma FirstStopIs(isa: Isa, image: Mem, stops: set<int>, cpu: Cpu, k: nat, fuel: nat)
    requires FirstAt(isa, image, stops, cpu, 1, k) && k <= fuel
    ensures FirstStop(isa, image, stops, cpu, fuel) == Hit(NativeRun(isa, image, cpu, k).value)
  {
    var next := NativeStep(isa, image, cpu).cpu;
    FirstAtLater(isa, image, stops, cpu, next, 1, k);
    WatchIs(isa, image, stops, next, k - 1, fuel - 1);
  }
}
