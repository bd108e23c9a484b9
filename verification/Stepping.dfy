/** `step`, `next` and `finish`: where they stop, and that they leave nothing behind. */
module Stepping {
  import opened Memory
  import opened Machine
  import opened Sequences
  import opened Model
  import opened Invariants
  import opened Transparency

  // ----- step

  /** Locations that are not patched; stepping makes no progress at them. */
  function Inert(locs: map<int, Loc>): set<int> {
    set a | a in locs && !locs[a].patched
  }

  /** A native state from which `step` goes on: still on the line, and not at an inert location. */
  ghost predicate GoesOn(w: World, s: State, line: int, c: Option<Cpu>) {
    c.Some? && w.line(c.value.pc, s.base) == line && c.value.pc !in Inert(s.locs)
  }

  ghost predicate GoesOnFor(w: World, s: State, line: int, k: nat)
    requires s.proc.Live?
  {
    forall j :: 0 <= j < k ==> GoesOn(w, s, line, Native(w, s, j))
  }

  /** After `k` instructions the native run is on another line for the first time. */
  ghost predicate Leaves(w: World, s: State, line: int, k: nat)
    requires s.proc.Live?
  {
    && GoesOnFor(w, s, line, k)
    && Native(w, s, k).Some? && w.line(Native(w, s, k).value.pc, s.base) != line
  }

  /** After `k` instructions the native run is at an inert location, still on the line. */
  ghost predicate Sticks(w: World, s: State, line: int, k: nat)
    requires s.proc.Live?
  {
    && GoesOnFor(w, s, line, k)
    && Native(w, s, k).Some? && w.line(Native(w, s, k).value.pc, s.base) == line
    && Native(w, s, k).value.pc in Inert(s.locs)
  }

  ghost predicate StillThere(w: World, s: State, line: int, k: nat)
    requires s.proc.Live?
  {
    GoesOnFor(w, s, line, k) && Native(w, s, k).Some? && w.line(Native(w, s, k).value.pc, s.base) == line
  }

  ghost predicate Perishes(w: World, s: State, line: int, k: nat)
    requires s.proc.Live?
  {
    GoesOnFor(w, s, line, k) && Native(w, s, k).None?
  }

  /** Each outcome of `step` and what it says of the native run. */
  ghost predicate StepMeans(w: World, s: State, line: int, fuel: nat, o: Outcome)
    requires s.proc.Live?
  {
    match o
    case Ok(r) => exists k: nat :: k <= fuel && Leaves(w, s, line, k) && r == At(s, Native(w, s, k).value)
    case Hung => StillThere(w, s, line, fuel) || exists k: nat :: k < fuel && Sticks(w, s, line, k)
    case Dangling => exists k: nat :: k <= fuel && Perishes(w, s, line, k)
    case Aborted => false
  }

  lemma GoesOnLater(w: World, s: State, line: int, next: Cpu, k: nat)
    requires s.proc.Live? && NativeStep(w.isa, s.proc.image, s.proc.cpu) == Ran(next)
    requires GoesOn(w, s, line, Some(s.proc.cpu)) && GoesOnFor(w, At(s, next), line, k)
    ensures GoesOnFor(w, s, line, k + 1)
    ensures Native(w, s, k + 1) == Native(w, At(s, next), k)
  {
    forall j | 0 <= j < k + 1
      ensures GoesOn(w, s, line, Native(w, s, j))
    {
      if j > 0 {
        assert GoesOn(w, At(s, next), line, Native(w, At(s, next), j - 1));
      }
    }
  }

  lemma StepMeansLater(w: World, s: State, line: int, next: Cpu, fuel: nat, o: Outcome)
    requires s.proc.Live? && NativeStep(w.isa, s.proc.image, s.proc.cpu) == Ran(next)
    requires GoesOn(w, s, line, Some(s.proc.cpu)) && fuel > 0
    requires StepMeans(w, At(s, next), line, fuel - 1, o)
    ensures StepMeans(w, s, line, fuel, o)
  {
    var m := At(s, next);
    match o
    case Ok(r) =>
      var k: nat :| k <= fuel - 1 && Leaves(w, m, line, k) && r == At(m, Native(w, m, k).value);
      GoesOnLater(w, s, line, next, k);
      assert Leaves(w, s, line, k + 1);
    case Hung =>
      if StillThere(w, m, line, fuel - 1) {
        GoesOnLater(w, s, line, next, fuel - 1);
        assert StillThere(w, s, line, fuel);
      } else {
        var k: nat :| k < fuel - 1 && Sticks(w, m, line, k);
        GoesOnLater(w, s, line, next, k);
        assert Sticks(w, s, line, k + 1);
      }
    case Dangling =>
      var k: nat :| k <= fuel - 1 && Perishes(w, m, line, k);
      GoesOnLater(w, s, line, next, k);
      assert Perishes(w, s, line, k + 1);
    case Aborted =>
  }

  lemma {:induction false} StuckForGood(w: World, s: State, line: int, fuel: nat)
    requires s.proc.Live? && CurrentLine(w, s) == line && s.proc.cpu.pc in Inert(s.locs)
    ensures StepWhile(w, s, line, fuel) == Hung
    decreases fuel
  {
    if fuel > 0 {
      StuckForGood(w, s, line, fuel - 1);
    }
  }

  lemma FirstRound(w: World, s: State, line: int, fuel: nat)
    requires Running(s) && s.active && PrefixDecoder(w.isa) && Clean(w.isa, s.proc.image, Stops(s), s.proc.cpu)
    requires CurrentLine(w, s) == line && fuel > 0 && s.proc.cpu.pc !in Inert(s.locs)
    ensures StepWhile(w, s, line, fuel) ==
      match NativeStep(w.isa, s.proc.image, s.proc.cpu)
      case Exited => Dangling
      case Ran(next) => StepWhile(w, At(s, next), line, fuel - 1)
  {
    StepInstructionIsNative(w, s);
  }

  lemma EndOfStep(w: World, s: State, line: int, fuel: nat)
    requires s.proc.Live? && (CurrentLine(w, s) != line || fuel == 0)
    ensures StepMeans(w, s, line, fuel, StepWhile(w, s, line, fuel))
  {
    assert Native(w, s, 0) == Some(s.proc.cpu);
    assert Leaves(w, s, line, 0) || StillThere(w, s, line, 0);
  }

  lemma StepSticks(w: World, s: State, line: int, fuel: nat)
    requires s.proc.Live? && CurrentLine(w, s) == line && fuel > 0 && s.proc.cpu.pc in Inert(s.locs)
    ensures StepMeans(w, s, line, fuel, StepWhile(w, s, line, fuel))
  {
    StuckForGood(w, s, line, fuel);
    assert Native(w, s, 0) == Some(s.proc.cpu);
    assert Sticks(w, s, line, 0);
  }

  lemma StepPerishes(w: World, s: State, line: int, fuel: nat)
    requires Running(s) && s.active && PrefixDecoder(w.isa) && Clean(w.isa, s.proc.image, Stops(s), s.proc.cpu)
    requires CurrentLine(w, s) == line && fuel > 0 && s.proc.cpu.pc !in Inert(s.locs)
    requires NativeStep(w.isa, s.proc.image, s.proc.cpu).Exited?
    ensures StepMeans(w, s, line, fuel, StepWhile(w, s, line, fuel))
  {
    FirstRound(w, s, line, fuel);
    assert Native(w, s, 0) == Some(s.proc.cpu);
    assert Perishes(w, s, line, 1);
  }

  lemma StepGoesOn(w: World, s: State, line: int, fuel: nat, next: Cpu)
    requires Running(s) && s.active && PrefixDecoder(w.isa) && Clean(w.isa, s.proc.image, Stops(s), s.proc.cpu)
    requires CurrentLine(w, s) == line && fuel > 0 && s.proc.cpu.pc !in Inert(s.locs)
    requires NativeStep(w.isa, s.proc.image, s.proc.cpu) == Ran(next)
    requires StepMeans(w, At(s, next), line, fuel - 1, StepWhile(w, At(s, next), line, fuel - 1))
    ensures StepMeans(w, s, line, fuel, StepWhile(w, s, line, fuel))
  {
    FirstRound(w, s, line, fuel);
    StepMeansLater(w, s, line, next, fuel, StepWhile(w, s, line, fuel));
  }

  /** `step` ends in the first native state on another line, whatever breakpoints were crossed;
      it runs on for ever exactly when an inert location or no other line comes first. */
  lemma {:induction false} StepWhileIsNative(w: World, s: State, line: int, fuel: nat)
    requires Running(s) && s.active && Undisturbed(w, s, Stops(s), {}, fuel)
    ensures StepMeans(w, s, line, fuel, StepWhile(w, s, line, fuel))
    decreases fuel
  {
    if CurrentLine(w, s) != line || fuel == 0 {
      EndOfStep(w, s, line, fuel);
    } else if s.proc.cpu.pc in Inert(s.locs) {
      StepSticks(w, s, line, fuel);
    } else {
      match NativeStep(w.isa, s.proc.image, s.proc.cpu)
      case Exited =>
        StepPerishes(w, s, line, fuel);
      case Ran(next) =>
        CpuKeepsRunning(s, next);
        StepWhileIsNative(w, At(s, next), line, fuel - 1);
        StepGoesOn(w, s, line, fuel, next);
    }
  }

  /** The native run does one thing first. */
  lemma OneEnding(w: World, s: State, line: int, j: nat, k: nat)
    requires s.proc.Live?
    ensures Leaves(w, s, line, j) && Leaves(w, s, line, k) ==> j == k
    ensures Leaves(w, s, line, j) ==>
      !Sticks(w, s, line, k) && !Perishes(w, s, line, k) && (j <= k ==> !StillThere(w, s, line, k))
    ensures Sticks(w, s, line, j) ==> !Perishes(w, s, line, k)
  {
  }

  /** If the native run leaves the line, that is where `step` ends, given the budget. */
  lemma StepEndsWhereLineIsLeft(w: World, s: State, line: int, k: nat, fuel: nat)
    requires Running(s) && s.active && Undisturbed(w, s, Stops(s), {}, fuel)
    requires Leaves(w, s, line, k) && k <= fuel
    ensures StepWhile(w, s, line, fuel) == Ok(At(s, Native(w, s, k).value))
  {
    StepWhileIsNative(w, s, line, fuel);
    forall j: nat
      ensures Leaves(w, s, line, j) ==> j == k
      ensures !Sticks(w, s, line, j) && !Perishes(w, s, line, j) && (k <= j ==> !StillThere(w, s, line, j))
    {
      OneEnding(w, s, line, k, j);
    }
  }

  /** Once the native run is at an inert location on the line, no budget makes `step` end. */
  lemma StepNeverPassesInert(w: World, s: State, line: int, k: nat, fuel: nat)
    requires Running(s) && s.active && Undisturbed(w, s, Stops(s), {}, fuel)
    requires Sticks(w, s, line, k)
    ensures StepWhile(w, s, line, fuel) == Hung
  {
    StepWhileIsNative(w, s, line, fuel);
    forall j: nat
      ensures !Leaves(w, s, line, j) && !Perishes(w, s, line, j)
    {
      OneEnding(w, s, line, j, k);
      OneEnding(w, s, line, k, j);
    }
  }

  /** If the program ends on the line, `step` goes on with a process that is not there. */
  lemma StepEndsWithProcess(w: World, s: State, line: int, k: nat, fuel: nat)
    requires Running(s) && s.active && Undisturbed(w, s, Stops(s), {}, fuel)
    requires Perishes(w, s, line, k) && k <= fuel
    ensures StepWhile(w, s, line, fuel) == Dangling
  {
    StepWhileIsNative(w, s, line, fuel);
    assert StillThere(w, s, line, fuel) ==> k != fuel && GoesOn(w, s, line, Native(w, s, k));
    forall j: nat
      ensures !Leaves(w, s, line, j) && !Sticks(w, s, line, j)
    {
      OneEnding(w, s, line, j, k);
    }
  }

  // ----- temporary locations

  function AsSet(xs: seq<int>): set<int> {
    set a | a in xs
  }

  /** `t` is `s` with temporary locations at `temps` and their patches, and nothing else. */
  ghost predicate WithTemps(s: State, t: State, temps: seq<int>) {
    && Distinct(temps)
    && (forall a :: a in temps ==> a !in s.locs && a in t.locs && t.locs[a].isTemp)
    && t.locs.Keys == s.locs.Keys + AsSet(temps)
    && (forall a :: a in s.locs ==> t.locs[a] == s.locs[a])
    && t == s.(locs := t.locs, proc := t.proc) && SameProcess(s.proc, t.proc)
  }

  lemma OneMoreTemp(s: State, t: State, temps: seq<int>, a: int)
    requires WithTemps(s, t, temps) && a !in t.locs
    ensures WithTemps(s, SetTemp(t, a), temps + [a])
  {
    DistinctSnoc(temps, a);
    EnableLocShape(t.(locs := t.locs[a := Loc(true, false, 0, [])]), a);
  }

  lemma DropTemp(t: State, a: int)
    requires Core(t) && a in t.locs && t.locs[a].isTemp
    ensures Core(FreeLoc(t, a)) && SameProcess(t.proc, FreeLoc(t, a).proc)
    ensures FreeLoc(t, a) == t.(locs := t.locs - {a}, proc := FreeLoc(t, a).proc)
  {
    FreeLocShape(t, a);
    FreeLocKeepsCore(t, a);
    assert Justified(t.locs[a]);
    forall id | id in t.bps {
      RingIsWhoPointsHere(t, a, id);
    }
    assert DetachedFrom(t.bps, a) == t.bps;
  }

  lemma {:induction false} DropTemps(t: State, temps: seq<int>)
    requires Core(t) && Distinct(temps) && forall a :: a in temps ==> a in t.locs && t.locs[a].isTemp
    ensures var r := UnsetEach(t, temps);
      && Core(r) && SameProcess(t.proc, r.proc)
      && r == t.(locs := t.locs - AsSet(temps), proc := r.proc)
  {
    if temps == [] {
      assert t.locs - AsSet(temps) == t.locs;
    } else {
      var front, a := Front(temps), Last(temps);
      assert temps == front + [a];
      DropTemps(t, front);
      DropTemp(UnsetEach(t, front), a);
      assert AsSet(temps) == AsSet(front) + {a};
      assert (t.locs - AsSet(front)) - {a} == t.locs - AsSet(temps);
    }
  }

  /** Overlaying the same image at the same addresses is the same code. */
  lemma OverlayDeterminesCode(code: Mem, code': Mem, image: Mem, stops: set<int>)
    requires Overlaid(code, image, stops) && Overlaid(code', image, stops)
    ensures code == code'
  {
    assert code.Keys == code'.Keys;
    assert forall x :: x in code ==> x in image.Keys && code[x] == code'[x];
  }

  lemma TempsDropped(s: State, t: State, temps: seq<int>)
    requires WithTemps(s, t, temps)
    ensures t.locs - AsSet(temps) == s.locs
  {
    forall a
      ensures a in t.locs - AsSet(temps) <==> a in s.locs
      ensures a in s.locs ==> (t.locs - AsSet(temps))[a] == s.locs[a]
    {
      assert a in t.locs <==> a in t.locs.Keys;
    }
  }

  /** Whatever happens to the processor state while they are in, dropping the temporary locations
      gives back the engine and the code as they were before. */
  lemma TempsLeaveNothing(s: State, t: State, temps: seq<int>, cpu: Cpu)
    requires Core(s) && Core(t) && s.proc.Live? && WithTemps(s, t, temps)
    ensures UnsetEach(At(t, cpu), temps) == At(s, cpu)
  {
    CpuKeepsCore(t, cpu);
    DropTemps(At(t, cpu), temps);
    TempsDropped(s, t, temps);
    SameButCpu(s, UnsetEach(At(t, cpu), temps), cpu);
  }

  lemma SameButCpu(s: State, r: State, cpu: Cpu)
    requires s.proc.Live? && r.proc.Live? && r == s.(proc := r.proc)
    requires Overlay(s.locs, s.proc) && Overlay(r.locs, r.proc)
    requires r.proc.cpu == cpu && r.proc.image == s.proc.image
    ensures r == At(s, cpu)
  {
    OverlayDeterminesCode(r.proc.code, s.proc.code, s.proc.image, Stops(s));
  }

  lemma CpuKeepsCore(t: State, cpu: Cpu)
    requires Core(t) && t.proc.Live?
    ensures Core(At(t, cpu))
  {
    forall id | id in t.bps && t.bps[id].location.Some?
      ensures PointsHome(At(t, cpu), id)
    {
      assert PointsHome(t, id);
    }
  }

  /** The patched addresses while there are temporary locations at `temps`. */
  function StopsWith(s: State, temps: set<int>): set<int>
    requires s.proc.Live?
  {
    Stops(s) + set a | a in temps && Readable(s.proc.image.Keys, a)
  }

  lemma TempsAreStops(s: State, t: State, temps: seq<int>)
    requires s.proc.Live? && WithTemps(s, t, temps) && AllJustified(t)
    ensures Stops(t) == StopsWith(s, AsSet(temps))
    ensures StepsOver(t) <==> StepsOver(s) || s.proc.cpu.pc in temps
  {
  }

  /** What `next` and `finish` have to do, told of the native run alone: stop at its first state at
      a patched or temporary address, with the engine as it was; if the process ends first, the
      assertion that it is alive fails when a temporary location was put in. */
  function VisitReference(w: World, s: State, temps: set<int>, fuel: nat): Outcome
    requires s.proc.Live?
  {
    match FirstStop(w.isa, s.proc.image, StopsWith(s, temps), s.proc.cpu, fuel)
    case Hit(c) => Ok(At(s, c))
    case NotYet => Hung
    case Ended =>
      if (StepsOver(s) || s.proc.cpu.pc in temps) && NativeStep(w.isa, s.proc.image, s.proc.cpu).Exited? then Dangling
      else if temps == {} then Ok(Cleanup(s))
      else Aborted
  }

  lemma NoneAsSet(temps: seq<int>)
    ensures AsSet(temps) == {} <==> temps == []
  {
    assert temps == [] || temps[0] in AsSet(temps);
  }

  lemma VisitIsNative(w: World, s: State, t: State, temps: seq<int>, fuel: nat)
    requires Running(s) && s.active && Running(t) && WithTemps(s, t, temps)
    requires UndisturbedTo(w, s, StopsWith(s, AsSet(temps)), fuel)
    ensures ContinueAndUnset(w, t, temps, fuel) == VisitReference(w, s, AsSet(temps), fuel)
  {
    TempsAreStops(s, t, temps);
    ContinueIsNative(w, t, fuel);
    NoneAsSet(temps);
    match FirstStop(w.isa, s.proc.image, StopsWith(s, AsSet(temps)), s.proc.cpu, fuel)
    case Hit(c) => TempsLeaveNothing(s, t, temps, c);
    case NotYet =>
    case Ended => assert Cleanup(t) == Cleanup(s);
  }

  lemma NoTempsYet(s: State)
    ensures WithTemps(s, s, [])
  {
  }

  // ----- finish

  function FinishTargets(s: State): set<int>
    requires s.proc.Live?
  {
    {ReturnTarget(s.proc.cpu)} - s.locs.Keys
  }

  lemma FinishPlaces(s: State, ret: int)
    requires Running(s) && s.active && ret != 0
    ensures var temps := if ret in s.locs then [] else [ret];
      Running(SetTemp(s, ret)) && WithTemps(s, SetTemp(s, ret), temps) && AsSet(temps) == {ret} - s.locs.Keys
  {
    NoTempsYet(s);
    if ret !in s.locs {
      OneMoreTemp(s, s, [], ret);
      assert [] + [ret] == [ret];
    }
    SetTempKeepsRunning(s, ret);
  }

  /** `finish` stops at a breakpoint or at the return address, if the process can be stopped there, and
      leaves nothing behind. */
  lemma FinishIsNative(w: World, s: State, fuel: nat)
    requires Running(s) && s.active && UndisturbedTo(w, s, StopsWith(s, FinishTargets(s)), fuel)
    ensures Finish(w, s, fuel) ==
      if ReturnTarget(s.proc.cpu) == 0 then Aborted else VisitReference(w, s, FinishTargets(s), fuel)
  {
    var ret := ReturnTarget(s.proc.cpu);
    if ret != 0 {
      FinishPlaces(s, ret);
      VisitIsNative(w, s, SetTemp(s, ret), if ret in s.locs then [] else [ret], fuel);
    }
  }

  /** The word at `a` can be written, and there is no location at `a` whose patch is switched off. */
  predicate CanStopAt(s: State, a: int)
    requires s.proc.Live?
  {
    Readable(s.proc.image.Keys, a) && a !in Inert(s.locs)
  }

  lemma StopsCanStop(s: State, temps: set<int>, a: int)
    requires s.proc.Live? && temps !! s.locs.Keys
    ensures a in StopsWith(s, temps) ==> CanStopAt(s, a)
    ensures a in temps + s.locs.Keys ==> (a in StopsWith(s, temps) <==> CanStopAt(s, a))
  {
  }

  lemma FirstStopStops(isa: Isa, image: Mem, stops: set<int>, cpu: Cpu, fuel: nat)
    ensures var r := FirstStop(isa, image, stops, cpu, fuel); r.Hit? ==> r.cpu.pc in stops
  {
    if fuel > 0 {
      match NativeStep(isa, image, cpu)
      case Exited =>
      case Ran(next) => WatchStops(isa, image, stops, next, fuel - 1);
    }
  }

  /** The native run is at `a` after `k` instructions, and has been at none of `stops` since it started. */
  ghost predicate Reaches(w: World, s: State, stops: set<int>, k: nat, a: int)
    requires s.proc.Live?
  {
    && 1 <= k && Native(w, s, k).Some? && Native(w, s, k).value.pc == a
    && Avoids(w.isa, s.proc.image, stops, s.proc.cpu, 1, k)
  }

  /** Whether the process is stopped where it gets to is a question of whether it can be stopped there. */
  lemma VisitStopsExactly(w: World, s: State, temps: set<int>, k: nat, fuel: nat, a: int)
    requires s.proc.Live? && temps !! s.locs.Keys && a in temps + s.locs.Keys
    requires k <= fuel && Reaches(w, s, StopsWith(s, temps), k, a)
    ensures VisitReference(w, s, temps, fuel) == Ok(At(s, Native(w, s, k).value)) <==> CanStopAt(s, a)
  {
    var stops := StopsWith(s, temps);
    StopsCanStop(s, temps, a);
    FirstStopStops(w.isa, s.proc.image, stops, s.proc.cpu, fuel);
    if a in stops {
      FirstStopIs(w.isa, s.proc.image, stops, s.proc.cpu, k, fuel);
    }
  }

  /** Wherever the process is stopped, it can be. */
  lemma VisitEndsWhereItCan(w: World, s: State, temps: set<int>, fuel: nat, c: Cpu)
    requires s.proc.Live? && temps !! s.locs.Keys && VisitReference(w, s, temps, fuel) == Ok(At(s, c))
    ensures CanStopAt(s, c.pc)
  {
    FirstStopStops(w.isa, s.proc.image, StopsWith(s, temps), s.proc.cpu, fuel);
    StopsCanStop(s, temps, c.pc);
  }

  /** Once the native run is at the return address, with no stop before, `finish` ends there if and only
      if there is no unpatched location and the word can be written; else it runs past it. */
  lemma FinishStopsExactly(w: World, s: State, k: nat, fuel: nat)
    requires Running(s) && s.active && UndisturbedTo(w, s, StopsWith(s, FinishTargets(s)), fuel)
    requires k <= fuel && ReturnTarget(s.proc.cpu) != 0
    requires Reaches(w, s, StopsWith(s, FinishTargets(s)), k, ReturnTarget(s.proc.cpu))
    ensures Finish(w, s, fuel) == Ok(At(s, Native(w, s, k).value)) <==> CanStopAt(s, ReturnTarget(s.proc.cpu))
  {
    FinishIsNative(w, s, fuel);
    VisitStopsExactly(w, s, FinishTargets(s), k, fuel, ReturnTarget(s.proc.cpu));
  }

  /** `finish` ends at no address where the process cannot be stopped, be it the return address. */
  lemma FinishEndsWhereItCan(w: World, s: State, fuel: nat, c: Cpu)
    requires Running(s) && s.active && UndisturbedTo(w, s, StopsWith(s, FinishTargets(s)), fuel)
    requires Finish(w, s, fuel) == Ok(At(s, c))
    ensures CanStopAt(s, c.pc)
  {
    FinishIsNative(w, s, fuel);
    VisitEndsWhereItCan(w, s, FinishTargets(s), fuel, c);
  }

  // ----- next

  /** The line at `a` is not the line of the address before. */
  predicate LineStart(w: World, base: Addr, a: int) {
    0 < a < ADDRESS_SPACE && w.line(a, base) != w.line(a - 1, base)
  }

  /** The line starts in `lo..end` at which there is no location yet. */
  function FreshStarts(w: World, s: State, lo: int, end: Addr): set<int> {
    set a | lo <= a < end && LineStart(w, s.base, a) && a !in s.locs
  }

  ghost predicate ScanOf(s: State, sc: Scan) {
    Running(sc.s) && WithTemps(s, sc.s, sc.temps)
  }

  lemma PlacedKeepsScan(s: State, sc: Scan, a: int)
    requires s.active && ScanOf(s, sc) && a != 0
    ensures ScanOf(s, Placed(sc, a))
    ensures AsSet(Placed(sc, a).temps) == AsSet(sc.temps) + ({a} - s.locs.Keys)
  {
    if a !in sc.s.locs {
      OneMoreTemp(s, sc.s, sc.temps, a);
      SetTempKeepsRunning(sc.s, a);
    } else {
      assert a in s.locs || a in AsSet(sc.temps) by {
        assert a in sc.s.locs.Keys;
      }
    }
  }

  function StartAt(w: World, s: State, a: int): set<int> {
    if LineStart(w, s.base, a) then {a} - s.locs.Keys else {}
  }

  lemma OneStartMore(w: World, s: State, pc: int, end: Addr)
    requires pc < end
    ensures FreshStarts(w, s, pc, end) == StartAt(w, s, pc) + FreshStarts(w, s, pc + 1, end)
  {
  }

  lemma ScanStepKeepsScan(w: World, s: State, sc: Scan, pc: Addr, line: int)
    requires s.active && ScanOf(s, sc) && 0 < pc && line == w.line(pc - 1, s.base)
    ensures ScanOf(s, ScanStep(w, sc, pc, line))
    ensures AsSet(ScanStep(w, sc, pc, line).temps) == AsSet(sc.temps) + StartAt(w, s, pc)
  {
    PlacedKeepsScan(s, sc, pc);
  }

  /** The scan puts a temporary location at every line start from `pc` on, and nowhere else. */
  lemma {:induction false} ScanFindsLineStarts(w: World, s: State, sc: Scan, pc: int, end: Addr, line: int)
    requires s.active && ScanOf(s, sc) && 0 < pc <= ADDRESS_SPACE && line == w.line(pc - 1, s.base)
    ensures ScanOf(s, ScanLines(w, sc, pc, end, line))
    ensures AsSet(ScanLines(w, sc, pc, end, line).temps) == AsSet(sc.temps) + FreshStarts(w, s, pc, end)
    decreases end - pc
  {
    if pc < end {
      ScanStepKeepsScan(w, s, sc, pc, line);
      ScanFindsLineStarts(w, s, ScanStep(w, sc, pc, line), pc + 1, end, w.line(pc, s.base));
      OneStartMore(w, s, pc, end);
    }
  }

  /** The addresses at which `next` puts temporary locations: the line starts between the pc and the
      end of the function, and outside main the return address, less those that have a location. */
  function NextTargets(w: World, s: State, f: Func): set<int>
    requires s.proc.Live?
  {
    FreshStarts(w, s, s.proc.cpu.pc + 1, Wrap(f.high + s.base)) + if f.name != "main" then FinishTargets(s) else {}
  }

  lemma NextScans(w: World, s: State, f: Func) returns (sc: Scan)
    requires Running(s) && s.active
    ensures sc == ScanLines(w, Scan(s, []), s.proc.cpu.pc, Wrap(f.high + s.base), CurrentLine(w, s))
    ensures ScanOf(s, sc) && AsSet(sc.temps) == FreshStarts(w, s, s.proc.cpu.pc + 1, Wrap(f.high + s.base))
  {
    var pc, end, line := s.proc.cpu.pc, Wrap(f.high + s.base), CurrentLine(w, s);
    NoTempsYet(s);
    sc := ScanLines(w, Scan(s, []), pc, end, line);
    if pc < end {
      ScanFindsLineStarts(w, s, Scan(s, []), pc + 1, end, line);
    }
  }

  /** The scan and the return address together place exactly the targets. */
  lemma NextPlaces(w: World, s: State, f: Func)
    requires Running(s) && s.active && (f.name != "main" ==> ReturnTarget(s.proc.cpu) != 0)
    ensures ScanOf(s, Targets(w, s, f)) && AsSet(Targets(w, s, f).temps) == NextTargets(w, s, f)
  {
    var sc := NextScans(w, s, f);
    assert NextTargets(w, s, f) == AsSet(sc.temps) + if f.name != "main" then FinishTargets(s) else {};
    if f.name != "main" {
      PlacedKeepsScan(s, sc, ReturnTarget(s.proc.cpu));
      assert Targets(w, s, f) == Placed(sc, ReturnTarget(s.proc.cpu));
    } else {
      assert Targets(w, s, f) == sc;
    }
  }

  /** `next` stops at the first native state at a breakpoint or at one of these addresses, and
      leaves nothing behind. */
  lemma NextIsNative(w: World, s: State, f: Func, fuel: nat)
    requires Running(s) && s.active && w.func(s.proc.cpu.pc, s.base) == Some(f)
    requires UndisturbedTo(w, s, StopsWith(s, NextTargets(w, s, f)), fuel)
    ensures Next(w, s, fuel) ==
      if CurrentLine(w, s) == 0 || (f.name != "main" && ReturnTarget(s.proc.cpu) == 0) then Aborted
      else VisitReference(w, s, NextTargets(w, s, f), fuel)
  {
    if !(f.name != "main" && ReturnTarget(s.proc.cpu) == 0) {
      NextPlaces(w, s, f);
      VisitIsNative(w, s, Targets(w, s, f).s, Targets(w, s, f).temps, fuel);
    }
  }

  /** A line start further down the function that can stop the process. */
  ghost predicate ForwardLine(w: World, s: State, f: Func, a: int)
    requires s.proc.Live?
  {
    s.proc.cpu.pc < a < Wrap(f.high + s.base) && LineStart(w, s.base, a) && CanStopAt(s, a)
  }

  /** A line start further down the function has a location once the scan is over. */
  lemma ForwardLinesAreStops(w: World, s: State, f: Func, a: int)
    requires s.proc.Live? && s.proc.cpu.pc < a < Wrap(f.high + s.base) && LineStart(w, s.base, a)
    ensures NextTargets(w, s, f) !! s.locs.Keys && a in NextTargets(w, s, f) + s.locs.Keys
    ensures a in StopsWith(s, NextTargets(w, s, f)) <==> ForwardLine(w, s, f, a)
  {
    StopsCanStop(s, NextTargets(w, s, f), a);
  }

  ghost predicate NoLineMissed(w: World, s: State, f: Func, k: nat)
    requires s.proc.Live?
  {
    forall j :: 1 <= j < k ==> Native(w, s, j).Some? && !ForwardLine(w, s, f, Native(w, s, j).value.pc)
  }

  /** No forward line change is missed: between where `next` starts and where it stops, the native
      run is at no line start further down the function, except one where the process cannot be stopped. */
  lemma NextMissesNoLine(w: World, s: State, f: Func, fuel: nat, c: Cpu)
    requires Running(s) && s.active && w.func(s.proc.cpu.pc, s.base) == Some(f)
    requires UndisturbedTo(w, s, StopsWith(s, NextTargets(w, s, f)), fuel)
    requires Next(w, s, fuel) == Ok(At(s, c))
    ensures exists k: nat :: k <= fuel && Native(w, s, k) == Some(c) && NoLineMissed(w, s, f, k)
  {
    NextIsNative(w, s, f, fuel);
    var stops := StopsWith(s, NextTargets(w, s, f));
    assert FirstStop(w.isa, s.proc.image, stops, s.proc.cpu, fuel) == Hit(c);
    FirstStopMeaning(w.isa, s.proc.image, stops, s.proc.cpu, fuel);
    var k: nat :| k <= fuel && FirstAt(w.isa, s.proc.image, stops, s.proc.cpu, 1, k) && Native(w, s, k) == Some(c);
    forall j | 1 <= j < k
      ensures Native(w, s, j).Some? && !ForwardLine(w, s, f, Native(w, s, j).value.pc)
    {
      if ForwardLine(w, s, f, Native(w, s, j).value.pc) {
        ForwardLinesAreStops(w, s, f, Native(w, s, j).value.pc);
      }
    }
  }

  predicate NextStarts(w: World, s: State, f: Func)
    requires s.proc.Live?
  {
    CurrentLine(w, s) != 0 && (f.name == "main" || ReturnTarget(s.proc.cpu) != 0)
  }

  /** Once the native run is at a line start further down the function, with no stop before, `next` ends
      there if and only if there is no unpatched location and the word can be written; else it runs past it. */
  lemma NextStopsExactly(w: World, s: State, f: Func, k: nat, fuel: nat, a: int)
    requires Running(s) && s.active && w.func(s.proc.cpu.pc, s.base) == Some(f) && NextStarts(w, s, f)
    requires UndisturbedTo(w, s, StopsWith(s, NextTargets(w, s, f)), fuel)
    requires s.proc.cpu.pc < a < Wrap(f.high + s.base) && LineStart(w, s.base, a)
    requires k <= fuel && Reaches(w, s, StopsWith(s, NextTargets(w, s, f)), k, a)
    ensures Next(w, s, fuel) == Ok(At(s, Native(w, s, k).value)) <==> CanStopAt(s, a)
  {
    NextIsNative(w, s, f, fuel);
    ForwardLinesAreStops(w, s, f, a);
    VisitStopsExactly(w, s, NextTargets(w, s, f), k, fuel, a);
  }

  /** Outside main the return address has a location once the scan is over. */
  lemma ReturnIsStop(w: World, s: State, f: Func)
    requires s.proc.Live? && f.name != "main"
    ensures var ret, temps := ReturnTarget(s.proc.cpu), NextTargets(w, s, f);
      && temps !! s.locs.Keys && ret in temps + s.locs.Keys && (ret in StopsWith(s, temps) <==> CanStopAt(s, ret))
  {
    StopsCanStop(s, NextTargets(w, s, f), ReturnTarget(s.proc.cpu));
  }

  /** Outside main, once the native run is back in the caller, with no stop before, `next` ends there if
      and only if there is no unpatched location and the word can be written. */
  lemma NextReturnsExactly(w: World, s: State, f: Func, k: nat, fuel: nat)
    requires Running(s) && s.active && w.func(s.proc.cpu.pc, s.base) == Some(f) && NextStarts(w, s, f)
    requires UndisturbedTo(w, s, StopsWith(s, NextTargets(w, s, f)), fuel) && f.name != "main"
    requires k <= fuel && Reaches(w, s, StopsWith(s, NextTargets(w, s, f)), k, ReturnTarget(s.proc.cpu))
    ensures Next(w, s, fuel) == Ok(At(s, Native(w, s, k).value)) <==> CanStopAt(s, ReturnTarget(s.proc.cpu))
  {
    NextIsNative(w, s, f, fuel);
    ReturnIsStop(w, s, f);
    VisitStopsExactly(w, s, NextTargets(w, s, f), k, fuel, ReturnTarget(s.proc.cpu));
  }

  /** `next` ends at no address where the process cannot be stopped, be it a line start. */
  lemma NextEndsWhereItCan(w: World, s: State, f: Func, fuel: nat, c: Cpu)
    requires Running(s) && s.active && w.func(s.proc.cpu.pc, s.base) == Some(f)
    requires UndisturbedTo(w, s, StopsWith(s, NextTargets(w, s, f)), fuel)
    requires Next(w, s, fuel) == Ok(At(s, c))
    ensures CanStopAt(s, c.pc)
  {
    NextIsNative(w, s, f, fuel);
    assert NextTargets(w, s, f) !! s.locs.Keys;
    VisitEndsWhereItCan(w, s, NextTargets(w, s, f), fuel, c);
  }
}
