/** Where each command that runs the process takes it, told of the program's own run and of the locations,
    lines and return addresses there are. */
module Moves {
  import opened Memory
  import opened Machine
  import opened Sequences
  import opened Model
  import opened Invariants
  import opened Transparency
  import opened Stepping
  import opened Sessions
  import opened Commands
  import Backtrace

  // ----- traps

  /** The processor reports an int3 with the pc behind it. */
  lemma TrapIsBehind(isa: Isa, code: Mem, cpu: Cpu)
    requires cpu.pc in code && code[cpu.pc] == 0xCC
    ensures HardwareStep(isa, code, cpu) == Trapped(cpu.(pc := (cpu.pc + 1) % ADDRESS_SPACE))
  {
    WrapIsModulo(cpu.pc + 1);
  }

  /** The hit message finds a breakpoint, and only once the first of the ring. */
  ghost predicate Reports(l: Loc) {
    l.isTemp || (l.ring != [] && forall i :: 1 <= i < |l.ring| ==> l.ring[i] != l.ring[0])
  }

  lemma ReportsExactly(l: Loc)
    ensures Reportable(l) <==> Reports(l)
  {
    if Reports(l) && !l.isTemp {
      assert forall x :: x in l.ring[1..] ==> x != l.ring[0];
    }
    if Reportable(l) && !l.isTemp {
      forall i | 1 <= i < |l.ring|
        ensures l.ring[i] != l.ring[0]
      {
        assert l.ring[1..][i - 1] == l.ring[i];
      }
    }
  }

  /** A trap sets the pc back by one, to a location with a report, and does nothing else; there is no other
      trap that does not fail an assertion. */
  lemma TrapGoesBack(s: State, cpu: Cpu)
    requires s.proc.Live?
    ensures var back := (cpu.pc - 1) % ADDRESS_SPACE;
      OnEvent(s, Trapped(cpu)) ==
        if back in s.locs && Reports(s.locs[back]) then Ok(s.(proc := s.proc.(cpu := cpu.(pc := back)))) else Aborted
  {
    var back := (cpu.pc - 1) % ADDRESS_SPACE;
    WrapIsModulo(cpu.pc - 1);
    if back in s.locs {
      ReportsExactly(s.locs[back]);
    }
  }

  // ----- continue

  /** There is a patched location at `a`, and its word can be written. */
  ghost predicate StopsAt(s: State, a: int) {
    s.proc.Live? && a in s.locs && s.locs[a].patched && Mapped(s, a)
  }

  lemma StopsAreThose(s: State, stops: set<int>)
    requires s.proc.Live? && forall a :: a in stops <==> StopsAt(s, a)
    ensures stops == Stops(s)
  {
    forall a
      ensures a in stops <==> a in Stops(s)
    {
      assert StopsAt(s, a) <==> a in Stops(s);
    }
  }

  /** `continue` takes the process to the first state of its own run that is at a patched location. */
  lemma ContinueGoesToLocation(w: World, s: State, stops: set<int>, k: nat, fuel: nat)
    requires Inv(s) && CanRun(s) && UndisturbedTo(w, s, stops, fuel)
    requires forall a :: a in stops <==> StopsAt(s, a)
    requires FirstAt(w.isa, s.proc.image, stops, s.proc.cpu, 1, k) && k <= fuel
    ensures Exec(w, s, Cont(fuel)) == Ok(At(s, Native(w, s, k).value))
  {
    StopsAreThose(s, stops);
    hide FirstAt, UndisturbedTo, Continue, StopsAt;
    ContinueEndsAtFirstStop(w, s, k, fuel);
  }

  /** The program ends with the `k`-th instruction, and is at none of `stops` before. */
  ghost predicate EndsFirst(w: World, s: State, stops: set<int>, k: nat)
    requires s.proc.Live?
  {
    Native(w, s, k).None? && Avoids(w.isa, s.proc.image, stops, s.proc.cpu, 1, k)
  }

  lemma EndIsSeen(w: World, s: State, stops: set<int>, k: nat, fuel: nat)
    requires s.proc.Live? && EndsFirst(w, s, stops, k) && k <= fuel
    ensures FirstStop(w.isa, s.proc.image, stops, s.proc.cpu, fuel) == Ended
    ensures k == 1 <==> NativeStep(w.isa, s.proc.image, s.proc.cpu).Exited?
  {
    assert Native(w, s, 0).Some?;
    FirstStopMeaning(w.isa, s.proc.image, stops, s.proc.cpu, fuel);
    assert k == 1 || Native(w, s, 1).Some?;
  }

  /** How a command ends with its process: the code goes on with a freed location, an assertion fails, or
      the debugger is left without a process. */
  ghost predicate Quits(s: State, o: Outcome, dangles: bool, aborts: bool) {
    if dangles then o == Dangling else if aborts then o == Aborted else o.Ok? && Emptied(s, o.s)
  }

  /** A program that ends under `continue`. */
  lemma ContinueQuits(w: World, s: State, stops: set<int>, k: nat, fuel: nat)
    requires Inv(s) && CanRun(s) && UndisturbedTo(w, s, stops, fuel)
    requires forall a :: a in stops <==> StopsAt(s, a)
    requires EndsFirst(w, s, stops, k) && k <= fuel
    ensures var pc := s.proc.cpu.pc;
      Quits(s, Exec(w, s, Cont(fuel)), k == 1 && pc in s.locs && s.locs[pc].patched, false)
  {
    StopsAreThose(s, stops);
    EndIsSeen(w, s, stops, k, fuel);
    CleanupEnds(s);
    ExecContinues(w, s, fuel);
    hide Exec, Inv, UndisturbedTo, FirstStop, EndsFirst, Emptied, Continue;
    assert Running(s);
    ContinueIsNative(w, s, fuel);
  }

  lemma ExecContinues(w: World, s: State, fuel: nat)
    requires CanRun(s)
    ensures Exec(w, s, Cont(fuel)) == Continue(w, s, fuel)
  {
    hide Continue;
  }

  lemma VisitQuits(w: World, s: State, temps: set<int>, k: nat, fuel: nat)
    requires s.proc.Live? && EndsFirst(w, s, StopsWith(s, temps), k) && k <= fuel
    ensures var pc := s.proc.cpu.pc; var over := pc in s.locs && s.locs[pc].patched;
      Quits(s, VisitReference(w, s, temps, fuel), k == 1 && (over || pc in temps), temps != {})
  {
    EndIsSeen(w, s, StopsWith(s, temps), k, fuel);
    CleanupEnds(s);
  }

  /** A launch takes a process from the program's entry point to such a state. */
  ghost predicate RanTo(w: World, prog: Program, r: State, k: nat) {
    && 1 <= k && NativeRun(w.isa, prog.image, prog.entry, k).Some?
    && r.proc.Live? && r.proc.cpu == NativeRun(w.isa, prog.image, prog.entry, k).value && StopsAt(r, r.proc.cpu.pc)
    && forall j :: 1 <= j < k ==>
      NativeRun(w.isa, prog.image, prog.entry, j).Some? &&
      !StopsAt(r, NativeRun(w.isa, prog.image, prog.entry, j).value.pc)
  }

  /** `run` and `restart`: the process stops first at the address of a breakpoint that was set before. */
  lemma StartRunsToLocation(w: World, s: State, c: Command, prog: Program) returns (k: nat)
    requires Inv(s) && Calm(w, s, c) && Starts(s, c, prog) && Exec(w, s, c).Ok?
    ensures Exec(w, s, c).s.active ==> RanTo(w, prog, Exec(w, s, c).s, k)
    ensures !Exec(w, s, c).s.active ==> NativeRun(w.isa, prog.image, prog.entry, k).None?
  {
    StartsLaunched(s, c, prog);
    LaunchingExec(w, s, c);
    RunnerKeepsInv(s, prog);
    var b, r := Runner(s, c), Exec(w, s, c).s;
    hide Exec, Inv, Calm, Starts, Fresh, ContinueReference;
    k := ContinueLands(w, b, Budget(c));
    LandedRanTo(w, prog, b, r, k);
  }

  lemma LandedRanTo(w: World, prog: Program, b: State, r: State, k: nat)
    requires CanRun(b) && b.proc.cpu == prog.entry && b.proc.image == prog.image && Lands(w, b, Stops(b), r, k)
    ensures r.active ==> RanTo(w, prog, r, k)
    ensures !r.active ==> NativeRun(w.isa, prog.image, prog.entry, k).None?
  {
  }

  /** The newest breakpoint at this place of a process loaded at `base` is enabled. */
  ghost predicate NewestEnabled(s: State, a: int, base: Addr) {
    exists id :: id in s.bps && IsNewest(s, id, a, base) && s.bps[id].enable
  }

  ghost predicate IsNewest(s: State, id: nat, a: int, base: Addr)
    requires id in s.bps
  {
    && Place(s.bps[id].instrAddr, base) == a
    && forall x :: x in s.bps && Place(s.bps[x].instrAddr, base) == a ==> x <= id
  }

  /** Where a process of `prog` can stop first. */
  ghost predicate StartStop(s: State, prog: Program, a: int) {
    NewestEnabled(s, a, prog.base) && forall x :: a <= x < a + 8 ==> x in prog.image
  }

  lemma {:induction false} SomeLargest(xs: seq<nat>) returns (id: nat)
    requires xs != []
    ensures id in xs && forall x :: x in xs ==> x <= id
  {
    assert xs == Front(xs) + [Last(xs)];
    if |xs| == 1 {
      id := xs[0];
    } else {
      var m := SomeLargest(Front(xs));
      id := if m < Last(xs) then Last(xs) else m;
    }
  }

  lemma PatchedIsNewest(s: State, b: State, prog: Program, a: int)
    requires Resolved(s, b, prog)
    ensures a in b.locs && b.locs[a].patched <==> NewestEnabled(s, a, prog.base)
  {
    if a in b.locs {
      assert HoldsAll(s, a, b.locs[a], prog.base);
      var id := SomeLargest(b.locs[a].ring);
      assert HasFlag(s, id, b.locs[a].patched) && IsNewest(s, id, a, prog.base);
    }
    if id :| id in s.bps && IsNewest(s, id, a, prog.base) && s.bps[id].enable {
      assert ResolvedTo(s.bps[id], b.bps[id], b, prog.base);
    }
  }

  lemma StartStopsAreThose(s: State, b: State, prog: Program, stops: set<int>)
    requires Resolved(s, b, prog) && forall a :: a in stops <==> StartStop(s, prog, a)
    ensures stops == Stops(b)
  {
    forall a
      ensures a in stops <==> a in Stops(b)
    {
      PatchedIsNewest(s, b, prog, a);
    }
  }

  /** `run` and `restart` take a process from the program's entry point to the first state at the place of
      an enabled breakpoint, the newest there, with every breakpoint resolved. */
  lemma StartGoesToBreakpoint(w: World, s: State, c: Command, prog: Program, stops: set<int>, k: nat)
    requires Inv(s) && InOrder(s) && Starts(s, c, prog) && !PlacedAtZero(s, prog.base) && k <= c.fuel
    requires forall a :: a in stops <==> StartStop(s, prog, a)
    requires PrefixDecoder(w.isa) && CleanRun(w.isa, prog.image, stops, stops, prog.entry, c.fuel)
    requires FirstAt(w.isa, prog.image, stops, prog.entry, 1, k)
    ensures Exec(w, s, c).Ok?
    ensures var r := Exec(w, s, c).s;
      Resolved(s, r, prog) && NativeRun(w.isa, prog.image, prog.entry, k) == Some(r.proc.cpu)
  {
    StartsLaunched(s, c, prog);
    ResolveAbortsAtZero(s, prog);
    RunnerKeepsInv(s, prog);
    FreshIsResolved(s, prog);
    var b := Fresh(s, prog);
    StartStopsAreThose(s, b, prog, stops);
    assert Budget(c) == c.fuel && Runner(s, c) == b;
    FirstStopIs(w.isa, prog.image, stops, prog.entry, k, c.fuel);
    LaunchingExec(w, s, c);
    MovedIsResolved(s, b, prog, NativeRun(w.isa, prog.image, prog.entry, k).value);
  }

  lemma MovedIsResolved(s: State, b: State, prog: Program, cpu: Cpu)
    requires Resolved(s, b, prog)
    ensures Resolved(s, At(b, cpu), prog)
  {
    RunKeepsResolved(s, b, At(b, cpu), prog);
  }

  // ----- stepi and step

  /** `stepi` is one instruction, except at an unpatched location, where it is none. */
  lemma StepIMoves(w: World, s: State)
    requires Inv(s) && CanRun(s) && PrefixDecoder(w.isa) && Clean(w.isa, s.proc.image, Stops(s), s.proc.cpu)
    ensures var pc, o := s.proc.cpu.pc, Exec(w, s, StepI);
      if pc in s.locs && !s.locs[pc].patched then o == Ok(s)
      else
        match NativeStep(w.isa, s.proc.image, s.proc.cpu)
        case Ran(next) => o == Ok(At(s, next))
        case Exited => if pc in s.locs then o == Dangling else o.Ok? && Emptied(s, o.s)
  {
    StepInstructionIsNative(w, s);
    CleanupEnds(s);
  }

  /** The state `j` instructions on is on the given line, and at no unpatched location. */
  ghost predicate OnLine(w: World, s: State, line: int, j: nat)
    requires s.proc.Live?
  {
    var c := NativeRun(w.isa, s.proc.image, s.proc.cpu, j);
    && c.Some? && w.line(c.value.pc, s.base) == line
    && (c.value.pc in s.locs ==> s.locs[c.value.pc].patched)
  }

  lemma OnLineGoesOn(w: World, s: State, line: int, k: nat)
    requires s.proc.Live? && forall j :: 0 <= j < k ==> OnLine(w, s, line, j)
    ensures GoesOnFor(w, s, line, k)
  {
    forall j | 0 <= j < k
      ensures GoesOn(w, s, line, Native(w, s, j))
    {
      assert OnLine(w, s, line, j);
    }
  }

  /** `step` goes on from line to line: it ends at the first state on another line, crossing all patched
      locations on its way, and never once it is at an unpatched one; on the way the program must not end. */
  lemma StepMoves(w: World, s: State, k: nat, fuel: nat)
    requires Inv(s) && CanRun(s) && Undisturbed(w, s, Stops(s), {}, fuel)
    requires var line := w.line(s.proc.cpu.pc, s.base); forall j :: 0 <= j < k ==> OnLine(w, s, line, j)
    ensures var o, line := Exec(w, s, StepLine(fuel)), w.line(s.proc.cpu.pc, s.base);
      if line == 0 then o == Ok(s)
      else
        match NativeRun(w.isa, s.proc.image, s.proc.cpu, k)
        case None => k <= fuel ==> o == Dangling
        case Some(c) =>
          && (w.line(c.pc, s.base) != line && k <= fuel ==> o == Ok(At(s, c)))
          && (w.line(c.pc, s.base) == line && c.pc in s.locs && !s.locs[c.pc].patched ==> o == Hung)
  {
    var line := w.line(s.proc.cpu.pc, s.base);
    OnLineGoesOn(w, s, line, k);
    match NativeRun(w.isa, s.proc.image, s.proc.cpu, k)
    case None =>
      if k <= fuel {
        StepEndsWithProcess(w, s, line, k, fuel);
      }
    case Some(c) =>
      if w.line(c.pc, s.base) != line && k <= fuel {
        StepEndsWhereLineIsLeft(w, s, line, k, fuel);
      }
      if w.line(c.pc, s.base) == line && c.pc in Inert(s.locs) {
        StepNeverPassesInert(w, s, line, k, fuel);
      }
  }

  // ----- finish

  /** The return address the innermost frame has saved: the word above the saved frame pointer. */
  function ReturnWord(cpu: Cpu): (a: Addr) {
    Peek(cpu.data, (cpu.rbp + 8) % ADDRESS_SPACE) as int
  }

  lemma ReturnTargetIsWord(cpu: Cpu)
    ensures ReturnTarget(cpu) == ReturnWord(cpu)
  {
    WrapIsModulo(cpu.rbp + 8);
  }

  /** Where `finish` can stop: at a patched location, and at the return address if none is there. */
  ghost predicate FinishStop(s: State, a: int) {
    s.proc.Live? && (StopsAt(s, a) || (a == ReturnWord(s.proc.cpu) && a !in s.locs && Mapped(s, a)))
  }

  lemma FinishStopsAreThose(s: State, stops: set<int>)
    requires s.proc.Live? && forall a :: a in stops <==> FinishStop(s, a)
    ensures stops == StopsWith(s, FinishTargets(s))
  {
    ReturnTargetIsWord(s.proc.cpu);
    hide ReturnTarget, ReturnWord;
    forall a
      ensures a in stops <==> a in StopsWith(s, FinishTargets(s))
    {
      assert FinishStop(s, a) <==> a in StopsWith(s, FinishTargets(s));
    }
  }

  lemma ExecFinishes(w: World, s: State, fuel: nat)
    requires CanRun(s)
    ensures Exec(w, s, FinishFunc(fuel)) == Finish(w, s, fuel)
  {
    hide Finish;
  }

  lemma VisitGoesToStop(w: World, s: State, temps: set<int>, k: nat, fuel: nat)
    requires s.proc.Live? && FirstAt(w.isa, s.proc.image, StopsWith(s, temps), s.proc.cpu, 1, k) && k <= fuel
    ensures VisitReference(w, s, temps, fuel) == Ok(At(s, Native(w, s, k).value))
  {
    FirstStopIs(w.isa, s.proc.image, StopsWith(s, temps), s.proc.cpu, k, fuel);
  }

  /** `finish` takes the process to the first such state of its own run, and fails for a return address of 0. */
  lemma FinishGoesToStop(w: World, s: State, stops: set<int>, k: nat, fuel: nat)
    requires Inv(s) && CanRun(s) && UndisturbedTo(w, s, stops, fuel)
    requires forall a :: a in stops <==> FinishStop(s, a)
    requires FirstAt(w.isa, s.proc.image, stops, s.proc.cpu, 1, k) && k <= fuel
    ensures Exec(w, s, FinishFunc(fuel)) ==
      if ReturnWord(s.proc.cpu) == 0 then Aborted else Ok(At(s, Native(w, s, k).value))
  {
    FinishStopsAreThose(s, stops);
    ReturnTargetIsWord(s.proc.cpu);
    VisitGoesToStop(w, s, FinishTargets(s), k, fuel);
    ExecFinishes(w, s, fuel);
    assert Running(s) && s.active;
    hide *;
    FinishIsNative(w, s, fuel);
  }

  lemma FinishPlaceIsThat(s: State)
    requires s.proc.Live?
    ensures forall a :: a in FinishTargets(s) <==> a == ReturnWord(s.proc.cpu) && a !in s.locs
    ensures FinishTargets(s) != {} <==> ReturnWord(s.proc.cpu) !in s.locs
  {
    ReturnTargetIsWord(s.proc.cpu);
  }

  /** A program that ends under `finish`, before it is at a stop: with a temporary location put in, an
      assertion fails. */
  lemma FinishQuits(w: World, s: State, stops: set<int>, k: nat, fuel: nat)
    requires Inv(s) && CanRun(s) && UndisturbedTo(w, s, stops, fuel)
    requires forall a :: a in stops <==> FinishStop(s, a)
    requires EndsFirst(w, s, stops, k) && k <= fuel && ReturnWord(s.proc.cpu) != 0
    ensures var pc, ret := s.proc.cpu.pc, ReturnWord(s.proc.cpu);
      Quits(s, Exec(w, s, FinishFunc(fuel)), k == 1 && if pc in s.locs then s.locs[pc].patched else pc == ret,
            ret !in s.locs)
  {
    FinishStopsAreThose(s, stops);
    FinishPlaceIsThat(s);
    ReturnTargetIsWord(s.proc.cpu);
    VisitQuits(w, s, FinishTargets(s), k, fuel);
    ExecFinishes(w, s, fuel);
    hide Exec, Inv, UndisturbedTo, StopsWith, FinishStop, FinishTargets, VisitReference, EndsFirst, Emptied, Finish,
      ReturnTarget, ReturnWord;
    assert Running(s);
    FinishIsNative(w, s, fuel);
  }

  /** The process is where the innermost activation of the thread is. */
  ghost predicate InThread(cpu: Cpu, t: Backtrace.Thread) {
    |t.calls| > 1 && Backtrace.Linked(t.calls, t.data) && cpu.rbp == t.calls[0].fp && cpu.data == t.data
  }

  /** What `finish` and `next` take for the return address is the address where the caller resumes. */
  lemma ReturnsToCaller(cpu: Cpu, t: Backtrace.Thread)
    requires InThread(cpu, t)
    ensures ReturnTarget(cpu) == ReturnWord(cpu) == t.calls[1].pc
  {
    ReturnTargetIsWord(cpu);
    assert Backtrace.LinkedTo(t.data, t.calls[0], t.calls[1]);
  }

  /** If the process gets to where its caller resumes, with no patched location before, `finish` stops
      there, if it can; and that is in the caller's activation exactly if the frame is the caller's. */
  lemma FinishStopsInCaller(w: World, s: State, t: Backtrace.Thread, stops: set<int>, k: nat, fuel: nat)
    requires Inv(s) && CanRun(s) && InThread(s.proc.cpu, t) && UndisturbedTo(w, s, stops, fuel)
    requires forall a :: a in stops <==> FinishStop(s, a)
    requires FirstAt(w.isa, s.proc.image, stops, s.proc.cpu, 1, k) && k <= fuel
    requires Native(w, s, k).value.pc == t.calls[1].pc != 0
    ensures var o := Exec(w, s, FinishFunc(fuel));
      && o.Ok? && o.s.proc.Live? && o.s.proc.cpu.pc == t.calls[1].pc
      && (Backtrace.Activation(o.s.proc.cpu.pc, o.s.proc.cpu.rbp) == t.calls[1]
          <==> Native(w, s, k).value.rbp == t.calls[1].fp)
  {
    ReturnsToCaller(s.proc.cpu, t);
    FinishGoesToStop(w, s, stops, k, fuel);
  }

  /** A function that calls itself from 100: the call, with the callee's two pushes, takes it to its entry at
      50, in a new frame at 500, from where it returns behind the call, to 200, in the frame at 1000. */
  function Recurse(c: Cpu): Cpu {
    if c.pc == 100 then c.(pc := 50, rbp := 500, data := Backtrace.Saved(c.data, 500, 1000, 200))
    else c.(pc := 200, rbp := 1000)
  }

  function Recursion(): World {
    World(Isa(1, _ => 1, (_, c) => Ran(Recurse(c))), (_, _) => 1, (_, _) => None)
  }

  /** At the call in the frame at 1000, which was itself called from 100, in a frame at 2000. */
  function AtCall(data: Mem): Cpu {
    Cpu(100, 1000, map[], data)
  }

  function Recursing(image: Mem, data: Mem): State {
    State(true, 0, 1, map[], [], true, map[], Live(AtCall(data), image, image))
  }

  lemma RecursionIsClean(image: Mem, data: Mem)
    requires 100 in image && image[100] != INT3 && 50 in image && image[50] != INT3
    ensures UndisturbedTo(Recursion(), Recursing(image, data), {200}, 2)
  {
    var w, s := Recursion(), Recursing(image, data);
    var c := Recurse(s.proc.cpu);
    assert NativeStep(w.isa, image, s.proc.cpu) == Ran(c);
    assert NativeStep(w.isa, image, c) == Ran(Recurse(c));
    assert CleanRun(w.isa, image, {200}, {200}, c, 1);
  }

  lemma RecursionReturns(image: Mem, data: Mem)
    ensures var w, s := Recursion(), Recursing(image, data);
      && Native(w, s, 2) == Some(Recurse(Recurse(AtCall(data))))
      && FirstAt(w.isa, s.proc.image, {200}, s.proc.cpu, 1, 2)
  {
    var w, s := Recursion(), Recursing(image, data);
    var c := Recurse(s.proc.cpu);
    assert NativeStep(w.isa, image, s.proc.cpu) == Ran(c);
    assert NativeStep(w.isa, image, c) == Ran(Recurse(c));
    assert NativeRun(w.isa, image, c, 0) == Some(c);
    assert NativeRun(w.isa, image, s.proc.cpu, 1) == Some(c);
    assert NativeRun(w.isa, image, Recurse(c), 0) == Some(Recurse(c));
    assert NativeRun(w.isa, image, c, 1) == Some(Recurse(c));
  }

  /** The frame at 1000 and its caller's. */
  function TwoFrames(memory: Mem): Backtrace.Thread {
    Backtrace.Thread([Backtrace.Activation(100, 1000), Backtrace.Activation(200, 2000)],
                     Backtrace.Saved(memory, 1000, 2000, 200))
  }

  lemma TwoFramesLinked(memory: Mem)
    requires Readable(memory.Keys, 1000) && Readable(memory.Keys, 1008)
    ensures InThread(AtCall(TwoFrames(memory).data), TwoFrames(memory))
  {
    var t := TwoFrames(memory);
    Backtrace.SavedWords(memory, 1000, 2000, 200);
    Backtrace.CallLinks(t.data, 2000, 200, t.calls[0], t.calls[1]);
  }

  lemma RecursingStops(image: Mem, data: Mem, a: int)
    requires Readable(image.Keys, 200) && ReturnWord(AtCall(data)) == 200
    ensures a in {200} <==> FinishStop(Recursing(image, data), a)
  {
  }

  lemma RecursingInv(image: Mem, data: Mem)
    ensures Inv(Recursing(image, data)) && CanRun(Recursing(image, data))
  {
  }

  lemma RecursionFinishes(image: Mem, data: Mem)
    requires forall a :: 0 <= a < 4096 ==> a in image && image[a] != INT3
    requires ReturnWord(AtCall(data)) == 200
    ensures var s := Recursing(image, data);
      Exec(Recursion(), s, FinishFunc(2)) == Ok(At(s, Recurse(Recurse(AtCall(data)))))
  {
    var w, s := Recursion(), Recursing(image, data);
    assert s.proc.cpu == AtCall(data);
    RecursingInv(image, data);
    RecursionIsClean(image, data);
    RecursionReturns(image, data);
    forall a
      ensures a in {200} <==> FinishStop(s, a)
    {
      RecursingStops(image, data, a);
    }
    hide *;
    FinishGoesToStop(w, s, {200}, 2, 2);
  }

  /** In a recursive function `finish` can stop in the frame it started in: the call made there comes back
      to the same address. */
  lemma FinishCanStayInFrame(image: Mem, memory: Mem)
    requires forall a :: 0 <= a < 4096 ==> a in image && image[a] != INT3 && a in memory
    ensures var w, t := Recursion(), TwoFrames(memory);
      var s := Recursing(image, t.data); var o := Exec(w, s, FinishFunc(2));
      && Inv(s) && CanRun(s) && InThread(s.proc.cpu, t)
      && o.Ok? && o.s.proc.Live? && o.s.proc.cpu.pc == t.calls[1].pc
      && o.s.proc.cpu.rbp == t.calls[0].fp != t.calls[1].fp
  {
    var t := TwoFrames(memory);
    TwoFramesLinked(memory);
    ReturnsToCaller(AtCall(t.data), t);
    RecursingInv(image, t.data);
    hide Exec, Inv, InThread, ReturnWord, ReturnTarget, Recursion;
    RecursionFinishes(image, t.data);
  }

  // ----- next

  /** The first byte of a line, behind the pc and inside the function. */
  ghost predicate LineBegins(w: World, s: State, f: Func, a: int) {
    && s.proc.Live? && s.proc.cpu.pc < a < (f.high + s.base) % ADDRESS_SPACE
    && w.line(a, s.base) != w.line(a - 1, s.base)
  }

  /** Where `next` puts a temporary location: where there is none, at the beginning of a line further down the
      function, and outside main at the return address. */
  ghost predicate NextPlace(w: World, s: State, f: Func, a: int) {
    && s.proc.Live? && a !in s.locs
    && (LineBegins(w, s, f, a) || (f.name != "main" && a == ReturnWord(s.proc.cpu)))
  }

  /** Where `next` can stop: at a patched location and at these addresses. */
  ghost predicate NextStop(w: World, s: State, f: Func, a: int) {
    s.proc.Live? && (StopsAt(s, a) || (NextPlace(w, s, f, a) && Mapped(s, a)))
  }

  lemma NextStopsAreThose(w: World, s: State, f: Func, stops: set<int>)
    requires s.proc.Live? && forall a :: a in stops <==> NextStop(w, s, f, a)
    ensures stops == StopsWith(s, NextTargets(w, s, f))
  {
    ReturnTargetIsWord(s.proc.cpu);
    WrapIsModulo(f.high + s.base);
  }

  lemma ExecNexts(w: World, s: State, fuel: nat)
    requires CanRun(s)
    ensures Exec(w, s, NextLine(fuel)) == Next(w, s, fuel)
  {
    hide Next;
  }

  /** `next` takes the process to the first such state of its own run. */
  lemma NextGoesToStop(w: World, s: State, f: Func, stops: set<int>, k: nat, fuel: nat)
    requires Inv(s) && CanRun(s) && w.func(s.proc.cpu.pc, s.base) == Some(f) && UndisturbedTo(w, s, stops, fuel)
    requires forall a :: a in stops <==> NextStop(w, s, f, a)
    requires FirstAt(w.isa, s.proc.image, stops, s.proc.cpu, 1, k) && k <= fuel
    ensures Exec(w, s, NextLine(fuel)) ==
      if w.line(s.proc.cpu.pc, s.base) == 0 || (f.name != "main" && ReturnWord(s.proc.cpu) == 0) then Aborted
      else Ok(At(s, Native(w, s, k).value))
  {
    NextStopsAreThose(w, s, f, stops);
    ReturnTargetIsWord(s.proc.cpu);
    VisitGoesToStop(w, s, NextTargets(w, s, f), k, fuel);
    ExecNexts(w, s, fuel);
    assert Running(s) && s.active;
    hide *;
    NextIsNative(w, s, f, fuel);
  }

  lemma NextPlacesAreThose(w: World, s: State, f: Func)
    requires s.proc.Live?
    ensures forall a :: a in NextTargets(w, s, f) <==> NextPlace(w, s, f, a)
    ensures NextTargets(w, s, f) != {} <==> exists a :: NextPlace(w, s, f, a)
  {
    ReturnTargetIsWord(s.proc.cpu);
    WrapIsModulo(f.high + s.base);
  }

  /** A program that ends under `next`, before it is at a stop: with a temporary location put in, an
      assertion fails. */
  lemma NextQuits(w: World, s: State, f: Func, stops: set<int>, k: nat, fuel: nat)
    requires Inv(s) && CanRun(s) && w.func(s.proc.cpu.pc, s.base) == Some(f) && UndisturbedTo(w, s, stops, fuel)
    requires forall a :: a in stops <==> NextStop(w, s, f, a)
    requires EndsFirst(w, s, stops, k) && k <= fuel
    requires w.line(s.proc.cpu.pc, s.base) != 0 && (f.name == "main" || ReturnWord(s.proc.cpu) != 0)
    ensures var pc := s.proc.cpu.pc;
      Quits(s, Exec(w, s, NextLine(fuel)),
            k == 1 && if pc in s.locs then s.locs[pc].patched else NextPlace(w, s, f, pc),
            exists a :: NextPlace(w, s, f, a))
  {
    NextStopsAreThose(w, s, f, stops);
    NextPlacesAreThose(w, s, f);
    ReturnTargetIsWord(s.proc.cpu);
    VisitQuits(w, s, NextTargets(w, s, f), k, fuel);
    ExecNexts(w, s, fuel);
    hide Exec, Inv, UndisturbedTo, StopsWith, NextStop, NextTargets, VisitReference, EndsFirst, Emptied, Next,
      ReturnTarget, ReturnWord;
    assert Running(s);
    NextIsNative(w, s, f, fuel);
  }

  /** Outside every known function `next` does nothing. */
  lemma NextNeedsFunction(w: World, s: State, fuel: nat)
    requires CanRun(s) && w.func(s.proc.cpu.pc, s.base).None?
    ensures Exec(w, s, NextLine(fuel)) == Ok(s)
  {
  }
}
