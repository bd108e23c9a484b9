/** Whole debugging sessions: runs of commands, what holds after every one of them, and where
    they take the process. */
module Sessions {
  import opened Memory
  import opened Machine
  import opened Model
  import opened Invariants
  import opened Bulk
  import opened Resolution
  import opened Rules
  import opened Transparency
  import opened Stepping

  /** `fuel` bounds the instructions awaited; `confirmed` is the user's answer on a live process. */
  datatype Command =
    | Break(addr: Addr) | Delete(id: nat) | Enable(id: nat) | Disable(id: nat)
    | DeleteAll | EnableAll | DisableAll
    | Run(prog: Program, confirmed: bool, fuel: nat) | Restart(prog: Program, fuel: nat) | Kill
    | Cont(fuel: nat) | StepI | StepLine(fuel: nat) | NextLine(fuel: nat) | FinishFunc(fuel: nat)
  {
    predicate Launches() {
      (Run? && confirmed) || Restart?
    }
  }

  /** Starting a process: its breakpoints are resolved, then it runs. */
  function Launch(w: World, s: State, prog: Program, fuel: nat): Outcome {
    if ResolveAborts(Loaded(s, prog)) then Aborted else Continue(w, Resolve(Loaded(s, prog)), fuel)
  }

  /** There is a process to run; being active and having one agree in every reachable state. */
  predicate CanRun(s: State) {
    s.active && s.proc.Live?
  }

  /** One command; those that need a process are refused without one. */
  function Exec(w: World, s: State, c: Command): Outcome {
    match c
    case Break(addr) => if SetAborts(s, addr) then Aborted else Ok(SetBp(s, addr))
    case Delete(id) => Ok(Remove(s, id))
    case Enable(id) => Ok(EnableBp(s, id))
    case Disable(id) => Ok(DisableBp(s, id))
    case DeleteAll => Ok(DeleteEach(s, s.pending))
    case EnableAll => Ok(EnableEach(s, s.pending))
    case DisableAll => Ok(DisableEach(s, s.pending))
    case Run(prog, confirmed, fuel) =>
      if !s.active then Launch(w, s, prog, fuel)
      else if confirmed then Launch(w, Cleanup(s), prog, fuel)
      else Ok(s)
    case Restart(prog, fuel) => if s.active then Launch(w, Cleanup(s), prog, fuel) else Ok(s)
    case Kill => if s.active then Ok(Cleanup(s)) else Ok(s)
    case Cont(fuel) => if CanRun(s) then Continue(w, s, fuel) else Ok(s)
    case StepI => if CanRun(s) then StepInstruction(w, s) else Ok(s)
    case StepLine(fuel) => if CanRun(s) then StepIn(w, s, fuel) else Ok(s)
    case NextLine(fuel) => if CanRun(s) then Next(w, s, fuel) else Ok(s)
    case FinishFunc(fuel) => if CanRun(s) then Finish(w, s, fuel) else Ok(s)
  }

  // ----- running the process changes the engine in no way but these

  /** The process is elsewhere or gone; nothing else has happened. */
  ghost predicate OnlyRan(s: State, r: State) {
    s.proc.Live? && (r == Cleanup(s) || (r.proc.Live? && r == At(s, r.proc.cpu)))
  }

  lemma StepOverOnlyRuns(w: World, s: State, a: int)
    requires Running(s) && s.active
    ensures var o := StepOverLoc(w, s, a); o.Ok? ==> o.s.proc.Live? && o.s == At(s, o.s.proc.cpu)
  {
    if a in s.locs && s.locs[a].patched {
      DisableLocShape(s, a);
      match SingleStep(w, DisableLoc(s, a))
      case Ok(s1) =>
        if s1.active {
          UnpatchRepatch(s, a, s1.proc.cpu);
        }
      case other =>
    }
  }

  lemma ContinueOnlyRuns(w: World, s: State, fuel: nat)
    requires Running(s) && s.active
    ensures var o := Continue(w, s, fuel); o.Ok? ==> OnlyRan(s, o.s)
  {
    StepOverOnlyRuns(w, s, s.proc.cpu.pc);
  }

  lemma StepInstructionOnlyRuns(w: World, s: State)
    requires Running(s) && s.active
    ensures var o := StepInstruction(w, s); o.Ok? ==> OnlyRan(s, o.s)
  {
    StepOverOnlyRuns(w, s, s.proc.cpu.pc);
  }

  lemma {:induction false} StepWhileOnlyRuns(w: World, s: State, line: int, fuel: nat)
    requires Running(s) && s.active
    ensures var o := StepWhile(w, s, line, fuel); o.Ok? ==> OnlyRan(s, o.s)
    decreases fuel
  {
    if CurrentLine(w, s) == line && fuel > 0 {
      StepInstructionOnlyRuns(w, s);
      match StepInstruction(w, s)
      case Ok(s1) =>
        if s1.proc.Live? {
          CpuKeepsRunning(s, s1.proc.cpu);
          StepWhileOnlyRuns(w, s1, line, fuel - 1);
        }
      case other =>
    }
  }

  lemma VisitOnlyRuns(w: World, s: State, t: State, temps: seq<int>, fuel: nat)
    requires Running(s) && s.active && Running(t) && WithTemps(s, t, temps)
    ensures var o := ContinueAndUnset(w, t, temps, fuel); o.Ok? ==> OnlyRan(s, o.s)
  {
    ContinueOnlyRuns(w, t, fuel);
    match Continue(w, t, fuel)
    case Ok(t1) =>
      if t1.active {
        TempsLeaveNothing(s, t, temps, t1.proc.cpu);
      } else {
        assert Cleanup(t) == Cleanup(s);
      }
    case other =>
  }

  lemma NextInOnlyRuns(w: World, s: State, f: Func, fuel: nat)
    requires Running(s) && s.active && w.func(s.proc.cpu.pc, s.base) == Some(f)
    ensures var o := Next(w, s, fuel); o.Ok? ==> OnlyRan(s, o.s)
  {
    if !(f.name != "main" && ReturnTarget(s.proc.cpu) == 0) {
      NextPlaces(w, s, f);
      VisitOnlyRuns(w, s, Targets(w, s, f).s, Targets(w, s, f).temps, fuel);
    }
  }

  lemma NextOnlyRuns(w: World, s: State, fuel: nat)
    requires Running(s) && s.active
    ensures var o := Next(w, s, fuel); o.Ok? ==> OnlyRan(s, o.s)
  {
    match w.func(s.proc.cpu.pc, s.base)
    case None =>
    case Some(f) => NextInOnlyRuns(w, s, f, fuel);
  }

  lemma FinishOnlyRuns(w: World, s: State, fuel: nat)
    requires Running(s) && s.active
    ensures var o := Finish(w, s, fuel); o.Ok? ==> OnlyRan(s, o.s)
  {
    var ret := ReturnTarget(s.proc.cpu);
    if ret != 0 {
      FinishPlaces(s, ret);
      VisitOnlyRuns(w, s, SetTemp(s, ret), if ret in s.locs then [] else [ret], fuel);
    }
  }

  lemma OnlyRanKeepsInv(s: State, r: State)
    requires Inv(s) && s.active && OnlyRan(s, r)
    ensures Inv(r)
  {
    if r == Cleanup(s) {
      CleanupKeepsInv(s);
    } else {
      CpuKeepsRunning(s, r.proc.cpu);
    }
  }

  lemma OnlyRanKeepsRule(s: State, r: State)
    requires RuleHolds(s) && OnlyRan(s, r)
    ensures RuleHolds(r)
  {
  }

  /** The commands that run the process leave the engine alone, whatever the process does. */
  lemma RunningOnlyRuns(w: World, s: State, c: Command)
    requires Running(s) && s.active && (c.Cont? || c.StepI? || c.StepLine? || c.NextLine? || c.FinishFunc?)
    ensures Exec(w, s, c).Ok? ==> OnlyRan(s, Exec(w, s, c).s)
  {
    match c
    case Cont(fuel) => ContinueOnlyRuns(w, s, fuel);
    case StepI => StepInstructionOnlyRuns(w, s);
    case StepLine(fuel) => StepWhileOnlyRuns(w, s, CurrentLine(w, s), fuel);
    case NextLine(fuel) => NextOnlyRuns(w, s, fuel);
    case FinishFunc(fuel) => FinishOnlyRuns(w, s, fuel);
  }

  lemma LaunchKeepsInv(w: World, s: State, prog: Program, fuel: nat)
    requires Inv(s) && !s.active
    ensures Launch(w, s, prog, fuel).Ok? ==> Inv(Launch(w, s, prog, fuel).s) && RuleHolds(Launch(w, s, prog, fuel).s)
  {
    if !ResolveAborts(Loaded(s, prog)) {
      var r := Resolve(Loaded(s, prog));
      ResolveGroups(s, prog);
      ResolveGivesRule(s, prog);
      ContinueOnlyRuns(w, r, fuel);
      if Continue(w, r, fuel).Ok? {
        OnlyRanKeepsInv(r, Continue(w, r, fuel).s);
        OnlyRanKeepsRule(r, Continue(w, r, fuel).s);
      }
    }
  }

  /** Every command keeps the invariant. */
  lemma ExecKeepsInv(w: World, s: State, c: Command)
    requires Inv(s)
    ensures Exec(w, s, c).Ok? ==> Inv(Exec(w, s, c).s)
  {
    match c
    case Break(addr) => if !SetAborts(s, addr) { SetKeepsInv(s, addr); }
    case Delete(id) => RemoveKeepsInv(s, id);
    case Enable(id) => EnableBpKeepsInv(s, id);
    case Disable(id) => DisableBpKeepsInv(s, id);
    case DeleteAll => DeleteAllIsComplete(s);
    case EnableAll => EnableAllErasesHistory(s);
    case DisableAll => DisableAllErasesHistory(s);
    case Run(prog, confirmed, fuel) =>
      CleanupKeepsInv(s);
      LaunchKeepsInv(w, if s.active then Cleanup(s) else s, prog, fuel);
    case Restart(prog, fuel) =>
      CleanupKeepsInv(s);
      LaunchKeepsInv(w, Cleanup(s), prog, fuel);
    case Kill => CleanupKeepsInv(s);
    case other =>
      if s.active {
        RunningOnlyRuns(w, s, c);
        if Exec(w, s, c).Ok? {
          OnlyRanKeepsInv(s, Exec(w, s, c).s);
        }
      }
  }

  lemma RemoveKeepsInv(s: State, id: nat)
    requires Inv(s)
    ensures Inv(Remove(s, id))
  {
    RemoveKeepsWf(s, id);
  }

  lemma EnableBpKeepsInv(s: State, id: nat)
    requires Inv(s)
    ensures Inv(EnableBp(s, id))
  {
    EnableBpKeepsWf(s, id);
    if id in s.bps {
      EnableBpEffect(s, id);
      InvOfSameShape(s, EnableBp(s, id));
    }
  }

  lemma DisableBpKeepsInv(s: State, id: nat)
    requires Inv(s)
    ensures Inv(DisableBp(s, id))
  {
    DisableBpKeepsWf(s, id);
    if id in s.bps {
      DisableBpEffect(s, id);
      InvOfSameShape(s, DisableBp(s, id));
    }
  }

  /** Every command but the deletion of a single breakpoint keeps the patching rule. */
  lemma ExecKeepsRule(w: World, s: State, c: Command)
    requires Inv(s) && RuleHolds(s) && !c.Delete?
    ensures Exec(w, s, c).Ok? ==> RuleHolds(Exec(w, s, c).s)
  {
    match c
    case Break(addr) => SetKeepsRule(s, addr);
    case Enable(id) => EnableBpKeepsRule(s, id);
    case Disable(id) => DisableBpKeepsRule(s, id);
    case DeleteAll => DeleteAllGivesRule(s);
    case EnableAll => EnableAllGivesRule(s);
    case DisableAll => DisableAllGivesRule(s);
    case Run(prog, confirmed, fuel) =>
      CleanupKeepsInv(s);
      LaunchKeepsInv(w, if s.active then Cleanup(s) else s, prog, fuel);
    case Restart(prog, fuel) =>
      CleanupKeepsInv(s);
      LaunchKeepsInv(w, Cleanup(s), prog, fuel);
    case Kill =>
    case Delete(id) =>
    case other =>
      if s.active {
        RunningOnlyRuns(w, s, c);
        if Exec(w, s, c).Ok? {
          OnlyRanKeepsRule(s, Exec(w, s, c).s);
        }
      }
  }

  // ----- runs of commands

  function Session(w: World, s: State, cmds: seq<Command>): Outcome
    decreases |cmds|
  {
    if cmds == [] then Ok(s)
    else
      match Exec(w, s, cmds[0])
      case Ok(s1) => Session(w, s1, cmds[1..])
      case other => other
  }

  /** After any run of commands from the start: the id map and the pending ring agree, every
      breakpoint is where it belongs, the code is the image under the patches of the location map,
      and the map exists exactly while the process does. */
  lemma {:induction false} SessionKeepsInv(w: World, s: State, cmds: seq<Command>)
    requires Inv(s)
    ensures Session(w, s, cmds).Ok? ==> Inv(Session(w, s, cmds).s)
    decreases |cmds|
  {
    if cmds != [] {
      ExecKeepsInv(w, s, cmds[0]);
      if Exec(w, s, cmds[0]).Ok? {
        SessionKeepsInv(w, Exec(w, s, cmds[0]).s, cmds[1..]);
      }
    }
  }

  lemma StartKeepsInv()
    ensures Inv(START) && RuleHolds(START)
  {
  }

  /** After any run of commands without single deletions, patches follow the enable flags. */
  lemma {:induction false} SessionKeepsRule(w: World, s: State, cmds: seq<Command>)
    requires Inv(s) && RuleHolds(s) && forall i :: 0 <= i < |cmds| ==> !cmds[i].Delete?
    ensures Session(w, s, cmds).Ok? ==> RuleHolds(Session(w, s, cmds).s)
    decreases |cmds|
  {
    if cmds != [] {
      ExecKeepsInv(w, s, cmds[0]);
      ExecKeepsRule(w, s, cmds[0]);
      if Exec(w, s, cmds[0]).Ok? {
        SessionKeepsRule(w, Exec(w, s, cmds[0]).s, cmds[1..]);
      }
    }
  }

  // ----- the process a command runs

  /** The program a command starts, if it starts one. */
  function Launched(s: State, c: Command): Option<Program> {
    match c
    case Run(prog, confirmed, fuel) => if s.active && !confirmed then None else Some(prog)
    case Restart(prog, fuel) => if s.active then Some(prog) else None
    case other => None
  }

  /** The engine once its process is killed, if it has one. */
  function WithoutProcess(s: State): State {
    if s.active then Cleanup(s) else s
  }

  /** The engine with a fresh process and its breakpoints resolved, before its first instruction. */
  function Fresh(s: State, prog: Program): (r: State)
    ensures CanRun(r)
  {
    Resolve(Loaded(WithoutProcess(s), prog))
  }

  /** The state a command lets the process run from. */
  function Runner(s: State, c: Command): State {
    match Launched(s, c)
    case Some(prog) => Fresh(s, prog)
    case None => s
  }

  function Budget(c: Command): nat {
    match c
    case Run(prog, confirmed, fuel) => fuel
    case Restart(prog, fuel) => fuel
    case Cont(fuel) => fuel
    case StepLine(fuel) => fuel
    case NextLine(fuel) => fuel
    case FinishFunc(fuel) => fuel
    case other => 0
  }

  /** The addresses that are patched while a command runs its process. */
  function SitesOf(w: World, s: State, c: Command): set<int>
    requires Runner(s, c).proc.Live?
  {
    match c
    case NextLine(fuel) =>
      (match w.func(s.proc.cpu.pc, s.base)
       case None => Stops(s)
       case Some(f) => StopsWith(s, NextTargets(w, s, f)))
    case FinishFunc(fuel) => StopsWith(s, FinishTargets(s))
    case other => Stops(Runner(s, c))
  }

  /** The program does nothing, within the budget, that a debugger cannot hide from. */
  ghost predicate Calm(w: World, s: State, c: Command) {
    var b := Runner(s, c);
    CanRun(b) ==>
      if c.StepLine? then Undisturbed(w, b, Stops(b), {}, Budget(c))
      else UndisturbedTo(w, b, SitesOf(w, s, c), Budget(c))
  }

  lemma RunnerKeepsInv(s: State, prog: Program)
    requires Inv(s) && !ResolveAborts(Loaded(WithoutProcess(s), prog))
    ensures Inv(Fresh(s, prog))
    ensures Fresh(s, prog).proc.cpu == prog.entry && Fresh(s, prog).proc.image == prog.image
  {
    CleanupKeepsInv(s);
    ResolveGroups(WithoutProcess(s), prog);
  }

  /** Starting a process ends in the first state of its native run, from its entry point on and after
      at least one instruction, at the address of a resolved and patched breakpoint. */
  lemma LaunchIsNative(w: World, s: State, prog: Program, fuel: nat)
    requires Inv(s) && UndisturbedTo(w, Fresh(s, prog), Stops(Fresh(s, prog)), fuel)
    ensures Launch(w, WithoutProcess(s), prog, fuel) ==
      if ResolveAborts(Loaded(WithoutProcess(s), prog)) then Aborted
      else ContinueReference(w, Fresh(s, prog), Stops(Fresh(s, prog)), fuel)
  {
    if !ResolveAborts(Loaded(WithoutProcess(s), prog)) {
      RunnerKeepsInv(s, prog);
      ContinueIsNative(w, Fresh(s, prog), fuel);
    }
  }

  lemma LaunchingCommand(w: World, s: State, c: Command)
    requires Launched(s, c).Some?
    ensures Exec(w, s, c) == Launch(w, WithoutProcess(s), Launched(s, c).value, Budget(c))
  {
  }

  lemma LaunchingExec(w: World, s: State, c: Command)
    requires Inv(s) && Calm(w, s, c) && Launched(s, c).Some?
    ensures CanRun(Runner(s, c))
    ensures Exec(w, s, c) ==
      if ResolveAborts(Loaded(WithoutProcess(s), Launched(s, c).value)) then Aborted
      else ContinueReference(w, Runner(s, c), Stops(Runner(s, c)), Budget(c))
  {
    LaunchingCommand(w, s, c);
    LaunchIsNative(w, s, Launched(s, c).value, Budget(c));
  }

  /** After a restart at the same load address, if the process is still there, every location that had
      a breakpoint has the same ones, and the same patch if they agree. */
  lemma RestartKeepsAgreement(w: World, s: State, prog: Program, fuel: nat)
    requires Inv(s) && RuleHolds(s) && s.active && prog.base == s.base
    requires Exec(w, s, Restart(prog, fuel)).Ok? && Exec(w, s, Restart(prog, fuel)).s.active
    ensures AgreesWith(s, Exec(w, s, Restart(prog, fuel)).s)
  {
    RestartKeepsAgreedPatches(s, prog);
    RunnerKeepsInv(s, prog);
    ContinueOnlyRuns(w, Fresh(s, prog), fuel);
  }

  // ----- when commands abort

  /** The process ends while there are temporary locations, after the step over the pc if there is one. */
  ghost predicate EndsUnderTemps(w: World, s: State, temps: set<int>, fuel: nat)
    requires s.proc.Live?
  {
    && temps != {} && FirstStop(w.isa, s.proc.image, StopsWith(s, temps), s.proc.cpu, fuel).Ended?
    && !((StepsOver(s) || s.proc.cpu.pc in temps) && NativeStep(w.isa, s.proc.image, s.proc.cpu).Exited?)
  }

  /** The assertions on a command's own arguments and on the life of the process; none is about a trap. */
  ghost predicate AssertionFails(w: World, s: State, c: Command) {
    match c
    case Break(addr) => SetAborts(s, addr)
    case NextLine(fuel) =>
      CanRun(s) && w.func(s.proc.cpu.pc, s.base).Some? &&
      var f := w.func(s.proc.cpu.pc, s.base).value;
      || CurrentLine(w, s) == 0 || (f.name != "main" && ReturnTarget(s.proc.cpu) == 0)
      || EndsUnderTemps(w, s, NextTargets(w, s, f), fuel)
    case FinishFunc(fuel) =>
      CanRun(s) && (ReturnTarget(s.proc.cpu) == 0 || EndsUnderTemps(w, s, FinishTargets(s), fuel))
    case other =>
      Launched(s, c).Some? && ResolveAborts(Loaded(WithoutProcess(s), Launched(s, c).value))
  }

  lemma VisitAborts(w: World, s: State, temps: set<int>, fuel: nat)
    requires s.proc.Live?
    ensures VisitReference(w, s, temps, fuel).Aborted? <==> EndsUnderTemps(w, s, temps, fuel)
  {
  }

  lemma NextAborts(w: World, s: State, fuel: nat)
    requires Inv(s) && CanRun(s) && Calm(w, s, NextLine(fuel))
    ensures Next(w, s, fuel).Aborted? <==> AssertionFails(w, s, NextLine(fuel))
  {
    match w.func(s.proc.cpu.pc, s.base)
    case None =>
    case Some(f) =>
      NextIsNative(w, s, f, fuel);
      VisitAborts(w, s, NextTargets(w, s, f), fuel);
  }

  lemma RunAborts(w: World, s: State, c: Command)
    requires Inv(s) && CanRun(s) && Calm(w, s, c) && (c.Cont? || c.StepI? || c.StepLine?)
    ensures !Exec(w, s, c).Aborted?
  {
    match c
    case Cont(fuel) => ContinueIsNative(w, s, fuel);
    case StepI => StepInstructionIsNative(w, s);
    case StepLine(fuel) => StepWhileIsNative(w, s, CurrentLine(w, s), fuel);
  }

  lemma FinishAborts(w: World, s: State, fuel: nat)
    requires Inv(s) && CanRun(s) && Calm(w, s, FinishFunc(fuel))
    ensures Finish(w, s, fuel).Aborted? <==> AssertionFails(w, s, FinishFunc(fuel))
  {
    FinishIsNative(w, s, fuel);
    VisitAborts(w, s, FinishTargets(s), fuel);
  }

  lemma LaunchAborts(w: World, s: State, c: Command)
    requires Inv(s) && Calm(w, s, c) && Launched(s, c).Some?
    ensures Exec(w, s, c).Aborted? <==> AssertionFails(w, s, c)
  {
    LaunchingExec(w, s, c);
  }

  /** A command aborts exactly when one of these assertions fails: no command ever meets a trap whose
      location is unknown or has no breakpoint to report. */
  lemma HitsNeverAbort(w: World, s: State, c: Command)
    requires Inv(s) && Calm(w, s, c)
    ensures Exec(w, s, c).Aborted? <==> AssertionFails(w, s, c)
  {
    if Launched(s, c).Some? {
      LaunchAborts(w, s, c);
    } else if CanRun(s) {
      match c
      case NextLine(fuel) => NextAborts(w, s, fuel);
      case FinishFunc(fuel) => FinishAborts(w, s, fuel);
      case Cont(fuel) => RunAborts(w, s, c);
      case StepI => RunAborts(w, s, c);
      case StepLine(fuel) => RunAborts(w, s, c);
      case other =>
    }
  }

  ghost predicate CalmAll(w: World, s: State, cmds: seq<Command>)
    decreases |cmds|
  {
    cmds == [] ||
    (Calm(w, s, cmds[0]) && (Exec(w, s, cmds[0]).Ok? ==> CalmAll(w, Exec(w, s, cmds[0]).s, cmds[1..])))
  }

  ghost predicate AssertionFailsIn(w: World, s: State, cmds: seq<Command>)
    decreases |cmds|
  {
    cmds != [] &&
    (AssertionFails(w, s, cmds[0]) ||
     (Exec(w, s, cmds[0]).Ok? && AssertionFailsIn(w, Exec(w, s, cmds[0]).s, cmds[1..])))
  }

  lemma {:induction false} SessionAbortsFrom(w: World, s: State, cmds: seq<Command>)
    requires Inv(s) && CalmAll(w, s, cmds)
    ensures Session(w, s, cmds).Aborted? <==> AssertionFailsIn(w, s, cmds)
    decreases |cmds|
  {
    if cmds != [] {
      HitsNeverAbort(w, s, cmds[0]);
      if Exec(w, s, cmds[0]).Ok? {
        ExecKeepsInv(w, s, cmds[0]);
        SessionAbortsFrom(w, Exec(w, s, cmds[0]).s, cmds[1..]);
      }
    }
  }

  /** From the start, no run of commands, deletions included, aborts at a breakpoint. */
  lemma SessionsNeverAbortAtHits(w: World, cmds: seq<Command>)
    requires CalmAll(w, START, cmds)
    ensures Session(w, START, cmds).Aborted? <==> AssertionFailsIn(w, START, cmds)
  {
    StartKeepsInv();
    SessionAbortsFrom(w, START, cmds);
  }

  // ----- where commands take the process

  /** How far along the native run a command takes a process that survives it. */
  ghost predicate Advances(w: World, s: State, c: Command, k: nat)
    requires CanRun(Runner(s, c))
  {
    match c
    case Cont(fuel) => FirstAt(w.isa, s.proc.image, Stops(s), s.proc.cpu, 1, k)
    case StepI => k == if s.proc.cpu.pc in Inert(s.locs) then 0 else 1
    case StepLine(fuel) => if CurrentLine(w, s) == 0 then k == 0 else Leaves(w, s, CurrentLine(w, s), k)
    case NextLine(fuel) =>
      (match w.func(s.proc.cpu.pc, s.base)
       case None => k == 0
       case Some(f) => FirstAt(w.isa, s.proc.image, StopsWith(s, NextTargets(w, s, f)), s.proc.cpu, 1, k))
    case FinishFunc(fuel) => FirstAt(w.isa, s.proc.image, StopsWith(s, FinishTargets(s)), s.proc.cpu, 1, k)
    case other =>
      var b := Runner(s, c);
      if Launched(s, c).Some? then FirstAt(w.isa, b.proc.image, Stops(b), b.proc.cpu, 1, k) else k == 0
  }

  /** What a command that came to `r` has to do with the native run of the process it ran: a process
      that is there is `k` instructions further, and a process is gone only if it was killed or if its
      native run ends. */
  ghost predicate Tracks(w: World, s: State, c: Command, r: State, k: nat) {
    var b := Runner(s, c);
    if !CanRun(b) then r.proc.Dead?
    else if r.active then
      r.proc.Live? && r.proc.image == b.proc.image && Native(w, b, k) == Some(r.proc.cpu) && Advances(w, s, c, k)
    else
      r.proc.Dead? && (c.Kill? || Native(w, b, k).None?)
  }

  /** The native run comes to a stop, or ends. */
  ghost predicate Lands(w: World, b: State, stops: set<int>, r: State, k: nat)
    requires b.proc.Live?
  {
    if r.active then FirstAt(w.isa, b.proc.image, stops, b.proc.cpu, 1, k) && r == At(b, Native(w, b, k).value)
    else r == Cleanup(b) && Native(w, b, k).None?
  }

  lemma StopLands(w: World, b: State, stops: set<int>, fuel: nat, r: State) returns (k: nat)
    requires CanRun(b)
    requires match FirstStop(w.isa, b.proc.image, stops, b.proc.cpu, fuel)
      case Hit(c) => r == At(b, c)
      case Ended => r == Cleanup(b)
      case NotYet => false
    ensures Lands(w, b, stops, r, k)
  {
    FirstStopMeaning(w.isa, b.proc.image, stops, b.proc.cpu, fuel);
    match FirstStop(w.isa, b.proc.image, stops, b.proc.cpu, fuel)
    case Hit(c) =>
      k :| k <= fuel && FirstAt(w.isa, b.proc.image, stops, b.proc.cpu, 1, k) && Native(w, b, k) == Some(c);
    case Ended =>
      k :| k <= fuel && NativeRun(w.isa, b.proc.image, b.proc.cpu, k).None?;
  }

  lemma ContinueLands(w: World, b: State, fuel: nat) returns (k: nat)
    requires CanRun(b) && ContinueReference(w, b, Stops(b), fuel).Ok?
    ensures Lands(w, b, Stops(b), ContinueReference(w, b, Stops(b), fuel).s, k)
  {
    k := StopLands(w, b, Stops(b), fuel, ContinueReference(w, b, Stops(b), fuel).s);
  }

  lemma VisitLands(w: World, s: State, temps: set<int>, fuel: nat) returns (k: nat)
    requires CanRun(s) && VisitReference(w, s, temps, fuel).Ok?
    ensures Lands(w, s, StopsWith(s, temps), VisitReference(w, s, temps, fuel).s, k)
  {
    k := StopLands(w, s, StopsWith(s, temps), fuel, VisitReference(w, s, temps, fuel).s);
  }

  lemma LaunchTracks(w: World, s: State, c: Command) returns (k: nat)
    requires Inv(s) && Calm(w, s, c) && Launched(s, c).Some? && Exec(w, s, c).Ok?
    ensures Tracks(w, s, c, Exec(w, s, c).s, k)
  {
    LaunchingExec(w, s, c);
    k := ContinueLands(w, Runner(s, c), Budget(c));
    LandingTracks(w, s, c, Exec(w, s, c).s, k);
  }

  lemma LandingTracks(w: World, s: State, c: Command, r: State, k: nat)
    requires Launched(s, c).Some? && CanRun(Runner(s, c)) && Lands(w, Runner(s, c), Stops(Runner(s, c)), r, k)
    ensures Tracks(w, s, c, r, k)
  {
  }

  lemma StepTracks(w: World, s: State, fuel: nat) returns (k: nat)
    requires Inv(s) && CanRun(s) && Calm(w, s, StepLine(fuel)) && StepIn(w, s, fuel).Ok?
    ensures Tracks(w, s, StepLine(fuel), StepIn(w, s, fuel).s, k)
  {
    var line := CurrentLine(w, s);
    k := 0;
    if line != 0 {
      StepWhileIsNative(w, s, line, fuel);
      var r := StepWhile(w, s, line, fuel).s;
      k :| k <= fuel && Leaves(w, s, line, k) && r == At(s, Native(w, s, k).value);
    }
  }

  lemma StepInstructionTracks(w: World, s: State) returns (k: nat)
    requires Inv(s) && CanRun(s) && Calm(w, s, StepI) && StepInstruction(w, s).Ok?
    ensures Tracks(w, s, StepI, StepInstruction(w, s).s, k)
  {
    StepInstructionIsNative(w, s);
    assert Native(w, s, 0) == Some(s.proc.cpu);
    k := if s.proc.cpu.pc in Inert(s.locs) then 0 else 1;
    if k == 1 && NativeStep(w.isa, s.proc.image, s.proc.cpu).Ran? {
      var next := NativeStep(w.isa, s.proc.image, s.proc.cpu).cpu;
      assert NativeRun(w.isa, s.proc.image, next, 0) == Some(next);
      assert Native(w, s, 1) == Some(next);
    }
  }

  lemma NextTracks(w: World, s: State, fuel: nat) returns (k: nat)
    requires Inv(s) && CanRun(s) && Calm(w, s, NextLine(fuel)) && Next(w, s, fuel).Ok?
    ensures Tracks(w, s, NextLine(fuel), Next(w, s, fuel).s, k)
  {
    k := 0;
    match w.func(s.proc.cpu.pc, s.base)
    case None =>
    case Some(f) =>
      NextIsNative(w, s, f, fuel);
      k := VisitLands(w, s, NextTargets(w, s, f), fuel);
  }

  predicate Runs(c: Command) {
    c.Cont? || c.StepI? || c.StepLine? || c.NextLine? || c.FinishFunc? || c.Kill?
  }

  /** Commands on breakpoints do not move the process, and none moves one that is not there. */
  lemma QuietKeepsProcess(w: World, s: State, c: Command)
    requires Inv(s) && Launched(s, c).None? && Exec(w, s, c).Ok? && (!CanRun(s) || !Runs(c))
    ensures SameProcess(s.proc, Exec(w, s, c).s.proc)
  {
    match c
    case Break(addr) => SetKeepsInv(s, addr);
    case Delete(id) => RemoveKeepsWf(s, id);
    case Enable(id) => EnableBpKeepsWf(s, id); if id in s.bps { EnableBpEffect(s, id); }
    case Disable(id) => DisableBpKeepsWf(s, id); if id in s.bps { DisableBpEffect(s, id); }
    case DeleteAll => DeleteAllIsComplete(s);
    case EnableAll => EnableEachAlong(s, s.pending);
    case DisableAll => DisableEachAlong(s, s.pending);
    case other =>
  }

  lemma QuietTracks(w: World, s: State, c: Command)
    requires Inv(s) && Launched(s, c).None? && Exec(w, s, c).Ok? && (!CanRun(s) || !Runs(c))
    ensures Tracks(w, s, c, Exec(w, s, c).s, 0)
  {
    ExecKeepsInv(w, s, c);
    QuietKeepsProcess(w, s, c);
    assert s.proc.Live? ==> Native(w, s, 0) == Some(s.proc.cpu);
  }

  /** Where a command takes its process, whatever the command. */
  lemma ExecAdvances(w: World, s: State, c: Command) returns (k: nat)
    requires Inv(s) && Calm(w, s, c) && Exec(w, s, c).Ok?
    ensures Tracks(w, s, c, Exec(w, s, c).s, k)
  {
    k := 0;
    if Launched(s, c).Some? {
      k := LaunchTracks(w, s, c);
    } else if CanRun(s) && Runs(c) {
      match c
      case Kill =>
      case Cont(fuel) =>
        ContinueIsNative(w, s, fuel);
        k := ContinueLands(w, s, fuel);
      case StepI => k := StepInstructionTracks(w, s);
      case StepLine(fuel) => k := StepTracks(w, s, fuel);
      case NextLine(fuel) => k := NextTracks(w, s, fuel);
      case FinishFunc(fuel) =>
        FinishIsNative(w, s, fuel);
        k := VisitLands(w, s, FinishTargets(s), fuel);
    } else {
      QuietTracks(w, s, c);
    }
  }

  /** The commands that are not for running the process, and those that are refused. */
  predicate Idles(w: World, s: State, c: Command)
    requires CanRun(Runner(s, c))
  {
    match c
    case StepI => s.proc.cpu.pc in Inert(s.locs)
    case StepLine(fuel) => CurrentLine(w, s) == 0
    case NextLine(fuel) => w.func(s.proc.cpu.pc, s.base).None?
    case Cont(fuel) => false
    case FinishFunc(fuel) => false
    case other => Launched(s, c).None?
  }

  /** A command leaves a process where it was exactly if it is one of these. */
  lemma StuttersExactly(w: World, s: State, c: Command, r: State, k: nat)
    requires CanRun(Runner(s, c)) && r.active && Tracks(w, s, c, r, k)
    ensures k == 0 <==> Idles(w, s, c)
  {
    if c.StepLine? {
      assert Native(w, s, 0) == Some(s.proc.cpu);
    }
  }

  // ----- unpatched locations

  /** From every active state there is a way to an unpatched location, where no process can be stopped:
      set a breakpoint at a fresh address and disable it. */
  lemma UnpatchedIsReachable(w: World, s: State, instrAddr: Addr)
    requires Inv(s) && s.active && Wrap(instrAddr + s.base) != 0 && Wrap(instrAddr + s.base) !in s.locs
    ensures var m, a := DisableBp(SetBp(s, instrAddr), s.nextId), Wrap(instrAddr + s.base);
      && Session(w, s, [Break(instrAddr), Disable(s.nextId)]) == Ok(m) && Inv(m) && CanRun(m)
      && SameProcess(s.proc, m.proc) && m.base == s.base && a in Inert(m.locs) && !CanStopAt(m, a)
  {
    hide Inv, SetBp, DisableBp, Session, CanStopAt, Inert, Alone;
    SetAlone(s, instrAddr);
    DisableAlone(SetBp(s, instrAddr), s.nextId, Wrap(instrAddr + s.base));
    BreakThenDisable(w, s, instrAddr, s.nextId);
  }

  lemma BreakThenDisable(w: World, s: State, instrAddr: Addr, id: nat)
    requires !SetAborts(s, instrAddr)
    ensures Session(w, s, [Break(instrAddr), Disable(id)]) == Ok(DisableBp(SetBp(s, instrAddr), id))
  {
    TwoCommands(w, s, Break(instrAddr), Disable(id), SetBp(s, instrAddr));
  }

  /** Location `a` has one breakpoint. */
  ghost predicate Alone(s: State, id: nat, a: int) {
    id in s.bps && a in s.locs && s.locs[a].ring == [id]
  }

  lemma SetAlone(s: State, instrAddr: Addr)
    requires Inv(s) && s.active && Wrap(instrAddr + s.base) != 0 && Wrap(instrAddr + s.base) !in s.locs
    ensures var s1 := SetBp(s, instrAddr);
      && Inv(s1) && s1.active && s1.base == s.base && SameProcess(s.proc, s1.proc)
      && Alone(s1, s.nextId, Wrap(instrAddr + s.base))
  {
    SetShape(s, instrAddr);
    SetKeepsInv(s, instrAddr);
  }

  lemma DisableAlone(s: State, id: nat, a: int)
    requires Inv(s) && s.active && Alone(s, id, a)
    ensures var m := DisableBp(s, id);
      && Inv(m) && CanRun(m) && m.base == s.base && SameProcess(s.proc, m.proc)
      && a in Inert(m.locs) && !CanStopAt(m, a)
  {
    DisableBpKeepsInv(s, id);
    DisableBpEffect(s, id);
    assert NoneEnabled(DisableBp(s, id), [id]);
  }

  lemma TwoCommands(w: World, s: State, c: Command, d: Command, m: State)
    requires Exec(w, s, c) == Ok(m)
    ensures Session(w, s, [c, d]) == Exec(w, m, d)
  {
    assert [c, d][1..] == [d] && [d][1..] == [];
    assert Session(w, m, [d]) == Exec(w, m, d);
  }

  /** From every active state at a fresh address, two commands make `stepi` do nothing and `step` go on
      for ever. */
  lemma StutterIsReachable(w: World, s: State, instrAddr: Addr, fuel: nat)
    requires Inv(s) && s.active && Wrap(instrAddr + s.base) != 0 && Wrap(instrAddr + s.base) !in s.locs
    requires s.proc.cpu.pc == Wrap(instrAddr + s.base)
    ensures var m := DisableBp(SetBp(s, instrAddr), s.nextId);
      && Session(w, s, [Break(instrAddr), Disable(s.nextId)]) == Ok(m) && CanRun(m)
      && StepInstruction(w, m) == Ok(m) && StepWhile(w, m, CurrentLine(w, m), fuel) == Hung
  {
    UnpatchedIsReachable(w, s, instrAddr);
    var m := DisableBp(SetBp(s, instrAddr), s.nextId);
    StuckForGood(w, m, CurrentLine(w, m), fuel);
  }

  // ----- where a session takes its processes

  /** `steps` says of each command of a session how many instructions it took its process further. */
  ghost predicate Walks(w: World, s: State, cmds: seq<Command>, steps: seq<nat>)
    decreases |cmds|
  {
    if cmds == [] || !Exec(w, s, cmds[0]).Ok? then steps == []
    else
      var m := Exec(w, s, cmds[0]).s;
      steps != [] && Tracks(w, s, cmds[0], m, steps[0]) && Walks(w, m, cmds[1..], steps[1..])
  }

  /** The top result: every command of a session takes its process to the state of the native run that
      the command is for, no further and no less far.  This holds for every process a session launches. */
  lemma {:induction false} SessionWalks(w: World, s: State, cmds: seq<Command>) returns (steps: seq<nat>)
    requires Inv(s) && CalmAll(w, s, cmds)
    ensures Walks(w, s, cmds, steps)
    decreases |cmds|
  {
    steps := [];
    if cmds != [] && Exec(w, s, cmds[0]).Ok? {
      var k := ExecAdvances(w, s, cmds[0]);
      ExecKeepsInv(w, s, cmds[0]);
      var rest := SessionWalks(w, Exec(w, s, cmds[0]).s, cmds[1..]);
      steps := [k] + rest;
    }
  }

  /** The process states a session shows: one after each command. */
  function Visits(w: World, s: State, cmds: seq<Command>): seq<Process>
    decreases |cmds|
  {
    if cmds == [] || !Exec(w, s, cmds[0]).Ok? then []
    else [Exec(w, s, cmds[0]).s.proc] + Visits(w, Exec(w, s, cmds[0]).s, cmds[1..])
  }

  /** `ks` are positions in a native run, never going back, of the states visited. */
  ghost predicate Samples(isa: Isa, image: Mem, cpu: Cpu, visits: seq<Process>, ks: seq<nat>) {
    && |ks| == |visits|
    && (forall i :: 0 <= i < |ks| ==>
      visits[i].Live? && visits[i].image == image && NativeRun(isa, image, cpu, ks[i]) == Some(visits[i].cpu))
    && (forall i, j :: 0 <= i <= j < |ks| ==> ks[i] <= ks[j])
  }

  function ShiftBy(k: nat, later: seq<nat>): (ks: seq<nat>)
    ensures |ks| == |later| && forall i :: 0 <= i < |later| ==> ks[i] == k + later[i]
  {
    seq(|later|, i requires 0 <= i < |later| => k + later[i])
  }

  /** Where a number of steps lead, one after the other. */
  function Positions(steps: seq<nat>): seq<nat> {
    if steps == [] then [] else [steps[0]] + ShiftBy(steps[0], Positions(steps[1..]))
  }

  /** As long as a process lives, from a launch or from any other point of its run on, the states a
      session shows are states of the one undebugged run, each as many instructions further as its
      command is for. */
  lemma {:induction false} SessionSamplesNativeRun(w: World, s: State, cmds: seq<Command>, steps: seq<nat>)
    requires Inv(s) && cmds != [] && CanRun(Runner(s, cmds[0])) && Walks(w, s, cmds, steps)
    requires forall i :: 1 <= i < |cmds| ==> !cmds[i].Launches()
    requires forall i :: 0 <= i < |Visits(w, s, cmds)| ==> Visits(w, s, cmds)[i].Live?
    ensures var b := Runner(s, cmds[0]);
      Samples(w.isa, b.proc.image, b.proc.cpu, Visits(w, s, cmds), Positions(steps))
    decreases |cmds|
  {
    hide Exec, Inv, Tracks;
    if Exec(w, s, cmds[0]).Ok? {
      var b, m, rest := Runner(s, cmds[0]), Exec(w, s, cmds[0]).s, cmds[1..];
      ExecKeepsInv(w, s, cmds[0]);
      LaterVisits(w, s, cmds);
      FirstWalk(w, s, cmds, steps);
      if rest != [] {
        assert !cmds[1].Launches() && Runner(m, rest[0]) == m;
        SessionSamplesNativeRun(w, m, rest, steps[1..]);
      }
      Shifted(w.isa, b.proc.image, b.proc.cpu, m.proc, Visits(w, m, rest), steps[0], Positions(steps[1..]));
    }
  }

  lemma FirstWalk(w: World, s: State, cmds: seq<Command>, steps: seq<nat>)
    requires Inv(s) && cmds != [] && Exec(w, s, cmds[0]).Ok? && Walks(w, s, cmds, steps)
    requires CanRun(Runner(s, cmds[0])) && Exec(w, s, cmds[0]).s.proc.Live?
    ensures var b, m := Runner(s, cmds[0]), Exec(w, s, cmds[0]).s;
      && steps != [] && m.active && m.proc.image == b.proc.image && Native(w, b, steps[0]) == Some(m.proc.cpu)
      && Walks(w, m, cmds[1..], steps[1..])
  {
    ExecKeepsInv(w, s, cmds[0]);
  }

  lemma LaterVisits(w: World, s: State, cmds: seq<Command>)
    requires cmds != [] && Exec(w, s, cmds[0]).Ok?
    requires forall i :: 0 <= i < |Visits(w, s, cmds)| ==> Visits(w, s, cmds)[i].Live?
    ensures var m, later := Exec(w, s, cmds[0]).s, Visits(w, Exec(w, s, cmds[0]).s, cmds[1..]);
      && m.proc.Live? && Visits(w, s, cmds) == [m.proc] + later
      && forall i :: 0 <= i < |later| ==> later[i].Live?
  {
    var m, later := Exec(w, s, cmds[0]).s, Visits(w, Exec(w, s, cmds[0]).s, cmds[1..]);
    assert Visits(w, s, cmds) == [m.proc] + later;
    assert m.proc == Visits(w, s, cmds)[0];
    forall i | 0 <= i < |later|
      ensures later[i].Live?
    {
      assert later[i] == Visits(w, s, cmds)[i + 1];
    }
  }

  lemma Shifted(isa: Isa, image: Mem, cpu: Cpu, first: Process, visits: seq<Process>, k: nat, later: seq<nat>)
    requires first.Live? && first.image == image && NativeRun(isa, image, cpu, k) == Some(first.cpu)
    requires Samples(isa, image, first.cpu, visits, later)
    ensures Samples(isa, image, cpu, [first] + visits, [k] + ShiftBy(k, later))
  {
    var all, ks := [first] + visits, [k] + ShiftBy(k, later);
    forall i | 0 <= i < |ks|
      ensures k <= ks[i]
      ensures all[i].Live? && all[i].image == image && NativeRun(isa, image, cpu, ks[i]) == Some(all[i].cpu)
    {
      if i > 0 {
        assert ks[i] == k + later[i - 1] && all[i] == visits[i - 1];
        NativeRunAdds(isa, image, cpu, k, later[i - 1]);
      }
    }
    forall i, j | 0 <= i <= j < |ks|
      ensures ks[i] <= ks[j]
    {
      if i > 0 {
        assert ks[i] == k + later[i - 1] && ks[j] == k + later[j - 1];
      }
    }
  }
}
