/** The breakpoint engine as a state machine on values: what every operation of the
    debugger does to breakpoints, locations and the code bytes of the process. */
module Model {
  import opened Memory
  import opened Machine
  import opened Sequences

  /** A breakpoint as the user set it; `location` is the running address of the location it is attached to. */
  datatype Bp = Bp(instrAddr: Addr, enable: bool, location: Option<int>)

  /** A patchable address of the running process, with the ids of its breakpoints in ring order. */
  datatype Loc = Loc(isTemp: bool, patched: bool, saved: Byte, ring: seq<nat>)

  /** `image` is the code as it was loaded; no operation reads it. */
  datatype Process = Dead | Live(cpu: Cpu, code: Mem, image: Mem)

  /** `hasTable` tells whether the location map exists, `base` is the load address. */
  datatype State = State(active: bool, base: Addr, nextId: nat, bps: map<nat, Bp>, pending: seq<nat>,
                         hasTable: bool, locs: map<int, Loc>, proc: Process)

  const START := State(false, 0, 1, map[], [], false, map[], Dead)

  function ReadByte(p: Process, a: int): Byte {
    if p.Live? then ByteAt(p.code, a) else 0xFF
  }

  function WriteByte(p: Process, a: int, b: Byte): Process {
    if p.Live? then p.(code := WithByte(p.code, a, b)) else p
  }

  // ----- locations

  function EnableLoc(s: State, a: int): State {
    if a !in s.locs || s.locs[a].patched then s
    else
      s.(locs := s.locs[a := s.locs[a].(patched := true, saved := ReadByte(s.proc, a))],
         proc := WriteByte(s.proc, a, INT3))
  }

  function DisableLoc(s: State, a: int): State {
    if a !in s.locs || !s.locs[a].patched then s
    else
      s.(locs := s.locs[a := s.locs[a].(patched := false)],
         proc := WriteByte(s.proc, a, s.locs[a].saved))
  }

  /** The breakpoints `ids` point to no location. */
  function Detached(s: State, ids: seq<nat>): State {
    s.(bps := map id | id in s.bps :: if id in ids then s.bps[id].(location := None) else s.bps[id])
  }

  /** Detaches the breakpoints of a location, restores its byte and drops it from the map. */
  function FreeLoc(s: State, a: int): State {
    if a !in s.locs then s
    else
      var s2 := DisableLoc(Detached(s, s.locs[a].ring), a);
      s2.(locs := s2.locs - {a})
  }

  // ----- single breakpoints

  predicate Enabled(s: State, id: nat) {
    id in s.bps && s.bps[id].enable
  }

  predicate AllEnabled(s: State, ring: seq<nat>) {
    forall id :: id in ring ==> Enabled(s, id)
  }

  predicate NoneEnabled(s: State, ring: seq<nat>) {
    forall id :: id in ring ==> !Enabled(s, id)
  }

  function FlagSet(s: State, id: nat, flag: bool): State
    requires id in s.bps
  {
    s.(bps := s.bps[id := s.bps[id].(enable := flag)])
  }

  function Pointed(s: State, id: nat, a: Option<int>): State
    requires id in s.bps
  {
    s.(bps := s.bps[id := s.bps[id].(location := a)])
  }

  function RingSet(s: State, a: int, ring: seq<nat>): State
    requires a in s.locs
  {
    s.(locs := s.locs[a := s.locs[a].(ring := ring)])
  }

  function EnableBp(s: State, id: nat): State {
    if id !in s.bps then s
    else
      var s1 := FlagSet(s, id, true);
      match s.bps[id].location
      case None => s1
      case Some(a) => if a in s.locs && AllEnabled(s1, s.locs[a].ring) then EnableLoc(s1, a) else s1
  }

  function DisableBp(s: State, id: nat): State {
    if id !in s.bps then s
    else
      var s1 := FlagSet(s, id, false);
      match s.bps[id].location
      case None => s1
      case Some(a) => if a in s.locs && NoneEnabled(s1, s.locs[a].ring) then DisableLoc(s1, a) else s1
  }

  /** Takes a breakpoint out of the ring of a location, which loses its patch when left empty. */
  function Unlink(s: State, id: nat, a: int): State {
    if a !in s.locs then s
    else
      var ring := Without(s.locs[a].ring, id);
      var s1 := s.(locs := s.locs[a := s.locs[a].(ring := ring)]);
      if ring == [] then DisableLoc(s1, a) else s1
  }

  /** Unlinks a breakpoint from its location and forgets it. */
  function FreeBp(s: State, id: nat): State {
    if id !in s.bps then s
    else
      var s1 := match s.bps[id].location case None => s case Some(a) => Unlink(s, id, a);
      s1.(bps := s.bps - {id})
  }

  function Remove(s: State, id: nat): State {
    if id !in s.bps then s else FreeBp(s.(pending := Without(s.pending, id)), id)
  }

  function RunningAddr(s: State, id: nat): int {
    if id in s.bps then Wrap(s.bps[id].instrAddr + s.base) else 0
  }

  /** Points a breakpoint to the location at `a`, made if need be, and puts it last in the ring there. */
  function Linkup(s: State, id: nat, a: int): State
    requires id in s.bps
  {
    var l := if a in s.locs then s.locs[a] else Loc(false, false, 0, []);
    s.(bps := s.bps[id := s.bps[id].(location := Some(a))],
       locs := s.locs[a := l.(ring := if id in l.ring then l.ring else l.ring + [id])])
  }

  /** Attaches a breakpoint to the location at its running address, which then follows its enable flag. */
  function Attach(s: State, id: nat): State {
    if id !in s.bps then s
    else
      var a := RunningAddr(s, id);
      var s1 := Linkup(s, id, a);
      if a in s.locs && id in s.locs[a].ring then s1
      else if s.bps[id].enable then EnableLoc(s1, a)
      else DisableLoc(s1, a)
  }

  // ----- commands on all breakpoints

  function EnableEach(s: State, ids: seq<nat>): State {
    if ids == [] then s else EnableBp(EnableEach(s, Front(ids)), Last(ids))
  }

  function DisableEach(s: State, ids: seq<nat>): State {
    if ids == [] then s else DisableBp(DisableEach(s, Front(ids)), Last(ids))
  }

  function DeleteOne(s: State, id: nat): State {
    FreeBp(FreeLoc(s.(pending := Without(s.pending, id)), RunningAddr(s, id)), id)
  }

  function DeleteEach(s: State, ids: seq<nat>): State {
    if ids == [] then s else DeleteOne(DeleteEach(s, Front(ids)), Last(ids))
  }

  function AttachEach(s: State, ids: seq<nat>): (r: State)
    ensures r.proc.Live? == s.proc.Live? && r.active == s.active
  {
    if ids == [] then s else Attach(AttachEach(s, Front(ids)), Last(ids))
  }

  // ----- life of a process

  datatype Program = Program(entry: Cpu, image: Mem, base: Addr)

  /** A fresh process, before its breakpoints are resolved. */
  function Loaded(s: State, prog: Program): State {
    s.(proc := Live(prog.entry, prog.image, prog.image), base := prog.base, active := true)
  }

  function Resolve(s: State): (r: State)
    ensures r.proc.Live? == s.proc.Live? && r.active == s.active
  {
    AttachEach(s.(hasTable := true, locs := map[]), s.pending)
  }

  predicate ResolveAborts(s: State) {
    s.hasTable || exists id :: id in s.pending && RunningAddr(s, id) == 0
  }

  /** The process is gone: its locations are freed and every breakpoint is pending again. */
  function Cleanup(s: State): State {
    s.(active := false, base := 0, hasTable := false, locs := map[], proc := Dead,
       bps := map id | id in s.bps :: s.bps[id].(location := None))
  }

  /** A new breakpoint, not yet attached. */
  function Registered(s: State, instrAddr: Addr): State {
    s.(bps := s.bps[s.nextId := Bp(instrAddr, true, None)], pending := s.pending + [s.nextId], nextId := s.nextId + 1)
  }

  function SetBp(s: State, instrAddr: Addr): State {
    var s1 := Registered(s, instrAddr);
    if s.active then Attach(s1, s.nextId) else s1
  }

  /** Making a location at address 0 fails an assertion. */
  predicate SetAborts(s: State, instrAddr: Addr) {
    s.active && Wrap(instrAddr + s.base) == 0 && 0 !in s.locs
  }

  // ----- outcomes of operations that run the process

  /** `Hung`: the process was still running, or the command still stepping, when the budget of
      instructions ran out.  `Aborted`: an assertion of the debugger failed.  `Dangling`: the
      process ended under a step whose code goes on with the freed location or the dead process. */
  datatype Outcome = Ok(s: State) | Hung | Aborted | Dangling

  /** `line` and `func` answer for a pc and a load address. */
  datatype World = World(isa: Isa, line: (Addr, Addr) -> int, func: (Addr, Addr) -> Option<Func>)

  datatype Func = Func(name: string, high: Addr)

  /** The hit message is for a temporary location or for the first breakpoint of a ring, which the ring
      must have and must not repeat. */
  predicate Reportable(l: Loc) {
    l.isTemp || (l.ring != [] && l.ring[0] !in l.ring[1..])
  }

  /** Handling one wait: a dead process is cleaned up, a trap is rewound and must be at a known location. */
  function OnEvent(s: State, e: Event): Outcome
    requires s.proc.Live?
  {
    match e
    case Busy => Hung
    case Gone => Ok(Cleanup(s))
    case Stepped(cpu) => Ok(s.(proc := s.proc.(cpu := cpu)))
    case Trapped(cpu) =>
      var pc := Wrap(cpu.pc - 1);
      if pc !in s.locs || !Reportable(s.locs[pc]) then Aborted
      else Ok(s.(proc := s.proc.(cpu := cpu.(pc := pc))))
  }

  function SingleStep(w: World, s: State): Outcome
    requires s.proc.Live?
  {
    OnEvent(s, HardwareStep(w.isa, s.proc.code, s.proc.cpu))
  }

  /** The patch is put back if there still is a process; else its location has been freed. */
  function Repatched(o: Outcome, a: int): Outcome {
    match o
    case Ok(s1) => if s1.active then Ok(EnableLoc(s1, a)) else Dangling
    case other => other
  }

  function StepOverLoc(w: World, s: State, a: int): Outcome
    requires s.proc.Live?
  {
    if a in s.locs && s.locs[a].patched then
      Repatched(SingleStep(w, DisableLoc(s, a)), a)
    else
      Ok(s)
  }

  /** At most `fuel` instructions of the process are awaited. */
  function Continue(w: World, s: State, fuel: nat): Outcome
    requires s.proc.Live?
  {
    var pc := s.proc.cpu.pc;
    var over := pc in s.locs && s.locs[pc].patched;
    if over && fuel == 0 then Hung
    else
      match StepOverLoc(w, s, pc)
      case Ok(s1) =>
        if s1.proc.Live? then
          OnEvent(s1, RunToTrap(w.isa, s1.proc.code, s1.proc.cpu, if over then fuel - 1 else fuel))
        else Dangling
      case other => other
  }

  function StepInstruction(w: World, s: State): Outcome
    requires s.proc.Live?
  {
    var pc := s.proc.cpu.pc;
    if pc in s.locs then StepOverLoc(w, s, pc) else SingleStep(w, s)
  }

  function CurrentLine(w: World, s: State): int
    requires s.proc.Live?
  {
    w.line(s.proc.cpu.pc, s.base)
  }

  /** At most `fuel` instructions are stepped while the line is still `line`. */
  function StepWhile(w: World, s: State, line: int, fuel: nat): Outcome
    requires s.proc.Live?
    decreases fuel
  {
    if CurrentLine(w, s) != line then Ok(s)
    else if fuel == 0 then Hung
    else
      match StepInstruction(w, s)
      case Ok(s1) => if s1.proc.Live? then StepWhile(w, s1, line, fuel - 1) else Dangling
      case other => other
  }

  function StepIn(w: World, s: State, fuel: nat): Outcome
    requires s.proc.Live?
  {
    var line := CurrentLine(w, s);
    if line == 0 then Ok(s) else StepWhile(w, s, line, fuel)
  }

  // ----- temporary locations

  /** A temporary location where there was none; refused, with no effect, where there is one. */
  function SetTemp(s: State, a: int): State {
    if a in s.locs then s else EnableLoc(s.(locs := s.locs[a := Loc(true, false, 0, [])]), a)
  }

  function UnsetEach(s: State, addrs: seq<int>): State {
    if addrs == [] then s else FreeLoc(UnsetEach(s, Front(addrs)), Last(addrs))
  }

  /** The word the frame pointer's caller left above it, as read from memory. */
  function ReturnTarget(cpu: Cpu): Addr {
    ReturnAddress(cpu.data, cpu.rbp)
  }

  /** Dropping temporary locations asserts that the process is still there. */
  function UnsetAfter(o: Outcome, temps: seq<int>): Outcome {
    match o
    case Ok(s) => if temps == [] || s.active then Ok(UnsetEach(s, temps)) else Aborted
    case other => other
  }

  /** Continue, then drop the temporary locations put in for it. */
  function ContinueAndUnset(w: World, s: State, temps: seq<int>, fuel: nat): Outcome
    requires s.proc.Live?
  {
    UnsetAfter(Continue(w, s, fuel), temps)
  }

  function Finish(w: World, s: State, fuel: nat): Outcome
    requires s.proc.Live?
  {
    var ret := ReturnTarget(s.proc.cpu);
    if ret == 0 then Aborted
    else ContinueAndUnset(w, SetTemp(s, ret), if ret in s.locs then [] else [ret], fuel)
  }

  /** The scan of `next`: from `pc` up to `end`, a temporary location where the line changes. */
  datatype Scan = Scan(s: State, temps: seq<int>)

  function ScanLines(w: World, sc: Scan, pc: int, end: Addr, line: int): (r: Scan)
    requires 0 <= pc
    ensures r.s.proc.Live? == sc.s.proc.Live?
    decreases end - pc
  {
    if pc >= end then sc
    else ScanLines(w, ScanStep(w, sc, pc, line), pc + 1, end, w.line(pc, sc.s.base))
  }

  /** One address of the scan. */
  function ScanStep(w: World, sc: Scan, pc: Addr, line: int): Scan {
    if w.line(pc, sc.s.base) != line then Placed(sc, pc) else sc
  }

  function Placed(sc: Scan, a: int): Scan {
    if a in sc.s.locs then sc else Scan(SetTemp(sc.s, a), sc.temps + [a])
  }

  /** The scan of `next`, with the return address added outside main. */
  function Targets(w: World, s: State, f: Func): (sc: Scan)
    requires s.proc.Live?
    ensures sc.s.proc.Live?
  {
    var lines := ScanLines(w, Scan(s, []), s.proc.cpu.pc, Wrap(f.high + s.base), CurrentLine(w, s));
    if f.name != "main" then Placed(lines, ReturnTarget(s.proc.cpu)) else lines
  }

  /** Outside a known function nothing is done; without a line, or with a return address of 0
      outside main, an assertion fails. */
  function Next(w: World, s: State, fuel: nat): Outcome
    requires s.proc.Live?
  {
    match w.func(s.proc.cpu.pc, s.base)
    case None => Ok(s)
    case Some(f) =>
      if CurrentLine(w, s) == 0 || (f.name != "main" && ReturnTarget(s.proc.cpu) == 0) then Aborted
      else ContinueAndUnset(w, Targets(w, s, f).s, Targets(w, s, f).temps, fuel)
  }
}
