/** The debugged process as a deterministic machine, run natively from its own code
    image or under the debugger from the patched one. */
module Machine {
  import opened Memory

  datatype Option<+T> = None | Some(value: T)

  /** Everything an instruction can read or write.  `data` is the memory that is not code. */
  datatype Cpu = Cpu(pc: Addr, rbp: Addr, regs: map<string, int>, data: Mem)

  datatype Effect = Ran(cpu: Cpu) | Exited

  /** `window` is the length of the longest instruction, `length` decodes how many bytes of
      a fetched window an instruction takes, and `exec` executes exactly those bytes. */
  datatype Isa = Isa(window: nat, length: seq<Byte> -> nat, exec: (seq<Byte>, Cpu) -> Effect)

  function Fetch(code: Mem, a: int, n: nat): (w: seq<Byte>)
    ensures |w| <= n
    ensures forall x :: a <= x < a + |w| ==> x in code && w[x - a] == code[x]
    ensures |w| == n || a + |w| !in code
    decreases n
  {
    if n == 0 || a !in code then [] else [code[a]] + Fetch(code, a + 1, n - 1)
  }

  /** The instruction at the front of a fetched window. */
  function Decoded(isa: Isa, w: seq<Byte>): (i: seq<Byte>)
    ensures |i| <= |w| && i == w[..|i|] && (|i| == isa.length(w) || (i == w && isa.length(w) > |w|))
  {
    if isa.length(w) <= |w| then w[..isa.length(w)] else w
  }

  function Instruction(isa: Isa, code: Mem, pc: Addr): (i: seq<Byte>)
  {
    Decoded(isa, Fetch(code, pc, isa.window))
  }

  /** One instruction of the program, from the code given. */
  function NativeStep(isa: Isa, code: Mem, cpu: Cpu): Effect {
    isa.exec(Instruction(isa, code, cpu.pc), cpu)
  }

  /** The state after `k` instructions, if the program is still there. */
  function NativeRun(isa: Isa, code: Mem, cpu: Cpu, k: nat): Option<Cpu>
    decreases k
  {
    if k == 0 then Some(cpu)
    else
      match NativeStep(isa, code, cpu)
      case Exited => None
      case Ran(next) => NativeRun(isa, code, next, k - 1)
  }

  lemma {:induction false} NativeRunAdds(isa: Isa, code: Mem, cpu: Cpu, i: nat, j: nat)
    requires NativeRun(isa, code, cpu, i).Some?
    ensures NativeRun(isa, code, cpu, i + j) == NativeRun(isa, code, NativeRun(isa, code, cpu, i).value, j)
    decreases i
  {
    hide NativeStep;
    if i > 0 {
      NativeRunAdds(isa, code, NativeStep(isa, code, cpu).cpu, i - 1, j);
    }
  }

  datatype Event = Trapped(cpu: Cpu) | Stepped(cpu: Cpu) | Gone | Busy

  /** One instruction as the processor does it: fetching 0xCC traps behind that byte. */
  function HardwareStep(isa: Isa, code: Mem, cpu: Cpu): Event {
    if cpu.pc in code && code[cpu.pc] == INT3 then Trapped(cpu.(pc := Wrap(cpu.pc + 1)))
    else
      match NativeStep(isa, code, cpu)
      case Exited => Gone
      case Ran(next) => Stepped(next)
  }

  /** PTRACE_CONT followed by the wait, watched for at most `fuel` instructions. */
  function RunToTrap(isa: Isa, code: Mem, cpu: Cpu, fuel: nat): Event
    decreases fuel
  {
    if cpu.pc in code && code[cpu.pc] == INT3 then HardwareStep(isa, code, cpu)
    else if fuel == 0 then Busy
    else
      match HardwareStep(isa, code, cpu)
      case Stepped(next) => RunToTrap(isa, code, next, fuel - 1)
      case other => other
  }

  // ----- the reference: watching the unpatched program

  datatype Sighting = Hit(cpu: Cpu) | Ended | NotYet

  /** The first state of the native run, the current one included, whose pc is in `stops`. */
  function Watch(isa: Isa, image: Mem, stops: set<int>, cpu: Cpu, fuel: nat): Sighting
    decreases fuel
  {
    if cpu.pc in stops then Hit(cpu)
    else if fuel == 0 then NotYet
    else
      match NativeStep(isa, image, cpu)
      case Exited => Ended
      case Ran(next) => Watch(isa, image, stops, next, fuel - 1)
  }

  /** The same, starting after at least one instruction. */
  function FirstStop(isa: Isa, image: Mem, stops: set<int>, cpu: Cpu, fuel: nat): Sighting {
    if fuel == 0 then NotYet
    else
      match NativeStep(isa, image, cpu)
      case Exited => Ended
      case Ran(next) => Watch(isa, image, stops, next, fuel - 1)
  }

  /** After `k` native steps, and not after fewer (but at least one), the pc is in `stops`. */
  ghost predicate FirstAt(isa: Isa, image: Mem, stops: set<int>, cpu: Cpu, from: nat, k: nat) {
    && from <= k
    && NativeRun(isa, image, cpu, k).Some?
    && NativeRun(isa, image, cpu, k).value.pc in stops
    && Avoids(isa, image, stops, cpu, from, k)
  }

  ghost predicate Avoids(isa: Isa, image: Mem, stops: set<int>, cpu: Cpu, from: nat, k: nat) {
    forall j :: from <= j < k ==>
      NativeRun(isa, image, cpu, j).Some? && NativeRun(isa, image, cpu, j).value.pc !in stops
  }

  ghost predicate SightingMeans(isa: Isa, image: Mem, stops: set<int>, cpu: Cpu, from: nat, fuel: nat, s: Sighting) {
    match s
    case Hit(c) =>
      exists k: nat :: k <= fuel && FirstAt(isa, image, stops, cpu, from, k) && NativeRun(isa, image, cpu, k) == Some(c)
    case Ended =>
      exists k: nat :: k <= fuel && NativeRun(isa, image, cpu, k).None? && Avoids(isa, image, stops, cpu, from, k)
    case NotYet =>
      Avoids(isa, image, stops, cpu, from, fuel + 1)
  }

  lemma {:induction false} WatchMeaning(isa: Isa, image: Mem, stops: set<int>, cpu: Cpu, fuel: nat)
    ensures SightingMeans(isa, image, stops, cpu, 0, fuel, Watch(isa, image, stops, cpu, fuel))
    decreases fuel
  {
    if cpu.pc in stops {
      assert FirstAt(isa, image, stops, cpu, 0, 0);
    } else if fuel > 0 {
      match NativeStep(isa, image, cpu)
      case Exited =>
        assert NativeRun(isa, image, cpu, 1).None?;
      case Ran(next) =>
        WatchMeaning(isa, image, stops, next, fuel - 1);
        LaterSighting(isa, image, stops, cpu, next, 0, fuel, Watch(isa, image, stops, next, fuel - 1));
    }
  }

  lemma AvoidsLater(isa: Isa, image: Mem, stops: set<int>, cpu: Cpu, next: Cpu, from: nat, k: nat)
    requires from <= 1 && NativeStep(isa, image, cpu) == Ran(next)
    requires from == 0 ==> cpu.pc !in stops
    requires Avoids(isa, image, stops, next, 0, k)
    ensures Avoids(isa, image, stops, cpu, from, k + 1)
  {
  }

  /** A sighting from the second state on is one from the first, when that one is not looked at or not a stop. */
  lemma LaterSighting(isa: Isa, image: Mem, stops: set<int>, cpu: Cpu, next: Cpu, from: nat, fuel: nat, s: Sighting)
    requires fuel > 0 && from <= 1 && NativeStep(isa, image, cpu) == Ran(next)
    requires from == 0 ==> cpu.pc !in stops
    requires SightingMeans(isa, image, stops, next, 0, fuel - 1, s)
    ensures SightingMeans(isa, image, stops, cpu, from, fuel, s)
  {
    match s
    case Hit(c) =>
      var k: nat :|
        k <= fuel - 1 && FirstAt(isa, image, stops, next, 0, k) && NativeRun(isa, image, next, k) == Some(c);
      AvoidsLater(isa, image, stops, cpu, next, from, k);
      assert NativeRun(isa, image, cpu, k + 1) == Some(c);
      assert FirstAt(isa, image, stops, cpu, from, k + 1);
    case Ended =>
      var k: nat :| k <= fuel - 1 && NativeRun(isa, image, next, k).None? && Avoids(isa, image, stops, next, 0, k);
      AvoidsLater(isa, image, stops, cpu, next, from, k);
      assert NativeRun(isa, image, cpu, k + 1).None?;
    case NotYet =>
      AvoidsLater(isa, image, stops, cpu, next, from, fuel);
  }

  /** What the reference finds is the first stop of the native run after one or more steps. */
  lemma FirstStopMeaning(isa: Isa, image: Mem, stops: set<int>, cpu: Cpu, fuel: nat)
    ensures SightingMeans(isa, image, stops, cpu, 1, fuel, FirstStop(isa, image, stops, cpu, fuel))
  {
    if fuel > 0 {
      match NativeStep(isa, image, cpu)
      case Exited =>
        assert NativeRun(isa, image, cpu, 1).None?;
      case Ran(next) =>
        var s := Watch(isa, image, stops, next, fuel - 1);
        WatchMeaning(isa, image, stops, next, fuel - 1);
        LaterSighting(isa, image, stops, cpu, next, 1, fuel, s);
        assert FirstStop(isa, image, stops, cpu, fuel) == s;
    }
  }

  // ----- when patched code behaves like the original

  predicate SameUpTo(w: seq<Byte>, w': seq<Byte>, n: nat) {
    |w| == |w'| && n <= |w| && w[..n] == w'[..n]
  }

  /** The decoder looks at no byte behind the instruction it decodes. */
  ghost predicate PrefixDecoder(isa: Isa) {
    forall w: seq<Byte>, w': seq<Byte> :: SameUpTo(w, w', isa.length(w)) ==> isa.length(w') == isa.length(w)
  }

  /** The instruction at pc is not an int3 of the program, and no address of `sites` is strictly inside it. */
  ghost predicate Clean(isa: Isa, image: Mem, sites: set<int>, cpu: Cpu) {
    && !(cpu.pc in image && image[cpu.pc] == INT3)
    && forall a :: a in sites ==> !(cpu.pc < a < cpu.pc + |Instruction(isa, image, cpu.pc)|)
  }

  /** Every state the program natively reaches within `n` instructions is clean, up to the first,
      after this one, whose pc is in `halts`. */
  ghost predicate CleanRun(isa: Isa, image: Mem, sites: set<int>, halts: set<int>, cpu: Cpu, n: nat)
    decreases n
  {
    && Clean(isa, image, sites, cpu)
    && (n > 0 ==>
      match NativeStep(isa, image, cpu)
      case Exited => true
      case Ran(next) => next.pc in halts || CleanRun(isa, image, sites, halts, next, n - 1))
  }

  /** The same, told of the positions in the native run. */
  ghost predicate CleanAt(isa: Isa, image: Mem, sites: set<int>, halts: set<int>, cpu: Cpu, k: nat) {
    NativeRun(isa, image, cpu, k).Some? && Avoids(isa, image, halts, cpu, 1, k + 1) ==>
      Clean(isa, image, sites, NativeRun(isa, image, cpu, k).value)
  }

  lemma AvoidsFromNext(isa: Isa, image: Mem, halts: set<int>, cpu: Cpu, next: Cpu, k: nat)
    requires NativeStep(isa, image, cpu) == Ran(next)
    ensures Avoids(isa, image, halts, cpu, 1, k + 2) <==> next.pc !in halts && Avoids(isa, image, halts, next, 1, k + 1)
  {
    assert NativeRun(isa, image, next, 0) == Some(next);
    assert NativeRun(isa, image, cpu, 1) == Some(next);
    if next.pc !in halts && Avoids(isa, image, halts, next, 1, k + 1) {
      AvoidsLater(isa, image, halts, cpu, next, 1, k + 1);
    }
    if Avoids(isa, image, halts, cpu, 1, k + 2) {
      forall j | 1 <= j < k + 1
        ensures NativeRun(isa, image, next, j).Some? && NativeRun(isa, image, next, j).value.pc !in halts
      {
        assert NativeRun(isa, image, cpu, j + 1) == NativeRun(isa, image, next, j);
      }
    }
  }

  lemma CleanAtNext(isa: Isa, image: Mem, sites: set<int>, halts: set<int>, cpu: Cpu, next: Cpu, k: nat)
    requires NativeStep(isa, image, cpu) == Ran(next)
    ensures CleanAt(isa, image, sites, halts, cpu, k + 1) <==>
      next.pc in halts || CleanAt(isa, image, sites, halts, next, k)
  {
    AvoidsFromNext(isa, image, halts, cpu, next, k);
    assert NativeRun(isa, image, cpu, k + 1) == NativeRun(isa, image, next, k);
  }

  lemma {:induction false} CleanRunMeaning(isa: Isa, image: Mem, sites: set<int>, halts: set<int>, cpu: Cpu, n: nat)
    ensures CleanRun(isa, image, sites, halts, cpu, n) <==>
      forall k: nat :: k <= n ==> CleanAt(isa, image, sites, halts, cpu, k)
    decreases n
  {
    assert CleanAt(isa, image, sites, halts, cpu, 0) <==> Clean(isa, image, sites, cpu);
    if n > 0 {
      match NativeStep(isa, image, cpu)
      case Exited =>
        assert forall k: nat :: k > 0 ==> NativeRun(isa, image, cpu, k).None?;
      case Ran(next) =>
        CleanRunMeaning(isa, image, sites, halts, next, n - 1);
        forall k: nat | 0 < k <= n
          ensures CleanAt(isa, image, sites, halts, cpu, k) <==>
            next.pc in halts || CleanAt(isa, image, sites, halts, next, k - 1)
        {
          CleanAtNext(isa, image, sites, halts, cpu, next, k - 1);
        }
        CleanFromNext(isa, image, sites, halts, cpu, next, n);
    }
  }

  lemma CleanFromNext(isa: Isa, image: Mem, sites: set<int>, halts: set<int>, cpu: Cpu, next: Cpu, n: nat)
    requires n > 0 && forall k: nat :: 0 < k <= n ==>
      (CleanAt(isa, image, sites, halts, cpu, k) <==>
       next.pc in halts || CleanAt(isa, image, sites, halts, next, k - 1))
    ensures (forall k: nat :: k <= n ==> CleanAt(isa, image, sites, halts, cpu, k)) <==>
      CleanAt(isa, image, sites, halts, cpu, 0) &&
      (next.pc in halts || forall k: nat :: k <= n - 1 ==> CleanAt(isa, image, sites, halts, next, k))
  {
    forall k: nat | k <= n - 1
      ensures CleanAt(isa, image, sites, halts, cpu, k + 1) <==>
        next.pc in halts || CleanAt(isa, image, sites, halts, next, k)
    {
      assert (k + 1) - 1 == k;
    }
    if forall k: nat :: k <= n ==> CleanAt(isa, image, sites, halts, cpu, k) {
      forall k: nat | k <= n - 1 && next.pc !in halts
        ensures CleanAt(isa, image, sites, halts, next, k)
      {
        assert CleanAt(isa, image, sites, halts, cpu, k + 1);
      }
    }
  }

  /** `code` is `image` with 0xCC over the bytes at `stops`. */
  ghost predicate Overlaid(code: Mem, image: Mem, stops: set<int>) {
    && code.Keys == image.Keys
    && (forall a :: a in stops ==> a in image)
    && forall x :: x in image ==> code[x] == if x in stops then INT3 else image[x]
  }

  lemma FetchLengthsAgree(code: Mem, image: Mem, a: int, n: nat)
    requires code.Keys == image.Keys
    ensures |Fetch(code, a, n)| == |Fetch(image, a, n)|
  {
  }

  /** Two windows that agree on a decoded instruction decode to the same one. */
  lemma DecodesAlike(isa: Isa, w: seq<Byte>, w': seq<Byte>)
    requires PrefixDecoder(isa) && SameUpTo(w, w', |Decoded(isa, w)|)
    ensures Decoded(isa, w') == Decoded(isa, w)
  {
    if isa.length(w) > |w| {
      assert w == w[..|w|] == w'[..|w|] == w';
    }
  }

  lemma FetchedByte(code: Mem, a: int, n: nat, i: nat)
    requires i < |Fetch(code, a, n)|
    ensures a + i in code && Fetch(code, a, n)[i] == code[a + i]
  {
    var x := a + i;
    assert Fetch(code, a, n)[x - a] == code[x];
  }

  /** Fetches from code that differs at `stops` only agree up to the first of these. */
  lemma FetchesAgree(code: Mem, image: Mem, stops: set<int>, a: int, window: nat, n: nat)
    requires Overlaid(code, image, stops) && n <= |Fetch(image, a, window)|
    requires forall x :: a <= x < a + n ==> x !in stops
    ensures SameUpTo(Fetch(image, a, window), Fetch(code, a, window), n)
  {
    FetchLengthsAgree(code, image, a, window);
    forall i | 0 <= i < n
      ensures Fetch(image, a, window)[i] == Fetch(code, a, window)[i]
    {
      FetchedByte(image, a, window, i);
      FetchedByte(code, a, window, i);
    }
  }

  /** An instruction with no patched byte is fetched whole from patched code. */
  lemma InstructionSurvives(isa: Isa, code: Mem, image: Mem, stops: set<int>, cpu: Cpu)
    requires PrefixDecoder(isa) && Overlaid(code, image, stops) && Clean(isa, image, stops, cpu)
    requires cpu.pc !in stops
    ensures Instruction(isa, code, cpu.pc) == Instruction(isa, image, cpu.pc)
  {
    FetchesAgree(code, image, stops, cpu.pc, isa.window, |Instruction(isa, image, cpu.pc)|);
    DecodesAlike(isa, Fetch(image, cpu.pc, isa.window), Fetch(code, cpu.pc, isa.window));
  }

  lemma PatchedStepIsNative(isa: Isa, code: Mem, image: Mem, stops: set<int>, cpu: Cpu)
    requires PrefixDecoder(isa) && Overlaid(code, image, stops) && Clean(isa, image, stops, cpu)
    requires cpu.pc !in stops
    ensures HardwareStep(isa, code, cpu) ==
      match NativeStep(isa, image, cpu) case Exited => Gone case Ran(next) => Stepped(next)
  {
    InstructionSurvives(isa, code, image, stops, cpu);
  }

  /** Letting the patched program run is watching the native one. */
  lemma {:induction false} PatchedRunIsWatch(isa: Isa, code: Mem, image: Mem, stops: set<int>, cpu: Cpu, fuel: nat)
    requires PrefixDecoder(isa) && Overlaid(code, image, stops)
    requires cpu.pc in stops || CleanRun(isa, image, stops, stops, cpu, fuel)
    ensures RunToTrap(isa, code, cpu, fuel) ==
      match Watch(isa, image, stops, cpu, fuel)
      case Hit(c) => Trapped(c.(pc := Wrap(c.pc + 1)))
      case Ended => Gone
      case NotYet => Busy
    decreases fuel
  {
    if cpu.pc !in stops && fuel > 0 {
      PatchedStepIsNative(isa, code, image, stops, cpu);
      match NativeStep(isa, image, cpu)
      case Exited =>
      case Ran(next) =>
        PatchedRunIsWatch(isa, code, image, stops, next, fuel - 1);
    }
  }
}
