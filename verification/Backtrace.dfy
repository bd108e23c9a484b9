/** The frame-pointer walk behind `backtrace`, and the call stack it is meant to show. */
module Backtrace {
  import opened Memory
  import opened Machine

  /** Where an activation runs, or will resume, and its frame pointer. */
  datatype Activation = Activation(pc: Addr, fp: Addr)

  /** The activation that the saved words of `c`'s frame describe. */
  function CallerOf(data: Mem, c: Activation): Activation {
    Activation(ReturnAddress(data, c.fp), Pointer(data, c.fp))
  }

  /** From an activation to its caller. */
  type Up = Activation -> Activation

  function Callers(data: Mem): Up {
    c => CallerOf(data, c)
  }

  function Unwound(up: Up, c: Activation, k: nat): Activation {
    if k == 0 then c else up(Unwound(up, c, k - 1))
  }

  /** Source names of the functions, where there are any. */
  type Names = Addr -> Option<string>

  /** The walk stops here: the debugger knows no function, or the function is `main`. */
  predicate Outermost(names: Names, pc: Addr) {
    names(pc).None? || names(pc).value == "main"
  }

  ghost predicate EndsAt(up: Up, names: Names, c: Activation, n: nat) {
    && Outermost(names, Unwound(up, c, n).pc)
    && forall k :: 0 <= k < n ==> !Outermost(names, Unwound(up, c, k).pc)
  }

  /** A line of the listing. */
  datatype Frame = Frame(pc: Addr, name: string)

  function Shown(names: Names, pc: Addr): seq<Frame> {
    if names(pc).None? then [] else [Frame(pc, names(pc).value)]
  }

  function Listing(up: Up, names: Names, c: Activation, n: nat): (frames: seq<Frame>) {
    (if n == 0 then [] else Listing(up, names, c, n - 1)) + Shown(names, Unwound(up, c, n).pc)
  }

  /** `print_backtrace` from a pc that is not a function's entry point, for a chain that ends. */
  method PrintBacktrace(data: Mem, names: Names, pc: Addr, rbp: Addr, ghost n: nat) returns (frames: seq<Frame>)
    requires EndsAt(Callers(data), names, Activation(pc, rbp), n)
    ensures frames == Listing(Callers(data), names, Activation(pc, rbp), n)
  {
    hide Pointer;
    ghost var up, c := Callers(data), Activation(pc, rbp);
    ghost var k := 0;
    frames := Shown(names, pc);
    if names(pc).None? {
      return;
    }
    var name := names(pc).value;
    var framePointer: Addr := rbp;
    var returnAddress: Addr := ReturnAddress(data, framePointer);
    while name != "main"
      invariant k <= n && frames == Listing(up, names, c, k)
      invariant names(Unwound(up, c, k).pc) == Some(name)
      invariant framePointer == Unwound(up, c, k).fp
      invariant returnAddress == ReturnAddress(data, framePointer)
      decreases n - k
    {
      assert k < n;
      assert Unwound(up, c, k + 1) == CallerOf(data, Unwound(up, c, k));
      frames := frames + Shown(names, returnAddress);
      k := k + 1;
      if names(returnAddress).None? {
        return;
      }
      name := names(returnAddress).value;
      framePointer := Pointer(data, framePointer);
      returnAddress := ReturnAddress(data, framePointer);
    }
  }

  // ----- the call stack

  /** A thread: its activations, innermost first, and its memory. */
  datatype Thread = Thread(calls: seq<Activation>, data: Mem)

  /** What a thread built with frame pointers does: call a function, which saves the return
      address and the caller's rbp below the caller's frame and points rbp at them; work on any
      memory, its callers' locals and its own arguments included, but for the saved words of the
      activations that have a caller; return. */
  datatype Move = Call(saved: Word, ret: Word, callee: Activation) | Work(pc: Addr, data: Mem) | Return

  /** A call's two pushes: the return address, and below it the caller's frame pointer. */
  function Saved(data: Mem, fp: Addr, saved: Word, ret: Word): Mem {
    Poke(Poke(data, fp + 8, ret), fp, saved)
  }

  /** The two saved words of `c`'s frame are the same. */
  ghost predicate FrameKept(data: Mem, next: Mem, c: Activation) {
    next.Keys == data.Keys && forall a :: a in data && c.fp <= a < c.fp + 16 ==> next[a] == data[a]
  }

  ghost predicate FramesKept(data: Mem, next: Mem, calls: seq<Activation>) {
    next.Keys == data.Keys && forall i :: 0 <= i < |calls| - 1 ==> FrameKept(data, next, calls[i])
  }

  ghost predicate Can(t: Thread, m: Move) {
    t.calls != [] &&
    match m
    case Call(saved, ret, callee) =>
      && saved as int == t.calls[0].fp && callee.fp + 16 <= t.calls[0].fp
      && Readable(t.data.Keys, callee.fp) && Readable(t.data.Keys, callee.fp + 8)
    case Work(_, data) => FramesKept(t.data, data, t.calls)
    case Return => |t.calls| > 1
  }

  ghost function Do(t: Thread, m: Move): Thread
    requires Can(t, m)
  {
    match m
    case Call(saved, ret, callee) =>
      Thread([callee] + t.calls[0 := t.calls[0].(pc := ret as int)], Saved(t.data, callee.fp, saved, ret))
    case Work(pc, data) => Thread(t.calls[0 := t.calls[0].(pc := pc)], data)
    case Return => t.(calls := t.calls[1..])
  }

  ghost predicate CanAll(t: Thread, moves: seq<Move>)
    decreases |moves|
  {
    moves == [] || (Can(t, moves[0]) && CanAll(Do(t, moves[0]), moves[1..]))
  }

  ghost function DoAll(t: Thread, moves: seq<Move>): Thread
    requires CanAll(t, moves)
    decreases |moves|
  {
    if moves == [] then t else DoAll(Do(t, moves[0]), moves[1..])
  }

  /** Every frame's saved words lead to the next activation, further up in memory. */
  ghost predicate Linked(calls: seq<Activation>, data: Mem) {
    forall i :: 0 <= i < |calls| - 1 ==> LinkedTo(data, calls[i], calls[i + 1])
  }

  ghost predicate LinkedTo(data: Mem, c: Activation, caller: Activation) {
    CallerOf(data, c) == caller && c.fp + 16 <= caller.fp && Readable(data.Keys, c.fp) && Readable(data.Keys, c.fp + 8)
  }

  lemma JoinSplit(w: Word)
    ensures Join(Split(w)) == w
  {
  }

  lemma SplitLoad(m: Mem, a: int, b: Bytes)
    requires Readable(m.Keys, a)
    ensures Store(m, a, b).Keys == m.Keys
    ensures Load(Store(m, a, b), a) == b
    ensures forall x :: x in m && !(a <= x < a + 8) ==> Store(m, a, b)[x] == m[x]
  {
  }

  lemma PokeThenPeek(m: Mem, a: int, w: Word)
    requires Readable(m.Keys, a)
    ensures Poke(m, a, w).Keys == m.Keys && Peek(Poke(m, a, w), a) == w
    ensures forall x :: x in m && !(a <= x < a + 8) ==> Poke(m, a, w)[x] == m[x]
  {
    SplitLoad(m, a, Split(w));
    JoinSplit(w);
  }

  /** Frames are read from their own bytes only. */
  lemma KeptFrameLinks(data: Mem, next: Mem, c: Activation, caller: Activation)
    requires LinkedTo(data, c, caller) && FrameKept(data, next, c)
    ensures LinkedTo(next, c, caller)
  {
  }

  /** `next` is `data` with the saved words of a frame at `fp`. */
  ghost predicate Pushed(data: Mem, next: Mem, fp: Addr, saved: Word, ret: Word) {
    && Readable(data.Keys, fp) && Readable(data.Keys, fp + 8) && next.Keys == data.Keys
    && Peek(next, fp) == saved && Peek(next, fp + 8) == ret
    && forall a :: a in data && fp + 16 <= a ==> next[a] == data[a]
  }

  lemma SavedWords(data: Mem, fp: Addr, saved: Word, ret: Word)
    requires Readable(data.Keys, fp) && Readable(data.Keys, fp + 8)
    ensures Pushed(data, Saved(data, fp, saved, ret), fp, saved, ret)
  {
    var mid := Poke(data, fp + 8, ret);
    PokeThenPeek(data, fp + 8, ret);
    PokeThenPeek(mid, fp, saved);
    assert Load(Poke(mid, fp, saved), fp + 8) == Load(mid, fp + 8);
  }

  lemma CallLinks(next: Mem, saved: Word, ret: Word, c: Activation, caller: Activation)
    requires saved as int == caller.fp && ret as int == caller.pc && c.fp + 16 <= caller.fp
    requires Readable(next.Keys, c.fp) && Readable(next.Keys, c.fp + 8)
    requires Peek(next, c.fp) == saved && Peek(next, c.fp + 8) == ret
    ensures LinkedTo(next, c, caller)
  {
  }

  lemma LinkedIsIncreasing(calls: seq<Activation>, data: Mem, i: nat)
    requires Linked(calls, data) && i < |calls|
    ensures calls[0].fp <= calls[i].fp
  {
    if i > 0 {
      LinkedIsIncreasing(calls, data, i - 1);
      assert LinkedTo(data, calls[i - 1], calls[i]);
    }
  }

  lemma StillLinked(calls: seq<Activation>, data: Mem, next: Mem)
    requires Linked(calls, data) && FramesKept(data, next, calls)
    ensures Linked(calls, next)
  {
    forall i | 0 <= i < |calls| - 1
      ensures LinkedTo(next, calls[i], calls[i + 1])
    {
      assert LinkedTo(data, calls[i], calls[i + 1]);
      KeptFrameLinks(data, next, calls[i], calls[i + 1]);
    }
  }

  /** The pc of the innermost activation is in no frame. */
  lemma InnermostMoves(calls: seq<Activation>, data: Mem, pc: Addr)
    requires calls != [] && Linked(calls, data)
    ensures Linked(calls[0 := calls[0].(pc := pc)], data)
  {
  }

  lemma CallKeepsLinked(calls: seq<Activation>, data: Mem, next: Mem, saved: Word, ret: Word, callee: Activation)
    requires calls != [] && Linked(calls, data) && Pushed(data, next, callee.fp, saved, ret)
    requires saved as int == calls[0].fp && callee.fp + 16 <= calls[0].fp
    ensures Linked([callee] + calls[0 := calls[0].(pc := ret as int)], next)
  {
    var up := calls[0 := calls[0].(pc := ret as int)];
    InnermostMoves(calls, data, ret as int);
    CallLinks(next, saved, ret, callee, up[0]);
    PushedLinks(up, data, next, callee);
  }

  lemma PushedLinks(up: seq<Activation>, data: Mem, next: Mem, callee: Activation)
    requires up != [] && Linked(up, data) && next.Keys == data.Keys && LinkedTo(next, callee, up[0])
    requires forall a :: a in data && up[0].fp <= a ==> next[a] == data[a]
    ensures Linked([callee] + up, next)
  {
    forall i | 0 <= i < |up|
      ensures FrameKept(data, next, up[i])
    {
      LinkedIsIncreasing(up, data, i);
    }
    StillLinked(up, data, next);
    var r := [callee] + up;
    forall i | 0 <= i < |r| - 1
      ensures LinkedTo(next, r[i], r[i + 1])
    {
      if i > 0 {
        assert LinkedTo(next, up[i - 1], up[i]);
      }
    }
  }

  lemma MoveKeepsLinked(t: Thread, m: Move)
    requires Linked(t.calls, t.data) && Can(t, m)
    ensures Do(t, m).calls != [] && Linked(Do(t, m).calls, Do(t, m).data)
  {
    var r := Do(t, m);
    match m
    case Call(saved, ret, callee) =>
      SavedWords(t.data, callee.fp, saved, ret);
      var next := Saved(t.data, callee.fp, saved, ret);
      CallKeepsLinked(t.calls, t.data, next, saved, ret, callee);
      assert r == Thread([callee] + t.calls[0 := t.calls[0].(pc := ret as int)], next);
    case Work(pc, data) =>
      StillLinked(t.calls, t.data, data);
      InnermostMoves(t.calls, data, pc);
    case Return =>
      forall i | 0 <= i < |r.calls| - 1
        ensures LinkedTo(r.data, r.calls[i], r.calls[i + 1])
      {
        assert LinkedTo(t.data, t.calls[i + 1], t.calls[i + 2]);
      }
  }

  /** Whatever a thread does, its frames stay linked. */
  lemma {:induction false} RunKeepsLinked(t: Thread, moves: seq<Move>)
    requires t.calls != [] && Linked(t.calls, t.data) && CanAll(t, moves)
    ensures DoAll(t, moves).calls != [] && Linked(DoAll(t, moves).calls, DoAll(t, moves).data)
    decreases |moves|
  {
    if moves != [] {
      MoveKeepsLinked(t, moves[0]);
      RunKeepsLinked(Do(t, moves[0]), moves[1..]);
    }
  }

  /** A frame-pointer chain: each frame's saved words are those of the next activation. */
  ghost predicate Chain(calls: seq<Activation>, up: Up) {
    forall i :: 0 <= i < |calls| - 1 ==> up(calls[i]) == calls[i + 1]
  }

  lemma {:induction false} UnwoundIsChain(calls: seq<Activation>, up: Up, k: nat)
    requires Chain(calls, up) && k < |calls|
    ensures Unwound(up, calls[0], k) == calls[k]
  {
    if k > 0 {
      UnwoundIsChain(calls, up, k - 1);
    }
  }

  /** The listing of a call stack. */
  function Lines(names: Names, calls: seq<Activation>): seq<Frame> {
    if calls == [] then [] else Lines(names, calls[..|calls| - 1]) + Shown(names, calls[|calls| - 1].pc)
  }

  /** A line for every activation of a known function, with its pc and that function's name. */
  lemma {:induction false} LinesAreCalls(names: Names, calls: seq<Activation>)
    requires forall i :: 0 <= i < |calls| ==> names(calls[i].pc).Some?
    ensures |Lines(names, calls)| == |calls|
    ensures forall i :: 0 <= i < |calls| ==> Lines(names, calls)[i] == Frame(calls[i].pc, names(calls[i].pc).value)
  {
    if calls != [] {
      LinesAreCalls(names, calls[..|calls| - 1]);
    }
  }

  lemma {:induction false} ListingIsChain(up: Up, names: Names, calls: seq<Activation>, n: nat)
    requires Chain(calls, up) && n < |calls|
    ensures Listing(up, names, calls[0], n) == Lines(names, calls[..n + 1])
  {
    UnwoundIsChain(calls, up, n);
    assert calls[..n + 1][..n] == calls[..n];
    if n > 0 {
      ListingIsChain(up, names, calls, n - 1);
    }
  }

  /** The first activation at which the walk has to stop. */
  ghost predicate FirstOutermost(names: Names, calls: seq<Activation>, n: nat) {
    n < |calls| && Outermost(names, calls[n].pc) && forall k :: 0 <= k < n ==> !Outermost(names, calls[k].pc)
  }

  /** Frame by frame, what the listing has to show of the first `n` activations. */
  ghost predicate Shows(names: Names, calls: seq<Activation>, n: nat, frames: seq<Frame>)
    requires n <= |calls|
  {
    && |frames| == n
    && forall i :: 0 <= i < n ==> frames[i].pc == calls[i].pc && names(calls[i].pc) == Some(frames[i].name)
  }

  /** On any chain, the walk ends at the first activation in `main` or in no known function, and
      nowhere else, and shows the chain up to there, an activation in no known function excluded. */
  lemma ChainIsListed(up: Up, names: Names, calls: seq<Activation>, n: nat)
    requires Chain(calls, up) && n < |calls|
    ensures EndsAt(up, names, calls[0], n) <==> FirstOutermost(names, calls, n)
    ensures Listing(up, names, calls[0], n) == Lines(names, calls[..n + 1])
    ensures FirstOutermost(names, calls, n) ==>
      Shows(names, calls, if names(calls[n].pc).Some? then n + 1 else n, Listing(up, names, calls[0], n))
  {
    forall k: nat | k < |calls|
      ensures Unwound(up, calls[0], k) == calls[k]
    {
      UnwoundIsChain(calls, up, k);
    }
    ListingIsChain(up, names, calls, n);
    if FirstOutermost(names, calls, n) {
      LinesShow(names, calls, n);
    }
  }

  lemma LinesShow(names: Names, calls: seq<Activation>, n: nat)
    requires FirstOutermost(names, calls, n)
    ensures Shows(names, calls, if names(calls[n].pc).Some? then n + 1 else n, Lines(names, calls[..n + 1]))
  {
    var front := calls[..n];
    assert calls[..n + 1] == front + [calls[n]] && calls[..n + 1][..n] == front;
    LinesAreCalls(names, front);
  }

  /** The debugger knows all the functions of the stack, and only the outermost is `main`. */
  ghost predicate MainIsOutermost(names: Names, calls: seq<Activation>) {
    calls != [] && forall i :: 0 <= i < |calls| ==>
      names(calls[i].pc).Some? && (names(calls[i].pc).value == "main" <==> i == |calls| - 1)
  }

  /** On any such chain, of any depth, the walk ends and shows all of it, innermost first. */
  lemma WholeChainIsListed(up: Up, names: Names, calls: seq<Activation>)
    requires Chain(calls, up) && MainIsOutermost(names, calls)
    ensures EndsAt(up, names, calls[0], |calls| - 1)
    ensures Shows(names, calls, |calls|, Listing(up, names, calls[0], |calls| - 1))
  {
    ChainIsListed(up, names, calls, |calls| - 1);
    assert FirstOutermost(names, calls, |calls| - 1);
  }

  lemma LinkedIsChain(calls: seq<Activation>, data: Mem)
    requires Linked(calls, data)
    ensures Chain(calls, Callers(data))
  {
    forall i | 0 <= i < |calls| - 1
      ensures Callers(data)(calls[i]) == calls[i + 1]
    {
      assert LinkedTo(data, calls[i], calls[i + 1]);
    }
  }

  /** However deep: after any run from an activation of `main`, as long as no other activation
      is of `main` and the debugger knows all the functions, the walk ends and lists exactly
      the call stack, innermost first. */
  lemma BacktraceIsCallStack(names: Names, main: Activation, data: Mem, moves: seq<Move>)
    requires CanAll(Thread([main], data), moves)
    requires MainIsOutermost(names, DoAll(Thread([main], data), moves).calls)
    ensures var t := DoAll(Thread([main], data), moves);
      && EndsAt(Callers(t.data), names, t.calls[0], |t.calls| - 1)
      && Shows(names, t.calls, |t.calls|, Listing(Callers(t.data), names, t.calls[0], |t.calls| - 1))
  {
    var t := DoAll(Thread([main], data), moves);
    RunKeepsLinked(Thread([main], data), moves);
    LinkedIsChain(t.calls, t.data);
    WholeChainIsListed(Callers(t.data), names, t.calls);
  }

  lemma {:induction false} FixedNeverEnds(up: Up, names: Names, c: Activation, n: nat)
    requires up(c) == c && !Outermost(names, c.pc)
    ensures Unwound(up, c, n) == c && !EndsAt(up, names, c, n)
  {
    if n > 0 {
      FixedNeverEnds(up, names, c, n - 1);
    }
  }

  lemma PushedIsCaller(data: Mem, next: Mem, saved: Word, ret: Word, c: Activation, caller: Activation)
    requires Pushed(data, next, c.fp, saved, ret) && c.fp + 16 <= ADDRESS_SPACE
    requires saved as int == caller.fp && ret as int == caller.pc
    ensures CallerOf(next, c) == caller
  {
    assert Pointer(next, c.fp) == caller.fp && ReturnAddress(next, c.fp) == caller.pc;
  }

  /** In any memory, a frame whose saved words are its own address and a return address in its own
      function, other than `main`, makes the walk endless. */
  lemma SelfCallerNeverEnds(data: Mem, names: Names, c: Activation, fp: Word, pc: Word, n: nat)
    requires fp as int == c.fp && pc as int == c.pc && c.fp + 16 <= ADDRESS_SPACE
    requires Readable(data.Keys, c.fp) && Readable(data.Keys, c.fp + 8) && !Outermost(names, c.pc)
    ensures !EndsAt(Callers(Saved(data, c.fp, fp, pc)), names, c, n)
  {
    var m := Saved(data, c.fp, fp, pc);
    SavedWords(data, c.fp, fp, pc);
    assert Callers(m)(c) == c by {
      PushedIsCaller(data, m, fp, pc, c, c);
    }
    FixedNeverEnds(Callers(m), names, c, n);
  }
}
