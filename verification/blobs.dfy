/** A code blob under construction: which instructions it holds, which of its jumps
    still carry a placeholder, and what that says about its bytes. */
module Blobs {
  import opened Bytes
  import opened Syntax
  import opened Machine
  import opened Layout
  import opened Encoding
  import opened Listing
  import opened DebugMaps

  predicate IsJump(i: Instr) {
    i.Jmp? || i.JmpIfFalse? || i.JmpIfTrue? || i.MonitorEnter?
  }

  function TargetOf(i: Instr): nat
    requires IsJump(i)
  {
    i.target
  }

  /** `emitted` lists the instructions so far and `instrs` says what starts at each
      instruction boundary. `pending` holds the operand
      offsets that still carry a placeholder; the jump in front of each is already
      recorded with the target it is going to get. `failed` is set once a list too long for
      its count has been reported, and `owed` says how many reported ones are not emitted
      yet. `anchors` is the debug map so far. */
  datatype Blob = Blob(code: seq<Byte>, tab: Table, emitted: seq<Instr>, instrs: map<nat, Instr>,
                       pending: set<nat>, failed: bool, owed: nat, anchors: seq<Loc>)

  /** Its count does not fit its byte. */
  predicate Overlong(i: Instr) {
    (i.CallN? && i.argc > 255) || (i.Unpack? && i.count > 255)
  }

  predicate AnyOverlong(list: seq<Instr>) {
    exists i | i in list :: Overlong(i)
  }

  /** Errors are reported for nothing else. */
  predicate Owing(b: Blob) {
    b.failed ==> b.owed > 0 || AnyOverlong(b.emitted)
  }

  /** The bytes at `pc` are those of the instruction recorded there. */
  ghost predicate Placed(b: Blob, pc: nat)
    requires pc in b.instrs
  {
    var i := b.instrs[pc];
    && pc + Width(i) <= |b.code|
    && Known(OperandOf(i), b.tab)
    && (pc + 1 in b.pending ==> IsJump(i) && b.code[pc] == OpcodeOf(i))
    && (pc + 1 !in b.pending ==> Carries(b.code, pc, EncInstr(i, b.tab)))
    && (b.failed || IsJump(i) || Encodable(i))
  }

  ghost predicate Boundary(b: Blob, pc: nat) {
    pc in b.instrs || pc == |b.code|
  }

  /** Boundaries stay boundaries. */
  ghost predicate Bounds(b: Blob, b1: Blob) {
    forall pc {:trigger Boundary(b, pc)} :: Boundary(b, pc) ==> Boundary(b1, pc)
  }

  /** A patched jump lands on an instruction or on the end. */
  ghost predicate Linked(b: Blob, pc: nat)
    requires pc in b.instrs
  {
    IsJump(b.instrs[pc]) && pc + 1 !in b.pending ==> Boundary(b, TargetOf(b.instrs[pc]))
  }

  /** No instruction starts inside another one. */
  ghost predicate Apart(b: Blob, p: nat, q: nat)
    requires p in b.instrs
  {
    p < q ==> p + Width(b.instrs[p]) <= q
  }

  ghost predicate AllPlaced(b: Blob) {
    forall pc {:trigger Placed(b, pc)} | pc in b.instrs :: Placed(b, pc)
  }

  ghost predicate AllLinked(b: Blob) {
    forall pc {:trigger Linked(b, pc)} | pc in b.instrs :: Linked(b, pc)
  }

  ghost predicate AllApart(b: Blob) {
    forall p, q {:trigger Apart(b, p, q)} | p in b.instrs && q in b.instrs :: Apart(b, p, q)
  }

  ghost predicate BehindJump(b: Blob, operand: nat) {
    operand > 0 && operand - 1 in b.instrs
  }

  ghost predicate AllBehindJumps(b: Blob) {
    forall e {:trigger BehindJump(b, e)} | e in b.pending :: BehindJump(b, e)
  }

  /** Where instruction `k` of a listing starts. */
  function Offset(list: seq<Instr>, k: nat): nat
    requires k <= |list|
  {
    if k == 0 then 0 else Offset(list, k - 1) + Width(list[k - 1])
  }

  /** Instruction `k` of the listing is recorded where it belongs; behind the last one is
      the end of the code. */
  ghost predicate Indexed(b: Blob, k: nat)
    requires k <= |b.emitted|
  {
    && (k == |b.emitted| ==> Offset(b.emitted, k) == |b.code|)
    && (k < |b.emitted| ==> Offset(b.emitted, k) in b.instrs && b.instrs[Offset(b.emitted, k)] == b.emitted[k])
  }

  ghost predicate AllIndexed(b: Blob) {
    forall k: nat {:trigger Indexed(b, k)} | k <= |b.emitted| :: Indexed(b, k)
  }

  ghost predicate Sound(b: Blob) {
    && AllPlaced(b) && AllLinked(b) && AllApart(b) && AllBehindJumps(b) && AllIndexed(b)
    && Owing(b) && UpTo(b.anchors, |b.code|)
  }

  lemma {:induction false} OffsetStill(list: seq<Instr>, i: Instr, k: nat)
    requires k <= |list|
    ensures Offset(list + [i], k) == Offset(list, k)
  {
    if k > 0 {
      OffsetStill(list, i, k - 1);
    }
  }

  // ---- the steps of construction ----

  /** `b1` is `b` with the bytes of `i` appended and `i` recorded. */
  ghost predicate Appended(b: Blob, b1: Blob, i: Instr) {
    && |b1.code| == |b.code| + Width(i) && b1.code[..|b.code|] == b.code
    && b1.instrs == b.instrs[|b.code| := i] && b1.emitted == b.emitted + [i]
    && b1.failed == b.failed && Grows(b.tab, b1.tab) && Known(OperandOf(i), b1.tab)
    && b1.owed == b.owed && b1.anchors == b.anchors
  }

  lemma StillPlaced(b: Blob, b1: Blob, i: Instr, pc: nat)
    requires Sound(b) && Appended(b, b1, i) && pc in b.instrs && (pc + 1 in b1.pending <==> pc + 1 in b.pending)
    ensures pc != |b.code| && pc in b1.instrs && b1.instrs[pc] == b.instrs[pc] && Placed(b1, pc)
  {
    var j := b.instrs[pc];
    assert Placed(b, pc);
    EncInstrStill(j, b.tab, b1.tab);
    if pc + 1 !in b.pending {
      CarriesStill(b.code, b1.code, pc, EncInstr(j, b.tab));
    }
  }

  lemma StillLinked(b: Blob, b1: Blob, i: Instr, pc: nat)
    requires Sound(b) && Appended(b, b1, i) && pc in b.instrs && (pc + 1 in b1.pending <==> pc + 1 in b.pending)
    ensures pc != |b.code| && pc in b1.instrs && Linked(b1, pc)
  {
    assert Placed(b, pc) && Linked(b, pc);
  }

  lemma StillIndexed(b: Blob, b1: Blob, i: Instr)
    requires Sound(b) && Appended(b, b1, i) && |b.code| !in b.instrs
    ensures AllIndexed(b1)
  {
    var n := |b.emitted|;
    forall k: nat | k <= n + 1
      ensures Indexed(b1, k)
    {
      OffsetStill(b.emitted, i, if k <= n then k else n);
      assert Indexed(b, if k <= n then k else n);
    }
  }

  lemma StillApart(b: Blob, b1: Blob, i: Instr)
    requires Sound(b) && Appended(b, b1, i)
    ensures AllApart(b1)
  {
    forall p, q | p in b1.instrs && q in b1.instrs
      ensures Apart(b1, p, q)
    {
      if p in b.instrs {
        assert Placed(b, p);
      }
      if q in b.instrs {
        assert Placed(b, q);
      }
      if p in b.instrs && q in b.instrs {
        assert Apart(b, p, q);
      }
    }
  }

  lemma PendingBelow(b: Blob)
    requires Sound(b)
    ensures forall e | e in b.pending :: e <= |b.code|
  {
    forall e | e in b.pending
      ensures e <= |b.code|
    {
      assert BehindJump(b, e) && Placed(b, e - 1);
    }
  }

  lemma NewHere(b: Blob)
    requires Sound(b)
    ensures |b.code| !in b.instrs && |b.code| + 1 !in b.pending
  {
    assert |b.code| in b.instrs ==> Placed(b, |b.code|);
    assert |b.code| + 1 in b.pending ==> BehindJump(b, |b.code| + 1);
  }

  /** Appending a complete instruction. A jump must go to a boundary already there. */
  lemma EmitOk(b: Blob, b1: Blob, i: Instr)
    requires Sound(b) && Appended(b, b1, i) && b1.pending == b.pending && b1.code == b.code + EncInstr(i, b1.tab)
    requires b.failed || IsJump(i) || Encodable(i)
    requires IsJump(i) ==> Boundary(b, TargetOf(i))
    ensures Sound(b1)
  {
    var at := |b.code|;
    NewHere(b);
    CarriesAppended(b.code, EncInstr(i, b1.tab));
    forall pc | pc in b1.instrs
      ensures Placed(b1, pc) && Linked(b1, pc)
    {
      if pc != at {
        StillPlaced(b, b1, i, pc);
        StillLinked(b, b1, i, pc);
      }
    }
    StillApart(b, b1, i);
    StillBehind(b, b1);
    StillIndexed(b, b1, i);
    StillOwing(b, b1, i);
  }

  lemma SameIndexed(b: Blob, b1: Blob)
    requires AllIndexed(b) && b1.emitted == b.emitted && b1.instrs == b.instrs && |b1.code| == |b.code|
    ensures AllIndexed(b1)
  {
    forall k: nat | k <= |b1.emitted|
      ensures Indexed(b1, k)
    {
      assert Indexed(b, k);
    }
  }

  lemma StillBehind(b: Blob, b1: Blob)
    requires AllBehindJumps(b) && b1.pending <= b.pending && b.instrs.Keys <= b1.instrs.Keys
    ensures AllBehindJumps(b1)
  {
    forall e | e in b1.pending
      ensures BehindJump(b1, e)
    {
      assert BehindJump(b, e);
    }
  }

  /** Appending a jump whose target is not known yet. */
  lemma JumpOk(b: Blob, b1: Blob, i: Instr)
    requires Sound(b) && Appended(b, b1, i) && IsJump(i) && b1.pending == b.pending + {|b.code| + 1}
    requires b1.code[|b.code|] == OpcodeOf(i)
    ensures Sound(b1)
  {
    var at := |b.code|;
    NewHere(b);
    forall pc | pc in b1.instrs
      ensures Placed(b1, pc) && Linked(b1, pc)
    {
      if pc != at {
        StillPlaced(b, b1, i, pc);
        StillLinked(b, b1, i, pc);
      }
    }
    StillApart(b, b1, i);
    StillIndexed(b, b1, i);
    StillOwing(b, b1, i);
    forall e | e in b1.pending
      ensures BehindJump(b1, e)
    {
      assert e in b.pending ==> BehindJump(b, e);
    }
  }

  /** `b1` is `b` with the operand of the pending jump at `pc` overwritten. */
  ghost predicate PatchedAt(b: Blob, b1: Blob, pc: nat)
    requires pc in b.instrs
  {
    && pc + 1 in b.pending && IsJump(b.instrs[pc]) && pc + 5 <= |b.code|
    && b1.code == b.code[..pc + 1] + LE(TargetOf(b.instrs[pc]), 4) + b.code[pc + 5..]
    && b1.pending == b.pending - {pc + 1}
    && b1.instrs == b.instrs && b1.emitted == b.emitted && b1.tab == b.tab && b1.failed == b.failed
    && b1.owed == b.owed && b1.anchors == b.anchors
  }

  lemma PatchedHere(b: Blob, b1: Blob, pc: nat)
    requires Sound(b) && pc in b.instrs && PatchedAt(b, b1, pc)
    ensures Placed(b1, pc)
  {
    var i := b.instrs[pc];
    assert Placed(b, pc);
    var enc := EncInstr(i, b.tab);
    assert EncOperand(OperandOf(i), b.tab) == LE(TargetOf(i), 4);
    assert enc == [OpcodeOf(i)] + LE(TargetOf(i), 4);
    assert b1.code[pc..pc + 5] == [b.code[pc]] + LE(TargetOf(i), 4);
    CarriesSlice(b1.code, pc, enc);
  }

  lemma PatchedElsewhere(b: Blob, b1: Blob, pc: nat, other: nat)
    requires Sound(b) && pc in b.instrs && PatchedAt(b, b1, pc) && other in b.instrs && other != pc
    ensures Placed(b1, other)
  {
    var j := b.instrs[other];
    assert Placed(b, other) && Apart(b, pc, other) && Apart(b, other, pc);
    assert Width(b.instrs[pc]) == 5;
    if other + 1 !in b.pending {
      CarriesStill(b.code, b1.code, other, EncInstr(j, b.tab));
    }
  }

  /** Patching touches no other instruction. */
  lemma PatchOk(b: Blob, b1: Blob, pc: nat)
    requires Sound(b) && pc in b.instrs && PatchedAt(b, b1, pc) && Boundary(b, TargetOf(b.instrs[pc]))
    ensures Sound(b1)
  {
    forall q | q in b1.instrs
      ensures Placed(b1, q) && Linked(b1, q)
    {
      assert Linked(b, q);
      if q == pc {
        PatchedHere(b, b1, pc);
      } else {
        PatchedElsewhere(b, b1, pc, q);
      }
    }
    forall p, q | p in b1.instrs && q in b1.instrs
      ensures Apart(b1, p, q)
    {
      assert Apart(b, p, q);
    }
    SameIndexed(b, b1);
    StillBehind(b, b1);
  }

  lemma StillOwing(b: Blob, b1: Blob, i: Instr)
    requires Owing(b) && b1.emitted == b.emitted + [i] && b1.failed == b.failed && b1.owed == b.owed
    ensures Owing(b1)
  {
    if j :| j in b.emitted && Overlong(j) {
      assert j in b1.emitted;
    }
  }

  /** Nothing is owed: an error has been reported exactly if a count does not fit. */
  lemma FailedExactly(b: Blob)
    requires Sound(b) && b.owed == 0
    ensures b.failed <==> AnyOverlong(b.emitted)
  {
    if i :| i in b.emitted && Overlong(i) {
      var k: nat :| k < |b.emitted| && b.emitted[k] == i;
      assert Indexed(b, k);
      assert Placed(b, Offset(b.emitted, k));
    }
  }

  /** Interning more text, reporting an error, or recording a position disturbs nothing. */
  lemma GrowOk(b: Blob, b1: Blob)
    requires Sound(b) && Grows(b.tab, b1.tab) && (b.failed ==> b1.failed)
    requires Owing(b1) && UpTo(b1.anchors, |b1.code|)
    requires b1.code == b.code && b1.instrs == b.instrs && b1.emitted == b.emitted && b1.pending == b.pending
    ensures Sound(b1)
  {
    forall pc | pc in b1.instrs
      ensures Placed(b1, pc) && Linked(b1, pc)
    {
      assert Placed(b, pc) && Linked(b, pc);
      EncInstrStill(b.instrs[pc], b.tab, b1.tab);
    }
    forall p, q | p in b1.instrs && q in b1.instrs
      ensures Apart(b1, p, q)
    {
      assert Apart(b, p, q);
    }
    SameIndexed(b, b1);
    StillBehind(b, b1);
  }

  // ---- the finished blob ----

  /** Every patched jump goes to an instruction, not just to the end of the code. */
  ghost predicate Inside(b: Blob) {
    forall pc {:trigger Linked(b, pc)} | pc in b.instrs && IsJump(b.instrs[pc]) && pc + 1 !in b.pending ::
      TargetOf(b.instrs[pc]) in b.instrs
  }

  /** Behind an instruction that is no jump, the old end of the code is an instruction. */
  lemma NowInside(b: Blob, b1: Blob, i: Instr)
    requires Sound(b) && Sound(b1) && !IsJump(i) && b1.instrs == b.instrs[|b.code| := i] && b1.pending == b.pending
    ensures Inside(b1)
  {
    forall pc | pc in b1.instrs && IsJump(b1.instrs[pc]) && pc + 1 !in b1.pending
      ensures TargetOf(b1.instrs[pc]) in b1.instrs
    {
      assert Linked(b, pc);
    }
  }

  lemma JumpFits(b: Blob, pc: nat)
    requires Sound(b) && b.pending == {} && pc in b.instrs && IsJump(b.instrs[pc]) && |b.code| < U32
    ensures Encodable(b.instrs[pc]) && TargetOf(b.instrs[pc]) <= |b.code|
  {
    assert Linked(b, pc);
    var t := TargetOf(b.instrs[pc]);
    if t in b.instrs {
      assert Placed(b, t);
    }
  }

  /** A finished blob: every jump is patched and nothing was reported. */
  ghost predicate Complete(b: Blob) {
    Sound(b) && b.pending == {} && !b.failed
  }

  /** The interpreter reads the recorded instructions. */
  lemma Readable(b: Blob, strs: seq<Byte>, pc: nat)
    requires Complete(b) && |b.code| < U32 && TableOk(b.tab, strs) && |strs| < U32 && pc in b.instrs
    ensures InstrAt(View(b.code, strs), pc, b.instrs[pc])
  {
    assert Placed(b, pc);
    if IsJump(b.instrs[pc]) {
      JumpFits(b, pc);
    }
    DecodeEncoded(b.code, strs, pc, b.instrs[pc], b.tab);
  }

  /** The code `c` has every recorded instruction in its place. */
  ghost predicate Reads(b: Blob, c: Code) {
    forall pc: nat {:trigger InstrAt(c, pc, b.instrs[pc])} | pc in b.instrs :: InstrAt(c, pc, b.instrs[pc])
  }

  lemma {:induction false} ListedFrom(b: Blob, c: Code, k: nat)
    requires AllIndexed(b) && Reads(b, c) && k <= |b.emitted|
    ensures ListedAt(c, Offset(b.emitted, k), b.emitted[k..])
    decreases |b.emitted| - k
  {
    if k < |b.emitted| {
      var i, at := b.emitted[k], Offset(b.emitted, k);
      assert Indexed(b, k);
      assert InstrAt(c, at, b.instrs[at]);
      ListedFrom(b, c, k + 1);
      Prepend(c, at, i, b.emitted[k + 1..]);
      assert b.emitted[k..] == [i] + b.emitted[k + 1..];
    }
  }

  /** A complete blob decodes, from its first byte on, to exactly what was emitted. */
  lemma CompleteListed(b: Blob, strs: seq<Byte>)
    requires Complete(b) && |b.code| < U32 && TableOk(b.tab, strs) && |strs| < U32
    ensures ListedAt(View(b.code, strs), 0, b.emitted)
  {
    forall pc: nat | pc in b.instrs
      ensures InstrAt(View(b.code, strs), pc, b.instrs[pc])
    {
      Readable(b, strs, pc);
    }
    ListedFrom(b, View(b.code, strs), 0);
    assert b.emitted[0..] == b.emitted;
  }
}
