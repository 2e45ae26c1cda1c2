/** The disassembler's walk over a code blob, and what it finds in emitted code. */
module Disassembler {
  import opened Bytes
  import opened Syntax
  import opened Machine
  import opened Layout
  import opened Encoding
  import opened Listing
  import opened Blobs

  /** `list` is the whole of the blob: its instructions stand one after another from the
      first byte to the last. */
  ghost predicate Covers(c: Code, list: seq<Instr>) {
    Offset(list, |list|) == c.size && forall k: nat {:trigger ReadAt(c, list, k)} | k < |list| :: ReadAt(c, list, k)
  }

  predicate ReadAt(c: Code, list: seq<Instr>, k: nat)
    requires k < |list|
  {
    c.fetch(Offset(list, k)) == Instruction(list[k], Offset(list, k + 1))
  }

  lemma {:induction false} OffsetGrows(list: seq<Instr>, j: nat, k: nat)
    requires j <= k <= |list|
    ensures Offset(list, j) <= Offset(list, k)
    ensures j < k ==> Offset(list, j) < Offset(list, k)
    decreases k
  {
    if j < k {
      OffsetGrows(list, j, k - 1);
    }
  }

  /** One step of the walk agrees with every listing of the blob. */
  lemma StepAgrees(c: Code, list: seq<Instr>, done: seq<Instr>, at: nat)
    requires Covers(c, list) && done <= list && at == Offset(list, |done|)
    ensures at < c.size <==> |done| < |list|
    ensures at < c.size ==> c.fetch(at) == Instruction(list[|done|], Offset(list, |done| + 1))
    ensures at < c.size ==> done + [list[|done|]] <= list
    ensures at <= c.size
  {
    OffsetGrows(list, |done|, |list|);
    if |done| < |list| {
      assert ReadAt(c, list, |done|);
    }
  }

  // ---- what is read is as wide as it says ----

  lemma {:induction false} ReadTypeWidth(code: seq<Byte>, strs: seq<Byte>, p: nat)
    ensures var r := ReadType(code, strs, p); r.Got? ==> r.next == p + TypeWidth(r.value)
    decreases |code| - p, 0
  {
    hide ReadText, ReadLE;
    var tag := ReadU8(code, p);
    if tag.Got? {
      if tag.value == 2 {
        ReadTypeWidth(code, strs, p + 1);
      } else if tag.value == 4 {
        ReadTypeWidth(code, strs, p + 1);
        var key := ReadType(code, strs, p + 1);
        if key.Got? {
          ReadTypeWidth(code, strs, key.next);
        }
      } else if tag.value == 3 || tag.value == 5 {
        var n := ReadLE(code, p + 1, 4);
        if n.Got? {
          ReadTypesWidth(code, strs, n.next, n.value);
          var ts := ReadTypes(code, strs, n.next, n.value);
          if tag.value == 5 && ts.Got? {
            ReadTypeWidth(code, strs, ts.next);
          }
        }
      }
    }
  }

  lemma {:induction false} ReadTypesWidth(code: seq<Byte>, strs: seq<Byte>, p: nat, n: nat)
    requires p <= |code|
    ensures var r := ReadTypes(code, strs, p, n); r.Got? ==> r.next == p + TypesWidth(r.value)
    decreases |code| - p, 1, n
  {
    hide ReadType, TypeWidth;
    if n > 0 {
      ReadTypeWidth(code, strs, p);
      var first := ReadType(code, strs, p);
      if first.Got? {
        ReadTypesWidth(code, strs, first.next, n - 1);
        var rest := ReadTypes(code, strs, first.next, n - 1);
        if rest.Got? {
          assert ([first.value] + rest.value)[1..] == rest.value;
        }
      }
    }
  }

  function OperandWidth(o: Operand): nat {
    match o
    case NoOperand => 0
    case ByteOperand(_) => 1
    case WordOperand(_) => 4
    case LongOperand(_) => 8
    case DoubleOperand(_) => 8
    case TextOperand(_) => 8
    case TextsOperand(_, _) => 16
    case TypeOperand(t) => TypeWidth(t)
  }

  lemma ReadOperandWidth(shape: Shape, code: seq<Byte>, strs: seq<Byte>, p: nat)
    requires p <= |code|
    ensures var r := ReadOperand(shape, code, strs, p); r.Got? ==> r.next == p + OperandWidth(r.value) <= |code|
  {
    hide ReadType, TypeWidth, FromTwos;
    ReadTypeWidth(code, strs, p);
  }

  lemma BuildWidth(op: Byte, o: Operand)
    ensures Build(op, o).Some? ==> Width(Build(op, o).value) == 1 + OperandWidth(o)
  {
    hide TypeWidth;
  }

  /** The next instruction begins where this one ends, within the blob. */
  lemma DecodeWidth(code: seq<Byte>, strs: seq<Byte>, pc: nat)
    ensures var f := Decode(code, strs, pc); f.Instruction? ==> f.next == pc + Width(f.instr) <= |code|
  {
    hide ReadOperand, Build, Width, OperandWidth, ShapeOf;
    if pc < |code| {
      ReadOperandWidth(ShapeOf(code[pc]), code, strs, pc + 1);
      var o := ReadOperand(ShapeOf(code[pc]), code, strs, pc + 1);
      if o.Got? {
        BuildWidth(code[pc], o.value);
      }
    }
  }

  /** The instructions read so far stand where they are listed. */
  ghost predicate ReadTo(c: Code, list: seq<Instr>, cursor: nat) {
    Offset(list, |list|) == cursor && forall k: nat {:trigger ReadAt(c, list, k)} | k < |list| :: ReadAt(c, list, k)
  }

  lemma ReadOn(c: Code, list: seq<Instr>, i: Instr, cursor: nat)
    requires ReadTo(c, list, cursor) && c.fetch(cursor) == Instruction(i, cursor + Width(i))
    ensures ReadTo(c, list + [i], cursor + Width(i))
  {
    var n := |list|;
    OffsetStill(list, i, n);
    forall k: nat | k < n + 1
      ensures ReadAt(c, list + [i], k)
    {
      OffsetStill(list, i, k);
      if k < n {
        OffsetStill(list, i, k + 1);
        assert ReadAt(c, list, k);
      }
    }
  }

  /** Decode a blob from its first byte on, instruction by instruction, until the cursor
      stands exactly at the end. Fails exactly if no list of instructions is the blob. */
  method DecodeCode(code: seq<Byte>, strs: seq<Byte>) returns (r: Option<seq<Instr>>)
    ensures forall list | Covers(View(code, strs), list) :: r == Some(list)
    ensures r.Some? ==> Covers(View(code, strs), r.value)
  {
    hide Decode;
    ghost var c := View(code, strs);
    var cursor: nat, done := 0, [];
    while cursor != |code|
      invariant cursor <= |code|
      invariant ReadTo(c, done, cursor)
      invariant forall list | Covers(c, list) :: done <= list && cursor == Offset(list, |done|)
      decreases |code| - cursor
    {
      match Decode(code, strs, cursor)
      case Instruction(i, next) =>
        if next <= cursor || next > |code| {
          forall list | Covers(c, list)
            ensures false
          {
            StepAgrees(c, list, done, cursor);
            OffsetGrows(list, |done| + 1, |list|);
          }
          return None;
        }
        forall list | Covers(c, list)
          ensures done + [i] <= list && next == Offset(list, |done| + 1)
        {
          StepAgrees(c, list, done, cursor);
        }
        DecodeWidth(code, strs, cursor);
        ReadOn(c, done, i, cursor);
        cursor, done := next, done + [i];
      case _ =>
        forall list | Covers(c, list)
          ensures false
        {
          StepAgrees(c, list, done, cursor);
        }
        return None;
    }
    forall list | Covers(c, list)
      ensures done == list
    {
      StepAgrees(c, list, done, cursor);
    }
    return Some(done);
  }

  // ---- emitted code is well formed ----

  ghost predicate StartsAt(list: seq<Instr>, j: nat, pc: nat)
    requires j <= |list|
  {
    Offset(list, j) == pc
  }

  /** The blob is exactly `list`, and every jump in it goes to the start of one of its
      instructions. */
  ghost predicate WellFormed(c: Code, list: seq<Instr>) {
    && Covers(c, list)
    && forall k {:trigger list[k]} | 0 <= k < |list| && IsJump(list[k]) ::
         exists j: nat :: j < |list| && StartsAt(list, j, TargetOf(list[k]))
  }

  /** Every recorded boundary is the start of a listed instruction. */
  lemma {:induction false} BoundaryIndex(b: Blob, pc: nat, k: nat) returns (j: nat)
    requires Sound(b) && pc in b.instrs && k < |b.emitted| && Offset(b.emitted, k) <= pc
    ensures j < |b.emitted| && Offset(b.emitted, j) == pc
    decreases |b.emitted| - k
  {
    var at := Offset(b.emitted, k);
    assert Indexed(b, k);
    if at == pc {
      j := k;
    } else {
      assert Apart(b, at, pc) && Placed(b, pc) && Indexed(b, k + 1);
      j := BoundaryIndex(b, pc, k + 1);
    }
  }

  lemma BlobWellFormed(b: Blob, strs: seq<Byte>)
    requires Complete(b) && Inside(b) && |b.code| < U32 && TableOk(b.tab, strs) && |strs| < U32
    ensures WellFormed(View(b.code, strs), b.emitted)
  {
    var c, list := View(b.code, strs), b.emitted;
    assert Indexed(b, |list|);
    forall k: nat | k < |list|
      ensures ReadAt(c, list, k)
    {
      assert Indexed(b, k);
      Readable(b, strs, Offset(list, k));
    }
    forall k | 0 <= k < |list| && IsJump(list[k])
      ensures exists j: nat :: j < |list| && StartsAt(list, j, TargetOf(list[k]))
    {
      var pc, t := Offset(list, k), TargetOf(list[k]);
      assert Indexed(b, k) && Linked(b, pc) && Indexed(b, 0);
      var j := BoundaryIndex(b, t, 0);
      assert StartsAt(list, j, t);
    }
  }
}
