/** What the marks mean for the machine. In every run of compiled code no instruction ever
    lacks an operand; where depths are exact the stack has the depth of its offset; and a
    fault finds the handler of the innermost protected block around it, however many
    handlers `break`s have left behind, with the operands of that block's start in place. */
module Stack {
  import opened Syntax
  import opened Semantics
  import opened Machine
  import opened Layout
  import opened Listing
  import opened Breaks
  import opened Blobs
  import opened Disassembler
  import opened Depths

  /** A blob, the marks of its offsets, and the offsets at which its instructions start. */
  datatype Plan = Plan(code: Code, marks: Marks, starts: iset<nat>, exact: bool)

  predicate Here(p: Plan, q: nat, h: nat, rs: seq<Region>) {
    q in p.starts && Edge(p.marks, q, h, rs, p.exact)
  }

  /** All of the block is marked as inside it, but for the jump that leaves it. */
  ghost predicate Genuine(m: Marks, r: Region) {
    forall q: nat {:trigger m(q)} | r.start <= q < r.handler :: r in m(q).inside || m(q).quiet
  }

  /** The instruction at `pc` has its operands above what the blocks around it hold, and
      leaves for instruction starts of the right mark. */
  ghost predicate Leaves(p: Plan, pc: nat, i: Instr, next: nat) {
    var k := p.marks(pc);
    && Pops(i) <= k.depth && Nested(p.marks, k.inside) && Above(p.marks, k.inside, k.depth - Pops(i))
      && (k.quiet ==> i.Jmp?)
    && Within(p.marks, pc)
    && match i
       case Jmp(t) => Here(p, t, k.depth, k.inside)
       case JmpIfFalse(t) => Here(p, t, k.depth - 1, k.inside) && Here(p, next, k.depth - 1, k.inside)
       case JmpIfTrue(t) => Here(p, t, k.depth - 1, k.inside) && Here(p, next, k.depth - 1, k.inside)
       case MonitorEnter(t) =>
         && Here(p, next, k.depth, k.inside + [Region(next, t)]) && t in p.starts && p.marks(t).depth == k.depth + 1
         && Region(next, t) !in k.inside && Genuine(p.marks, Region(next, t))
       case MonitorExit => k.inside != [] && Here(p, next, k.depth, k.inside[..|k.inside| - 1])
       case Ret => true
       case Halt => true
       case _ => Here(p, next, After(i, k.depth), k.inside)
  }

  /** The instruction at an offset. */
  function InstrOf(p: Plan, pc: nat): Instr {
    if p.code.fetch(pc).Instruction? then p.code.fetch(pc).instr else Instr.Halt
  }

  /** The depth below the operands of the instruction. */
  function Base(p: Plan, pc: nat): int {
    p.marks(pc).depth - Pops(InstrOf(p, pc))
  }

  ghost predicate PlanOk(p: Plan) {
    forall pc: nat {:trigger pc in p.starts} | pc in p.starts ::
      pc <= p.code.size && p.code.fetch(pc).Instruction? && Leaves(p, pc, p.code.fetch(pc).instr, p.code.fetch(pc).next)
  }

  // ---- compiled blobs have plans ----

  ghost function Starts(list: seq<Instr>): iset<nat> {
    iset k: nat | k < |list| :: Offset(list, k)
  }

  lemma {:induction false} OffsetTail(list: seq<Instr>, k: nat)
    requires 1 <= k <= |list|
    ensures Offset(list, k) == Width(list[0]) + Offset(list[1..], k - 1)
    decreases k
  {
    if k > 1 {
      OffsetTail(list, k - 1);
    }
  }

  lemma {:induction false} FlowAt(m: Marks, list: seq<Instr>, at: nat, end: nat, exact: bool, k: nat)
    requires Flows(m, list, at, end, exact) && k < |list|
    ensures Flow(m, at + Offset(list, k), list[k], exact)
    decreases |list|
  {
    hide Flow;
    if k > 0 {
      OffsetTail(list, k);
      FlowAt(m, list[1..], at + Width(list[0]), end, exact, k - 1);
    }
  }

  /** Control does not run off the end of a listing that closes with a return or a halt. */
  lemma PlanOf(c: Code, list: seq<Instr>, m: Marks, exact: bool, end: nat)
    requires WellFormed(c, list) && Flows(m, list, 0, end, exact) && list != []
      && (list[|list| - 1].Ret? || list[|list| - 1].Halt?)
    requires forall pc: nat :: Within(m, pc)
    ensures PlanOk(Plan(c, m, Starts(list), exact))
  {
    hide Flows, Flow, Offset, Leaves, Within;
    var p := Plan(c, m, Starts(list), exact);
    forall pc: nat | pc in p.starts
      ensures pc <= c.size && c.fetch(pc).Instruction? && Leaves(p, pc, c.fetch(pc).instr, c.fetch(pc).next)
    {
      var k: nat :| k < |list| && pc == Offset(list, k);
      assert ReadAt(c, list, k);
      OffsetGrows(list, k, |list|);
      FlowAt(m, list, 0, end, exact, k);
      assert Within(m, pc) by {
        var mark := m(pc);
      }
      InstructionLeaves(c, list, p, k);
    }
  }

  lemma InstructionLeaves(c: Code, list: seq<Instr>, p: Plan, k: nat)
    requires WellFormed(c, list) && k < |list| && p.starts == Starts(list)
      && Flow(p.marks, Offset(list, k), list[k], p.exact)
    requires Within(p.marks, Offset(list, k)) && (list[|list| - 1].Ret? || list[|list| - 1].Halt?)
    ensures Leaves(p, Offset(list, k), list[k], Offset(list, k + 1))
  {
    hide Within, Nested, Above;
    var i := list[k];
    assert Offset(list, k + 1) == Offset(list, k) + Width(i);
    if k + 1 < |list| {
      assert Offset(list, k + 1) in p.starts;
    }
    if IsJump(i) {
      var j: nat :| j < |list| && StartsAt(list, j, TargetOf(i));
      assert TargetOf(i) in p.starts;
    }
  }

  // ---- handlers ----

  function RegionAt(m: Mon): Region {
    Region(m.start, m.handler)
  }

  /** How much deeper the stack was at the block's start than its mark says. */
  function Excess(p: Plan, m: Mon): int {
    m.depth + 1 - p.marks(m.handler).depth
  }

  ghost predicate MonOk(p: Plan, m: Mon) {
    m.handler in p.starts && Excess(p, m) >= 0 && (p.exact ==> Excess(p, m) == 0) && Genuine(p.marks, RegionAt(m))
  }

  /** Handlers are recorded in the order of their excess, which never falls. */
  ghost predicate MonsOk(p: Plan, mons: seq<Mon>, e: int) {
    && (forall i {:trigger mons[i]} | 0 <= i < |mons| :: MonOk(p, mons[i]) && Excess(p, mons[i]) <= e)
    && (forall i, j {:trigger mons[i], mons[j]} | 0 <= i < j < |mons| :: Excess(p, mons[i]) <= Excess(p, mons[j]))
  }

  /** Each protected block around has its handler recorded, innermost on top; what lies
      above belongs to none of them. */
  ghost predicate Owns(mons: seq<Mon>, rs: seq<Region>)
    decreases |rs|
  {
    rs == [] || exists i {:trigger OwnAt(mons, rs, i)} :: OwnAt(mons, rs, i) && Owns(mons[..i], rs[..|rs| - 1])
  }

  /** Handler `i` is the innermost block's, and none above belongs to any block around. */
  ghost predicate OwnAt(mons: seq<Mon>, rs: seq<Region>, i: int) {
    && rs != [] && 0 <= i < |mons| && RegionAt(mons[i]) == rs[|rs| - 1] && rs[|rs| - 1] !in rs[..|rs| - 1]
    && forall j {:trigger mons[j]} | i < j < |mons| :: RegionAt(mons[j]) !in rs
  }

  ghost predicate Foreign(mons: seq<Mon>, rs: seq<Region>) {
    forall j {:trigger mons[j]} | 0 <= j < |mons| :: RegionAt(mons[j]) !in rs
  }

  lemma OwnIndex(mons: seq<Mon>, rs: seq<Region>) returns (i: int)
    requires rs != [] && Owns(mons, rs)
    ensures 0 <= i < |mons| && OwnAt(mons, rs, i) && Owns(mons[..i], rs[..|rs| - 1])
  {
    i :| OwnAt(mons, rs, i) && Owns(mons[..i], rs[..|rs| - 1]);
  }

  lemma OwnsMore(mons: seq<Mon>, more: seq<Mon>, rs: seq<Region>)
    requires Owns(mons, rs) && Foreign(more, rs)
    ensures Owns(mons + more, rs)
  {
    if rs != [] {
      var i := OwnIndex(mons, rs);
      OwnAtMore(mons, more, rs, i);
      assert (mons + more)[..i] == mons[..i];
    }
  }

  lemma OwnAtMore(mons: seq<Mon>, more: seq<Mon>, rs: seq<Region>, i: int)
    requires OwnAt(mons, rs, i) && Foreign(more, rs)
    ensures OwnAt(mons + more, rs, i)
  {
    var all := mons + more;
    assert all[i] == mons[i];
    forall j | i < j < |all|
      ensures RegionAt(all[j]) !in rs
    {
      if j < |mons| {
        assert all[j] == mons[j];
      } else {
        assert all[j] == more[j - |mons|];
      }
    }
  }

  /** From the innermost handler up, nothing belongs to the blocks further out. */
  lemma ForeignFrom(mons: seq<Mon>, rs: seq<Region>, i: int, n: int)
    requires OwnAt(mons, rs, i) && i <= n <= |mons|
    ensures Foreign(mons[i..n], rs[..|rs| - 1])
  {
    var less := rs[..|rs| - 1];
    forall j | 0 <= j < n - i
      ensures RegionAt(mons[i..n][j]) !in less
    {
      assert mons[i..n][j] == mons[i + j];
      assert forall r | r in less :: r in rs;
    }
  }

  lemma OwnsUpTo(mons: seq<Mon>, rs: seq<Region>, i: int, n: int)
    requires OwnAt(mons, rs, i) && Owns(mons[..i], rs[..|rs| - 1]) && i <= n <= |mons|
    ensures Owns(mons[..n], rs[..|rs| - 1])
  {
    assert 0 <= i;
    hide *;
    ForeignFrom(mons, rs, i, n);
    OwnsMore(mons[..i], mons[i..n], rs[..|rs| - 1]);
    Cut(mons, i, n);
  }

  lemma Cut<T>(s: seq<T>, i: int, n: int)
    requires 0 <= i <= n <= |s|
    ensures s[..i] + s[i..n] == s[..n]
  {
  }

  /** Leaving the innermost block, by whatever way, keeps the others' handlers. */
  lemma OwnsLess(mons: seq<Mon>, rs: seq<Region>)
    requires rs != [] && Owns(mons, rs)
    ensures mons != [] && Owns(mons, rs[..|rs| - 1]) && Owns(mons[..|mons| - 1], rs[..|rs| - 1])
  {
    hide *;
    var i := OwnIndex(mons, rs);
    OwnsUpTo(mons, rs, i, |mons|);
    assert mons[..|mons|] == mons;
    OwnsUpTo(mons, rs, i, |mons| - 1);
  }

  lemma {:induction false} OwnsPrefix(mons: seq<Mon>, rs: seq<Region>, less: seq<Region>)
    requires Owns(mons, rs) && less <= rs
    ensures Owns(mons, less)
    decreases |rs|
  {
    hide Owns;
    if less != rs {
      OwnsLess(mons, rs);
      assert less <= rs[..|rs| - 1];
      OwnsPrefix(mons, rs[..|rs| - 1], less);
    }
  }

  lemma OwnsPush(mons: seq<Mon>, rs: seq<Region>, m: Mon)
    requires Owns(mons, rs) && RegionAt(m) !in rs
    ensures Owns(mons + [m], rs + [RegionAt(m)])
  {
    var all, wider, i := mons + [m], rs + [RegionAt(m)], |mons|;
    assert all[i] == m && all[..i] == mons && wider[..|wider| - 1] == rs;
    assert OwnAt(all, wider, i);
  }

  lemma {:induction false} DropStaleTo(mons: seq<Mon>, pc: nat, i: int)
    requires 0 <= i < |mons| && Machine.Covers(mons[i], pc) && forall j {:trigger mons[j]} | i < j < |mons| ::
      !Machine.Covers(mons[j], pc)
    ensures DropStale(mons, pc) == mons[..i + 1]
    decreases |mons|
  {
    var less := mons[..|mons| - 1];
    if i == |mons| - 1 {
      assert mons[..i + 1] == mons;
    } else {
      assert less[i] == mons[i] && forall j | i < j < |less| :: less[j] == mons[j];
      DropStaleTo(less, pc, i);
      assert less[..i + 1] == mons[..i + 1];
    }
  }

  lemma {:induction false} DropStaleAll(mons: seq<Mon>, pc: nat)
    requires forall j {:trigger mons[j]} | 0 <= j < |mons| :: !Machine.Covers(mons[j], pc)
    ensures DropStale(mons, pc) == []
    decreases |mons|
  {
    if mons != [] {
      var less := mons[..|mons| - 1];
      assert forall j | 0 <= j < |less| :: less[j] == mons[j];
      DropStaleAll(less, pc);
    }
  }

  /** A handler that belongs to no block around the offset does not cover it. */
  lemma NotCovering(p: Plan, pc: nat, m: Mon)
    requires MonOk(p, m) && !p.marks(pc).quiet && RegionAt(m) !in p.marks(pc).inside
    ensures !Machine.Covers(m, pc)
  {
  }

  /** The search from the top stops at the innermost block's own handler. */
  lemma Dispatched(p: Plan, pc: nat, mons: seq<Mon>, e: int) returns (n: nat)
    requires MonsOk(p, mons, e) && Owns(mons, p.marks(pc).inside) && Within(p.marks, pc) && !p.marks(pc).quiet
    ensures n <= |mons| && DropStale(mons, pc) == mons[..n] && Foreign(mons[n..], p.marks(pc).inside)
    ensures p.marks(pc).inside == [] ==> n == 0
    ensures
      var rs := p.marks(pc).inside;
      rs != [] ==> n >= 1 && RegionAt(mons[n - 1]) == rs[|rs| - 1] && Owns(mons[..n - 1], rs[..|rs| - 1])
  {
    hide DropStale, Genuine, Excess;
    var rs := p.marks(pc).inside;
    forall j | 0 <= j < |mons| && RegionAt(mons[j]) !in rs
      ensures !Machine.Covers(mons[j], pc)
    {
      NotCovering(p, pc, mons[j]);
    }
    if rs == [] {
      DropStaleAll(mons, pc);
      n := 0;
    } else {
      hide Owns;
      var i := OwnIndex(mons, rs);
      assert rs[|rs| - 1] in rs;
      DropStaleTo(mons, pc, i);
      n := i + 1;
      forall j | 0 <= j < |mons| - n
        ensures mons[n..][j] == mons[n + j]
      {
      }
    }
  }

  // ---- configurations ----

  /** A frame may stand at `pc` with `h` operands. */
  ghost predicate Stands(p: Plan, pc: nat, h: nat, mons: seq<Mon>) {
    && pc in p.starts && p.marks(pc).depth <= h && (p.exact ==> p.marks(pc).depth == h)
    && Owns(mons, p.marks(pc).inside) && MonsOk(p, mons, h - p.marks(pc).depth)
  }

  /** A fault at `pc` may leave `h` operands. */
  ghost predicate Faults(p: Plan, pc: nat, h: nat, mons: seq<Mon>) {
    pc in p.starts && !p.marks(pc).quiet && Owns(mons, p.marks(pc).inside) && MonsOk(p, mons, h - Base(p, pc))
  }

  lemma MonsLater(p: Plan, mons: seq<Mon>, e: int, e1: int)
    requires MonsOk(p, mons, e) && e <= e1
    ensures MonsOk(p, mons, e1)
  {
    hide MonOk, Excess;
  }

  lemma MonsFewer(p: Plan, mons: seq<Mon>, e: int, n: nat)
    requires MonsOk(p, mons, e) && n < |mons|
    ensures MonsOk(p, mons[..n], Excess(p, mons[n])) && MonsOk(p, mons[..n], e) && MonOk(p, mons[n])
      && Excess(p, mons[n]) <= e
  {
    hide MonOk, Excess;
    var few := mons[..n];
    forall i | 0 <= i < n
      ensures few[i] == mons[i] && Excess(p, mons[i]) <= Excess(p, mons[n])
    {
    }
  }

  /** From one offset to another: the excess never falls. */
  lemma Onward(p: Plan, pc: nat, h: nat, mons: seq<Mon>, q: nat, k: nat, h1: nat)
    requires Stands(p, pc, h, mons) && Here(p, q, k, p.marks(pc).inside) && h1 - k == h - p.marks(pc).depth
    ensures Stands(p, q, h1, mons)
  {
    hide Owns, MonsOk;
    OwnsPrefix(mons, p.marks(pc).inside, p.marks(q).inside);
    MonsLater(p, mons, h - p.marks(pc).depth, h1 - p.marks(q).depth);
  }

  lemma PlannedAt(p: Plan, pc: nat)
    requires PlanOk(p) && pc in p.starts
    ensures pc <= p.code.size && p.code.fetch(pc).Instruction? && Leaves(p, pc, InstrOf(p, pc), p.code.fetch(pc).next)
      && Within(p.marks, pc)
    ensures Base(p, pc) >= 0 && Nested(p.marks, p.marks(pc).inside) && Above(p.marks, p.marks(pc).inside, Base(p, pc))
  {
    hide Nested, Above, Within, Genuine;
  }

  /** The handler is entered where its block was, whatever was on the stack. */
  lemma Handled(p: Plan, pc: nat, h: nat, mons: seq<Mon>) returns (n: nat)
    requires PlanOk(p) && Faults(p, pc, h, mons)
    ensures n <= |mons| && DropStale(mons, pc) == mons[..n]
    ensures n > 0 ==> mons[n - 1].depth <= h && Stands(p, mons[n - 1].handler, mons[n - 1].depth + 1, mons[..n - 1])
  {
    assert pc in p.starts && !p.marks(pc).quiet && Owns(mons, p.marks(pc).inside) && MonsOk(p, mons, h - Base(p, pc));
    hide *;
    PlannedAt(p, pc);
    n := Dispatched(p, pc, mons, h - Base(p, pc));
    if n > 0 {
      HandlerStands(p, p.marks(pc).inside, Base(p, pc), h, mons, n - 1);
    }
  }

  lemma HandlerStands(p: Plan, rs: seq<Region>, base: nat, h: nat, mons: seq<Mon>, n: nat)
    requires rs != [] && Nested(p.marks, rs) && Above(p.marks, rs, base) && MonsOk(p, mons, h - base)
    requires n < |mons| && RegionAt(mons[n]) == rs[|rs| - 1] && Owns(mons[..n], rs[..|rs| - 1])
    ensures mons[n].depth <= h && Stands(p, mons[n].handler, mons[n].depth + 1, mons[..n])
  {
    hide Owns, MonsOk, Genuine;
    MonsFewer(p, mons, h - base, n);
    assert p.marks(rs[|rs| - 1].handler).inside <= rs[..|rs| - 1];
    OwnsPrefix(mons[..n], rs[..|rs| - 1], p.marks(mons[n].handler).inside);
  }

  // ---- one instruction ----

  /** What an instruction finds, and where it may go. */
  lemma Enough(p: Plan, pc: nat, h: nat, mons: seq<Mon>)
    requires PlanOk(p) && Stands(p, pc, h, mons)
    ensures Pops(InstrOf(p, pc)) <= h && p.code.fetch(pc) == Instruction(InstrOf(p, pc), p.code.fetch(pc).next)
    ensures p.exact ==> p.marks(pc).depth == h
    ensures !InstrOf(p, pc).Jmp? ==> Faults(p, pc, h - Pops(InstrOf(p, pc)), mons)
  {
    hide Owns, MonsOk, Nested, Above, Within, Genuine;
    PlannedAt(p, pc);
    assert pc in p.starts;
  }

  /** Instructions that go on behind themselves. */
  lemma Plainly(p: Plan, pc: nat, h: nat, mons: seq<Mon>)
    requires PlanOk(p) && Stands(p, pc, h, mons)
    ensures
      var i := InstrOf(p, pc);
      !IsJump(i) && !i.Ret? && !i.Halt? && !i.MonitorExit? && Pops(i) <= h ==>
        Stands(p, p.code.fetch(pc).next, After(i, h), mons)
  {
    hide Owns, MonsOk, Nested, Above, Within, Genuine, Here, PlanOk, Stands;
    StandsAt(p, pc, h, mons);
    PlannedAt(p, pc);
    var i, next := InstrOf(p, pc), p.code.fetch(pc).next;
    if !IsJump(i) && !i.Ret? && !i.Halt? && !i.MonitorExit? && Pops(i) <= h {
      Onward(p, pc, h, mons, next, After(i, p.marks(pc).depth), After(i, h));
    }
  }

  lemma StandsAt(p: Plan, pc: nat, h: nat, mons: seq<Mon>)
    requires Stands(p, pc, h, mons)
    ensures pc in p.starts && p.marks(pc).depth <= h && (p.exact ==> p.marks(pc).depth == h)
    ensures Owns(mons, p.marks(pc).inside) && MonsOk(p, mons, h - p.marks(pc).depth)
  {
  }

  lemma Branches(p: Plan, pc: nat, h: nat, mons: seq<Mon>)
    requires PlanOk(p) && Stands(p, pc, h, mons)
    ensures
      var i := InstrOf(p, pc);
      && (i.Jmp? ==> i.target <= p.code.size && Stands(p, i.target, h, mons))
      && (i.JmpIfFalse? || i.JmpIfTrue? ==>
            h >= 1 && i.target <= p.code.size && Stands(p, i.target, h - 1, mons)
              && Stands(p, p.code.fetch(pc).next, h - 1, mons))
  {
    hide Owns, MonsOk, Nested, Above, Within, Genuine, PlanOk, Stands;
    StandsAt(p, pc, h, mons);
    PlannedAt(p, pc);
    var i, next, d := InstrOf(p, pc), p.code.fetch(pc).next, p.marks(pc).depth;
    if i.Jmp? {
      Onward(p, pc, h, mons, i.target, d, h);
      PlannedAt(p, i.target);
    } else if i.JmpIfFalse? || i.JmpIfTrue? {
      Onward(p, pc, h, mons, i.target, d - 1, h - 1);
      Onward(p, pc, h, mons, next, d - 1, h - 1);
      PlannedAt(p, i.target);
    }
  }

  lemma Entered(p: Plan, pc: nat, h: nat, mons: seq<Mon>)
    requires PlanOk(p) && Stands(p, pc, h, mons) && InstrOf(p, pc).MonitorEnter?
    ensures
      var next, t := p.code.fetch(pc).next, InstrOf(p, pc).target;
      t <= p.code.size && Stands(p, next, h, mons + [Mon(next, t, h)])
  {
    hide Owns, MonsOk, MonOk, Nested, Above, Within, Genuine, PlanOk;
    PlannedAt(p, pc);
    var next, t := p.code.fetch(pc).next, InstrOf(p, pc).target;
    var m := Mon(next, t, h);
    PlannedAt(p, t);
    OwnsPush(mons, p.marks(pc).inside, m);
    OwnsPrefix(mons + [m], p.marks(pc).inside + [RegionAt(m)], p.marks(next).inside);
    NewMon(p, m);
    MonsMore(p, mons, m);
    MonsLater(p, mons + [m], Excess(p, m), h - p.marks(next).depth);
  }

  lemma NewMon(p: Plan, m: Mon)
    requires m.handler in p.starts && Excess(p, m) >= 0 && (p.exact ==> Excess(p, m) == 0)
      && Genuine(p.marks, RegionAt(m))
    ensures MonOk(p, m)
  {
  }

  lemma MonsMore(p: Plan, mons: seq<Mon>, m: Mon)
    requires MonsOk(p, mons, Excess(p, m)) && MonOk(p, m)
    ensures MonsOk(p, mons + [m], Excess(p, m))
  {
    hide MonOk, Excess;
    var all := mons + [m];
    assert forall i | 0 <= i < |mons| :: all[i] == mons[i];
    assert all[|mons|] == m;
  }

  lemma Exited(p: Plan, pc: nat, h: nat, mons: seq<Mon>)
    requires PlanOk(p) && Stands(p, pc, h, mons) && InstrOf(p, pc).MonitorExit?
    ensures mons != [] && Stands(p, p.code.fetch(pc).next, h, mons[..|mons| - 1])
  {
    hide Owns, MonsOk, MonOk, Nested, Above, Within, Genuine, PlanOk, Excess;
    PlannedAt(p, pc);
    var rs, next := p.marks(pc).inside, p.code.fetch(pc).next;
    OwnsLess(mons, rs);
    var less := mons[..|mons| - 1];
    OwnsPrefix(less, rs[..|rs| - 1], p.marks(next).inside);
    MonsFewer(p, mons, h - p.marks(pc).depth, |mons| - 1);
    MonsLater(p, less, h - p.marks(pc).depth, h - p.marks(next).depth);
  }

  // ---- runs ----

  type Plans = map<string, Plan>

  ghost predicate PlansOk(plans: Plans) {
    forall b | b in plans :: PlanOk(plans[b])
  }

  ghost predicate Planned(im: Image, plans: Plans) {
    && PlansOk(plans) && (forall b | b in plans :: plans[b].code == im.code(b))
    && (forall f | f in im.env.funs :: f in plans && Stands(plans[f], 0, |im.env.funs[f].params|, []))
  }

  ghost predicate FrameOk(plans: Plans, f: Frame, extra: nat) {
    f.blob in plans && Stands(plans[f.blob], f.pc, |f.stack| + extra, f.mons)
  }

  /** A waiting frame lacks the result of its call, and may yet see a fault at the call. */
  ghost predicate WaitsOk(plans: Plans, c: Suspended) {
    FrameOk(plans, c.frame, 1) && Faults(plans[c.frame.blob], c.at, |c.frame.stack|, c.frame.mons)
  }

  ghost predicate CallersOk(plans: Plans, callers: seq<Suspended>) {
    forall i {:trigger callers[i]} | 0 <= i < |callers| :: WaitsOk(plans, callers[i])
  }

  ghost predicate ConfigOk(plans: Plans, c: Config) {
    c.Running? ==> FrameOk(plans, c.top, 0) && CallersOk(plans, c.callers)
  }

  lemma CallersRest(plans: Plans, callers: seq<Suspended>)
    requires callers != [] && CallersOk(plans, callers)
    ensures WaitsOk(plans, callers[0]) && CallersOk(plans, callers[1..])
  {
    hide WaitsOk;
    assert forall i | 0 <= i < |callers| - 1 :: callers[1..][i] == callers[i + 1];
  }

  lemma {:induction false} RaiseOk(plans: Plans, x: Exn, at: nat, blob: string, stack: seq<Value>, sc: Scope,
      mons: seq<Mon>, callers: seq<Suspended>, w: World)
    requires PlansOk(plans) && blob in plans && Faults(plans[blob], at, |stack|, mons) && CallersOk(plans, callers)
    ensures ConfigOk(plans, Raise(x, at, blob, stack, sc, mons, callers, w))
    decreases |callers|
  {
    hide Faults, Stands, DropStale, CallersOk, PlanOk, Resize;
    var n := Handled(plans[blob], at, |stack|, mons);
    if n > 0 {
      HandlerFrame(plans, x, at, blob, stack, sc, mons, callers, w, n);
    } else if callers != [] {
      var c := callers[0];
      CallersRest(plans, callers);
      RaiseOk(plans, x, c.at, c.frame.blob, c.frame.stack, c.frame.sc, c.frame.mons, callers[1..], w);
    }
  }

  lemma HandlerFrame(plans: Plans, x: Exn, at: nat, blob: string, stack: seq<Value>, sc: Scope, mons: seq<Mon>,
                     callers: seq<Suspended>, w: World, n: nat)
    requires blob in plans && CallersOk(plans, callers) && 0 < n <= |mons| && DropStale(mons, at) == mons[..n]
    requires Stands(plans[blob], mons[n - 1].handler, mons[n - 1].depth + 1, mons[..n - 1])
    ensures ConfigOk(plans, Raise(x, at, blob, stack, sc, mons, callers, w))
  {
    hide Stands, DropStale, CallersOk;
    assert mons[..n][..n - 1] == mons[..n - 1] && mons[..n][n - 1] == mons[n - 1];
  }

  lemma LeaveOk(plans: Plans, v: Value, callers: seq<Suspended>, w: World)
    requires CallersOk(plans, callers)
    ensures ConfigOk(plans, Leave(v, callers, w))
  {
    hide Stands, Faults, CallersOk;
    if callers != [] {
      CallersRest(plans, callers);
    }
  }

  /** Any fault of this instruction is delivered to a planned configuration. */
  lemma RaiseAnyOk(plans: Plans, f: Frame, h: nat, callers: seq<Suspended>)
    requires PlansOk(plans) && f.blob in plans && Faults(plans[f.blob], f.pc, h, f.mons) && CallersOk(plans, callers)
    ensures forall x, stack, sc, w {:trigger Raise(x, f.pc, f.blob, stack, sc, f.mons, callers, w)} | |stack| == h ::
              ConfigOk(plans, Raise(x, f.pc, f.blob, stack, sc, f.mons, callers, w))
  {
    hide *;
    forall x, stack, sc, w | |stack| == h
      ensures ConfigOk(plans, Raise(x, f.pc, f.blob, stack, sc, f.mons, callers, w))
    {
      RaiseOk(plans, x, f.pc, f.blob, stack, sc, f.mons, callers, w);
    }
  }

  /** Any way of going on at `next` with `h` operands. */
  lemma NextAnyOk(plans: Plans, f: Frame, next: nat, h: nat, callers: seq<Suspended>)
    requires f.blob in plans && Stands(plans[f.blob], next, h, f.mons) && CallersOk(plans, callers)
    ensures forall stack, w {:trigger Next(f, next, stack, callers, w)} | |stack| == h ::
      ConfigOk(plans, Next(f, next, stack, callers, w))
    ensures forall stack, sc, w {:trigger Running(Frame(f.blob, next, stack, sc, f.mons), callers, w)} | |stack| == h ::
              ConfigOk(plans, Running(Frame(f.blob, next, stack, sc, f.mons), callers, w))
  {
    hide Stands, CallersOk;
  }

  /** One instruction, executed where it is planned. */
  lemma ExecuteOk(im: Image, plans: Plans, f: Frame, callers: seq<Suspended>, w: World)
    requires Planned(im, plans) && FrameOk(plans, f, 0) && CallersOk(plans, callers)
    ensures
      var p := plans[f.blob];
      ConfigOk(plans, Execute(im.env, p.code.size, InstrOf(p, f.pc), p.code.fetch(f.pc).next, f, callers, w))
  {
    hide Stands, Faults, Raise, CallersOk, Planned, PlanOk, InstrOf, ConfigOk, Execute;
    var p := plans[f.blob];
    match InstrOf(p, f.pc) {
      case Jmp(_) => BranchOk(im, plans, f, callers, w);
      case JmpIfFalse(_) => BranchOk(im, plans, f, callers, w);
      case JmpIfTrue(_) => BranchOk(im, plans, f, callers, w);
      case CallN(_) => CallOk(im, plans, f, callers, w);
      case MonitorEnter(_) => RegionOk(im, plans, f, callers, w);
      case MonitorExit => RegionOk(im, plans, f, callers, w);
      case Ret => EndOk(im, plans, f, callers, w);
      case Halt => EndOk(im, plans, f, callers, w);
      case _ => PlainOk(im, plans, f, callers, w);
    }
  }

  lemma PlanIn(im: Image, plans: Plans, b: string)
    requires Planned(im, plans) && b in plans
    ensures PlansOk(plans) && PlanOk(plans[b]) && plans[b].code == im.code(b)
  {
    hide PlanOk, Stands;
  }

  lemma BranchOk(im: Image, plans: Plans, f: Frame, callers: seq<Suspended>, w: World)
    requires Planned(im, plans) && FrameOk(plans, f, 0) && CallersOk(plans, callers)
    ensures
      var p := plans[f.blob];
      var i := InstrOf(p, f.pc);
      i.Jmp? || i.JmpIfFalse? || i.JmpIfTrue? ==> ConfigOk(plans,
        Execute(im.env, p.code.size, i, p.code.fetch(f.pc).next, f, callers, w))
  {
    hide Stands, Raise, CallersOk, Planned, PlanOk, InstrOf, PlansOk;
    PlanIn(im, plans, f.blob);
    Branches(plans[f.blob], f.pc, |f.stack|, f.mons);
  }

  lemma RegionOk(im: Image, plans: Plans, f: Frame, callers: seq<Suspended>, w: World)
    requires Planned(im, plans) && FrameOk(plans, f, 0) && CallersOk(plans, callers)
    ensures
      var p := plans[f.blob];
      var i := InstrOf(p, f.pc);
      i.MonitorEnter? || i.MonitorExit? ==> ConfigOk(plans,
        Execute(im.env, p.code.size, i, p.code.fetch(f.pc).next, f, callers, w))
  {
    hide Stands, Raise, CallersOk, Planned, PlanOk, InstrOf, PlansOk;
    PlanIn(im, plans, f.blob);
    var i := InstrOf(plans[f.blob], f.pc);
    if i.MonitorEnter? {
      Entered(plans[f.blob], f.pc, |f.stack|, f.mons);
    } else if i.MonitorExit? {
      Exited(plans[f.blob], f.pc, |f.stack|, f.mons);
    }
  }

  lemma EndOk(im: Image, plans: Plans, f: Frame, callers: seq<Suspended>, w: World)
    requires Planned(im, plans) && FrameOk(plans, f, 0) && CallersOk(plans, callers)
    ensures
      var p := plans[f.blob];
      var i := InstrOf(p, f.pc);
      i.Ret? || i.Halt? ==> ConfigOk(plans, Execute(im.env, p.code.size, i, p.code.fetch(f.pc).next, f, callers, w))
  {
    hide Stands, Faults, Raise, Leave, CallersOk, Planned, PlanOk, InstrOf, PlansOk, ConfigOk;
    PlanIn(im, plans, f.blob);
    Enough(plans[f.blob], f.pc, |f.stack|, f.mons);
    LeaveOk(plans, NullV, callers, w);
    if |f.stack| >= 1 {
      LeaveOk(plans, f.stack[|f.stack| - 1], callers, w);
    }
  }

  lemma PlainOk(im: Image, plans: Plans, f: Frame, callers: seq<Suspended>, w: World)
    requires Planned(im, plans) && FrameOk(plans, f, 0) && CallersOk(plans, callers)
    ensures
      var p := plans[f.blob];
      var i := InstrOf(p, f.pc);
      !IsJump(i) && !i.CallN? && !i.Ret? && !i.Halt? && !i.MonitorExit? ==>
        ConfigOk(plans, Execute(im.env, p.code.size, i, p.code.fetch(f.pc).next, f, callers, w))
  {
    hide Stands, Faults, Raise, CallersOk, Planned, PlanOk, InstrOf, PlansOk, ConfigOk, LitOutcome, LoadName, StoreName,
      Next;
    PlanIn(im, plans, f.blob);
    var p, n := plans[f.blob], |f.stack|;
    var i := InstrOf(p, f.pc);
    if !IsJump(i) && !i.CallN? && !i.Ret? && !i.Halt? && !i.MonitorExit? {
      Enough(p, f.pc, n, f.mons);
      Plainly(p, f.pc, n, f.mons);
      RaiseAnyOk(plans, f, n - Pops(i), callers);
      NextAnyOk(plans, f, p.code.fetch(f.pc).next, After(i, n), callers);
    }
  }

  /** A call pushes a planned frame, or its result, or raises. */
  lemma CallOk(im: Image, plans: Plans, f: Frame, callers: seq<Suspended>, w: World)
    requires Planned(im, plans) && FrameOk(plans, f, 0) && CallersOk(plans, callers)
      && InstrOf(plans[f.blob], f.pc).CallN?
    ensures
      var p := plans[f.blob];
      ConfigOk(plans, Execute(im.env, p.code.size, InstrOf(p, f.pc), p.code.fetch(f.pc).next, f, callers, w))
  {
    hide Stands, Faults, Raise, CallersOk, Planned, PlanOk, InstrOf, PlansOk, ConfigOk, Callable, Next;
    PlanIn(im, plans, f.blob);
    var p, s, n := plans[f.blob], f.stack, |f.stack|;
    Enough(p, f.pc, n, f.mons);
    var i, next := InstrOf(p, f.pc), p.code.fetch(f.pc).next;
    Plainly(p, f.pc, n, f.mons);
    var callee, args := s[n - i.argc - 1], s[n - i.argc..];
    var rest := f.(pc := next, stack := s[..n - i.argc - 1]);
    RaiseAnyOk(plans, f, n - Pops(i), callers);
    match Callable(im.env, callee, args, |callers|) {
      case Refused(_) =>
      case Enter(fn) => CalledOk(im, plans, callee, args, fn, Suspended(rest, f.pc), callers, w);
      case Outside =>
        var (r, w1) := im.env.native(callee, args, w);
        if r.Ok? {
          ResultOk(plans, rest, r.value, callers, w1);
        }
    }
  }

  lemma ResultOk(plans: Plans, rest: Frame, v: Value, callers: seq<Suspended>, w: World)
    requires FrameOk(plans, rest, 1) && CallersOk(plans, callers)
    ensures ConfigOk(plans, Running(rest.(stack := rest.stack + [v]), callers, w))
  {
    hide Stands, CallersOk;
  }

  lemma CalledOk(im: Image, plans: Plans, callee: Value, args: seq<Value>, fn: Function, rest: Suspended,
      callers: seq<Suspended>, w: World)
    requires Planned(im, plans) && WaitsOk(plans, rest) && CallersOk(plans, callers)
    requires callee.FuncV? && callee.func in im.env.funs && fn == im.env.funs[callee.func] && |args| == |fn.params|
    ensures ConfigOk(plans, Running(Frame(callee.func, 0, args, LocalScope(NullLocals(fn.params)), []),
      [rest] + callers, w))
  {
    hide PlanOk, WaitsOk, Stands, PlansOk;
    var all := [rest] + callers;
    forall i | 0 <= i < |all|
      ensures WaitsOk(plans, all[i])
    {
      if i > 0 {
        assert all[i] == callers[i - 1];
      }
    }
  }

  lemma StepOk(im: Image, plans: Plans, c: Config)
    requires Planned(im, plans) && ConfigOk(plans, c)
    ensures ConfigOk(plans, Step(im, c))
  {
    hide Stands, Faults, CallersOk, Planned, PlanOk, PlansOk, Execute, InstrOf;
    if c.Running? {
      PlanIn(im, plans, c.top.blob);
      Enough(plans[c.top.blob], c.top.pc, |c.top.stack|, c.top.mons);
      ExecuteOk(im, plans, c.top, c.callers, c.w);
    }
  }

  lemma {:induction false} StepsOk(im: Image, plans: Plans, c: Config, n: nat)
    requires Planned(im, plans) && ConfigOk(plans, c)
    ensures ConfigOk(plans, Steps(im, c, n))
    decreases n
  {
    hide Planned, ConfigOk, Step;
    if n > 0 {
      StepOk(im, plans, c);
      StepsOk(im, plans, Step(im, c), n - 1);
    }
  }

  // ---- compiled programs ----

  /** The code of every function, and of the package, is what the compiler lists for it. */
  ghost predicate Listed(im: Image, package: string, top: seq<Stmt>) {
    && WellFormed(im.code(package), TopCode(top)) && WfBlock(top) && package !in im.env.funs
    && forall f | f in im.env.funs ::
      WellFormed(im.code(f), FunctionCode(im.env.funs[f])) && WfBlock(im.env.funs[f].body)
  }

  ghost function TopPlan(c: Code, top: seq<Stmt>): Plan {
    Plan(c, TopMarks(top), Starts(TopCode(top)), BlockTidy(top))
  }

  ghost function FunctionPlan(c: Code, f: Function): Plan {
    Plan(c, FunctionMarks(f), Starts(FunctionCode(f)), BlockTidy(f.body))
  }

  ghost function PlansOf(im: Image, package: string, top: seq<Stmt>): Plans {
    (map f | f in im.env.funs :: FunctionPlan(im.code(f), im.env.funs[f]))[package := TopPlan(im.code(package), top)]
  }

  lemma PlansFit(im: Image, package: string, top: seq<Stmt>)
    requires Listed(im, package, top)
    ensures Planned(im, PlansOf(im, package, top)) && Stands(PlansOf(im, package, top)[package], 0, 0, [])
  {
    hide PlanOk, WellFormed, Stands, FunctionPlan, TopPlan, FunctionCode, TopCode, WfBlock;
    var plans := PlansOf(im, package, top);
    TopFits(im.code(package), top);
    forall f | f in im.env.funs
      ensures f in plans && PlanOk(plans[f]) && plans[f].code == im.code(f)
        && Stands(plans[f], 0, |im.env.funs[f].params|, [])
    {
      FunctionFits(im.code(f), im.env.funs[f]);
    }
  }

  lemma TopFits(c: Code, top: seq<Stmt>)
    requires WellFormed(c, TopCode(top)) && WfBlock(top)
    ensures PlanOk(TopPlan(c, top)) && TopPlan(c, top).code == c && Stands(TopPlan(c, top), 0, 0, [])
  {
    hide PlanOk, WellFormed, TopMarks, Flows, BlockTidy, WfBlock, BlockCode, Within;
    TopFlows(top);
    TopWithin(top);
    PlanOf(c, TopCode(top), TopMarks(top), BlockTidy(top), SizeBlock(top) + 1);
    assert Offset(TopCode(top), 0) == 0;
  }

  lemma FunctionFits(c: Code, f: Function)
    requires WellFormed(c, FunctionCode(f)) && WfBlock(f.body)
    ensures PlanOk(FunctionPlan(c, f)) && FunctionPlan(c, f).code == c && Stands(FunctionPlan(c, f), 0, |f.params|, [])
  {
    hide PlanOk, WellFormed, FunctionMarks, Flows, BlockTidy, WfBlock, BlockCode, PrologueCode, Within;
    FunctionFlows(f);
    FunctionWithin(f);
    PlanOf(c, FunctionCode(f), FunctionMarks(f), BlockTidy(f.body), 9 * |f.params| + SizeBlock(f.body) + 2);
    assert Offset(FunctionCode(f), 0) == 0;
  }

  /** What is true of the next instruction of a frame, always: its operands are there; where
      depths are exact the stack is as deep as the offset says; and should it fault, the
      search finds exactly the handler of the innermost protected block around it, skips
      only handlers of blocks it is not in, and cuts the stack back without padding it. */
  ghost predicate Sane(p: Plan, f: Frame) {
    var i, rs, live := InstrOf(p, f.pc), p.marks(f.pc).inside, DropStale(f.mons, f.pc);
    && p.code.fetch(f.pc).Instruction? && Pops(i) <= |f.stack| && (p.exact ==> |f.stack| == p.marks(f.pc).depth)
    && (!i.Jmp? ==>
          && (live == [] <==> rs == []) && Foreign(f.mons[|live|..], rs)
          && (rs != [] ==> RegionAt(live[|live| - 1]) == rs[|rs| - 1] && live[|live| - 1].depth <= |f.stack| - Pops(i)))
  }

  lemma StandsSane(p: Plan, f: Frame)
    requires PlanOk(p) && Stands(p, f.pc, |f.stack|, f.mons)
    ensures Sane(p, f)
  {
    hide Stands, PlanOk, Owns, MonsOk, Foreign, Within, DropStale, Leaves, Nested, Above, InstrOf;
    var h := |f.stack|;
    Enough(p, f.pc, h, f.mons);
    StandsAt(p, f.pc, h, f.mons);
    PlannedAt(p, f.pc);
    if !InstrOf(p, f.pc).Jmp? {
      var n := Dispatched(p, f.pc, f.mons, h - Pops(InstrOf(p, f.pc)) - Base(p, f.pc));
      var k := Handled(p, f.pc, h - Pops(InstrOf(p, f.pc)), f.mons);
      SameLength(f.mons, n, k);
    }
  }

  lemma SameLength<T>(s: seq<T>, n: nat, k: nat)
    requires n <= |s| && k <= |s| && s[..n] == s[..k]
    ensures n == k && (n > 0 ==> s[..n][n - 1] == s[n - 1])
  {
    assert |s[..n]| == n && |s[..k]| == k;
  }

  /** However long a compiled program runs, its next instruction is sane. */
  lemma AlwaysSane(im: Image, package: string, top: seq<Stmt>, w: World, n: nat)
    requires Listed(im, package, top)
    ensures
      var c := Steps(im, Running(Frame(package, 0, [], GlobalScope, []), [], w), n);
      c.Running? ==> c.top.blob in PlansOf(im, package, top) && Sane(PlansOf(im, package, top)[c.top.blob], c.top)
  {
    hide Listed, PlansOf, Planned, Stands, PlanOk, Sane, Step;
    var plans := PlansOf(im, package, top);
    PlansFit(im, package, top);
    PackagePlan(im, package, top);
    var start := Running(Frame(package, 0, [], GlobalScope, []), [], w);
    StepsOk(im, plans, start, n);
    var c := Steps(im, start, n);
    if c.Running? {
      PlanIn(im, plans, c.top.blob);
      StandsSane(plans[c.top.blob], c.top);
    }
  }

  lemma PackagePlan(im: Image, package: string, top: seq<Stmt>)
    ensures package in PlansOf(im, package, top)
  {
  }
}
