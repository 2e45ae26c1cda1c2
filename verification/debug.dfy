/** Source positions of code: recorded while code is emitted, looked up when a fault is
    reported. */
module DebugMaps {
  import opened Syntax

  datatype Loc = Loc(pc: nat, line: nat, column: nat, file: string)

  /** Anchors stand in the order of the code they belong to. */
  predicate Sorted(anchors: seq<Loc>) {
    forall i, j | 0 <= i < j < |anchors| :: anchors[i].pc <= anchors[j].pc
  }

  /** None of them belongs to code behind `here`. */
  predicate UpTo(anchors: seq<Loc>, here: nat) {
    Sorted(anchors) && (anchors != [] ==> anchors[|anchors| - 1].pc <= here)
  }

  /** A place in a file; line 0 stands for an unknown one. */
  datatype Position = Position(line: nat, column: nat, file: string)

  function LocAt(pc: nat, p: Position): Loc {
    Loc(pc, p.line, p.column, p.file)
  }

  /** The anchors once the code at `pc` has been anchored: nothing is added if the position
      is unknown, or the same one has just been recorded. */
  function Anchor(anchors: seq<Loc>, pc: nat, p: Position): seq<Loc> {
    if p.line == 0 || (anchors != [] && anchors[|anchors| - 1] == LocAt(pc, p)) then anchors
      else anchors + [LocAt(pc, p)]
  }

  /** So a known position is that of the code behind, recorded once, and an unknown one of none. */
  lemma AnchorsOnce(anchors: seq<Loc>, pc: nat, p: Position)
    ensures
      var after, loc := Anchor(anchors, pc, p), Loc(pc, p.line, p.column, p.file);
      && (p.line > 0 ==> after != [] && after[|after| - 1] == loc)
      && (p.line == 0 || (anchors != [] && anchors[|anchors| - 1] == loc) <==> after == anchors)
      && (after != anchors ==> after == anchors + [loc])
  {
    var after := Anchor(anchors, pc, p);
    assert after != anchors ==> |after| == |anchors| + 1;
  }

  /** The last anchor at or before `pc`. */
  function LastUpTo(anchors: seq<Loc>, pc: nat): Option<Loc> {
    if anchors == [] then None
    else if anchors[|anchors| - 1].pc <= pc then Some(anchors[|anchors| - 1])
    else LastUpTo(anchors[..|anchors| - 1], pc)
  }

  /** Only the anchors below a split matter if those above it are beyond `pc`. */
  lemma {:induction false} LastBelow(anchors: seq<Loc>, pc: nat, split: nat)
    requires split <= |anchors| && (forall i | split <= i < |anchors| :: anchors[i].pc > pc)
    requires split > 0 ==> anchors[split - 1].pc <= pc
    ensures LastUpTo(anchors, pc) == if split == 0 then None else Some(anchors[split - 1])
    decreases |anchors|
  {
    if |anchors| > split {
      LastBelow(anchors[..|anchors| - 1], pc, split);
    }
  }

  /** Anchor `k` is at or before `pc`, and all behind it are beyond. */
  predicate Governs(anchors: seq<Loc>, k: nat, pc: nat) {
    k < |anchors| && anchors[k].pc <= pc && forall i | k < i < |anchors| :: anchors[i].pc > pc
  }

  /** The position of the code at `pc`, by bisection. */
  method ResolveDebugLoc(anchors: seq<Loc>, pc: nat) returns (r: Option<Loc>)
    requires Sorted(anchors)
    ensures r.Some? ==> exists k: nat :: Governs(anchors, k, pc) && r.value == anchors[k]
    ensures r.None? <==> forall i | 0 <= i < |anchors| :: anchors[i].pc > pc
    ensures r == LastUpTo(anchors, pc)
  {
    var low, high := 0, |anchors|;
    while low < high
      invariant 0 <= low <= high <= |anchors|
      invariant forall i | 0 <= i < low :: anchors[i].pc <= pc
      invariant forall i | high <= i < |anchors| :: anchors[i].pc > pc
    {
      var mid := low + (high - low) / 2;
      if anchors[mid].pc <= pc {
        low := mid + 1;
      } else {
        high := mid;
      }
    }
    LastBelow(anchors, pc, low);
    assert low > 0 ==> Governs(anchors, low - 1, pc);
    r := if low == 0 then None else Some(anchors[low - 1]);
  }

  /** More anchors have been recorded, for code from `here` on. */
  predicate Recorded(anchors: seq<Loc>, here: nat, more: seq<Loc>) {
    anchors <= more && forall i | |anchors| <= i < |more| :: here <= more[i].pc
  }

  /** The first anchor is that of the code at `pc`. */
  predicate StartsWith(anchors: seq<Loc>, pc: nat, p: Position) {
    anchors != [] && anchors[0] == LocAt(pc, p)
  }

  /** So everything behind it has a position. */
  lemma {:induction false} AlwaysFound(anchors: seq<Loc>, start: nat, p: Position, pc: nat)
    requires Sorted(anchors) && StartsWith(anchors, start, p) && start <= pc
    ensures LastUpTo(anchors, pc).Some?
    decreases |anchors|
  {
    if anchors[|anchors| - 1].pc > pc {
      AlwaysFound(anchors[..|anchors| - 1], start, p, pc);
    }
  }

  lemma RecordedTwice(a: seq<Loc>, here: nat, b: seq<Loc>, there: nat, c: seq<Loc>)
    requires Recorded(a, here, b) && Recorded(b, there, c) && here <= there
    ensures Recorded(a, here, c)
  {
  }

  /** A statement is anchored at `from` when its code begins, and ends at `to`. However the
      map goes on, the code between answers with the statement's own position or with one
      recorded within it. */
  lemma StatementAnswers(before: seq<Loc>, from: nat, p: Position, within: seq<Loc>, to: nat, all: seq<Loc>, pc: nat)
    requires p.line > 0 && UpTo(before, from) && Recorded(Anchor(before, from, p), from, within)
      && Recorded(within, to, all)
    requires Sorted(all) && from <= pc < to
    ensures exists i ::
      |Anchor(before, from, p)| - 1 <= i < |within| && LastUpTo(all, pc) == Some(all[i]) && all[i] == within[i]
    ensures within[|Anchor(before, from, p)| - 1] == LocAt(from, p)
  {
    var own := |Anchor(before, from, p)| - 1;
    var split := LastIndex(all, pc, own, |within|);
    LastBelow(all, pc, split + 1);
    assert all[split] == within[split];
  }

  /** The last anchor at or before `pc`, between one that is and a first one that is not. */
  lemma LastIndex(all: seq<Loc>, pc: nat, low: nat, high: nat) returns (i: nat)
    requires Sorted(all) && low < high <= |all| && all[low].pc <= pc && forall k | high <= k < |all| :: all[k].pc > pc
    ensures low <= i < high && all[i].pc <= pc && forall k | i < k < |all| :: all[k].pc > pc
    decreases high - low
  {
    if high == low + 1 || all[high - 1].pc <= pc {
      i := high - 1;
    } else {
      i := LastIndex(all, pc, low, high - 1);
    }
  }

  /** An anchor recorded for the code at `pc` answers for that code and all code behind it
      up to the next anchor. */
  lemma AnchorAnswers(anchors: seq<Loc>, i: nat, pc: nat)
    requires Sorted(anchors) && i < |anchors| && anchors[i].pc <= pc
    requires i + 1 < |anchors| ==> pc < anchors[i + 1].pc
    ensures LastUpTo(anchors, pc) == Some(anchors[i])
  {
    LastBelow(anchors, pc, i + 1);
  }
}
