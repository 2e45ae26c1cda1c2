/** Numbers and names in byte strings, told without recursion: the least significant byte comes first. */
module Words {
  import opened Bytes
  import opened Encoding

  function Octet(s: seq<Byte>, at: nat): nat
    requires at < |s|
  {
    s[at]
  }

  function U32At(s: seq<Byte>, at: nat): nat
    requires at + 4 <= |s|
  {
    Octet(s, at) + 0x100 * Octet(s, at + 1) + 0x1_0000 * Octet(s, at + 2) + 0x100_0000 * Octet(s, at + 3)
  }

  function U64At(s: seq<Byte>, at: nat): nat
    requires at + 8 <= |s|
  {
    U32At(s, at) + 0x1_0000_0000 * U32At(s, at + 4)
  }

  lemma FromLE4(b: seq<Byte>)
    requires |b| == 4
    ensures FromLE(b) == U32At(b, 0)
  {
    assert b[1..][0] == b[1] && b[1..][1..] == b[2..] && b[2..][1..] == b[3..] && b[3..][1..] == [];
    assert FromLE(b[3..]) == b[3] by { assert FromLE(b[3..][1..]) == 0; }
    assert FromLE(b[2..]) == b[2] + 0x100 * FromLE(b[3..]);
    assert FromLE(b[1..]) == b[1] + 0x100 * FromLE(b[2..]);
  }

  lemma FromLE8(b: seq<Byte>)
    requires |b| == 8
    ensures FromLE(b) == U64At(b, 0)
  {
    assert b[1..][1..] == b[2..] && b[2..][1..] == b[3..] && b[3..][1..] == b[4..];
    FromLE4(b[4..]);
    assert FromLE(b[3..]) == b[3] + 0x100 * FromLE(b[4..]);
    assert FromLE(b[2..]) == b[2] + 0x100 * FromLE(b[3..]);
    assert FromLE(b[1..]) == b[1] + 0x100 * FromLE(b[2..]);
  }

  lemma Read64(s: seq<Byte>, at: nat)
    ensures ReadLE(s, at, 8) == if at + 8 <= |s| then Got(U64At(s, at), at + 8) else Truncated
  {
    if at + 8 <= |s| {
      var b := s[at..at + 8];
      FromLE8(b);
      assert forall k | 0 <= k < 8 :: b[k] == s[at + k];
    }
  }

  lemma Read32(s: seq<Byte>, at: nat)
    ensures ReadLE(s, at, 4) == if at + 4 <= |s| then Got(U32At(s, at), at + 4) else Truncated
    ensures at + 4 <= |s| ==> FromLE(s[at..at + 4]) == U32At(s, at)
  {
    if at + 4 <= |s| {
      FromLE4(s[at..at + 4]);
    }
  }

  /** The text is the stretch of `strs` with this beginning and length. */
  predicate NameIs(strs: seq<Byte>, at: nat, n: nat, name: string) {
    at + n <= |strs| && |name| == n && forall i | 0 <= i < n :: name[i] as int == Octet(strs, at + i)
  }

  lemma TextIs(strs: seq<Byte>, at: nat, n: nat)
    requires at + n <= |strs|
    ensures NameIs(strs, at, n, ToText(strs[at..at + n]))
  {
    var b := strs[at..at + n];
    forall i | 0 <= i < n
      ensures ToText(b)[i] as int == Octet(strs, at + i)
    {
      assert b[i] == strs[at + i];
    }
  }
}
