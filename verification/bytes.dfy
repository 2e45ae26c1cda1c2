/** Bytes, little-endian words and the byte strings behind text. */
module Bytes {

  type Byte = b: int | 0 <= b < 256

  const U32: nat := 0x1_0000_0000
  const U64: nat := 0x1_0000_0000_0000_0000

  function Pow256(k: nat): (r: nat)
    ensures r > 0
  {
    if k == 0 then 1 else 256 * Pow256(k - 1)
  }

  /** The low `k` bytes of `n`, least significant first. */
  function LE(n: nat, k: nat): (r: seq<Byte>)
    ensures |r| == k
    decreases k
  {
    if k == 0 then [] else [n % 256] + LE(n / 256, k - 1)
  }

  function FromLE(s: seq<Byte>): nat {
    if s == [] then 0 else s[0] + 256 * FromLE(s[1..])
  }

  lemma {:induction false} LERoundTrip(n: nat, k: nat)
    requires n < Pow256(k)
    ensures FromLE(LE(n, k)) == n
    decreases k
  {
    if k > 0 {
      assert n / 256 < Pow256(k - 1);
      LERoundTrip(n / 256, k - 1);
      assert LE(n, k)[1..] == LE(n / 256, k - 1);
    }
  }

  lemma {:induction false} FromLEBound(s: seq<Byte>)
    ensures FromLE(s) < Pow256(|s|)
  {
    if s != [] {
      FromLEBound(s[1..]);
    }
  }

  lemma {:induction false} FromLERoundTrip(s: seq<Byte>)
    ensures LE(FromLE(s), |s|) == s
  {
    if s != [] {
      FromLERoundTrip(s[1..]);
      var n := FromLE(s);
      assert n % 256 == s[0] && n / 256 == FromLE(s[1..]);
      assert s == [s[0]] + s[1..];
    }
  }

  lemma Word32(n: nat)
    requires n < U32
    ensures FromLE(LE(n, 4)) == n
  {
    assert Pow256(2) == 0x1_0000;
    assert Pow256(3) == 0x100_0000;
    assert Pow256(4) == U32;
    LERoundTrip(n, 4);
  }

  lemma Word64(n: nat)
    requires n < U64
    ensures FromLE(LE(n, 8)) == n
  {
    Pow256Of8();
    LERoundTrip(n, 8);
  }

  lemma Pow256Of8()
    ensures Pow256(8) == U64
  {
    assert Pow256(2) == 0x1_0000;
    assert Pow256(4) == 256 * (256 * Pow256(2));
    assert Pow256(6) == 256 * (256 * Pow256(4));
    assert Pow256(8) == 256 * (256 * Pow256(6));
  }

  // ---- signed 64-bit integers ----

  predicate IsI64(i: int) {
    -0x8000_0000_0000_0000 <= i < 0x8000_0000_0000_0000
  }

  function ToTwos(i: int): (r: nat)
    requires IsI64(i)
    ensures r < U64
  {
    if i < 0 then i + U64 else i
  }

  function FromTwos(n: nat): (r: int)
    requires n < U64
    ensures IsI64(r)
  {
    if n < 0x8000_0000_0000_0000 then n else n - U64
  }

  // ---- text ----

  /** Text whose characters are bytes, as all strings of the system are. */
  predicate IsText(s: string) {
    forall i | 0 <= i < |s| :: s[i] as int < 256
  }

  /** Text a (offset, length) reference can name. */
  predicate TextFits(s: string) {
    IsText(s) && |s| < U32
  }

  function ToBytes(s: string): (r: seq<Byte>)
    ensures |r| == |s|
  {
    seq(|s|, i requires 0 <= i < |s| => (s[i] as int % 256) as Byte)
  }

  function ToText(b: seq<Byte>): (r: string)
    ensures |r| == |b| && IsText(r)
  {
    seq(|b|, i requires 0 <= i < |b| => b[i] as char)
  }

  lemma TextRoundTrip(s: string)
    requires IsText(s)
    ensures ToText(ToBytes(s)) == s
  {
  }

  // ---- parts of a blob ----

  /** The bytes `part` stand at offset `p` of `code`. */
  predicate Carries(code: seq<Byte>, p: nat, part: seq<Byte>)
    decreases |part|
  {
    p <= |code| && (part == [] || (p < |code| && code[p] == part[0] && Carries(code, p + 1, part[1..])))
  }

  lemma {:induction false} CarriesSlice(code: seq<Byte>, p: nat, part: seq<Byte>)
    ensures Carries(code, p, part) <==> p + |part| <= |code| && code[p..p + |part|] == part
    decreases |part|
  {
    if part == [] {
      assert p <= |code| ==> code[p..p] == [];
    } else {
      if p < |code| {
        CarriesSlice(code, p + 1, part[1..]);
        if p + |part| <= |code| {
          assert code[p..p + |part|] == [code[p]] + code[p + 1..p + |part|];
          assert part == [part[0]] + part[1..];
        }
      }
    }
  }

  lemma {:induction false} CarriesParts(code: seq<Byte>, p: nat, a: seq<Byte>, b: seq<Byte>)
    ensures Carries(code, p, a + b) <==> Carries(code, p, a) && Carries(code, p + |a|, b)
    decreases |a|
  {
    if a == [] {
      assert a + b == b;
    } else {
      assert (a + b)[1..] == a[1..] + b;
      CarriesParts(code, p + 1, a[1..], b);
    }
  }

  /** A part keeps its place when the blob changes elsewhere. */
  lemma {:induction false} CarriesStill(code: seq<Byte>, code1: seq<Byte>, p: nat, part: seq<Byte>)
    requires Carries(code, p, part) && |code| <= |code1|
    requires forall k | p <= k < p + |part| && k < |code| :: code1[k] == code[k]
    ensures Carries(code1, p, part)
    decreases |part|
  {
    if part != [] {
      CarriesStill(code, code1, p + 1, part[1..]);
    }
  }

  lemma {:induction false} CarriesAppended(code: seq<Byte>, part: seq<Byte>)
    ensures Carries(code + part, |code|, part)
  {
    CarriesSlice(code + part, |code|, part);
  }

  lemma CarriesTagged(code: seq<Byte>, p: nat, tag: Byte, a: seq<Byte>)
    requires Carries(code, p, [tag] + a)
    ensures p < |code| && code[p] == tag && Carries(code, p + 1, a)
  {
    CarriesParts(code, p, [tag], a);
  }

  lemma CarriesTagged2(code: seq<Byte>, p: nat, tag: Byte, a: seq<Byte>, b: seq<Byte>)
    requires Carries(code, p, [tag] + a + b)
    ensures p < |code| && code[p] == tag && Carries(code, p + 1, a) && Carries(code, p + 1 + |a|, b)
  {
    CarriesParts(code, p, [tag] + a, b);
    CarriesParts(code, p, [tag], a);
  }

  lemma CarriesTagged3(code: seq<Byte>, p: nat, tag: Byte, a: seq<Byte>, b: seq<Byte>, c: seq<Byte>)
    requires Carries(code, p, [tag] + a + b + c)
    ensures p < |code| && code[p] == tag && Carries(code, p + 1, a)
    ensures Carries(code, p + 1 + |a|, b) && Carries(code, p + 1 + |a| + |b|, c)
  {
    CarriesParts(code, p, [tag] + a + b, c);
    CarriesTagged2(code, p, tag, a, b);
  }
}
