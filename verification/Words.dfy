/** Machine words, byte strings and the option type the other modules share. */
module Words {

  const U32_MOD: int := 0x1_0000_0000
  const U64_MOD: int := 0x1_0000_0000_0000_0000
  const I64_MAX: int := 0x7FFF_FFFF_FFFF_FFFF

  type byte = x: int | 0 <= x < 0x100
  type u32 = x: int | 0 <= x < 0x1_0000_0000
  type u64 = x: int | 0 <= x < 0x1_0000_0000_0000_0000

  /** A SHA-1 digest: what matters here is that it has 20 bytes. */
  type Digest = d: seq<byte> | |d| == 20 witness seq(20, _ => 0)

  datatype Option<+T> = None | Some(value: T)

  function Min(a: int, b: int): int {
    if a <= b then a else b
  }

  /** A 64-bit number read as a signed one. */
  function AsI64(x: u64): int {
    if x <= I64_MAX then x else x - U64_MOD
  }

  function Max(a: int, b: int): int {
    if a <= b then b else a
  }

  /** Equality, not to be taken apart. */
  predicate Is<T(==)>(a: T, b: T) {
    a == b
  }

  lemma Whole<T>(s: seq<T>)
    ensures s[..|s|] == s
  {
  }

  /** `data` written over `s` from position `off`. */
  function Splice<T>(s: seq<T>, off: nat, data: seq<T>): (r: seq<T>)
    requires off + |data| <= |s|
    ensures |r| == |s|
  {
    s[..off] + data + s[off + |data|..]
  }

  /** Byte strings laid end to end. */
  function Join(parts: seq<seq<byte>>): seq<byte> {
    if parts == [] then [] else Join(parts[..|parts| - 1]) + parts[|parts| - 1]
  }

  lemma JoinStep(parts: seq<seq<byte>>, k: nat)
    requires k < |parts|
    ensures Join(parts[..k + 1]) == Join(parts[..k]) + parts[k]
  {
    assert parts[..k + 1][..k] == parts[..k];
  }

  lemma {:induction false} JoinAppend(a: seq<seq<byte>>, b: seq<seq<byte>>)
    ensures Join(a + b) == Join(a) + Join(b)
  {
    if b == [] {
      assert a + b == a;
    } else {
      JoinAppend(a, b[..|b| - 1]);
      assert (a + b)[..|a + b| - 1] == a + b[..|b| - 1];
    }
  }

  /** Part `k` has its own stretch of the whole. */
  lemma JoinSplit(parts: seq<seq<byte>>, k: nat)
    requires k < |parts|
    ensures Join(parts) == Join(parts[..k]) + parts[k] + Join(parts[k + 1..])
  {
    assert parts == parts[..k + 1] + parts[k + 1..];
    JoinAppend(parts[..k + 1], parts[k + 1..]);
    JoinStep(parts, k);
  }

  lemma SpliceMiddle<T>(a: seq<T>, b: seq<T>, c: seq<T>, off: nat, data: seq<T>)
    requires off + |data| <= |b|
    ensures Splice(a + b + c, |a| + off, data) == a + Splice(b, off, data) + c
  {
  }

  /** Writing inside one part writes inside the whole, and nowhere else. */
  lemma JoinAfterWrite(parts: seq<seq<byte>>, k: nat, off: nat, data: seq<byte>)
    requires k < |parts| && off + |data| <= |parts[k]|
    ensures |Join(parts[..k])| + off + |data| <= |Join(parts)|
    ensures Join(parts[k := Splice(parts[k], off, data)]) == Splice(Join(parts), |Join(parts[..k])| + off, data)
  {
    var parts' := parts[k := Splice(parts[k], off, data)];
    JoinSplit(parts, k);
    JoinSplit(parts', k);
    assert parts'[..k] == parts[..k] && parts'[k + 1..] == parts[k + 1..];
    SpliceMiddle(Join(parts[..k]), parts[k], Join(parts[k + 1..]), off, data);
  }

  // ----- division -----

  lemma MulApart(a: int, p: int)
    requires 1 <= p
    ensures a >= 1 ==> a * p >= p
    ensures a <= -1 ==> a * p <= -p
  {
    if a >= 1 {
      assert (a - 1) * p >= 0;
    } else if a <= -1 {
      assert (-a - 1) * p >= 0;
    }
  }

  lemma MulMinus(a: int, b: int, p: int)
    ensures (a - b) * p == a * p - b * p
  {
  }

  /** Quotient and remainder are unique. */
  lemma DivModUnique(n: int, p: int, q: int, r: int)
    requires 1 <= p && n == q * p + r && 0 <= r < p
    ensures n / p == q && n % p == r
  {
    MulMinus(q, n / p, p);
    MulApart(q - n / p, p);
  }

  lemma DivMod(n: int, p: int)
    requires 1 <= p
    ensures n == n / p * p + n % p && 0 <= n % p < p
  {
  }

  /** Counting on by one. */
  lemma ModNext(m: nat, n: nat, r: nat)
    requires 1 <= n && r == m % n
    ensures (m + 1) % n == if r + 1 == n then 0 else r + 1
  {
    var q := m / n;
    DivMod(m, n);
    if r + 1 == n {
      MulMinus(q + 1, 1, n);
      DivModUnique(m + 1, n, q + 1, 0);
    } else {
      DivModUnique(m + 1, n, q, r + 1);
    }
  }
}
