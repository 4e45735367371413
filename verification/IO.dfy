/** The few io operations the source uses, over a byte stream that ends. */
module IO {
  import opened Words

  datatype Err = Ok | EOF | UnexpectedEOF | Fault

  /** copy(buf[lo..], src), for a `src` that fits; what lies beyond is of no interest here. */
  method CopyInto(buf: array<byte>, lo: nat, src: seq<byte>)
    requires lo + |src| <= buf.Length
    modifies buf
    ensures buf[..lo + |src|] == old(buf[..lo]) + src
  {
    forall k | 0 <= k < |src| {
      buf[lo + k] := src[k];
    }
    assert buf[..lo] == old(buf[..lo]);
    assert buf[lo..lo + |src|] == src;
  }

  /** "Lies": an end of file where the sizes promised more. */
  function NotEOF(err: Err): Err {
    if err == EOF then UnexpectedEOF else err
  }

  /** What io.ReadFull reports after `n` of `want` bytes. */
  function Outcome(n: nat, want: nat): Err {
    if n == want then Ok else if n == 0 then EOF else UnexpectedEOF
  }

  class Reader {
    var rest: seq<byte>

    constructor (content: seq<byte>)
      ensures rest == content
    {
      rest := content;
    }

    /** io.ReadFull into buf[lo..hi]. */
    method ReadFull(buf: array<byte>, lo: nat, hi: nat) returns (n: nat, err: Err)
      requires lo <= hi <= buf.Length
      modifies this, buf
      ensures n == Min(hi - lo, |old(rest)|)
      ensures rest == old(rest)[n..]
      ensures buf[..lo + n] == old(buf[..lo]) + old(rest)[..n]
      ensures err == Outcome(n, hi - lo)
    {
      n := Min(hi - lo, |rest|);
      err := Outcome(n, hi - lo);
      var taken := rest[..n];
      rest := rest[n..];
      CopyInto(buf, lo, taken);
    }

    /** io.CopyN into a sink that swallows everything. */
    method Discard(l: nat) returns (err: Err)
      modifies this
      ensures rest == old(rest)[Min(l, |old(rest)|)..]
      ensures err == Ok <==> l <= |old(rest)|
    {
      if l <= |rest| {
        err := Ok;
      } else {
        err := EOF;
      }
      rest := rest[Min(l, |rest|)..];
    }
  }
}
