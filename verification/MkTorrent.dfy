/** lib/mktorrent/mktorrent.go: making the metainfo of one file, and checking the file against it. */
module MkTorrent {
  import opened Words
  import opened IO
  import opened MetaInfo
  import opened Bitfields
  import opened Storage

  /** The digests of a file cut into pieces. */
  function Digests(content: seq<byte>, pieceLength: u32, sha1: seq<byte> -> Digest): seq<byte>
    requires pieceLength >= 1
  {
    if content == [] then []
    else if |content| <= pieceLength then sha1(content)
    else sha1(content[..pieceLength]) + Digests(content[pieceLength..], pieceLength, sha1)
  }

  /** The last piece is a short one. */
  predicate EndsShort(length: nat, pieceLength: u32)
    requires pieceLength >= 1
  {
    if length < pieceLength then length > 0 else EndsShort(length - pieceLength, pieceLength)
  }

  lemma {:induction false} EndsShortIsRemainder(length: nat, pieceLength: u32)
    requires pieceLength >= 1
    ensures EndsShort(length, pieceLength) <==> length % pieceLength != 0
    decreases length
  {
    if length < pieceLength {
      DivModUnique(length, pieceLength, 0, length);
    } else {
      EndsShortIsRemainder(length - pieceLength, pieceLength);
      RemainderStep(length, pieceLength);
    }
  }

  lemma RemainderStep(n: nat, p: nat)
    requires 1 <= p <= n
    ensures (n - p) % p == n % p
  {
    DivMod(n, p);
    MulMinus(n / p, 1, p);
    DivModUnique(n - p, p, n / p - 1, n % p);
  }

  /**
   * mkTorrentSingle. The read that follows a last full piece reports EOF, which is returned as an error: a torrent
   * is made exactly when the file does not end on a piece boundary (the empty file does).
   */
  method MkTorrentSingle(content: seq<byte>, path: string, pieceLength: u32, sha1: seq<byte> -> Digest)
    returns (res: Option<Info>)
    requires pieceLength >= 1 && |content| < U64_MOD
    ensures res.Some? <==> |content| % pieceLength != 0
    ensures res.Some? ==> res.value == Info(pieceLength, Digests(content, pieceLength, sha1), path, [], |content|)
  {
    EndsShortIsRemainder(|content|, pieceLength);
    var r := new Reader(content);
    var buff := new byte[pieceLength];
    var pieces: seq<byte>, length: u64 := [], 0;
    while true
      invariant length + |r.rest| == |content|
      invariant EndsShort(|r.rest|, pieceLength) == EndsShort(|content|, pieceLength)
      invariant EndsShort(|content|, pieceLength) ==>
                  pieces + Digests(r.rest, pieceLength, sha1) == Digests(content, pieceLength, sha1)
      decreases |r.rest|
    {
      ghost var s := r.rest;
      var n, err := r.ReadFull(buff, 0, pieceLength);
      assert buff[0..n] == buff[..n] == s[..n];
      if err == UnexpectedEOF {
        assert s[..n] == s;
        pieces := pieces + sha1(buff[0..n]);
        length := length + n;
        return Some(Info(pieceLength, pieces, path, [], length));
      } else if err == Ok {
        assert buff[..] == buff[..n];
        pieces := pieces + sha1(buff[..]);
        length := length + n;
      } else {
        return None;
      }
    }
  }

  // ----- a torrent made here verifies -----

  /** There are as many digests as it takes to cover the file. */
  lemma {:induction false} DigestsCover(info: Info, content: seq<byte>, sha1: seq<byte> -> Digest) returns (n: nat)
    requires info.pieceLength >= 1 && content != []
    ensures n >= 1 && |Digests(content, info.pieceLength, sha1)| == 20 * n
    ensures info.Start(n - 1) < |content| <= info.Start(n)
    decreases |content|
  {
    if |content| <= info.pieceLength {
      n := 1;
      assert info.Start(1) == info.Start(0) + info.pieceLength;
    } else {
      n := DigestsCover(info, content[info.pieceLength..], sha1);
      n := n + 1;
    }
  }

  /** Digest `i` is the one of the bytes of piece `i`. */
  lemma {:induction false} DigestAt(info: Info, content: seq<byte>, sha1: seq<byte> -> Digest, i: nat)
    requires info.pieceLength >= 1 && info.Start(i) < |content|
    ensures var d := Digests(content, info.pieceLength, sha1);
            20 * i + 20 <= |d|
            && d[20 * i..20 * i + 20] == sha1(content[info.Start(i)..Min(info.Start(i) + info.pieceLength, |content|)])
    decreases |content|
  {
    var p: nat := info.pieceLength;
    if |content| <= p {
      assert content[0..|content|] == content;
    } else if i == 0 {
      assert content[0..p] == content[..p];
    } else {
      var rest := content[p..];
      DigestAt(info, rest, sha1, i - 1);
      var d, d' := Digests(content, p, sha1), Digests(rest, p, sha1);
      assert d[20 * i..20 * i + 20] == d'[20 * (i - 1)..20 * (i - 1) + 20];
      var e := Min(info.Start(i) + p, |content|);
      assert rest[info.Start(i - 1)..e - p] == content[info.Start(i)..e];
    }
  }

  /** The metainfo made for a file is well-formed, and every piece of that file is good. */
  lemma MadeTorrentIsGood(content: seq<byte>, path: string, pieceLength: u32, sha1: seq<byte> -> Digest)
    requires pieceLength >= 1 && content != [] && |content| <= I64_MAX
    requires |Digests(content, pieceLength, sha1)| < U32_MOD
    ensures var info := Info(pieceLength, Digests(content, pieceLength, sha1), path, [], |content|);
            && info.WellFormed() && info.Total() == |content|
            && forall i: nat :: i < info.Count() ==> Good(info, sha1, content, i)
  {
    var info := Info(pieceLength, Digests(content, pieceLength, sha1), path, [], |content|);
    assert SumLengths([FileInfo(|content|, [path])]) == |content|;
    var n := DigestsCover(info, content, sha1);
    assert info.Count() == n;
    forall i: nat | i < n
      ensures Good(info, sha1, content, i)
    {
      MadePieceIsGood(info, content, sha1, i);
    }
  }

  lemma MadePieceIsGood(info: Info, content: seq<byte>, sha1: seq<byte> -> Digest, i: nat)
    requires info.WellFormed() && info.Total() == |content| && i < info.Count()
    requires info.pieces == Digests(content, info.pieceLength, sha1)
    ensures Good(info, sha1, content, i)
  {
    PieceInside(info, i);
    StartMonotonic(info, i, info.Count() - 1);
    if i < info.Count() - 1 {
      StartMonotonic(info, i + 1, info.Count() - 1);
    }
    DigestAt(info, content, sha1, i);
  }

  /** When everything is good and readable, the bits are all set. */
  lemma AllGoodIsComplete(info: Info, sha1: seq<byte> -> Digest, flat: seq<byte>, owned: set<nat>, verdicts: seq<Verdict>)
    requires info.WellFormed() && |flat| == info.Total() && |verdicts| == info.Count()
    requires AllTrue(info, sha1, flat, verdicts) && Unread !in verdicts
    requires forall i: nat :: i < info.Count() ==> Good(info, sha1, flat, i)
    requires owned <= Below(info.Count())
    ensures RatedAll(owned, verdicts) == Below(info.Count())
  {
    forall i: nat
      ensures i in RatedAll(owned, verdicts) <==> i < info.Count()
    {
      RatedAllHas(owned, verdicts, i);
      if i < info.Count() {
        assert True(info, sha1, flat, i, verdicts[i]);
        assert verdicts[i] in verdicts;
      }
    }
  }

  /** VerifyAll over contents that are good throughout, from an empty bitfield. */
  method Complete(st: FsTorrent, content: seq<byte>) returns (complete: bool)
    requires st.Valid() && st.reliable && st.bf.Value().members == {} && st.Contents() == content
    requires forall i: nat :: i < st.info.Count() ==> Good(st.info, st.sha1, content, i)
    modifies st, st.bf
    ensures complete && st.seeding
  {
    ghost var verdicts := st.VerifyAll();
    AllGoodIsComplete(st.info, st.sha1, content, {}, verdicts);
    complete := st.bf.Completed();
  }

  lemma OneFile(info: Info, content: seq<byte>)
    requires info.length == |content| && content != []
    ensures OnDisk(info.GetFiles(), map[[info.path] := content]) && DistinctPaths(info.GetFiles())
    ensures Flat(info.GetFiles(), map[[info.path] := content]) == content
  {
    var disk := map[[info.path] := content];
    FileAt(info.GetFiles(), disk, 0);
    assert info.GetFiles()[..0] == [];
  }

  /** Make a torrent of a file, open it over the same file, verify: it is complete. */
  method MakeThenVerify(content: seq<byte>, path: string, pieceLength: u32, sha1: seq<byte> -> Digest)
    returns (made: bool, complete: bool)
    requires pieceLength >= 1 && |content| <= I64_MAX
    requires |Digests(content, pieceLength, sha1)| < U32_MOD
    ensures made <==> |content| % pieceLength != 0
    ensures made ==> complete
  {
    complete := false;
    var res := MkTorrentSingle(content, path, pieceLength, sha1);
    made := res.Some?;
    if made {
      var info := res.value;
      MadeTorrentIsGood(content, path, pieceLength, sha1);
      WellFormedFacts(info);
      OneFile(info, content);
      var bf := new Bitfield(info.NumPieces(), None);
      var st := new FsTorrent(info, sha1, bf, map[[path] := content], true, true);
      complete := Complete(st, content);
    }
  }
}
