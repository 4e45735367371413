/** lib/metainfo/metainfo.go: the piece and file arithmetic of a torrent's info section. */
module MetaInfo {
  import opened Words
  import opened Common

  const BLOCK_SIZE: u32 := 16 * 1024

  type Path = seq<string>

  datatype FileInfo = FileInfo(length: u64, path: Path)

  datatype Info = Info(pieceLength: u32, pieces: seq<byte>, path: string, files: seq<FileInfo>, length: u64) {

    function GetFiles(): seq<FileInfo> {
      if length > 0 then [FileInfo(length, [path])] else files
    }

    predicate IsSingleFile() {
      length > 0
    }

    function NumPieces(): u32 {
      (|pieces| / 20) % U32_MOD
    }

    /** The loop of TotalSize, in 64-bit arithmetic. */
    method TotalSize() returns (total: u64)
      ensures total == Total64()
    {
      if IsSingleFile() {
        return length;
      }
      total := 0;
      for k := 0 to |files|
        invariant total == SumLengths(files[..k]) % U64_MOD
      {
        assert files[..k + 1][..k] == files[..k];
        total := (total + files[k].length) % U64_MOD;
      }
      assert files[..|files|] == files;
    }

    function Total64(): u64 {
      if IsSingleFile() then length else SumLengths(files) % U64_MOD
    }

    /** The same expression as the source, with its 32- and 64-bit wrap-around. */
    function LengthOfPiece(idx: u32): u32 {
      if NumPieces() == (idx + 1) % U32_MOD then
        (pieceLength - (NumPieces() * pieceLength - Total64())) % U32_MOD
      else
        pieceLength
    }

    /** The 64-bit arithmetic of GetPiece and putChunk. */
    function Offset(idx: u32, begin: u32): int {
      AsI64((pieceLength * idx + begin) % U64_MOD)
    }

    /** The 20 bytes the metainfo holds for a piece; the offset is computed in 32 bits. */
    function CheckPiece(sha1: seq<byte> -> Digest, p: PieceData): bool {
      var idx := p.index * 20 % U32_MOD;
      NumPieces() > p.index && idx + 20 <= |pieces| && sha1(p.data) == pieces[idx..idx + 20]
    }

    function Total(): nat {
      SumLengths(GetFiles())
    }

    /** The number of whole digests. */
    function Count(): nat {
      |pieces| / 20
    }

    /** Where piece `n` starts in the concatenated files. */
    function Start(n: nat): (x: nat)
      ensures n > 0 ==> x >= pieceLength
    {
      if n == 0 then 0 else Start(n - 1) + pieceLength
    }

    /** What the piece arithmetic needs: at least one piece, the last one reached but not overrun, sizes in range. */
    predicate WellFormed() {
      && 1 <= pieceLength
      && |pieces| < U32_MOD
      && Total() <= I64_MAX
      && 1 <= Count()
      && Start(Count() - 1) < Total() <= Start(Count())
    }

    /** How long piece `idx` must be: a full piece, or what is left of the torrent. */
    function PieceLen(idx: nat): int {
      if idx + 1 == Count() then Total() - Start(idx) else pieceLength
    }

    /** The digest the metainfo promises for a piece. */
    function Expected(idx: nat): seq<byte>
      requires idx < Count()
    {
      pieces[20 * idx..20 * idx + 20]
    }
  }

  function SumLengths(files: seq<FileInfo>): nat {
    if files == [] then 0 else SumLengths(files[..|files| - 1]) + files[|files| - 1].length
  }

  /** The source multiplies. */
  lemma {:induction false} StartIsProduct(info: Info, n: nat)
    ensures info.Start(n) == n * info.pieceLength == info.pieceLength * n
  {
    if n > 0 {
      StartIsProduct(info, n - 1);
    }
  }

  lemma MulAtMost(a: nat, b: nat, m: nat)
    requires a <= m && b <= m
    ensures a * b <= m * m
  {
    assert a * b <= m * b && m * b <= m * m;
  }

  /** The 64-bit offset of a block is exact, or negative where it would pass 2^63 - 1: it never wraps back. */
  lemma OffsetIsExact(info: Info, idx: u32, begin: u32)
    ensures var x := info.Start(idx) + begin;
            x < U64_MOD && info.Offset(idx, begin) == if x <= I64_MAX then x else x - U64_MOD
  {
    StartIsProduct(info, idx);
    MulAtMost(info.pieceLength, idx, U32_MOD - 1);
  }

  lemma {:induction false} StartMonotonic(info: Info, a: nat, b: nat)
    requires a <= b
    ensures info.Start(a) <= info.Start(b)
    ensures a < b ==> info.Start(a) + info.pieceLength <= info.Start(b)
  {
    if a < b {
      StartMonotonic(info, a, b - 1);
    }
  }

  lemma WellFormedFacts(info: Info)
    requires info.WellFormed()
    ensures info.NumPieces() == info.Count() && info.Total64() == info.Total()
  {
    if info.IsSingleFile() {
      assert SumLengths([FileInfo(info.length, [info.path])]) == info.length;
    }
  }

  /** A piece lies inside the torrent and has between one byte and a full piece. */
  lemma PieceInside(info: Info, idx: nat)
    requires info.WellFormed() && idx < info.Count()
    ensures 1 <= info.PieceLen(idx) <= info.pieceLength && info.Start(idx) + info.PieceLen(idx) <= info.Total()
  {
    StartMonotonic(info, idx, info.Count() - 1);
  }

  /** LengthOfPiece never wraps: it is the length of the piece's share of the torrent. */
  lemma LengthOfPieceIsExact(info: Info, idx: u32)
    requires info.WellFormed() && idx < info.NumPieces()
    ensures info.LengthOfPiece(idx) == info.PieceLen(idx)
  {
    WellFormedFacts(info);
    PieceInside(info, idx);
    StartIsProduct(info, info.NumPieces());
  }

  function SumOfPieces(info: Info, n: u32): nat {
    if n == 0 then 0 else SumOfPieces(info, n - 1) + info.LengthOfPiece(n - 1)
  }

  /** The pieces tile the torrent: the first `n` of them end where piece `n` starts, and all of them end at the total. */
  lemma {:induction false} PiecesTile(info: Info, n: u32)
    requires info.WellFormed() && n <= info.NumPieces()
    ensures SumOfPieces(info, n) == if n < info.NumPieces() then info.Start(n) else info.Total()
  {
    WellFormedFacts(info);
    if n > 0 {
      PiecesTile(info, n - 1);
      LengthOfPieceIsExact(info, n - 1);
    }
  }

  predicate InPiece(info: Info, i: nat, x: nat) {
    info.Start(i) <= x < info.Start(i) + info.PieceLen(i)
  }

  /** Two pieces never share a byte. */
  lemma PiecesDisjoint(info: Info, i: nat, j: nat, x: nat)
    requires info.WellFormed() && i < j < info.Count()
    ensures !(InPiece(info, i, x) && InPiece(info, j, x))
    ensures info.Start(i) + info.PieceLen(i) <= info.Start(j)
  {
    PieceInside(info, i);
    StartMonotonic(info, i, j);
  }

  lemma {:induction false} FindPiece(info: Info, x: nat, n: nat) returns (j: nat)
    requires info.WellFormed() && x < info.Total() && n <= info.Count() && x < info.Start(n)
    ensures j < n && InPiece(info, j, x)
  {
    if info.Start(n - 1) <= x {
      j := n - 1;
    } else {
      j := FindPiece(info, x, n - 1);
    }
  }

  /** Every byte of the torrent lies in exactly one piece. */
  lemma ByteInOnePiece(info: Info, x: nat) returns (j: nat)
    requires info.WellFormed() && x < info.Total()
    ensures j < info.Count()
    ensures forall i: nat :: i < info.Count() ==> (InPiece(info, i, x) <==> i == j)
  {
    j := FindPiece(info, x, info.Count());
    forall i: nat | i < info.Count()
      ensures InPiece(info, i, x) <==> i == j
    {
      if i < j {
        PiecesDisjoint(info, i, j, x);
      } else if j < i {
        PiecesDisjoint(info, j, i, x);
      }
    }
  }

  // ----- blocks of a piece -----

  /** The bit count of newPiece. */
  function NumBlocks(length: nat): nat {
    length / BLOCK_SIZE + if length % BLOCK_SIZE != 0 then 1 else 0
  }

  function BlockLength(length: nat, k: nat): int {
    Min(BLOCK_SIZE, length - k * BLOCK_SIZE)
  }

  /** The blocks partition the piece: byte `x` lies in block `x / BLOCK_SIZE` and in no other. */
  lemma BlocksTile(length: nat, x: nat, k: nat)
    requires x < length && k < NumBlocks(length)
    ensures x / BLOCK_SIZE < NumBlocks(length)
    ensures 1 <= BlockLength(length, k) <= BLOCK_SIZE && k * BLOCK_SIZE + BlockLength(length, k) <= length
    ensures k * BLOCK_SIZE <= x < k * BLOCK_SIZE + BlockLength(length, k) <==> k == x / BLOCK_SIZE
  {
  }
}
