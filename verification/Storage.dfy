/** lib/storage/fs.go: a torrent's files read and written as one byte space, and the bitfield of verified pieces. */
module Storage {
  import opened Words
  import opened Common
  import opened IO
  import opened MetaInfo
  import opened Bitfields

  type Disk = map<Path, seq<byte>>

  // ----- the concatenated view -----

  /** Every file is there, at its full length. */
  predicate OnDisk(files: seq<FileInfo>, disk: Disk) {
    forall k :: 0 <= k < |files| ==> files[k].path in disk && |disk[files[k].path]| == files[k].length
  }

  predicate DistinctPaths(files: seq<FileInfo>) {
    forall j, k :: 0 <= j < k < |files| ==> files[j].path != files[k].path
  }

  function Parts(files: seq<FileInfo>, disk: Disk): seq<seq<byte>>
    requires OnDisk(files, disk)
  {
    seq(|files|, k requires 0 <= k < |files| => disk[files[k].path])
  }

  /** The files laid end to end. */
  function Flat(files: seq<FileInfo>, disk: Disk): (s: seq<byte>)
    requires OnDisk(files, disk)
    ensures |s| == SumLengths(files)
  {
    PartsLength(files, disk, |files|);
    assert files[..|files|] == files && Parts(files, disk)[..|files|] == Parts(files, disk);
    Join(Parts(files, disk))
  }

  lemma {:induction false} PartsLength(files: seq<FileInfo>, disk: Disk, k: nat)
    requires OnDisk(files, disk) && k <= |files|
    ensures |Join(Parts(files, disk)[..k])| == SumLengths(files[..k])
  {
    if k > 0 {
      PartsLength(files, disk, k - 1);
      JoinStep(Parts(files, disk), k - 1);
      SumStep(files, k - 1);
    }
  }

  lemma SumStep(files: seq<FileInfo>, k: nat)
    requires k < |files|
    ensures SumLengths(files[..k + 1]) == SumLengths(files[..k]) + files[k].length
  {
    assert files[..k + 1][..k] == files[..k];
  }

  /** File `k` occupies its own stretch of the concatenation. */
  lemma FileAt(files: seq<FileInfo>, disk: Disk, k: nat)
    requires OnDisk(files, disk) && k < |files|
    ensures var start := SumLengths(files[..k]);
            start + files[k].length <= |Flat(files, disk)|
            && Flat(files, disk)[start..start + files[k].length] == disk[files[k].path]
  {
    JoinSplit(Parts(files, disk), k);
    PartsLength(files, disk, k);
  }

  // ----- where a byte of the torrent is -----

  /** Byte `x` of the torrent is byte `y` of file `k` of its list, or of the one file it is. */
  predicate LiesIn(info: Info, k: nat, x: nat, path: Path, y: nat) {
    if info.length > 0 then k == 0 && path == [info.path] && x == y < info.length
    else k < |info.files| && path == info.files[k].path && y < info.files[k].length && x == SumLengths(info.files[..k]) + y
  }

  ghost predicate Lies(info: Info, x: nat, path: Path, y: nat) {
    exists k: nat :: LiesIn(info, k, x, path, y)
  }

  lemma {:induction false} ListHolds(files: seq<FileInfo>, x: nat) returns (k: nat, y: nat)
    requires x < SumLengths(files)
    ensures k < |files| && y < files[k].length && x == SumLengths(files[..k]) + y
  {
    var front, last := files[..|files| - 1], files[|files| - 1];
    if x < SumLengths(front) {
      k, y := ListHolds(front, x);
      assert files[..k] == front[..k];
    } else {
      k, y := |files| - 1, x - SumLengths(front);
    }
  }

  /** Every byte of the torrent is somewhere. */
  lemma EveryByteLies(info: Info, x: nat)
    requires x < info.Total()
    ensures exists path, y: nat :: Lies(info, x, path, y)
  {
    if info.length > 0 {
      assert SumLengths(info.GetFiles()) == info.length by {
        assert info.GetFiles()[..0] == [];
      }
      assert LiesIn(info, 0, x, [info.path], x);
      assert Lies(info, x, [info.path], x);
    } else {
      var k, y := ListHolds(info.files, x);
      assert LiesIn(info, k, x, info.files[k].path, y);
      assert Lies(info, x, info.files[k].path, y);
    }
  }

  /** The files of the torrent, in the order of its list, make up its bytes. */
  lemma ByteOfFile(info: Info, disk: Disk, x: nat, path: Path, y: nat)
    requires OnDisk(info.GetFiles(), disk) && Lies(info, x, path, y)
    ensures path in disk && y < |disk[path]| && x < info.Total() && Flat(info.GetFiles(), disk)[x] == disk[path][y]
  {
    var k: nat :| LiesIn(info, k, x, path, y);
    var files := info.GetFiles();
    assert files[k].path == path && files[k].length > y;
    FileAt(files, disk, k);
    var start := SumLengths(files[..k]);
    assert Flat(files, disk)[start..start + files[k].length][y] == disk[path][y];
  }

  /** `data` is what stands in the torrent's files from byte `off` of the torrent on. */
  ghost predicate StandsAt(info: Info, disk: Disk, off: nat, data: seq<byte>) {
    forall x: nat, path: Path, y: nat :: off <= x < off + |data| && Lies(info, x, path, y) ==>
      path in disk && y < |disk[path]| && data[x - off] == disk[path][y]
  }

  /** The first `n` bytes of `p` have been put into the torrent's files from byte `off` of the torrent on, and nothing else. */
  ghost predicate PutInFiles(info: Info, before: Disk, after: Disk, off: nat, p: seq<byte>, n: nat) {
    && n <= |p|
    && forall x: nat, path: Path, y: nat :: Lies(info, x, path, y) ==>
         && path in before && path in after && y < |before[path]| && y < |after[path]|
         && after[path][y] == if off <= x < off + n then p[x - off] else before[path][y]
  }

  lemma CutStandsAt(info: Info, disk: Disk, off: nat, data: seq<byte>)
    requires OnDisk(info.GetFiles(), disk) && data == Cut(Flat(info.GetFiles(), disk), off, |data|)
    ensures StandsAt(info, disk, off, data)
  {
    forall x: nat, path: Path, y: nat | off <= x < off + |data| && Lies(info, x, path, y)
      ensures path in disk && y < |disk[path]| && data[x - off] == disk[path][y]
    {
      ByteOfFile(info, disk, x, path, y);
    }
  }

  lemma WrittenIsPut(info: Info, before: Disk, after: Disk, p: seq<byte>, off: nat, n: nat)
    requires HasWritten(info.GetFiles(), before, after, p, off, n)
    ensures PutInFiles(info, before, after, off, p, n)
  {
    forall x: nat, path: Path, y: nat | Lies(info, x, path, y)
      ensures path in before && path in after && y < |before[path]| && y < |after[path]|
      ensures after[path][y] == if off <= x < off + n then p[x - off] else before[path][y]
    {
      ByteOfFile(info, before, x, path, y);
      ByteOfFile(info, after, x, path, y);
    }
  }

  function Written(disk: Disk, path: Path, off: nat, chunk: seq<byte>): Disk
    requires path in disk && off + |chunk| <= |disk[path]|
  {
    disk[path := Splice(disk[path], off, chunk)]
  }

  /** Writing inside one file writes inside the concatenation, and nowhere else. */
  lemma FlatAfterWrite(files: seq<FileInfo>, disk: Disk, k: nat, off: nat, chunk: seq<byte>)
    requires OnDisk(files, disk) && DistinctPaths(files) && k < |files| && off + |chunk| <= files[k].length
    ensures OnDisk(files, Written(disk, files[k].path, off, chunk))
    ensures SumLengths(files[..k]) + off + |chunk| <= |Flat(files, disk)|
    ensures Flat(files, Written(disk, files[k].path, off, chunk))
         == Splice(Flat(files, disk), SumLengths(files[..k]) + off, chunk)
  {
    var disk' := Written(disk, files[k].path, off, chunk);
    PartsLength(files, disk, k);
    JoinAfterWrite(Parts(files, disk), k, off, chunk);
    assert Parts(files, disk') == Parts(files, disk)[k := Splice(disk[files[k].path], off, chunk)];
  }

  /** What a read of `n` bytes at `off` yields; nothing when they are not all there. */
  function Cut(s: seq<byte>, off: nat, n: nat): seq<byte> {
    if off + n <= |s| then s[off..off + n] else []
  }

  // ----- the piece view -----

  /** The stored bytes of a piece. */
  function PieceBytes(info: Info, flat: seq<byte>, idx: nat): seq<byte>
    requires info.WellFormed() && idx < info.Count() && |flat| == info.Total()
  {
    PieceInside(info, idx);
    flat[info.Start(idx)..info.Start(idx) + info.PieceLen(idx)]
  }

  /** The stored bytes of a piece hash to the digest the metainfo promises. */
  predicate Good(info: Info, sha1: seq<byte> -> Digest, flat: seq<byte>, idx: nat)
    requires info.WellFormed() && idx < info.Count() && |flat| == info.Total()
  {
    sha1(PieceBytes(info, flat, idx)) == info.Expected(idx)
  }

  class FsTorrent {
    const info: Info
    const sha1: seq<byte> -> Digest
    const bf: Bitfield
    /** The file system never fails and always makes progress. */
    const reliable: bool
    /** A write that stops short never reports just an unexpected end of file. */
    const orderly: bool
    var disk: Disk
    var checking: bool
    var seeding: bool

    ghost predicate FilesValid()
      reads this
    {
      OnDisk(info.GetFiles(), disk) && DistinctPaths(info.GetFiles()) && info.Total() <= I64_MAX
    }

    ghost predicate Valid()
      reads this, bf
    {
      FilesValid() && info.WellFormed() && bf.Length == info.Count() && bf.Length <= bf.Value().room
    }

    ghost function Contents(): (s: seq<byte>)
      requires FilesValid()
      reads this
      ensures |s| == info.Total()
    {
      Flat(info.GetFiles(), disk)
    }

    constructor (info: Info, sha1: seq<byte> -> Digest, bf: Bitfield, disk: Disk, reliable: bool, orderly: bool)
      ensures this.info == info && this.sha1 == sha1 && this.bf == bf && this.disk == disk
      ensures this.reliable == reliable && this.orderly == orderly
    {
      this.info := info;
      this.sha1 := sha1;
      this.bf := bf;
      this.disk := disk;
      this.reliable := reliable;
      this.orderly := orderly;
      checking, seeding := false, false;
    }

    // ----- the file system driver: any number of bytes may come back, and none means an error -----

    method DriverReadAt(path: Path, b: array<byte>, lo: nat, hi: nat, off: nat) returns (n: nat, err: Err)
      requires path in disk && lo <= hi <= b.Length && off <= |disk[path]|
      modifies b
      ensures n <= hi - lo && off + n <= |disk[path]|
      ensures b[..lo + n] == old(b[..lo]) + disk[path][off..off + n]
      ensures n == 0 && lo < hi ==> err != Ok
      ensures reliable && lo < hi && off < |disk[path]| ==> n > 0
    {
      var avail := Min(hi - lo, |disk[path]| - off);
      n :| 0 <= n <= avail && (reliable && avail > 0 ==> n > 0);
      CopyInto(b, lo, disk[path][off..off + n]);
      err := Outcome(n, hi - lo);
    }

    /** Writes p[..hi], or a part of it and says so; whether as an unexpected end of file is up to the driver. */
    method DriverWriteAt(path: Path, p: seq<byte>, hi: nat, off: nat) returns (n: nat, err: Err)
      requires path in disk && hi <= |p| && off + hi <= |disk[path]|
      modifies this`disk
      ensures n <= hi && disk == Written(old(disk), path, off, p[..n])
      ensures err == Ok ==> n == hi
      ensures WritesWhole() && err == UnexpectedEOF ==> n == hi
      ensures reliable ==> n == hi && (err == Ok || err == UnexpectedEOF)
    {
      n :| 0 <= n <= hi && (reliable ==> n == hi);
      disk := Written(disk, path, off, p[..n]);
      if n < hi {
        err := if orderly then Fault else UnexpectedEOF;
      } else {
        err := if reliable then Ok else UnexpectedEOF;
      }
    }

    predicate WritesWhole() {
      reliable || orderly
    }

    // ----- fsTorrent -----

    /** Reads at most up to the end of this file, into b[lo..]. */
    method ReadFileAt(fi: FileInfo, b: array<byte>, lo: nat, off: nat) returns (n: nat, err: Err)
      requires fi.path in disk && |disk[fi.path]| == fi.length && lo <= b.Length && off <= fi.length
      modifies b
      ensures n <= Min(b.Length - lo, fi.length - off)
      ensures b[..lo + n] == old(b[..lo]) + disk[fi.path][off..off + n]
      ensures n == 0 && lo < b.Length && off < fi.length ==> err != Ok
      ensures reliable ==> n == Min(b.Length - lo, fi.length - off)
    {
      n, err := 0, Ok;
      var hi := Min(b.Length, lo + (fi.length - off));
      while off + n < fi.length && lo + n < hi
        invariant lo + n <= hi && off + n <= fi.length
        invariant b[..lo + n] == old(b[..lo]) + disk[fi.path][off..off + n]
        invariant err == Ok
      {
        var n1, err1 := DriverReadAt(fi.path, b, lo + n, hi, off + n);
        SliceAppend(disk[fi.path], off, n, n1);
        n := n + n1;
        if n1 == 0 {
          err := err1;
          break;
        }
      }
    }

    /** `n` bytes from `off` are in the buffer, and the walk stands `at` bytes into the file that starts at `start`. */
    ghost predicate ReadSoFar(b: array<byte>, off: nat, n: nat, start: nat, at: nat)
      requires FilesValid()
      reads this, b
    {
      && start + at == off + n
      && (n == 0 || n < b.Length)
      && b[..n] == Cut(Contents(), off, n)
    }

    /** The walk ended inside the torrent: filled the buffer, or met an error of the driver. */
    ghost predicate ReadEnded(b: array<byte>, off: nat, n: nat, err: Err)
      requires FilesValid()
      reads this, b
    {
      && off < info.Total() && n <= b.Length && b[..n] == Cut(Contents(), off, n)
      && (err == Ok <==> n == b.Length)
      && (reliable ==> err == Ok)
    }

    /** One turn of the inner loop of ReadAt. */
    method ReadTurn(b: array<byte>, off: nat, n0: nat, k: nat, at0: nat) returns (n: nat, at: nat, stop: bool, err: Err)
      requires FilesValid() && k < |info.GetFiles()| && at0 < info.GetFiles()[k].length
      requires ReadSoFar(b, off, n0, SumLengths(info.GetFiles()[..k]), at0)
      requires reliable && n0 > 0 ==> at0 == 0
      modifies b
      ensures !stop ==> err == Ok && ReadSoFar(b, off, n, SumLengths(info.GetFiles()[..k]), at)
      ensures at0 <= at && (!stop ==> at0 < at) && (!stop && reliable ==> at == info.GetFiles()[k].length)
      ensures stop ==> ReadEnded(b, off, n, err)
    {
      var fi := info.GetFiles()[k];
      FileAt(info.GetFiles(), disk, k);
      var n1, err1 := ReadFileAt(fi, b, n0, at0);
      ReadMore(Contents(), off, n0, SumLengths(info.GetFiles()[..k]), disk[fi.path], at0, n1);
      n, at, stop, err := n0 + n1, at0 + n1, false, Ok;
      assert b[..n] == Cut(Contents(), off, n);
      if n == b.Length {
        stop := true;
      } else if n1 == 0 {
        err := NotEOF(err1);
        stop := true;
      }
    }

    /** The inner loop of ReadAt: file `k` from `at0` on. `stop` is its early return. */
    method ReadThisFile(b: array<byte>, off: nat, n0: nat, k: nat, at0: nat) returns (n: nat, at: nat, stop: bool, err: Err)
      requires FilesValid() && k < |info.GetFiles()|
      requires ReadSoFar(b, off, n0, SumLengths(info.GetFiles()[..k]), at0)
      requires reliable && n0 > 0 ==> at0 == 0
      modifies b
      ensures !stop ==> err == Ok && ReadSoFar(b, off, n, SumLengths(info.GetFiles()[..k]), at)
      ensures !stop ==> info.GetFiles()[k].length <= at && (reliable && n > 0 ==> at == info.GetFiles()[k].length)
      ensures stop ==> ReadEnded(b, off, n, err)
    {
      n, at, stop, err := n0, at0, false, Ok;
      while at < info.GetFiles()[k].length && !stop
        invariant !stop ==> err == Ok && ReadSoFar(b, off, n, SumLengths(info.GetFiles()[..k]), at)
        invariant !stop && reliable && n > 0 ==> at == 0 || at == info.GetFiles()[k].length
        invariant stop ==> ReadEnded(b, off, n, err)
        decreases info.GetFiles()[k].length - at, if stop then 0 else 1
      {
        n, at, stop, err := ReadTurn(b, off, n, k, at);
      }
    }

    /**
     * ReadAt: what came back is a slice of the torrent, and err is Ok exactly when it fills the buffer
     * (for an empty buffer, when `off` lies before the end of the torrent). A reliable driver delivers all there is. At a
     * negative offset the first file's driver fails, unless nothing is asked for.
     */
    method ReadAt(b: array<byte>, off: int) returns (n: nat, err: Err)
      requires FilesValid()
      modifies b
      ensures n <= b.Length
      ensures off >= 0 ==> b[..n] == Cut(Contents(), off, n) && (err == Ok <==> n == b.Length && off < info.Total())
      ensures off >= 0 ==> StandsAt(info, disk, off, b[..n])
      ensures off < 0 ==> n == 0 && (err == Ok <==> b.Length == 0 && info.GetFiles() != [])
      ensures reliable && off >= 0 ==> (err == Ok <==> off < info.Total() && off + b.Length <= info.Total())
    {
      n, err := 0, Ok;
      if off < 0 {
        err := if info.GetFiles() == [] then EOF else if b.Length == 0 then Ok else Fault;
        return;
      }
      n, err := ReadFiles(b, off);
      CutStandsAt(info, disk, off, b[..n]);
    }

    /** The loop of ReadAt. */
    method ReadFiles(b: array<byte>, off: nat) returns (n: nat, err: Err)
      requires FilesValid()
      modifies b
      ensures n <= b.Length && b[..n] == Cut(Contents(), off, n)
      ensures err == Ok <==> n == b.Length && off < info.Total()
      ensures reliable ==> (err == Ok <==> off < info.Total() && off + b.Length <= info.Total())
    {
      n, err := 0, Ok;
      var files := info.GetFiles();
      var at: nat := off;
      for k := 0 to |files|
        invariant reliable && n > 0 ==> at == 0
        invariant ReadSoFar(b, off, n, SumLengths(files[..k]), at)
      {
        var stop;
        SumStep(files, k);
        n, at, stop, err := ReadThisFile(b, off, n, k, at);
        if stop {
          CutFits(Contents(), off, n);
          return;
        }
        at := at - files[k].length;
      }
      assert files[..|files|] == files;
      err := EOF;
    }

    /** The part of the loop of WriteAt that touches a file: `p` from `at` on, as far as file `k` goes. */
    method WriteThisFile(files: seq<FileInfo>, k: nat, p: seq<byte>, at: nat,
                         ghost first: Disk, ghost p0: seq<byte>, ghost off: nat, ghost done0: nat, ghost segs0: seq<Seg>)
      returns (n1: nat, err: Err, p': seq<byte>, ghost segs: seq<Seg>)
      requires DistinctPaths(files) && WrittenAs(files, first, disk, p0, off, segs0, done0) && p == p0[done0..]
      requires k < |files| && at < files[k].length && SumLengths(files[..k]) + at == Reached(off, segs0)
      modifies this`disk
      ensures n1 <= |p| && p' == p0[done0 + n1..] && WrittenAs(files, first, disk, p0, off, segs, done0 + n1)
      ensures segs != [] && Reached(off, segs) == SumLengths(files[..k + 1])
      ensures WritesWhole() && AllFull(segs0) ==> Filled(segs) && (err == Ok && p' != [] ==> AllFull(segs))
      ensures reliable ==> err == Ok
    {
      n1 := Min(|p|, files[k].length - at);
      n1, err := DriverWriteAt(files[k].path, p, n1, at);
      SumStep(files, k);
      segs := segs0 + [Seg(SumLengths(files[..k]) + at, p[..n1], SumLengths(files[..k + 1]))];
      SegStep(files, first, old(disk), p0, off, segs0, done0, k, at, p[..n1], segs[|segs0|]);
      TakeMore(p0, done0, n1);
      if err == UnexpectedEOF {
        err := Ok;
      }
      p' := p[n1..];
    }

    /** The walk of WriteAt stands `at` bytes into what is left of the files from `k` on, with `p` still to be written. */
    ghost predicate Walking(files: seq<FileInfo>, first: Disk, p0: seq<byte>, off: nat, segs: seq<Seg>, done: nat,
                            k: nat, at: nat, p: seq<byte>)
      reads this
    {
      && WrittenAs(files, first, disk, p0, off, segs, done) && p == p0[done..] && (segs != [] ==> at == 0 && p != [])
      && k <= |files| && SumLengths(files[..k]) + at == Reached(off, segs) && (WritesWhole() ==> AllFull(segs))
    }

    /** What WriteAt promises. */
    ghost predicate HasEnded(files: seq<FileInfo>, first: Disk, p0: seq<byte>, off: nat, segs: seq<Seg>, done: nat,
                             n: nat, err: Err)
      reads this
    {
      && WrittenAs(files, first, disk, p0, off, segs, done) && (err == Ok ==> n == done)
      && (WritesWhole() ==> Filled(segs) && HasWritten(files, first, disk, p0, off, done))
      && (WritesWhole() && err == Ok ==> n == |p0| || SumLengths(files) <= off + n)
      && (reliable ==> err == Ok)
    }

    /** The body of the loop of WriteAt; `stop` is an early return. */
    method WriteNextFile(files: seq<FileInfo>, k: nat, p: seq<byte>, at: nat, n0: nat,
                         ghost first: Disk, ghost p0: seq<byte>, ghost off: nat, ghost segs0: seq<Seg>)
      returns (n: nat, err: Err, p': seq<byte>, at': nat, stop: bool, ghost done: nat, ghost segs: seq<Seg>)
      requires DistinctPaths(files) && k < |files| && Walking(files, first, p0, off, segs0, n0, k, at, p)
      modifies this`disk
      ensures !stop ==> Walking(files, first, p0, off, segs, done, k + 1, at', p') && n == done && err == Ok
      ensures stop ==> HasEnded(files, first, p0, off, segs, done, n, err)
    {
      SumStep(files, k);
      n, err, p', done, segs, stop := n0, Ok, p, n0, segs0, false;
      if at >= files[k].length {
        at' := at - files[k].length;
        return;
      }
      at' := 0;
      var n1;
      n1, err, p', segs := WriteThisFile(files, k, p, at, first, p0, off, n0, segs0);
      done := n0 + n1;
      FilledIsWritten(files, first, disk, p0, off, segs, done);
      stop := err != Ok || p' == [];
      if err == Ok {
        n := n0 + n1;
      }
    }

    /** The loop of WriteAt. */
    method WriteFiles(p0: seq<byte>, off: nat) returns (n: nat, err: Err, ghost done: nat, ghost segs: seq<Seg>)
      requires FilesValid()
      modifies this`disk
      ensures WrittenAs(info.GetFiles(), old(disk), disk, p0, off, segs, done)
      ensures err == Ok ==> n == done
      ensures WritesWhole() ==> Filled(segs) && HasWritten(info.GetFiles(), old(disk), disk, p0, off, done)
      ensures WritesWhole() && err == Ok ==> n == |p0| || info.Total() <= off + n
      ensures reliable ==> err == Ok
    {
      n, err, done, segs := 0, Ok, 0, [];
      var files := info.GetFiles();
      var p := p0;
      var at: nat := off;
      for k := 0 to |files|
        invariant Walking(files, old(disk), p0, off, segs, done, k, at, p) && n == done && err == Ok
      {
        var stop;
        n, err, p, at, stop, done, segs := WriteNextFile(files, k, p, at, n, old(disk), p0, off, segs);
        if stop {
          return;
        }
      }
      assert files[..|files|] == files;
      FilledIsWritten(files, old(disk), disk, p0, off, segs, done);
    }

    /**
     * WriteAt: the first `done` bytes are written as the segments `segs`, and nothing else changes. With a driver that
     * writes whole files or fails they are one stretch from `off` on, and success means all of the data, up to the end
     * of the torrent: what does not fit is dropped without an error. At a negative offset the first file's driver fails.
     */
    method WriteAt(p0: seq<byte>, off: int) returns (n: nat, err: Err, ghost done: nat, ghost segs: seq<Seg>)
      requires FilesValid()
      modifies this`disk
      ensures WrittenAs(info.GetFiles(), old(disk), disk, p0, Max(off, 0), segs, done)
      ensures err == Ok ==> n == done
      ensures WritesWhole() ==> Filled(segs) && HasWritten(info.GetFiles(), old(disk), disk, p0, Max(off, 0), done)
      ensures WritesWhole() ==> PutInFiles(info, old(disk), disk, Max(off, 0), p0, done)
      ensures WritesWhole() && err == Ok && off >= 0 ==> n == |p0| || info.Total() <= off + n
      ensures off < 0 ==> done == 0 && segs == [] && (err == Ok <==> info.GetFiles() == [])
      ensures reliable && off >= 0 ==> err == Ok
    {
      if off < 0 {
        n, err, done, segs := 0, if info.GetFiles() == [] then Ok else Fault, 0, [];
        FilledIsWritten(info.GetFiles(), disk, disk, p0, 0, segs, 0);
        WrittenIsPut(info, disk, disk, p0, 0, 0);
        return;
      }
      n, err, done, segs := WriteFiles(p0, off);
      if WritesWhole() {
        WrittenIsPut(info, old(disk), disk, p0, off, done);
      }
    }

    /** What was written is what is read back, whatever files it falls into. */
    method ReadAfterWrite(p: seq<byte>, off: nat) returns (back: seq<byte>)
      requires FilesValid() && reliable && off < info.Total() && off + |p| <= info.Total()
      modifies this`disk
      ensures FilesValid() && back == p
    {
      var n, err;
      ghost var flat := Contents();
      ghost var done, segs;
      n, err, done, segs := WriteAt(p, off);
      var buf := new byte[|p|];
      n, err := ReadAt(buf, off);
      assert p[..done] == p && buf[..n] == buf[..];
      CutOfPut(flat, off, p);
      back := buf[..];
    }

    /** GetPiece: the bytes asked for, or an error; the 64-bit offset of a piece far past the end is negative. */
    method GetPiece(r: PieceRequest) returns (data: seq<byte>, err: Err)
      requires FilesValid()
      ensures err == Ok ==> |data| == r.length && data == Cut(Contents(), info.Start(r.index) + r.begin, r.length)
      ensures err == Ok ==> StandsAt(info, disk, info.Start(r.index) + r.begin, data)
      ensures err == Ok || !reliable
         <== info.Start(r.index) + r.begin < info.Total() && info.Start(r.index) + r.begin + r.length <= info.Total()
    {
      OffsetIsExact(info, r.index, r.begin);
      var offset := info.Offset(r.index, r.begin);
      var buf := new byte[r.length];
      var n;
      n, err := ReadAt(buf, offset);
      assert buf[..r.length] == buf[..];
      data := buf[..];
      if err == Ok {
        CutStandsAt(info, disk, info.Start(r.index) + r.begin, data);
      }
    }

    /**
     * PutChunk writes as WriteAt does, and nothing where the 64-bit offset is negative. With a driver that writes whole
     * files or fails, a prefix of the data is written at its place; all of it when there is no error and it fits.
     */
    method PutChunk(d: PieceData) returns (err: Err, ghost done: nat, ghost segs: seq<Seg>)
      requires FilesValid()
      modifies this`disk
      ensures WrittenAs(info.GetFiles(), old(disk), disk, d.data, info.Start(d.index) + d.begin, segs, done)
      ensures info.Start(d.index) + d.begin > I64_MAX ==> done == 0 && (err == Ok <==> info.GetFiles() == [])
      ensures WritesWhole() ==>
                && HasWritten(info.GetFiles(), old(disk), disk, d.data, info.Start(d.index) + d.begin, done)
                && (err == Ok && info.Start(d.index) + d.begin + |d.data| <= info.Total() ==> done == |d.data|)
      ensures WritesWhole() ==> PutInFiles(info, old(disk), disk, info.Start(d.index) + d.begin, d.data, done)
      ensures reliable && info.Start(d.index) + d.begin <= I64_MAX ==> err == Ok
    {
      OffsetIsExact(info, d.index, d.begin);
      var off := info.Offset(d.index, d.begin);
      var n;
      n, err, done, segs := WriteAt(d.data, off);
      if off < 0 {
        NothingWritten(info.GetFiles(), old(disk), disk, d.data, segs, info.Start(d.index) + d.begin);
      }
      if WritesWhole() {
        WrittenIsPut(info, old(disk), disk, d.data, info.Start(d.index) + d.begin, done);
      }
    }

    /**
     * VerifyPiece: the bit says whether the stored bytes hash to the digest, unless they could not be read. Past the last
     * piece no bit changes.
     */
    method VerifyPiece(idx: u32) returns (verdict: Verdict)
      requires Valid()
      modifies bf
      ensures Valid()
      ensures idx < info.Count() ==> True(info, sha1, Contents(), idx, verdict)
      ensures idx >= info.Count() ==> verdict != Verified && bf.Value() == old(bf.Value())
      ensures bf.Value() == old(bf.Value()).(members := Rated(old(bf.Value()).members, idx, verdict))
      ensures reliable && idx < info.Count() ==> verdict != Unread
    {
      var l := info.LengthOfPiece(idx);
      var data, err;
      WellFormedFacts(info);
      if idx < info.Count() {
        LengthOfPieceIsExact(info, idx);
        PieceInside(info, idx);
      }
      data, err := GetPiece(PieceRequest(idx, 0, l));
      if err != Ok {
        return Unread;
      }
      if idx < info.Count() {
        GoodIsCheck(info, sha1, Contents(), idx, data);
      }
      if info.CheckPiece(sha1, PieceData(idx, 0, data)) {
        bf.Set(idx);
        return Verified;
      }
      bf.Unset(idx);
      NotAMember(bf, idx);
      verdict := Invalid;
    }

    /** VerifyAll: every piece gets its verdict; the bitfield and the seeding flag follow from them. */
    method VerifyAll() returns (ghost verdicts: seq<Verdict>)
      requires Valid()
      modifies this`checking, this`seeding, bf
      ensures Valid()
      ensures |verdicts| == info.Count() && AllTrue(info, sha1, Contents(), verdicts)
      ensures bf.Value() == old(bf.Value()).(members := RatedAll(old(bf.Value()).members, verdicts))
      ensures !checking && (seeding <==> bf.Value().members == Below(info.Count()))
      ensures reliable ==> Unread !in verdicts
    {
      checking := true;
      verdicts := [];
      WellFormedFacts(info);
      var sz := info.NumPieces();
      var idx: u32 := 0;
      while idx < sz
        invariant Valid() && idx == |verdicts| <= sz
        invariant AllTrue(info, sha1, Contents(), verdicts)
        invariant bf.Value() == old(bf.Value()).(members := RatedAll(old(bf.Value()).members, verdicts))
        invariant reliable ==> Unread !in verdicts
      {
        var verdict := VerifyPiece(idx);
        VerdictsStep(info, sha1, Contents(), old(bf.Value()).members, verdicts, verdict);
        verdicts := verdicts + [verdict];
        idx := idx + 1;
      }
      seeding := bf.Completed();
      checking := false;
    }

    /** DownloadRemaining, in 64-bit arithmetic: zero only when nothing is missing, and never a piece or more off. */
    method DownloadRemaining() returns (r: u64)
      requires Valid()
      ensures r == 0 <==> bf.Value().members == Below(info.Count())
      ensures r <= Missing(info, bf.Value().members, info.Count()) < r + info.pieceLength
    {
      var count := bf.CountSet();
      var total := info.TotalSize();
      WellFormedFacts(info);
      MembersBelow(bf);
      RemainingIsClose(info, bf.Value().members);
      FullWhenCounted(bf.Value().members, info.Count());
      StartIsProduct(info, count);
      var have: u64 := count * info.pieceLength;
      if have > total {
        r := 0;
      } else {
        r := total - have;
      }
    }
  }

  lemma NotAMember(bf: Bitfield, idx: u32)
    ensures idx >= bf.Length ==> bf.Value().members - {idx as nat} == bf.Value().members
  {
  }

  lemma NothingWritten(files: seq<FileInfo>, before: Disk, after: Disk, p: seq<byte>, segs: seq<Seg>, off: nat)
    requires WrittenAs(files, before, after, p, 0, segs, 0) && segs == []
    ensures WrittenAs(files, before, after, p, off, segs, 0) && HasWritten(files, before, after, p, off, 0)
  {
    FilledIsWritten(files, before, after, p, off, segs, 0);
  }

  lemma MembersBelow(bf: Bitfield)
    ensures bf.Value().members <= Below(bf.Length)
  {
  }

  /** What VerifyPiece finds out: nil, ErrInvalidPiece, or some other error. */
  datatype Verdict = Verified | Invalid | Unread

  predicate True(info: Info, sha1: seq<byte> -> Digest, flat: seq<byte>, idx: nat, verdict: Verdict)
    requires info.WellFormed() && idx < info.Count() && |flat| == info.Total()
  {
    verdict != Unread ==> (verdict == Verified <==> Good(info, sha1, flat, idx))
  }

  predicate AllTrue(info: Info, sha1: seq<byte> -> Digest, flat: seq<byte>, verdicts: seq<Verdict>)
    requires info.WellFormed() && |verdicts| <= info.Count() && |flat| == info.Total()
  {
    forall i: nat :: i < |verdicts| ==> True(info, sha1, flat, i, verdicts[i])
  }

  /** What the bit of a checked piece becomes; a piece that could not be read keeps its bit. */
  function Rated(owned: set<nat>, idx: nat, verdict: Verdict): set<nat> {
    match verdict
    case Verified => owned + {idx}
    case Invalid => owned - {idx}
    case Unread => owned
  }

  /** The bits after checking the first |verdicts| pieces. */
  function RatedAll(owned: set<nat>, verdicts: seq<Verdict>): set<nat> {
    if verdicts == [] then owned
    else Rated(RatedAll(owned, verdicts[..|verdicts| - 1]), |verdicts| - 1, verdicts[|verdicts| - 1])
  }

  lemma VerdictsStep(info: Info, sha1: seq<byte> -> Digest, flat: seq<byte>, owned: set<nat>, vs: seq<Verdict>, v: Verdict)
    requires info.WellFormed() && |vs| < info.Count() && |flat| == info.Total()
    requires AllTrue(info, sha1, flat, vs) && True(info, sha1, flat, |vs|, v)
    ensures AllTrue(info, sha1, flat, vs + [v])
    ensures RatedAll(owned, vs + [v]) == Rated(RatedAll(owned, vs), |vs|, v)
  {
    assert (vs + [v])[..|vs|] == vs;
  }

  lemma {:induction false} RatedAllHas(owned: set<nat>, verdicts: seq<Verdict>, i: nat)
    ensures i in RatedAll(owned, verdicts)
       <==> if i < |verdicts| then verdicts[i] == Verified || (verdicts[i] == Unread && i in owned) else i in owned
  {
    if verdicts != [] {
      RatedAllHas(owned, verdicts[..|verdicts| - 1], i);
    }
  }

  /** Where the metainfo has the digest of a piece: in 32 bits the offset is exact. */
  lemma DigestPlace(info: Info, idx: u32)
    requires info.WellFormed() && idx < info.Count()
    ensures idx < info.NumPieces() && idx * 20 % U32_MOD == 20 * idx && 20 * idx + 20 <= |info.pieces|
  {
    WellFormedFacts(info);
    DivModUnique(idx * 20, U32_MOD, 0, idx * 20);
  }

  lemma GoodIsCheck(info: Info, sha1: seq<byte> -> Digest, flat: seq<byte>, idx: u32, data: seq<byte>)
    requires info.WellFormed() && idx < info.Count() && |flat| == info.Total()
    requires data == Cut(flat, info.Start(idx), info.PieceLen(idx)) && |data| == info.PieceLen(idx)
    ensures info.CheckPiece(sha1, PieceData(idx, 0, data)) <==> Good(info, sha1, flat, idx)
  {
    DigestPlace(info, idx);
    PieceInside(info, idx);
    assert data == PieceBytes(info, flat, idx);
  }

  // ----- how much is missing -----

  /** The bytes still to be downloaded: the lengths of the pieces below `n` that are not owned. */
  function Missing(info: Info, owned: set<nat>, n: nat): int {
    if n == 0 then 0 else Missing(info, owned, n - 1) + if n - 1 in owned then 0 else info.PieceLen(n - 1)
  }

  /** How many of the pieces below `n` are owned. */
  function OwnedBelow(owned: set<nat>, n: nat): (c: nat)
    ensures c <= n
  {
    if n == 0 then 0 else OwnedBelow(owned, n - 1) + if n - 1 in owned then 1 else 0
  }

  lemma {:induction false} OwnedBelowFrame(a: set<nat>, b: set<nat>, n: nat)
    requires forall i: nat :: i < n ==> (i in a <==> i in b)
    ensures OwnedBelow(a, n) == OwnedBelow(b, n)
  {
    if n > 0 {
      OwnedBelowFrame(a, b, n - 1);
    }
  }

  lemma {:induction false} OwnedBelowIsCount(owned: set<nat>, n: nat)
    requires forall i :: i in owned ==> i < n
    ensures OwnedBelow(owned, n) == |owned|
  {
    if n == 0 {
      assert owned == {};
    } else {
      OwnedBelowFrame(owned, owned - {n - 1}, n - 1);
      OwnedBelowIsCount(owned - {n - 1}, n - 1);
    }
  }

  /** Among full pieces, what is missing and what is owned add up. */
  lemma {:induction false} MissingFullPieces(info: Info, owned: set<nat>, n: nat)
    requires n < info.Count()
    ensures Missing(info, owned, n) + info.Start(OwnedBelow(owned, n)) == info.Start(n)
  {
    if n > 0 {
      MissingFullPieces(info, owned, n - 1);
    }
  }

  lemma {:induction false} AllOwned(owned: set<nat>, n: nat)
    requires OwnedBelow(owned, n) == n
    ensures Below(n) <= owned
  {
    if n > 0 {
      AllOwned(owned, n - 1);
    }
  }

  /** In terms of the number of owned pieces, without and with the last one. */
  lemma MissingByCount(info: Info, owned: set<nat>)
    requires info.WellFormed()
    ensures var np := info.Count(); var k := OwnedBelow(owned, np - 1);
            && info.Start(k) + Missing(info, owned, np) == (if np - 1 in owned then info.Start(np - 1) else info.Total())
            && info.Start(k) <= info.Start(np - 1)
            && (k < np - 1 ==> info.Start(k) + info.pieceLength <= info.Start(np - 1))
  {
    var np := info.Count();
    var k := OwnedBelow(owned, np - 1);
    MissingFullPieces(info, owned, np - 1);
    StartMonotonic(info, k, np - 1);
    if k < np - 1 {
      StartMonotonic(info, k + 1, np - 1);
    }
  }

  lemma LastReached(info: Info)
    requires info.WellFormed()
    ensures info.Start(info.Count() - 1) < info.Total() <= info.Start(info.Count() - 1) + info.pieceLength
  {
  }

  lemma StartOfCount(info: Info, k: nat, last: bool, count: nat)
    requires count == if last then k + 1 else k
    ensures info.Start(count) == if last then info.Start(k) + info.pieceLength else info.Start(k)
  {
  }

  lemma CountSplit(owned: set<nat>, n: nat)
    requires n >= 1 && owned <= Below(n)
    ensures |owned| == OwnedBelow(owned, n - 1) + if n - 1 in owned then 1 else 0
  {
    OwnedBelowIsCount(owned, n);
  }

  /** The sums, with `s` and `s'` where the full pieces owned and all full pieces end. */
  lemma CloseSums(total: int, length: int, s: int, s': int, k: nat, n: nat, last: bool, missing: int)
    requires s' < total <= s' + length && s <= s' && k <= n && (k == n ==> s == s') && (k < n ==> s + length <= s')
    requires s + missing == if last then s' else total
    ensures var have := if last then s + length else s; var count := if last then k + 1 else k;
            && count <= n + 1 && have <= total + length
            && (have >= total <==> count == n + 1)
            && (have >= total ==> missing == 0)
            && (have < total ==> total - have <= missing < total - have + length)
  {
  }

  /** Counting whole pieces overstates what is there by less than one piece, and reaches the total only at the end. */
  lemma RemainingIsClose(info: Info, owned: set<nat>)
    requires info.WellFormed() && owned <= Below(info.Count())
    ensures |owned| <= info.Count()
    ensures var have := info.Start(|owned|);
            var missing := Missing(info, owned, info.Count());
            && have <= info.Total() + info.pieceLength
            && (have >= info.Total() <==> |owned| == info.Count())
            && (have >= info.Total() ==> missing == 0)
            && (have < info.Total() ==> info.Total() - have <= missing < info.Total() - have + info.pieceLength)
  {
    CountSplit(owned, info.Count());
    RemainingByCount(info, owned, |owned|);
  }

  lemma RemainingByCount(info: Info, owned: set<nat>, count: nat)
    requires info.WellFormed()
    requires count == OwnedBelow(owned, info.Count() - 1) + if info.Count() - 1 in owned then 1 else 0
    ensures count <= info.Count()
    ensures var have := info.Start(count);
            var missing := Missing(info, owned, info.Count());
            && have <= info.Total() + info.pieceLength
            && (have >= info.Total() <==> count == info.Count())
            && (have >= info.Total() ==> missing == 0)
            && (have < info.Total() ==> info.Total() - have <= missing < info.Total() - have + info.pieceLength)
  {
    var np := info.Count();
    var k := OwnedBelow(owned, np - 1);
    MissingByCount(info, owned);
    LastReached(info);
    CloseSums(info.Total(), info.pieceLength, info.Start(k), info.Start(np - 1), k, np - 1, np - 1 in owned,
              Missing(info, owned, np));
    StartOfCount(info, k, np - 1 in owned, count);
  }

  lemma FullWhenCounted(owned: set<nat>, n: nat)
    requires owned <= Below(n)
    ensures |owned| == n <==> owned == Below(n)
  {
    OwnedBelowIsCount(owned, n);
    if |owned| == n {
      AllOwned(owned, n);
    }
  }

  /** `data` written at `off`, when it fits. */
  function PutAt(s: seq<byte>, off: nat, data: seq<byte>): (r: seq<byte>)
    ensures |r| == |s|
  {
    if off + |data| <= |s| then Splice(s, off, data) else s
  }

  function PathsOf(files: seq<FileInfo>): set<Path> {
    set k | 0 <= k < |files| :: files[k].path
  }

  /** Only the torrent's own files differ. */
  predicate OthersKept(files: seq<FileInfo>, before: Disk, after: Disk) {
    after.Keys == before.Keys && after - PathsOf(files) == before - PathsOf(files)
  }

  /** The first `n` bytes of `p` are written at `off`, and nothing else is changed. */
  predicate HasWritten(files: seq<FileInfo>, before: Disk, after: Disk, p: seq<byte>, off: nat, n: nat) {
    && OnDisk(files, before) && OnDisk(files, after) && OthersKept(files, before, after)
    && n <= |p| && (n > 0 ==> off + n <= SumLengths(files))
    && Flat(files, after) == PutAt(Flat(files, before), off, p[..n])
  }

  // ----- a write, file by file -----

  /** What one write of a driver put down: from position `pos` of the concatenation on, in the file that ends at `end`. */
  datatype Seg = Seg(pos: nat, data: seq<byte>, end: nat)

  /** The segments written one after the other. */
  function Laid(s: seq<byte>, segs: seq<Seg>): (r: seq<byte>)
    ensures |r| == |s|
  {
    if segs == [] then s else PutAt(Laid(s, segs[..|segs| - 1]), segs[|segs| - 1].pos, segs[|segs| - 1].data)
  }

  function Arrived(segs: seq<Seg>): seq<byte> {
    if segs == [] then [] else Arrived(segs[..|segs| - 1]) + segs[|segs| - 1].data
  }

  /** The segment lies in one file, up to its end. */
  predicate Full(seg: Seg) {
    seg.pos + |seg.data| == seg.end
  }

  /** Every segment but the last fills its file. */
  predicate Filled(segs: seq<Seg>) {
    forall j :: 0 <= j < |segs| - 1 ==> Full(segs[j])
  }

  predicate AllFull(segs: seq<Seg>) {
    forall j :: 0 <= j < |segs| ==> Full(segs[j])
  }

  /** Where the next segment starts. */
  function Reached(off: nat, segs: seq<Seg>): nat {
    if segs == [] then off else segs[|segs| - 1].end
  }

  predicate InFile(files: seq<FileInfo>, k: nat, seg: Seg) {
    && k < |files| && SumLengths(files[..k]) <= seg.pos < seg.end && seg.end == SumLengths(files[..k + 1])
    && seg.pos + |seg.data| <= seg.end
  }

  ghost predicate InOneFile(files: seq<FileInfo>, seg: Seg) {
    exists k: nat :: InFile(files, k, seg)
  }

  /** The first segment is at `off`, and each other one starts where the file of the one before ends. */
  ghost predicate Placed(files: seq<FileInfo>, off: nat, segs: seq<Seg>) {
    && (forall j :: 0 <= j < |segs| ==> InOneFile(files, segs[j]))
    && (segs != [] ==> segs[0].pos == off)
    && (forall j :: 0 < j < |segs| ==> segs[j].pos == segs[j - 1].end)
  }

  /** The first `n` bytes of `p` are written as the segments `segs`, and nothing else is changed. */
  ghost predicate WrittenAs(files: seq<FileInfo>, before: Disk, after: Disk, p: seq<byte>, off: nat, segs: seq<Seg>, n: nat) {
    && OnDisk(files, before) && DiskIs(files, before, after, Laid(Flat(files, before), segs))
    && Placed(files, off, segs) && n <= |p| && Arrived(segs) == p[..n]
  }

  /** The torrent's files hold `flat` now, and no other file has changed. */
  ghost predicate DiskIs(files: seq<FileInfo>, before: Disk, after: Disk, flat: seq<byte>) {
    OnDisk(files, after) && OthersKept(files, before, after) && Flat(files, after) == flat
  }

  lemma LaidMore(s: seq<byte>, segs: seq<Seg>, seg: Seg)
    ensures Laid(s, segs + [seg]) == PutAt(Laid(s, segs), seg.pos, seg.data)
    ensures Arrived(segs + [seg]) == Arrived(segs) + seg.data
  {
    assert (segs + [seg])[..|segs|] == segs;
  }

  lemma PlacedMore(files: seq<FileInfo>, off: nat, segs: seq<Seg>, seg: Seg)
    requires Placed(files, off, segs) && InOneFile(files, seg)
    requires seg.pos == Reached(off, segs)
    ensures Placed(files, off, segs + [seg])
  {
    var more := segs + [seg];
    forall j | 0 <= j < |more|
      ensures InOneFile(files, more[j]) && (j > 0 ==> more[j].pos == more[j - 1].end)
    {
      if j < |segs| {
        assert more[j] == segs[j];
      }
    }
  }

  /** One file of the torrent changes on disk. */
  lemma OthersStep(files: seq<FileInfo>, first: Disk, disk: Disk, k: nat, off: nat, chunk: seq<byte>)
    requires OnDisk(files, disk) && OthersKept(files, first, disk) && k < |files| && off + |chunk| <= files[k].length
    ensures OthersKept(files, first, Written(disk, files[k].path, off, chunk))
  {
    var disk' := Written(disk, files[k].path, off, chunk);
    assert files[k].path in PathsOf(files);
    assert disk' - PathsOf(files) == disk - PathsOf(files);
  }

  lemma TakeMore(p: seq<byte>, n: nat, n1: nat)
    requires n + n1 <= |p|
    ensures p[..n + n1] == p[..n] + p[n..][..n1] && p[n..][n1..] == p[n + n1..]
  {
  }

  lemma SegInFile(files: seq<FileInfo>, k: nat, at: nat, chunk: seq<byte>)
    requires k < |files| && at < files[k].length && at + |chunk| <= files[k].length
    ensures InOneFile(files, Seg(SumLengths(files[..k]) + at, chunk, SumLengths(files[..k + 1])))
  {
    SumStep(files, k);
    assert InFile(files, k, Seg(SumLengths(files[..k]) + at, chunk, SumLengths(files[..k + 1])));
  }

  /** What one more file written to does to the disk. */
  lemma DiskStep(files: seq<FileInfo>, first: Disk, disk: Disk, segs: seq<Seg>, k: nat, at: nat, chunk: seq<byte>, seg: Seg)
    requires DistinctPaths(files) && OnDisk(files, first) && OnDisk(files, disk)
    requires DiskIs(files, first, disk, Laid(Flat(files, first), segs))
    requires k < |files| && at + |chunk| <= files[k].length
    requires seg.pos == SumLengths(files[..k]) + at && seg.data == chunk
    ensures DiskIs(files, first, Written(disk, files[k].path, at, chunk), Laid(Flat(files, first), segs + [seg]))
  {
    FlatAfterWrite(files, disk, k, at, chunk);
    OthersStep(files, first, disk, k, at, chunk);
    LaidMore(Flat(files, first), segs, seg);
  }

  lemma ArrivedMore(p: seq<byte>, segs: seq<Seg>, n: nat, seg: Seg)
    requires n + |seg.data| <= |p| && Arrived(segs) == p[..n] && seg.data == p[n..][..|seg.data|]
    ensures Arrived(segs + [seg]) == p[..n + |seg.data|]
  {
    TakeMore(p, n, |seg.data|);
    LaidMore([], segs, seg);
  }

  /** One more file is written to. */
  lemma SegStep(files: seq<FileInfo>, first: Disk, disk: Disk, p: seq<byte>, off: nat, segs: seq<Seg>, n: nat,
                k: nat, at: nat, chunk: seq<byte>, seg: Seg)
    requires DistinctPaths(files) && WrittenAs(files, first, disk, p, off, segs, n) && k < |files|
    requires SumLengths(files[..k]) + at == Reached(off, segs) && at < files[k].length && at + |chunk| <= files[k].length
    requires n + |chunk| <= |p| && chunk == p[n..][..|chunk|]
    requires seg == Seg(SumLengths(files[..k]) + at, chunk, SumLengths(files[..k + 1]))
    ensures WrittenAs(files, first, Written(disk, files[k].path, at, chunk), p, off, segs + [seg], n + |chunk|)
  {
    SegInFile(files, k, at, chunk);
    PlacedMore(files, off, segs, seg);
    ArrivedMore(p, segs, n, seg);
    DiskStep(files, first, disk, segs, k, at, chunk, seg);
  }

  lemma {:induction false} SumMonotonic(files: seq<FileInfo>, k: nat)
    requires k <= |files|
    ensures SumLengths(files[..k]) <= SumLengths(files)
    decreases |files| - k
  {
    if k < |files| {
      SumStep(files, k);
      SumMonotonic(files, k + 1);
    } else {
      assert files[..k] == files;
    }
  }

  lemma InTheFiles(files: seq<FileInfo>, seg: Seg)
    requires InOneFile(files, seg)
    ensures seg.pos + |seg.data| <= seg.end <= SumLengths(files)
  {
    var k: nat :| InFile(files, k, seg);
    SumMonotonic(files, k + 1);
  }

  lemma PlacedFront(files: seq<FileInfo>, off: nat, segs: seq<Seg>)
    requires Placed(files, off, segs) && Filled(segs) && segs != []
    ensures var front, last := segs[..|segs| - 1], segs[|segs| - 1];
            && Placed(files, off, front) && Filled(front) && InOneFile(files, last)
            && last.pos == if front == [] then off else front[|front| - 1].pos + |front[|front| - 1].data|
  {
    assert |segs| > 1 ==> Full(segs[|segs| - 2]);
  }

  /** Segments that fill their files lie end to end. */
  lemma {:induction false} LaidIsPut(files: seq<FileInfo>, s: seq<byte>, off: nat, segs: seq<Seg>)
    requires Placed(files, off, segs) && Filled(segs) && |s| == SumLengths(files)
    ensures segs != [] ==> segs[|segs| - 1].pos + |segs[|segs| - 1].data| == off + |Arrived(segs)| <= |s|
    ensures Laid(s, segs) == PutAt(s, off, Arrived(segs))
  {
    if segs != [] {
      var front, last := segs[..|segs| - 1], segs[|segs| - 1];
      PlacedFront(files, off, segs);
      LaidIsPut(files, s, off, front);
      InTheFiles(files, last);
      PutMore(s, off, Arrived(front), last.data);
    }
  }

  lemma PutMore(s: seq<byte>, off: nat, a: seq<byte>, b: seq<byte>)
    requires off + |a| + |b| <= |s|
    ensures PutAt(PutAt(s, off, a), off + |a|, b) == PutAt(s, off, a + b)
  {
  }

  /** A write is the plain one if every file but the last it reaches is written to its end. */
  lemma FilledIsWritten(files: seq<FileInfo>, before: Disk, after: Disk, p: seq<byte>, off: nat, segs: seq<Seg>, n: nat)
    requires WrittenAs(files, before, after, p, off, segs, n)
    ensures Filled(segs) ==> HasWritten(files, before, after, p, off, n)
    ensures AllFull(segs) ==> Reached(off, segs) == off + n
  {
    if Filled(segs) {
      LaidIsPut(files, Flat(files, before), off, segs);
    }
  }

  lemma {:induction false} InOrder(files: seq<FileInfo>, off: nat, segs: seq<Seg>, i: nat, j: nat)
    requires Placed(files, off, segs) && i < j < |segs|
    ensures segs[i].end <= segs[j].pos
  {
    if i < j - 1 {
      InOrder(files, off, segs, i, j - 1);
      assert InOneFile(files, segs[j - 1]);
    }
  }

  lemma {:induction false} LaidFrame(s: seq<byte>, segs: seq<Seg>, x: nat)
    requires x < |s| && forall i :: 0 <= i < |segs| ==> x < segs[i].pos || segs[i].pos + |segs[i].data| <= x
    ensures Laid(s, segs)[x] == s[x]
  {
    if segs != [] {
      LaidFrame(s, segs[..|segs| - 1], x);
    }
  }

  lemma OffTheGap(files: seq<FileInfo>, off: nat, segs: seq<Seg>, j: nat, x: nat)
    requires Placed(files, off, segs) && j < |segs| && segs[j].pos + |segs[j].data| <= x < segs[j].end
    ensures forall i :: 0 <= i < |segs| ==> x < segs[i].pos || segs[i].pos + |segs[i].data| <= x
  {
    forall i | 0 <= i < |segs|
      ensures x < segs[i].pos || segs[i].pos + |segs[i].data| <= x
    {
      assert InOneFile(files, segs[i]);
      if i < j {
        InOrder(files, off, segs, i, j);
      } else if j < i {
        InOrder(files, off, segs, j, i);
      }
    }
  }

  /** The segments up to the first short one lie end to end. */
  lemma GapStart(files: seq<FileInfo>, s: seq<byte>, off: nat, segs: seq<Seg>, j: nat)
    requires Placed(files, off, segs) && |s| == SumLengths(files)
    requires j < |segs| && forall i :: 0 <= i < j ==> Full(segs[i])
    ensures segs[j].pos + |segs[j].data| == off + |Arrived(segs[..j + 1])|
    ensures segs[j].pos + |segs[j].data| <= segs[j].end <= |s|
  {
    LaidIsPut(files, s, off, segs[..j + 1]);
    assert InOneFile(files, segs[j]);
    InTheFiles(files, segs[j]);
  }

  lemma NotWritten(files: seq<FileInfo>, before: Disk, after: Disk, p: seq<byte>, off: nat, n: nat, m: nat)
    requires OnDisk(files, before) && OnDisk(files, after) && m < n <= |p| && off + m < SumLengths(files)
    requires Flat(files, after)[off + m] == Flat(files, before)[off + m] != p[m]
    ensures !HasWritten(files, before, after, p, off, n)
  {
    assert p[..n][m] == p[m];
  }

  /**
   * A file that is written short, with more of the data written behind it, leaves a gap: the byte due there stays as it
   * was. So the write is not the plain one, unless the data agrees with what was there before.
   */
  lemma ShortLeavesGap(files: seq<FileInfo>, before: Disk, after: Disk, p: seq<byte>, off: nat, segs: seq<Seg>, n: nat, j: nat)
    requires WrittenAs(files, before, after, p, off, segs, n)
    requires j < |segs| && !Full(segs[j]) && forall i :: 0 <= i < j ==> Full(segs[i])
    ensures var m := |Arrived(segs[..j + 1])|;
            && off + m < |Flat(files, before)| && Flat(files, after)[off + m] == Flat(files, before)[off + m]
            && (m < n && p[m] != Flat(files, before)[off + m] ==> !HasWritten(files, before, after, p, off, n))
  {
    var m := |Arrived(segs[..j + 1])|;
    GapStart(files, Flat(files, before), off, segs, j);
    OffTheGap(files, off, segs, j, off + m);
    LaidFrame(Flat(files, before), segs, off + m);
    if m < n && p[m] != Flat(files, before)[off + m] {
      NotWritten(files, before, after, p, off, n, m);
    }
  }

  const TWO_FILES := [FileInfo(1, ["a"]), FileInfo(1, ["b"])]
  const ZEROED: Disk := map[["a"] := [0], ["b"] := [0]]

  lemma TwoFiles()
    ensures OnDisk(TWO_FILES, ZEROED) && DistinctPaths(TWO_FILES)
    ensures Flat(TWO_FILES, ZEROED) == [0, 0] && SumLengths(TWO_FILES[..1]) == 1 && SumLengths(TWO_FILES[..2]) == 2
  {
    assert ["a"] != ["b"] by {
      assert ["a"][0][0] == 'a' && ["b"][0][0] == 'b';
    }
    assert TWO_FILES[..1] == [FileInfo(1, ["a"])] && TWO_FILES[..2] == TWO_FILES;
    FileAt(TWO_FILES, ZEROED, 0);
    FileAt(TWO_FILES, ZEROED, 1);
    var s := Flat(TWO_FILES, ZEROED);
    assert s[0..1] == [0] && s[1..2] == [0] && s == s[0..1] + s[1..2];
  }

  lemma NothingInFirst()
    ensures WrittenAs(TWO_FILES, ZEROED, ZEROED, [1], 0, [Seg(0, [], 1)], 0)
  {
    TwoFiles();
    assert Splice([0 as byte], 0, []) == [0];
    assert Written(ZEROED, ["a"], 0, []) == ZEROED;
    assert WrittenAs(TWO_FILES, ZEROED, ZEROED, [1], 0, [], 0);
    SegStep(TWO_FILES, ZEROED, ZEROED, [1], 0, [], 0, 0, 0, [], Seg(0, [], 1));
    assert [] + [Seg(0, [], 1)] == [Seg(0, [], 1)];
  }

  lemma SpilledAs()
    ensures WrittenAs(TWO_FILES, ZEROED, ZEROED[["b"] := [1]], [1], 0, [Seg(0, [], 1), Seg(1, [1], 2)], 1)
  {
    TwoFiles();
    NothingInFirst();
    assert Splice([0 as byte], 0, [1]) == [1];
    assert Written(ZEROED, ["b"], 0, [1]) == ZEROED[["b"] := [1]];
    SegStep(TWO_FILES, ZEROED, ZEROED, [1], 0, [Seg(0, [], 1)], 0, 1, 0, [1], Seg(1, [1], 2));
    assert [Seg(0, [], 1)] + [Seg(1, [1], 2)] == [Seg(0, [], 1), Seg(1, [1], 2)];
  }

  /**
   * Two files of one byte, and one byte to write at the front. The driver writes nothing to the first file and reports
   * an unexpected end of file: the byte lands in the second file, which the write was not to touch.
   */
  lemma ShortWriteSpills()
    ensures var after := ZEROED[["b"] := [1]];
            && WrittenAs(TWO_FILES, ZEROED, after, [1], 0, [Seg(0, [], 1), Seg(1, [1], 2)], 1)
            && !HasWritten(TWO_FILES, ZEROED, after, [1], 0, 1)
  {
    var segs := [Seg(0, [], 1), Seg(1, [1], 2)];
    TwoFiles();
    SpilledAs();
    assert segs[..1] == [segs[0]] && Arrived([segs[0]]) == [];
    ShortLeavesGap(TWO_FILES, ZEROED, ZEROED[["b"] := [1]], [1], 0, segs, 1, 0);
  }

  lemma CutOfPut(s: seq<byte>, off: nat, data: seq<byte>)
    requires off + |data| <= |s|
    ensures Cut(PutAt(s, off, data), off, |data|) == data
  {
  }

  lemma CutFits(s: seq<byte>, off: nat, n: nat)
    requires |Cut(s, off, n)| == n && off < |s|
    ensures off + n <= |s|
  {
  }

  lemma SliceOfSlice(s: seq<byte>, start: nat, part: seq<byte>, at: nat, n: nat)
    requires start + |part| <= |s| && s[start..start + |part|] == part && at + n <= |part|
    ensures part[at..at + n] == s[start + at..start + at + n]
  {
    var x, y := part[at..at + n], s[start + at..start + at + n];
    forall j | 0 <= j < |x|
      ensures x[j] == y[j]
    {
      assert part[at + j] == s[start..start + |part|][at + j];
    }
  }

  lemma ReadMore(flat: seq<byte>, off: nat, n: nat, start: nat, part: seq<byte>, at: nat, n1: nat)
    requires start + |part| <= |flat| && flat[start..start + |part|] == part
    requires start + at == off + n && at + n1 <= |part|
    ensures off + n + n1 <= |flat| && Cut(flat, off, n) + part[at..at + n1] == Cut(flat, off, n + n1)
  {
    SliceOfSlice(flat, start, part, at, n1);
    CutAppend(flat, off, n, n1);
  }

  lemma SliceAppend(s: seq<byte>, off: nat, n: nat, n1: nat)
    requires off + n + n1 <= |s|
    ensures s[off..off + n] + s[off + n..off + n + n1] == s[off..off + n + n1]
  {
  }

  lemma CutAppend(s: seq<byte>, off: nat, n: nat, n1: nat)
    requires off + n + n1 <= |s|
    ensures Cut(s, off, n) + s[off + n..off + n + n1] == Cut(s, off, n + n1)
  {
  }
}
