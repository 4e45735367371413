# The download engine of XD, modelled and proved

XD downloads a torrent by asking many peers for 16 KiB blocks, writing each block into a set of files that together form
one byte space, and marking a piece as owned only after its SHA-1 digest matches. This project models the code that does
that and proves what it keeps true, over every run of the protocol, for any number of peers, any torrent and any contents.
A second part models the INI reader and printer of the configuration files.

## How it is built

The lower layers are modelled as the source has them, with classes, arrays and loops:

- `Bitfields`: packed, most-significant-bit-first bit fields that stand for sets of indices; rarest-first choice.
- `MetaInfo`, `Blocks`: the 32- and 64-bit arithmetic of pieces and blocks.
- `IO`, `Wire`: messages with a length prefix, and the reader that takes them off a stream through one reused buffer.
- `Storage`: files read and written as one byte space; `VerifyPiece`, `VerifyAll`, `DownloadRemaining`.
- `MkTorrent`: making the metainfo of a file.

The protocol comes twice. `Protocol` describes it on values: a state holds every peer's request list and message channel,
the tracker's cached pieces, the stored bytes and the owned bits; a `Step` is one method call of the source (a message
received, a tick, an expiry, a close, a message written); `Next` says what a step does and `Enabled` what the world may do
(which block arrives, whether a write fails after a part of it, what a verification finds, which of the rarest pieces the
picker names). `Correspondence`, `Assembly` and `Invariants` show that every step keeps one invariant, `Inv`; `Safety`,
`Progress`, `Interest` and `Starvation` draw the conclusions for whole runs, and so do `Traffic`, `Accounts` and `Connections`
for what peers are sent and what is kept of them: they say what a step does in terms of messages, lists and flags, without
the functions that make it up. `PieceTracking`, `PeerConnections` and `Swarm`
are the classes of the source, with cached pieces, bit fields and connections as objects in the heap that are updated in
place. Each step method of `Swarm.Torrent` keeps `Ready()` (the objects are in order and `Inv` holds) and its new `Model()` is
exactly `Next` of the old one, so what is said of runs holds of runs of these methods. `Swarm.Torrent.Inbound` takes the bytes
of a message to its step. With a driver whose reads succeed none of their steps is a failed read, which is what
`Safety.IntegrityOverRuns` asks of a run.

Ghost parts record what the program does not store: the data accepted for each block of a cached piece, the log of
everything put into a send channel and what happened to the interest messages (`Lapses`), the pieces whose ownership bit no
successful read backs (`unchecked`), and the largest piece window ever set.

`ConfigText`, `ConfigSections`, `ConfigRoundTrip` and `ConfigParser` are the INI part: what one line means, how sections are
grouped, when saving and reading back gives the same configuration, and the classes of the source.

## What was found

- `accept` takes every block that `nextRequest` can ask for, and one more: the block at offset 2^32 - 16384, whose 32-bit
  end wraps to 0 (`Blocks.AcceptIsBlock`, `Blocks.AcceptWraps`). No request ever asks for it, so the protocol is not
  affected.
- The piece asked for last is visited again even after it was completed and forgotten, so an owned piece is requested again,
  from its first block on, and nothing bounds how often: after a peer completes the piece it was asked for last, the next
  request to it is for that piece whatever the picker says (`Progress.RequestedAgain`). `Progress.AsksOwnedIffLastOwned` says
  exactly when a request is for an owned piece; a piece that the picker names never is (`Progress.PickIsUntouched`).
- What an owned piece is asked for again is written over its stored bytes while its bit stays set
  (`Safety.OverwrittenWhileOwned`). From the first such block on, which may be anything, the piece is good only if the bytes
  with the block over them still hash to the digest (`Progress.OwnedNotGood`); the bit is right again once the piece is
  complete and verified (`Safety.IntegrityOverRuns`).
- For the same reason the tracker moves on from a piece only while a request for it is outstanding
  (`Progress.LeavesLastWhilePending`). With any number of peers and any windows, a peer that is asked for another block only
  while nothing of its last piece is outstanding is asked for that one piece for ever (`Progress.StaysOnPiece`). It is so with
  a single peer while the piece window is 1 (`Progress.LonePeerIsStuck`), and with any window when a peer answers before the
  next tick: for every torrent of which two pieces are missing there are runs of any length from the start in which an honest
  peer that has everything is asked for the blocks of one piece in order, round and round, and never for the other
  (`Starvation.Starves`).
- The search of `nextRequest` counts offsets in 32 bits. It comes to an end if and only if the piece is no longer than
  2^32 - 16384 bytes or has a free block; otherwise it goes round for ever (`Blocks.SearchEndsExactly`).
- `AND` is set intersection only if the other operand's bytes cover its length (`Bitfields.AndNeedsFullData`). A peer whose
  bitfield message is too short therefore counts as having every piece its bytes do not reach (`Interest.InterestIsExact`).
- `mkTorrentSingle` fails for every file whose length is a multiple of the piece length: the read after the last full piece
  reports end of file, and that is returned as an error (`MkTorrent.MkTorrentSingle`).
- `WriteAt` drops what does not fit behind the end of the torrent without an error, and `VerifyPiece` leaves the bit alone
  when the piece cannot be read. Both are in the contracts.
- If a driver stops short inside a file and reports an unexpected end of file, `WriteAt` goes on with the rest of the data at
  the start of the next file. What it writes is described for every driver (`Storage.WrittenAs`); it is the plain write if
  every file but the last one reached is written to its end (`Storage.FilledIsWritten`) and, unless the bytes happen to
  agree, only then (`Storage.ShortLeavesGap`). It can change bytes it was not given (`Storage.ShortWriteSpills`).
- A piece message without data is not delivered. A have message that is not nine bytes long reads as piece 0
  (`Wire.HaveIsExact`, `Wire.EmptyHave`), and then sets bit 0 of the peer's bitfield.
- When the send channel is full, an interest message is lost while the peer is taken to have been told. In any run, the peer
  knows what we believe it was told if and only if the channel had room when that last changed, or the peer had it wrong
  before (`Interest.KnowsIffRoom`); with room at every change it knows all along (`Interest.RoomKeepsKnowing`). For every
  torrent of which a piece is missing there is a run from the start in which the peer is never told (`Interest.NeverTold`).
- Reading a configuration and saving it does not always give a text that reads back the same: the line `k:=` reads as key
  `k:` without a value, which is printed as `k:` and then reads as `k` (`ConfigText.ColonIsLost`).
  `ConfigRoundTrip.SaveThenRead` says exactly which configurations survive.

## What is assumed

- Every method of the source is one atomic step. The real locks are finer.
- A torrent is well formed: the piece length is at least 1, the pieces cover the files and the last one is not empty, the
  total is at most 2^63 - 1, the digests take fewer than 2^32 bytes. For the protocol the piece length is also at most
  2^32 - 16384 (`Env.Ok`), so that `nextRequest` comes to an end. File paths are distinct and files have their full length. A
  piece's data and a message are shorter than 2^32 bytes, and there are fewer than 2^32 - 1 peers.
- A piece index far past the end makes the 64-bit offset of a read or write negative (`MetaInfo.OffsetIsExact`). There the
  driver of the first file fails, unless nothing is to be read. The source computes the room left in that file before; if that
  wraps as well, it would stop with a slice error instead, which is taken for the same failure here.
- A driver's read may return any positive number of the bytes asked for, its write may stop after any part of the data; a
  driver marked `reliable` never fails, one marked `orderly` never reports a write that stopped short as an unexpected end of
  file. Receiving a block is modelled over a driver that is one or the other (`WritesWhole`).
- SHA-1 is any function to 20 bytes. Time is a nondeterministic choice: any cached piece may expire at any moment, and
  `due` says whether the pause after a fruitless request is over.
- Peers are told apart by their remote address, and there is one connection to an address at a time. `onNewPeer` turns an
  inbound connection from a known address away; outbound, `DialPeer` looks for an outbound connection only, and before a
  dial that blocks, so that the assumption goes beyond the code in that direction.
- `handlePieceData` announces a piece through a callback before it forgets it. Here the announcement follows; it touches no
  request, so the order makes no difference.
- In `configparser`, a text is a string whose characters stand for bytes.

## Model

| member | source | states |
|---|---|---|
| Bitfields.MaskIsShift | lib/bittorrent/bitfield.go:234-243 | the masks by bit position are the shifts the source writes: bit `i` is bit `7 - i % 8` of its byte |
| Bitfields.BitPlace | lib/bittorrent/bitfield.go:208-243 | bit `i` is the one `7 - i % 8` places from the right in byte `i / 8` |
| Bitfields.MembersAfterUpdate | lib/bittorrent/bitfield.go:186-205 | setting or clearing one bit of one byte adds or removes exactly one index of the set |
| Bitfields.MembersAfterAnd | lib/bittorrent/bitfield.go:94-105 | byte-wise AND computes `Meet`: the common members, and the receiver's members past the other's last byte |
| Bitfields.MembersAfterOr | lib/bittorrent/bitfield.go:108-130 | byte-wise OR adds the other's members that fall inside the receiver's bytes |
| Bitfields.MembersAfterXor | lib/bittorrent/bitfield.go:133-144 | byte-wise XOR is symmetric difference with the other's members inside the receiver's bytes |
| Bitfields.AndIsIntersection | lib/bittorrent/bitfield.go:94-105 | AND is set intersection if and only if the receiver has no member past the end of the other's bytes |
| Bitfields.AndNeedsFullData | lib/bittorrent/bitfield.go:94-105 | AND with `b` is intersection for every receiver if and only if `b`'s bytes cover its length |
| Bitfields.AndWithShortData | lib/bittorrent/bitfield.go:94-105 | an input for which AND is not intersection |
| Bitfields.Bitfield.constructor | lib/bittorrent/bitfield.go:23-33 | without a value no bit is set and there is room for every bit; otherwise the value's bytes are taken |
| Bitfields.Bitfield.Copy | lib/bittorrent/bitfield.go:36-38 | a fresh bit field with the same length and bytes |
| Bitfields.Bitfield.CopyFrom | lib/bittorrent/bitfield.go:41-45 | takes over the other's value |
| Bitfields.Bitfield.Zero | lib/bittorrent/bitfield.go:80-82 | the same length, no members |
| Bitfields.Bitfield.Set | lib/bittorrent/bitfield.go:197-205 | adds exactly the index, if it is inside the length and the bytes; otherwise changes nothing |
| Bitfields.Bitfield.Unset | lib/bittorrent/bitfield.go:186-194 | removes exactly the index |
| Bitfields.Bitfield.Inverted | lib/bittorrent/bitfield.go:85-91 | a fresh bit field with the complement as its members; flipped padding bits are never members |
| Bitfields.Bitfield.AND | lib/bittorrent/bitfield.go:94-105 | null exactly for different lengths; otherwise `Meet`, in a fresh bit field |
| Bitfields.Bitfield.OR | lib/bittorrent/bitfield.go:119-130 | null exactly for different lengths; otherwise the union with what fits |
| Bitfields.Bitfield.SelfOR | lib/bittorrent/bitfield.go:108-116 | the same union in place, also when both are one object; nothing for different lengths |
| Bitfields.Bitfield.XOR | lib/bittorrent/bitfield.go:133-144 | null exactly for different lengths; otherwise the symmetric difference with what fits |
| Bitfields.Bitfield.CountSet | lib/bittorrent/bitfield.go:208-218 | the cardinality of the set |
| Bitfields.Bitfield.AnySet | lib/bittorrent/bitfield.go:221-231 | true if and only if the set is not empty |
| Bitfields.Bitfield.Completed | lib/bittorrent/bitfield.go:246-256 | true if and only if every index below the length is a member |
| Bitfields.Bitfield.MarshalList | lib/bittorrent/bitfield.go:64-77 | the list form has one 0 or 1 per bit, 1 exactly for members |
| Bitfields.Bitfield.UnmarshalList | lib/bittorrent/bitfield.go:48-61 | the length of the list, and its non-zero positions as members |
| Bitfields.ListRoundTrip | lib/bittorrent/bitfield.go:48-77 | writing the list and reading it back keeps the length and every bit |
| Bitfields.Bitfield.CountAll | lib/bittorrent/bitfield.go:261-273 | the counting loops: for every index, in how many of the other bit fields it is set |
| Bitfields.Bitfield.LeastCommon | lib/bittorrent/bitfield.go:275-286 | the choosing loop, in any order of the map: a least count among own, not excluded indices; none only if there are none |
| Bitfields.Bitfield.FindRarest | lib/bittorrent/bitfield.go:261-288 | a candidate that is rarest in the other bit fields, or none if and only if there is no candidate |
| MetaInfo.Info.TotalSize | lib/metainfo/metainfo.go:113-122 | the sum of the file lengths modulo 2^64, or the length of the single file |
| MetaInfo.WellFormedFacts | lib/metainfo/metainfo.go:83-122 | for a well-formed torrent `NumPieces` and `TotalSize` do not wrap |
| MetaInfo.LengthOfPieceIsExact | lib/metainfo/metainfo.go:99-110 | the 32- and 64-bit expression of `LengthOfPiece` is the length of the piece's share of the torrent |
| MetaInfo.OffsetIsExact | lib/storage/fs.go:327-330 | the 64-bit offset of a block, for any index, is exact, or negative where it would pass 2^63 - 1: it never wraps back into the torrent |
| MetaInfo.PieceInside | lib/metainfo/metainfo.go:99-110 | every piece has between one byte and a full piece, and lies inside the torrent |
| MetaInfo.PiecesTile | lib/metainfo/metainfo.go:99-122 | the lengths of the first `n` pieces add up to the start of piece `n`, and all of them to the total |
| MetaInfo.PiecesDisjoint | lib/metainfo/metainfo.go:99-110 | two pieces share no byte |
| MetaInfo.ByteInOnePiece | lib/metainfo/metainfo.go:99-110 | every byte of the torrent lies in exactly one piece |
| MetaInfo.BlocksTile | lib/bittorrent/swarm/piece.go:155-173 | the blocks counted by `newPiece` partition the piece: each byte lies in exactly the block of its offset |
| IO.Reader.ReadFull | lib/common/wire.go:119-139 | as much of the stream as fits is taken off it and copied; Ok, end of file or unexpected end of file by how much came |
| Wire.NewWireMessage | lib/common/wire.go:93-113 | the bytes built by the two loops: the length of what follows in four bytes, the most significant one first, then the id, then the parts end to end |
| Wire.NumberBytes | lib/common/wire.go:105-105 | the four bytes of a number, the most significant one first |
| Wire.BytesNumber | lib/common/wire.go:123-123 | the number that four bytes are read as, the most significant one first |
| Wire.EncodedBytes | lib/common/wire.go:171-233 | the bytes of a request, a cancel, a have and a piece message: length, id 6, 8, 4 or 7, and the fields in order |
| Wire.FrameParts | lib/common/wire.go:93-168 | every built message has a prefix equal to the bytes that follow, is not a keep-alive, and gives back its id and body |
| Wire.FrameOfParts | lib/common/wire.go:143-168 | every whole message but a keep-alive is the one made of its fifth byte as id and what follows as body |
| Wire.RequestRoundTrip | lib/common/wire.go:179-215 | every request survives encoding and decoding, and is neither a piece nor a cancel |
| Wire.PieceRoundTrip | lib/common/wire.go:171-201 | a piece survives encoding and decoding if and only if it has data; without data it is not delivered |
| Wire.RequestIsExact | lib/common/wire.go:204-215 | a whole message reads as a request if and only if it is the message made for that request |
| Wire.PieceIsExact | lib/common/wire.go:188-201 | a whole message reads as a piece if and only if it is the message made for that piece and has data |
| Wire.HaveRoundTrip | lib/common/wire.go:218-233 | every have message gives back its index |
| Wire.HaveIsExact | lib/common/wire.go:218-227 | a framed have message is the one made for the index it reads as if and only if it is nine bytes long; any other reads as piece 0 |
| Wire.EmptyHave | lib/common/wire.go:218-227 | a have message without an index, which reads as piece 0 |
| Wire.ReadOne | lib/common/wire.go:119-139 | one turn: a whole message is handed over unless it is empty or oversized, and the stream stays aligned behind it; a stale header in the buffer never makes a message |
| Wire.ReadWireMessages | lib/common/wire.go:119-139 | on any stream, through one buffer of the source's size and without leaving it, delivers exactly `Deliver` of the stream, then fails; every message delivered is whole, by the number in its first four bytes, and has a body of 1 to 32768 bytes |
| Wire.DeliversWholeMessages | lib/common/wire.go:119-139 | for any messages followed by a cut one: exactly those with a body of 1 to 32768 bytes, in order |
| Wire.DeliverableSizes | lib/common/wire.go:115-127 | the sizes that get through are exactly bodies of 1 to 32768 bytes, so every piece message with up to 16384 bytes of data does |
| Wire.BlocksArrive | lib/common/wire.go:93-201 | from end to end: any blocks of 1 to 16384 bytes, encoded one after the other, are exactly the blocks read |
| Wire.DeliveryStopsAtFailure | lib/common/wire.go:119-139 | delivered messages are whole and in size; a failing handler ends the delivery with the message it failed on |
| Storage.FileAt | lib/storage/fs.go:160-191 | every file is its own stretch of the concatenation |
| Storage.ByteOfFile | lib/metainfo/metainfo.go:52-64 | the files in the order of the torrent's list make up its bytes: byte `y` of file `k` is byte `y` plus the lengths of the files before it; a single file is all of them |
| Storage.EveryByteLies | lib/metainfo/metainfo.go:52-64 | every byte of the torrent is in some file |
| Storage.FlatAfterWrite | lib/storage/fs.go:193-228 | a write inside one file is a write at the corresponding place of the concatenation, and nowhere else |
| Storage.FsTorrent.ReadFileAt | lib/storage/fs.go:134-158 | a stretch of this file, not past its end nor the buffer's; all of it from a reliable driver |
| Storage.FsTorrent.ReadAt | lib/storage/fs.go:160-191 | over any list of files and for any offset: the slice of the concatenation, byte for byte what stands in the files of the torrent's list, and Ok exactly when the buffer is full; from a reliable driver exactly when it all lies inside; at a negative offset nothing, and an error unless nothing is asked for |
| Storage.FsTorrent.WriteAt | lib/storage/fs.go:193-228 | for any driver and offset: which stretches of the concatenation are written, each in one file and from where the file before ends, with which part of the data, and that nothing else changes; for one that writes whole files or fails, a prefix of the data at its place, byte for byte in the files of the torrent's list, and without an error all of it up to the end of the torrent; nothing at a negative offset |
| Storage.FilledIsWritten | lib/storage/fs.go:206-225 | the stretches are one plain write if every file but the last one reached is written to its end |
| Storage.ShortLeavesGap | lib/storage/fs.go:206-225 | a file written short leaves a gap: the byte due there keeps its old value, so the write is not the plain one when they differ |
| Storage.ShortWriteSpills | lib/storage/fs.go:212-224 | two files and one byte to write: it lands in a file it was not meant for |
| Storage.FsTorrent.ReadAfterWrite | lib/storage/fs.go:160-228 | what was written is read back, across any file boundaries |
| Storage.FsTorrent.GetPiece | lib/storage/fs.go:327-352 | for any request: the bytes asked for, or an error; no error from a reliable driver when they lie inside |
| Storage.FsTorrent.PutChunk | lib/storage/fs.go:406-435 | for any index and offset: writes as `WriteAt` does at the block's place, and nothing where the 64-bit offset is negative; with a driver that writes whole files or fails a prefix of the data, and all of it when there is no error and it fits |
| Storage.FsTorrent.VerifyPiece | lib/storage/fs.go:354-373 | for any index: afterwards the bit says whether the stored bytes hash to the digest, and stays as it was if they could not be read; past the last piece no bit changes and nothing is verified |
| Storage.FsTorrent.VerifyAll | lib/storage/fs.go:375-404 | the same for all pieces; `seeding` is set if and only if all bits are |
| Storage.GoodIsCheck | lib/metainfo/metainfo.go:68-80 | `CheckPiece`, with its 32-bit offset, compares the hash with the promised 20 bytes of that piece |
| Storage.RatedAllHas | lib/storage/fs.go:375-404 | which bits are set after checking a run of pieces |
| Storage.RemainingIsClose | lib/storage/fs.go:259-271 | counting owned pieces as full ones misses the truth by less than one piece, and reaches the total only when all are owned |
| Storage.FsTorrent.DownloadRemaining | lib/storage/fs.go:259-271 | in 64-bit arithmetic: 0 if and only if every piece is owned, and otherwise `r <= missing < r + pieceLength` |
| MkTorrent.MkTorrentSingle | lib/mktorrent/mktorrent.go:12-41 | makes a torrent if and only if the file's length is not a multiple of the piece length, and then with the digest of every piece |
| MkTorrent.DigestsCover | lib/mktorrent/mktorrent.go:22-40 | there are as many digests as pieces are needed to cover the file |
| MkTorrent.DigestAt | lib/mktorrent/mktorrent.go:22-40 | the `i`-th 20 bytes are the digest of the bytes of piece `i` |
| MkTorrent.MadeTorrentIsGood | lib/mktorrent/mktorrent.go:22-40 | the metainfo made is well formed, and every piece of the file is good for it |
| MkTorrent.AllGoodIsComplete | lib/storage/fs.go:375-404 | if every piece is good and readable, `VerifyAll` sets every bit |
| MkTorrent.MakeThenVerify | lib/storage/storage_test.go:16-63 | whenever a torrent is made of a file, verifying the same file completes it |
| Blocks.AcceptIsBlock | lib/bittorrent/swarm/piece.go:26-65 | `accept` holds exactly for the blocks of the piece, and for the full block at 2^32 - 16384 whose end wraps |
| Blocks.AcceptWraps | lib/bittorrent/swarm/piece.go:26-51 | an offset and a length that are accepted and are no block |
| Blocks.AcceptIsRequestable | lib/bittorrent/swarm/piece.go:26-118 | below the wrap, `accept` holds if and only if some request of `nextRequest` has this offset and length |
| Blocks.FinalIsLast | lib/bittorrent/swarm/piece.go:53-65 | the final-chunk helpers give the index and length of the last block |
| Blocks.FirstFree | lib/bittorrent/swarm/piece.go:94-118 | the lowest block neither pending nor obtained, and none if and only if there is none |
| Blocks.SearchEndsExactly | lib/bittorrent/swarm/piece.go:94-118 | the search with its 32-bit offset comes to an end if and only if the piece has at most 2^32 - 16384 bytes or a free block |
| Correspondence.AskPieceOk | lib/bittorrent/swarm/piece.go:94-144 | asking for a block of a piece makes exactly that block pending, one that was not pending, and keeps every cached piece in order |
| Correspondence.CancelAllOk | lib/bittorrent/swarm/piece.go:235-242 | cancelling a list of distinct pending requests clears exactly their pending bits |
| Correspondence.GivesBackIfAny | lib/bittorrent/swarm/piece.go:235-242 | giving back a request without a length changes nothing; any other one leaves its piece cached, and forgets none |
| Correspondence.CorrespondsAfterExpiry | lib/bittorrent/swarm/torrent.go:820-831 | dropping one piece's requests from every list together with its pending bits keeps the correspondence |
| Assembly.OtherPieceKept | lib/storage/fs.go:411-435 | a write inside one piece changes no byte of another piece |
| Assembly.PendingBlock | lib/bittorrent/swarm/piece.go:26-51 | the answer to an outstanding request is accepted, lies inside its piece and was not obtained before: the reject branch is not reached |
| Assembly.AfterWriteOk | lib/bittorrent/swarm/piece.go:244-262 | after the write, or its failure, every accepted block's data is what is stored at its place, and pending and obtained stay disjoint |
| Assembly.OtherGoodAfterWrite | lib/bittorrent/swarm/piece.go:244-262 | the write changes no other piece's hash |
| Assembly.HandleOk | lib/bittorrent/swarm/piece.go:244-271 | `handlePieceData` keeps the tracker's invariant, whatever the write and the verification come to |
| Assembly.HandleRequests | lib/bittorrent/swarm/piece.go:244-271 | afterwards exactly this request is no longer pending, and a completed piece is forgotten with nothing pending |
| Assembly.DataRefused | lib/bittorrent/swarm/piece.go:244-271 | data that is refused, whatever it is, changes nothing, except that a piece not cached yet is made, with no block asked for or obtained |
| Assembly.DataTaken | lib/bittorrent/swarm/piece.go:244-271 | data that is taken leaves its block not pending and, if written, obtained, and no other block or piece changed; with all blocks obtained the piece is forgotten and its bit set, cleared or kept as the check says |
| Assembly.FinishedPiece | lib/bittorrent/swarm/piece.go:244-271 | when a piece is complete its stored bytes are exactly the accepted blocks laid end to end |
| Invariants.PushInterestOk | lib/bittorrent/swarm/peer.go:446-455 | an interest message is sent only when it says something new; the account of lost ones stays exact, sent or lost |
| Invariants.PushInterestAgrees | lib/bittorrent/swarm/peer.go:223-234 | after a check the peer knows what we believe if and only if nothing new was to be said and it knew before, or there was room, or it had it wrong before |
| Invariants.ChokedOk | lib/bittorrent/swarm/peer.go:355-371 | a choke keeps the invariant |
| Invariants.TakenOk | lib/bittorrent/swarm/peer.go:201-220 | writing a message, or dropping it because of a choke, keeps the invariant |
| Invariants.ClosedOk | lib/bittorrent/swarm/peer.go:394-414 | a close keeps the invariant |
| Invariants.ExpiredOk | lib/bittorrent/swarm/torrent.go:820-831 | an expiry keeps the invariant |
| Invariants.TickedOk | lib/bittorrent/swarm/peer.go:815-847 | a download tick keeps the invariant |
| Invariants.ReceivedOk | lib/bittorrent/swarm/peer.go:273-285 | a received block keeps the invariant |
| Invariants.CheckedOk | lib/storage/fs.go:375-404 | a verification of everything keeps the invariant, also with pieces in progress |
| Invariants.NextOk | lib/bittorrent/swarm/peer.go:273-436 | every step of the protocol keeps the invariant |
| Safety.StartOk | lib/bittorrent/swarm/torrent.go:142-177 | a new torrent satisfies the invariant |
| Safety.RunOk | lib/bittorrent/swarm/peer.go:492-847 | the invariant holds in every state of every run |
| Safety.OneToOne | lib/bittorrent/swarm/peer.go:273-436 | in every reachable state each pending bit has exactly one entry in exactly one peer's list, and each entry has its pending bit in a cached piece |
| Safety.NothingLeftOver | lib/bittorrent/swarm/piece.go:68-92 | a forgotten piece has no outstanding request; in a cached piece pending and obtained are disjoint and not everything is obtained |
| Safety.UncheckedGrows | lib/storage/fs.go:354-373 | only a failed read, of a piece that a received block completed or in a full verification, makes a bit untrustworthy; a full verification without one makes all of them trustworthy |
| Safety.IntegrityOverRuns | lib/bittorrent/swarm/piece.go:244-271 | after a full verification, and as long as no read of a completed piece or of a full verification fails, in every state of the run every piece not in progress is owned if and only if its bytes are good |
| Safety.OverwrittenWhileOwned | lib/bittorrent/swarm/piece.go:244-262 | a block taken in for an owned piece without completing it is written over the stored bytes, and the piece stays owned and cached |
| Safety.HaveIsTrue | lib/bittorrent/swarm/torrent.go:672-683 | a have is broadcast only for a piece that is owned, forgotten by the tracker, made of the accepted blocks laid end to end, and good |
| Safety.AcceptedOnce | lib/bittorrent/swarm/piece.go:78-92 | within one download attempt accepted data is never changed or lost, and new data is the answer to a pending request for that very block |
| Safety.ChokedIsIdle | lib/bittorrent/swarm/peer.go:201-220 | in every state of every run a choking peer has nothing outstanding, no list is longer than the largest window, and the drop at write time cancels nothing |
| Safety.ExpiredAllMeans | lib/bittorrent/swarm/torrent.go:820-831 | in whatever order the cached pieces are walked: nothing of the expired ones is pending any more, every list has lost exactly the requests for them, and the rest of the tracker stays |
| Progress.PickGivesRequest | lib/bittorrent/swarm/piece.go:210-232 | whenever the picker names a piece a request comes out |
| Progress.PickIsUntouched | lib/bittorrent/swarm/torrent.go:179-195 | when the picker is asked, it names a piece the peer has and we do not own, of which no peer is asked for any block |
| Progress.PickIsRarest | lib/bittorrent/swarm/torrent.go:179-195 | when the picker is asked it names a piece that the peer has and we do not own, of which nobody is asked for a block, and that no more peers have than any other such piece; it names none if and only if there is none |
| Progress.LeavesLastWhilePending | lib/bittorrent/swarm/piece.go:210-218 | the piece asked for last is left if and only if it is cached without a free block, and then some peer has an outstanding request for it |
| Progress.LonePeerStays | lib/bittorrent/swarm/piece.go:210-232 | with one peer and nothing outstanding the next request is for the piece asked for last, whatever the picker says |
| Progress.StaysOnPiece | lib/bittorrent/swarm/piece.go:210-232 | in every run, with any number of peers and any windows: a peer that is asked for a block only while nothing of its last piece is outstanding is asked for blocks of that piece alone, however often it is completed |
| Progress.LonePeerIsStuck | lib/bittorrent/swarm/peer.go:815-847 | in every run with a single peer, as long as the piece window is at most 1, whatever it was before, that peer is asked for one and the same piece |
| Progress.RequestedAgain | lib/bittorrent/swarm/piece.go:210-271 | after a peer completes the piece it was asked for last, the piece is owned and the next request to that peer is for its first block, whatever the picker says |
| Progress.OwnedNotGood | lib/bittorrent/swarm/piece.go:210-271 | a peer whose last piece, of several blocks, is owned and forgotten is asked for its first block; whatever it answers is stored, the piece stays owned, and is good if and only if the bytes with the answer over them hash to the digest |
| Progress.AsksOwnedIffLastOwned | lib/bittorrent/swarm/piece.go:210-232 | a request is for an owned piece if and only if the piece asked for last is owned and, visited again, has a free block |
| Progress.ForgottenIsAskedAgain | lib/bittorrent/swarm/piece.go:132-144 | a piece that was forgotten always has its first block free when visited again |
| Starvation.Starves | lib/bittorrent/swarm/peer.go:815-847 | for any window, any two missing pieces and any `m`: a run from the start in which a peer that has everything answers `m` requests truthfully, each before the next tick; request `k` is for block `k % n` of the one piece of `n` blocks, nothing is outstanding at any tick, that piece is owned from round `n` on, and nobody is ever asked for another |
| Interest.WantsMeans | lib/bittorrent/swarm/peer.go:438-445 | the interest test says that some piece we lack is set in the peer's bitfield or past the end of its bytes |
| Interest.InterestIsExact | lib/bittorrent/swarm/peer.go:438-445 | it is the non-empty set difference, for every set of owned pieces, if and only if the peer's bytes cover the torrent |
| Interest.CheckedInterest | lib/bittorrent/swarm/peer.go:438-445 | after every step that checks, also for every peer when a piece is announced, we are interested if and only if some piece we lack by then is set in the peer's bitfield or past its bytes; no other step changes the flag |
| Interest.InterestAlternates | lib/bittorrent/swarm/peer.go:446-455 | in every state of every run: what the peer was last told is what we believe exactly when an even number of interest messages was lost since, and those sent alternate, starting with interested, exactly when none followed an odd number of lost ones |
| Interest.KnowsStep | lib/bittorrent/swarm/peer.go:223-234 | every step, for every peer: what it knows stays as long as what we tell it does; when that changes it knows afterwards if and only if the channel had room or it had it wrong before |
| Interest.KnowsIffRoom | lib/bittorrent/swarm/peer.go:446-455 | the same over any run, by the last step that changed what we tell the peer |
| Interest.RoomKeepsKnowing | lib/bittorrent/swarm/peer.go:446-455 | a peer that knows goes on knowing throughout a run in which every change finds room in the channel |
| Interest.NeverTold | lib/bittorrent/swarm/peer.go:223-234 | for every torrent of which a piece is missing, a run from the start after which we believe the peer was told of our interest and nothing was ever sent to say so |
| Traffic.StepSays | lib/bittorrent/swarm/peer.go:223-234 | what any step does to the channel of any connection: the messages it sends are appended to queue and log in order, up to 512 waiting, and nothing else |
| Traffic.WriteSays | lib/bittorrent/swarm/peer.go:152-176 | writing takes the first message off the queue and leaves the log |
| Traffic.BroadcastsExactly | lib/bittorrent/swarm/piece.go:244-271 | a have is broadcast if and only if the data answers an outstanding request, is written, is the only block missing of its piece, and the piece is verified |
| Traffic.HaveReachesAll | lib/bittorrent/swarm/torrent.go:672-683 | then every connected peer is sent its interest, if that changed, and the have; unless its channel was full the have is the last message in it |
| Traffic.HaveOnlyIfGood | lib/bittorrent/swarm/torrent.go:672-683 | in every run from the start, a have in any peer's log went out in such a step, which left the piece owned, forgotten by the tracker and good |
| Traffic.TickAsks | lib/bittorrent/swarm/peer.go:815-847 | a due tick lists, remembers and sends exactly one request that nobody had, if the download runs, we are interested, the connection is not closing, the peer not choking, the list shorter than the window, a piece missing, and there is a block to ask for: of the piece asked for last if it has a free one, else of a piece the picker may name; otherwise no connection changes, and never the bits or the bytes |
| Traffic.ChokedUntilUnchoked | lib/bittorrent/swarm/peer.go:355-371 | in every run: from a choke, or the start of a connection, until the next unchoke the peer goes on choking us, nothing of it is outstanding, and no request is sent to it |
| Traffic.UnchokedUntilChoked | lib/bittorrent/swarm/peer.go:346-353 | from an unchoke until the next choke it does not |
| Traffic.NothingAfterClose | lib/bittorrent/swarm/peer.go:383-392 | in every run: from a close on, or from a have before any bitfield, no request is sent to the peer |
| Accounts.SinceConnected | lib/bittorrent/swarm/peer.go:273-371 | on every connection of every run whose channel never fills up, for every request: as often as it was sent, it was cancelled, answered, or is outstanding |
| Accounts.EveryRequestAccountedFor | lib/bittorrent/swarm/peer.go:273-436 | the same over any stretch of a connection |
| Connections.QueueIsTail | lib/bittorrent/swarm/peer.go:223-234 | in every state of every run from the start the queue is the end of what was put into it, at most 512 messages |
| Connections.FirstInFirstOut | lib/bittorrent/swarm/peer.go:152-176 | what has left the queue only grows, at its end, and is a first part of what was put into it |
| Connections.ConnectionMade | lib/bittorrent/swarm/peer.go:86-106 | a new connection has the torrent's window, is taken to be choking, has been sent our bitfield and nothing else, and no other connection changes |
| Connections.BitfieldTaken | lib/bittorrent/swarm/peer.go:500-531 | a bitfield replaces the one before; the first one starts the download and is answered by an unchoke and, with extensions, our options, after the interest |
| Connections.HaveTaken | lib/bittorrent/swarm/peer.go:556-573 | a have sets its bit and no other, if the bitfield has room for it, and is followed by the interest; before any bitfield it only closes the connection |
| Connections.UnchokeTaken | lib/bittorrent/swarm/peer.go:346-353 | an unchoke clears the flag and sends the interest if it changed; nothing else changes |
| Connections.ChokeTaken | lib/bittorrent/swarm/peer.go:355-371 | a choke sets the flag, empties the list with a cancel message for each entry in order, clears exactly their pending bits, and changes nothing else |
| Connections.OneWindow | lib/bittorrent/swarm/torrent.go:115-121 | in every state of every run from the start every connection has the window that was set last, those made since too |
| Connections.PieceFromItsPeer | lib/bittorrent/swarm/peer.go:500-573 | in every run from the start a peer is taken to have a piece only if it said so |
| Connections.PieceRemembered | lib/bittorrent/swarm/peer.go:556-573 | and what a have said stays until the peer's next bitfield |
| Connections.PeersBounded | lib/bittorrent/swarm/torrent.go:697-719 | in every run in which a connection is only taken up while there are at most `m`, there are never more than `m + 1` |
| Connections.OnlyItsPeer | lib/bittorrent/swarm/peer.go:492-847 | a message from one peer, a tick or a write for it changes no other connection |
| Connections.GreetedOnce | lib/bittorrent/swarm/peer.go:500-531 | in every state of every run from the start: our bitfield was sent first, and once; the unchoke at most once, and not before the peer's first bitfield |
| PieceTracking.CachedPiece.constructor | lib/bittorrent/swarm/piece.go:155-173 | a piece of any length with no block pending or obtained, and room for all its bits |
| PieceTracking.CachedPiece.Accept | lib/bittorrent/swarm/piece.go:26-51 | below the wrap, true if and only if offset and length are a block of the piece |
| PieceTracking.CachedPiece.Done | lib/bittorrent/swarm/piece.go:68-70 | true if and only if every block is obtained |
| PieceTracking.CachedPiece.Put | lib/bittorrent/swarm/piece.go:78-85 | for any offset the block is no longer pending, and obtained with this data if the piece has it |
| PieceTracking.CachedPiece.Cancel | lib/bittorrent/swarm/piece.go:88-92 | the block is no longer pending |
| PieceTracking.CachedPiece.NextRequest | lib/bittorrent/swarm/piece.go:94-118 | wherever the search over 32-bit offsets comes to an end, it finds the lowest free block, and marks it |
| PieceTracking.PieceTracker.NewPiece | lib/bittorrent/swarm/piece.go:155-173 | a fresh piece of its right length is cached in place of whatever was there, for any index; the others stay |
| PieceTracking.PieceTracker.Visit | lib/bittorrent/swarm/piece.go:132-144 | the cached piece stays, a missing one is made anew, for any index |
| PieceTracking.PieceTracker.RemovePiece | lib/bittorrent/swarm/piece.go:175-179 | exactly this piece is forgotten |
| PieceTracking.PieceTracker.PendingPieces | lib/bittorrent/swarm/piece.go:199-208 | exactly the pieces with a pending block, in any order of the map |
| PieceTracking.PieceTracker.CanceledRequest | lib/bittorrent/swarm/piece.go:235-242 | one pending bit of one piece is cleared, on objects in the heap |
| PieceTracking.PieceTracker.AskPiece | lib/bittorrent/swarm/piece.go:210-232 | visiting a piece, any index, and asking for its next block, where the search for one comes to an end |
| PieceTracking.PieceTracker.HandlePieceData | lib/bittorrent/swarm/piece.go:244-271 | for any data and driver: what the write may leave on the disk, the tracker and bits become those of `HandleInto` for what it left, and an announcement is due if and only if the piece was completed and verified; for data that can answer a request and a driver that writes whole files or fails, the stored bytes are those of `Handle`; a reliable driver leaves no completed piece unread |
| PeerConnections.PeerConn.constructor | lib/bittorrent/swarm/peer.go:86-106 | a new connection is choked, knows no bitfield and has no request |
| PeerConnections.PeerConn.Send | lib/bittorrent/swarm/peer.go:223-234 | the message is queued, or dropped when 512 are pending |
| PeerConnections.PeerConn.Unchoke | lib/bittorrent/swarm/peer.go:264-271 | the first time an unchoke is sent, afterwards nothing |
| PeerConnections.PeerConn.CheckInterested | lib/bittorrent/swarm/peer.go:438-456 | the flag follows the packed-byte test, and a message is sent exactly when it differs from what was last said |
| PeerConnections.PeerConn.RemoteUnchoke | lib/bittorrent/swarm/peer.go:346-353 | no longer choked, and the interest is checked |
| PeerConnections.PeerConn.RemoteChoke | lib/bittorrent/swarm/peer.go:355-371 | the peer is marked as choking; every request is given back and a cancel message sent for it, in order |
| PeerConnections.PeerConn.InboundBitfield | lib/bittorrent/swarm/peer.go:500-531 | the bitfield is replaced and the interest checked; the first one is answered by an unchoke and, where both sides have extensions, our options, in this order, and starts the download |
| PeerConnections.PeerConn.InboundHave | lib/bittorrent/swarm/peer.go:556-573 | one bit is set and the interest checked; before any bitfield the connection is closed |
| PeerConnections.PeerConn.QueueDownload | lib/bittorrent/swarm/peer.go:308-315 | the request is remembered, listed and sent |
| PeerConnections.PeerConn.CancelPiece | lib/bittorrent/swarm/peer.go:424-436 | exactly the requests of that piece leave the list, with a cancel message each |
| PeerConnections.PeerConn.CancelPendingDownloads | lib/bittorrent/swarm/peer.go:363-371 | all requests are given back to the tracker and cancelled |
| PeerConnections.PeerConn.CancelDownload | lib/bittorrent/swarm/peer.go:287-299 | exactly the equal requests leave the list and are given back |
| PeerConnections.PeerConn.ProcessWrite | lib/bittorrent/swarm/peer.go:201-220 | a request is dropped and given back while the peer chokes us; any other message is written, and changes nothing here |
| PeerConnections.PeerConn.WriteNext | lib/bittorrent/swarm/peer.go:152-176 | the first queued message, if there is one, is taken off, and written unless it is a request and the peer chokes us |
| PeerConnections.PeerConn.DoClose | lib/bittorrent/swarm/peer.go:394-414 | all requests are given back, nothing is outstanding or queued any more |
| PeerConnections.PeerConn.Offer | lib/bittorrent/swarm/peer.go:273-285 | the entries the data does not match are kept in order; if one matches the tracker handles the data, with a reliable driver without leaving a completed piece unread, otherwise nothing happens |
| Swarm.PickIsLegal | lib/bittorrent/swarm/torrent.go:179-195 | a rarest pick over the collected bitfields is rarest by the number of connected peers that have the piece |
| Swarm.MatchOk | lib/bittorrent/swarm/peer.go:273-285 | received data matches at most one entry, and then one whose piece and block the tracker can take in |
| Swarm.Torrent.constructor | lib/bittorrent/swarm/torrent.go:142-177 | the model of a new torrent is the initial state |
| Swarm.Torrent.GetRarestPiece | lib/bittorrent/swarm/torrent.go:179-195 | in any order of connections and map: a piece the remote has, we lack and that is not excluded, with a minimal number of peers having it; none if and only if there is none |
| Swarm.Torrent.NextRequest | lib/bittorrent/swarm/piece.go:210-232 | the two halves of `NextRequest` with a legal pick in between, over pieces on which the search for a block ends |
| Swarm.Torrent.BroadcastHave | lib/bittorrent/swarm/torrent.go:672-683 | every connection checks its interest and is sent the have; wherever there was room it is the last message put into the channel |
| Swarm.Torrent.OnNewPeer | lib/bittorrent/swarm/torrent.go:703-719 | accepted if and only if the address is not known and there are at most `maxPeers` connections; then the protocol step `Connect`, which sends our bitfield, and otherwise nothing changes |
| Swarm.Torrent.Inbound | lib/bittorrent/swarm/peer.go:492-580 | by its fifth byte a whole message takes the protocol step it names, with the numbers of its payload most significant byte first; a keep-alive, a piece without data and any other kind of message change nothing |
| Swarm.Torrent.GotBitfield | lib/bittorrent/swarm/peer.go:500-531 | the heap takes the protocol step `GotBitfield` and keeps the invariant |
| Swarm.Torrent.GotHave | lib/bittorrent/swarm/peer.go:556-573 | the protocol step `GotHave`, keeping the invariant |
| Swarm.Torrent.GotChoke | lib/bittorrent/swarm/peer.go:532-535 | the protocol step `GotChoke`, keeping the invariant; the peer is choking and nothing of it is outstanding |
| Swarm.Torrent.GotUnchoke | lib/bittorrent/swarm/peer.go:536-538 | the protocol step `GotUnchoke`, keeping the invariant; the peer is not choking |
| Swarm.Torrent.GotPiece | lib/bittorrent/swarm/peer.go:273-285 | the protocol step `GotPiece`, keeping the invariant; a have is announced if and only if the data was the last missing block of its piece and the piece was verified; then the piece is owned, forgotten by the tracker and good, and every peer with room is sent the have last; with a reliable driver the step is no failed read and leaves no further piece unchecked |
| Swarm.Torrent.TickDownload | lib/bittorrent/swarm/peer.go:815-847 | the protocol step `TickDownload` with a legal pick, keeping the invariant; a due tick asks for another block exactly when the peer may be asked and there is something to ask it for, and otherwise changes no connection; a piece the picker names is one the peer has and we do not own, and nobody is asked for any of its blocks |
| Swarm.Torrent.Expire | lib/bittorrent/swarm/torrent.go:820-831 | the protocol step `Expire`, keeping the invariant |
| Swarm.Torrent.ExpirePieces | lib/bittorrent/swarm/torrent.go:820-831 | the loop over all cached pieces, in any order of the map: an `Expire` step for exactly those that are due |
| Swarm.Torrent.TakeFromQueue | lib/bittorrent/swarm/peer.go:152-220 | the protocol step `TakeFromQueue`, keeping the invariant; what is written is the first message queued, unless it is a request and the peer chokes us |
| Swarm.Torrent.BeginClose | lib/bittorrent/swarm/peer.go:383-392 | the protocol step `BeginClose`, keeping the invariant; the connection is closing |
| Swarm.Torrent.DoClose | lib/bittorrent/swarm/peer.go:394-414 | the protocol step `DoClose`, keeping the invariant |
| Swarm.Torrent.SetPieceWindow | lib/bittorrent/swarm/torrent.go:115-121 | the protocol step `SetWindow`, keeping the invariant; the window of every connection is the new one |
| Swarm.Torrent.VerifyAll | lib/storage/fs.go:375-404 | the protocol step `VerifyAll`, keeping the invariant |
| ConfigText.OptionSurvives | lib/configparser/configparser.go:410-478 | a printed option is read as the same key and value if and only if it is a good one |
| ConfigText.NameSurvives | lib/configparser/configparser.go:84-92 | a printed header is read as the same name if and only if the name is trimmed of blanks and brackets |
| ConfigText.LineMeans | lib/configparser/configparser.go:84-478 | an empty line or one that starts with '#' or ';' means nothing; one that starts with '[' is a header, without blanks and brackets at its ends; any other is an option, split at the first '=', or else at the first ':', without blanks around key and value, or else all key |
| ConfigText.LinesJoined | lib/configparser/configparser.go:84-86 | the lines of a text are what its line feeds separate; a last one may do without |
| ConfigText.ScanMeans | lib/configparser/configparser.go:84-104 | they are delivered without one carriage return at the end, unless one is longer than 65535 bytes |
| ConfigText.SplitJoined | lib/configparser/configparser.go:84-90 | splitting at line feeds undoes joining, for lines without line feeds |
| ConfigText.ColonIsLost | lib/configparser/configparser.go:461-478 | a key that reading can produce and that does not survive being saved |
| ConfigSections.SumGrouped | lib/configparser/configparser.go:223-252 | listing the sections by name loses and repeats nothing |
| ConfigSections.GroupedContiguous | lib/configparser/configparser.go:223-252 | sections whose equal names stand together are listed in their order |
| ConfigSections.GroupedOrder | lib/configparser/configparser.go:223-252 | any two sections are listed by first appearance of their names, and under one name by age |
| ConfigSections.SectionPrinted | lib/configparser/configparser.go:410-431 | a section is printed as its name in brackets, unless it is "global", and a line for every key listed: the key, and '=' and the value if there is one |
| ConfigSections.SectionOfLines | lib/configparser/configparser.go:80-98 | the options up to the next header make up the section of the last one: keys in order, repeated ones too, each with the value given last; comments and empty lines do nothing |
| ConfigSections.HeaderStarts | lib/configparser/configparser.go:80-95 | reading starts with a section "global", and a header starts a new one |
| ConfigSections.RebuiltIsSame | lib/configparser/configparser.go:410-459 | a section's options, printed and read, give the same section if and only if they are all good, repeated keys included |
| ConfigRoundTrip.ReadAll | lib/configparser/configparser.go:84-98 | reading saved lines gives the sections one by one, if every option line is read as an option |
| ConfigRoundTrip.SavedText | lib/configparser/configparser.go:142-145 | saving prints the sections one after the other, an empty line after each |
| ConfigRoundTrip.CountSaved | lib/configparser/configparser.go:84-98 | saved lines give at most as many options as were saved, and as many only if every line is read as what it is |
| ConfigRoundTrip.Survives | lib/configparser/configparser.go:142-145 | a well-formed configuration is read back the same |
| ConfigRoundTrip.NeedsWellFormed | lib/configparser/configparser.go:75-106 | what is read back the same was well formed |
| ConfigRoundTrip.SaveThenRead | lib/configparser/configparser.go:75-145 | saving and reading back gives the same sections, options, order and values if and only if the configuration is well formed |
| ConfigParser.Section.AddOption | lib/configparser/configparser.go:449-459 | the parsed key is listed once more and has the parsed value |
| ConfigParser.Section.Add | lib/configparser/configparser.go:371-382 | a new key is listed last, a known one keeps its place; the old value is returned |
| ConfigParser.Section.String | lib/configparser/configparser.go:410-431 | the header, unless the section is "global", and one line per option in order |
| ConfigParser.Configuration.AddSection | lib/configparser/configparser.go:480-493 | a new empty section at the end of the list of its name; a new name goes to the end of the order |
| ConfigParser.Configuration.Sections | lib/configparser/configparser.go:223-252 | all sections by first appearance of their name and then by age, or those of one name, or none |
| ConfigParser.Configuration.Save | lib/configparser/configparser.go:142-145 | the lines of all sections, an empty line after each |
| ConfigParser.Read | lib/configparser/configparser.go:75-106 | an error exactly for a line longer than 65535 bytes; otherwise the sections of the text |
| ConfigParser.SaveAndRead | lib/configparser/configparser.go:75-145 | on the objects: the configuration read back has the same sections if and only if the saved one was well formed |

## Left out

- Networking: dialing, accepting, i2p and lokinet sessions, trackers, gnutella; events from peers arrive as steps.
- Goroutines, channels, tickers and locks: methods are atomic, the send channel is a queue, expiry is a free choice.
- The two connection maps for inbound and outbound peers are one map here, keyed by remote address.
- The pointer to the torrent that a connection keeps: the tracker and the storage are passed to its methods.
- `PeerConn.Choke`, which is never called, keep-alives, uploads and extension messages: they only send, and appear as
  `SendOther`.
- The bytes that writing puts on a connection, rates and statistics.
- ut_metadata serving and assembly, peer exchange, the distributed hash table, extension negotiation, handshakes, bencode.
- `GetStatus`, whose per-file progress the code itself marks as wrong, and `Holder`'s indexes.
- Storage before the metainfo is known, file allocation, moving and deleting, pooled I/O workers, saving bitfields to disk.
- `Configuration.Delete` and `Find`, which use regular expressions, `Section.Delete`, renaming the old file in `Save`, and its
  mutexes.
- SHA-1 and the JSON text around the list form of a bitfield.
- Swarm.Torrent.Inbound: does not model what the messages about uploading (interested, not interested, request, cancel) and the
  extension messages do, because the download does not depend on them.
- Swarm.Torrent.GotPiece: does not model that the announcement is made before the piece is removed from the tracker, because the two do not depend on each other.
