/** The packed bitfield of lib/bittorrent/bitfield.go: bit `i` is bit `7 - i % 8` of byte `i / 8`. */
module Bitfields {
  import opened Words

  // ----- one byte -----

  predicate OneBit(m: bv8) {
    m == 0x80 || m == 0x40 || m == 0x20 || m == 0x10 || m == 0x08 || m == 0x04 || m == 0x02 || m == 0x01
  }

  function Mask(i: nat): (m: bv8)
    ensures OneBit(m)
  {
    match i % 8
    case 0 => 0x80 case 1 => 0x40 case 2 => 0x20 case 3 => 0x10
    case 4 => 0x08 case 5 => 0x04 case 6 => 0x02 case _ => 0x01
  }

  /** The source writes the same masks as shifts. */
  lemma MaskIsShift(i: nat)
    ensures Mask(i) == (1 as bv8) << (7 - i % 8)
  {
  }

  lemma MaskInjective(i: nat, j: nat)
    ensures Mask(i) == Mask(j) <==> i % 8 == j % 8
  {
  }

  predicate Lit(x: bv8, m: bv8) {
    x & m != 0
  }

  lemma LitOps(x: bv8, y: bv8, m: bv8)
    requires OneBit(m)
    ensures Lit(x & y, m) <==> Lit(x, m) && Lit(y, m)
    ensures Lit(x | y, m) <==> Lit(x, m) || Lit(y, m)
    ensures Lit(x ^ y, m) <==> Lit(x, m) != Lit(y, m)
    ensures Lit(x ^ 0xff, m) <==> !Lit(x, m)
  {
  }

  lemma LitUpdates(x: bv8, m: bv8, k: bv8)
    requires OneBit(m) && OneBit(k)
    ensures Lit(x | m, k) <==> m == k || Lit(x, k)
    ensures Lit(x & !m, k) <==> m != k && Lit(x, k)
  {
  }

  // ----- the set a bitfield stands for -----

  /** What callers see: the number of bits, how many of them the bytes have room for, and the set ones. */
  datatype Bits = Bits(length: nat, room: nat, members: set<nat>)

  predicate HasBit(length: nat, data: seq<bv8>, i: nat) {
    i < length && i / 8 < |data| && Lit(data[i / 8], Mask(i))
  }

  /** Bit `i` is the one `7 - i % 8` places from the right in byte `i / 8`. */
  lemma BitPlace(length: nat, data: seq<bv8>, i: nat)
    ensures HasBit(length, data, i) <==> i < length && i / 8 < |data| && (data[i / 8] >> (7 - i % 8)) & 1 == 1
  {
    if i < length && i / 8 < |data| {
      BitShift(data[i / 8], i);
    }
  }

  lemma BitShift(x: bv8, i: nat)
    ensures Lit(x, Mask(i)) <==> (x >> (7 - i % 8)) & 1 == 1
  {
  }

  function MembersOf(length: nat, data: seq<bv8>): set<nat> {
    set i: nat | i < length && HasBit(length, data, i)
  }

  function BitsOf(length: nat, data: seq<bv8>): Bits {
    Bits(length, 8 * |data|, MembersOf(length, data))
  }

  function WithBit(x: bv8, i: nat, on: bool): bv8 {
    if on then x | Mask(i) else x & !Mask(i)
  }

  lemma BitAfterUpdate(length: nat, data: seq<bv8>, index: nat, on: bool, j: nat)
    requires index < length && index / 8 < |data|
    ensures HasBit(length, data[index / 8 := WithBit(data[index / 8], index, on)], j)
       <==> if j == index then on else HasBit(length, data, j)
  {
    if j / 8 == index / 8 {
      MaskInjective(index, j);
      LitUpdates(data[index / 8], Mask(index), Mask(j));
    }
  }

  /** Writing back one byte with one bit changed changes one member. */
  lemma MembersAfterUpdate(length: nat, data: seq<bv8>, index: nat, on: bool)
    requires index < length && index / 8 < |data|
    ensures MembersOf(length, data[index / 8 := WithBit(data[index / 8], index, on)])
         == if on then MembersOf(length, data) + {index} else MembersOf(length, data) - {index}
  {
    forall j: nat
      ensures HasBit(length, data[index / 8 := WithBit(data[index / 8], index, on)], j)
         <==> if j == index then on else HasBit(length, data, j)
    {
      BitAfterUpdate(length, data, index, on, j);
    }
  }

  /** The in-place loops of AND, OR and XOR: `op` applied to the first `n` bytes, as far as both go. */
  function ZipBytes(op: (bv8, bv8) -> bv8, a: seq<bv8>, b: seq<bv8>, n: nat): (r: seq<bv8>)
    requires n <= |b|
    ensures |r| == |a|
  {
    if n == 0 then a
    else
      var r := ZipBytes(op, a, b, n - 1);
      if n - 1 < |a| then r[n - 1 := op(r[n - 1], b[n - 1])] else r
  }

  lemma {:induction false} ZipBytesAt(op: (bv8, bv8) -> bv8, a: seq<bv8>, b: seq<bv8>, n: nat, k: nat)
    requires n <= |b| && k < |a|
    ensures ZipBytes(op, a, b, n)[k] == if k < n then op(a[k], b[k]) else a[k]
  {
    if n > 0 {
      ZipBytesAt(op, a, b, n - 1, k);
    }
  }

  const ANDOP := (x: bv8, y: bv8) => x & y
  const OROP := (x: bv8, y: bv8) => x | y
  const XOROP := (x: bv8, y: bv8) => x ^ y

  lemma BitAfterAnd(length: nat, a: seq<bv8>, b: seq<bv8>, i: nat)
    ensures HasBit(length, ZipBytes(ANDOP, a, b, |b|), i) <==> HasBit(length, a, i) && (HasBit(length, b, i) || 8 * |b| <= i)
  {
    if i / 8 < |a| {
      ZipBytesAt(ANDOP, a, b, |b|, i / 8);
      if i / 8 < |b| {
        LitOps(a[i / 8], b[i / 8], Mask(i));
      }
    }
  }

  lemma MembersAfterAnd(length: nat, a: seq<bv8>, b: seq<bv8>)
    ensures MembersOf(length, ZipBytes(ANDOP, a, b, |b|))
         == Meet(BitsOf(length, a), BitsOf(length, b))
  {
    forall i: nat
      ensures HasBit(length, ZipBytes(ANDOP, a, b, |b|), i) <==> HasBit(length, a, i) && (HasBit(length, b, i) || 8 * |b| <= i)
    {
      BitAfterAnd(length, a, b, i);
    }
  }

  lemma BitAfterOr(length: nat, a: seq<bv8>, b: seq<bv8>, i: nat)
    ensures HasBit(length, ZipBytes(OROP, a, b, |b|), i) <==> HasBit(length, a, i) || (HasBit(length, b, i) && i < 8 * |a|)
  {
    if i / 8 < |a| {
      ZipBytesAt(OROP, a, b, |b|, i / 8);
      if i / 8 < |b| {
        LitOps(a[i / 8], b[i / 8], Mask(i));
      }
    }
  }

  lemma MembersAfterOr(length: nat, a: seq<bv8>, b: seq<bv8>)
    ensures MembersOf(length, ZipBytes(OROP, a, b, |b|))
         == MembersOf(length, a) + Within(BitsOf(length, a), BitsOf(length, b))
  {
    forall i: nat
      ensures HasBit(length, ZipBytes(OROP, a, b, |b|), i) <==> HasBit(length, a, i) || (HasBit(length, b, i) && i < 8 * |a|)
    {
      BitAfterOr(length, a, b, i);
    }
  }

  lemma BitAfterXor(length: nat, a: seq<bv8>, b: seq<bv8>, i: nat)
    ensures HasBit(length, ZipBytes(XOROP, a, b, |b|), i) <==> HasBit(length, a, i) != (HasBit(length, b, i) && i < 8 * |a|)
  {
    if i / 8 < |a| {
      ZipBytesAt(XOROP, a, b, |b|, i / 8);
      if i / 8 < |b| {
        LitOps(a[i / 8], b[i / 8], Mask(i));
      }
    }
  }

  lemma MembersAfterXor(length: nat, a: seq<bv8>, b: seq<bv8>)
    ensures MembersOf(length, ZipBytes(XOROP, a, b, |b|))
         == (MembersOf(length, a) - Within(BitsOf(length, a), BitsOf(length, b)))
          + (Within(BitsOf(length, a), BitsOf(length, b)) - MembersOf(length, a))
  {
    forall i: nat
      ensures HasBit(length, ZipBytes(XOROP, a, b, |b|), i) <==> HasBit(length, a, i) != (HasBit(length, b, i) && i < 8 * |a|)
    {
      BitAfterXor(length, a, b, i);
    }
  }

  /** The numbers below `n`. */
  function Below(n: nat): (s: set<nat>)
    ensures forall i: nat :: i in s <==> i < n
    ensures |s| == n
  {
    if n == 0 then {} else Below(n - 1) + {n - 1}
  }

  /** What AND computes: past the end of the other's bytes the receiver's bits stay. */
  function Meet(a: Bits, b: Bits): set<nat> {
    set i | i in a.members && (i in b.members || b.room <= i)
  }

  /** The other's members that fall inside the receiver's bytes. */
  function Within(a: Bits, b: Bits): set<nat> {
    set i | i in b.members && i < a.room
  }

  /** AND is set intersection exactly when the receiver has no bit past the end of the other's bytes. */
  lemma AndIsIntersection(a: Bits, b: Bits)
    requires forall i :: i in b.members ==> i < b.room
    ensures Meet(a, b) == a.members * b.members <==> forall i :: i in a.members ==> i < b.room
  {
    if Meet(a, b) == a.members * b.members {
      forall i | i in a.members
        ensures i < b.room
      {
        assert i in Meet(a, b) <==> i in b.members;
      }
    }
  }

  /** Whatever the receiver, AND is intersection exactly when the other's bytes cover its length. */
  lemma AndNeedsFullData(b: Bits)
    requires forall i :: i in b.members ==> i < b.room && i < b.length
    ensures b.length <= b.room
       <==> forall a: Bits {:trigger Meet(a, b)} :: a.members <= Below(b.length) ==> Meet(a, b) == a.members * b.members
  {
    if b.room < b.length {
      var a := Bits(b.length, b.length, Below(b.length));
      assert b.room in Meet(a, b) && b.room !in a.members * b.members;
    }
  }

  /** A bitfield with too few bytes: AND with it keeps the receiver's bit 8. */
  lemma AndWithShortData()
    ensures var a := Bits(9, 16, {8}); var b := Bits(9, 8, {}); Meet(a, b) == {8} && a.members * b.members == {}
  {
  }

  // ----- rarest first -----

  function CountIn(others: seq<Bits>, i: nat): (n: nat)
    ensures n <= |others|
  {
    if others == [] then 0
    else CountIn(others[..|others| - 1], i) + if i in others[|others| - 1].members then 1 else 0
  }

  predicate Candidate(remote: Bits, excluded: set<nat>, i: nat) {
    i in remote.members && i !in excluded
  }

  /** `pick` is a legal answer of FindRarest: least common among the candidates, or none because there are none. */
  ghost predicate RarestPick(remote: Bits, others: seq<Bits>, excluded: set<nat>, pick: Option<nat>) {
    match pick
    case None => forall i :: !Candidate(remote, excluded, i)
    case Some(k) =>
      && Candidate(remote, excluded, k)
      && forall i :: Candidate(remote, excluded, i) ==> CountIn(others, k) <= CountIn(others, i)
  }

  class Bitfield {
    var Length: u32
    var Data: seq<bv8>
    /** Whose bitfield this is. */
    ghost var owner: object?

    ghost function Value(): Bits
      reads this
    {
      BitsOf(Length, Data)
    }

    /** NewBitfield: zeroed bytes when no value is given, otherwise a copy of the value. */
    constructor (bits: u32, value: Option<seq<bv8>>)
      ensures Length == bits
      ensures value.Some? ==> Data == value.value
      ensures value.None? ==> Value() == Bits(bits, 8 * (bits / 8 + 1), {})
    {
      Length := bits;
      Data := if value.Some? then value.value else seq(bits / 8 + 1, _ => 0);
      owner := null;
    }

    method Copy() returns (b: Bitfield)
      ensures fresh(b) && b.Length == Length && b.Data == Data
    {
      b := new Bitfield(Length, Some(Data));
    }

    method CopyFrom(other: Bitfield)
      modifies this`Length, this`Data
      ensures Value() == old(other.Value())
    {
      Length := other.Length;
      Data := other.Data;
    }

    method Zero()
      modifies this`Length, this`Data
      ensures Value() == Bits(old(Length), 8 * (old(Length) / 8 + 1), {})
    {
      Data := seq(Length / 8 + 1, _ => 0);
    }

    predicate Has(index: u32)
      reads this
    {
      HasBit(Length, Data, index)
    }

    method Set(index: u32)
      modifies this`Length, this`Data
      ensures Value() == old(Value()).(members := old(Value()).members
                                       + if index < old(Value()).length && index < old(Value()).room then {index} else {})
    {
      if index < Length {
        var idx := index / 8;
        if idx < |Data| {
          MembersAfterUpdate(Length, Data, index, true);
          Data := Data[idx := Data[idx] | Mask(index)];
        }
      }
    }

    method Unset(index: u32)
      modifies this`Length, this`Data
      ensures Value() == old(Value()).(members := old(Value()).members - {index})
    {
      if index < Length {
        var idx := index / 8;
        if idx < |Data| {
          MembersAfterUpdate(Length, Data, index, false);
          Data := Data[idx := Data[idx] & !Mask(index)];
        }
      }
    }

    /** Flips the padding bits too, but those are never members. */
    method Inverted() returns (b: Bitfield)
      ensures fresh(b)
      ensures b.Value() == Value().(members := set i: nat | i < Length && i < Value().room && i !in Value().members)
    {
      b := new Bitfield(Length, Some(Data));
      for idx := 0 to |b.Data|
        invariant fresh(b) && b.Length == Length && |b.Data| == |Data|
        invariant forall k :: 0 <= k < |Data| ==> b.Data[k] == if k < idx then Data[k] ^ 0xff else Data[k]
      {
        b.Data := b.Data[idx := b.Data[idx] ^ 0xff];
      }
      forall i: nat | i / 8 < |Data|
        ensures Lit(b.Data[i / 8], Mask(i)) <==> !Lit(Data[i / 8], Mask(i))
      {
        LitOps(Data[i / 8], 0, Mask(i));
      }
    }

    method AND(other: Bitfield) returns (b: Bitfield?)
      ensures b == null <==> Length != other.Length
      ensures b != null ==> fresh(b) && b.Value() == Value().(members := Meet(Value(), other.Value()))
    {
      if Length != other.Length {
        return null;
      }
      b := new Bitfield(Length, Some(Data));
      for idx := 0 to |other.Data|
        modifies b
        invariant b.Length == Length && b.Data == ZipBytes(ANDOP, Data, other.Data, idx)
      {
        if idx < |Data| {
          b.Data := b.Data[idx := ANDOP(b.Data[idx], other.Data[idx])];
        }
      }
      MembersAfterAnd(Length, Data, other.Data);
    }

    method OR(other: Bitfield) returns (b: Bitfield?)
      ensures b == null <==> Length != other.Length
      ensures b != null ==> fresh(b) && b.Value() == Value().(members := Value().members + Within(Value(), other.Value()))
    {
      if Length != other.Length {
        return null;
      }
      b := new Bitfield(Length, Some(Data));
      for idx := 0 to |other.Data|
        modifies b
        invariant b.Length == Length && b.Data == ZipBytes(OROP, Data, other.Data, idx)
      {
        if idx < |Data| {
          b.Data := b.Data[idx := OROP(b.Data[idx], other.Data[idx])];
        }
      }
      MembersAfterOr(Length, Data, other.Data);
    }

    method SelfOR(other: Bitfield)
      modifies this`Length, this`Data
      ensures Value() == if old(Length) == old(other.Length)
                         then old(Value()).(members := old(Value()).members + Within(old(Value()), old(other.Value())))
                         else old(Value())
    {
      if Length == other.Length {
        ghost var theirs := other.Data;
        for idx := 0 to |other.Data|
          invariant Length == old(Length) && |other.Data| == |theirs|
          invariant other != this ==> other.Data == theirs
          invariant Data == ZipBytes(OROP, old(Data), theirs, idx)
        {
          if idx < |Data| {
            ZipBytesAt(OROP, old(Data), theirs, idx, idx);
            Data := Data[idx := OROP(Data[idx], other.Data[idx])];
          }
        }
        MembersAfterOr(Length, old(Data), theirs);
      }
    }

    method XOR(other: Bitfield) returns (b: Bitfield?)
      ensures b == null <==> Length != other.Length
      ensures b != null ==> fresh(b) && b.Value() == Value().(members := (Value().members - Within(Value(), other.Value()))
                                                               + (Within(Value(), other.Value()) - Value().members))
    {
      if Length != other.Length {
        return null;
      }
      b := new Bitfield(Length, Some(Data));
      for idx := 0 to |other.Data|
        modifies b
        invariant b.Length == Length && b.Data == ZipBytes(XOROP, Data, other.Data, idx)
      {
        if idx < |Data| {
          b.Data := b.Data[idx := XOROP(b.Data[idx], other.Data[idx])];
        }
      }
      MembersAfterXor(Length, Data, other.Data);
    }

    method CountSet() returns (sum: nat)
      ensures sum == |Value().members|
    {
      sum := 0;
      var l := Length;
      ghost var seen: set<nat> := {};
      while l > 0
        invariant 0 <= l <= Length
        invariant seen == set i: nat | i < Length && l <= i && HasBit(Length, Data, i)
        invariant sum == |seen|
      {
        l := l - 1;
        if Has(l) {
          sum := sum + 1;
          seen := seen + {l};
        }
      }
      assert seen == Value().members;
    }

    method AnySet() returns (any: bool)
      ensures any <==> Value().members != {}
    {
      var l := Length;
      while l > 0
        invariant 0 <= l <= Length
        invariant forall i: nat :: l <= i < Length ==> !HasBit(Length, Data, i)
      {
        l := l - 1;
        if Has(l) {
          assert l in Value().members;
          return true;
        }
      }
      return false;
    }

    method Completed() returns (all: bool)
      ensures all <==> Value().members == Below(Length)
    {
      var l := Length;
      while l > 0
        invariant 0 <= l <= Length
        invariant forall i: nat :: l <= i < Length ==> HasBit(Length, Data, i)
      {
        l := l - 1;
        if !Has(l) {
          assert l in Below(Length);
          return false;
        }
      }
      return true;
    }

    /** The list form of MarshalJSON: one 0 or 1 per bit. */
    method MarshalList() returns (ls: seq<int>)
      ensures |ls| == Length
      ensures forall i :: 0 <= i < |ls| ==> ls[i] == if i in Value().members then 1 else 0
    {
      ls := [];
      var idx: nat := 0;
      while idx < Length
        invariant idx == |ls| <= Length
        invariant forall i :: 0 <= i < |ls| ==> ls[i] == if i in Value().members then 1 else 0
      {
        if Has(idx) {
          ls := ls + [1];
        } else {
          ls := ls + [0];
        }
        idx := idx + 1;
      }
    }

    /** The list form of UnmarshalJSON: every non-zero entry sets its bit. */
    method UnmarshalList(bl: seq<int>)
      requires |bl| < U32_MOD
      modifies this`Length, this`Data
      ensures Value() == Bits(|bl|, 8 * (|bl| / 8 + 1), set i: nat | i < |bl| && bl[i] != 0)
    {
      Length := |bl|;
      Data := seq(Length / 8 + 1, _ => 0);
      for idx := 0 to |bl|
        invariant Value() == Bits(|bl|, 8 * (|bl| / 8 + 1), set i: nat | i < idx && bl[i] != 0)
      {
        if bl[idx] != 0 {
          Set(idx);
        }
      }
    }

    /** The counting loops of FindRarest. */
    method CountAll(others: seq<Bitfield>) returns (bits: map<u32, u32>)
      requires |others| < U32_MOD - 1
      ensures forall k: u32 :: k in bits <==> k < Length
      ensures forall k: u32 :: k in bits ==> bits[k] == CountIn(ValuesOf(others), k)
    {
      bits := map[];
      var i := Length;
      ghost var vs := ValuesOf(others);
      while i > 0
        invariant 0 <= i <= Length
        invariant forall k: u32 :: k in bits <==> i <= k < Length
        invariant forall k: u32 :: k in bits ==> bits[k] == CountIn(vs, k)
      {
        i := i - 1;
        bits := bits[i := 0];
        for j := 0 to |others|
          invariant forall k: u32 :: k in bits <==> i <= k < Length
          invariant bits[i] == CountIn(vs[..j], i)
          invariant forall k: u32 :: i < k < Length ==> bits[k] == CountIn(vs, k)
        {
          assert vs[..j + 1][..j] == vs[..j];
          assert others[j].Has(i) <==> i in vs[j].members;
          if others[j].Has(i) {
            bits := bits[i := bits[i] + 1];
          }
        }
        assert vs[..|others|] == vs;
      }
    }

    /** The choosing loop of FindRarest: the map is walked in whatever order. */
    method LeastCommon(bits: map<u32, u32>, exclude: u32 -> bool) returns (idx: u32, has: bool)
      requires forall k :: k in bits ==> bits[k] < U32_MOD - 1
      ensures has ==> idx in bits && !exclude(idx) && HasBit(Length, Data, idx)
      ensures forall k :: k in bits && !exclude(k) && HasBit(Length, Data, k) ==> has && bits[idx] <= bits[k]
    {
      var min: u32 := U32_MOD - 1;
      idx, has := 0, false;
      var todo := bits.Keys;
      while todo != {}
        invariant todo <= bits.Keys
        invariant !has ==> min == U32_MOD - 1
        invariant has ==> idx in bits && min == bits[idx] && !exclude(idx) && HasBit(Length, Data, idx)
        invariant forall k :: k in bits && k !in todo && !exclude(k) && HasBit(Length, Data, k) ==> has && min <= bits[k]
      {
        var index :| index in todo;
        todo := todo - {index};
        var count := bits[index];
        if exclude(index) {
          continue;
        }
        if count < min && Has(index) {
          min := count;
          idx := index;
          has := true;
        }
      }
    }

    /** The rarest bit of this bitfield that is not excluded. */
    method FindRarest(others: seq<Bitfield>, exclude: u32 -> bool) returns (idx: u32, has: bool)
      requires |others| < U32_MOD - 1
      ensures RarestPick(Value(), ValuesOf(others), Excluded(exclude), if has then Some(idx) else None)
    {
      var bits := CountAll(others);
      idx, has := LeastCommon(bits, exclude);
      forall k: nat | Candidate(Value(), Excluded(exclude), k)
        ensures has && CountIn(ValuesOf(others), idx) <= CountIn(ValuesOf(others), k)
      {
        assert HasBit(Length, Data, k);
        var k': u32 := k;
        assert k' in bits;
      }
    }

    ghost function Excluded(exclude: u32 -> bool): set<nat>
      reads this
    {
      set i: nat | i < Length && exclude(i)
    }
  }

  ghost function ValuesOf(bs: seq<Bitfield>): (vs: seq<Bits>)
    reads bs
    ensures |vs| == |bs| && forall k :: 0 <= k < |bs| ==> vs[k] == bs[k].Value()
  {
    seq(|bs|, k requires 0 <= k < |bs| reads bs => bs[k].Value())
  }

  lemma ValuesAppend(bs: seq<Bitfield>, b: Bitfield)
    ensures ValuesOf(bs + [b]) == ValuesOf(bs) + [b.Value()]
  {
  }

  /** The 0/1 list keeps the length and every bit. */
  method ListRoundTrip(b: Bitfield) returns (same: Bitfield)
    ensures fresh(same) && same.Length == b.Length && same.Value().members == b.Value().members
  {
    var ls := b.MarshalList();
    same := new Bitfield(0, None);
    same.UnmarshalList(ls);
  }
}
