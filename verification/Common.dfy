/** lib/common/piece.go: what peers ask each other for, and what they answer. */
module Common {
  import opened Words

  datatype PieceData = PieceData(index: u32, begin: u32, data: seq<byte>)

  datatype PieceRequest = PieceRequest(index: u32, begin: u32, length: u32) {

    predicate Matches(d: PieceData) {
      length == |d.data| % U32_MOD && begin == d.begin && index == d.index
    }

    predicate Equals(other: PieceRequest) {
      index == other.index && length == other.length && begin == other.begin
    }
  }
}
