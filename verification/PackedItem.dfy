/** The encoding of a queue item as a member of the Redis sorted set. */
module PackedItem {
  import opened Bytes

  datatype PackArgs = PackArgs(
    data: seq<byte>,
    minTargetBlock: uint64,
    maxTargetBlock: uint64,
    highPriority: bool,
    timestamp: int64,
    iteration: uint16)

  datatype Unpacked = Unpacked(args: PackArgs) | InvalidPackedData

  const HEADER: nat := 19

  function PriorityByte(highPriority: bool): byte {
    if highPriority then 0 else 1
  }

  /** priority (1 byte), iteration (2), timestamp (8), max block (8), payload. */
  function Packed(a: PackArgs): (bs: seq<byte>)
    ensures |bs| == HEADER + |a.data|
  {
    [PriorityByte(a.highPriority)] + (BigEndian(a.iteration, 2) +
      (BigEndian(AsUint64(a.timestamp), 8) + (BigEndian(a.maxTargetBlock, 8) + a.data)))
  }

  function Score(a: PackArgs): nat {
    ToFloat64(a.minTargetBlock)
  }

  /** Go leaves the conversion of a score of 2^64 to the platform; amd64 yields 2^63. */
  function ScoreToUint64(score: nat): uint64 {
    if score < TWO_64 then score else TWO_63
  }

  function Uint16At(bs: seq<byte>, i: nat): uint16
    requires i + 2 <= |bs|
  {
    WordWidths();
    FromBigEndianBound(bs[i..i + 2]);
    FromBigEndian(bs[i..i + 2])
  }

  function Uint64At(bs: seq<byte>, i: nat): uint64
    requires i + 8 <= |bs|
  {
    WordWidths();
    FromBigEndianBound(bs[i..i + 8]);
    FromBigEndian(bs[i..i + 8])
  }

  function UnpackData(score: nat, packedData: seq<byte>): Unpacked {
    if |packedData| < HEADER then InvalidPackedData
    else Unpacked(PackArgs(
      packedData[19..],
      ScoreToUint64(score),
      Uint64At(packedData, 11),
      packedData[0] == 0,
      AsInt64(Uint64At(packedData, 3)),
      Uint16At(packedData, 1)))
  }

  // Writing into the buffer

  method PutBigEndian(value: array<byte>, at: nat, width: nat, n: nat)
    requires at + width <= value.Length
    modifies value
    ensures value[at..at + width] == BigEndian(n, width)
    ensures value[..at] == old(value[..at])
    ensures value[at + width..] == old(value[at + width..])
  {
    var i := width;
    var rest := n;
    while i > 0
      invariant 0 <= i <= width
      invariant BigEndian(rest, i) + value[at + i..at + width] == BigEndian(n, width)
      invariant forall k :: 0 <= k < at ==> value[k] == old(value[k])
      invariant forall k :: at + width <= k < value.Length ==> value[k] == old(value[k])
    {
      ghost var tail := value[at + i..at + width];
      i := i - 1;
      value[at + i] := rest % 256;
      assert value[at + i..at + width] == [rest % 256] + tail;
      assert BigEndian(rest, i + 1) + tail == BigEndian(rest / 256, i) + ([rest % 256] + tail);
      rest := rest / 256;
    }
  }

  method PackData(a: PackArgs) returns (score: nat, value: array<byte>)
    ensures fresh(value)
    ensures score == Score(a)
    ensures value[..] == Packed(a)
  {
    score := ToFloat64(a.minTargetBlock);
    value := new byte[HEADER + |a.data|](_ => 0);
    if a.highPriority {
      value[0] := 0;
    } else {
      value[0] := 1;
    }
    assert value[..1] == [PriorityByte(a.highPriority)];
    PutBigEndian(value, 1, 2, a.iteration);
    assert value[..3] == value[..1] + value[1..3];
    PutBigEndian(value, 3, 8, AsUint64(a.timestamp));
    assert value[..11] == value[..3] + value[3..11];
    PutBigEndian(value, 11, 8, a.maxTargetBlock);
    assert value[..19] == value[..11] + value[11..19];
    ghost var header := value[..19];
    CopyInto(value, 19, a.data);
    assert value[..] == header + a.data;
  }

  method CopyInto(value: array<byte>, at: nat, data: seq<byte>)
    requires at + |data| == value.Length
    modifies value
    ensures value[..at] == old(value[..at])
    ensures value[at..] == data
  {
    var i := 0;
    while i < |data|
      invariant 0 <= i <= |data|
      invariant forall k :: 0 <= k < at ==> value[k] == old(value[k])
      invariant forall k :: 0 <= k < i ==> value[at + k] == data[k]
    {
      value[at + i] := data[i];
      i := i + 1;
    }
  }

  // Round trip

  lemma PackedFields(a: PackArgs)
    ensures var bs := Packed(a);
            && bs[0] == PriorityByte(a.highPriority)
            && bs[1..3] == BigEndian(a.iteration, 2)
            && bs[3..11] == BigEndian(AsUint64(a.timestamp), 8)
            && bs[11..19] == BigEndian(a.maxTargetBlock, 8)
            && bs[19..] == a.data
  {
  }

  /** What unpacking recovers, for every item: all fields but the block, which goes through the score. */
  lemma UnpackOfPacked(a: PackArgs)
    ensures UnpackData(Score(a), Packed(a)) ==
            Unpacked(a.(minTargetBlock := ScoreToUint64(Score(a))))
  {
    PackedFields(a);
    WordWidths();
    BigEndianRoundTrip(a.iteration, 2);
    BigEndianRoundTrip(AsUint64(a.timestamp), 8);
    BigEndianRoundTrip(a.maxTargetBlock, 8);
  }

  /** An item survives the round trip exactly when its block is a binary64 number. */
  lemma RoundTripIff(a: PackArgs)
    ensures UnpackData(Score(a), Packed(a)) == Unpacked(a) <==> a.minTargetBlock % Ulp(a.minTargetBlock) == 0
  {
    UnpackOfPacked(a);
    Float64ExactIff(a.minTargetBlock);
    if Score(a) >= TWO_64 && a.minTargetBlock == TWO_63 {
      TwoTo63IsExact();
    }
  }

  lemma TwoTo63IsExact()
    ensures ToFloat64(TWO_63) == TWO_63
  {
    assert Ulp(TWO_53) == 2;
    assert Ulp(0x100_0000_0000_0000) == 16;
    assert Ulp(0x800_0000_0000_0000) == 128;
    assert Ulp(0x4000_0000_0000_0000) == 1024;
    assert Ulp(TWO_63) == 2048;
    Float64ExactIff(TWO_63);
  }

  // Order

  /** The documented scheduling order: block, high priority first, retries, submission time, max block, payload. */
  predicate ScheduledBefore(a: PackArgs, b: PackArgs) {
    if a.minTargetBlock != b.minTargetBlock then a.minTargetBlock < b.minTargetBlock
    else if a.highPriority != b.highPriority then a.highPriority
    else if a.iteration != b.iteration then a.iteration < b.iteration
    else if a.timestamp != b.timestamp then a.timestamp < b.timestamp
    else if a.maxTargetBlock != b.maxTargetBlock then a.maxTargetBlock < b.maxTargetBlock
    else LexLess(a.data, b.data)
  }

  /** The order of a Redis sorted set: score first, then the member bytes. */
  predicate SortedSetLess(scoreA: nat, memberA: seq<byte>, scoreB: nat, memberB: seq<byte>) {
    scoreA < scoreB || (scoreA == scoreB && LexLess(memberA, memberB))
  }

  /** An item whose block is exact as a score and whose timestamp is not before 1970. */
  predicate Schedulable(a: PackArgs) {
    a.minTargetBlock <= TWO_53 && a.timestamp >= 0
  }

  /** Priority, iteration, time as an unsigned word, max block and payload put `a` first. */
  predicate FieldsBefore(a: PackArgs, b: PackArgs) {
    if a.highPriority != b.highPriority then a.highPriority
    else if a.iteration != b.iteration then a.iteration < b.iteration
    else if a.timestamp != b.timestamp then AsUint64(a.timestamp) < AsUint64(b.timestamp)
    else if a.maxTargetBlock != b.maxTargetBlock then a.maxTargetBlock < b.maxTargetBlock
    else LexLess(a.data, b.data)
  }

  /** The packed bytes compare as the fields do, timestamps being compared as unsigned words. */
  lemma MemberOrder(a: PackArgs, b: PackArgs)
    ensures LexLess(Packed(a), Packed(b)) <==> FieldsBefore(a, b)
  {
    WordWidths();
    var tailA, tailB := BigEndian(a.maxTargetBlock, 8) + a.data, BigEndian(b.maxTargetBlock, 8) + b.data;
    var timeA, timeB := AsUint64(a.timestamp), AsUint64(b.timestamp);
    var restA, restB := BigEndian(timeA, 8) + tailA, BigEndian(timeB, 8) + tailB;
    LexConcat([PriorityByte(a.highPriority)], BigEndian(a.iteration, 2) + restA,
              [PriorityByte(b.highPriority)], BigEndian(b.iteration, 2) + restB);
    LexConcat(BigEndian(a.iteration, 2), restA, BigEndian(b.iteration, 2), restB);
    BigEndianOrder(a.iteration, b.iteration, 2);
    LexConcat(BigEndian(timeA, 8), tailA, BigEndian(timeB, 8), tailB);
    BigEndianOrder(timeA, timeB, 8);
    LexConcat(BigEndian(a.maxTargetBlock, 8), a.data, BigEndian(b.maxTargetBlock, 8), b.data);
    BigEndianOrder(a.maxTargetBlock, b.maxTargetBlock, 8);
  }

  /** Redis sorts packed items exactly in the documented order. */
  lemma SortedSetOrderIsSchedulingOrder(a: PackArgs, b: PackArgs)
    requires Schedulable(a) && Schedulable(b)
    ensures SortedSetLess(Score(a), Packed(a), Score(b), Packed(b)) <==> ScheduledBefore(a, b)
  {
    MemberOrder(a, b);
    Float64ExactUpTo53Bits(a.minTargetBlock);
    Float64ExactUpTo53Bits(b.minTargetBlock);
  }

  /** The timestamps are what decides between two items for the same block. */
  predicate TimeDecides(a: PackArgs, b: PackArgs) {
    a.highPriority == b.highPriority && a.iteration == b.iteration && a.timestamp != b.timestamp
  }

  /**
   For any two items: Redis sorts them as documented exactly when, for the same block, timestamps that
   decide have the same sign, and for different blocks, either the blocks are different as binary64
   numbers or the other fields order the items the same way.
   */
  lemma OrderAgreesIff(a: PackArgs, b: PackArgs)
    ensures (SortedSetLess(Score(a), Packed(a), Score(b), Packed(b)) <==> ScheduledBefore(a, b)) <==>
            if a.minTargetBlock == b.minTargetBlock
            then TimeDecides(a, b) ==> (a.timestamp < 0 <==> b.timestamp < 0)
            else
              || ToFloat64(a.minTargetBlock) != ToFloat64(b.minTargetBlock)
              || (FieldsBefore(a, b) <==> a.minTargetBlock < b.minTargetBlock)
  {
    MemberOrder(a, b);
    if a.minTargetBlock < b.minTargetBlock {
      Float64Monotone(a.minTargetBlock, b.minTargetBlock);
    } else if b.minTargetBlock < a.minTargetBlock {
      Float64Monotone(b.minTargetBlock, a.minTargetBlock);
    }
  }

  /** An item from before 1970 is sorted after a later one. */
  lemma NegativeTimeSortsLate(a: PackArgs, time: int64)
    requires a.timestamp < 0 <= time
    ensures var b := a.(timestamp := time);
            ScheduledBefore(a, b) && SortedSetLess(Score(b), Packed(b), Score(a), Packed(a))
  {
    MemberOrder(a.(timestamp := time), a);
  }

  /** Past 2^53 a lower block can be sorted after a higher one. */
  lemma BlocksPast53BitsCollide(late: PackArgs, early: PackArgs)
    requires early.minTargetBlock == TWO_53 && late.minTargetBlock == TWO_53 + 1
    requires late.highPriority && !early.highPriority
    ensures ScheduledBefore(early, late)
    ensures SortedSetLess(Score(late), Packed(late), Score(early), Packed(early))
  {
    MemberOrder(late, early);
    assert Ulp(TWO_53) == 2 && Ulp(TWO_53 + 1) == 2;
  }

  /** The scheduling order is a strict total order, so the least queued item is unique. */
  lemma ScheduledBeforeIsTotalOrder(a: PackArgs, b: PackArgs, c: PackArgs)
    ensures !ScheduledBefore(a, a)
    ensures ScheduledBefore(a, b) || ScheduledBefore(b, a) || a == b
    ensures ScheduledBefore(a, b) && ScheduledBefore(b, c) ==> ScheduledBefore(a, c)
  {
    LexTrichotomy(a.data, a.data);
    LexTrichotomy(a.data, b.data);
    if LexLess(a.data, b.data) && LexLess(b.data, c.data) {
      LexTransitive(a.data, b.data, c.data);
    }
  }
}
