/** Zigzag and variable-length integers: what is written is what is read back. */
module Varints {
  import opened Chunks

  datatype Decoded<T> = Value(value: T, used: nat) | Exhausted

  /** A byte with a clear top bit is the last one. */
  predicate Ends(b: byte) {
    b < 0x80
  }

  // ---------------------------------------------------------------------------------------
  // Zigzag, 32 bits
  // ---------------------------------------------------------------------------------------

  /** Signed values are two's-complement words; a set top bit means negative. */
  predicate Negative32(v: bv32) {
    v >= 0x8000_0000
  }

  function EncodeZigzag32(v: bv32): bv32 {
    if Negative32(v) then (0 - v) * 2 - 1 else v * 2
  }

  function DecodeZigzag32(v: bv32): bv32 {
    (v >> 1) ^ (0 - (v & 1))
  }

  lemma NegativeBack32(v: bv32, e: bv32)
    requires v >= 0x8000_0000 && e == (0 - v) * 2 - 1
    ensures (e >> 1) ^ (0 - (e & 1)) == v
  {
  }

  lemma PositiveBack32(v: bv32, e: bv32)
    requires v < 0x8000_0000 && e == v * 2
    ensures (e >> 1) ^ (0 - (e & 1)) == v
  {
  }

  lemma OddIsNegative32(e: bv32, v: bv32)
    requires e & 1 == 1 && v == (e >> 1) ^ (0 - (e & 1))
    ensures v == !(e >> 1)
  {
  }

  lemma OddBack32(e: bv32, v: bv32)
    requires e & 1 == 1 && v == !(e >> 1)
    ensures v >= 0x8000_0000 && (0 - v) * 2 - 1 == e
  {
  }

  lemma EvenIsPositive32(e: bv32, v: bv32)
    requires e & 1 != 1 && v == (e >> 1) ^ (0 - (e & 1))
    ensures v == e >> 1
  {
  }

  lemma EvenBack32(e: bv32, v: bv32)
    requires e & 1 != 1 && v == e >> 1
    ensures v < 0x8000_0000 && v * 2 == e
  {
  }

  /** Decoding undoes encoding on every word, the signed minimum included. */
  lemma ZigzagDecodes32(v: bv32)
    ensures DecodeZigzag32(EncodeZigzag32(v)) == v
  {
    if Negative32(v) {
      NegativeBack32(v, EncodeZigzag32(v));
    } else {
      PositiveBack32(v, EncodeZigzag32(v));
    }
  }

  /** Encoding undoes decoding, so zigzag loses no word either way. */
  lemma ZigzagEncodes32(v: bv32)
    ensures EncodeZigzag32(DecodeZigzag32(v)) == v
  {
    var d := DecodeZigzag32(v);
    if v & 1 == 1 {
      OddIsNegative32(v, d);
      OddBack32(v, d);
    } else {
      EvenIsPositive32(v, d);
      EvenBack32(v, d);
    }
  }

  /** The number a word stands for, bit by bit, and the signed number, by two's complement. */
  function Number32(v: bv32): nat
    decreases v
  {
    if v == 0 then 0 else 2 * Number32(v >> 1) + if v & 1 == 1 then 1 else 0
  }

  function Signed32(v: bv32): int {
    if Negative32(v) then -(Number32(!v) as int) - 1 else Number32(v)
  }

  lemma EvenHalf32(v: bv32, e: bv32)
    requires v < 0x8000_0000 && e == v * 2
    ensures e >> 1 == v && e & 1 == 0 && (e == 0 <==> v == 0)
  {
  }

  lemma OddHalf32(v: bv32, e: bv32)
    requires v >= 0x8000_0000 && e == (0 - v) * 2 - 1
    ensures e >> 1 == !v && e & 1 == 1
  {
  }

  /** Zigzag puts the signed numbers 0, -1, 1, -2, 2, ... in this order. */
  lemma ZigzagNumbers32(v: bv32)
    ensures Number32(EncodeZigzag32(v)) == if Signed32(v) >= 0 then 2 * Signed32(v) else -2 * Signed32(v) - 1
  {
    var e := EncodeZigzag32(v);
    if Negative32(v) {
      OddHalf32(v, e);
      assert Number32(e) == 2 * Number32(!v) + 1;
    } else {
      EvenHalf32(v, e);
      assert Number32(e) == 2 * Number32(v);
    }
  }

  // ---------------------------------------------------------------------------------------
  // Variable-length encoding, 32 bits
  // ---------------------------------------------------------------------------------------

  /** The seven low bits, the rest, and the byte that says more follows. */
  function Low32(v: bv32): bv32 {
    v & 0x7F
  }

  function High32(v: bv32): bv32 {
    v >> 7
  }

  function More32(v: bv32): byte {
    ((v & 0x7F) | 0x80) as byte
  }

  function Or32(a: bv32, b: bv32): bv32 {
    a | b
  }

  function Wide32(b: byte): bv32 {
    b as bv32
  }

  function Payload32(b: byte): bv32 {
    (b & 0x7F) as bv32
  }

  predicate Short32(v: bv32) {
    v < 0x80
  }

  function Last32(v: bv32): byte
    requires Short32(v)
  {
    v as byte
  }

  /** Seven bits a byte, lowest first; the top bit says that more follow. */
  function Encode32(v: bv32): (r: seq<byte>)
    decreases v
  {
    if Short32(v) then [Last32(v)] else [More32(v)] + Encode32(High32(v))
  }

  /** v moved up by 7k bits. */
  function Shift32(v: bv32, k: nat): bv32 {
    match k
    case 0 => v
    case 1 => v << 7
    case 2 => v << 14
    case 3 => v << 21
    case 4 => v << 28
    case _ => 0
  }

  /** The loop of readUint32 from its k-th round on: 5 rounds at most. */
  function Decode32(s: seq<byte>, k: nat, result: bv32): Decoded<bv32>
    decreases 5 - k
  {
    if k >= 5 then Value(result, 0)
    else if |s| == 0 then Exhausted
    else if Ends(s[0]) then Value(Or32(result, Shift32(Wide32(s[0]), k)), 1)
    else
      match Decode32(s[1..], k + 1, Or32(result, Shift32(Payload32(s[0]), k)))
      case Value(value, used) => Value(value, used + 1)
      case Exhausted => Exhausted
  }

  /** v has at most 32 - 7k bits. */
  predicate Fits32(v: bv32, k: nat) {
    match k
    case 0 => true
    case 1 => v < 0x2000000
    case 2 => v < 0x40000
    case 3 => v < 0x800
    case 4 => v < 0x10
    case _ => false
  }

  lemma Bits32At0(v: bv32)
    requires v >= 0x80
    ensures v >> 7 < 0x2000000
    ensures (v & 0x7F) | ((v >> 7) << 7) == v
  {
  }

  lemma Split32At0(v: bv32)
    requires Fits32(v, 0) && !Short32(v)
    ensures Fits32(High32(v), 1)
    ensures Or32(Shift32(Low32(v), 0), Shift32(High32(v), 1)) == Shift32(v, 0)
  {
    Bits32At0(v);
  }

  lemma Bits32At1(v: bv32)
    requires v < 0x2000000 && v >= 0x80
    ensures v >> 7 < 0x40000
    ensures ((v & 0x7F) << 7) | ((v >> 7) << 14) == v << 7
  {
  }

  lemma Split32At1(v: bv32)
    requires Fits32(v, 1) && !Short32(v)
    ensures Fits32(High32(v), 2)
    ensures Or32(Shift32(Low32(v), 1), Shift32(High32(v), 2)) == Shift32(v, 1)
  {
    Bits32At1(v);
  }

  lemma Bits32At2(v: bv32)
    requires v < 0x40000 && v >= 0x80
    ensures v >> 7 < 0x800
    ensures ((v & 0x7F) << 14) | ((v >> 7) << 21) == v << 14
  {
  }

  lemma Split32At2(v: bv32)
    requires Fits32(v, 2) && !Short32(v)
    ensures Fits32(High32(v), 3)
    ensures Or32(Shift32(Low32(v), 2), Shift32(High32(v), 3)) == Shift32(v, 2)
  {
    Bits32At2(v);
  }

  lemma Bits32At3(v: bv32)
    requires v < 0x800 && v >= 0x80
    ensures v >> 7 < 0x10
    ensures ((v & 0x7F) << 21) | ((v >> 7) << 28) == v << 21
  {
  }

  lemma Split32At3(v: bv32)
    requires Fits32(v, 3) && !Short32(v)
    ensures Fits32(High32(v), 4)
    ensures Or32(Shift32(Low32(v), 3), Shift32(High32(v), 4)) == Shift32(v, 3)
  {
    Bits32At3(v);
  }

  lemma Bits32Last(v: bv32, k: nat)
    requires Fits32(v, k) && !Short32(v)
    ensures k < 4
  {
  }

  /** The low seven bits and the rest, each moved up, make up v moved up. */
  lemma Split32(v: bv32, k: nat)
    requires Fits32(v, k) && !Short32(v)
    ensures k < 4 && Fits32(High32(v), k + 1)
    ensures Or32(Shift32(Low32(v), k), Shift32(High32(v), k + 1)) == Shift32(v, k)
  {
    hide Fits32, Shift32, High32, Low32, Or32, Short32;
    Bits32Last(v, k);
    if k == 0 {
      Split32At0(v);
    } else if k == 1 {
      Split32At1(v);
    } else if k == 2 {
      Split32At2(v);
    } else if k == 3 {
      Split32At3(v);
    }
  }

  lemma MoreByte32(v: bv32)
    ensures !Ends(More32(v)) && Payload32(More32(v)) == Low32(v)
  {
  }

  lemma LastByte32(v: bv32)
    requires Short32(v)
    ensures Ends(Last32(v)) && Wide32(Last32(v)) == v
  {
  }

  lemma OrAssociative32(a: bv32, b: bv32, c: bv32)
    ensures Or32(Or32(a, b), c) == Or32(a, Or32(b, c))
  {
  }

  lemma FitsBound32(v: bv32, k: nat)
    requires Fits32(v, k)
    ensures k < 5
  {
  }

  lemma {:induction false} Decodes32(v: bv32, rest: seq<byte>, k: nat, result: bv32)
    requires Fits32(v, k)
    ensures Decode32(Encode32(v) + rest, k, result) == Value(Or32(result, Shift32(v, k)), |Encode32(v)|)
    decreases 5 - k
  {
    hide Fits32, Shift32, High32, Low32, Or32, More32, Wide32, Payload32, Short32, Last32, Ends;
    var s := Encode32(v) + rest;
    FitsBound32(v, k);
    if Short32(v) {
      LastByte32(v);
    } else {
      Split32(v, k);
      MoreByte32(v);
      var low := Or32(result, Shift32(Low32(v), k));
      assert s[1..] == Encode32(High32(v)) + rest;
      Decodes32(High32(v), rest, k + 1, low);
      OrAssociative32(result, Shift32(Low32(v), k), Shift32(High32(v), k + 1));
    }
  }

  lemma {:induction false} EncodeLength32(v: bv32, k: nat)
    requires Fits32(v, k)
    ensures 1 <= |Encode32(v)| <= 5 - k
    decreases 5 - k
  {
    hide Fits32, Shift32, High32, Low32, Or32, More32, Short32, Last32;
    FitsBound32(v, k);
    if !Short32(v) {
      Split32(v, k);
      EncodeLength32(High32(v), k + 1);
    }
  }

  lemma FromNothing32(v: bv32)
    ensures Or32(0, Shift32(v, 0)) == v && Fits32(v, 0)
  {
  }

  /** Every word comes back from its encoding, whatever bytes follow, and exactly the bytes of the
      encoding are used, which are one to 5. */
  lemma RoundTrip32(v: bv32, rest: seq<byte>)
    ensures Decode32(Encode32(v) + rest, 0, 0) == Value(v, |Encode32(v)|)
    ensures 1 <= |Encode32(v)| <= 5
  {
    hide Or32, Shift32, Fits32, Encode32, Decode32;
    FromNothing32(v);
    Decodes32(v, rest, 0, 0);
    EncodeLength32(v, 0);
  }

  /** On any bytes whatever, decoding reads up to the first byte with a clear top bit, or 5 bytes if none of those
      has one, and fails exactly when the bytes run out before that. */
  lemma {:induction false} DecodeReads32(s: seq<byte>, k: nat, result: bv32, e: nat)
    requires k <= 5 && e <= |s| && e <= 5 - k && (forall j :: 0 <= j < e ==> !Ends(s[j]))
    requires e == 5 - k || e == |s| || Ends(s[e])
    ensures Decode32(s, k, result).Exhausted? <==> e == |s| < 5 - k
    ensures Decode32(s, k, result).Value? ==> Decode32(s, k, result).used == if e < 5 - k then e + 1 else e
    decreases e
  {
    hide Ends, Or32, Shift32, Payload32, Wide32;
    if e > 0 {
      DecodeReads32(s[1..], k + 1, Or32(result, Shift32(Payload32(s[0]), k)), e - 1);
    }
  }

  /** v without its k lowest groups of seven bits. */
  function Drop32(v: bv32, k: nat): bv32 {
    if k == 0 then v else Drop32(High32(v), k - 1)
  }

  predicate Empty32(v: bv32) {
    v == 0
  }

  lemma DropOne32(v: bv32, k: nat)
    ensures Short32(v) <==> Empty32(High32(v))
    ensures Drop32(v, 0) == v && Drop32(v, k + 1) == Drop32(High32(v), k)
  {
    assert Drop32(v, k + 1) == Drop32(High32(v), k);
  }

  lemma UnfoldEncode32(v: bv32)
    ensures |Encode32(v)| > 0 && |Encode32(High32(v))| > 0
    ensures Encode32(v) == if Short32(v) then [Last32(v)] else [More32(v)] + Encode32(High32(v))
  {
    hide High32, More32, Short32, Last32;
  }

  /** Byte k of an encoding carries the k-th group of seven bits, lowest first; the top bit is clear in the last
      byte alone, after which no bits are left, and no shorter encoding would do. */
  lemma {:induction false} EncodesGroups32(v: bv32, k: nat)
    requires k < |Encode32(v)|
    ensures Payload32(Encode32(v)[k]) == Low32(Drop32(v, k))
    ensures Ends(Encode32(v)[k]) <==> k == |Encode32(v)| - 1
    ensures Empty32(Drop32(v, k + 1)) <==> k == |Encode32(v)| - 1
    decreases k
  {
    hide *;
    UnfoldEncode32(v);
    DropOne32(v, k);
    DropOne32(High32(v), 0);
    if Short32(v) {
      LastPayload32(v);
    } else {
      MoreByte32(v);
      if k > 0 {
        DropOne32(v, k - 1);
        EncodesGroups32(High32(v), k - 1);
      }
    }
  }

  lemma LastPayload32(v: bv32)
    requires Short32(v)
    ensures Ends(Last32(v)) && Payload32(Last32(v)) == Low32(v)
  {
  }

  // ---------------------------------------------------------------------------------------
  // Zigzag, 64 bits
  // ---------------------------------------------------------------------------------------

  /** Signed values are two's-complement words; a set top bit means negative. */
  predicate Negative64(v: bv64) {
    v >= 0x8000_0000_0000_0000
  }

  function EncodeZigzag64(v: bv64): bv64 {
    if Negative64(v) then (0 - v) * 2 - 1 else v * 2
  }

  function DecodeZigzag64(v: bv64): bv64 {
    (v >> 1) ^ (0 - (v & 1))
  }

  lemma NegativeBack64(v: bv64, e: bv64)
    requires v >= 0x8000_0000_0000_0000 && e == (0 - v) * 2 - 1
    ensures (e >> 1) ^ (0 - (e & 1)) == v
  {
  }

  lemma PositiveBack64(v: bv64, e: bv64)
    requires v < 0x8000_0000_0000_0000 && e == v * 2
    ensures (e >> 1) ^ (0 - (e & 1)) == v
  {
  }

  lemma OddIsNegative64(e: bv64, v: bv64)
    requires e & 1 == 1 && v == (e >> 1) ^ (0 - (e & 1))
    ensures v == !(e >> 1)
  {
  }

  lemma OddBack64(e: bv64, v: bv64)
    requires e & 1 == 1 && v == !(e >> 1)
    ensures v >= 0x8000_0000_0000_0000 && (0 - v) * 2 - 1 == e
  {
  }

  lemma EvenIsPositive64(e: bv64, v: bv64)
    requires e & 1 != 1 && v == (e >> 1) ^ (0 - (e & 1))
    ensures v == e >> 1
  {
  }

  lemma EvenBack64(e: bv64, v: bv64)
    requires e & 1 != 1 && v == e >> 1
    ensures v < 0x8000_0000_0000_0000 && v * 2 == e
  {
  }

  /** Decoding undoes encoding on every word, the signed minimum included. */
  lemma ZigzagDecodes64(v: bv64)
    ensures DecodeZigzag64(EncodeZigzag64(v)) == v
  {
    if Negative64(v) {
      NegativeBack64(v, EncodeZigzag64(v));
    } else {
      PositiveBack64(v, EncodeZigzag64(v));
    }
  }

  /** Encoding undoes decoding, so zigzag loses no word either way. */
  lemma ZigzagEncodes64(v: bv64)
    ensures EncodeZigzag64(DecodeZigzag64(v)) == v
  {
    var d := DecodeZigzag64(v);
    if v & 1 == 1 {
      OddIsNegative64(v, d);
      OddBack64(v, d);
    } else {
      EvenIsPositive64(v, d);
      EvenBack64(v, d);
    }
  }

  /** The number a word stands for, bit by bit, and the signed number, by two's complement. */
  function Number64(v: bv64): nat
    decreases v
  {
    if v == 0 then 0 else 2 * Number64(v >> 1) + if v & 1 == 1 then 1 else 0
  }

  function Signed64(v: bv64): int {
    if Negative64(v) then -(Number64(!v) as int) - 1 else Number64(v)
  }

  lemma EvenHalf64(v: bv64, e: bv64)
    requires v < 0x8000_0000_0000_0000 && e == v * 2
    ensures e >> 1 == v && e & 1 == 0 && (e == 0 <==> v == 0)
  {
  }

  lemma OddHalf64(v: bv64, e: bv64)
    requires v >= 0x8000_0000_0000_0000 && e == (0 - v) * 2 - 1
    ensures e >> 1 == !v && e & 1 == 1
  {
  }

  /** Zigzag puts the signed numbers 0, -1, 1, -2, 2, ... in this order. */
  lemma ZigzagNumbers64(v: bv64)
    ensures Number64(EncodeZigzag64(v)) == if Signed64(v) >= 0 then 2 * Signed64(v) else -2 * Signed64(v) - 1
  {
    var e := EncodeZigzag64(v);
    if Negative64(v) {
      OddHalf64(v, e);
      assert Number64(e) == 2 * Number64(!v) + 1;
    } else {
      EvenHalf64(v, e);
      assert Number64(e) == 2 * Number64(v);
    }
  }

  // ---------------------------------------------------------------------------------------
  // Variable-length encoding, 64 bits
  // ---------------------------------------------------------------------------------------

  /** The seven low bits, the rest, and the byte that says more follows. */
  function Low64(v: bv64): bv64 {
    v & 0x7F
  }

  function High64(v: bv64): bv64 {
    v >> 7
  }

  function More64(v: bv64): byte {
    ((v & 0x7F) | 0x80) as byte
  }

  function Or64(a: bv64, b: bv64): bv64 {
    a | b
  }

  function Wide64(b: byte): bv64 {
    b as bv64
  }

  function Payload64(b: byte): bv64 {
    (b & 0x7F) as bv64
  }

  predicate Short64(v: bv64) {
    v < 0x80
  }

  function Last64(v: bv64): byte
    requires Short64(v)
  {
    v as byte
  }

  /** Seven bits a byte, lowest first; the top bit says that more follow. */
  function Encode64(v: bv64): (r: seq<byte>)
    decreases v
  {
    if Short64(v) then [Last64(v)] else [More64(v)] + Encode64(High64(v))
  }

  /** v moved up by 7k bits. */
  function Shift64(v: bv64, k: nat): bv64 {
    match k
    case 0 => v
    case 1 => v << 7
    case 2 => v << 14
    case 3 => v << 21
    case 4 => v << 28
    case 5 => v << 35
    case 6 => v << 42
    case 7 => v << 49
    case 8 => v << 56
    case 9 => v << 63
    case _ => 0
  }

  /** The loop of readUint64 from its k-th round on: 10 rounds at most. */
  function Decode64(s: seq<byte>, k: nat, result: bv64): Decoded<bv64>
    decreases 10 - k
  {
    if k >= 10 then Value(result, 0)
    else if |s| == 0 then Exhausted
    else if Ends(s[0]) then Value(Or64(result, Shift64(Wide64(s[0]), k)), 1)
    else
      match Decode64(s[1..], k + 1, Or64(result, Shift64(Payload64(s[0]), k)))
      case Value(value, used) => Value(value, used + 1)
      case Exhausted => Exhausted
  }

  /** v has at most 64 - 7k bits. */
  predicate Fits64(v: bv64, k: nat) {
    match k
    case 0 => true
    case 1 => v < 0x200000000000000
    case 2 => v < 0x4000000000000
    case 3 => v < 0x80000000000
    case 4 => v < 0x1000000000
    case 5 => v < 0x20000000
    case 6 => v < 0x400000
    case 7 => v < 0x8000
    case 8 => v < 0x100
    case 9 => v < 0x2
    case _ => false
  }

  lemma Bits64At0(v: bv64)
    requires v >= 0x80
    ensures v >> 7 < 0x200000000000000
    ensures (v & 0x7F) | ((v >> 7) << 7) == v
  {
  }

  lemma Split64At0(v: bv64)
    requires Fits64(v, 0) && !Short64(v)
    ensures Fits64(High64(v), 1)
    ensures Or64(Shift64(Low64(v), 0), Shift64(High64(v), 1)) == Shift64(v, 0)
  {
    Bits64At0(v);
  }

  lemma Bits64At1(v: bv64)
    requires v < 0x200000000000000 && v >= 0x80
    ensures v >> 7 < 0x4000000000000
    ensures ((v & 0x7F) << 7) | ((v >> 7) << 14) == v << 7
  {
  }

  lemma Split64At1(v: bv64)
    requires Fits64(v, 1) && !Short64(v)
    ensures Fits64(High64(v), 2)
    ensures Or64(Shift64(Low64(v), 1), Shift64(High64(v), 2)) == Shift64(v, 1)
  {
    Bits64At1(v);
  }

  lemma Bits64At2(v: bv64)
    requires v < 0x4000000000000 && v >= 0x80
    ensures v >> 7 < 0x80000000000
    ensures ((v & 0x7F) << 14) | ((v >> 7) << 21) == v << 14
  {
  }

  lemma Split64At2(v: bv64)
    requires Fits64(v, 2) && !Short64(v)
    ensures Fits64(High64(v), 3)
    ensures Or64(Shift64(Low64(v), 2), Shift64(High64(v), 3)) == Shift64(v, 2)
  {
    Bits64At2(v);
  }

  lemma Bits64At3(v: bv64)
    requires v < 0x80000000000 && v >= 0x80
    ensures v >> 7 < 0x1000000000
    ensures ((v & 0x7F) << 21) | ((v >> 7) << 28) == v << 21
  {
  }

  lemma Split64At3(v: bv64)
    requires Fits64(v, 3) && !Short64(v)
    ensures Fits64(High64(v), 4)
    ensures Or64(Shift64(Low64(v), 3), Shift64(High64(v), 4)) == Shift64(v, 3)
  {
    Bits64At3(v);
  }

  lemma Bits64At4(v: bv64)
    requires v < 0x1000000000 && v >= 0x80
    ensures v >> 7 < 0x20000000
    ensures ((v & 0x7F) << 28) | ((v >> 7) << 35) == v << 28
  {
  }

  lemma Split64At4(v: bv64)
    requires Fits64(v, 4) && !Short64(v)
    ensures Fits64(High64(v), 5)
    ensures Or64(Shift64(Low64(v), 4), Shift64(High64(v), 5)) == Shift64(v, 4)
  {
    Bits64At4(v);
  }

  lemma Bits64At5(v: bv64)
    requires v < 0x20000000 && v >= 0x80
    ensures v >> 7 < 0x400000
    ensures ((v & 0x7F) << 35) | ((v >> 7) << 42) == v << 35
  {
  }

  lemma Split64At5(v: bv64)
    requires Fits64(v, 5) && !Short64(v)
    ensures Fits64(High64(v), 6)
    ensures Or64(Shift64(Low64(v), 5), Shift64(High64(v), 6)) == Shift64(v, 5)
  {
    Bits64At5(v);
  }

  lemma Bits64At6(v: bv64)
    requires v < 0x400000 && v >= 0x80
    ensures v >> 7 < 0x8000
    ensures ((v & 0x7F) << 42) | ((v >> 7) << 49) == v << 42
  {
  }

  lemma Split64At6(v: bv64)
    requires Fits64(v, 6) && !Short64(v)
    ensures Fits64(High64(v), 7)
    ensures Or64(Shift64(Low64(v), 6), Shift64(High64(v), 7)) == Shift64(v, 6)
  {
    Bits64At6(v);
  }

  lemma Bits64At7(v: bv64)
    requires v < 0x8000 && v >= 0x80
    ensures v >> 7 < 0x100
    ensures ((v & 0x7F) << 49) | ((v >> 7) << 56) == v << 49
  {
  }

  lemma Split64At7(v: bv64)
    requires Fits64(v, 7) && !Short64(v)
    ensures Fits64(High64(v), 8)
    ensures Or64(Shift64(Low64(v), 7), Shift64(High64(v), 8)) == Shift64(v, 7)
  {
    Bits64At7(v);
  }

  lemma Bits64At8(v: bv64)
    requires v < 0x100 && v >= 0x80
    ensures v >> 7 < 0x2
    ensures ((v & 0x7F) << 56) | ((v >> 7) << 63) == v << 56
  {
  }

  lemma Split64At8(v: bv64)
    requires Fits64(v, 8) && !Short64(v)
    ensures Fits64(High64(v), 9)
    ensures Or64(Shift64(Low64(v), 8), Shift64(High64(v), 9)) == Shift64(v, 8)
  {
    Bits64At8(v);
  }

  lemma Bits64Last(v: bv64, k: nat)
    requires Fits64(v, k) && !Short64(v)
    ensures k < 9
  {
  }

  /** The low seven bits and the rest, each moved up, make up v moved up. */
  lemma Split64(v: bv64, k: nat)
    requires Fits64(v, k) && !Short64(v)
    ensures k < 9 && Fits64(High64(v), k + 1)
    ensures Or64(Shift64(Low64(v), k), Shift64(High64(v), k + 1)) == Shift64(v, k)
  {
    hide Fits64, Shift64, High64, Low64, Or64, Short64;
    Bits64Last(v, k);
    if k == 0 {
      Split64At0(v);
    } else if k == 1 {
      Split64At1(v);
    } else if k == 2 {
      Split64At2(v);
    } else if k == 3 {
      Split64At3(v);
    } else if k == 4 {
      Split64At4(v);
    } else if k == 5 {
      Split64At5(v);
    } else if k == 6 {
      Split64At6(v);
    } else if k == 7 {
      Split64At7(v);
    } else if k == 8 {
      Split64At8(v);
    }
  }

  lemma MoreByte64(v: bv64)
    ensures !Ends(More64(v)) && Payload64(More64(v)) == Low64(v)
  {
  }

  lemma LastByte64(v: bv64)
    requires Short64(v)
    ensures Ends(Last64(v)) && Wide64(Last64(v)) == v
  {
  }

  lemma OrAssociative64(a: bv64, b: bv64, c: bv64)
    ensures Or64(Or64(a, b), c) == Or64(a, Or64(b, c))
  {
  }

  lemma FitsBound64(v: bv64, k: nat)
    requires Fits64(v, k)
    ensures k < 10
  {
  }

  lemma {:induction false} Decodes64(v: bv64, rest: seq<byte>, k: nat, result: bv64)
    requires Fits64(v, k)
    ensures Decode64(Encode64(v) + rest, k, result) == Value(Or64(result, Shift64(v, k)), |Encode64(v)|)
    decreases 10 - k
  {
    hide Fits64, Shift64, High64, Low64, Or64, More64, Wide64, Payload64, Short64, Last64, Ends;
    var s := Encode64(v) + rest;
    FitsBound64(v, k);
    if Short64(v) {
      LastByte64(v);
    } else {
      Split64(v, k);
      MoreByte64(v);
      var low := Or64(result, Shift64(Low64(v), k));
      assert s[1..] == Encode64(High64(v)) + rest;
      Decodes64(High64(v), rest, k + 1, low);
      OrAssociative64(result, Shift64(Low64(v), k), Shift64(High64(v), k + 1));
    }
  }

  lemma {:induction false} EncodeLength64(v: bv64, k: nat)
    requires Fits64(v, k)
    ensures 1 <= |Encode64(v)| <= 10 - k
    decreases 10 - k
  {
    hide Fits64, Shift64, High64, Low64, Or64, More64, Short64, Last64;
    FitsBound64(v, k);
    if !Short64(v) {
      Split64(v, k);
      EncodeLength64(High64(v), k + 1);
    }
  }

  lemma FromNothing64(v: bv64)
    ensures Or64(0, Shift64(v, 0)) == v && Fits64(v, 0)
  {
  }

  /** Every word comes back from its encoding, whatever bytes follow, and exactly the bytes of the
      encoding are used, which are one to 10. */
  lemma RoundTrip64(v: bv64, rest: seq<byte>)
    ensures Decode64(Encode64(v) + rest, 0, 0) == Value(v, |Encode64(v)|)
    ensures 1 <= |Encode64(v)| <= 10
  {
    hide Or64, Shift64, Fits64, Encode64, Decode64;
    FromNothing64(v);
    Decodes64(v, rest, 0, 0);
    EncodeLength64(v, 0);
  }

  /** On any bytes whatever, decoding reads up to the first byte with a clear top bit, or 10 bytes if none of those
      has one, and fails exactly when the bytes run out before that. */
  lemma {:induction false} DecodeReads64(s: seq<byte>, k: nat, result: bv64, e: nat)
    requires k <= 10 && e <= |s| && e <= 10 - k && (forall j :: 0 <= j < e ==> !Ends(s[j]))
    requires e == 10 - k || e == |s| || Ends(s[e])
    ensures Decode64(s, k, result).Exhausted? <==> e == |s| < 10 - k
    ensures Decode64(s, k, result).Value? ==> Decode64(s, k, result).used == if e < 10 - k then e + 1 else e
    decreases e
  {
    hide Ends, Or64, Shift64, Payload64, Wide64;
    if e > 0 {
      DecodeReads64(s[1..], k + 1, Or64(result, Shift64(Payload64(s[0]), k)), e - 1);
    }
  }

  /** v without its k lowest groups of seven bits. */
  function Drop64(v: bv64, k: nat): bv64 {
    if k == 0 then v else Drop64(High64(v), k - 1)
  }

  predicate Empty64(v: bv64) {
    v == 0
  }

  lemma DropOne64(v: bv64, k: nat)
    ensures Short64(v) <==> Empty64(High64(v))
    ensures Drop64(v, 0) == v && Drop64(v, k + 1) == Drop64(High64(v), k)
  {
    assert Drop64(v, k + 1) == Drop64(High64(v), k);
  }

  lemma UnfoldEncode64(v: bv64)
    ensures |Encode64(v)| > 0 && |Encode64(High64(v))| > 0
    ensures Encode64(v) == if Short64(v) then [Last64(v)] else [More64(v)] + Encode64(High64(v))
  {
    hide High64, More64, Short64, Last64;
  }

  /** Byte k of an encoding carries the k-th group of seven bits, lowest first; the top bit is clear in the last
      byte alone, after which no bits are left, and no shorter encoding would do. */
  lemma {:induction false} EncodesGroups64(v: bv64, k: nat)
    requires k < |Encode64(v)|
    ensures Payload64(Encode64(v)[k]) == Low64(Drop64(v, k))
    ensures Ends(Encode64(v)[k]) <==> k == |Encode64(v)| - 1
    ensures Empty64(Drop64(v, k + 1)) <==> k == |Encode64(v)| - 1
    decreases k
  {
    hide *;
    UnfoldEncode64(v);
    DropOne64(v, k);
    DropOne64(High64(v), 0);
    if Short64(v) {
      LastPayload64(v);
    } else {
      MoreByte64(v);
      if k > 0 {
        DropOne64(v, k - 1);
        EncodesGroups64(High64(v), k - 1);
      }
    }
  }

  lemma LastPayload64(v: bv64)
    requires Short64(v)
    ensures Ends(Last64(v)) && Payload64(Last64(v)) == Low64(v)
  {
  }
}
