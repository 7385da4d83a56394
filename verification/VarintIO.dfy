/** writeInt32, readInt32 and their 64-bit and unsigned forms over a ByteArray. */
module VarintIO {
  import opened Chunks
  import opened ByteArrays
  import opened Varints

  method Store(tmp: array<byte>, i: nat, b: byte)
    requires i < tmp.Length
    modifies tmp
    ensures tmp[..i + 1] == old(tmp[..i]) + [b]
  {
    tmp[i] := b;
  }

  // ---------------------------------------------------------------------------------------
  // 32 bits
  // ---------------------------------------------------------------------------------------

  method WriteUint32(ba: ByteArray, value: bv32)
    requires ba.Valid()
    modifies ba, ba.links, ba.memory
    ensures ba.Valid() && fresh(ba.links - old(ba.links)) && fresh(ba.memory - old(ba.memory))
    ensures ba.position == old(ba.position) + |Encode32(value)|
    ensures ba.Data() == Overwrite(old(ba.Data()), old(ba.position), Encode32(value))
  {
    var tmp := Fill32(value);
    ba.Write(tmp);
  }

  lemma Unfold32(v: bv32)
    ensures |Encode32(v)| > 0
    ensures Short32(v) ==> Encode32(v) == [Last32(v)]
    ensures !Short32(v) ==> Encode32(v) == [More32(v)] + Encode32(High32(v)) && |Encode32(High32(v))| > 0
  {
    hide High32, More32, Short32, Last32;
  }

  /** The loop that fills the local buffer, which has room for 5 bytes. */
  method Fill32(value: bv32) returns (written: seq<byte>)
    ensures written == Encode32(value) && |written| <= 5
  {
    hide *;
    FromNothing32(value);
    EncodeLength32(value, 0);
    Unfold32(value);
    var tmp := new byte[5];
    var i, v := 0, value;
    assert tmp[..i] + Encode32(v) == Encode32(value);
    while !Short32(v)
      invariant 0 <= i && i + |Encode32(v)| <= tmp.Length && tmp[..i] + Encode32(v) == Encode32(value)
      decreases |Encode32(v)|
    {
      Unfold32(v);
      Store(tmp, i, More32(v));
      i := i + 1;
      v := High32(v);
    }
    Unfold32(v);
    Store(tmp, i, Last32(v));
    written := tmp[..i + 1];
  }

  method ReadUint32(ba: ByteArray) returns (r: Result<bv32>)
    requires ba.Valid()
    modifies ba`position, ba`cur, ba`index
    ensures ba.Valid() && ba.Data() == old(ba.Data())
    ensures r == Outcome32(Decode32(old(ba.Data())[old(ba.position)..], 0, 0))
    ensures ba.position == old(ba.position) + Used32(old(ba.Data())[old(ba.position)..])
  {
    hide Or32, Shift32, Payload32, Wide32, Ends;
    var result: bv32 := 0;
    ghost var rest := ba.Data()[ba.position..];
    var k := 0;
    while k < 5
      invariant 0 <= k <= 5 && ba.Valid() && ba.Data() == old(ba.Data())
      invariant k <= |rest| && ba.position == old(ba.position) + k
      invariant Consumed32(rest, k, result)
    {
      hide Decode32;
      StepOf32(rest, k, result);
      var got := ba.Read(1);
      if got.OutOfRange? {
        return OutOfRange;
      }
      var b := got.value[0];
      assert b == rest[k];
      if Ends(b) {
        result := Or32(result, Shift32(Wide32(b), k));
        return Ok(result);
      }
      result := Or32(result, Shift32(Payload32(b), k));
      k := k + 1;
    }
    r := Ok(result);
  }

  function Outcome32(d: Decoded<bv32>): Result<bv32> {
    match d
    case Value(value, _) => Ok(value)
    case Exhausted => OutOfRange
  }

  /** How far reading gets: past the encoding, or past everything there is. */
  function Used32(s: seq<byte>): nat {
    match Decode32(s, 0, 0)
    case Value(_, used) => used
    case Exhausted => |s|
  }

  /** k bytes of s have been read, with this result so far. */
  ghost predicate Consumed32(s: seq<byte>, k: nat, result: bv32)
    requires k <= |s|
  {
    Decode32(s, 0, 0) == Plus32(Decode32(s[k..], k, result), k)
  }

  function Plus32(d: Decoded<bv32>, k: nat): Decoded<bv32> {
    match d
    case Value(value, used) => Value(value, used + k)
    case Exhausted => Exhausted
  }

  /** One round of the reading loop. */
  lemma StepOf32(s: seq<byte>, k: nat, result: bv32)
    requires k < 5 && k <= |s| && Consumed32(s, k, result)
    ensures k == |s| ==> Decode32(s, 0, 0) == Exhausted
    ensures k < |s| && Ends(s[k]) ==> Decode32(s, 0, 0) == Value(Or32(result, Shift32(Wide32(s[k]), k)), k + 1)
    ensures k < |s| && !Ends(s[k]) ==> Consumed32(s, k + 1, Or32(result, Shift32(Payload32(s[k]), k)))
  {
    hide Or32, Shift32, Payload32, Wide32, Ends;
    if k < |s| {
      assert s[k..][0] == s[k] && s[k..][1..] == s[k + 1..];
    }
  }

  method WriteInt32(ba: ByteArray, value: bv32)
    requires ba.Valid()
    modifies ba, ba.links, ba.memory
    ensures ba.Valid() && fresh(ba.links - old(ba.links)) && fresh(ba.memory - old(ba.memory))
    ensures ba.position == old(ba.position) + |Encode32(EncodeZigzag32(value))|
    ensures ba.Data() == Overwrite(old(ba.Data()), old(ba.position), Encode32(EncodeZigzag32(value)))
  {
    WriteUint32(ba, EncodeZigzag32(value));
  }

  method ReadInt32(ba: ByteArray) returns (r: Result<bv32>)
    requires ba.Valid()
    modifies ba`position, ba`cur, ba`index
    ensures ba.Valid() && ba.Data() == old(ba.Data())
    ensures ba.position == old(ba.position) + Used32(old(ba.Data())[old(ba.position)..])
    ensures match Decode32(old(ba.Data())[old(ba.position)..], 0, 0)
            case Value(v, _) => r == Ok(DecodeZigzag32(v))
            case Exhausted => r == OutOfRange
  {
    hide Decode32, DecodeZigzag32;
    var u := ReadUint32(ba);
    r := if u.Ok? then Ok(DecodeZigzag32(u.value)) else OutOfRange;
  }

  /** A signed value written anywhere and followed by anything is read back from there. */
  lemma SignedRoundTrip32(value: bv32, before: seq<byte>, after: seq<byte>)
    ensures var data := before + Encode32(EncodeZigzag32(value)) + after;
            var d := Decode32(data[|before|..], 0, 0);
            d.Value? && DecodeZigzag32(d.value) == value && d.used == |Encode32(EncodeZigzag32(value))|
  {
    hide Decode32, Encode32, EncodeZigzag32, DecodeZigzag32;
    var e := EncodeZigzag32(value);
    assert (before + Encode32(e) + after)[|before|..] == Encode32(e) + after;
    RoundTrip32(e, after);
    ZigzagDecodes32(value);
  }

  /** Write, go back, read: the value returns and the cursor is where writing left it. */
  method WriteThenRead32(ba: ByteArray, value: bv32) returns (r: Result<bv32>)
    requires ba.Valid()
    modifies ba, ba.links, ba.memory
    ensures ba.Valid() && r == Ok(value)
    ensures ba.position == old(ba.position) + |Encode32(EncodeZigzag32(value))|
  {
    hide Decode32, Encode32, EncodeZigzag32, DecodeZigzag32, Concat, Contents, ByteArray.Chained, ByteArray.Owned;
    var start := ba.position;
    ghost var was := ba.Data();
    ghost var code := Encode32(EncodeZigzag32(value));
    WriteInt32(ba, value);
    ghost var tail := if start + |code| < |was| then was[start + |code|..] else [];
    SignedRoundTrip32(value, was[..start], tail);
    var _ := ba.SetPosition(start);
    r := ReadInt32(ba);
  }

  // ---------------------------------------------------------------------------------------
  // 64 bits
  // ---------------------------------------------------------------------------------------

  method WriteUint64(ba: ByteArray, value: bv64)
    requires ba.Valid()
    modifies ba, ba.links, ba.memory
    ensures ba.Valid() && fresh(ba.links - old(ba.links)) && fresh(ba.memory - old(ba.memory))
    ensures ba.position == old(ba.position) + |Encode64(value)|
    ensures ba.Data() == Overwrite(old(ba.Data()), old(ba.position), Encode64(value))
  {
    var tmp := Fill64(value);
    ba.Write(tmp);
  }

  lemma Unfold64(v: bv64)
    ensures |Encode64(v)| > 0
    ensures Short64(v) ==> Encode64(v) == [Last64(v)]
    ensures !Short64(v) ==> Encode64(v) == [More64(v)] + Encode64(High64(v)) && |Encode64(High64(v))| > 0
  {
    hide High64, More64, Short64, Last64;
  }

  /** The loop that fills the local buffer, which has room for 10 bytes. */
  method Fill64(value: bv64) returns (written: seq<byte>)
    ensures written == Encode64(value) && |written| <= 10
  {
    hide *;
    FromNothing64(value);
    EncodeLength64(value, 0);
    Unfold64(value);
    var tmp := new byte[10];
    var i, v := 0, value;
    assert tmp[..i] + Encode64(v) == Encode64(value);
    while !Short64(v)
      invariant 0 <= i && i + |Encode64(v)| <= tmp.Length && tmp[..i] + Encode64(v) == Encode64(value)
      decreases |Encode64(v)|
    {
      Unfold64(v);
      Store(tmp, i, More64(v));
      i := i + 1;
      v := High64(v);
    }
    Unfold64(v);
    Store(tmp, i, Last64(v));
    written := tmp[..i + 1];
  }

  method ReadUint64(ba: ByteArray) returns (r: Result<bv64>)
    requires ba.Valid()
    modifies ba`position, ba`cur, ba`index
    ensures ba.Valid() && ba.Data() == old(ba.Data())
    ensures r == Outcome64(Decode64(old(ba.Data())[old(ba.position)..], 0, 0))
    ensures ba.position == old(ba.position) + Used64(old(ba.Data())[old(ba.position)..])
  {
    hide Or64, Shift64, Payload64, Wide64, Ends;
    var result: bv64 := 0;
    ghost var rest := ba.Data()[ba.position..];
    var k := 0;
    while k < 10
      invariant 0 <= k <= 10 && ba.Valid() && ba.Data() == old(ba.Data())
      invariant k <= |rest| && ba.position == old(ba.position) + k
      invariant Consumed64(rest, k, result)
    {
      hide Decode64;
      StepOf64(rest, k, result);
      var got := ba.Read(1);
      if got.OutOfRange? {
        return OutOfRange;
      }
      var b := got.value[0];
      assert b == rest[k];
      if Ends(b) {
        result := Or64(result, Shift64(Wide64(b), k));
        return Ok(result);
      }
      result := Or64(result, Shift64(Payload64(b), k));
      k := k + 1;
    }
    r := Ok(result);
  }

  function Outcome64(d: Decoded<bv64>): Result<bv64> {
    match d
    case Value(value, _) => Ok(value)
    case Exhausted => OutOfRange
  }

  /** How far reading gets: past the encoding, or past everything there is. */
  function Used64(s: seq<byte>): nat {
    match Decode64(s, 0, 0)
    case Value(_, used) => used
    case Exhausted => |s|
  }

  /** k bytes of s have been read, with this result so far. */
  ghost predicate Consumed64(s: seq<byte>, k: nat, result: bv64)
    requires k <= |s|
  {
    Decode64(s, 0, 0) == Plus64(Decode64(s[k..], k, result), k)
  }

  function Plus64(d: Decoded<bv64>, k: nat): Decoded<bv64> {
    match d
    case Value(value, used) => Value(value, used + k)
    case Exhausted => Exhausted
  }

  /** One round of the reading loop. */
  lemma StepOf64(s: seq<byte>, k: nat, result: bv64)
    requires k < 10 && k <= |s| && Consumed64(s, k, result)
    ensures k == |s| ==> Decode64(s, 0, 0) == Exhausted
    ensures k < |s| && Ends(s[k]) ==> Decode64(s, 0, 0) == Value(Or64(result, Shift64(Wide64(s[k]), k)), k + 1)
    ensures k < |s| && !Ends(s[k]) ==> Consumed64(s, k + 1, Or64(result, Shift64(Payload64(s[k]), k)))
  {
    hide Or64, Shift64, Payload64, Wide64, Ends;
    if k < |s| {
      assert s[k..][0] == s[k] && s[k..][1..] == s[k + 1..];
    }
  }

  method WriteInt64(ba: ByteArray, value: bv64)
    requires ba.Valid()
    modifies ba, ba.links, ba.memory
    ensures ba.Valid() && fresh(ba.links - old(ba.links)) && fresh(ba.memory - old(ba.memory))
    ensures ba.position == old(ba.position) + |Encode64(EncodeZigzag64(value))|
    ensures ba.Data() == Overwrite(old(ba.Data()), old(ba.position), Encode64(EncodeZigzag64(value)))
  {
    WriteUint64(ba, EncodeZigzag64(value));
  }

  method ReadInt64(ba: ByteArray) returns (r: Result<bv64>)
    requires ba.Valid()
    modifies ba`position, ba`cur, ba`index
    ensures ba.Valid() && ba.Data() == old(ba.Data())
    ensures ba.position == old(ba.position) + Used64(old(ba.Data())[old(ba.position)..])
    ensures match Decode64(old(ba.Data())[old(ba.position)..], 0, 0)
            case Value(v, _) => r == Ok(DecodeZigzag64(v))
            case Exhausted => r == OutOfRange
  {
    hide Decode64, DecodeZigzag64;
    var u := ReadUint64(ba);
    r := if u.Ok? then Ok(DecodeZigzag64(u.value)) else OutOfRange;
  }

  /** A signed value written anywhere and followed by anything is read back from there. */
  lemma SignedRoundTrip64(value: bv64, before: seq<byte>, after: seq<byte>)
    ensures var data := before + Encode64(EncodeZigzag64(value)) + after;
            var d := Decode64(data[|before|..], 0, 0);
            d.Value? && DecodeZigzag64(d.value) == value && d.used == |Encode64(EncodeZigzag64(value))|
  {
    hide Decode64, Encode64, EncodeZigzag64, DecodeZigzag64;
    var e := EncodeZigzag64(value);
    assert (before + Encode64(e) + after)[|before|..] == Encode64(e) + after;
    RoundTrip64(e, after);
    ZigzagDecodes64(value);
  }

  /** Write, go back, read: the value returns and the cursor is where writing left it. */
  method WriteThenRead64(ba: ByteArray, value: bv64) returns (r: Result<bv64>)
    requires ba.Valid()
    modifies ba, ba.links, ba.memory
    ensures ba.Valid() && r == Ok(value)
    ensures ba.position == old(ba.position) + |Encode64(EncodeZigzag64(value))|
  {
    hide Decode64, Encode64, EncodeZigzag64, DecodeZigzag64, Concat, Contents, ByteArray.Chained, ByteArray.Owned;
    var start := ba.position;
    ghost var was := ba.Data();
    ghost var code := Encode64(EncodeZigzag64(value));
    WriteInt64(ba, value);
    ghost var tail := if start + |code| < |was| then was[start + |code|..] else [];
    SignedRoundTrip64(value, was[..start], tail);
    var _ := ba.SetPosition(start);
    r := ReadInt64(ba);
  }
}
