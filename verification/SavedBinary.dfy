/**
 The cache-file record of a rule set: version byte, length-prefixed content, update time in
 seconds and length-prefixed etag.
 */
module SavedBinary {
  import opened Basics

  type byte = x: int | 0 <= x < 256

  const TWO_64: int := 0x1_0000_0000_0000_0000
  const TWO_63: int := 0x8000_0000_0000_0000
  const MAX_VARINT_LENGTH := 10

  // ----- unsigned varints -----

  /** Seven bits a byte, least significant first, the top bit set on all but the last. */
  function EncodeUvarint(n: nat): (r: seq<byte>)
    ensures |r| >= 1
  {
    if n < 128 then [n] else [128 + n % 128] + EncodeUvarint(n / 128)
  }

  function Pow128(k: nat): (r: nat)
    ensures r > 0
  {
    if k == 0 then 1 else 128 * Pow128(k - 1)
  }

  /** What the reader makes of a byte stream: the value and the bytes behind it. */
  datatype Uvarint = Value(value: nat, rest: seq<byte>) | Truncated | Overflow

  /** Byte number `i` of a varint; the tenth byte may only carry the last bit. */
  function DecodeFrom(s: seq<byte>, i: nat): (r: Uvarint)
    requires i <= MAX_VARINT_LENGTH
    ensures r.Value? ==> |r.rest| < |s|
    decreases MAX_VARINT_LENGTH - i
  {
    if i == MAX_VARINT_LENGTH then Overflow
    else if s == [] then Truncated
    else if s[0] < 128 then
      if i == MAX_VARINT_LENGTH - 1 && s[0] > 1 then Overflow else Value(s[0], s[1..])
    else
      match DecodeFrom(s[1..], i + 1)
      case Value(v, rest) => Value(s[0] - 128 + 128 * v, rest)
      case bad => bad
  }

  function DecodeUvarint(s: seq<byte>): Uvarint
  {
    DecodeFrom(s, 0)
  }

  /** The largest value whose remaining groups fit when `i` bytes are already used. */
  function Room(i: nat): nat
    requires i < MAX_VARINT_LENGTH
  {
    2 * Pow128(MAX_VARINT_LENGTH - 1 - i)
  }

  lemma RoomForU64()
    ensures Room(0) == TWO_64
  {
    assert Pow128(1) == 128 && Pow128(2) == 128 * 128;
    assert Pow128(3) == 0x20_0000;
    assert Pow128(4) == 0x1000_0000;
    assert Pow128(5) == 0x8_0000_0000;
    assert Pow128(6) == 0x400_0000_0000;
    assert Pow128(7) == 0x2_0000_0000_0000;
    assert Pow128(8) == 0x100_0000_0000_0000;
    assert Pow128(9) == 0x8000_0000_0000_0000;
  }

  lemma RoomForTheRest(n: nat, i: nat)
    requires i < MAX_VARINT_LENGTH && 128 <= n < Room(i)
    ensures i + 1 < MAX_VARINT_LENGTH && n / 128 < Room(i + 1)
    ensures n == n % 128 + 128 * (n / 128)
  {
    assert Pow128(0) == 1;
    assert i < MAX_VARINT_LENGTH - 1;
    assert Room(i) == 128 * Room(i + 1);
  }

  lemma OneGroup(n: nat, tail: seq<byte>, i: nat)
    requires i < MAX_VARINT_LENGTH && n < 128 && n < Room(i)
    ensures DecodeFrom([n] + tail, i) == Value(n, tail)
  {
    assert Pow128(0) == 1;
    assert ([n] + tail)[1..] == tail;
  }

  lemma EncodeStep(n: nat, tail: seq<byte>)
    requires n >= 128
    ensures EncodeUvarint(n) + tail == [128 + n % 128] + (EncodeUvarint(n / 128) + tail)
  {
  }

  lemma OneMoreGroup(group: nat, more: seq<byte>, i: nat)
    requires i < MAX_VARINT_LENGTH && group < 128 && DecodeFrom(more, i + 1).Value?
    ensures var u := DecodeFrom(more, i + 1);
            DecodeFrom([128 + group] + more, i) == Value(group + 128 * u.value, u.rest)
  {
    assert ([128 + group] + more)[1..] == more;
  }

  lemma {:induction false} UvarintRoundTripFrom(n: nat, tail: seq<byte>, i: nat)
    requires i < MAX_VARINT_LENGTH && n < Room(i)
    ensures DecodeFrom(EncodeUvarint(n) + tail, i) == Value(n, tail)
    decreases n
  {
    if n < 128 {
      OneGroup(n, tail, i);
    } else {
      RoomForTheRest(n, i);
      UvarintRoundTripFrom(n / 128, tail, i + 1);
      OneMoreGroup(n % 128, EncodeUvarint(n / 128) + tail, i);
      EncodeStep(n, tail);
    }
  }

  /** Every 64-bit length survives, whatever follows it. */
  lemma UvarintRoundTrip(n: nat, tail: seq<byte>)
    requires n < TWO_64
    ensures DecodeUvarint(EncodeUvarint(n) + tail) == Value(n, tail)
  {
    RoomForU64();
    UvarintRoundTripFrom(n, tail, 0);
  }

  lemma {:induction false} UvarintPrefixFrom(n: nat, k: nat, i: nat)
    requires i < MAX_VARINT_LENGTH && n < Room(i) && k < |EncodeUvarint(n)|
    ensures DecodeFrom(EncodeUvarint(n)[..k], i) == Truncated
    decreases n
  {
    if k > 0 {
      RoomForTheRest(n, i);
      UvarintPrefixFrom(n / 128, k - 1, i + 1);
      assert EncodeUvarint(n)[..k][1..] == EncodeUvarint(n / 128)[..k - 1];
    }
  }

  /** A varint that is cut short is noticed. */
  lemma UvarintPrefixIsTruncated(n: nat, k: nat)
    requires n < TWO_64 && k < |EncodeUvarint(n)|
    ensures DecodeUvarint(EncodeUvarint(n)[..k]) == Truncated
  {
    RoomForU64();
    UvarintPrefixFrom(n, k, 0);
  }

  // ----- big-endian 64-bit integers -----

  function EncodeBytes(n: nat, width: nat): (r: seq<byte>)
    ensures |r| == width
  {
    if width == 0 then [] else EncodeBytes(n / 256, width - 1) + [n % 256]
  }

  function DecodeBytes(s: seq<byte>): nat
  {
    if s == [] then 0 else 256 * DecodeBytes(s[..|s| - 1]) + s[|s| - 1]
  }

  function Pow256(k: nat): (r: nat)
    ensures r > 0
  {
    if k == 0 then 1 else 256 * Pow256(k - 1)
  }

  lemma {:induction false} BytesRoundTrip(n: nat, width: nat)
    requires n < Pow256(width)
    ensures DecodeBytes(EncodeBytes(n, width)) == n
    decreases width
  {
    if width > 0 {
      BytesRoundTrip(n / 256, width - 1);
      var r := EncodeBytes(n, width);
      assert r[..|r| - 1] == EncodeBytes(n / 256, width - 1);
    }
  }

  lemma {:induction false} BytesBound(s: seq<byte>)
    ensures DecodeBytes(s) < Pow256(|s|)
  {
    if s != [] {
      BytesBound(s[..|s| - 1]);
    }
  }

  lemma EightBytes()
    ensures Pow256(8) == TWO_64
  {
    assert Pow256(4) == 0x1_0000_0000;
    assert Pow256(8) == 256 * (256 * (256 * (256 * Pow256(4))));
  }

  /** Two's complement in eight bytes, most significant first. */
  function EncodeInt64(t: int): (r: seq<byte>)
    requires -TWO_63 <= t < TWO_63
    ensures |r| == 8
  {
    EncodeBytes(if t < 0 then t + TWO_64 else t, 8)
  }

  function DecodeInt64(s: seq<byte>): int
    requires |s| == 8
  {
    var n := DecodeBytes(s);
    if n < TWO_63 then n else n - TWO_64
  }

  lemma Int64RoundTrip(t: int)
    requires -TWO_63 <= t < TWO_63
    ensures DecodeInt64(EncodeInt64(t)) == t
  {
    EightBytes();
    BytesRoundTrip(if t < 0 then t + TWO_64 else t, 8);
  }

  lemma Int64Range(s: seq<byte>)
    requires |s| == 8
    ensures -TWO_63 <= DecodeInt64(s) < TWO_63
  {
    EightBytes();
    BytesBound(s);
  }

  // ----- the record -----

  /** A point in time: whole seconds and the part below a second. */
  datatype Time = Time(seconds: int, nanos: nat)

  datatype Record = Record(content: seq<byte>, lastUpdated: Time, lastEtag: seq<byte>)

  /** What a record must satisfy to be stored at all: lengths and time fit 64 bits. */
  predicate Storable(r: Record)
  {
    |r.content| < TWO_64 && |r.lastEtag| < TWO_64 && -TWO_63 <= r.lastUpdated.seconds < TWO_63
  }

  /** The record up to the second. */
  function ToTheSecond(r: Record): Record
  {
    r.(lastUpdated := Time(r.lastUpdated.seconds, 0))
  }

  function Block(data: seq<byte>): seq<byte>
  {
    EncodeUvarint(|data|) + data
  }

  function Marshal(r: Record): seq<byte>
    requires Storable(r)
  {
    [1] + Block(r.content) + MarshalTail(r)
  }

  /** A length-prefixed block at the front: its data and the bytes behind it. */
  datatype Taken = Taken(data: seq<byte>, rest: seq<byte>) | NotTaken

  function TakeBlock(s: seq<byte>): (r: Taken)
    ensures r.Taken? ==> |r.data| + |r.rest| < |s|
  {
    match DecodeUvarint(s)
    case Value(n, rest) => if n <= |rest| then Taken(rest[..n], rest[n..]) else NotTaken
    case _ => NotTaken
  }

  /** Behind the content come eight bytes of time and the etag. */
  function UnmarshalTail(content: seq<byte>, s: seq<byte>): Option<Record>
  {
    if |s| < 8 then None
    else
      match TakeBlock(s[8..])
      case NotTaken => None
      case Taken(etag, _) => Some(Record(content, Time(DecodeInt64(s[..8]), 0), etag))
  }

  function Unmarshal(s: seq<byte>): Option<Record>
  {
    if s == [] then None
    else
      match TakeBlock(s[1..])
      case NotTaken => None
      case Taken(content, rest) => UnmarshalTail(content, rest)
  }

  lemma BlockRoundTrip(data: seq<byte>, tail: seq<byte>)
    requires |data| < TWO_64
    ensures TakeBlock(Block(data) + tail) == Taken(data, tail)
  {
    UvarintRoundTrip(|data|, data + tail);
    assert Block(data) + tail == EncodeUvarint(|data|) + (data + tail);
    assert (data + tail)[..|data|] == data && (data + tail)[|data|..] == tail;
  }

  function MarshalTail(r: Record): seq<byte>
    requires Storable(r)
  {
    EncodeInt64(r.lastUpdated.seconds) + Block(r.lastEtag)
  }

  lemma TailRoundTrip(r: Record, tail: seq<byte>)
    requires Storable(r)
    ensures UnmarshalTail(r.content, MarshalTail(r) + tail) == Some(ToTheSecond(r))
  {
    var time := EncodeInt64(r.lastUpdated.seconds);
    var s := MarshalTail(r) + tail;
    assert s[..8] == time && s[8..] == Block(r.lastEtag) + tail;
    Int64RoundTrip(r.lastUpdated.seconds);
    BlockRoundTrip(r.lastEtag, tail);
  }

  /** Reading back a stored record restores it to the second, even with bytes behind it. */
  lemma RoundTrip(r: Record, tail: seq<byte>)
    requires Storable(r)
    ensures Unmarshal(Marshal(r) + tail) == Some(ToTheSecond(r))
  {
    var s := Marshal(r) + tail;
    assert s[1..] == Block(r.content) + (MarshalTail(r) + tail);
    BlockRoundTrip(r.content, MarshalTail(r) + tail);
    TailRoundTrip(r, tail);
  }

  lemma CutBlock(data: seq<byte>, k: nat)
    requires |data| < TWO_64 && k < |Block(data)|
    ensures TakeBlock(Block(data)[..k]).NotTaken?
  {
    var e := EncodeUvarint(|data|);
    if k < |e| {
      assert Block(data)[..k] == e[..k];
      UvarintPrefixIsTruncated(|data|, k);
    } else {
      assert Block(data)[..k] == e + data[..k - |e|];
      UvarintRoundTrip(|data|, data[..k - |e|]);
    }
  }

  lemma CutTail(r: Record, k: nat)
    requires Storable(r) && k < |MarshalTail(r)|
    ensures UnmarshalTail(r.content, MarshalTail(r)[..k]) == None
  {
    if k >= 8 {
      assert MarshalTail(r)[..k][8..] == Block(r.lastEtag)[..k - 8];
      CutBlock(r.lastEtag, k - 8);
    }
  }

  /** A record that was cut anywhere is refused. */
  lemma TruncationIsNoticed(r: Record, k: nat)
    requires Storable(r) && k < |Marshal(r)|
    ensures Unmarshal(Marshal(r)[..k]) == None
  {
    var c := |Block(r.content)|;
    if 1 <= k <= c {
      assert Marshal(r)[..k][1..] == Block(r.content)[..k - 1];
      CutBlock(r.content, k - 1);
    } else if k > c {
      var rest := MarshalTail(r)[..k - 1 - c];
      assert Marshal(r)[..k][1..] == Block(r.content) + rest;
      BlockRoundTrip(r.content, rest);
      CutTail(r, k - 1 - c);
    }
  }

  /** Different records never share their bytes, unless they differ below the second. */
  lemma MarshalIsInjective(a: Record, b: Record)
    requires Storable(a) && Storable(b) && Marshal(a) == Marshal(b)
    ensures ToTheSecond(a) == ToTheSecond(b)
  {
    RoundTrip(a, []);
    RoundTrip(b, []);
    assert Marshal(a) + [] == Marshal(b) + [];
  }

  /** Whatever is read can be stored again and reads back the same. */
  lemma ReadIsStorable(s: seq<byte>)
    requires |s| < TWO_64 && Unmarshal(s).Some?
    ensures Storable(Unmarshal(s).value) && Unmarshal(Marshal(Unmarshal(s).value)) == Unmarshal(s)
  {
    var r := Unmarshal(s).value;
    Int64Range(TakeBlock(s[1..]).rest[..8]);
    RoundTrip(r, []);
    assert Marshal(r) + [] == Marshal(r);
  }

  // ----- the step-by-step writer and reader -----

  /** The value of a varint whose first groups gave `x` and whose next one counts `scale`. */
  function Continued(x: nat, scale: nat, u: Uvarint): Uvarint
  {
    if u.Value? then Value(x + scale * u.value, u.rest) else u
  }

  lemma ContinuedOnce(x: nat, scale: nat, group: nat, u: Uvarint)
    ensures Continued(x, scale, if u.Value? then Value(group + 128 * u.value, u.rest)
              else u) == Continued(x + scale * group, scale * 128, u)
  {
    if u.Value? {
      assert scale * (group + 128 * u.value) == scale * group + scale * 128 * u.value;
    }
  }

  /** A reader over the bytes not yet consumed. */
  class Reader {
    var rest: seq<byte>

    constructor (data: seq<byte>)
      ensures rest == data
    {
      rest := data;
    }

    method ReadByte() returns (b: Option<byte>)
      modifies this
      ensures old(rest) == [] ==> b.None? && rest == []
      ensures old(rest) != [] ==> b == Some(old(rest)[0]) && rest == old(rest)[1..]
    {
      if |rest| == 0 {
        return None;
      }
      b := Some(rest[0]);
      rest := rest[1..];
    }

    /** Reads exactly `n` bytes or, when there are fewer, uses them up and fails. */
    method ReadFull(n: nat) returns (r: Option<seq<byte>>)
      modifies this
      ensures |old(rest)| < n ==> r.None? && rest == []
      ensures |old(rest)| >= n ==> r == Some(old(rest)[..n]) && rest == old(rest)[n..]
    {
      if |rest| < n {
        rest := [];
        return None;
      }
      r := Some(rest[..n]);
      rest := rest[n..];
    }

    /** Reads bytes until one without the top bit, at most ten of them. */
    method ReadUvarint() returns (v: Option<nat>)
      modifies this
      ensures var u := DecodeUvarint(old(rest));
              if u.Value? then v == Some(u.value) && rest == u.rest else v.None?
    {
      var x: nat, scale: nat := 0, 1;
      for i := 0 to MAX_VARINT_LENGTH
        invariant DecodeUvarint(old(rest)) == Continued(x, scale, DecodeFrom(rest, i))
      {
        var b := ReadByte();
        if b.None? {
          return None;
        }
        if b.value < 128 {
          if i == MAX_VARINT_LENGTH - 1 && b.value > 1 {
            return None;
          }
          return Some(x + scale * b.value);
        }
        var group: nat := b.value - 128;
        ContinuedOnce(x, scale, group, DecodeFrom(rest, i + 1));
        x := x + scale * group;
        scale := scale * 128;
      }
      return None;
    }

    /** A length prefix and that many bytes. */
    method ReadBlock() returns (r: Option<seq<byte>>)
      modifies this
      ensures var t := TakeBlock(old(rest));
              if t.Taken? then r == Some(t.data) && rest == t.rest else r.None?
    {
      var length := ReadUvarint();
      if length.None? {
        return None;
      }
      r := ReadFull(length.value);
    }
  }

  /** Writes seven bits a byte while more are left. */
  method WriteUvarint(buffer: seq<byte>, n: nat) returns (r: seq<byte>)
    ensures r == buffer + EncodeUvarint(n)
  {
    r := buffer;
    var x := n;
    while x >= 128
      invariant r + EncodeUvarint(x) == buffer + EncodeUvarint(n)
    {
      assert r + EncodeUvarint(x) == r + [128 + x % 128] + EncodeUvarint(x / 128);
      r := r + [128 + x % 128];
      x := x / 128;
    }
    r := r + [x];
  }

  method WriteBlock(buffer: seq<byte>, data: seq<byte>) returns (r: seq<byte>)
    ensures r == buffer + Block(data)
  {
    r := WriteUvarint(buffer, |data|);
    r := r + data;
  }

  /** A buffer of `n` zero bytes, filled from the front with what there is. */
  function Padded(s: seq<byte>, n: nat): (r: seq<byte>)
    ensures |r| == n
    ensures n <= |s| ==> r == s[..n]
  {
    if n <= |s| then s[..n] else s + seq(n - |s|, i => 0)
  }

  /** The content a read leaves behind, once the length prefix was readable. */
  function ContentRead(data: seq<byte>): Option<seq<byte>>
  {
    if data == [] then None
    else
      var u := DecodeUvarint(data[1..]);
      if u.Value? then Some(Padded(u.rest, u.value)) else None
  }

  /** The update time a read leaves behind, once its eight bytes were there. */
  function TimeRead(data: seq<byte>): Option<Time>
  {
    if data == [] then None
    else
      var t := TakeBlock(data[1..]);
      if t.Taken? && |t.rest| >= 8 then Some(Time(DecodeInt64(t.rest[..8]), 0)) else None
  }

  /** The stored object, filled field by field when it is read. */
  class Saved {
    var content: seq<byte>
    var lastUpdated: Time
    var lastEtag: seq<byte>

    function AsRecord(): Record
      reads this
    {
      Record(content, lastUpdated, lastEtag)
    }

    constructor (r: Record)
      ensures AsRecord() == r
    {
      content, lastUpdated, lastEtag := r.content, r.lastUpdated, r.lastEtag;
    }

    method MarshalBinary() returns (buffer: seq<byte>)
      requires Storable(AsRecord())
      ensures buffer == Marshal(AsRecord())
    {
      buffer := [1];
      buffer := WriteBlock(buffer, content);
      ghost var head := buffer;
      buffer := buffer + EncodeInt64(lastUpdated.seconds);
      buffer := WriteBlock(buffer, lastEtag);
      assert buffer == head + MarshalTail(AsRecord());
    }

    /** Reads a record field by field; a failure keeps the fields already read. */
    method UnmarshalBinary(data: seq<byte>) returns (ok: bool)
      modifies this
      ensures ok <==> Unmarshal(data).Some?
      ensures ok ==> Unmarshal(data) == Some(AsRecord())
      ensures !ok ==> lastEtag == old(lastEtag)
      ensures content == (if ContentRead(data).Some? then ContentRead(data).value else old(content))
      ensures lastUpdated == (if TimeRead(data).Some? then TimeRead(data).value else old(lastUpdated))
    {
      var reader := new Reader(data);
      var version := reader.ReadByte();
      if version.None? {
        return false;
      }
      var length := reader.ReadUvarint();
      if length.None? {
        return false;
      }
      content := Padded(reader.rest, length.value);
      var block := reader.ReadFull(length.value);
      if block.None? {
        return false;
      }
      ghost var behind := reader.rest;
      assert TakeBlock(data[1..]) == Taken(content, behind);
      var time := reader.ReadFull(8);
      if time.None? {
        return false;
      }
      lastUpdated := Time(DecodeInt64(time.value), 0);
      var etag := reader.ReadBlock();
      if etag.None? {
        return false;
      }
      lastEtag := etag.value;
      return true;
    }
  }
}
