/**
 * Writing and reading the messages of the key-value store through the reused
 * ten-byte scratch buffer (kvs/common/reqresp_marsh.go).
 */
module Wire {
  import opened Codec

  /** What Unmarshal returns: nil, an error, or no return at all. */
  datatype Status = Done | Error | Panic

  class Writer {
    var data: Bytes

    constructor ()
      ensures data == []
    {
      data := [];
    }

    method Write(p: Bytes)
      modifies this
      ensures data == old(data) + p
    {
      data := data + p;
    }
  }

  class Reader {
    var rest: Bytes

    constructor (input: Bytes)
      ensures rest == input
    {
      rest := input;
    }

    /** Reads one byte into the front of the scratch buffer. */
    method ReadByte(b: array<byte>) returns (ok: bool)
      requires b.Length == 10
      modifies this, b
      ensures ok <==> old(rest) != []
      ensures ok ==> b[0] == old(rest)[0] && rest == old(rest)[1..]
    {
      ok := rest != [];
      if ok {
        b[0], rest := rest[0], rest[1..];
      }
    }
  }

  // ----- Writing

  /** binary.PutVarint: the encoding goes to the front of the buffer, the rest of it stays. */
  method PutVarint(b: array<byte>, x: int) returns (n: nat)
    requires b.Length == 10 && -MAX_INT64 <= x < MAX_INT64
    modifies b
    ensures n == |EncVarint(x)| <= 10
    ensures b[..] == EncVarint(x) + old(b[n..])
  {
    VarintRoundTrip(x, []);
    var u := ZigZag(x);
    n := 0;
    ghost var code := EncVarint(x);
    while u >= 128
      invariant n + |EncUvarint(u)| == |code| && |EncUvarint(u)| > 0
      invariant b[..n] + EncUvarint(u) == code
      invariant b[n..] == old(b[..])[n..]
      decreases u
    {
      CodeNext(b[..n], u);
      PutByte(b, n, u % 128 + 128);
      n, u := n + 1, u / 128;
    }
    PutByte(b, n, u);
    n := n + 1;
    assert b[..] == b[..n] + b[n..];
  }

  lemma CodeNext(front: Bytes, u: nat)
    requires u >= 128
    ensures front + EncUvarint(u) == front + [u % 128 + 128] + EncUvarint(u / 128)
    ensures |EncUvarint(u)| == 1 + |EncUvarint(u / 128)| && |EncUvarint(u / 128)| > 0
  {
  }

  method PutByte(b: array<byte>, n: nat, v: byte)
    requires n < b.Length
    modifies b
    ensures b[..n + 1] == old(b[..n]) + [v]
    ensures b[n + 1..] == old(b[n + 1..])
  {
    b[n] := v;
  }

  /** Writes the length and the bytes of a slice; returns the length bs is left with. */
  method WriteSlice(wire: Writer, b: array<byte>, v: Bytes) returns (bs: nat)
    requires b.Length == 10 && |v| < MAX_INT64
    modifies wire, b
    ensures wire.data == old(wire.data) + EncSlice(v)
    ensures bs == if v == [] then 10 else 1
    ensures v == [] ==> b[..] == [0] + old(b[1..])
  {
    bs := b.Length;
    var wlen := PutVarint(b, |v|);
    assert v == [] ==> EncVarint(0) == [0];
    wire.Write(b[..wlen]);
    ghost var framed := wire.data;
    assert b[..wlen] == EncVarint(|v|);
    for i := 0 to |v|
      invariant wire.data == framed + v[..i]
      invariant bs == if i == 0 then 10 else 1
      invariant i == 0 && v == [] ==> b[..] == [0] + old(b[1..])
    {
      bs := 1;
      b[0] := v[i];
      wire.Write(b[..bs]);
      assert b[..1] == [v[i]] && v[..i + 1] == v[..i] + [v[i]];
    }
    assert v[..|v|] == v;
  }

  // ----- Reading

  /** Adds the low seven bits of b at weight m. */
  function Added(x: nat, m: nat, b: byte): nat {
    x + m * (b % 128)
  }

  function Shifted(x: nat, m: nat, r: Read<nat>): Read<int> {
    match r
    case Got(y, rest) => Got(x + m * y, rest)
    case Failed => Failed
    case Panicked => Panicked
  }

  /** What remains of reading an unsigned varint after k bytes worth x, the next one having weight m. */
  function Pending(x: nat, m: nat, s: Bytes, k: nat): Read<int> {
    Shifted(x, m, DecUvarint(s, k))
  }

  lemma PendingMore(x: nat, m: nat, s: Bytes, k: nat)
    requires s != [] && k <= 9 && s[0] >= 128
    ensures Pending(x, m, s, k) == Pending(Added(x, m, s[0]), m * 128, s[1..], k + 1)
  {
    match DecUvarint(s[1..], k + 1)
    case Got(y, rest) =>
      calc {
        m * (s[0] - 128 + 128 * y);
        m * (s[0] - 128) + m * (128 * y);
        m * (s[0] - 128) + m * 128 * y;
      }
    case Failed =>
    case Panicked =>
  }

  lemma PendingEnds(x: nat, m: nat, s: Bytes, k: nat)
    requires s == [] || k > 9 || s[0] < 128
    ensures Pending(x, m, s, k) ==
              if s == [] || k > 9 || (k == 9 && s[0] > 1) then Failed else Got(Added(x, m, s[0]), s[1..])
  {
  }

  lemma PendingAtStart(s: Bytes)
    ensures Pending(0, 1, s, 0) == DecUvarint(s, 0)
  {
  }

  /** binary.ReadVarint, byte by byte. */
  method ReadVarint(wire: Reader, b: array<byte>) returns (r: Read<int>)
    requires b.Length == 10
    modifies wire, b
    ensures r == DecVarint(old(wire.rest))
    ensures r.Got? ==> wire.rest == r.rest
  {
    PendingAtStart(wire.rest);
    var x: nat, m: nat, k: nat := 0, 1, 0;
    while true
      invariant Pending(x, m, wire.rest, k) == DecUvarint(old(wire.rest), 0)
      decreases |wire.rest|
    {
      ghost var s := wire.rest;
      var ok := wire.ReadByte(b);
      if !ok || k > 9 || b[0] < 128 {
        PendingEnds(x, m, s, k);
        return if !ok || k > 9 || (k == 9 && b[0] > 1) then Failed else Got(UnZigZag(Added(x, m, b[0])), wire.rest);
      }
      PendingMore(x, m, s, k);
      x, m, k := Added(x, m, b[0]), m * 128, k + 1;
    }
  }

  /** make([]byte, n), then one byte at a time through the scratch buffer. */
  method ReadSlice(wire: Reader, b: array<byte>) returns (status: Status, v: Bytes)
    requires b.Length == 10
    modifies wire, b
    ensures match DecSlice(old(wire.rest))
            case Got(w, rest) => status == Done && v == w && wire.rest == rest
            case Failed => status == Error
            case Panicked => status == Panic
  {
    v := [];
    var alen := ReadVarint(wire, b);
    if alen.Failed? {
      return Error, v;
    }
    if alen.Panicked? || alen.value < 0 {
      return Panic, v;
    }
    ghost var s := wire.rest;
    var filled := new byte[alen.value];
    for i := 0 to alen.value
      invariant i <= |s| && wire.rest == s[i..]
      invariant filled[..i] == s[..i]
    {
      var ok := wire.ReadByte(b);
      if !ok {
        return Error, v;
      }
      filled[i] := b[0];
      assert filled[..i + 1] == filled[..i] + [s[i]];
    }
    assert filled[..] == filled[..alen.value];
    return Done, filled[..];
  }

  // ----- Messages

  class MapRequest {
    var ct: int8
    var key: Bytes
    var value: Bytes

    ghost function Contents(): Request
      reads this
    {
      Request(ct, key, value)
    }

    method Marshal(wire: Writer)
      requires |key| < MAX_INT64 && |value| < MAX_INT64
      modifies wire
      ensures wire.data == old(wire.data) + EncodeRequest(Contents())
    {
      var b := new byte[10](_ => 0);
      b[0] := ToByte(ct);
      wire.Write(b[..1]);
      assert b[..1] == [ToByte(ct)];
      var _ := WriteSlice(wire, b, key);
      var _ := WriteSlice(wire, b, value);
    }

    method Unmarshal(wire: Reader) returns (status: Status)
      modifies this, wire
      ensures match DecodeRequest(old(wire.rest))
              case Got(t, rest) => status == Done && Contents() == t && wire.rest == rest
              case Failed => status == Error
              case Panicked => status == Panic
    {
      var b := new byte[10](_ => 0);
      var ok := wire.ReadByte(b);
      if !ok {
        return Error;
      }
      ct := FromByte(b[0]);
      status, key := ReadSlice(wire, b);
      if status != Done {
        return;
      }
      status, value := ReadSlice(wire, b);
    }
  }

  class MapResponse {
    var toType: int8
    var value: Bytes
    var found: byte
    var err: Bytes

    ghost function Contents(): Response
      reads this
    {
      Response(toType, value, found, err)
    }

    /** The found flag goes out with whatever length bs was left with: all ten bytes after an empty value. */
    method Marshal(wire: Writer)
      requires |value| < MAX_INT64 && |err| < MAX_INT64
      modifies wire
      ensures wire.data == old(wire.data) + EncodeResponse(Contents())
    {
      var b := new byte[10](_ => 0);
      b[0] := ToByte(toType);
      wire.Write(b[..1]);
      assert b[..1] == [ToByte(toType)];
      var bs := WriteSlice(wire, b, value);
      b[0] := found;
      assert b[..bs] == FoundBytes(Contents());
      wire.Write(b[..bs]);
      var _ := WriteSlice(wire, b, err);
    }

    method Unmarshal(wire: Reader) returns (status: Status)
      modifies this, wire
      ensures match DecodeResponse(old(wire.rest))
              case Got(t, rest) => status == Done && Contents() == t && wire.rest == rest
              case Failed => status == Error
              case Panicked => status == Panic
    {
      var b := new byte[10](_ => 0);
      var ok := wire.ReadByte(b);
      if !ok {
        return Error;
      }
      toType := FromByte(b[0]);
      status, value := ReadSlice(wire, b);
      if status != Done {
        return;
      }
      ok := wire.ReadByte(b);
      if !ok {
        return Error;
      }
      found := b[0];
      status, err := ReadSlice(wire, b);
    }
  }
}
