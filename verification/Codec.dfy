/**
 * The wire format of the key-value store (kvs/common/reqresp_marsh.go).
 *
 * Slices are framed by their length as a zig-zag varint, as in Go's encoding/binary.
 */
module Codec {
  type byte = x: int | 0 <= x < 256
  type int8 = x: int | -128 <= x < 128
  type Bytes = seq<byte>

  const MAX_INT64 := 0x8000_0000_0000_0000

  /** Reading yields a value and the unread input, fails with an error, or panics (a negative slice length). */
  datatype Read<+T> = Got(value: T, rest: Bytes) | Failed | Panicked

  datatype Request = Request(ct: int8, key: Bytes, value: Bytes)
  datatype Response = Response(toType: int8, value: Bytes, found: byte, err: Bytes)

  // ----- Varints

  function EncUvarint(x: nat): Bytes {
    if x < 128 then [x] else [x % 128 + 128] + EncUvarint(x / 128)
  }

  /** Reads the k-th and following bytes of an unsigned varint of at most ten bytes. */
  function DecUvarint(s: Bytes, k: nat): Read<nat>
    decreases |s|
  {
    if s == [] || k > 9 then Failed
    else if s[0] < 128 then (if k == 9 && s[0] > 1 then Failed else Got(s[0], s[1..]))
    else
      match DecUvarint(s[1..], k + 1)
      case Got(x, rest) => Got(s[0] - 128 + 128 * x, rest)
      case Failed => Failed
      case Panicked => Panicked
  }

  function ZigZag(x: int): nat {
    if x >= 0 then 2 * x else -2 * x - 1
  }

  function UnZigZag(u: nat): int {
    if u % 2 == 0 then u / 2 else -(u / 2) - 1
  }

  function EncVarint(x: int): Bytes {
    EncUvarint(ZigZag(x))
  }

  function DecVarint(s: Bytes): Read<int> {
    match DecUvarint(s, 0)
    case Got(u, rest) => Got(UnZigZag(u), rest)
    case Failed => Failed
    case Panicked => Panicked
  }

  /** Values that still fit when k bytes have been used: 2^64 at the start. */
  function Room(k: nat): nat
    requires k <= 9
    decreases 9 - k
  {
    if k == 9 then 2 else 128 * Room(k + 1)
  }

  lemma {:induction false} UvarintRoundTrip(x: nat, k: nat, rest: Bytes)
    requires k <= 9 && x < Room(k)
    ensures DecUvarint(EncUvarint(x) + rest, k) == Got(x, rest)
    ensures |EncUvarint(x)| <= 10 - k
    decreases x
  {
    var s := EncUvarint(x) + rest;
    if x < 128 {
      assert s[1..] == rest;
    } else {
      assert s[1..] == EncUvarint(x / 128) + rest;
      UvarintRoundTrip(x / 128, k + 1, rest);
    }
  }

  lemma VarintRoundTrip(x: int, rest: Bytes)
    requires -MAX_INT64 <= x < MAX_INT64
    ensures DecVarint(EncVarint(x) + rest) == Got(x, rest)
    ensures 1 <= |EncVarint(x)| <= 10
  {
    RoomAtStart();
    UvarintRoundTrip(ZigZag(x), 0, rest);
  }

  /** Seven bits a byte, the lowest first. */
  function Digits(s: Bytes): nat {
    if s == [] then 0 else s[0] % 128 + 128 * Digits(s[1..])
  }

  /** The high bit is set in every byte but the last. */
  ghost predicate Terminated(s: Bytes) {
    s != [] && forall k: nat :: k < |s| ==> (s[k] < 128 <==> k == |s| - 1)
  }

  lemma {:induction false} UvarintFormat(x: nat)
    ensures Terminated(EncUvarint(x)) && Digits(EncUvarint(x)) == x
    decreases x
  {
    if x < 128 {
      assert [x][1..] == [];
    } else {
      UvarintFormat(x / 128);
      var tail := EncUvarint(x / 128);
      assert ([x % 128 + 128] + tail)[1..] == tail;
    }
  }

  /** A length is written in base 128, doubled, as the lowest bit is for the sign. */
  lemma VarintFormat(x: int)
    ensures Terminated(EncVarint(x))
    ensures Digits(EncVarint(x)) == if x >= 0 then 2 * x else -2 * x - 1
  {
    UvarintFormat(ZigZag(x));
  }

  lemma RoomAtStart()
    ensures Room(0) == 2 * MAX_INT64
  {
    assert Room(8) == 256;
    assert Room(6) == 128 * 128 * 256;
    assert Room(4) == 128 * 128 * 128 * 128 * 256;
    assert Room(2) == 128 * 128 * 128 * 128 * 128 * 128 * 256;
  }

  // ----- Framed slices

  function EncSlice(v: Bytes): Bytes {
    EncVarint(|v|) + v
  }

  function DecByte(s: Bytes): Read<byte> {
    if s == [] then Failed else Got(s[0], s[1..])
  }

  function DecSlice(s: Bytes): Read<Bytes> {
    match DecVarint(s)
    case Got(n, rest) =>
      if n < 0 then Panicked
      else if |rest| < n then Failed
      else Got(rest[..n], rest[n..])
    case Failed => Failed
    case Panicked => Panicked
  }

  lemma SliceRoundTrip(v: Bytes, rest: Bytes)
    requires |v| < MAX_INT64
    ensures DecSlice(EncSlice(v) + rest) == Got(v, rest)
  {
    VarintRoundTrip(|v|, v + rest);
    assert EncSlice(v) + rest == EncVarint(|v|) + (v + rest);
    assert (v + rest)[..|v|] == v && (v + rest)[|v|..] == rest;
  }

  function ToByte(x: int8): byte {
    if x < 0 then x + 256 else x
  }

  function FromByte(b: byte): int8 {
    if b < 128 then b else b - 256
  }

  // ----- Requests

  function EncodeRequest(t: Request): Bytes {
    [ToByte(t.ct)] + EncSlice(t.key) + EncSlice(t.value)
  }

  function DecodeRequest(s: Bytes): Read<Request> {
    match DecByte(s)
    case Failed => Failed
    case Panicked => Panicked
    case Got(ct, s1) =>
      match DecSlice(s1)
      case Failed => Failed
      case Panicked => Panicked
      case Got(key, s2) =>
        match DecSlice(s2)
        case Failed => Failed
        case Panicked => Panicked
        case Got(value, s3) => Got(Request(FromByte(ct), key, value), s3)
  }

  /** Lengths are Go ints, so they fit 63 bits. */
  ghost predicate Sized(t: Request) {
    |t.key| < MAX_INT64 && |t.value| < MAX_INT64
  }

  lemma TwoSlices(v: Bytes, w: Bytes, rest: Bytes)
    requires |v| < MAX_INT64 && |w| < MAX_INT64
    ensures DecSlice(EncSlice(v) + (EncSlice(w) + rest)) == Got(v, EncSlice(w) + rest)
    ensures DecSlice(EncSlice(w) + rest) == Got(w, rest)
  {
    SliceRoundTrip(v, EncSlice(w) + rest);
    SliceRoundTrip(w, rest);
  }

  lemma AfterFirst(x: byte, v: Bytes, w: Bytes, rest: Bytes)
    ensures var s := [x] + v + w + rest;
            s != [] && s[0] == x && s[1..] == v + (w + rest)
  {
  }

  /** Unmarshal after Marshal gives back every request and stops right behind it. */
  lemma RequestRoundTrip(t: Request, rest: Bytes)
    requires Sized(t)
    ensures DecodeRequest(EncodeRequest(t) + rest) == Got(t, rest)
  {
    TwoSlices(t.key, t.value, rest);
    AfterFirst(ToByte(t.ct), EncSlice(t.key), EncSlice(t.value), rest);
  }

  /** The order on the wire: command, key, value, with their lengths before them. */
  lemma RequestFormat(ct: int8, k: byte, v: byte, w: byte)
    ensures EncodeRequest(Request(ct, [k], [v, w])) == [if ct < 0 then ct + 256 else ct, 2, k, 4, v, w]
  {
    assert EncVarint(1) == [2] && EncVarint(2) == [4];
  }

  function EncodeRequests(ts: seq<Request>): Bytes {
    if ts == [] then [] else EncodeRequest(ts[0]) + EncodeRequests(ts[1..])
  }

  function DecodeRequests(s: Bytes, n: nat): Read<seq<Request>>
    decreases n
  {
    if n == 0 then Got([], s)
    else
      match DecodeRequest(s)
      case Failed => Failed
      case Panicked => Panicked
      case Got(t, s1) =>
        match DecodeRequests(s1, n - 1)
        case Failed => Failed
        case Panicked => Panicked
        case Got(ts, s2) => Got([t] + ts, s2)
  }

  /** Requests written one after the other are read back one after the other. */
  lemma {:induction false} StreamRoundTrip(ts: seq<Request>)
    requires forall t :: t in ts ==> Sized(t)
    ensures DecodeRequests(EncodeRequests(ts), |ts|) == Got(ts, [])
  {
    if ts == [] {
    } else {
      var tail := EncodeRequests(ts[1..]);
      RequestRoundTrip(ts[0], tail);
      StreamRoundTrip(ts[1..]);
      assert EncodeRequests(ts) == EncodeRequest(ts[0]) + tail;
      assert DecodeRequests(tail, |ts| - 1) == Got(ts[1..], []);
      assert [ts[0]] + ts[1..] == ts;
    }
  }

  // ----- Responses

  /** With an empty value the whole scratch buffer is written behind the found flag. */
  function FoundBytes(t: Response): Bytes {
    [t.found] + if t.value == [] then seq(9, _ => 0) else []
  }

  function EncodeResponse(t: Response): Bytes {
    [ToByte(t.toType)] + EncSlice(t.value) + FoundBytes(t) + EncSlice(t.err)
  }

  function DecodeResponse(s: Bytes): Read<Response> {
    match DecByte(s)
    case Failed => Failed
    case Panicked => Panicked
    case Got(toType, s1) =>
      match DecSlice(s1)
      case Failed => Failed
      case Panicked => Panicked
      case Got(value, s2) =>
        match DecByte(s2)
        case Failed => Failed
        case Panicked => Panicked
        case Got(found, s3) =>
          match DecSlice(s3)
          case Failed => Failed
          case Panicked => Panicked
          case Got(err, s4) => Got(Response(FromByte(toType), value, found, err), s4)
  }

  /** The order on the wire: command, value, found flag, error. */
  lemma ResponseFormat(ct: int8, v: byte, found: byte, e: byte, f: byte)
    ensures EncodeResponse(Response(ct, [v], found, [e, f])) == [if ct < 0 then ct + 256 else ct, 2, v, found, 4, e, f]
    ensures EncodeResponse(Response(ct, [], found, [e])) ==
              [if ct < 0 then ct + 256 else ct, 0, found, 0, 0, 0, 0, 0, 0, 0, 0, 0, 2, e]
  {
    assert EncVarint(1) == [2] && EncVarint(2) == [4] && EncVarint(0) == [0];
  }

  ghost predicate SizedResponse(t: Response) {
    |t.value| < MAX_INT64 && |t.err| < MAX_INT64
  }

  lemma AroundFlag(x: byte, v: Bytes, y: byte, w: Bytes, rest: Bytes)
    ensures var s, tail := [x] + v + [y] + w + rest, [y] + (w + rest);
            s != [] && s[0] == x && s[1..] == v + tail && tail != [] && tail[0] == y && tail[1..] == w + rest
  {
  }

  lemma ResponseWithValue(t: Response, rest: Bytes)
    requires SizedResponse(t) && t.value != []
    ensures DecodeResponse(EncodeResponse(t) + rest) == Got(t, rest)
  {
    AroundFlag(ToByte(t.toType), EncSlice(t.value), t.found, EncSlice(t.err), rest);
    SliceRoundTrip(t.value, [t.found] + (EncSlice(t.err) + rest));
    SliceRoundTrip(t.err, rest);
    assert FoundBytes(t) == [t.found];
  }

  lemma ResponseWithoutValue(t: Response, rest: Bytes)
    requires SizedResponse(t) && t.value == []
    ensures DecodeResponse(EncodeResponse(t) + rest) == Got(t.(err := []), seq(8, _ => 0) + EncSlice(t.err) + rest)
  {
    var s := EncodeResponse(t) + rest;
    var left := seq(8, _ => 0) + EncSlice(t.err) + rest;
    var tail := [t.found] + ([0] + left);
    assert s[1..] == EncSlice(t.value) + tail;
    SliceRoundTrip(t.value, tail);
    assert tail[1..] == [0] + left;
    assert EncSlice([]) == [0];
    SliceRoundTrip([], left);
  }

  /** A response is given back if and only if its value is not empty or its error is empty. */
  lemma ResponseRoundTripIff(t: Response, rest: Bytes)
    requires SizedResponse(t)
    ensures var r := DecodeResponse(EncodeResponse(t) + rest);
            r.Got? && (r.value == t <==> t.value != [] || t.err == [])
  {
    if t.value == [] {
      ResponseWithoutValue(t, rest);
    } else {
      ResponseWithValue(t, rest);
    }
  }

  /** What follows the response on the wire is read correctly if and only if its value is not empty. */
  lemma ResponseFramedIff(t: Response, rest: Bytes)
    requires SizedResponse(t)
    ensures var r := DecodeResponse(EncodeResponse(t) + rest);
            r.Got? && (r.rest == rest <==> t.value != [])
  {
    if t.value == [] {
      ResponseWithoutValue(t, rest);
      assert |seq(8, _ => 0) + EncSlice(t.err) + rest| > |rest|;
    } else {
      ResponseWithValue(t, rest);
    }
  }

  /** An error reported without a value is lost. */
  lemma ErrorWithoutValueIsLost()
    ensures var t := Response(0, [], 0, [69]);
            DecodeResponse(EncodeResponse(t)).Got? && DecodeResponse(EncodeResponse(t)).value.err == []
  {
    var t := Response(0, [], 0, [69]);
    ResponseWithoutValue(t, []);
    assert EncodeResponse(t) + [] == EncodeResponse(t);
  }
}
