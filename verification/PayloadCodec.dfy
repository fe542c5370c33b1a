/**
 The wire format of the payloads in rt.proto: tagged fields, varints and length-prefixed parts,
 with default values left out. Serialising and parsing are inverse to each other.
 */
module PayloadCodec {
  import opened Options

  const TWO_64 := 0x1_0000_0000_0000_0000
  const TWO_32 := 0x1_0000_0000

  type Int32 = n: int | -0x8000_0000 <= n < 0x8000_0000
  type UInt64 = n: int | 0 <= n < TWO_64

  datatype Header =
    | ReadReq(count: Int32, size: Int32)
    | WriteReq(count: Int32, size: Int32)
    | ReadRsp(us: UInt64)
    | WriteRsp(us: UInt64)
    | EchoReq(count: Int32, size: Int32)
    | EchoRsp(us: UInt64)
    | NoHeader

  datatype Payload = Hdr(hdr: Header) | Data(data: Bytes) | Nothing

  // ---------- Varints ----------

  /** Seven bits a byte, the lowest first, the top bit set on all but the last. */
  function Varint(n: nat): (b: Bytes)
    ensures |b| > 0
  {
    if n < 128 then [n] else [n % 128 + 128] + Varint(n / 128)
  }

  /** Reads at most `room` bytes of a varint; the value is cut to 64 bits by the caller. */
  function ReadVarint(b: Bytes, room: nat): (r: Option<(nat, Bytes)>)
    ensures r.Some? ==> |r.value.1| < |b|
    decreases room
  {
    if b == [] || room == 0 then None
    else if b[0] < 128 then Some((b[0], b[1..]))
    else
      match ReadVarint(b[1..], room - 1)
      case None => None
      case Some((high, rest)) => Some((b[0] - 128 + 128 * high, rest))
  }

  function Pow128(k: nat): nat {
    if k == 0 then 1 else 128 * Pow128(k - 1)
  }

  lemma {:induction false} VarintRoundTrip(n: nat, room: nat, rest: Bytes)
    requires room > 0 && n < Pow128(room)
    ensures ReadVarint(Varint(n) + rest, room) == Some((n, rest))
    decreases room
  {
    var b := Varint(n) + rest;
    if n < 128 {
      assert b[1..] == rest;
    } else {
      assert b[1..] == Varint(n / 128) + rest;
      VarintRoundTrip(n / 128, room - 1, rest);
    }
  }

  lemma TenBytesAreEnough()
    ensures TWO_64 <= Pow128(10)
  {
    assert Pow128(3) == 128 * 128 * 128 by { assert Pow128(2) == 128 * Pow128(1); }
    assert Pow128(6) == 128 * 128 * 128 * Pow128(3) by { assert Pow128(5) == 128 * Pow128(4); }
    assert Pow128(9) == 128 * 128 * 128 * Pow128(6) by { assert Pow128(8) == 128 * Pow128(7); }
  }

  // ---------- Fields ----------

  datatype Field = Num(id: nat, n: UInt64) | Len(id: nat, data: Bytes)

  function WriteField(f: Field): Bytes {
    match f
    case Num(id, n) => Varint(8 * id) + Varint(n)
    case Len(id, data) => Varint(8 * id + 2) + Varint(|data|) + data
  }

  function WriteFields(fs: seq<Field>): Bytes {
    if fs == [] then [] else WriteField(fs[0]) + WriteFields(fs[1..])
  }

  /** A field's tag, the number after it, and what follows. */
  function ReadKey(b: Bytes): (r: Option<(nat, nat, Bytes)>)
    ensures r.Some? ==> |r.value.2| < |b|
  {
    match ReadVarint(b, 10)
    case None => None
    case Some((tag, rest)) =>
      match ReadVarint(rest, 10)
      case None => None
      case Some((n, rest')) => Some((tag, n, rest'))
  }

  /** The field that starts with this tag and number; only the two wire types that rt.proto uses. */
  function FieldOf(tag: nat, n: nat, rest: Bytes): (r: Option<(Field, Bytes)>)
    ensures r.Some? ==> |r.value.1| <= |rest|
  {
    if tag / 8 == 0 then None
    else if tag % 8 == 0 then Some((Num(tag / 8, n % TWO_64), rest))
    else if tag % 8 == 2 && n <= |rest| then Some((Len(tag / 8, rest[..n]), rest[n..]))
    else None
  }

  /** One field and what follows it. */
  function ReadField(b: Bytes): (r: Option<(Field, Bytes)>)
    ensures r.Some? ==> |r.value.1| < |b|
  {
    match ReadKey(b)
    case None => None
    case Some((tag, n, rest)) => FieldOf(tag, n, rest)
  }

  function ReadFields(b: Bytes): Option<seq<Field>>
    decreases |b|
  {
    if b == [] then Some([]) else
    match ReadField(b)
    case None => None
    case Some((f, rest)) =>
      match ReadFields(rest)
      case None => None
      case Some(fs) => Some([f] + fs)
  }

  /** The tag and the length fit into the format. */
  predicate Writable(f: Field) {
    1 <= f.id < 16 && (f.Len? ==> |f.data| < TWO_64)
  }

  lemma Varint64RoundTrip(n: nat, rest: Bytes)
    requires n < TWO_64
    ensures ReadVarint(Varint(n) + rest, 10) == Some((n, rest))
  {
    TenBytesAreEnough();
    VarintRoundTrip(n, 10, rest);
  }

  lemma Regroup(a: Bytes, b: Bytes, c: Bytes)
    ensures (a + b) + c == a + (b + c)
  {}

  lemma TwoVarints(s: Bytes, t: Bytes, rest: Bytes, tag: nat, n: nat)
    requires ReadVarint(s, 10) == Some((tag, t)) && ReadVarint(t, 10) == Some((n, rest))
    ensures ReadKey(s) == Some((tag, n, rest))
  {}

  lemma KeyRoundTrip(tag: nat, n: nat, rest: Bytes)
    requires tag < TWO_64 && n < TWO_64
    ensures ReadKey(Varint(tag) + Varint(n) + rest) == Some((tag, n, rest))
  {
    var t := Varint(n) + rest;
    Varint64RoundTrip(tag, t);
    Varint64RoundTrip(n, rest);
    TwoVarints(Varint(tag) + t, t, rest, tag, n);
    Regroup(Varint(tag), Varint(n), rest);
  }

  lemma FieldOfNum(id: nat, n: UInt64, rest: Bytes)
    requires id > 0
    ensures FieldOf(8 * id, n, rest) == Some((Num(id, n), rest))
  {
    assert (8 * id) / 8 == id && (8 * id) % 8 == 0;
  }

  lemma NumRoundTrip(id: nat, n: UInt64, rest: Bytes)
    requires Writable(Num(id, n))
    ensures ReadField(WriteField(Num(id, n)) + rest) == Some((Num(id, n), rest))
  {
    KeyRoundTrip(8 * id, n, rest);
    FieldOfNum(id, n, rest);
  }

  lemma FieldOfLen(id: nat, data: Bytes, rest: Bytes)
    requires id > 0
    ensures FieldOf(8 * id + 2, |data|, data + rest) == Some((Len(id, data), rest))
  {
    assert (data + rest)[..|data|] == data && (data + rest)[|data|..] == rest;
    assert (8 * id + 2) / 8 == id && (8 * id + 2) % 8 == 2;
  }

  lemma LenRoundTrip(id: nat, data: Bytes, rest: Bytes)
    requires Writable(Len(id, data))
    ensures ReadField(WriteField(Len(id, data)) + rest) == Some((Len(id, data), rest))
  {
    Regroup(Varint(8 * id + 2) + Varint(|data|), data, rest);
    KeyRoundTrip(8 * id + 2, |data|, data + rest);
    FieldOfLen(id, data, rest);
  }

  lemma FieldRoundTrip(f: Field, rest: Bytes)
    requires Writable(f)
    ensures ReadField(WriteField(f) + rest) == Some((f, rest))
  {
    match f
    case Num(id, n) => NumRoundTrip(id, n, rest);
    case Len(id, data) => LenRoundTrip(id, data, rest);
  }

  lemma ReadFirst(b: Bytes, f: Field, rest: Bytes, more: seq<Field>)
    requires ReadField(b) == Some((f, rest)) && ReadFields(rest) == Some(more)
    ensures ReadFields(b) == Some([f] + more)
  {}

  lemma {:induction false} FieldsRoundTrip(fs: seq<Field>)
    requires forall i :: 0 <= i < |fs| ==> Writable(fs[i])
    ensures ReadFields(WriteFields(fs)) == Some(fs)
  {
    if fs != [] {
      var rest := WriteFields(fs[1..]);
      FieldRoundTrip(fs[0], rest);
      FieldsRoundTrip(fs[1..]);
      ReadFirst(WriteField(fs[0]) + rest, fs[0], rest, fs[1..]);
      assert [fs[0]] + fs[1..] == fs;
    }
  }

  // ---------- Payloads ----------

  /** A negative int32 is written as the 64-bit number it sign-extends to. */
  function Unsigned(n: Int32): UInt64 {
    if n < 0 then n + TWO_64 else n
  }

  function Signed(n: nat): Int32 {
    var low := n % TWO_32;
    if low < 0x8000_0000 then low else low - TWO_32
  }

  function NumFields(id: nat, n: UInt64): seq<Field> {
    if n == 0 then [] else [Num(id, n)]
  }

  function HeaderFields(h: Header): seq<Field> {
    match h
    case ReadReq(count, size) => [Len(1, WriteFields(NumFields(1, Unsigned(count)) + NumFields(2, Unsigned(size))))]
    case WriteReq(count, size) => [Len(2, WriteFields(NumFields(1, Unsigned(count)) + NumFields(2, Unsigned(size))))]
    case ReadRsp(us) => [Len(3, WriteFields(NumFields(1, us)))]
    case WriteRsp(us) => [Len(4, WriteFields(NumFields(1, us)))]
    case EchoReq(count, size) => [Len(5, WriteFields(NumFields(1, Unsigned(count)) + NumFields(2, Unsigned(size))))]
    case EchoRsp(us) => [Len(6, WriteFields(NumFields(1, us)))]
    case NoHeader => []
  }

  function DataFields(data: Bytes): seq<Field> {
    if data == [] then [] else [Len(1, data)]
  }

  /** `SerializeToString` */
  function Serialize(p: Payload): Bytes {
    match p
    case Hdr(h) => WriteFields([Len(1, WriteFields(HeaderFields(h)))])
    case Data(data) => WriteFields([Len(2, WriteFields(DataFields(data)))])
    case Nothing => []
  }

  /** The last number with this id, or the default. */
  function LastNum(fs: seq<Field>, id: nat): UInt64 {
    if fs == [] then 0
    else if fs[|fs| - 1].Num? && fs[|fs| - 1].id == id then fs[|fs| - 1].n
    else LastNum(fs[..|fs| - 1], id)
  }

  /** The last part whose id is a member of the union. */
  function LastPart(fs: seq<Field>, ids: set<nat>): (part: Option<Field>)
    ensures part.Some? ==> part.value.Len? && part.value.id in ids
  {
    if fs == [] then None
    else if fs[|fs| - 1].Len? && fs[|fs| - 1].id in ids then Some(fs[|fs| - 1])
    else LastPart(fs[..|fs| - 1], ids)
  }

  /** The kind of a header is the id of its part. */
  function HeaderOf(id: nat, first: UInt64, second: UInt64): Header {
    if id == 1 then ReadReq(Signed(first), Signed(second))
    else if id == 2 then WriteReq(Signed(first), Signed(second))
    else if id == 3 then ReadRsp(first)
    else if id == 4 then WriteRsp(first)
    else if id == 5 then EchoReq(Signed(first), Signed(second))
    else EchoRsp(first)
  }

  function ParsePart(part: Field): Option<Header>
    requires part.Len?
  {
    match ReadFields(part.data)
    case None => None
    case Some(inner) => Some(HeaderOf(part.id, LastNum(inner, 1), LastNum(inner, 2)))
  }

  function HeaderFrom(fs: seq<Field>): Option<Header> {
    match LastPart(fs, {1, 2, 3, 4, 5, 6})
    case None => Some(NoHeader)
    case Some(part) => ParsePart(part)
  }

  function ParseHeader(b: Bytes): Option<Header> {
    match ReadFields(b)
    case None => None
    case Some(fs) => HeaderFrom(fs)
  }

  function ParseData(b: Bytes): Option<Bytes> {
    match ReadFields(b)
    case None => None
    case Some(fs) =>
      match LastPart(fs, {1})
      case None => Some([])
      case Some(part) => Some(part.data)
  }

  /** `ParseFromString` */
  function Parse(b: Bytes): Option<Payload> {
    match ReadFields(b)
    case None => None
    case Some(fs) =>
      match LastPart(fs, {1, 2})
      case None => Some(Nothing)
      case Some(part) =>
        if part.id == 1 then
          match ParseHeader(part.data) case None => None case Some(h) => Some(Hdr(h))
        else
          match ParseData(part.data) case None => None case Some(data) => Some(Data(data))
  }

  // ---------- Round trip ----------

  lemma SignedOfUnsigned(n: Int32)
    ensures Signed(Unsigned(n)) == n
  {}

  lemma LastNumOfPair(a: UInt64, b: UInt64)
    ensures var fs := NumFields(1, a) + NumFields(2, b);
      LastNum(fs, 1) == a && LastNum(fs, 2) == b && forall i :: 0 <= i < |fs| ==> Writable(fs[i])
  {
    if a != 0 && b != 0 {
      assert NumFields(1, a) + NumFields(2, b) == [Num(1, a), Num(2, b)];
      assert [Num(1, a), Num(2, b)][..1] == [Num(1, a)];
      LastNumOfOne(1, a);
    } else if a != 0 {
      assert NumFields(1, a) + NumFields(2, b) == [Num(1, a)];
      LastNumOfOne(1, a);
    } else if b != 0 {
      assert NumFields(1, a) + NumFields(2, b) == [Num(2, b)];
      LastNumOfOne(2, b);
    }
  }

  lemma LastNumOfOne(id: nat, n: UInt64)
    ensures forall other :: LastNum([Num(id, n)], other) == if other == id then n else 0
  {
    assert [Num(id, n)][..0] == [];
  }

  lemma VarintLength(n: nat)
    requires n < TWO_64
    ensures |Varint(n)| <= 10
  {
    TenBytesAreEnough();
    VarintLengthWithin(n, 10);
  }

  lemma {:induction false} VarintLengthWithin(n: nat, room: nat)
    requires room > 0 && n < Pow128(room)
    ensures |Varint(n)| <= room
  {
    if n >= 128 {
      VarintLengthWithin(n / 128, room - 1);
    }
  }

  lemma NumFieldsLength(id: nat, n: UInt64)
    requires id < 16
    ensures |WriteFields(NumFields(id, n))| <= 20
  {
    VarintLength(n);
    VarintLength(8 * id);
    if n != 0 { assert [Num(id, n)][1..] == []; }
  }

  lemma PairLength(a: UInt64, b: UInt64)
    ensures |WriteFields(NumFields(1, a) + NumFields(2, b))| <= 40
  {
    NumFieldsLength(1, a);
    NumFieldsLength(2, b);
    if a != 0 {
      assert (NumFields(1, a) + NumFields(2, b))[1..] == NumFields(2, b);
      assert [Num(1, a)][1..] == [];
    } else {
      assert NumFields(1, a) + NumFields(2, b) == NumFields(2, b);
    }
  }

  lemma SingleField(f: Field)
    requires Writable(f)
    ensures ReadFields(WriteFields([f])) == Some([f]) && |WriteFields([f])| == |WriteField(f)|
  {
    FieldsRoundTrip([f]);
    assert [f][1..] == [];
  }

  lemma LastOfOne(f: Field, ids: set<nat>)
    requires f.Len? && f.id in ids
    ensures LastPart([f], ids) == Some(f)
  {}

  lemma PartLength(id: nat, a: UInt64, b: UInt64)
    requires 1 <= id <= 6
    ensures |WriteFields([Len(id, WriteFields(NumFields(1, a) + NumFields(2, b)))])| <= 60
  {
    var part := Len(id, WriteFields(NumFields(1, a) + NumFields(2, b)));
    PairLength(a, b);
    SingleField(part);
    VarintLength(|part.data|);
    VarintLength(8 * id + 2);
  }

  lemma HeaderFromOne(part: Field)
    requires part.Len? && 1 <= part.id <= 6
    ensures HeaderFrom([part]) == ParsePart(part)
  {
    LastOfOne(part, {1, 2, 3, 4, 5, 6});
  }

  /** A part of the header with these two numbers reads back as the header of its kind. */
  lemma PartRoundTrip(id: nat, a: UInt64, b: UInt64)
    requires 1 <= id <= 6
    ensures var out := WriteFields([Len(id, WriteFields(NumFields(1, a) + NumFields(2, b)))]);
      ParseHeader(out) == Some(HeaderOf(id, a, b)) && |out| <= 60
  {
    var inner := NumFields(1, a) + NumFields(2, b);
    var part := Len(id, WriteFields(inner));
    LastNumOfPair(a, b);
    PairLength(a, b);
    FieldsRoundTrip(inner);
    SingleField(part);
    HeaderFromOne(part);
    assert ParsePart(part) == Some(HeaderOf(id, a, b));
    PartLength(id, a, b);
  }

  lemma HeaderRoundTrip(h: Header)
    ensures ParseHeader(WriteFields(HeaderFields(h))) == Some(h) && |WriteFields(HeaderFields(h))| <= 60
  {
    if h == NoHeader {
      assert ReadFields([]) == Some([]);
    } else if h.ReadReq? || h.WriteReq? || h.EchoReq? {
      SignedOfUnsigned(h.count);
      SignedOfUnsigned(h.size);
      PartRoundTrip(if h.ReadReq? then 1 else if h.WriteReq? then 2 else 5, Unsigned(h.count), Unsigned(h.size));
    } else {
      assert NumFields(1, h.us) + NumFields(2, 0) == NumFields(1, h.us);
      PartRoundTrip(if h.ReadRsp? then 3 else if h.WriteRsp? then 4 else 6, h.us, 0);
    }
  }

  lemma DataRoundTrip(data: Bytes)
    requires |data| < TWO_32
    ensures ParseData(WriteFields(DataFields(data))) == Some(data)
    ensures |data| <= |WriteFields(DataFields(data))| < TWO_64
  {
    if data == [] {
      assert ReadFields([]) == Some([]);
    } else {
      SingleField(Len(1, data));
      LastOfOne(Len(1, data), {1});
      VarintLength(|data|);
      VarintLength(10);
    }
  }

  lemma SerializeRoundTrip(p: Payload)
    requires p.Data? ==> |p.data| < TWO_32
    ensures Parse(Serialize(p)) == Some(p)
  {
    match p
    case Hdr(h) =>
      HeaderRoundTrip(h);
      SingleField(Len(1, WriteFields(HeaderFields(h))));
      LastOfOne(Len(1, WriteFields(HeaderFields(h))), {1, 2});
    case Data(data) =>
      DataRoundTrip(data);
      SingleField(Len(2, WriteFields(DataFields(data))));
      LastOfOne(Len(2, WriteFields(DataFields(data))), {1, 2});
    case Nothing =>
      assert ReadFields([]) == Some([]);
  }

  // ---------- The limit of 2 GB ----------

  const LIMIT := 0x7FFF_FFFF

  /** No message longer than a signed 32-bit number can say is written. */
  predicate Fits(p: Payload) {
    |Serialize(p)| <= LIMIT
  }

  /** `SerializeToString`, whose result nobody looks at: a message that is too long leaves the string empty. */
  function SerializeToString(p: Payload): Bytes {
    if Fits(p) then Serialize(p) else []
  }

  /** What a payload comes back as. */
  function Kept(p: Payload): Payload {
    if Fits(p) then p else Nothing
  }

  lemma WritesOne(f: Field)
    ensures WriteFields([f]) == WriteField(f)
  {
    assert [f][1..] == [] && WriteField(f) + [] == WriteField(f);
  }

  lemma SizeOfData(data: Bytes)
    requires data != []
    ensures |Serialize(Data(data))| == 2 + |data| + |Varint(|data|)| + |Varint(1 + |data| + |Varint(|data|)|)|
  {
    var inner := WriteFields(DataFields(data));
    WritesOne(Len(1, data));
    WritesOne(Len(2, inner));
    assert |Varint(10)| == 1 && |Varint(18)| == 1;
  }

  lemma {:induction false} VarintLengthIs(n: nat, k: nat)
    requires k > 0 && (k > 1 ==> Pow128(k - 1) <= n) && n < Pow128(k)
    ensures |Varint(n)| == k
  {
    if k > 1 { VarintLengthIs(n / 128, k - 1); }
  }

  /** The largest block that is written: twelve bytes go into the two tags and the two lengths. */
  lemma DataFits(data: Bytes)
    ensures Fits(Data(data)) <==> |data| <= LIMIT - 12
  {
    if data == [] {
      WritesOne(Len(2, []));
      assert |Varint(18)| == 1 && |Varint(0)| == 1;
    } else {
      SizeOfData(data);
      FourAndFive();
      if |data| < 0x1000_0000 {
        VarintLengthWithin(|data|, 4);
        VarintLengthWithin(1 + |data| + |Varint(|data|)|, 5);
      } else if |data| <= LIMIT {
        VarintLengthIs(|data|, 5);
        VarintLengthIs(6 + |data|, 5);
      }
    }
  }

  lemma FourAndFive()
    ensures Pow128(4) == 0x1000_0000 && Pow128(5) == 0x8_0000_0000
  {
    assert Pow128(2) == 128 * Pow128(1);
    assert Pow128(4) == 128 * Pow128(3);
  }

  lemma HeadersFit(h: Header)
    ensures Fits(Hdr(h))
  {
    HeaderRoundTrip(h);
    var part := Len(1, WriteFields(HeaderFields(h)));
    SingleField(part);
    VarintLength(|part.data|);
    VarintLength(10);
  }

  /**
   Parsing inverts serialising, for every payload that is written at all, and gives an empty one
   otherwise. On what was produced serialising inverts parsing.
   */
  lemma PayloadRoundTrip(p: Payload)
    ensures Parse(SerializeToString(p)) == Some(Kept(p))
    ensures SerializeToString(Kept(p)) == SerializeToString(p)
  {
    if Fits(p) {
      if p.Data? { DataFits(p.data); }
      SerializeRoundTrip(p);
    } else {
      SerializeRoundTrip(Nothing);
    }
  }

  // ---------- The bytes themselves ----------

  /** Seven bits a byte, the lowest first; the top bit says that more follow. */
  lemma VarintBytes(n: nat)
    ensures n < 128 ==> Varint(n) == [n]
    ensures 128 <= n < 16384 ==> Varint(n) == [n % 128 + 128, n / 128]
  {}

  /** A number other than the default: its tag, and the number. */
  function NumberBytes(tag: Byte, n: UInt64): Bytes {
    if n == 0 then [] else [tag] + Varint(n)
  }

  lemma NumFieldBytes(id: nat, n: UInt64)
    requires 1 <= id < 16
    ensures WriteFields(NumFields(id, n)) == NumberBytes(8 * id, n)
  {
    if n != 0 {
      WritesOne(Num(id, n));
      VarintBytes(8 * id);
    }
  }

  lemma PairBytes(a: UInt64, b: UInt64)
    ensures WriteFields(NumFields(1, a) + NumFields(2, b)) == NumberBytes(0x08, a) + NumberBytes(0x10, b)
  {
    NumFieldBytes(1, a);
    NumFieldBytes(2, b);
    if a == 0 {
      assert NumFields(1, a) + NumFields(2, b) == NumFields(2, b);
    } else {
      var both := NumFields(1, a) + NumFields(2, b);
      assert both[0] == Num(1, a) && both[1..] == NumFields(2, b);
      WritesOne(Num(1, a));
    }
  }

  /** A part of another message: its tag, its length, itself. */
  function PartBytes(tag: Byte, part: Bytes): Bytes {
    [tag] + Varint(|part|) + part
  }

  lemma PartFieldBytes(id: nat, part: Bytes)
    requires 1 <= id < 15
    ensures WriteFields([Len(id, part)]) == PartBytes(8 * id + 2, part)
  {
    WritesOne(Len(id, part));
    VarintBytes(8 * id + 2);
  }

  /** The two numbers of a request: the count in field 1, the size in field 2, negative ones in 64 bits. */
  function RequestNumbers(count: Int32, size: Int32): Bytes {
    NumberBytes(0x08, if count < 0 then count + TWO_64 else count)
    + NumberBytes(0x10, if size < 0 then size + TWO_64 else size)
  }

  lemma ReadReqBytes(count: Int32, size: Int32)
    ensures Serialize(Hdr(ReadReq(count, size))) == PartBytes(0x0A, PartBytes(0x0A, RequestNumbers(count, size)))
  {
    PairBytes(Unsigned(count), Unsigned(size));
    RequestPartBytes(1, RequestNumbers(count, size));
  }

  lemma WriteReqBytes(count: Int32, size: Int32)
    ensures Serialize(Hdr(WriteReq(count, size))) == PartBytes(0x0A, PartBytes(0x12, RequestNumbers(count, size)))
  {
    PairBytes(Unsigned(count), Unsigned(size));
    RequestPartBytes(2, RequestNumbers(count, size));
  }

  lemma EchoReqBytes(count: Int32, size: Int32)
    ensures Serialize(Hdr(EchoReq(count, size))) == PartBytes(0x0A, PartBytes(0x2A, RequestNumbers(count, size)))
  {
    PairBytes(Unsigned(count), Unsigned(size));
    RequestPartBytes(5, RequestNumbers(count, size));
  }

  lemma RequestPartBytes(id: nat, numbers: Bytes)
    requires 1 <= id <= 6
    ensures WriteFields([Len(1, WriteFields([Len(id, numbers)]))])
      == PartBytes(0x0A, PartBytes(8 * id + 2, numbers))
  {
    PartFieldBytes(id, numbers);
    PartFieldBytes(1, PartBytes(8 * id + 2, numbers));
  }

  /** The bytes of a reply's header: the time in field 1 of the part for its kind. */
  lemma ReplyBytes(us: UInt64)
    ensures Serialize(Hdr(ReadRsp(us))) == PartBytes(0x0A, PartBytes(0x1A, NumberBytes(0x08, us)))
    ensures Serialize(Hdr(WriteRsp(us))) == PartBytes(0x0A, PartBytes(0x22, NumberBytes(0x08, us)))
    ensures Serialize(Hdr(EchoRsp(us))) == PartBytes(0x0A, PartBytes(0x32, NumberBytes(0x08, us)))
  {
    NumFieldBytes(1, us);
    RequestPartBytes(3, NumberBytes(0x08, us));
    RequestPartBytes(4, NumberBytes(0x08, us));
    RequestPartBytes(6, NumberBytes(0x08, us));
  }

  /** The bytes of a block, and of nothing at all. */
  lemma DataBytes(data: Bytes)
    ensures data == [] ==> Serialize(Data(data)) == [0x12, 0]
    ensures data != [] ==> Serialize(Data(data)) == PartBytes(0x12, PartBytes(0x0A, data))
    ensures Serialize(Nothing) == []
  {
    if data == [] {
      PartFieldBytes(2, []);
      VarintBytes(0);
    } else {
      PartFieldBytes(1, data);
      PartFieldBytes(2, PartBytes(0x0A, data));
    }
  }

  /** The request of the script's defaults, byte by byte. */
  lemma DefaultRequestBytes()
    ensures Serialize(Hdr(WriteReq(16, 4096))) == [0x0A, 0x07, 0x12, 0x05, 0x08, 0x10, 0x10, 0x80, 0x20]
  {
    WriteReqBytes(16, 4096);
    VarintBytes(16);
    VarintBytes(4096);
    VarintBytes(5);
    VarintBytes(7);
    var numbers := RequestNumbers(16, 4096);
    assert numbers == [0x08, 0x10, 0x10, 0x80, 0x20];
    assert PartBytes(0x12, numbers) == [0x12, 0x05] + numbers;
  }

  /** Where a field stands twice, the last one counts. */
  lemma LastOneCounts(fs: seq<Field>, id: nat, n: UInt64, part: Bytes, ids: set<nat>)
    ensures LastNum(fs + [Num(id, n)], id) == n
    ensures forall other :: other != id ==> LastNum(fs + [Num(id, n)], other) == LastNum(fs, other)
    ensures id in ids ==> LastPart(fs + [Len(id, part)], ids) == Some(Len(id, part))
    ensures id !in ids ==> LastPart(fs + [Len(id, part)], ids) == LastPart(fs, ids)
  {
    assert (fs + [Num(id, n)])[..|fs|] == fs && (fs + [Len(id, part)])[..|fs|] == fs;
  }

  /** Of a number that is too long for an int32 the low 32 bits count. */
  lemma SignedIsLow(n: nat)
    ensures Signed(n) % TWO_32 == n % TWO_32
  {}
}
