/**
 The workloads on top of the transports: what a request and its reply contain, the server's
 receive function, and the client's checks on the reply.
 */
module Workload {
  import opened Options
  import opened PayloadCodec
  import opened Exchange

  datatype Kind = Write | Read | Echo

  /** `SerializeToString` and `ParseFromString`; all that is asked of them is that they agree. */
  datatype Format = Format(write: Payload -> Bytes, read: Bytes -> Option<Payload>)

  ghost predicate RoundTrips(fmt: Format) {
    forall p: Payload :: ComesBack(fmt, p)
  }

  /** What is kept of a payload comes back, and is written as the payload was. */
  predicate ComesBack(fmt: Format, p: Payload) {
    fmt.read(fmt.write(p)) == Some(Kept(p)) && fmt.write(Kept(p)) == fmt.write(p)
  }

  /** Byte j of the i-th random block. */
  type Random = (nat, nat) -> Byte

  function Block(rnd: Random, i: nat, size: nat): (b: Bytes)
    ensures |b| == size && forall j :: 0 <= j < size ==> b[j] == rnd(i, j)
  {
    seq(size, j requires 0 <= j < size => rnd(i, j))
  }

  /** The data payloads of the first `count` blocks. */
  function DataBufs(fmt: Format, rnd: Random, size: nat, count: nat): (bufs: seq<Bytes>)
    ensures |bufs| == count && forall i :: 0 <= i < count ==> bufs[i] == fmt.write(Data(Block(rnd, i, size)))
  {
    seq(count, i requires 0 <= i < count => fmt.write(Data(Block(rnd, i, size))))
  }

  // ---------- Requests ----------

  /** Counts as the client's flags give them, not negative; with one more buffer they still are an int32. */
  type Count = n: Int32 | 0 <= n < 0x7FFF_FFFF

  /** Sizes as the client's flags give them, not negative. */
  type Size = n: Int32 | 0 <= n

  function RequestHeader(kind: Kind, size: Size, count: Count): Header {
    match kind
    case Write => WriteReq(count, size)
    case Read => ReadReq(count, size)
    case Echo => EchoReq(count, size)
  }

  /** The buffers of a request: the header, and the blocks that a write or an echo carries. */
  function Request(fmt: Format, kind: Kind, size: Size, count: Count, rnd: Random): seq<Bytes> {
    [fmt.write(Hdr(RequestHeader(kind, size, count)))] + if kind == Read then [] else DataBufs(fmt, rnd, size, count)
  }

  // ---------- The server's receive function ----------

  /** A parse that fails leaves an empty payload; the result of `ParseFromString` is not looked at. */
  function ParseOrNothing(fmt: Format, b: Bytes): Payload {
    var p := fmt.read(b);
    if p.Some? then p.value else Nothing
  }

  /** An echo sends every payload but the header back, parsed and serialised again. */
  function EchoBufs(fmt: Format, req: seq<Bytes>): (bufs: seq<Bytes>)
    ensures |bufs| == |req| && forall i :: 0 <= i < |req| ==> bufs[i] == fmt.write(ParseOrNothing(fmt, req[i]))
  {
    seq(|req|, i requires 0 <= i < |req| => fmt.write(ParseOrNothing(fmt, req[i])))
  }

  /** What becomes of a request. `Overflow` is the addition that leaves the range of an int32. */
  datatype Reaction = Reply(bufs: seq<Bytes>) | Throw | Overflow

  /** The reaction to a request whose first buffer holds header `h`. */
  function HeaderReaction(fmt: Format, h: Header, req: seq<Bytes>, us: UInt64, rnd: Random): Reaction
    requires req != []
  {
    match h
    case WriteReq(_, _) => Reply([fmt.write(Hdr(WriteRsp(0)))])
    case ReadReq(count, size) =>
      if count > 0 && size < 0 then Throw
      else if count == 0x7FFF_FFFF then Overflow
      else if count < 0 then Reply([])
      else Reply([fmt.write(Hdr(ReadRsp(us)))] + DataBufs(fmt, rnd, if size < 0 then 0 else size, count))
    case EchoReq(_, _) => Reply([fmt.write(Hdr(EchoRsp(us)))] + EchoBufs(fmt, req)[1..])
    case _ => Throw
  }

  /** `ServerRcvFn`. `us` is the measured time, `rnd` the random data. */
  function ServerReaction(fmt: Format, req: seq<Bytes>, us: UInt64, rnd: Random): Reaction {
    if req == [] then Throw else
    var payload := ParseOrNothing(fmt, req[0]);
    if payload.Hdr? then HeaderReaction(fmt, payload.hdr, req, us, rnd) else Throw
  }

  // ---------- The client's checks ----------

  datatype Verdict = Valid | Invalid | OverRead

  /** The memory behind a buffer as far as it may be read: a string keeps a zero byte behind its data. */
  function Readable(buf: Bytes): (memory: Bytes)
    ensures |memory| == |buf| + 1
  {
    buf + [0]
  }

  /**
   The comparison of buffers from the i-th on; each compares as many bytes as the request's buffer
   has. Reading past the zero byte is undefined.
   */
  function Compare(req: seq<Bytes>, reply: seq<Bytes>, i: nat): Verdict
    requires |req| == |reply|
    decreases |req| - i
  {
    if i >= |req| then Valid
    else if |Readable(reply[i])| < |req[i]| then OverRead
    else if Readable(reply[i])[..|req[i]|] != req[i] then Invalid
    else Compare(req, reply, i + 1)
  }

  /** `EchoReplyValidator::isValid` */
  function EchoVerdict(req: seq<Bytes>, reply: seq<Bytes>): Verdict {
    if |req| != |reply| then Invalid else Compare(req, reply, 1)
  }

  /** `getRemoteProcessTimeUs`; `None` where it throws. */
  function RemoteTime(fmt: Format, reply: seq<Bytes>): Option<UInt64> {
    if reply == [] then None else
    match ParseOrNothing(fmt, reply[0])
    case Hdr(WriteRsp(us)) => Some(us)
    case Hdr(ReadRsp(us)) => Some(us)
    case Hdr(EchoRsp(us)) => Some(us)
    case _ => None
  }

  // ---------- What the validator accepts ----------

  /** From buffer i on, the memory behind every buffer of the reply starts with the request's buffer. */
  predicate PrefixesFrom(req: seq<Bytes>, reply: seq<Bytes>, i: nat)
    requires |req| == |reply|
  {
    forall k :: i <= k < |req| ==> req[k] <= Readable(reply[k])
  }

  lemma {:induction false} CompareMeans(req: seq<Bytes>, reply: seq<Bytes>, i: nat)
    requires |req| == |reply|
    ensures Compare(req, reply, i) == Valid <==> PrefixesFrom(req, reply, i)
    decreases |req| - i
  {
    if i < |req| { CompareMeans(req, reply, i + 1); }
  }

  /**
   Exactly what `isValid` accepts: as many buffers as the request has, and behind each but the first
   the request's bytes. It compares no lengths, so trailing bytes go unnoticed, and so does a zero
   byte that is missing at the end.
   */
  lemma ValidatorAccepts(req: seq<Bytes>, reply: seq<Bytes>)
    ensures EchoVerdict(req, reply) == Valid <==> |req| == |reply| && PrefixesFrom(req, reply, 1)
  {
    if |req| == |reply| { CompareMeans(req, reply, 1); }
  }

  /** The data of the request, unchanged. */
  predicate SameData(req: seq<Bytes>, reply: seq<Bytes>) {
    |req| == |reply| && forall k :: 1 <= k < |req| ==> reply[k] == req[k]
  }

  /** The data of the request with something behind it, or without a zero byte at the end, in some buffer. */
  predicate Resembles(req: seq<Bytes>, reply: seq<Bytes>) {
    && |req| == |reply| && PrefixesFrom(req, reply, 1)
    && exists k :: 1 <= k < |req| && |req[k]| != |reply[k]|
  }

  lemma SameLengthSameData(req: seq<Bytes>, reply: seq<Bytes>)
    requires |req| == |reply| && PrefixesFrom(req, reply, 1)
    requires forall k :: 1 <= k < |req| ==> |req[k]| == |reply[k]|
    ensures SameData(req, reply)
  {
    forall k | 1 <= k < |req| ensures reply[k] == req[k] {
      assert reply[k] == Readable(reply[k])[..|req[k]|] == req[k];
    }
  }

  /**
   Exactly when `isValid` tells whether the data came back unchanged: on every reply but those that
   only resemble it.
   */
  lemma ValidatorIsExact(req: seq<Bytes>, reply: seq<Bytes>)
    ensures (EchoVerdict(req, reply) == Valid <==> SameData(req, reply)) <==> !Resembles(req, reply)
    ensures Resembles(req, reply) ==> EchoVerdict(req, reply) == Valid && !SameData(req, reply)
  {
    ValidatorAccepts(req, reply);
    if |req| == |reply| && PrefixesFrom(req, reply, 1) && !Resembles(req, reply) {
      SameLengthSameData(req, reply);
    }
    if SameData(req, reply) {
      forall k | 1 <= k < |req| ensures req[k] <= Readable(reply[k]) {}
    }
  }

  lemma ValidatorMissesTrailingBytes(hdr: Bytes, block: Bytes, extra: Byte)
    ensures EchoVerdict([hdr, block], [hdr, block + [extra]]) == Valid
    ensures !SameData([hdr, block], [hdr, block + [extra]])
  {
    var req, reply := [hdr, block], [hdr, block + [extra]];
    assert block <= Readable(reply[1]);
    ValidatorAccepts(req, reply);
    assert |reply[1]| == |req[1]| + 1;
  }

  lemma ValidatorMissesALostZero(hdr: Bytes, block: Bytes)
    ensures EchoVerdict([hdr, block + [0]], [hdr, block]) == Valid
    ensures !SameData([hdr, block + [0]], [hdr, block])
  {
    var req, reply := [hdr, block + [0]], [hdr, block];
    ValidatorAccepts(req, reply);
    assert |req[1]| == |reply[1]| + 1;
  }

  /** A buffer lacks more than the zero byte, and none before it gives a difference. */
  predicate ShortAfterPrefixes(req: seq<Bytes>, reply: seq<Bytes>, i: nat)
    requires |req| == |reply|
  {
    exists k :: i <= k < |req| && |reply[k]| + 1 < |req[k]| && forall j :: i <= j < k ==> req[j] <= Readable(reply[j])
  }

  lemma {:induction false} CompareOverReads(req: seq<Bytes>, reply: seq<Bytes>, i: nat)
    requires |req| == |reply|
    ensures Compare(req, reply, i) == OverRead <==> ShortAfterPrefixes(req, reply, i)
    decreases |req| - i
  {
    if i < |req| {
      CompareOverReads(req, reply, i + 1);
      if req[i] <= Readable(reply[i]) {
        if ShortAfterPrefixes(req, reply, i + 1) {
          var k :| i + 1 <= k < |req| && |reply[k]| + 1 < |req[k]|
                   && forall j :: i + 1 <= j < k ==> req[j] <= Readable(reply[j]);
          assert forall j :: i <= j < k ==> req[j] <= Readable(reply[j]);
        }
      }
    }
  }

  /** Exactly when the comparison reads memory that it must not. */
  lemma ValidatorOverReads(req: seq<Bytes>, reply: seq<Bytes>)
    ensures EchoVerdict(req, reply) == OverRead <==> |req| == |reply| && ShortAfterPrefixes(req, reply, 1)
  {
    if |req| == |reply| { CompareOverReads(req, reply, 1); }
  }

  lemma ShorterReplyIsOverRead(hdr: Bytes, block: Bytes, last: Byte, beyond: Byte)
    ensures EchoVerdict([hdr, block + [last, beyond]], [hdr, block]) == OverRead
  {
    var req, reply := [hdr, block + [last, beyond]], [hdr, block];
    assert |reply[1]| + 1 < |req[1]|;
    ValidatorOverReads(req, reply);
  }

  // ---------- Request and reply agree ----------

  /** The reply's header for each kind of request; a write's reply carries no time. */
  function ReplyHeader(kind: Kind, us: UInt64): Header {
    match kind
    case Write => WriteRsp(0)
    case Read => ReadRsp(us)
    case Echo => EchoRsp(us)
  }

  /**
   What the client can tell from a reply: its kind, its time, how many buffers, and the blocks of a
   read, which come empty if they are too long to be written.
   */
  ghost predicate ReplyFits(
    fmt: Format, kind: Kind, size: Size, count: Count, us: UInt64, rnd: Random, reply: seq<Bytes>)
  {
    && |reply| == (if kind == Write then 1 else count + 1)
    && ParseOrNothing(fmt, reply[0]) == Hdr(ReplyHeader(kind, us))
    && RemoteTime(fmt, reply) == Some(if kind == Write then 0 else us)
    && (kind == Read ==>
          forall i :: 1 <= i <= count ==> ParseOrNothing(fmt, reply[i]) == Kept(Data(Block(rnd, i - 1, size))))
  }

  lemma HeaderReads(fmt: Format, h: Header)
    requires RoundTrips(fmt)
    ensures ParseOrNothing(fmt, fmt.write(Hdr(h))) == Hdr(h)
  {
    assert ComesBack(fmt, Hdr(h));
    HeadersFit(h);
  }

  lemma BlockReads(fmt: Format, block: Bytes)
    requires RoundTrips(fmt)
    ensures ParseOrNothing(fmt, fmt.write(Data(block))) == Kept(Data(block))
  {
    assert ComesBack(fmt, Data(block));
  }

  /** The buffers behind the header of a reply. */
  function ReplyRest(
    fmt: Format, kind: Kind, size: Size, count: Count, req: seq<Bytes>, rnd: Random): (rest: seq<Bytes>)
    requires req != []
    ensures |rest| == if kind == Write then 0 else if kind == Read then count else |req| - 1
  {
    match kind
    case Write => []
    case Read => DataBufs(fmt, rnd, size, count)
    case Echo => EchoBufs(fmt, req)[1..]
  }

  lemma ClientRequestReaction(
    fmt: Format, kind: Kind, size: Size, count: Count, sent: Random, us: UInt64, rnd: Random)
    requires RoundTrips(fmt)
    ensures var req := Request(fmt, kind, size, count, sent);
      ServerReaction(fmt, req, us, rnd)
        == Reply([fmt.write(Hdr(ReplyHeader(kind, us)))] + ReplyRest(fmt, kind, size, count, req, rnd))
  {
    HeaderReads(fmt, RequestHeader(kind, size, count));
    var w := [fmt.write(Hdr(WriteRsp(0)))];
    assert w + [] == w;
  }

  lemma TimeReads(fmt: Format, kind: Kind, us: UInt64, reply: seq<Bytes>)
    requires RoundTrips(fmt) && reply != [] && reply[0] == fmt.write(Hdr(ReplyHeader(kind, us)))
    ensures ParseOrNothing(fmt, reply[0]) == Hdr(ReplyHeader(kind, us))
    ensures RemoteTime(fmt, reply) == Some(if kind == Write then 0 else us)
  {
    HeaderReads(fmt, ReplyHeader(kind, us));
  }

  lemma BlockAt(fmt: Format, size: Size, count: Count, rnd: Random, header: Bytes, i: nat)
    requires 1 <= i <= count
    ensures ([header] + DataBufs(fmt, rnd, size, count))[i] == fmt.write(Data(Block(rnd, i - 1, size)))
  {}

  /** A block that is parsed and serialised again is what it was. */
  lemma BlockComesBack(fmt: Format, block: Bytes)
    requires RoundTrips(fmt)
    ensures fmt.write(ParseOrNothing(fmt, fmt.write(Data(block)))) == fmt.write(Data(block))
  {
    BlockReads(fmt, block);
    assert ComesBack(fmt, Data(block));
  }

  /** Every client-built request gets a reply of the matching kind, buffer count and block size. */
  lemma RequestAndReplyAgree(
    fmt: Format, kind: Kind, size: Size, count: Count, sent: Random, us: UInt64, rnd: Random)
    requires RoundTrips(fmt)
    ensures var reaction := ServerReaction(fmt, Request(fmt, kind, size, count, sent), us, rnd);
      reaction.Reply? && ReplyFits(fmt, kind, size, count, us, rnd, reaction.bufs)
  {
    var req := Request(fmt, kind, size, count, sent);
    var header := fmt.write(Hdr(ReplyHeader(kind, us)));
    var reply := [header] + ReplyRest(fmt, kind, size, count, req, rnd);
    ClientRequestReaction(fmt, kind, size, count, sent, us, rnd);
    TimeReads(fmt, kind, us, reply);
    if kind == Read {
      forall i | 1 <= i <= count ensures ParseOrNothing(fmt, reply[i]) == Kept(Data(Block(rnd, i - 1, size))) {
        BlockAt(fmt, size, count, rnd, header, i);
        BlockReads(fmt, Block(rnd, i - 1, size));
      }
    }
  }

  /** An echo's reply carries the request's own data, byte for byte, and the validator accepts it. */
  lemma EchoComesBack(fmt: Format, size: Size, count: Count, sent: Random, us: UInt64, rnd: Random)
    requires RoundTrips(fmt)
    ensures var req := Request(fmt, Echo, size, count, sent);
      var reaction := ServerReaction(fmt, req, us, rnd);
      && reaction.Reply? && SameData(req, reaction.bufs)
      && (forall i :: 1 <= i < |req| ==> req[i] == fmt.write(Data(Block(sent, i - 1, size))))
      && EchoVerdict(req, reaction.bufs) == Valid
  {
    var req := Request(fmt, Echo, size, count, sent);
    ClientRequestReaction(fmt, Echo, size, count, sent, us, rnd);
    var reply := [fmt.write(Hdr(EchoRsp(us)))] + EchoBufs(fmt, req)[1..];
    forall i | 1 <= i < |req| ensures reply[i] == req[i] == fmt.write(Data(Block(sent, i - 1, size))) {
      assert req[i] == DataBufs(fmt, sent, size, count)[i - 1];
      assert reply[i] == EchoBufs(fmt, req)[i];
      BlockComesBack(fmt, Block(sent, i - 1, size));
    }
    ValidatorAccepts(req, reply);
  }

  // ---------- Field by field ----------

  /** What a buffer with the i-th of some random blocks parses as: that block, or nothing if it is too long. */
  predicate HoldsBlock(p: Payload, rnd: Random, i: nat, size: nat) {
    if size <= LIMIT - 12 then
      p.Data? && |p.data| == size && forall j :: 0 <= j < size ==> p.data[j] == rnd(i, j)
    else p == Nothing
  }

  lemma BlockIsHeld(rnd: Random, i: nat, size: nat)
    ensures HoldsBlock(Kept(Data(Block(rnd, i, size))), rnd, i, size)
  {
    DataFits(Block(rnd, i, size));
  }

  lemma RequestHeaderReads(fmt: Format, kind: Kind, size: Size, count: Count, rnd: Random)
    requires RoundTrips(fmt)
    ensures var first := ParseOrNothing(fmt, Request(fmt, kind, size, count, rnd)[0]);
      && first.Hdr?
      && (kind == Write ==> first.hdr.WriteReq? && first.hdr.count == count && first.hdr.size == size)
      && (kind == Read ==> first.hdr.ReadReq? && first.hdr.count == count && first.hdr.size == size)
      && (kind == Echo ==> first.hdr.EchoReq? && first.hdr.count == count && first.hdr.size == size)
  {
    HeaderReads(fmt, RequestHeader(kind, size, count));
  }

  lemma BlockBufferReads(fmt: Format, buf: Bytes, rnd: Random, i: nat, size: nat)
    requires RoundTrips(fmt) && buf == fmt.write(Data(Block(rnd, i, size)))
    ensures HoldsBlock(ParseOrNothing(fmt, buf), rnd, i, size)
  {
    BlockReads(fmt, Block(rnd, i, size));
    BlockIsHeld(rnd, i, size);
  }

  lemma RequestBlockIs(fmt: Format, kind: Kind, size: Size, count: Count, rnd: Random, i: nat)
    requires kind != Read && 1 <= i <= count
    ensures Request(fmt, kind, size, count, rnd)[i] == fmt.write(Data(Block(rnd, i - 1, size)))
  {}

  lemma RequestBlockReads(fmt: Format, kind: Kind, size: Size, count: Count, rnd: Random, i: nat)
    requires RoundTrips(fmt) && kind != Read && 1 <= i <= count
    ensures HoldsBlock(ParseOrNothing(fmt, Request(fmt, kind, size, count, rnd)[i]), rnd, i - 1, size)
  {
    RequestBlockIs(fmt, kind, size, count, rnd, i);
    BlockBufferReads(fmt, Request(fmt, kind, size, count, rnd)[i], rnd, i - 1, size);
  }

  /**
   A request says what it asks for: its first buffer is the header of its kind with the count and the
   size, and a write or an echo carries that many blocks of that size.
   */
  lemma RequestSaysWhatItCarries(fmt: Format, kind: Kind, size: Size, count: Count, rnd: Random)
    requires RoundTrips(fmt)
    ensures var req := Request(fmt, kind, size, count, rnd);
      var first := ParseOrNothing(fmt, req[0]);
      && first.Hdr?
      && (kind == Write ==> first.hdr.WriteReq? && first.hdr.count == count && first.hdr.size == size)
      && (kind == Read ==> first.hdr.ReadReq? && first.hdr.count == count && first.hdr.size == size)
      && (kind == Echo ==> first.hdr.EchoReq? && first.hdr.count == count && first.hdr.size == size)
      && (if kind == Read then |req| == 1 else |req| == count + 1)
      && forall i :: 1 <= i < |req| ==> HoldsBlock(ParseOrNothing(fmt, req[i]), rnd, i - 1, size)
  {
    RequestHeaderReads(fmt, kind, size, count, rnd);
    var req := Request(fmt, kind, size, count, rnd);
    forall i | 1 <= i < |req| ensures HoldsBlock(ParseOrNothing(fmt, req[i]), rnd, i - 1, size) {
      RequestBlockReads(fmt, kind, size, count, rnd, i);
    }
  }

  lemma ReplyHeaderReads(
    fmt: Format, kind: Kind, size: Size, count: Count, sent: Random, us: UInt64, rnd: Random)
    requires RoundTrips(fmt)
    ensures var reaction := ServerReaction(fmt, Request(fmt, kind, size, count, sent), us, rnd);
      && reaction.Reply?
      && var reply := reaction.bufs;
         && reply != []
         && (kind == Write ==> |reply| == 1 && ParseOrNothing(fmt, reply[0]) == Hdr(WriteRsp(0)))
         && (kind == Read ==> |reply| == count + 1 && ParseOrNothing(fmt, reply[0]) == Hdr(ReadRsp(us)))
         && (kind == Echo ==> |reply| == count + 1 && ParseOrNothing(fmt, reply[0]) == Hdr(EchoRsp(us)))
  {
    RequestAndReplyAgree(fmt, kind, size, count, sent, us, rnd);
  }

  lemma ReplyBlockReads(
    fmt: Format, kind: Kind, size: Size, count: Count, sent: Random, us: UInt64, rnd: Random, i: nat)
    requires RoundTrips(fmt) && kind != Write && 1 <= i <= count
    ensures var reaction := ServerReaction(fmt, Request(fmt, kind, size, count, sent), us, rnd);
      && reaction.Reply? && i < |reaction.bufs|
      && HoldsBlock(ParseOrNothing(fmt, reaction.bufs[i]), if kind == Read then rnd else sent, i - 1, size)
  {
    ReplyHeaderReads(fmt, kind, size, count, sent, us, rnd);
    if kind == Read {
      RequestAndReplyAgree(fmt, kind, size, count, sent, us, rnd);
      BlockIsHeld(rnd, i - 1, size);
    } else {
      EchoComesBack(fmt, size, count, sent, us, rnd);
      RequestBlockReads(fmt, Echo, size, count, sent, i);
    }
  }

  /** And so does its reply: a header of its kind with the time, and the blocks that were asked for. */
  lemma ReplySaysWhatItCarries(
    fmt: Format, kind: Kind, size: Size, count: Count, sent: Random, us: UInt64, rnd: Random)
    requires RoundTrips(fmt)
    ensures var reaction := ServerReaction(fmt, Request(fmt, kind, size, count, sent), us, rnd);
      && reaction.Reply?
      && var reply := reaction.bufs;
         && reply != []
         && (kind == Write ==> |reply| == 1 && ParseOrNothing(fmt, reply[0]) == Hdr(WriteRsp(0)))
         && (kind == Read ==> |reply| == count + 1 && ParseOrNothing(fmt, reply[0]) == Hdr(ReadRsp(us)))
         && (kind == Echo ==> |reply| == count + 1 && ParseOrNothing(fmt, reply[0]) == Hdr(EchoRsp(us)))
         && forall i :: 1 <= i < |reply| ==>
              HoldsBlock(ParseOrNothing(fmt, reply[i]), if kind == Read then rnd else sent, i - 1, size)
  {
    ReplyHeaderReads(fmt, kind, size, count, sent, us, rnd);
    var reply := ServerReaction(fmt, Request(fmt, kind, size, count, sent), us, rnd).bufs;
    forall i | 1 <= i < |reply|
      ensures HoldsBlock(ParseOrNothing(fmt, reply[i]), if kind == Read then rnd else sent, i - 1, size)
    {
      ReplyBlockReads(fmt, kind, size, count, sent, us, rnd, i);
    }
  }

  /** The client reads a time off a reply exactly where its first buffer is a reply's header, and then that time. */
  lemma TimeIsRead(fmt: Format, reply: seq<Bytes>, us: UInt64)
    ensures RemoteTime(fmt, reply) == Some(us) <==>
      && reply != []
      && var first := ParseOrNothing(fmt, reply[0]);
         first == Hdr(WriteRsp(us)) || first == Hdr(ReadRsp(us)) || first == Hdr(EchoRsp(us))
  {}

  /** The requests that the server throws on, for any buffers at all. */
  lemma ServerThrowsExactly(fmt: Format, req: seq<Bytes>, us: UInt64, rnd: Random)
    ensures ServerReaction(fmt, req, us, rnd) == Throw <==>
      || req == []
      || !ParseOrNothing(fmt, req[0]).Hdr?
      || (var h := ParseOrNothing(fmt, req[0]).hdr;
          || h.ReadRsp? || h.WriteRsp? || h.EchoRsp? || h.NoHeader?
          || (h.ReadReq? && h.count > 0 && h.size < 0))
  {}

  /** What it answers to the others, for any buffers and any numbers in the header. */
  lemma ServerAnswersExactly(fmt: Format, req: seq<Bytes>, us: UInt64, rnd: Random)
    requires req != [] && ParseOrNothing(fmt, req[0]).Hdr?
    ensures var h := ParseOrNothing(fmt, req[0]).hdr;
      var reaction := ServerReaction(fmt, req, us, rnd);
      && (h.WriteReq? ==> reaction == Reply([fmt.write(Hdr(WriteRsp(0)))]))
      && (h.ReadReq? && h.count < 0 ==> reaction == Reply([]))
      && (h.ReadReq? && h.count == 0 ==> reaction == Reply([fmt.write(Hdr(ReadRsp(us)))]))
      && (h.ReadReq? && h.count == 0x7FFF_FFFF && h.size >= 0 ==> reaction == Overflow)
      && (h.ReadReq? && 0 < h.count < 0x7FFF_FFFF && h.size >= 0 ==>
            && reaction.Reply? && |reaction.bufs| == h.count + 1 && reaction.bufs[0] == fmt.write(Hdr(ReadRsp(us)))
            && forall i :: 1 <= i <= h.count ==>
                 exists b: Bytes :: reaction.bufs[i] == fmt.write(Data(b)) && IsBlock(b, rnd, i - 1, h.size))
      && (h.EchoReq? ==>
            && reaction.Reply? && |reaction.bufs| == |req| && reaction.bufs[0] == fmt.write(Hdr(EchoRsp(us)))
            && forall i :: 1 <= i < |req| ==> reaction.bufs[i] == fmt.write(ParseOrNothing(fmt, req[i])))
  {
    var h := ParseOrNothing(fmt, req[0]).hdr;
    var reaction := ServerReaction(fmt, req, us, rnd);
    if h.ReadReq? && 0 < h.count < 0x7FFF_FFFF && h.size >= 0 {
      forall i | 1 <= i <= h.count
        ensures exists b: Bytes :: reaction.bufs[i] == fmt.write(Data(b)) && IsBlock(b, rnd, i - 1, h.size)
      {
        BlockAt(fmt, h.size, h.count, rnd, reaction.bufs[0], i);
        assert IsBlock(Block(rnd, i - 1, h.size), rnd, i - 1, h.size);
      }
    }
  }

  /** Exactly the random bytes of block i. */
  predicate IsBlock(b: Bytes, rnd: Random, i: nat, size: nat) {
    |b| == size && forall j :: 0 <= j < size ==> b[j] == rnd(i, j)
  }
}
