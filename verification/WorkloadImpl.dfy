/**
 The payload creators, the receive function and the validators in their own form: loops that
 append serialised payloads to messages and scan them. Each computes what `Workload` says.
 */
module WorkloadImpl {
  import opened Options
  import opened PayloadCodec
  import opened Workload
  import opened Buffers
  import opened Endpoints

  method AddToMsg(fmt: Format, payload: Payload, msg: Message)
    requires msg.Valid()
    modifies msg, msg.data, msg.data.slots
    ensures msg.Valid() && msg.Contents == old(msg.Contents) + [fmt.write(payload)]
    ensures |msg.bufs| == old(|msg.bufs|) + 1 && msg.bufs[..old(|msg.bufs|)] == old(msg.bufs)
    ensures msg.data.slots == old(msg.data.slots) || fresh(msg.data.slots)
  {
    msg.Append(fmt.write(payload));
  }

  /** Appends the i-th of the buffers that are being built. */
  method AddNext(fmt: Format, payload: Payload, msg: Message, ghost target: seq<Bytes>, ghost i: nat)
    requires msg.Valid() && i < |target| && msg.Contents == target[..i] && target[i] == fmt.write(payload)
    modifies msg, msg.data, msg.data.slots
    ensures msg.Valid() && msg.Contents == target[..i + 1]
    ensures msg.data.slots == old(msg.data.slots) || fresh(msg.data.slots)
  {
    AddToMsg(fmt, payload, msg);
    assert target[..i + 1] == target[..i] + [target[i]];
  }

  /** Write and echo requests: the first buffer is the header, the others are random blocks. */
  method FillBlocksRequest(fmt: Format, kind: Kind, msg: Message, size: Size, count: Count, rnd: Random)
    requires kind != Read && msg.Valid() && msg.Contents == []
    modifies msg, msg.data, msg.data.slots
    ensures msg.Valid() && msg.Contents == Request(fmt, kind, size, count, rnd)
    ensures |msg.Contents| == count + 1
    ensures msg.Contents[0] == fmt.write(Hdr(if kind == Write then WriteReq(count, size) else EchoReq(count, size)))
    ensures forall i :: 1 <= i <= count ==> msg.Contents[i] == fmt.write(Data(Block(rnd, i - 1, size)))
    ensures msg.data.slots == old(msg.data.slots) || fresh(msg.data.slots)
  {
    ghost var request := Request(fmt, kind, size, count, rnd);
    for i := 0 to count + 1
      invariant msg.Valid() && msg.Contents == request[..i]
      invariant msg.data.slots == old(msg.data.slots) || fresh(msg.data.slots)
    {
      var payload := Hdr(RequestHeader(kind, size, count));
      if i != 0 {
        payload := Data(Block(rnd, i - 1, size));
        assert request[i] == DataBufs(fmt, rnd, size, count)[i - 1];
      }
      AddNext(fmt, payload, msg, request, i);
    }
    assert request[..count + 1] == request;
  }

  method FillReadRequest(fmt: Format, msg: Message, size: Size, count: Count, rnd: Random)
    requires msg.Valid() && msg.Contents == []
    modifies msg, msg.data, msg.data.slots
    ensures msg.Valid() && msg.Contents == Request(fmt, Read, size, count, rnd)
    ensures msg.Contents == [fmt.write(Hdr(ReadReq(count, size)))]
    ensures msg.data.slots == old(msg.data.slots) || fresh(msg.data.slots)
  {
    AddToMsg(fmt, Hdr(ReadReq(count, size)), msg);
  }

  /** The request creator of the workload. */
  method FillRequest(fmt: Format, kind: Kind, msg: Message, size: Size, count: Count, rnd: Random)
    requires msg.Valid() && msg.Contents == []
    modifies msg, msg.data, msg.data.slots
    ensures msg.Valid() && msg.Contents == Request(fmt, kind, size, count, rnd)
    ensures msg.data.slots == old(msg.data.slots) || fresh(msg.data.slots)
  {
    if kind == Read {
      FillReadRequest(fmt, msg, size, count, rnd);
    } else {
      FillBlocksRequest(fmt, kind, msg, size, count, rnd);
    }
  }

  /** The read reply: all random data first, then the header and the blocks. */
  method FillReadReply(fmt: Format, msg: Message, size: nat, count: nat, us: UInt64, rnd: Random)
    requires msg.Valid() && msg.Contents == []
    modifies msg, msg.data, msg.data.slots
    ensures msg.Valid() && msg.Contents == [fmt.write(Hdr(ReadRsp(us)))] + DataBufs(fmt, rnd, size, count)
  {
    var randData: seq<Bytes> := [];
    for i := 0 to count
      invariant |randData| == i && forall j :: 0 <= j < i ==> randData[j] == Block(rnd, j, size)
    {
      randData := randData + [Block(rnd, i, size)];
    }
    ghost var reply := [fmt.write(Hdr(ReadRsp(us)))] + DataBufs(fmt, rnd, size, count);
    for i := 0 to count + 1
      invariant msg.Valid() && msg.Contents == reply[..i]
      invariant msg.data.slots == old(msg.data.slots) || fresh(msg.data.slots)
    {
      var payload := Hdr(ReadRsp(us));
      if i != 0 {
        payload := Data(randData[i - 1]);
        assert reply[i] == DataBufs(fmt, rnd, size, count)[i - 1];
      }
      AddNext(fmt, payload, msg, reply, i);
    }
    assert reply[..count + 1] == reply;
  }

  /** Deserialises every buffer. */
  method ParseAll(fmt: Format, req: Message) returns (echoData: seq<Payload>)
    requires req.Valid()
    ensures |echoData| == |req.bufs|
    ensures forall j :: 0 <= j < |echoData| ==> echoData[j] == ParseOrNothing(fmt, req.Contents[j])
  {
    echoData := [];
    for i := 0 to |req.bufs|
      invariant |echoData| == i && forall j :: 0 <= j < i ==> echoData[j] == ParseOrNothing(fmt, req.Contents[j])
    {
      var str := req.Read(i);
      echoData := echoData + [ParseOrNothing(fmt, str)];
    }
  }

  /** The echo reply: parse every buffer of the request, then send all but the first back. */
  method FillEchoReply(fmt: Format, req: Message, msg: Message, us: UInt64)
    requires req.Valid() && msg.Valid() && Apart(req, msg) && msg.Contents == [] && req.Contents != []
    modifies msg, msg.data, msg.data.slots
    ensures msg.Valid() && msg.Contents == [fmt.write(Hdr(EchoRsp(us)))] + EchoBufs(fmt, old(req.Contents))[1..]
  {
    ghost var request := req.Contents;
    var echoData := ParseAll(fmt, req);
    ghost var reply := [fmt.write(Hdr(EchoRsp(us)))] + EchoBufs(fmt, request)[1..];
    for i := 0 to |echoData|
      invariant msg.Valid() && msg.Contents == reply[..i]
      invariant msg.data.slots == old(msg.data.slots) || fresh(msg.data.slots)
    {
      var payload := Hdr(EchoRsp(us));
      if i != 0 {
        payload := echoData[i];
        assert reply[i] == EchoBufs(fmt, request)[i];
      }
      AddNext(fmt, payload, msg, reply, i);
    }
    assert reply[..|echoData|] == reply;
  }

  /** How the receive function ends. */
  datatype Ending = Returned | Threw | Overflowed

  predicate Ended(end: Ending, bufs: seq<Bytes>, reaction: Reaction) {
    match reaction
    case Reply(expected) => end == Returned && bufs == expected
    case Throw => end == Threw
    case Overflow => end == Overflowed
  }

  /** The branch for each kind of header. */
  method Answer(fmt: Format, h: Header, req: Message, rsp: Message, us: UInt64, rnd: Random) returns (end: Ending)
    requires req.Valid() && rsp.Valid() && Apart(req, rsp) && rsp.Contents == [] && req.Contents != []
    modifies rsp, rsp.data, rsp.data.slots
    ensures rsp.Valid()
    ensures Ended(end, rsp.Contents, HeaderReaction(fmt, h, old(req.Contents), us, rnd))
  {
    end := Returned;
    if h.WriteReq? {
      AddToMsg(fmt, Hdr(WriteRsp(0)), rsp);
      assert rsp.Contents == [fmt.write(Hdr(WriteRsp(0)))];
    } else if h.ReadReq? {
      if h.count > 0 && h.size < 0 {
        end := Threw;  // no array of negative length
      } else if h.count == 0x7FFF_FFFF {
        end := Overflowed;  // one more is no int32
      } else if h.count >= 0 {
        FillReadReply(fmt, rsp, if h.size < 0 then 0 else h.size, h.count, us, rnd);
      }
    } else if h.EchoReq? {
      FillEchoReply(fmt, req, rsp, us);
    } else {
      end := Threw;
    }
  }

  /** The receive function: the header in the first buffer decides. */
  method ServerRcvFn(fmt: Format, req: Message, rsp: Message, us: UInt64, rnd: Random) returns (end: Ending)
    requires req.Valid() && rsp.Valid() && Apart(req, rsp) && rsp.Contents == []
    modifies rsp, rsp.data, rsp.data.slots
    ensures rsp.Valid()
    ensures Ended(end, rsp.Contents, ServerReaction(fmt, old(req.Contents), us, rnd))
  {
    ghost var request := req.Contents;
    if |req.bufs| == 0 {
      return Threw;
    }
    var str := req.Read(0);
    assert str == request[0];
    var payload := ParseOrNothing(fmt, str);
    if payload.Hdr? {
      end := Answer(fmt, payload.hdr, req, rsp, us, rnd);
    } else {
      end := Threw;
    }
  }

  /** The scan of the echo validator: it stops at the first difference. */
  method IsValid(req: Message, reply: Message) returns (verdict: Verdict)
    requires req.Valid() && reply.Valid()
    ensures verdict == EchoVerdict(req.Contents, reply.Contents)
  {
    if |req.bufs| != |reply.bufs| {
      return Invalid;
    }
    ghost var sent, got := req.Contents, reply.Contents;
    var i := 1;
    while i < |req.bufs|
      invariant 1 <= i
      invariant req.Contents == sent && reply.Contents == got
      invariant Compare(sent, got, 1) == Compare(sent, got, i)
    {
      var a := req.Read(i);
      var b := reply.Memory(i);
      if |b| < |a| {
        return OverRead;
      }
      if b[..|a|] != a {
        return Invalid;
      }
      i := i + 1;
    }
    verdict := Valid;
  }

  /** The process time in the header of the reply. */
  method GetRemoteProcessTimeUs(fmt: Format, reply: Message) returns (us: Option<UInt64>)
    requires reply.Valid()
    ensures us == RemoteTime(fmt, reply.Contents)
  {
    if |reply.bufs| == 0 {
      return None;
    }
    var str := reply.Read(0);
    var payload := ParseOrNothing(fmt, str);
    if payload.Hdr? && (payload.hdr.WriteRsp? || payload.hdr.ReadRsp? || payload.hdr.EchoRsp?) {
      us := Some(payload.hdr.us);
    } else {
      us := None;
    }
  }
}
