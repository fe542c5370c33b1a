/**
 The transports' own code at the two ends, in its own form: loops and callbacks that append to
 messages. A whole `sendReq` without failures has the effect of a run of the exchange machine, for
 every positive window.
 */
module Endpoints {
  import opened Options
  import opened Exchange
  import opened Buffers
  import GrpcExchange
  import CapnpExchange

  /** Each of the messages can change without the other noticing. */
  ghost predicate Apart(a: Message, b: Message)
    reads a, a.data, b, b.data
  {
    {a, a.data, a.data.slots} !! {b, b.data, b.data.slots}
  }

  // ---------- gRPC ----------

  /** One end of a gRPC stream: what `Read` still yields before it returns false, and what was written. */
  class GrpcStream {
    var incoming: seq<Bytes>
    var outgoing: seq<Bytes>

    constructor (incoming: seq<Bytes>)
      ensures this.incoming == incoming && outgoing == []
    {
      this.incoming := incoming;
      outgoing := [];
    }

    method Read() returns (ok: bool, data: Bytes)
      modifies `incoming
      ensures ok == (old(incoming) != [])
      ensures ok ==> data == old(incoming)[0] && incoming == old(incoming)[1..]
      ensures !ok ==> incoming == old(incoming)
    {
      ok, data := incoming != [], [];
      if ok {
        data := incoming[0];
        incoming := incoming[1..];
      }
    }

    method Write(data: Bytes)
      modifies `outgoing
      ensures outgoing == old(outgoing) + [data]
    {
      outgoing := outgoing + [data];
    }
  }

  /** The read loop of both ends: every message becomes one more buffer. */
  method ReadAll(stream: GrpcStream, msg: Message)
    requires msg.Valid()
    modifies stream, msg, msg.data, msg.data.slots
    ensures msg.Valid() && msg.Contents == old(msg.Contents) + old(stream.incoming)
    ensures stream.outgoing == old(stream.outgoing) && stream.incoming == []
    ensures msg.data.slots == old(msg.data.slots) || fresh(msg.data.slots)
  {
    ghost var before, arriving := msg.Contents, stream.incoming;
    assert msg.Contents + stream.incoming == before + arriving;
    while true
      invariant msg.Valid() && msg.Contents + stream.incoming == before + arriving
      invariant stream.outgoing == old(stream.outgoing)
      invariant msg.data.slots == old(msg.data.slots) || fresh(msg.data.slots)
      decreases |stream.incoming|
    {
      ghost var got, left := msg.Contents, stream.incoming;
      var ok, data := stream.Read();
      if !ok {
        assert got + [] == got;
        break;
      }
      msg.Append(data);
      assert msg.Contents + stream.incoming == got + left;
    }
  }

  /** The write loop of both ends. */
  method WriteAll(stream: GrpcStream, msg: Message)
    requires msg.Valid()
    modifies stream`outgoing
    ensures stream.outgoing == old(stream.outgoing) + old(msg.Contents)
  {
    ghost var before, contents := stream.outgoing, msg.Contents;
    for i := 0 to |msg.bufs|
      invariant msg.Valid() && msg.Contents == contents
      invariant stream.outgoing == before + contents[..i]
    {
      var bytes := msg.Read(i);
      stream.Write(bytes);
      assert contents[..i + 1] == contents[..i] + [contents[i]];
    }
    assert contents[..|contents|] == contents;
  }

  /** What the handler leaves in the outgoing message. */
  method Fill(msg: Message, bufs: seq<Bytes>)
    requires msg.Valid()
    modifies msg, msg.data, msg.data.slots
    ensures msg.Valid() && msg.Contents == old(msg.Contents) + bufs
    ensures msg.data.slots == old(msg.data.slots) || fresh(msg.data.slots)
  {
    ghost var before := msg.Contents;
    for i := 0 to |bufs|
      invariant msg.Valid() && msg.Contents == before + bufs[..i]
      invariant msg.data.slots == old(msg.data.slots) || fresh(msg.data.slots)
    {
      msg.Append(bufs[i]);
      assert bufs[..i + 1] == bufs[..i] + [bufs[i]];
    }
    assert bufs[..|bufs|] == bufs;
  }

  /** The server's `ReqReply`: read to the end, run the handler once, write its reply. */
  method ReqReply(stream: GrpcStream, handler: Handler) returns (aborted: bool)
    modifies stream
    ensures aborted == handler(old(stream.incoming)).None?
    ensures stream.outgoing == old(stream.outgoing) + if aborted then [] else handler(old(stream.incoming)).value
  {
    var rcvMsg := new Message();
    var sndMsg := new Message();
    ReadAll(stream, rcvMsg);
    assert rcvMsg.Contents == old(stream.incoming);
    var request := rcvMsg.ReadAll();
    assert request == old(stream.incoming);
    var reply := handler(request);
    aborted := reply.None?;
    if !aborted {
      Fill(sndMsg, reply.value);
      WriteAll(stream, sndMsg);
    }
  }

  /** The client's write loop, and the server's `ReqReply` run to its end on what was written. */
  method WriteAndServe(request: Message, handler: Handler) returns (failed: bool, answer: seq<Bytes>)
    requires request.Valid()
    ensures failed == handler(request.Contents).None?
    ensures answer == if failed then [] else handler(request.Contents).value
  {
    var up := new GrpcStream([]);
    WriteAll(up, request);
    assert up.outgoing == request.Contents;
    var server := new GrpcStream(up.outgoing);
    failed := ReqReply(server, handler);
    answer := server.outgoing;
  }

  /** The client's two loops with the server in the middle. */
  method WriteAndRead(request: Message, reply: Message, handler: Handler) returns (failed: bool)
    requires request.Valid() && reply.Valid() && Apart(request, reply)
    modifies reply, reply.data, reply.data.slots
    ensures request.Valid() && request.Contents == old(request.Contents)
    ensures failed == handler(request.Contents).None?
    ensures reply.Valid()
    ensures reply.Contents == old(reply.Contents) + if failed then [] else handler(request.Contents).value
    ensures reply.data.slots == old(reply.data.slots) || fresh(reply.data.slots)
  {
    var answer;
    failed, answer := WriteAndServe(request, handler);
    var down := new GrpcStream(answer);
    ReadAll(down, reply);
  }

  /**
   The client's `sendReq`: write every buffer, half-close, read to the end into views of its own,
   and throw on a bad status. It has the effect of `steps`, a run of the exchange machine.
   */
  method SendReqOverGrpc(request: Message, reply: Message, handler: Handler, ghost window: nat)
      returns (threw: bool, ghost steps: seq<GrpcExchange.Step>, ghost end: GrpcExchange.Stream)
    requires window > 0
    requires request.Valid() && reply.Valid() && Apart(request, reply)
    modifies reply, reply.data, reply.data.slots
    ensures request.Valid() && request.Contents == old(request.Contents)
    ensures threw == handler(request.Contents).None?
    ensures reply.Valid()
    ensures reply.Contents == old(reply.Contents) + if threw then [] else handler(request.Contents).value
    ensures reply.data.slots == old(reply.data.slots) || fresh(reply.data.slots)
    ensures var c := GrpcExchange.Setup(request.Contents, handler, window);
      GrpcExchange.Run(c, GrpcExchange.OPENED, steps) == Some(end)
    ensures if threw then end.client.Threw? else end.client.Succeeded?
    ensures reply.Contents == old(reply.Contents) + end.reply
  {
    steps, end := GrpcExchange.UnbrokenRun(GrpcExchange.Setup(request.Contents, handler, window));
    threw := WriteAndRead(request, reply, handler);
  }

  // ---------- Cap'n Proto ----------

  /** The client's reply callback. */
  class ReplySvcImpl {
    const reply: Message
    var finished: bool

    ghost predicate Valid()
      reads this, reply, reply.data, reply.data.slots, reply.Strs()
    {
      reply.Valid()
    }

    constructor (reply: Message)
      ensures this.reply == reply && !finished
    {
      this.reply := reply;
      finished := false;
    }

    method SendChunk(chunk: Bytes)
      requires Valid()
      modifies reply, reply.data, reply.data.slots
      ensures Valid() && reply.Contents == old(reply.Contents) + [chunk]
      ensures reply.data.slots == old(reply.data.slots) || fresh(reply.data.slots)
    {
      reply.Append(chunk);
    }

    method Done()
      modifies this`finished
      ensures finished
    {
      finished := true;
    }
  }

  /** One request service: made for one session, with messages of its own. */
  class ReqSvcImpl {
    const rcvMsg: Message
    const sndMsg: Message

    ghost predicate Valid()
      reads this, rcvMsg, rcvMsg.data, rcvMsg.data.slots, rcvMsg.Strs()
      reads sndMsg, sndMsg.data, sndMsg.data.slots, sndMsg.Strs()
    {
      && rcvMsg.Valid() && sndMsg.Valid()
      && rcvMsg != sndMsg && rcvMsg.data != sndMsg.data && rcvMsg.data.slots != sndMsg.data.slots
    }

    constructor ()
      ensures Valid() && rcvMsg.Contents == [] && sndMsg.Contents == []
      ensures fresh(rcvMsg) && fresh(rcvMsg.data) && fresh(rcvMsg.data.slots)
      ensures fresh(sndMsg) && fresh(sndMsg.data) && fresh(sndMsg.data.slots)
    {
      var r := new Message();
      var m := new Message();
      rcvMsg := r;
      sndMsg := m;
    }

    method SendChunk(chunk: Bytes)
      requires Valid()
      modifies rcvMsg, rcvMsg.data, rcvMsg.data.slots
      ensures Valid() && rcvMsg.Contents == old(rcvMsg.Contents) + [chunk]
      ensures sndMsg.Contents == old(sndMsg.Contents)
      ensures rcvMsg.data.slots == old(rcvMsg.data.slots) || fresh(rcvMsg.data.slots)
    {
      rcvMsg.Append(chunk);
    }

    /** Runs the handler on everything received, then streams the reply to the callback. */
    method Done(replySvc: ReplySvcImpl, handler: Handler) returns (aborted: bool)
      requires Valid() && replySvc.Valid() && sndMsg.Contents == []
      requires Apart(replySvc.reply, rcvMsg) && Apart(replySvc.reply, sndMsg)
      modifies sndMsg, sndMsg.data, sndMsg.data.slots
      modifies replySvc`finished, replySvc.reply, replySvc.reply.data, replySvc.reply.data.slots
      ensures aborted == handler(old(rcvMsg.Contents)).None?
      ensures replySvc.Valid() && (!aborted ==> replySvc.finished)
      ensures replySvc.reply.Contents
        == old(replySvc.reply.Contents) + if aborted then [] else handler(old(rcvMsg.Contents)).value
      ensures replySvc.reply.data.slots == old(replySvc.reply.data.slots) || fresh(replySvc.reply.data.slots)
    {
      var request := rcvMsg.ReadAll();
      assert request == old(rcvMsg.Contents);
      var reply := handler(request);
      aborted := reply.None?;
      if !aborted {
        Fill(sndMsg, reply.value);
        var contents := sndMsg.ReadAll();
        SendReplyStream(replySvc, contents, 0);
        assert contents[0..] == reply.value;
      }
    }
  }

  /** One chunk, and the rest from its continuation; after the last one, `done`. */
  method SendReplyStream(stream: ReplySvcImpl, snd: seq<Bytes>, bufIdx: nat)
    requires stream.Valid() && bufIdx <= |snd|
    modifies stream`finished, stream.reply, stream.reply.data, stream.reply.data.slots
    ensures stream.Valid() && stream.finished
    ensures stream.reply.Contents == old(stream.reply.Contents) + snd[bufIdx..]
    ensures stream.reply.data.slots == old(stream.reply.data.slots) || fresh(stream.reply.data.slots)
    decreases |snd| - bufIdx
  {
    ghost var before := stream.reply.Contents;
    if bufIdx == |snd| {
      stream.Done();
      assert before + snd[bufIdx..] == before;
    } else {
      stream.SendChunk(snd[bufIdx]);
      SendReplyStream(stream, snd, bufIdx + 1);
      assert snd[bufIdx..] == [snd[bufIdx]] + snd[bufIdx + 1..];
      assert before + snd[bufIdx..] == (before + [snd[bufIdx]]) + snd[bufIdx + 1..];
    }
  }

  /** After the last chunk: `done` with a reply callback. */
  method SendDone(stream: ReqSvcImpl, reply: Message, handler: Handler) returns (aborted: bool)
    requires stream.Valid() && stream.sndMsg.Contents == [] && reply.Valid()
    requires Apart(reply, stream.rcvMsg) && Apart(reply, stream.sndMsg)
    modifies stream.sndMsg, stream.sndMsg.data, stream.sndMsg.data.slots
    modifies reply, reply.data, reply.data.slots
    ensures aborted == handler(old(stream.rcvMsg.Contents)).None?
    ensures reply.Valid()
    ensures reply.Contents == old(reply.Contents) + if aborted then [] else handler(old(stream.rcvMsg.Contents)).value
    ensures reply.data.slots == old(reply.data.slots) || fresh(reply.data.slots)
  {
    var replySvc := new ReplySvcImpl(reply);
    aborted := stream.Done(replySvc, handler);
  }

  /** One chunk, and the rest from its continuation. */
  method SendRequestStream(stream: ReqSvcImpl, snd: Message, reply: Message, bufIdx: nat, handler: Handler)
      returns (aborted: bool)
    requires stream.Valid() && stream.sndMsg.Contents == []
    requires snd.Valid() && bufIdx <= |snd.bufs| && stream.rcvMsg.Contents == snd.Contents[..bufIdx]
    requires reply.Valid() && Apart(snd, reply)
    requires Apart(snd, stream.rcvMsg) && Apart(snd, stream.sndMsg)
    requires Apart(reply, stream.rcvMsg) && Apart(reply, stream.sndMsg)
    modifies stream.rcvMsg, stream.rcvMsg.data, stream.rcvMsg.data.slots
    modifies stream.sndMsg, stream.sndMsg.data, stream.sndMsg.data.slots
    modifies reply, reply.data, reply.data.slots
    ensures snd.Valid() && snd.Contents == old(snd.Contents)
    ensures aborted == handler(snd.Contents).None?
    ensures reply.Valid()
    ensures reply.Contents == old(reply.Contents) + if aborted then [] else handler(snd.Contents).value
    ensures reply.data.slots == old(reply.data.slots) || fresh(reply.data.slots)
    decreases |snd.bufs| - bufIdx
  {
    if bufIdx == |snd.bufs| {
      assert stream.rcvMsg.Contents == snd.Contents;
      aborted := SendDone(stream, reply, handler);
    } else {
      var chunk := snd.Read(bufIdx);
      stream.SendChunk(chunk);
      assert snd.Contents[..bufIdx + 1] == snd.Contents[..bufIdx] + [chunk];
      aborted := SendRequestStream(stream, snd, reply, bufIdx + 1, handler);
    }
  }

  /** The client's `sendReq`: `reqReply` gives it a request service of its own, with fresh buffers. */
  method SendReqOverCapnp(request: Message, reply: Message, handler: Handler, ghost window: nat)
      returns (threw: bool, ghost steps: seq<CapnpExchange.Step>, ghost end: CapnpExchange.Session)
    requires window > 0
    requires request.Valid() && reply.Valid() && Apart(request, reply)
    modifies reply, reply.data, reply.data.slots
    ensures request.Valid() && request.Contents == old(request.Contents)
    ensures threw == handler(request.Contents).None?
    ensures reply.Valid()
    ensures reply.Contents == old(reply.Contents) + if threw then [] else handler(request.Contents).value
    ensures reply.data.slots == old(reply.data.slots) || fresh(reply.data.slots)
    ensures var c := CapnpExchange.Setup(request.Contents, handler, window);
      CapnpExchange.Run(c, CapnpExchange.OPENED, steps) == Some(end)
    ensures if threw then end.threw else end.client.Succeeded?
    ensures reply.Contents == old(reply.Contents) + end.reply
  {
    steps, end := CapnpExchange.UnbrokenRun(CapnpExchange.Setup(request.Contents, handler, window));
    var reqSvc := new ReqSvcImpl();
    threw := SendRequestStream(reqSvc, request, reply, 0, handler);
  }
}
