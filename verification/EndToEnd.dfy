/**
 The workloads over the transports: what the client can rely on when `sendReq` has returned,
 whichever transport it used and however its messages were interleaved.
 */
module EndToEnd {
  import opened Options
  import opened PayloadCodec
  import opened Workload
  import opened Exchange
  import opened Buffers
  import opened Endpoints
  import opened WorkloadImpl
  import GrpcExchange
  import CapnpExchange
  import GrpcService

  const RT_PROTO := Format(p => SerializeToString(p), b => Parse(b))

  lemma ProtoRoundTrips()
    ensures RoundTrips(RT_PROTO)
  {
    forall p: Payload ensures ComesBack(RT_PROTO, p) {
      PayloadRoundTrip(p);
    }
  }

  /** The server's receive function as a transport runs it once, with the time and random data of that run. */
  function Receive(us: UInt64, rnd: Random): Handler {
    req =>
      match ServerReaction(RT_PROTO, req, us, rnd)
      case Reply(bufs) => Some(bufs)
      case Throw => None
      case Overflow => None
  }

  /** What the client's loop needs of a reply: the process time can be read and the validator says yes. */
  ghost predicate OpPasses(kind: Kind, req: seq<Bytes>, reply: seq<Bytes>) {
    RemoteTime(RT_PROTO, reply).Some? && (kind == Echo ==> EchoVerdict(req, reply) == Valid)
  }

  lemma ReplyPasses(kind: Kind, size: Size, count: Count, sent: Random, us: UInt64, rnd: Random, reply: seq<Bytes>)
    requires Receive(us, rnd)(Request(RT_PROTO, kind, size, count, sent)) == Some(reply)
    ensures OpPasses(kind, Request(RT_PROTO, kind, size, count, sent), reply)
    ensures kind == Echo ==> reply[1..] == Request(RT_PROTO, kind, size, count, sent)[1..]
  {
    ProtoRoundTrips();
    RequestAndReplyAgree(RT_PROTO, kind, size, count, sent, us, rnd);
    if kind == Echo { EchoComesBack(RT_PROTO, size, count, sent, us, rnd); }
  }

  /** Over gRPC: a request that comes back was answered in full, and an echo brings its own data back. */
  lemma OverGrpc(kind: Kind, size: Size, count: Count, sent: Random, us: UInt64, rnd: Random,
                 window: nat, steps: seq<GrpcExchange.Step>, s: GrpcExchange.Stream)
    requires var c := GrpcExchange.Setup(Request(RT_PROTO, kind, size, count, sent), Receive(us, rnd), window);
      GrpcExchange.Run(c, GrpcExchange.OPENED, steps) == Some(s) && s.client.Succeeded?
    ensures OpPasses(kind, Request(RT_PROTO, kind, size, count, sent), s.reply)
    ensures kind == Echo ==> s.reply[1..] == Request(RT_PROTO, kind, size, count, sent)[1..]
  {
    var c := GrpcExchange.Setup(Request(RT_PROTO, kind, size, count, sent), Receive(us, rnd), window);
    GrpcExchange.SuccessIsExact(c, steps, s);
    ReplyPasses(kind, size, count, sent, us, rnd, s.reply);
  }

  /** Over Cap'n Proto: the same. */
  lemma OverCapnp(kind: Kind, size: Size, count: Count, sent: Random, us: UInt64, rnd: Random,
                  window: nat, steps: seq<CapnpExchange.Step>, s: CapnpExchange.Session)
    requires var c := CapnpExchange.Setup(Request(RT_PROTO, kind, size, count, sent), Receive(us, rnd), window);
      CapnpExchange.Run(c, CapnpExchange.OPENED, steps) == Some(s) && s.client.Succeeded?
    ensures OpPasses(kind, Request(RT_PROTO, kind, size, count, sent), s.reply)
    ensures kind == Echo ==> s.reply[1..] == Request(RT_PROTO, kind, size, count, sent)[1..]
  {
    var c := CapnpExchange.Setup(Request(RT_PROTO, kind, size, count, sent), Receive(us, rnd), window);
    CapnpExchange.SuccessIsExact(c, steps, s);
    ReplyPasses(kind, size, count, sent, us, rnd, s.reply);
  }

  /** The receive function throws on an empty request, so a stream that breaks before a read may abort the server. */
  lemma DroppedStreamAborts(request: seq<Bytes>, us: UInt64, rnd: Random, window: nat)
    ensures var c := GrpcExchange.Setup(request, Receive(us, rnd), window);
      var end := GrpcExchange.Run(c, GrpcExchange.OPENED, [GrpcExchange.Break, GrpcExchange.ServerHandle]);
      end.Some? && end.value.server.Aborted?
  {
    GrpcExchange.DroppedStreamIsServed(GrpcExchange.Setup(request, Receive(us, rnd), window));
  }

  /** And with the server every client that has not had its reply fails, for good. */
  lemma DroppedStreamFailsEveryClient(
    setup: nat -> GrpcExchange.Setup, evs: seq<GrpcService.Event>, svc: GrpcService.Service, n: nat,
    request: seq<Bytes>, us: UInt64, rnd: Random, window: nat)
    requires GrpcService.RunAll(setup, GrpcService.IDLE, evs) == Some(svc) && !svc.dead && n !in svc.streams
    requires setup(n) == GrpcExchange.Setup(request, Receive(us, rnd), window)
    ensures var drop := [GrpcService.Start(n), GrpcService.Act(n, GrpcExchange.Break),
                         GrpcService.Act(n, GrpcExchange.ServerHandle)];
      var after := GrpcService.RunAll(setup, svc, drop);
      && after.Some? && after.value.dead
      && forall sid :: sid in svc.streams && !svc.streams[sid].client.Succeeded? ==>
           && sid in after.value.streams
           && forall more: seq<GrpcService.Event> :: GrpcService.RunAll(setup, after.value, more).Some? ==>
                var end := GrpcService.RunAll(setup, after.value, more).value;
                sid in end.streams && !end.streams[sid].client.Succeeded?
  {
    assert setup(n).handler([]) == None;
    GrpcService.DroppedStreamFailsAll(setup, evs, svc, n);
  }

  /** Both transports hand back the same reply to the same handler. */
  lemma TransportsAgree(c: GrpcExchange.Setup, steps: seq<GrpcExchange.Step>, s: GrpcExchange.Stream,
                        window: nat, calls: seq<CapnpExchange.Step>, t: CapnpExchange.Session)
    requires GrpcExchange.Run(c, GrpcExchange.OPENED, steps) == Some(s) && s.client.Succeeded?
    requires var d := CapnpExchange.Setup(c.request, c.handler, window);
      CapnpExchange.Run(d, CapnpExchange.OPENED, calls) == Some(t)
    requires t.client.Succeeded?
    ensures s.reply == t.reply && s.rcv == t.rcv == c.request
  {
    GrpcExchange.SuccessIsExact(c, steps, s);
    CapnpExchange.SuccessIsExact(CapnpExchange.Setup(c.request, c.handler, window), calls, t);
  }

  /** The function that the transports run as the handler is what the server's own code computes. */
  method RunReceive(req: Message, rsp: Message, us: UInt64, rnd: Random) returns (threw: bool)
    requires req.Valid() && rsp.Valid() && Apart(req, rsp) && rsp.Contents == []
    modifies rsp, rsp.data, rsp.data.slots
    ensures rsp.Valid()
    ensures Receive(us, rnd)(old(req.Contents)) == if threw then None else Some(rsp.Contents)
  {
    var end := ServerRcvFn(RT_PROTO, req, rsp, us, rnd);
    threw := end != Ending.Returned;
  }

  /** The server's `ReqReply` with its own receive function. */
  method ServeGrpc(stream: GrpcStream, us: UInt64, rnd: Random) returns (aborted: bool)
    modifies stream
    ensures aborted == Receive(us, rnd)(old(stream.incoming)).None?
    ensures stream.outgoing
      == old(stream.outgoing) + if aborted then [] else Receive(us, rnd)(old(stream.incoming)).value
  {
    var rcvMsg := new Message();
    var sndMsg := new Message();
    ReadAll(stream, rcvMsg);
    assert rcvMsg.Contents == old(stream.incoming);
    aborted := RunReceive(rcvMsg, sndMsg, us, rnd);
    if !aborted {
      WriteAll(stream, sndMsg);
    }
  }

  datatype Transport = Grpc | Capnp

  /** What differs from one operation to the next: random data on both sides and the server's measured time. */
  datatype Chance = Chance(sent: Random, us: UInt64, rnd: Random)

  method SendReq(transport: Transport, request: Message, reply: Message, handler: Handler) returns (threw: bool)
    requires request.Valid() && reply.Valid() && Apart(request, reply)
    modifies reply, reply.data, reply.data.slots
    ensures request.Valid() && request.Contents == old(request.Contents) && reply.Valid()
    ensures threw == handler(request.Contents).None?
    ensures reply.Contents == old(reply.Contents) + if threw then [] else handler(request.Contents).value
  {
    match transport {
      case Grpc =>
        ghost var steps, end;
        threw, steps, end := SendReqOverGrpc(request, reply, handler, 1);
      case Capnp =>
        ghost var steps, end;
        threw, steps, end := SendReqOverCapnp(request, reply, handler, 1);
    }
  }

  /** Reading the process time and validating; only an echo has a validator that looks at anything. */
  method CheckReply(kind: Kind, req: Message, reply: Message) returns (remoteTime: Option<UInt64>, passed: bool)
    requires req.Valid() && reply.Valid()
    ensures remoteTime == RemoteTime(RT_PROTO, reply.Contents)
    ensures passed == (kind == Echo ==> EchoVerdict(req.Contents, reply.Contents) == Valid)
  {
    remoteTime := GetRemoteProcessTimeUs(RT_PROTO, reply);
    passed := true;
    if kind == Echo {
      var verdict := IsValid(req, reply);
      passed := verdict == Valid;
    }
  }

  /** The reply passes every check of the client. */
  ghost predicate Passes(kind: Kind, us: UInt64, req: seq<Bytes>, reply: seq<Bytes>) {
    && RemoteTime(RT_PROTO, reply) == Some(if kind == Write then 0 else us)
    && (kind == Echo ==> EchoVerdict(req, reply) == Valid)
  }

  lemma OperationPasses(kind: Kind, size: Size, count: Count, chance: Chance)
    ensures var req := Request(RT_PROTO, kind, size, count, chance.sent);
      var reply := Receive(chance.us, chance.rnd)(req);
      reply.Some? && Passes(kind, chance.us, req, reply.value)
  {
    ProtoRoundTrips();
    RequestAndReplyAgree(RT_PROTO, kind, size, count, chance.sent, chance.us, chance.rnd);
    if kind == Echo { EchoComesBack(RT_PROTO, size, count, chance.sent, chance.us, chance.rnd); }
  }

  /** The part of an operation after its request has been made. */
  method Ask(transport: Transport, kind: Kind, req: Message, handler: Handler)
      returns (threw: bool, remoteTime: Option<UInt64>, passed: bool)
    requires req.Valid()
    ensures threw == handler(old(req.Contents)).None?
    ensures !threw ==>
      var reply := handler(old(req.Contents)).value;
      && remoteTime == RemoteTime(RT_PROTO, reply)
      && passed == (kind == Echo ==> EchoVerdict(old(req.Contents), reply) == Valid)
  {
    var reply := new Message();
    threw := SendReq(transport, req, reply, handler);
    assert !threw ==> reply.Contents == handler(req.Contents).value;
    remoteTime, passed := CheckReply(kind, req, reply);
  }

  /** One operation of the client's loop, from filling the request to validating the reply. */
  method Operation(transport: Transport, kind: Kind, size: Size, count: Count, chance: Chance)
      returns (threw: bool, remoteTime: Option<UInt64>, passed: bool)
    ensures !threw && passed && remoteTime == Some(if kind == Write then 0 else chance.us)
  {
    var req := new Message();
    FillRequest(RT_PROTO, kind, req, size, count, chance.sent);
    OperationPasses(kind, size, count, chance);
    threw, remoteTime, passed := Ask(transport, kind, req, Receive(chance.us, chance.rnd));
  }

  /** The client's loop: every operation passes, whatever the workload, the sizes, the data and the transport. */
  method Operations(transport: Transport, kind: Kind, size: Size, count: Count, chances: seq<Chance>)
      returns (times: seq<UInt64>)
    ensures |times| == |chances|
    ensures forall i :: 0 <= i < |chances| ==> times[i] == if kind == Write then 0 else chances[i].us
  {
    times := [];
    for i := 0 to |chances|
      invariant |times| == i
      invariant forall j :: 0 <= j < i ==> times[j] == if kind == Write then 0 else chances[j].us
    {
      var threw, remoteTime, passed := Operation(transport, kind, size, count, chances[i]);
      if threw || remoteTime.None? || !passed {
        return;
      }
      times := times + [remoteTime.value];
    }
  }
}
