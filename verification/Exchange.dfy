/**
 What a request/reply transport is for, whatever it runs on: one call of the server's handler on
 exactly the client's buffers, and its reply back at the client.
 */
module Exchange {
  import opened Options

  /** The server's receive function on the buffers of a request; `None` when it throws. */
  type Handler = seq<Bytes> -> Option<seq<Bytes>>

  datatype Outcome = Waiting | Returned(reply: seq<Bytes>) | Threw

  /** `served` is what the handler has been run on; `broken` says that the link or the server has failed. */
  datatype Phase = Phase(served: Option<seq<Bytes>>, outcome: Outcome, broken: bool)

  const PENDING := Phase(None, Waiting, false)

  /**
   The handler runs once, on exactly the request. Only over a transport that is not atomic, and only
   once something has failed, may it run on less. A handler that throws takes the server with it.
   */
  predicate Serves(atomic: bool, handler: Handler, request: seq<Bytes>, before: Phase, after: Phase) {
    && before.served.None? && after.served.Some?
    && var input := after.served.value;
       && (input == request || (!atomic && before.broken && input <= request))
       && after == before.(served := Some(input), broken := before.broken || handler(input).None?)
  }

  /** The client gets the reply to its whole request. */
  predicate Returns(handler: Handler, request: seq<Bytes>, before: Phase, after: Phase) {
    && before.outcome == Waiting && after.outcome.Returned?
    && before.served == Some(request) && handler(request) == Some(after.outcome.reply)
    && after == before.(outcome := after.outcome)
  }

  /** A failure may come at any time, and the client may learn of it instead of getting a reply. */
  predicate Fails(before: Phase, after: Phase) {
    || after == before.(broken := true)
    || (before.broken && before.outcome == Waiting && after == before.(outcome := Threw))
  }

  predicate SpecStep(atomic: bool, handler: Handler, request: seq<Bytes>, before: Phase, after: Phase) {
    || Serves(atomic, handler, request, before, after)
    || Returns(handler, request, before, after)
    || Fails(before, after)
  }

  /** `after` is reached from `before` by one step of the specification, or by none. */
  predicate SpecStutter(atomic: bool, handler: Handler, request: seq<Bytes>, before: Phase, after: Phase) {
    after == before || SpecStep(atomic, handler, request, before, after)
  }

  /** A run as the specification sees it, phase by phase. */
  predicate SpecRun(atomic: bool, handler: Handler, request: seq<Bytes>, phases: seq<Phase>) {
    && phases != [] && phases[0] == PENDING
    && forall i :: 0 <= i < |phases| - 1 ==> SpecStutter(atomic, handler, request, phases[i], phases[i + 1])
  }

  /** What the specification promises of every phase. */
  predicate Promised(atomic: bool, handler: Handler, request: seq<Bytes>, phase: Phase) {
    && (phase.served.Some? ==>
          phase.served.value == request || (!atomic && phase.broken && phase.served.value <= request))
    && (phase.outcome.Returned? ==>
          phase.served == Some(request) && handler(request) == Some(phase.outcome.reply))
    && (phase.outcome.Threw? ==> phase.broken)
  }

  lemma {:induction false} SpecRunIsPromised(
    atomic: bool, handler: Handler, request: seq<Bytes>, phases: seq<Phase>, k: nat)
    requires SpecRun(atomic, handler, request, phases) && k < |phases|
    ensures Promised(atomic, handler, request, phases[k])
  {
    if k > 0 {
      SpecRunIsPromised(atomic, handler, request, phases, k - 1);
      assert SpecStutter(atomic, handler, request, phases[k - 1], phases[k - 1 + 1]);
    }
  }

  /** The handler is run once at most, and an outcome is final. */
  lemma {:induction false} SpecRunDecidesOnce(
    atomic: bool, handler: Handler, request: seq<Bytes>, phases: seq<Phase>, i: nat, k: nat)
    requires SpecRun(atomic, handler, request, phases) && i <= k < |phases|
    ensures phases[i].served.Some? ==> phases[k].served == phases[i].served
    ensures !phases[i].outcome.Waiting? ==> phases[k].outcome == phases[i].outcome
    decreases k
  {
    if i < k {
      SpecRunDecidesOnce(atomic, handler, request, phases, i, k - 1);
      assert SpecStutter(atomic, handler, request, phases[k - 1], phases[k - 1 + 1]);
    }
  }
}
