/** The worker loop: receive deliveries, decode each job, run detection on
    its image, and acknowledge or reject the delivery.

    JSON decoding of a delivery body is the `decode` oracle; the inference
    client is the `detect` oracle, whose first argument numbers the calls so
    that the k-th call may see a different world from the (k+1)-th. */
module Worker {
  import opened Wrappers
  import opened Bytes
  import opened Domain
  import Roboflow

  /** The terminal state of a delivery. */
  datatype Settlement = Pending | Acked | NackedDiscard | NackedRequeue

  /** A received delivery: its body and what has been done with it. */
  datatype Delivery = Delivery(body: seq<byte>, settlement: Settlement)

  /** A terminal operation on the delivery at position `delivery` in arrival
      order: `msg.Ack(false)` or `msg.Nack(false, requeue)`. */
  datatype Op = AckOp(delivery: nat) | NackOp(delivery: nat, requeue: bool)

  /** The case the loop's `select` takes: the context's Done channel, the
      delivery channel reporting closed, or a delivery. When several are ready
      Go picks one at random; the sequence records the picks. */
  datatype Signal = Done | Closed | Message(body: seq<byte>)

  datatype StopCause = ContextDone | ChannelClosed

  /** `Running` on return means the loop is still blocked in `select`. */
  datatype LoopState = Running | Stopped(cause: StopCause)

  type Decoder = seq<byte> -> Option<JobMessage>
  type Detector = (nat, string) -> Result<RoboflowResponse, Roboflow.Error>

  /** The settlement an operation leaves its delivery in. */
  function Effect(op: Op): (s: Settlement)
    ensures s != Pending
  {
    match op
    case AckOp(_) => Acked
    case NackOp(_, requeue) => if requeue then NackedRequeue else NackedDiscard
  }

  /** The operation that brings delivery `i` into settlement `s`. */
  function OpFor(i: nat, s: Settlement): (op: Op)
    requires s != Pending
    ensures op.delivery == i && Effect(op) == s
  {
    match s
    case Acked => AckOp(i)
    case NackedDiscard => NackOp(i, false)
    case NackedRequeue => NackOp(i, true)
  }

  // ----- what handleMessage decides -----

  /** What handling one body does: the URL Detect is called with, if it is
      called, and how the delivery is settled. */
  datatype Handling = Handling(detected: Option<string>, settlement: Settlement)

  /** `handleMessage` on `body`, where `calls` Detect calls came before. */
  function Handle(body: seq<byte>, decode: Decoder, detect: Detector, calls: nat): Handling
  {
    match decode(body)
    case None => Handling(None, NackedDiscard)
    case Some(job) =>
      Handling(Some(job.imageURL),
               if detect(calls, job.imageURL).Success? then Acked else NackedRequeue)
  }

  function DetectCount(h: Handling): nat
  {
    if h.detected.Some? then 1 else 0
  }

  /** Handling `bodies` one after another: the Detect calls are numbered on from `calls`. */
  function Handled(bodies: seq<seq<byte>>, decode: Decoder, detect: Detector, calls: nat): (hs: seq<Handling>)
    ensures |hs| == |bodies|
    ensures forall i :: 0 <= i < |hs| ==> hs[i].settlement != Pending
    decreases |bodies|
  {
    if bodies == [] then []
    else
      var h := Handle(bodies[0], decode, detect, calls);
      [h] + Handled(bodies[1..], decode, detect, calls + DetectCount(h))
  }

  /** The URLs Detect was called with, in order. */
  function URLs(hs: seq<Handling>): seq<string>
  {
    if hs == [] then []
    else (if hs[0].detected.Some? then [hs[0].detected.value] else []) + URLs(hs[1..])
  }

  /** Reference definition: the image URLs of the bodies that decode, in order. */
  function DecodedURLs(bodies: seq<seq<byte>>, decode: Decoder): seq<string>
  {
    if bodies == [] then []
    else (match decode(bodies[0]) case None => [] case Some(job) => [job.imageURL]) + DecodedURLs(bodies[1..], decode)
  }

  /** Detect is called once for each body that decodes, with that job's image URL, in arrival order. */
  lemma {:induction false} DetectCallsAreDecodedURLs(bodies: seq<seq<byte>>, decode: Decoder, detect: Detector, calls: nat)
    ensures URLs(Handled(bodies, decode, detect, calls)) == DecodedURLs(bodies, decode)
    decreases |bodies|
  {
    if bodies != [] {
      var h := Handle(bodies[0], decode, detect, calls);
      DetectCallsAreDecodedURLs(bodies[1..], decode, detect, calls + DetectCount(h));
    }
  }

  /** The i-th body is handled on its own: as `Handle` decides, with the Detect
      call numbered after those of the bodies before it. */
  lemma {:induction false} HandledAt(bodies: seq<seq<byte>>, decode: Decoder, detect: Detector, calls: nat, i: nat)
    requires i < |bodies|
    ensures Handled(bodies, decode, detect, calls)[i]
         == Handle(bodies[i], decode, detect, calls + |DecodedURLs(bodies[..i], decode)|)
    decreases i
  {
    if i > 0 {
      var h := Handle(bodies[0], decode, detect, calls);
      HandledAt(bodies[1..], decode, detect, calls + DetectCount(h), i - 1);
      var pre := bodies[..i];
      assert pre[0] == bodies[0] && pre[1..] == bodies[1..][..i - 1];
      assert |DecodedURLs(pre, decode)| == DetectCount(h) + |DecodedURLs(bodies[1..][..i - 1], decode)|;
    }
  }

  /** A body that does not decode is nacked without requeue, and Detect is not called for it. */
  lemma DecodeFailureDiscards(bodies: seq<seq<byte>>, decode: Decoder, detect: Detector, calls: nat, i: nat)
    requires i < |bodies| && decode(bodies[i]).None?
    ensures Handled(bodies, decode, detect, calls)[i] == Handling(None, NackedDiscard)
  {
    HandledAt(bodies, decode, detect, calls, i);
  }

  /** A body that decodes has Detect called with its image URL; the delivery is
      acked if Detect succeeds and nacked with requeue if it fails, whatever the
      error (an APIError, which is documented as non-retryable, included);
      it is never nacked without requeue. */
  lemma DetectOutcomeDecides(bodies: seq<seq<byte>>, decode: Decoder, detect: Detector, calls: nat, i: nat)
    requires i < |bodies| && decode(bodies[i]).Some?
    ensures var h := Handled(bodies, decode, detect, calls)[i];
      var url := decode(bodies[i]).value.imageURL;
      var k := calls + |DecodedURLs(bodies[..i], decode)|;
      && h.detected == Some(url)
      && (h.settlement == Acked <==> detect(k, url).Success?)
      && (h.settlement == NackedRequeue <==> detect(k, url).Failure?)
      && (detect(k, url).Failure? && Roboflow.AsAPIError(detect(k, url).error).Some? ==> h.settlement == NackedRequeue)
      && h.settlement != NackedDiscard
  {
    HandledAt(bodies, decode, detect, calls, i);
  }

  // ----- terminal operations -----

  /** The operations for handled deliveries numbered from `base`. */
  function Ops(base: nat, hs: seq<Handling>): (ops: seq<Op>)
    requires forall i :: 0 <= i < |hs| ==> hs[i].settlement != Pending
    ensures |ops| == |hs|
    ensures forall i :: 0 <= i < |hs| ==> ops[i].delivery == base + i && Effect(ops[i]) == hs[i].settlement
  {
    seq(|hs|, i requires 0 <= i < |hs| => OpFor(base + i, hs[i].settlement))
  }

  /** The deliveries as left after handling. */
  function Settled(bodies: seq<seq<byte>>, hs: seq<Handling>): (ds: seq<Delivery>)
    requires |bodies| == |hs|
    ensures |ds| == |hs|
    ensures forall i :: 0 <= i < |hs| ==> ds[i].body == bodies[i] && ds[i].settlement == hs[i].settlement
  {
    seq(|hs|, i requires 0 <= i < |hs| => Delivery(bodies[i], hs[i].settlement))
  }

  /** How many operations in `ops` name delivery `d`. */
  function OpsOn(ops: seq<Op>, d: nat): nat
  {
    if ops == [] then 0 else (if ops[0].delivery == d then 1 else 0) + OpsOn(ops[1..], d)
  }

  /** Operations issued one per delivery, in delivery order, name each of
      those deliveries exactly once and no other delivery. */
  lemma {:induction false} ExactlyOneOpEach(ops: seq<Op>, base: nat, d: nat)
    requires forall k :: 0 <= k < |ops| ==> ops[k].delivery == base + k
    ensures OpsOn(ops, d) == if base <= d < base + |ops| then 1 else 0
    decreases |ops|
  {
    if ops != [] {
      ExactlyOneOpEach(ops[1..], base + 1, d);
    }
  }

  // ----- the worker's record of what it did -----

  /** Everything the worker has done: the deliveries received, with their
      settlement, the terminal operations invoked, and the Detect calls made. */
  datatype Log = Log(deliveries: seq<Delivery>, ops: seq<Op>, detectCalls: seq<string>)

  /** Operation k settles delivery k, and only deliveries without an operation are pending. */
  predicate WellFormed(log: Log)
  {
    && |log.ops| <= |log.deliveries|
    && (forall k :: 0 <= k < |log.ops| ==>
          log.ops[k].delivery == k && log.deliveries[k].settlement == Effect(log.ops[k]))
    && (forall k :: |log.ops| <= k < |log.deliveries| ==> log.deliveries[k].settlement == Pending)
  }

  /** No delivery is in flight. */
  predicate Quiescent(log: Log)
  {
    WellFormed(log) && |log.ops| == |log.deliveries|
  }

  /** Receiving `body` and handling it. */
  function Step(log: Log, body: seq<byte>, decode: Decoder, detect: Detector): (r: Log)
    ensures Quiescent(log) ==> Quiescent(r)
  {
    var h := Handle(body, decode, detect, |log.detectCalls|);
    Log(log.deliveries + [Delivery(body, h.settlement)],
        log.ops + [OpFor(|log.deliveries|, h.settlement)],
        log.detectCalls + (if h.detected.Some? then [h.detected.value] else []))
  }

  /** Receiving and handling `bodies`, one after another. */
  function Run(log: Log, bodies: seq<seq<byte>>, decode: Decoder, detect: Detector): Log
    decreases |bodies|
  {
    if bodies == [] then log else Run(Step(log, bodies[0], decode, detect), bodies[1..], decode, detect)
  }

  lemma SettledCons(bodies: seq<seq<byte>>, h: Handling, tl: seq<Handling>)
    requires |bodies| == 1 + |tl|
    ensures Settled(bodies, [h] + tl) == [Delivery(bodies[0], h.settlement)] + Settled(bodies[1..], tl)
  {
  }

  lemma OpsCons(base: nat, h: Handling, tl: seq<Handling>)
    requires h.settlement != Pending
    requires forall i :: 0 <= i < |tl| ==> tl[i].settlement != Pending
    ensures Ops(base, [h] + tl) == [OpFor(base, h.settlement)] + Ops(base + 1, tl)
  {
  }

  lemma {:induction false} RunDeliveries(log: Log, bodies: seq<seq<byte>>, decode: Decoder, detect: Detector)
    ensures Run(log, bodies, decode, detect).deliveries
         == log.deliveries + Settled(bodies, Handled(bodies, decode, detect, |log.detectCalls|))
    decreases |bodies|
  {
    if bodies != [] {
      var h := Handle(bodies[0], decode, detect, |log.detectCalls|);
      var next := Step(log, bodies[0], decode, detect);
      var tl := Handled(bodies[1..], decode, detect, |next.detectCalls|);
      RunDeliveries(next, bodies[1..], decode, detect);
      assert Handled(bodies, decode, detect, |log.detectCalls|) == [h] + tl;
      SettledCons(bodies, h, tl);
      AppendAssoc(log.deliveries, [Delivery(bodies[0], h.settlement)], Settled(bodies[1..], tl));
    }
  }

  lemma {:induction false} RunOps(log: Log, bodies: seq<seq<byte>>, decode: Decoder, detect: Detector)
    requires |log.ops| == |log.deliveries|
    ensures Run(log, bodies, decode, detect).ops
         == log.ops + Ops(|log.deliveries|, Handled(bodies, decode, detect, |log.detectCalls|))
    decreases |bodies|
  {
    if bodies != [] {
      var h := Handle(bodies[0], decode, detect, |log.detectCalls|);
      var next := Step(log, bodies[0], decode, detect);
      var tl := Handled(bodies[1..], decode, detect, |next.detectCalls|);
      RunOps(next, bodies[1..], decode, detect);
      assert Handled(bodies, decode, detect, |log.detectCalls|) == [h] + tl;
      OpsCons(|log.deliveries|, h, tl);
      AppendAssoc(log.ops, [OpFor(|log.deliveries|, h.settlement)], Ops(|next.deliveries|, tl));
    }
  }

  lemma {:induction false} RunDetectCalls(log: Log, bodies: seq<seq<byte>>, decode: Decoder, detect: Detector)
    ensures Run(log, bodies, decode, detect).detectCalls
         == log.detectCalls + URLs(Handled(bodies, decode, detect, |log.detectCalls|))
    decreases |bodies|
  {
    if bodies != [] {
      var h := Handle(bodies[0], decode, detect, |log.detectCalls|);
      var url := if h.detected.Some? then [h.detected.value] else [];
      var next := Step(log, bodies[0], decode, detect);
      var tl := Handled(bodies[1..], decode, detect, |next.detectCalls|);
      RunDetectCalls(next, bodies[1..], decode, detect);
      assert Handled(bodies, decode, detect, |log.detectCalls|) == [h] + tl;
      AppendAssoc(log.detectCalls, url, URLs(tl));
    }
  }

  /** Running the loop over `bodies` appends one settled delivery per body,
      one terminal operation per delivery in delivery order, and the Detect
      calls, all as `Handled` describes. */
  lemma RunIsHandled(log: Log, bodies: seq<seq<byte>>, decode: Decoder, detect: Detector)
    requires |log.ops| == |log.deliveries|
    ensures var hs := Handled(bodies, decode, detect, |log.detectCalls|);
      Run(log, bodies, decode, detect)
        == Log(log.deliveries + Settled(bodies, hs),
               log.ops + Ops(|log.deliveries|, hs),
               log.detectCalls + URLs(hs))
  {
    RunDeliveries(log, bodies, decode, detect);
    RunOps(log, bodies, decode, detect);
    RunDetectCalls(log, bodies, decode, detect);
  }

  lemma AppendAssoc<T>(a: seq<T>, b: seq<T>, c: seq<T>)
    ensures (a + b) + c == a + (b + c)
  {
  }

  /** With no delivery in flight, each delivery received has had exactly one
      terminal operation, the one its settlement records. */
  lemma QuiescentSettlesEachOnce(log: Log, d: nat)
    requires Quiescent(log) && d < |log.deliveries|
    ensures OpsOn(log.ops, d) == 1
    ensures log.deliveries[d].settlement != Pending
    ensures log.deliveries[d].settlement == Effect(log.ops[d])
  {
    ExactlyOneOpEach(log.ops, 0, d);
  }

  // ----- the worker with the inference client -----

  /** The detector the worker gets from the client: the k-th Detect call sees network `nets(k)`. */
  function ClientDetector(c: Roboflow.Client, nets: nat -> Roboflow.Network,
                          parse: seq<byte> -> Option<RoboflowResponse>): Detector
  {
    (k: nat, url: string) => Roboflow.Detect(c, nets(k), parse, url).result
  }

  /** With the real client, a decoded job whose handling is cancelled during
      the download, whose image answers with a status other than 200, or
      whose inference answers with a status other than 200, is nacked with
      requeue: none of these leaves the delivery unsettled or discards it. */
  lemma ClientFailuresRequeue(body: seq<byte>, decode: Decoder, c: Roboflow.Client,
                              nets: nat -> Roboflow.Network, parse: seq<byte> -> Option<RoboflowResponse>, k: nat)
    requires decode(body).Some?
    requires var net, url := nets(k), decode(body).value.imageURL;
      || net.cancelledFirst
      || (net.exchange(Roboflow.DownloadRequest(url)).Response? && net.exchange(Roboflow.DownloadRequest(url)).status != Roboflow.StatusOK)
      || (exists data, status, b :: Roboflow.Download(net, url).result == Success(data)
            && net.exchange(Roboflow.InferenceRequest(c, data)) == Roboflow.Response(status, true, b)
            && status != Roboflow.StatusOK)
    ensures Handle(body, decode, ClientDetector(c, nets, parse), k) == Handling(Some(decode(body).value.imageURL), NackedRequeue)
  {
    var net, url := nets(k), decode(body).value.imageURL;
    if !net.cancelledFirst && !(net.exchange(Roboflow.DownloadRequest(url)).Response? && net.exchange(Roboflow.DownloadRequest(url)).status != Roboflow.StatusOK) {
      var data, status, b :| Roboflow.Download(net, url).result == Success(data)
            && net.exchange(Roboflow.InferenceRequest(c, data)) == Roboflow.Response(status, true, b)
            && status != Roboflow.StatusOK;
      Roboflow.InferNon200IsAPIError(c, net, parse, data, status, b);
    }
  }

  // ----- the loop's stop conditions -----

  /** The position of the first signal that stops the loop, or `|inbox|`. */
  function StopIndex(inbox: seq<Signal>): (k: nat)
    ensures k <= |inbox|
    ensures forall i :: 0 <= i < k ==> inbox[i].Message?
    ensures k < |inbox| ==> !inbox[k].Message?
  {
    if inbox == [] || !inbox[0].Message? then 0 else 1 + StopIndex(inbox[1..])
  }

  /** The bodies of the deliveries the loop receives before it stops. */
  function Received(inbox: seq<Signal>): (bodies: seq<seq<byte>>)
    ensures |bodies| == StopIndex(inbox)
    ensures forall i :: 0 <= i < |bodies| ==> inbox[i] == Message(bodies[i])
  {
    seq(StopIndex(inbox), i requires 0 <= i < StopIndex(inbox) => inbox[i].body)
  }

  /** The loop's state once `inbox` is used up. */
  function FinalState(inbox: seq<Signal>): (s: LoopState)
    ensures s == Running <==> forall i :: 0 <= i < |inbox| ==> inbox[i].Message?
    ensures s == Stopped(ContextDone) <==> StopIndex(inbox) < |inbox| && inbox[StopIndex(inbox)] == Done
    ensures s == Stopped(ChannelClosed) <==> StopIndex(inbox) < |inbox| && inbox[StopIndex(inbox)] == Closed
  {
    var k := StopIndex(inbox);
    if k == |inbox| then Running
    else if inbox[k] == Done then Stopped(ContextDone)
    else Stopped(ChannelClosed)
  }

  /** Whatever follows the first Done or Closed is never looked at. */
  lemma SignalsAfterStopIgnored(inbox: seq<Signal>, later: seq<Signal>, k: nat)
    requires k < |inbox| && !inbox[k].Message?
    ensures Received(inbox[..k + 1] + later) == Received(inbox[..k + 1])
    ensures FinalState(inbox[..k + 1] + later) == FinalState(inbox[..k + 1])
  {
    var a, b := inbox[..k + 1], inbox[..k + 1] + later;
    assert StopIndex(a) == StopIndex(b) by {
      var ka := StopIndex(a);
      assert forall i :: 0 <= i < |a| ==> b[i] == a[i];
      assert ka < |a|;
    }
  }

  // ----- the worker -----

  class Worker {
    const decode: Decoder
    const detect: Detector

    /** Every delivery received, in arrival order. */
    var deliveries: seq<Delivery>
    /** Every terminal operation invoked, in invocation order. */
    var ops: seq<Op>
    /** The image URL of every Detect call, in call order. */
    var detectCalls: seq<string>

    function State(): Log
      reads this
    {
      Log(deliveries, ops, detectCalls)
    }

    ghost predicate Valid()
      reads this
    {
      WellFormed(State())
    }

    /** `worker.New`. */
    constructor (decode: Decoder, detect: Detector)
      ensures Valid()
      ensures this.decode == decode && this.detect == detect
      ensures deliveries == [] && ops == [] && detectCalls == []
    {
      this.decode := decode;
      this.detect := detect;
      deliveries, ops, detectCalls := [], [], [];
    }

    /** `msg.Ack(false)` on delivery i. */
    method Ack(i: nat)
      requires i < |deliveries|
      modifies this
      ensures deliveries == old(deliveries)[i := old(deliveries)[i].(settlement := Acked)]
      ensures ops == old(ops) + [AckOp(i)]
      ensures detectCalls == old(detectCalls)
    {
      deliveries := deliveries[i := deliveries[i].(settlement := Acked)];
      ops := ops + [AckOp(i)];
    }

    /** `msg.Nack(false, requeue)` on delivery i. */
    method Nack(i: nat, requeue: bool)
      requires i < |deliveries|
      modifies this
      ensures deliveries == old(deliveries)[i := old(deliveries)[i].(settlement := Effect(NackOp(i, requeue)))]
      ensures ops == old(ops) + [NackOp(i, requeue)]
      ensures detectCalls == old(detectCalls)
    {
      deliveries := deliveries[i := deliveries[i].(settlement := Effect(NackOp(i, requeue)))];
      ops := ops + [NackOp(i, requeue)];
    }

    /** `handleMessage` for the delivery just received: exactly one terminal
        operation, on that delivery, as `Handle` decides. */
    method HandleMessage(i: nat)
      requires Valid() && i == |ops| && i + 1 == |deliveries|
      modifies this
      ensures Valid() && |ops| == |deliveries|
      ensures var h := Handle(old(deliveries)[i].body, decode, detect, |old(detectCalls)|);
        && deliveries == old(deliveries)[i := Delivery(old(deliveries)[i].body, h.settlement)]
        && ops == old(ops) + [OpFor(i, h.settlement)]
        && detectCalls == old(detectCalls) + (if h.detected.Some? then [h.detected.value] else [])
    {
      var job := decode(deliveries[i].body);
      if job.None? {
        Nack(i, false);
        return;
      }
      var result := detect(|detectCalls|, job.value.imageURL);
      detectCalls := detectCalls + [job.value.imageURL];
      if result.Failure? {
        Nack(i, true);
        return;
      }
      Ack(i);
    }

    /** One turn of the loop that takes a delivery: receive it, then handle it. */
    method Receive(body: seq<byte>)
      requires Valid() && |ops| == |deliveries|
      modifies this
      ensures Valid() && |ops| == |deliveries|
      ensures State() == Step(old(State()), body, decode, detect)
    {
      deliveries := deliveries + [Delivery(body, Pending)];
      HandleMessage(|deliveries| - 1);
    }

    /** `ProcessMessages`: handle deliveries one at a time in the order
        received until the context is done or the channel is closed. */
    method ProcessMessages(inbox: seq<Signal>) returns (state: LoopState)
      requires Valid() && |ops| == |deliveries|
      modifies this
      ensures Valid() && |ops| == |deliveries|
      ensures state == FinalState(inbox)
      ensures State() == Run(old(State()), Received(inbox), decode, detect)
      ensures var hs := Handled(Received(inbox), decode, detect, |old(detectCalls)|);
        && deliveries == old(deliveries) + Settled(Received(inbox), hs)
        && ops == old(ops) + Ops(|old(deliveries)|, hs)
        && detectCalls == old(detectCalls) + URLs(hs)
    {
      ghost var all := Received(inbox);
      RunIsHandled(State(), all, decode, detect);
      var j := 0;
      while j < |inbox|
        invariant j <= StopIndex(inbox)
        invariant Valid() && |ops| == |deliveries|
        invariant Run(State(), all[j..], decode, detect) == Run(old(State()), all, decode, detect)
      {
        match inbox[j]
        case Done =>
          assert all[j..] == [];
          return Stopped(ContextDone);
        case Closed =>
          assert all[j..] == [];
          return Stopped(ChannelClosed);
        case Message(body) =>
          assert all[j..][0] == body && all[j..][1..] == all[j + 1..];
          Receive(body);
          j := j + 1;
      }
      assert all[j..] == [];
      return Running;
    }
  }
}
