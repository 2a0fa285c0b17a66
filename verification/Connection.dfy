/**
One client connection: the goroutine that handles the client's messages one by one,
the goroutine that delivers broker messages, the pre-key notices, and the table of
messages the client has not acknowledged. The handlers run call by call: what a call to
the database, the broker or another service does, and whether it reports an error, is
the environment's choice at that point, and the two are separate, except that a call
which reports no error has done what it is for.
*/
module Connection {
  import opened Wrappers
  import opened Messages

  type BrokerMsg = nat

  datatype Payload =
    | ClientAck
    | AuthResponse
    | Register
    | Unregister
    | RequestPreKeys
    | RequestUploads(number: int)
    | FindChatNumber
    | OutboundMessage
    | Unsupported

  datatype Request = Request(sequence: nat, payload: Payload)

  /** What the handlers call. */
  datatype Call =
    | UnpackLogin | CheckNonce(addr: Address) | CheckSignature(addr: Address) | GetNumber | OpenSubscriber
    | Announce(addr: Address) | StoreRegistration(addr: Address) | RemoveRegistration(addr: Address)
    | ServePreKeys | AuthorizeUpload | LookUpNumber
    | FindHost | MarshalRecord | OpenPublisher(forwarding: bool) | Publish(forwarding: bool)

  /** How a call turns out, with the login it unpacks or the place it finds, if any. */
  datatype Outcome = Outcome(effected: bool, ok: bool, addr: Address, local: bool)

  datatype Kind = AckReply | ErrorReply | TypedReply

  /** What a handler does for a request. */
  datatype Act = Called(call: Call, result: Outcome) | Bound(addr: Address) | Replied(kind: Kind)

  /** Where the handler is. A reply that is not the last one is the error sent when no number can be had. */
  datatype Pc =
    | Idle
    | LookingUp
    | Acking
    | Calling(call: Call)
    | Binding(addr: Address)
    | Uploading(left: nat, granted: nat, failed: bool)
    | Sending(kind: Kind, last: bool)

  /** doHandleOutboundMessage: some requests need an authenticated connection, the others an anonymous one. */
  function Start(bound: Option<Address>, p: Payload): Pc {
    match p
    case ClientAck => LookingUp
    case AuthResponse => if bound.Some? then Sending(ErrorReply, true) else Calling(UnpackLogin)
    case Register => if bound.None? then Sending(ErrorReply, true) else Calling(Announce(bound.value))
    case Unregister => if bound.None? then Sending(ErrorReply, true) else Calling(RemoveRegistration(bound.value))
    case RequestPreKeys => if bound.Some? then Sending(ErrorReply, true) else Calling(ServePreKeys)
    case RequestUploads(n) => if bound.Some? then Sending(ErrorReply, true) else AfterUploads(n, 0, false)
    case FindChatNumber => if bound.Some? then Sending(ErrorReply, true) else Calling(LookUpNumber)
    case OutboundMessage => if bound.Some? then Sending(ErrorReply, true) else Calling(FindHost)
    case Unsupported => Idle
  }

  /** The loop of handleRequestUploadAuthorizations, and what follows it. */
  function AfterUploads(left: int, granted: nat, failed: bool): Pc {
    if left > 0 then Uploading(left, granted, failed)
    else if granted > 0 then Sending(TypedReply, true)
    else if failed then Sending(ErrorReply, true)
    else Idle
  }

  /** Where a handler goes on after a call. After a failure to get a number, authentication goes on regardless. */
  function AfterCall(call: Call, o: Outcome): Pc {
    if !o.ok then Sending(ErrorReply, !call.GetNumber?)
    else match call
      case UnpackLogin => Calling(CheckNonce(o.addr))
      case CheckNonce(addr) => Calling(CheckSignature(addr))
      case CheckSignature(addr) => Binding(addr)
      case GetNumber => Calling(OpenSubscriber)
      case OpenSubscriber => Sending(TypedReply, true)
      case Announce(addr) => Calling(StoreRegistration(addr))
      case StoreRegistration(_) => Sending(AckReply, true)
      case RemoveRegistration(_) => Sending(AckReply, true)
      case ServePreKeys => Sending(TypedReply, true)
      case AuthorizeUpload => Sending(TypedReply, true)
      case LookUpNumber => Sending(TypedReply, true)
      case FindHost => if o.local then Calling(OpenPublisher(false)) else Calling(MarshalRecord)
      case MarshalRecord => Calling(OpenPublisher(true))
      case OpenPublisher(forwarding) => Calling(Publish(forwarding))
      case Publish(_) => Sending(AckReply, true)
  }

  /** A handled request, the address bound when it was taken, and what has been done for it. */
  datatype Handled = Handled(request: Request, bound: Option<Address>, trail: seq<Act>)

  /** What the connection sends to its client. Requests are named by their position among the handled ones. */
  datatype Sent = Reply(request: nat, sequence: nat, kind: Kind) | Originated(sequence: nat)

  datatype State = State(
    bound: Option<Address>,
    subscribed: bool,                  // messages for the bound address are being delivered
    built: nat,                        // messages built by the server's sequence builder
    unacked: map<nat, BrokerMsg>,      // the ackers, by sequence
    carried: map<nat, BrokerMsg>,      // history: the broker message delivered under a sequence
    brokerAcked: set<BrokerMsg>,       // history: broker messages acknowledged to the broker
    handled: seq<Handled>,             // history, the last one possibly still being handled
    pc: Pc,
    wire: seq<Sent>)                   // history

  const INIT := State(None, false, 0, map[], map[], {}, [], Idle, [])

  datatype Step =
    | Take(r: Request)
    | Run(o: Outcome)
    | Bind
    | Send
    | LookUpAcker
    | AckerReturns(effected: bool, ok: bool)
    | Deliver(msg: BrokerMsg)
    | Notify

  /** The handler runs one request at a time; a verified signature names a non-empty identity key. */
  predicate Enabled(s: State, step: Step) {
    match step
    case Take(r) => s.pc.Idle?
    case Run(o) =>
      && s.handled != [] && (s.pc.Calling? || (s.pc.Uploading? && s.pc.left > 0)) && (o.ok ==> o.effected)
      && (s.pc.Calling? && s.pc.call.CheckSignature? && o.ok ==> s.pc.call.addr.identityKey != "")
    case Bind => s.handled != [] && s.pc.Binding?
    case Send => s.handled != [] && s.pc.Sending?
    case LookUpAcker => s.handled != [] && s.pc.LookingUp?
    case AckerReturns(effected, ok) => s.handled != [] && s.pc.Acking? && Current(s).sequence in s.unacked && (ok ==> effected)
    case Deliver(_) => s.subscribed && s.built + 1 < SEQUENCES
    case Notify => s.built + 1 < SEQUENCES
  }

  function Current(s: State): Request
    requires s.handled != []
  {
    s.handled[|s.handled| - 1].request
  }

  /** Another act for the request being handled. */
  function Do(s: State, act: Act): State
    requires s.handled != []
  {
    var n := |s.handled| - 1;
    s.(handled := s.handled[n := s.handled[n].(trail := s.handled[n].trail + [act])])
  }

  function CallAt(pc: Pc): Call {
    if pc.Calling? then pc.call else AuthorizeUpload
  }

  function Continue(pc: Pc, o: Outcome): Pc {
    if pc.Uploading? then AfterUploads(pc.left - 1, if o.ok then pc.granted + 1 else pc.granted, pc.failed || !o.ok)
    else AfterCall(CallAt(pc), o)
  }

  function Apply(s: State, step: Step): State
    requires Enabled(s, step)
  {
    match step
    case Take(r) => s.(handled := s.handled + [Handled(r, s.bound, [])], pc := Start(s.bound, r.payload))
    case Run(o) =>
      Do(s, Called(CallAt(s.pc), o))
        .(pc := Continue(s.pc, o), subscribed := s.subscribed || (CallAt(s.pc).OpenSubscriber? && o.ok))
    case Bind =>
      Do(s, Bound(s.pc.addr)).(pc := Calling(GetNumber), bound := Some(s.pc.addr))
    case Send =>
      Do(s, Replied(s.pc.kind))
        .(pc := if s.pc.last then Idle else Calling(OpenSubscriber),
          wire := s.wire + [Reply(|s.handled| - 1, Current(s).sequence, s.pc.kind)])
    case LookUpAcker => s.(pc := if Current(s).sequence in s.unacked then Acking else Idle)
    case AckerReturns(effected, ok) =>
      var q := Current(s).sequence;
      s.(pc := Idle,
         unacked := if ok then s.unacked - {q} else s.unacked,
         brokerAcked := if effected then s.brokerAcked + {s.unacked[q]} else s.brokerAcked)
    case Deliver(msg) =>
      var q := SequenceOf(s.built + 1);
      s.(built := s.built + 1, unacked := s.unacked[q := msg], carried := s.carried[q := msg],
         wire := s.wire + [Originated(q)])
    case Notify =>
      s.(built := s.built + 1, wire := s.wire + [Originated(SequenceOf(s.built + 1))])
  }

  ghost predicate IsRun(trace: seq<State>, steps: seq<Step>) {
    && |trace| == |steps| + 1
    && trace[0] == INIT
    && forall i :: 0 <= i < |steps| ==> Enabled(trace[i], steps[i]) && trace[i + 1] == Apply(trace[i], steps[i])
  }

  // ----- the ack table -----

  /** The table of a connection and the two handlers that change it. */
  class ClientConnection {
    var built: nat
    var unackedMessages: map<nat, BrokerMsg>

    constructor ()
      ensures built == 0 && unackedMessages == map[]
    {
      built, unackedMessages := 0, map[];
    }

    method HandleInboundMessage(msg: BrokerMsg) returns (sequence: nat)
      modifies this
      ensures built == old(built) + 1 && sequence == SequenceOf(built)
      ensures unackedMessages == old(unackedMessages)[sequence := msg]
    {
      built := built + 1;
      sequence := SequenceOf(built);
      unackedMessages := unackedMessages[sequence := msg];
    }

    /** handleACK, with the result of the broker ack: the entry goes only when there is one and its ack succeeds. */
    method HandleAck(sequence: nat, ackerOk: bool) returns (acked: Option<BrokerMsg>)
      modifies this
      ensures built == old(built)
      ensures acked == if sequence in old(unackedMessages) && ackerOk then Some(old(unackedMessages)[sequence]) else None
      ensures unackedMessages == if acked.Some? then old(unackedMessages) - {sequence} else old(unackedMessages)
    {
      acked := None;
      if sequence in unackedMessages && ackerOk {
        acked := Some(unackedMessages[sequence]);
        unackedMessages := unackedMessages - {sequence};
      }
    }
  }

  ghost predicate Distinct(s: State) {
    forall p, q :: 0 <= p < q < |s.wire| && s.wire[p].Originated? && s.wire[q].Originated? ==>
      s.wire[p].sequence != s.wire[q].sequence
  }

  ghost predicate SequenceInv(s: State) {
    && s.built < SEQUENCES
    && Distinct(s)
    && (forall p :: 0 <= p < |s.wire| && s.wire[p].Originated? ==> 1 <= s.wire[p].sequence <= s.built)
    && (forall q :: q in s.carried ==> 1 <= q <= s.built)
  }

  /** The client acknowledged this sequence. */
  ghost predicate ClientAcked(s: State, q: nat) {
    exists k :: 0 <= k < |s.handled| && s.handled[k].request == Request(q, ClientAck)
  }

  ghost predicate AckedFor(s: State, msg: BrokerMsg) {
    exists q :: q in s.carried && s.carried[q] == msg && ClientAcked(s, q)
  }

  predicate AckingInv(s: State) {
    && (s.pc.LookingUp? || s.pc.Acking? ==> s.handled != [] && Current(s).payload.ClientAck?)
    && (s.pc.Acking? ==> Current(s).sequence in s.unacked)
  }

  ghost predicate TableInv(s: State) {
    && (forall q :: q in s.unacked ==> q in s.carried && s.carried[q] == s.unacked[q])
    && (forall q :: q in s.carried ==> q in s.unacked || s.carried[q] in s.brokerAcked)
    && AckingInv(s)
    && (forall msg :: msg in s.brokerAcked ==> AckedFor(s, msg))
  }

  /** The server builds another message. */
  lemma BuildKeepsSequences(s: State, s': State)
    requires SequenceInv(s) && s.built + 1 < SEQUENCES && s'.built == s.built + 1 && s'.wire == s.wire + [Originated(s.built + 1)]
    requires forall q :: q in s'.carried ==> q in s.carried || q == s.built + 1
    ensures SequenceInv(s')
  {}

  lemma SendKeepsSequences(s: State, s': State, m: Sent)
    requires SequenceInv(s) && m.Reply? && s'.built == s.built && s'.wire == s.wire + [m] && s'.carried == s.carried
    ensures SequenceInv(s')
  {}

  lemma SequenceInvKept(s: State, step: Step)
    requires SequenceInv(s) && Enabled(s, step)
    ensures SequenceInv(Apply(s, step))
  {
    var s' := Apply(s, step);
    if step.Deliver? || step.Notify? {
      SequenceBelowWrap(s.built + 1);
      BuildKeepsSequences(s, s');
    } else if step.Send? {
      SendKeepsSequences(s, s', s'.wire[|s.wire|]);
    }
  }

  /** The requests handled, and what was delivered under a sequence, only grow. */
  ghost predicate RequestsGrow(s: State, s': State) {
    && |s.handled| <= |s'.handled|
    && (forall k :: 0 <= k < |s.handled| ==> s'.handled[k].request == s.handled[k].request)
    && (forall q :: q in s.carried ==> q in s'.carried && s'.carried[q] == s.carried[q])
  }

  lemma AckedForGrows(s: State, s': State)
    requires RequestsGrow(s, s')
    ensures forall q :: ClientAcked(s, q) ==> ClientAcked(s', q)
    ensures forall msg :: AckedFor(s, msg) ==> AckedFor(s', msg)
  {
    forall q | ClientAcked(s, q) ensures ClientAcked(s', q) {
      var k :| 0 <= k < |s.handled| && s.handled[k].request == Request(q, ClientAck);
      assert s'.handled[k].request == Request(q, ClientAck);
    }
  }

  lemma AckerKeepsTable(s: State, effected: bool, ok: bool)
    requires TableInv(s) && Enabled(s, AckerReturns(effected, ok))
    ensures TableInv(Apply(s, AckerReturns(effected, ok)))
  {
    var s', q := Apply(s, AckerReturns(effected, ok)), Current(s).sequence;
    AckedForGrows(s, s');
    assert s'.handled[|s.handled| - 1].request == Request(q, ClientAck);
    assert s.carried[q] == s.unacked[q];
    assert AckedFor(s', s.unacked[q]);
  }

  lemma DeliverKeepsTable(s: State, msg: BrokerMsg)
    requires SequenceInv(s) && TableInv(s) && Enabled(s, Deliver(msg))
    ensures TableInv(Apply(s, Deliver(msg)))
  {
    SequenceBelowWrap(s.built + 1);
    AckedForGrows(s, Apply(s, Deliver(msg)));
  }

  /** Steps that leave the table alone. */
  lemma TableUntouched(s: State, s': State)
    requires TableInv(s) && RequestsGrow(s, s') && AckingInv(s')
    requires s'.unacked == s.unacked && s'.carried == s.carried && s'.brokerAcked == s.brokerAcked
    ensures TableInv(s')
  {
    AckedForGrows(s, s');
  }

  lemma TableInvKept(s: State, step: Step)
    requires SequenceInv(s) && TableInv(s) && Enabled(s, step)
    ensures TableInv(Apply(s, step))
  {
    match step {
      case AckerReturns(effected, ok) => AckerKeepsTable(s, effected, ok);
      case Deliver(msg) => DeliverKeepsTable(s, msg);
      case _ => TableUntouched(s, Apply(s, step));
    }
  }

  lemma {:induction false} TableInRuns(trace: seq<State>, steps: seq<Step>, i: nat)
    requires IsRun(trace, steps) && i < |trace|
    ensures SequenceInv(trace[i]) && TableInv(trace[i])
  {
    if i > 0 {
      TableInRuns(trace, steps, i - 1);
      SequenceInvKept(trace[i - 1], steps[i - 1]);
      TableInvKept(trace[i - 1], steps[i - 1]);
    }
  }

  /**
  The ack table, over every interleaving of fewer than 2^32 server messages: the
  sequences the server originates are distinct; a running acker is that of the broker
  message delivered under the acknowledged sequence; a delivered message is in the
  table until its broker ack has succeeded; and the broker is acked only for messages
  whose sequence the client acknowledged.
  */
  lemma AckTable(trace: seq<State>, steps: seq<Step>, i: nat)
    requires IsRun(trace, steps) && i < |trace|
    ensures var s := trace[i];
            && Distinct(s)
            && (s.pc.Acking? ==> s.handled != [] && Current(s).payload.ClientAck? && Current(s).sequence in s.unacked &&
                                 Current(s).sequence in s.carried &&
                                 s.unacked[Current(s).sequence] == s.carried[Current(s).sequence])
            && (forall q :: q in s.carried ==> q in s.unacked || s.carried[q] in s.brokerAcked)
            && (forall msg :: msg in s.brokerAcked ==> AckedFor(s, msg))
  {
    TableInRuns(trace, steps, i);
  }

  /** In every run an acknowledgement of the client makes the handler run the acker of its sequence exactly if there is one. */
  lemma AckRunsAcker(trace: seq<State>, steps: seq<Step>, i: nat)
    requires IsRun(trace, steps) && i < |steps|
    ensures steps[i].Take? ==> (trace[i + 1].pc.LookingUp? <==> steps[i].r.payload.ClientAck?)
    ensures steps[i].LookUpAcker? ==>
              Current(trace[i]).payload.ClientAck? &&
              trace[i + 1].pc == if Current(trace[i]).sequence in trace[i].unacked then Acking else Idle
  {
    TableInRuns(trace, steps, i);
  }

  /** The acker of a sequence returned without error at this step. */
  predicate Clears(s: State, step: Step, q: nat) {
    step.AckerReturns? && step.ok && s.handled != [] && Current(s).sequence == q
  }

  /** A broker message was delivered under a sequence at this step. */
  predicate Delivers(s: State, step: Step, q: nat, msg: BrokerMsg) {
    step == Deliver(msg) && SequenceOf(s.built + 1) == q
  }

  /** It was delivered at step j, and its acker has not returned without error up to state i. */
  ghost predicate Outstanding(trace: seq<State>, steps: seq<Step>, i: nat, q: nat, msg: BrokerMsg, j: nat)
    requires |trace| == |steps| + 1 && i < |trace|
  {
    j < i && Delivers(trace[j], steps[j], q, msg) && forall k :: j < k < i ==> !Clears(trace[k], steps[k], q)
  }

  lemma UnackedStep(s: State, step: Step, q: nat, msg: BrokerMsg)
    requires Enabled(s, step)
    ensures var s' := Apply(s, step);
            q in s'.unacked && s'.unacked[q] == msg <==>
            Delivers(s, step, q, msg) ||
            (q in s.unacked && s.unacked[q] == msg && !Clears(s, step, q) && !(step.Deliver? && SequenceOf(s.built + 1) == q))
  {}

  lemma OutstandingStep(trace: seq<State>, steps: seq<Step>, i: nat, q: nat, msg: BrokerMsg, j: nat)
    requires |trace| == |steps| + 1 && 0 < i < |trace|
    ensures Outstanding(trace, steps, i, q, msg, j) <==>
            if j == i - 1 then Delivers(trace[j], steps[j], q, msg)
            else Outstanding(trace, steps, i - 1, q, msg, j) && !Clears(trace[i - 1], steps[i - 1], q)
  {}

  /**
  The table, exactly, over every run: a broker message is in it under a sequence if and
  only if it was delivered under that sequence and no acker of the sequence has returned
  without error since.
  */
  lemma {:induction false} UnackedIff(trace: seq<State>, steps: seq<Step>, i: nat, q: nat, msg: BrokerMsg)
    requires IsRun(trace, steps) && i < |trace|
    ensures q in trace[i].unacked && trace[i].unacked[q] == msg <==>
            exists j :: Outstanding(trace, steps, i, q, msg, j)
  {
    if i > 0 {
      UnackedIff(trace, steps, i - 1, q, msg);
      UnackedStep(trace[i - 1], steps[i - 1], q, msg);
      assert steps[i - 1].Deliver? ==> SequenceOf(trace[i - 1].built + 1) !in trace[i - 1].unacked by {
        TableInRuns(trace, steps, i - 1);
        NewSequence(trace[i - 1], steps[i - 1]);
      }
      forall j: nat
        ensures Outstanding(trace, steps, i, q, msg, j) <==>
                if j == i - 1 then Delivers(trace[j], steps[j], q, msg)
                else Outstanding(trace, steps, i - 1, q, msg, j) && !Clears(trace[i - 1], steps[i - 1], q)
      {
        OutstandingStep(trace, steps, i, q, msg, j);
      }
      assert Outstanding(trace, steps, i, q, msg, i - 1) <==> Delivers(trace[i - 1], steps[i - 1], q, msg);
    }
  }

  /** The acker of a broker message took effect at this step. */
  predicate AcksBroker(s: State, step: Step, msg: BrokerMsg) {
    step.AckerReturns? && step.effected && s.handled != [] && Current(s).sequence in s.unacked &&
    s.unacked[Current(s).sequence] == msg
  }

  /** In every run a message counts as acknowledged to the broker exactly if its acker took effect, whatever it reported. */
  lemma {:induction false} BrokerAckedIff(trace: seq<State>, steps: seq<Step>, i: nat, msg: BrokerMsg)
    requires IsRun(trace, steps) && i < |trace|
    ensures msg in trace[i].brokerAcked <==> exists j :: 0 <= j < i && AcksBroker(trace[j], steps[j], msg)
  {
    if i > 0 {
      BrokerAckedIff(trace, steps, i - 1, msg);
      AcksBrokerStep(trace[i - 1], steps[i - 1], msg);
    }
  }

  lemma AcksBrokerStep(s: State, step: Step, msg: BrokerMsg)
    requires Enabled(s, step)
    ensures msg in Apply(s, step).brokerAcked <==> msg in s.brokerAcked || AcksBroker(s, step, msg)
  {}

  lemma NewSequence(s: State, step: Step)
    requires SequenceInv(s) && TableInv(s) && Enabled(s, step)
    ensures step.Deliver? ==> SequenceOf(s.built + 1) !in s.unacked
  {
    if step.Deliver? { SequenceBelowWrap(s.built + 1); }
  }

  // ----- one request -----

  /** The calls a request may lead to, given what the connection was bound to. */
  predicate Belongs(h: Handled, call: Call) {
    match h.request.payload
    case AuthResponse =>
      h.bound.None? &&
      (call.UnpackLogin? || call.CheckNonce? || call.CheckSignature? || call.GetNumber? || call.OpenSubscriber?)
    case Register => h.bound.Some? && (call == Announce(h.bound.value) || call == StoreRegistration(h.bound.value))
    case Unregister => h.bound.Some? && call == RemoveRegistration(h.bound.value)
    case RequestPreKeys => h.bound.None? && call.ServePreKeys?
    case RequestUploads(_) => h.bound.None? && call.AuthorizeUpload?
    case FindChatNumber => h.bound.None? && call.LookUpNumber?
    case OutboundMessage =>
      h.bound.None? && (call.FindHost? || call.MarshalRecord? || call.OpenPublisher? || call.Publish?)
    case _ => false
  }

  /** The call that does what a request is for. */
  predicate IsPurpose(call: Call) {
    call.OpenSubscriber? || call.StoreRegistration? || call.RemoveRegistration? || call.ServePreKeys? ||
    call.AuthorizeUpload? || call.LookUpNumber? || call.Publish?
  }

  /** The requests answered with an ack, rather than with data, when their purpose is carried out. */
  predicate IsAcked(call: Call) {
    call.StoreRegistration? || call.RemoveRegistration? || call.Publish?
  }

  /** The purpose was carried out, and reported without error. */
  predicate Done(act: Act) {
    act.Called? && IsPurpose(act.call) && act.result.effected && act.result.ok
  }

  /** The purpose was carried out, but reported as failed. */
  predicate DoneUnnoticed(act: Act) {
    act.Called? && IsPurpose(act.call) && act.result.effected && !act.result.ok
  }

  predicate NoNumber(act: Act) {
    act.Called? && act.call.GetNumber? && !act.result.ok
  }

  /** A request that the authentication of the connection does not allow. */
  predicate Refused(h: Handled) {
    match h.request.payload
    case Register => h.bound.None?
    case Unregister => h.bound.None?
    case ClientAck => false
    case Unsupported => false
    case _ => h.bound.Some?
  }

  function Kinds(trail: seq<Act>): seq<Kind> {
    if trail == [] then []
    else
      var last := trail[|trail| - 1];
      Kinds(trail[..|trail| - 1]) + if last.Replied? then [last.kind] else []
  }

  lemma KindsSnoc(trail: seq<Act>, act: Act)
    ensures Kinds(trail + [act]) == Kinds(trail) + if act.Replied? then [act.kind] else []
  {
    assert (trail + [act])[..|trail|] == trail;
  }

  /** Calls belong to the request; one that failed, other than for a number or an upload, is the last. */
  ghost predicate CallsInv(h: Handled) {
    && (forall k :: 0 <= k < |h.trail| && h.trail[k].Called? ==>
          Belongs(h, h.trail[k].call) && (h.trail[k].result.ok ==> h.trail[k].result.effected))
    && (forall j, k :: 0 <= j < k < |h.trail| && h.trail[j].Called? && h.trail[k].Called? ==>
          h.trail[j].result.ok || h.trail[j].call.GetNumber? || h.trail[j].call.AuthorizeUpload?)
    && (forall j, k :: 0 <= j < k < |h.trail| && h.trail[j].Called? && h.trail[k].Called? && IsPurpose(h.trail[j].call) ==>
          h.trail[j].call.AuthorizeUpload?)
  }

  /** The call was made, and reported no error. */
  ghost predicate Passed(trail: seq<Act>, call: Call) {
    exists k :: 0 <= k < |trail| && trail[k].Called? && trail[k].call == call && trail[k].result.ok
  }

  ghost predicate Failed(trail: seq<Act>) {
    exists k :: 0 <= k < |trail| && trail[k].Called? && !trail[k].result.ok
  }

  /** The login was unpacked, and names the address. */
  ghost predicate Unpacked(trail: seq<Act>, addr: Address) {
    exists k :: 0 <= k < |trail| && trail[k].Called? && trail[k].call.UnpackLogin? && trail[k].result.ok && trail[k].result.addr == addr
  }

  /** The addressee's host was found, and is this server or another one. */
  ghost predicate Located(trail: seq<Act>, local: bool) {
    exists k :: 0 <= k < |trail| && trail[k].Called? && trail[k].call.FindHost? && trail[k].result.ok && trail[k].result.local == local
  }

  ghost predicate WasBound(trail: seq<Act>) {
    exists k :: 0 <= k < |trail| && trail[k].Bound?
  }

  ghost predicate AskedForNumber(trail: seq<Act>) {
    exists k :: 0 <= k < |trail| && trail[k].Called? && trail[k].call.GetNumber?
  }

  ghost predicate SomeDone(trail: seq<Act>) {
    exists k :: 0 <= k < |trail| && Done(trail[k])
  }

  /** The purpose was carried out, and is one that is answered in the given way. */
  ghost predicate SomeDoneFor(trail: seq<Act>, kind: Kind) {
    exists k :: 0 <= k < |trail| && Done(trail[k]) && (kind.AckReply? <==> IsAcked(trail[k].call))
  }

  ghost predicate SomeDoneUnnoticed(trail: seq<Act>) {
    exists k :: 0 <= k < |trail| && DoneUnnoticed(trail[k])
  }

  ghost predicate SomeNoNumber(trail: seq<Act>) {
    exists k :: 0 <= k < |trail| && NoNumber(trail[k])
  }

  /** What must have happened before each act. */
  ghost predicate OrderInv(h: Handled) {
    forall k :: 0 <= k < |h.trail| ==> Timely(h, h.trail[..k], h.trail[k])
  }

  /**
  An address is bound only when the signature of its login was verified, that only when
  its nonce was, and that only for the address the login names; a registration is stored
  only when presence was announced; what is published goes where the addressee was
  found to be; an error is sent only for a request that is refused or a call that
  failed, an ack or data only when the purpose was carried out.
  */
  ghost predicate Timely(h: Handled, before: seq<Act>, act: Act) {
    match act
    case Bound(addr) => Passed(before, CheckSignature(addr))
    case Replied(kind) =>
      if kind == ErrorReply then (before == [] && Refused(h)) || Failed(before) else SomeDoneFor(before, kind)
    case Called(call, _) =>
      match call
      case CheckNonce(addr) => Unpacked(before, addr)
      case CheckSignature(addr) => Passed(before, CheckNonce(addr))
      case GetNumber => WasBound(before)
      case OpenSubscriber => AskedForNumber(before)
      case StoreRegistration(addr) => Passed(before, Announce(addr))
      case MarshalRecord => Located(before, false)
      case OpenPublisher(forwarding) => Located(before, !forwarding) && (forwarding ==> Passed(before, MarshalRecord))
      case Publish(forwarding) => Located(before, !forwarding) && Passed(before, OpenPublisher(forwarding))
      case _ => true
  }

  /** What has happened before stays so. */
  lemma TimelyGrows(h: Handled, before: seq<Act>, last: Act, act: Act)
    requires Timely(h, before, act) && !(act.Replied? && act.kind == ErrorReply && !Failed(before))
    ensures Timely(h, before + [last], act)
  {
    assert forall k :: 0 <= k < |before| ==> (before + [last])[k] == before[k];
  }

  function UploadCalls(trail: seq<Act>): nat {
    if trail == [] then 0
    else
      var last := trail[|trail| - 1];
      UploadCalls(trail[..|trail| - 1]) + if last.Called? && last.call.AuthorizeUpload? then 1 else 0
  }

  /** What the invariants need to know of a trail. */
  datatype Summary = Summary(sent: seq<Kind>, done: bool, noNumber: bool, allOk: bool, noPurpose: bool, uploads: nat)

  function Add(m: Summary, act: Act): Summary {
    Summary(m.sent + if act.Replied? then [act.kind] else [], m.done || Done(act), m.noNumber || NoNumber(act),
            m.allOk && (act.Called? ==> act.result.ok || act.call.GetNumber?),
            m.noPurpose && (act.Called? ==> !IsPurpose(act.call)),
            m.uploads + if act.Called? && act.call.AuthorizeUpload? then 1 else 0)
  }

  function SummaryOf(trail: seq<Act>): Summary {
    if trail == [] then Summary([], false, false, true, true, 0)
    else Add(SummaryOf(trail[..|trail| - 1]), trail[|trail| - 1])
  }

  lemma SummarySnoc(trail: seq<Act>, act: Act)
    ensures SummaryOf(trail + [act]) == Add(SummaryOf(trail), act)
  {
    assert (trail + [act])[..|trail|] == trail;
  }

  ghost predicate AllOk(trail: seq<Act>) {
    forall k :: 0 <= k < |trail| && trail[k].Called? ==> trail[k].result.ok || trail[k].call.GetNumber?
  }

  ghost predicate NoPurpose(trail: seq<Act>) {
    forall k :: 0 <= k < |trail| && trail[k].Called? ==> !IsPurpose(trail[k].call)
  }

  lemma {:induction false} SummaryMeans(trail: seq<Act>)
    ensures var m := SummaryOf(trail);
            && m.sent == Kinds(trail) && (m.done <==> SomeDone(trail)) && (m.noNumber <==> SomeNoNumber(trail))
            && (m.allOk <==> AllOk(trail)) && (m.noPurpose <==> NoPurpose(trail)) && m.uploads == UploadCalls(trail)
  {
    if trail != [] {
      var front, act := trail[..|trail| - 1], trail[|trail| - 1];
      SummaryMeans(front);
      assert forall k :: 0 <= k < |front| ==> trail[k] == front[k];
      assert act == trail[|front|];
    }
  }

  /** How many replies a request gets in the end. */
  function Expected(p: Payload, bound: Option<Address>, noNumber: bool): nat {
    match p
    case ClientAck => 0
    case Unsupported => 0
    case RequestUploads(n) => if bound.None? && n <= 0 then 0 else 1
    case AuthResponse => if noNumber then 2 else 1
    case _ => 1
  }

  /** What the handler has sent, given where it is. */
  predicate RepliesInv(p: Payload, bound: Option<Address>, m: Summary, pc: Pc) {
    match pc
    case Idle =>
      && |m.sent| == Expected(p, bound, m.noNumber)
      && (m.sent != [] ==> (m.sent[|m.sent| - 1] != ErrorReply <==> m.done))
      && (|m.sent| == 2 ==> m.sent[0] == ErrorReply)
    case Sending(kind, false) => m.sent == [] && m.noNumber && p.AuthResponse?
    case _ => m.sent == if m.noNumber then [ErrorReply] else []
  }

  /** How often an upload request has asked for an authorization, given how often it still will. */
  predicate Uploaded(h: Handled, m: Summary, left: nat) {
    h.request.payload.RequestUploads? && h.bound.None? ==>
      m.uploads + left == if h.request.payload.number > 0 then h.request.payload.number else 0
  }

  /** What the handler has done, given where it is. */
  predicate PcInv(h: Handled, m: Summary, pc: Pc) {
    var p, bound := h.request.payload, h.bound;
    match pc
    case Idle => Uploaded(h, m, 0)
    case LookingUp => p.ClientAck? && !m.noNumber
    case Acking => p.ClientAck? && !m.noNumber
    case Calling(call) =>
      Belongs(h, call) && !call.AuthorizeUpload? && m.allOk && m.noPurpose && !m.done && (m.noNumber ==> call.OpenSubscriber?)
    case Binding(_) => p.AuthResponse? && bound.None? && m.allOk && m.noPurpose && !m.done && !m.noNumber
    case Uploading(left, granted, failed) =>
      && p.RequestUploads? && p.number > 0 && bound.None? && left > 0 && Uploaded(h, m, left)
      && (granted > 0 <==> m.done) && (left < p.number ==> failed || granted > 0) && !m.noNumber
    case Sending(kind, last) =>
      && !p.ClientAck? && !p.Unsupported? && (p.RequestUploads? && bound.None? ==> p.number > 0) && Uploaded(h, m, 0)
      && (last ==> (kind != ErrorReply <==> m.done))
      && (!last ==> kind == ErrorReply && bound.None? && m.allOk && m.noPurpose && !m.done)
      && (m.noNumber ==> p.AuthResponse?)
  }

  predicate AtInv(h: Handled, m: Summary, pc: Pc) {
    RepliesInv(h.request.payload, h.bound, m, pc) && PcInv(h, m, pc)
  }

  /** What the handler does next may be done now. */
  ghost predicate Due(h: Handled, trail: seq<Act>, pc: Pc) {
    match pc
    case Calling(call) => forall o :: Timely(h, trail, Called(call, o))
    case Binding(addr) => Timely(h, trail, Bound(addr))
    case Uploading(_, granted, failed) => (granted > 0 ==> SomeDoneFor(trail, TypedReply)) && (failed ==> Failed(trail))
    case Sending(kind, last) => Timely(h, trail, Replied(kind)) && (!last ==> AskedForNumber(trail))
    case _ => true
  }

  ghost predicate HandlerInv(h: Handled, pc: Pc) {
    CallsInv(h) && OrderInv(h) && AtInv(h, SummaryOf(h.trail), pc) && Due(h, h.trail, pc)
  }

  lemma StartInv(r: Request, bound: Option<Address>)
    ensures HandlerInv(Handled(r, bound, []), Start(bound, r.payload))
  {}

  lemma OrderSnoc(h: Handled, act: Act, h': Handled)
    requires OrderInv(h) && h' == h.(trail := h.trail + [act]) && Timely(h, h.trail, act)
    ensures OrderInv(h')
  {
    forall k | 0 <= k < |h'.trail| ensures Timely(h', h'.trail[..k], h'.trail[k]) {
      assert h'.trail[..k] == h.trail[..k];
      if k == |h.trail| { assert h.trail[..k] == h.trail; }
      SameTimely(h, h', h'.trail[..k], h'.trail[k]);
    }
  }

  lemma SameTimely(h: Handled, h': Handled, before: seq<Act>, act: Act)
    requires h'.request == h.request && h'.bound == h.bound
    ensures Timely(h, before, act) <==> Timely(h', before, act)
  {}

  lemma CallsSnoc(h: Handled, act: Act, h': Handled)
    requires CallsInv(h) && h' == h.(trail := h.trail + [act])
    requires act.Called? ==> Belongs(h, act.call) && (act.result.ok ==> act.result.effected)
    requires act.Called? ==> act.call.AuthorizeUpload? || (AllOk(h.trail) && NoPurpose(h.trail))
    ensures CallsInv(h')
  {
    assert forall k :: 0 <= k < |h.trail| ==> h'.trail[k] == h.trail[k];
  }

  /** A call moves the handler on. */
  lemma CallMovesOn(h: Handled, m: Summary, call: Call, o: Outcome, h': Handled)
    requires AtInv(h, m, Calling(call)) && (o.ok ==> o.effected) && h'.request == h.request && h'.bound == h.bound
    ensures AtInv(h', Add(m, Called(call, o)), AfterCall(call, o))
  {}

  /** What is due after a call. */
  lemma CallLeadsOn(h: Handled, trail: seq<Act>, call: Call, o: Outcome)
    requires Due(h, trail, Calling(call)) && !call.AuthorizeUpload? && (o.ok ==> o.effected)
    ensures Due(h, trail + [Called(call, o)], AfterCall(call, o))
  {
    var act := Called(call, o);
    assert (trail + [act])[|trail|] == act;
    TimelyGrows(h, trail, act, act);
  }

  lemma CallKeepsInv(h: Handled, call: Call, o: Outcome)
    requires HandlerInv(h, Calling(call)) && (o.ok ==> o.effected)
    ensures HandlerInv(h.(trail := h.trail + [Called(call, o)]), AfterCall(call, o))
  {
    var act := Called(call, o);
    var h' := h.(trail := h.trail + [act]);
    SummaryMeans(h.trail);
    SummarySnoc(h.trail, act);
    CallsSnoc(h, act, h');
    OrderSnoc(h, act, h');
    CallMovesOn(h, SummaryOf(h.trail), call, o, h');
    CallLeadsOn(h, h.trail, call, o);
    SameDue(h, h', h'.trail, AfterCall(call, o));
  }

  lemma SameDue(h: Handled, h': Handled, trail: seq<Act>, pc: Pc)
    requires h'.request == h.request && h'.bound == h.bound
    ensures Due(h, trail, pc) <==> Due(h', trail, pc)
  {}

  lemma UploadMovesOn(h: Handled, m: Summary, pc: Pc, o: Outcome, h': Handled)
    requires pc.Uploading? && AtInv(h, m, pc) && (o.ok ==> o.effected) && h'.request == h.request && h'.bound == h.bound
    ensures AtInv(h', Add(m, Called(AuthorizeUpload, o)), Continue(pc, o))
  {}

  lemma UploadLeadsOn(h: Handled, trail: seq<Act>, pc: Pc, o: Outcome)
    requires pc.Uploading? && Due(h, trail, pc) && (o.ok ==> o.effected)
    ensures Due(h, trail + [Called(AuthorizeUpload, o)], Continue(pc, o))
  {
    var act := Called(AuthorizeUpload, o);
    assert (trail + [act])[|trail|] == act;
    assert forall k :: 0 <= k < |trail| ==> (trail + [act])[k] == trail[k];
  }

  lemma UploadKeepsInv(h: Handled, pc: Pc, o: Outcome)
    requires pc.Uploading? && HandlerInv(h, pc) && (o.ok ==> o.effected)
    ensures HandlerInv(h.(trail := h.trail + [Called(AuthorizeUpload, o)]), Continue(pc, o))
  {
    var act := Called(AuthorizeUpload, o);
    var h' := h.(trail := h.trail + [act]);
    SummarySnoc(h.trail, act);
    CallsSnoc(h, act, h');
    OrderSnoc(h, act, h');
    UploadMovesOn(h, SummaryOf(h.trail), pc, o, h');
    UploadLeadsOn(h, h.trail, pc, o);
    SameDue(h, h', h'.trail, Continue(pc, o));
  }

  lemma BindKeepsInv(h: Handled, addr: Address)
    requires HandlerInv(h, Binding(addr))
    ensures HandlerInv(h.(trail := h.trail + [Bound(addr)]), Calling(GetNumber))
  {
    var h' := h.(trail := h.trail + [Bound(addr)]);
    SummarySnoc(h.trail, Bound(addr));
    CallsSnoc(h, Bound(addr), h');
    OrderSnoc(h, Bound(addr), h');
    assert h'.trail[|h.trail|] == Bound(addr);
  }

  lemma SendMovesOn(h: Handled, m: Summary, kind: Kind, last: bool, h': Handled)
    requires AtInv(h, m, Sending(kind, last)) && h'.request == h.request && h'.bound == h.bound
    ensures AtInv(h', Add(m, Replied(kind)), if last then Idle else Calling(OpenSubscriber))
  {}

  lemma SendKeepsInv(h: Handled, kind: Kind, last: bool)
    requires HandlerInv(h, Sending(kind, last))
    ensures HandlerInv(h.(trail := h.trail + [Replied(kind)]), if last then Idle else Calling(OpenSubscriber))
  {
    var h' := h.(trail := h.trail + [Replied(kind)]);
    SummarySnoc(h.trail, Replied(kind));
    CallsSnoc(h, Replied(kind), h');
    OrderSnoc(h, Replied(kind), h');
    SendMovesOn(h, SummaryOf(h.trail), kind, last, h');
    assert forall k :: 0 <= k < |h.trail| ==> h'.trail[k] == h.trail[k];
  }

  // ----- all requests -----

  /** The last request is being handled; the others are finished. */
  ghost predicate RequestsInv(s: State) {
    && (s.handled == [] ==> s.pc.Idle?)
    && (forall i :: 0 <= i < |s.handled| ==> HandlerInv(s.handled[i], if i == |s.handled| - 1 then s.pc else Idle))
  }

  /** Acknowledging does nothing else for its request. */
  lemma AckingKeepsInv(h: Handled, pc: Pc, pc': Pc)
    requires HandlerInv(h, pc) && (pc.LookingUp? || pc.Acking?) && (pc'.Acking? || pc'.Idle?)
    ensures HandlerInv(h, pc')
  {}

  lemma RunKeepsInv(h: Handled, pc: Pc, o: Outcome)
    requires HandlerInv(h, pc) && (pc.Calling? || pc.Uploading?) && (o.ok ==> o.effected)
    ensures HandlerInv(h.(trail := h.trail + [Called(CallAt(pc), o)]), Continue(pc, o))
  {
    if pc.Calling? { CallKeepsInv(h, pc.call, o); } else { UploadKeepsInv(h, pc, o); }
  }

  /** The request being handled, after another act. */
  lemma AfterAct(s: State, act: Act)
    requires s.handled != []
    ensures var n := |s.handled| - 1;
            |Do(s, act).handled| == n + 1 && Do(s, act).handled[n] == s.handled[n].(trail := s.handled[n].trail + [act])
  {}

  /** A step of the handler keeps the invariant of the request it handles. */
  lemma CurrentInvKept(s: State, step: Step, s': State)
    requires s.handled != [] && HandlerInv(s.handled[|s.handled| - 1], s.pc) && Enabled(s, step) && !step.Take?
    requires s' == Apply(s, step)
    ensures |s'.handled| == |s.handled| && HandlerInv(s'.handled[|s.handled| - 1], s'.pc)
  {
    var h := s.handled[|s.handled| - 1];
    match step {
      case Run(o) =>
        AfterAct(s, Called(CallAt(s.pc), o));
        RunKeepsInv(h, s.pc, o);
      case Bind =>
        AfterAct(s, Bound(s.pc.addr));
        BindKeepsInv(h, s.pc.addr);
      case Send =>
        AfterAct(s, Replied(s.pc.kind));
        SendKeepsInv(h, s.pc.kind, s.pc.last);
      case LookUpAcker => AckingKeepsInv(h, s.pc, s'.pc);
      case AckerReturns(_, _) => AckingKeepsInv(h, s.pc, s'.pc);
      case _ =>
    }
  }

  lemma RequestsInvKept(s: State, step: Step)
    requires RequestsInv(s) && Enabled(s, step)
    ensures RequestsInv(Apply(s, step))
  {
    var s' := Apply(s, step);
    if step.Take? {
      StartInv(step.r, s.bound);
    } else if s.handled != [] {
      assert HandlerInv(s.handled[|s.handled| - 1], s.pc);
      CurrentInvKept(s, step, s');
    }
    forall i | 0 <= i < |s'.handled| ensures HandlerInv(s'.handled[i], if i == |s'.handled| - 1 then s'.pc else Idle) {
      if i < |s.handled| {
        assert HandlerInv(s.handled[i], if i == |s.handled| - 1 then s.pc else Idle);
      }
    }
  }

  /** The replies to one request, in the order they were sent. */
  function RepliesTo(wire: seq<Sent>, i: nat): seq<Kind> {
    if wire == [] then []
    else
      var last := wire[|wire| - 1];
      RepliesTo(wire[..|wire| - 1], i) + if last.Reply? && last.request == i then [last.kind] else []
  }

  lemma RepliesToSnoc(wire: seq<Sent>, m: Sent, i: nat)
    ensures RepliesTo(wire + [m], i) == RepliesTo(wire, i) + if m.Reply? && m.request == i then [m.kind] else []
  {
    assert (wire + [m])[..|wire|] == wire;
  }

  lemma {:induction false} NoReplies(wire: seq<Sent>, i: nat)
    requires forall m :: m in wire && m.Reply? ==> m.request != i
    ensures RepliesTo(wire, i) == []
  {
    if wire != [] {
      assert wire[|wire| - 1] in wire;
      NoReplies(wire[..|wire| - 1], i);
    }
  }

  /** Replies to different requests come in request order. */
  ghost predicate InOrder(wire: seq<Sent>) {
    forall p, q :: 0 <= p < q < |wire| && wire[p].Reply? && wire[q].Reply? ==> wire[p].request <= wire[q].request
  }

  ghost predicate WireInv(s: State) {
    && InOrder(s.wire) && Answers(s.wire, s.handled)
    && (forall i :: 0 <= i < |s.handled| ==> RepliesTo(s.wire, i) == Kinds(s.handled[i].trail))
  }

  lemma RepliesInvKept(s: State, step: Step, i: nat)
    requires WireInv(s) && Enabled(s, step) && i < |s.handled|
    ensures RepliesTo(Apply(s, step).wire, i) == Kinds(Apply(s, step).handled[i].trail)
  {
    var s' := Apply(s, step);
    assert RepliesTo(s.wire, i) == Kinds(s.handled[i].trail);
    if step.Send? || step.Deliver? || step.Notify? { RepliesToSnoc(s.wire, s'.wire[|s.wire|], i); }
    if i == |s.handled| - 1 && (step.Run? || step.Bind? || step.Send?) {
      KindsSnoc(s.handled[i].trail, s'.handled[i].trail[|s.handled[i].trail|]);
    }
  }

  /** Every reply is to a handled request, with its sequence. */
  ghost predicate Answers(wire: seq<Sent>, handled: seq<Handled>) {
    forall m :: m in wire && m.Reply? ==> m.request < |handled| && m.sequence == handled[m.request].request.sequence
  }

  lemma ReplyKeepsOrder(wire: seq<Sent>, handled: seq<Handled>, kind: Kind)
    requires InOrder(wire) && Answers(wire, handled) && handled != []
    ensures var n := |handled| - 1;
            var wire' := wire + [Reply(n, handled[n].request.sequence, kind)];
            InOrder(wire') && Answers(wire', handled)
  {
    forall p | 0 <= p < |wire| && wire[p].Reply? ensures wire[p].request <= |handled| - 1 { assert wire[p] in wire; }
  }

  lemma WireOrderKept(s: State, step: Step, s': State)
    requires InOrder(s.wire) && Answers(s.wire, s.handled) && Enabled(s, step) && s' == Apply(s, step)
    ensures InOrder(s'.wire) && Answers(s'.wire, s'.handled)
  {
    if step.Send? { ReplyKeepsOrder(s.wire, s.handled, s.pc.kind); }
  }

  lemma WireInvKept(s: State, step: Step)
    requires WireInv(s) && Enabled(s, step)
    ensures WireInv(Apply(s, step))
  {
    var s' := Apply(s, step);
    WireOrderKept(s, step, s');
    if step.Take? { NoReplies(s.wire, |s.handled|); }
    forall i | 0 <= i < |s'.handled| ensures RepliesTo(s'.wire, i) == Kinds(s'.handled[i].trail) {
      if i < |s.handled| { RepliesInvKept(s, step, i); }
    }
  }

  /** A binding is only ever due on a connection that is not bound. */
  ghost predicate BoundInv(s: State) {
    && (forall i :: 0 <= i < |s.handled| && s.handled[i].bound.Some? ==> s.handled[i].bound == s.bound)
    && (s.pc.Binding? || (s.pc.Calling? && LeadsToBinding(s.pc.call)) ==> s.bound.None?)
  }

  predicate LeadsToBinding(call: Call) {
    call.UnpackLogin? || call.CheckNonce? || call.CheckSignature?
  }

  lemma BoundInvKept(s: State, step: Step)
    requires BoundInv(s) && Enabled(s, step)
    ensures BoundInv(Apply(s, step))
  {}

  lemma BoundStays(s: State, step: Step, s': State)
    requires BoundInv(s) && Enabled(s, step) && s' == Apply(s, step) && s.bound.Some?
    ensures s'.bound == s.bound
  {}

  lemma {:induction false} RequestsInRuns(trace: seq<State>, steps: seq<Step>, i: nat)
    requires IsRun(trace, steps) && i < |trace|
    ensures RequestsInv(trace[i]) && WireInv(trace[i]) && BoundInv(trace[i])
  {
    if i > 0 {
      RequestsInRuns(trace, steps, i - 1);
      RequestsInvKept(trace[i - 1], steps[i - 1]);
      WireInvKept(trace[i - 1], steps[i - 1]);
      BoundInvKept(trace[i - 1], steps[i - 1]);
    }
  }

  /** The bound address is written at most once. */
  lemma {:induction false} BoundOnce(trace: seq<State>, steps: seq<Step>, j: nat, k: nat)
    requires IsRun(trace, steps) && j <= k < |trace| && trace[j].bound.Some?
    ensures trace[k].bound == trace[j].bound
  {
    if j < k {
      var i := k - 1;
      BoundOnce(trace, steps, j, i);
      assert BoundInv(trace[i]) by { RequestsInRuns(trace, steps, i); }
      BoundStays(trace[i], steps[i], trace[i + 1]);
    }
  }

  // ----- authentication -----

  /** The handler of a request bound the connection to the address. */
  ghost predicate BoundBy(h: Handled, addr: Address) {
    h.request.payload.AuthResponse? && exists k :: 0 <= k < |h.trail| && h.trail[k] == Bound(addr)
  }

  /** The connection is bound to what some handler bound it to, and delivers exactly once some handler opened its subscriber. */
  ghost predicate LoginInv(s: State) {
    && (s.bound.Some? ==> exists i :: 0 <= i < |s.handled| && BoundBy(s.handled[i], s.bound.value))
    && (forall i, addr :: 0 <= i < |s.handled| && BoundBy(s.handled[i], addr) ==> s.bound == Some(addr))
    && (s.subscribed <==> exists i :: 0 <= i < |s.handled| && Passed(s.handled[i].trail, OpenSubscriber))
  }

  lemma TrailGrows(h: Handled, act: Act, h': Handled)
    requires h' == h.(trail := h.trail + [act])
    ensures forall addr :: BoundBy(h', addr) <==> BoundBy(h, addr) || (h.request.payload.AuthResponse? && act == Bound(addr))
    ensures Passed(h'.trail, OpenSubscriber) <==>
            Passed(h.trail, OpenSubscriber) || (act.Called? && act.call.OpenSubscriber? && act.result.ok)
  {
    assert h'.trail[|h.trail|] == act;
    assert forall k :: 0 <= k < |h.trail| ==> h'.trail[k] == h.trail[k];
  }

  /** Another act for the last request. */
  lemma ActKeepsLogin(s: State, act: Act, s': State)
    requires LoginInv(s) && s.handled != [] && s'.handled == Do(s, act).handled
    requires act.Bound? ==> Current(s).payload.AuthResponse? && s.bound.None?
    requires s'.bound == if act.Bound? then Some(act.addr) else s.bound
    requires s'.subscribed <==> s.subscribed || (act.Called? && act.call.OpenSubscriber? && act.result.ok)
    ensures LoginInv(s')
  {
    var n := |s.handled| - 1;
    TrailGrows(s.handled[n], act, s'.handled[n]);
    assert forall i :: 0 <= i < n ==> s'.handled[i] == s.handled[i];
    if s.bound.Some? {
      var i :| 0 <= i < |s.handled| && BoundBy(s.handled[i], s.bound.value);
      assert BoundBy(s'.handled[i], s.bound.value);
    } else if act.Bound? {
      assert BoundBy(s'.handled[n], act.addr);
    }
    if s.subscribed {
      var i :| 0 <= i < |s.handled| && Passed(s.handled[i].trail, OpenSubscriber);
      assert Passed(s'.handled[i].trail, OpenSubscriber);
    } else if s'.subscribed {
      assert Passed(s'.handled[n].trail, OpenSubscriber);
    }
  }

  lemma TakeKeepsLogin(s: State, s': State, h: Handled)
    requires LoginInv(s) && h.trail == [] && s'.handled == s.handled + [h] && s'.bound == s.bound && s'.subscribed == s.subscribed
    ensures LoginInv(s')
  {
    assert forall i :: 0 <= i < |s.handled| ==> s'.handled[i] == s.handled[i];
    if s.bound.Some? {
      var i :| 0 <= i < |s.handled| && BoundBy(s.handled[i], s.bound.value);
      assert BoundBy(s'.handled[i], s.bound.value);
    }
    if s.subscribed {
      var i :| 0 <= i < |s.handled| && Passed(s.handled[i].trail, OpenSubscriber);
      assert Passed(s'.handled[i].trail, OpenSubscriber);
    }
  }

  lemma LoginInvKept(s: State, step: Step)
    requires RequestsInv(s) && BoundInv(s) && LoginInv(s) && Enabled(s, step)
    ensures LoginInv(Apply(s, step))
  {
    match step {
      case Take(r) => TakeKeepsLogin(s, Apply(s, step), Handled(r, s.bound, []));
      case Run(o) => ActKeepsLogin(s, Called(CallAt(s.pc), o), Apply(s, step));
      case Bind =>
        assert HandlerInv(s.handled[|s.handled| - 1], s.pc);
        ActKeepsLogin(s, Bound(s.pc.addr), Apply(s, step));
      case Send => ActKeepsLogin(s, Replied(s.pc.kind), Apply(s, step));
      case _ =>
    }
  }

  lemma {:induction false} LoginInRuns(trace: seq<State>, steps: seq<Step>, i: nat)
    requires IsRun(trace, steps) && i < |trace|
    ensures LoginInv(trace[i])
  {
    if i > 0 {
      LoginInRuns(trace, steps, i - 1);
      RequestsInRuns(trace, steps, i - 1);
      LoginInvKept(trace[i - 1], steps[i - 1]);
    }
  }

  /** The login was unpacked, its nonce and its signature verified, and its address bound, in this order. */
  ghost predicate Authenticated(trail: seq<Act>, addr: Address) {
    exists j, k, l, m :: 0 <= j < k < l < m < |trail| && IsLogin(trail[j], trail[k], trail[l], trail[m], addr)
  }

  predicate IsLogin(unpack: Act, nonce: Act, signature: Act, bind: Act, addr: Address) {
    && unpack.Called? && unpack.call.UnpackLogin? && unpack.result.ok && unpack.result.addr == addr
    && nonce.Called? && nonce.call == CheckNonce(addr) && nonce.result.ok
    && signature.Called? && signature.call == CheckSignature(addr) && signature.result.ok
    && bind == Bound(addr)
  }

  /** Before a timely act, the call it needs. */
  lemma PassedBefore(h: Handled, m: nat, call: Call) returns (k: nat)
    requires m < |h.trail| && Passed(h.trail[..m], call)
    ensures k < m && h.trail[k].Called? && h.trail[k].call == call && h.trail[k].result.ok
  {
    k :| 0 <= k < m && h.trail[..m][k].Called? && h.trail[..m][k].call == call && h.trail[..m][k].result.ok;
  }

  lemma UnpackedBefore(h: Handled, m: nat, addr: Address) returns (k: nat)
    requires m < |h.trail| && Unpacked(h.trail[..m], addr)
    ensures k < m && h.trail[k].Called? && h.trail[k].call.UnpackLogin? && h.trail[k].result.ok && h.trail[k].result.addr == addr
  {
    k :| 0 <= k < m && h.trail[..m][k].Called? && h.trail[..m][k].call.UnpackLogin? && h.trail[..m][k].result.ok &&
         h.trail[..m][k].result.addr == addr;
  }

  lemma TimelyAt(h: Handled, k: nat)
    requires OrderInv(h) && k < |h.trail|
    ensures Timely(h, h.trail[..k], h.trail[k])
  {}

  lemma BoundIsAuthenticated(h: Handled, m: nat, addr: Address)
    requires OrderInv(h) && m < |h.trail| && h.trail[m] == Bound(addr)
    ensures Authenticated(h.trail, addr)
  {
    assert Passed(h.trail[..m], CheckSignature(addr)) by { TimelyAt(h, m); }
    var l := PassedBefore(h, m, CheckSignature(addr));
    assert Passed(h.trail[..l], CheckNonce(addr)) by { TimelyAt(h, l); }
    var k := PassedBefore(h, l, CheckNonce(addr));
    assert Unpacked(h.trail[..k], addr) by { TimelyAt(h, k); }
    var j := UnpackedBefore(h, k, addr);
    assert IsLogin(h.trail[j], h.trail[k], h.trail[l], h.trail[m], addr);
  }

  /** A request authenticated the connection for the address. */
  ghost predicate AuthenticatedBy(h: Handled, addr: Address) {
    h.request.payload.AuthResponse? && Authenticated(h.trail, addr)
  }

  lemma BoundByIff(h: Handled, addr: Address)
    requires OrderInv(h)
    ensures BoundBy(h, addr) <==> AuthenticatedBy(h, addr)
  {
    if BoundBy(h, addr) {
      var m :| 0 <= m < |h.trail| && h.trail[m] == Bound(addr);
      BoundIsAuthenticated(h, m, addr);
    }
  }

  /**
  In every state of every run a connection is bound to an address exactly when some
  authentication request on it had that address unpacked from its login, then its nonce
  and then its signature verified, before it was bound. Messages are delivered exactly
  when a subscriber could be opened after that.
  */
  lemma BoundIffAuthenticated(trace: seq<State>, steps: seq<Step>, k: nat, addr: Address)
    requires IsRun(trace, steps) && k < |trace|
    ensures var s := trace[k];
            && (s.bound == Some(addr) <==> exists i :: 0 <= i < |s.handled| && AuthenticatedBy(s.handled[i], addr))
            && (s.subscribed <==> exists i :: 0 <= i < |s.handled| && Passed(s.handled[i].trail, OpenSubscriber))
  {
    var s := trace[k];
    forall i | 0 <= i < |s.handled| ensures BoundBy(s.handled[i], addr) <==> AuthenticatedBy(s.handled[i], addr) {
      EffectsFirst(trace, steps, k, i);
      BoundByIff(s.handled[i], addr);
    }
    LoginInRuns(trace, steps, k);
  }

  // ----- replies -----

  /** Request i has been handled to the end. */
  predicate Finished(s: State, i: nat) {
    i < |s.handled| - 1 || (i == |s.handled| - 1 && s.pc.Idle?)
  }

  /** Requests promised exactly one reply. */
  predicate AlwaysAnswered(p: Payload) {
    p.Register? || p.Unregister? || p.RequestPreKeys? || p.FindChatNumber? || p.OutboundMessage?
  }

  /** The call for the purpose had its effect, whatever it reported. */
  ghost predicate SomeEffect(trail: seq<Act>) {
    SomeDone(trail) || SomeDoneUnnoticed(trail)
  }

  /** A call for the purpose that reported an error is the only one, so no other succeeded. */
  lemma UnnoticedIsAlone(h: Handled)
    requires CallsInv(h) && !h.request.payload.RequestUploads? && SomeDoneUnnoticed(h.trail)
    ensures !SomeDone(h.trail)
  {
    var k :| 0 <= k < |h.trail| && DoneUnnoticed(h.trail[k]);
    forall j | 0 <= j < |h.trail| ensures !Done(h.trail[j]) {}
  }

  /**
  In every state of every run, for every request handled so far: it leads only to calls
  the address bound when it came allows; after a call that failed it makes no other,
  except to get a number or to authorize uploads; it calls for its purpose at most once
  unless that is uploads; and each act comes only after what must precede it (`Timely`).
  */
  lemma EffectsFirst(trace: seq<State>, steps: seq<Step>, k: nat, i: nat)
    requires IsRun(trace, steps) && k < |trace| && i < |trace[k].handled|
    ensures CallsInv(trace[k].handled[i]) && OrderInv(trace[k].handled[i])
    ensures trace[k].handled[i].bound.Some? ==> trace[k].bound == trace[k].handled[i].bound
  {
    RequestsInRuns(trace, steps, k);
    var s := trace[k];
    assert HandlerInv(s.handled[i], if i == |s.handled| - 1 then s.pc else Idle);
  }

  /** What a handled request has been answered. */
  lemma FinishedMeans(h: Handled)
    requires HandlerInv(h, Idle)
    ensures var sent := Kinds(h.trail);
            && |sent| == Expected(h.request.payload, h.bound, SomeNoNumber(h.trail))
            && (sent != [] ==> (sent[|sent| - 1] != ErrorReply <==> SomeDone(h.trail)))
            && (|sent| == 2 ==> sent[0] == ErrorReply)
            && (h.request.payload.RequestUploads? && h.bound.None? && h.request.payload.number >= 0 ==>
                  UploadCalls(h.trail) == h.request.payload.number)
  {
    SummaryMeans(h.trail);
  }

  /** A purpose carried out is followed by an error reply exactly when its call reported one. */
  lemma UnnoticedMeans(h: Handled)
    requires HandlerInv(h, Idle) && AlwaysAnswered(h.request.payload)
    ensures |Kinds(h.trail)| == 1 && (Kinds(h.trail)[0] == ErrorReply && SomeEffect(h.trail) <==> SomeDoneUnnoticed(h.trail))
  {
    FinishedMeans(h);
    if SomeDoneUnnoticed(h.trail) { UnnoticedIsAlone(h); }
  }

  /**
  Request/response discipline, over every run and whatever else the server sends in
  between. Replies come in request order, each with its request's own sequence. A
  request that has been handled gets exactly one reply, except that an authentication
  gets two exactly when no number could be had, and that a client acknowledgement, an
  upload request for nothing and an unsupported message get none. The last reply is
  positive exactly when the purpose was carried out and reported; an error reply for a
  purpose that was carried out all the same is sent exactly when the call reported an
  error for it. An upload request asks for as many authorizations as it is for.
  */
  lemma Discipline(trace: seq<State>, steps: seq<Step>, k: nat, i: nat)
    requires IsRun(trace, steps) && k < |trace| && Finished(trace[k], i)
    ensures var s := trace[k];
            var h, sent := s.handled[i], RepliesTo(s.wire, i);
            && InOrder(s.wire)
            && (forall m :: m in s.wire && m.Reply? && m.request == i ==> m.sequence == h.request.sequence)
            && |sent| == Expected(h.request.payload, h.bound, SomeNoNumber(h.trail))
            && (sent != [] ==> (sent[|sent| - 1] != ErrorReply <==> SomeDone(h.trail)))
            && (|sent| == 2 ==> sent[0] == ErrorReply)
            && (h.request.payload.RequestUploads? && h.bound.None? && h.request.payload.number >= 0 ==>
                  UploadCalls(h.trail) == h.request.payload.number)
            && (AlwaysAnswered(h.request.payload) ==>
                  |sent| == 1 && (sent[0] == ErrorReply && SomeEffect(h.trail) <==> SomeDoneUnnoticed(h.trail)))
  {
    RequestsInRuns(trace, steps, k);
    var s := trace[k];
    assert HandlerInv(s.handled[i], Idle) by { assert HandlerInv(s.handled[i], if i == |s.handled| - 1 then s.pc else Idle); }
    assert RepliesTo(s.wire, i) == Kinds(s.handled[i].trail);
    FinishedMeans(s.handled[i]);
    if AlwaysAnswered(s.handled[i].request.payload) { UnnoticedMeans(s.handled[i]); }
  }

  // ----- runs that show the exceptions -----

  lemma Extend(trace: seq<State>, steps: seq<Step>, step: Step) returns (trace': seq<State>, steps': seq<Step>)
    requires IsRun(trace, steps) && Enabled(trace[|steps|], step)
    ensures IsRun(trace', steps') && trace'[|steps'|] == Apply(trace[|steps|], step)
  {
    trace', steps' := trace + [Apply(trace[|steps|], step)], steps + [step];
  }

  const ALICE := Address("alice", "phone")
  const GOOD := Outcome(true, true, ALICE, true)
  const BAD := Outcome(false, false, ALICE, true)
  const LOST := Outcome(true, false, ALICE, true)

  lemma LoggedIn() returns (trace: seq<State>, steps: seq<Step>)
    ensures IsRun(trace, steps)
    ensures var s := trace[|steps|];
            && s.bound == Some(ALICE) && s.pc == Calling(GetNumber) && s.wire == [] && |s.handled| == 1
            && s.handled[0].request == Request(7, AuthResponse)
  {
    trace, steps := [INIT], [];
    trace, steps := Extend(trace, steps, Take(Request(7, AuthResponse)));
    trace, steps := Extend(trace, steps, Run(GOOD));
    trace, steps := Extend(trace, steps, Run(GOOD));
    trace, steps := Extend(trace, steps, Run(GOOD));
    trace, steps := Extend(trace, steps, Bind);
  }

  /** An authentication for which no number can be had is answered twice, first with an error and then positively. */
  lemma TwoRepliesWitness() returns (trace: seq<State>, steps: seq<Step>)
    ensures IsRun(trace, steps)
    ensures trace[|steps|].pc.Idle? && trace[|steps|].wire == [Reply(0, 7, ErrorReply), Reply(0, 7, TypedReply)]
  {
    trace, steps := LoggedIn();
    trace, steps := Extend(trace, steps, Run(BAD));
    trace, steps := Extend(trace, steps, Send);
    trace, steps := Extend(trace, steps, Run(GOOD));
    trace, steps := Extend(trace, steps, Send);
  }

  /** An outbound message that was published is answered with an error when the publish reports one. */
  lemma PublishedUnnoticedWitness() returns (trace: seq<State>, steps: seq<Step>)
    ensures IsRun(trace, steps)
    ensures var s := trace[|steps|];
            && s.pc.Idle? && |s.handled| == 1 && s.handled[0].request == Request(3, OutboundMessage)
            && s.wire == [Reply(0, 3, ErrorReply)] && Called(Publish(false), LOST) in s.handled[0].trail
  {
    trace, steps := [INIT], [];
    trace, steps := Extend(trace, steps, Take(Request(3, OutboundMessage)));
    trace, steps := Extend(trace, steps, Run(GOOD));
    trace, steps := Extend(trace, steps, Run(GOOD));
    trace, steps := Extend(trace, steps, Run(LOST));
    trace, steps := Extend(trace, steps, Send);
    assert trace[|steps|].handled[0].trail[2] == Called(Publish(false), LOST);
  }

  /** An upload request for nothing is handled without a reply. */
  lemma NoReplyWitness() returns (trace: seq<State>, steps: seq<Step>)
    ensures IsRun(trace, steps)
    ensures var s := trace[|steps|];
            && |s.handled| == 1 && s.handled[0].request == Request(3, RequestUploads(0))
            && Finished(s, 0) && s.wire == []
  {
    trace, steps := [INIT], [];
    trace, steps := Extend(trace, steps, Take(Request(3, RequestUploads(0))));
  }
}
