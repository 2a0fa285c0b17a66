/**
Any number of servers forwarding messages to each other: client submissions, the
forwarding workers with their retries and timeouts, requests to peer servers, local
re-delivery, user transfers, and recipients acknowledging what they receive. Topics
acknowledge message by message. Each server has a forwarder, whose callback table and
answers on the wire decide which callback a peer's answer runs; between two starts of a
server it builds fewer than 2^32 requests. Servers may crash, and messages be processed
again, or after another worker has acknowledged them. A publish that reports an error
may have published all the same. Failing attempts read any clock that is past its first
millisecond.
*/
module Federation {
  import opened Wrappers
  import opened Messages
  import Forwarder

  type WorkId = nat

  datatype Topic = DeviceTopic(addr: Address) | ForwardingTopic | RetryTopic

  /** A message published on a topic of a server. The token is history: which submission it descends from. */
  datatype Slot = Slot(
    host: Host,
    topic: Topic,
    data: Bytes,
    token: nat,
    placed: Option<Host>)  // history: where presence placed the addressee, unless published for retry

  /** What a server is in the middle of doing. */
  datatype Work =
    | Taken(slot: nat, record: Forwarded)        // unmarshalled, about to look up presence
    | Failing(slot: nat, record: Forwarded)      // an error occurred, failMessage is due
    | Replaced(slot: nat, copy: Option<nat>)     // reported as published elsewhere, ack of the source is due
    | Expired(slot: nat, first: nat, at: nat)    // failed for too long, ack of the source is due

  /** What the callback of a call holds. The copy is history: what the peer published for the call. */
  datatype Closure = Closure(slot: nat, record: Forwarded, copy: Option<nat>)

  /** The forwarder of a server, with the closure of each of its calls. */
  datatype Server = Server(forwarder: Forwarder.State, closures: seq<Closure>)

  const START := Server(Forwarder.INIT, [])

  /** A request on the wire, which its peer may handle even if the sender crashes. */
  datatype Requested = Requested(slot: nat, peer: Host, message: Outbound)

  /** A recipient's client acknowledged a message. */
  datatype Receipt = Receipt(token: nat, addr: Address, data: Bytes)

  /** A record was discarded: it first failed at `first` (milliseconds) and was checked at `at` (nanoseconds). */
  datatype Discard = Discard(token: nat, first: nat, at: nat)

  /** A forwarding attempt failed at a time in milliseconds. */
  datatype Failed = Failed(token: nat, millis: nat)

  datatype State = State(
    timeout: nat,                // forwardingTimeout, in nanoseconds
    sent: seq<Outbound>,         // history: the submissions published, among them all that were acked to their senders
    slots: seq<Slot>,            // all messages ever published, in order
    unacked: set<nat>,           // the slots still on their topics
    works: map<WorkId, Work>,
    servers: map<Host, Server>,
    requests: seq<Requested>,    // all requests ever sent
    receipts: set<Receipt>,      // history
    discards: set<Discard>,      // history
    failures: set<Failed>)       // history

  ghost predicate IsInit(s: State) {
    s == State(s.timeout, [], [], {}, map[], map[], [], {}, {}, {})
  }

  datatype Step =
    | Submit(host: Host, msg: Outbound, found: Host)
    | Take(w: WorkId, slot: nat)
    | PublishLocally(w: WorkId, found: Host, ok: bool)
    | Request(w: WorkId, peer: Host, dialOk: bool)
    | FailTaken(w: WorkId)
    | PeerHandles(host: Host, call: nat, found: Host, published: bool, ok: bool)
    | PeerHandlesStray(request: nat, found: Host)
    | ReadAnswer(host: Host, answer: nat, w: WorkId)
    | FailMessage(w: WorkId, marked: nat, checked: nat, published: bool, ok: bool)
    | Finish(w: WorkId)
    | Crash(host: Host)
    | Receive(slot: nat)
    | Transfer(w: WorkId, slot: nat, found: Host, ok: bool)

  /** sendOutboundMessage: the device's own topic, or the forwarding topic if presence names another host. */
  function SlotFor(host: Host, msg: Outbound, found: Host, token: nat): Slot {
    if found == host then Slot(host, DeviceTopic(msg.to), msg.body, token, Some(found))
    else Slot(host, ForwardingTopic, Marshalled(NewRecord(msg)), token, Some(found))
  }

  function Publish(s: State, slot: Slot): State {
    s.(slots := s.slots + [slot], unacked := s.unacked + {|s.slots|})
  }

  predicate OnForwarding(s: State, slot: nat) {
    slot < |s.slots| && !s.slots[slot].topic.DeviceTopic?
  }

  predicate OnDevice(s: State, slot: nat) {
    slot < |s.slots| && s.slots[slot].topic.DeviceTopic?
  }

  function ServerOf(s: State, host: Host): Server {
    if host in s.servers then s.servers[host] else START
  }

  function ForwarderOf(s: State, host: Host): Forwarder.State {
    ServerOf(s, host).forwarder
  }

  function RequestStep(s: State, w: WorkId, peer: Host, dialOk: bool): Forwarder.Step
    requires w in s.works && s.works[w].Taken?
  {
    Forwarder.Forward(peer, s.works[w].record.message, dialOk)
  }

  /** The callback that an answer read from the wire runs, if any: the table may have changed since the call. */
  function Triggered(s: State, host: Host, answer: nat): Option<Forwarder.Ran>
    requires answer < |ForwarderOf(s, host).answers|
  {
    var ran := ForwarderOf(s, host).table.ran;
    var ran' := Forwarder.Apply(ForwarderOf(s, host), Forwarder.ReadAnswer(answer)).table.ran;
    if |ran'| > |ran| then Some(ran'[|ran'| - 1]) else None
  }

  predicate Enabled(s: State, step: Step) {
    match step
    case Submit(_, _, _) => true
    case Take(w, slot) => w !in s.works && OnForwarding(s, slot)
    case PublishLocally(w, found, _) =>
      w in s.works && s.works[w].Taken? && s.works[w].slot < |s.slots| && found == s.slots[s.works[w].slot].host
    case Request(w, peer, dialOk) =>
      && w in s.works && s.works[w].Taken? && s.works[w].slot < |s.slots| && peer != s.slots[s.works[w].slot].host
      && Forwarder.Enabled(ForwarderOf(s, s.slots[s.works[w].slot].host), RequestStep(s, w, peer, dialOk))
    case FailTaken(w) => w in s.works && s.works[w].Taken?
    case PeerHandles(host, call, _, published, ok) =>
      && Forwarder.WasSent(ForwarderOf(s, host), call) && (ok ==> published)
      && call < |ServerOf(s, host).closures| && ServerOf(s, host).closures[call].slot < |s.slots|
    case PeerHandlesStray(request, _) => request < |s.requests| && s.requests[request].slot < |s.slots|
    case ReadAnswer(host, answer, w) =>
      && w !in s.works && answer < |ForwarderOf(s, host).answers|
      && (Triggered(s, host, answer).Some? ==> Triggered(s, host, answer).value.call < |ServerOf(s, host).closures|)
    case FailMessage(w, marked, checked, published, ok) =>
      (ok ==> published) && w in s.works && s.works[w].Failing? && s.works[w].slot < |s.slots| && marked >= NANOS_PER_MILLI
    case Finish(w) => w in s.works && (s.works[w].Replaced? || s.works[w].Expired?) && s.works[w].slot < |s.slots|
    case Crash(_) => true
    case Receive(slot) => OnDevice(s, slot)
    case Transfer(w, slot, found, _) => w !in s.works && OnDevice(s, slot) && found != s.slots[slot].host
  }

  function Apply(s: State, step: Step): State
    requires Enabled(s, step)
  {
    match step
    case Submit(host, msg, found) =>
      Publish(s, SlotFor(host, msg, found, |s.sent|)).(sent := s.sent + [msg])
    case Take(w, slot) =>
      (match Unmarshal(s.slots[slot].data)
       case None => s.(unacked := s.unacked - {slot})
       case Some(record) => s.(works := s.works[w := Taken(slot, record)]))
    case PublishLocally(w, found, ok) =>
      var work := s.works[w];
      var from := s.slots[work.slot];
      var msg := work.record.message;
      Publish(s, Slot(from.host, DeviceTopic(msg.to), msg.body, from.token, Some(found)))
        .(works := s.works[w := if ok then Replaced(work.slot, Some(|s.slots|)) else Failing(work.slot, work.record)])
    case Request(w, peer, dialOk) =>
      var work := s.works[w];
      var host := s.slots[work.slot].host;
      var fwd := ForwarderOf(s, host);
      var fwd' := Forwarder.Apply(fwd, RequestStep(s, w, peer, dialOk));
      var s1 := s.(servers := s.servers[host := Server(fwd', ServerOf(s, host).closures + [Closure(work.slot, work.record, None)])]);
      if Forwarder.CanSend(fwd.table, peer, dialOk)
      then s1.(works := s.works - {w}, requests := s.requests + [Requested(work.slot, peer, work.record.message)])
      else s1.(works := s.works[w := Failing(work.slot, work.record)])
    case FailTaken(w) =>
      s.(works := s.works[w := Failing(s.works[w].slot, s.works[w].record)])
    case PeerHandles(host, call, found, published, ok) =>
      var srv := ServerOf(s, host);
      var sent := srv.forwarder.calls[call];
      var closure := srv.closures[call];
      var fwd' := Forwarder.Apply(srv.forwarder, Forwarder.PeerAnswers(call, ok));
      if published then
        Publish(s, SlotFor(sent.host, sent.msg, found, s.slots[closure.slot].token))
          .(servers := s.servers[host := Server(fwd', srv.closures[call := closure.(copy := Some(|s.slots|))])])
      else s.(servers := s.servers[host := Server(fwd', srv.closures)])
    case PeerHandlesStray(request, found) =>
      var r := s.requests[request];
      Publish(s, SlotFor(r.peer, r.message, found, s.slots[r.slot].token))
    case ReadAnswer(host, answer, w) =>
      var srv := ServerOf(s, host);
      var fwd' := Forwarder.Apply(srv.forwarder, Forwarder.ReadAnswer(answer));
      var s1 := s.(servers := s.servers[host := srv.(forwarder := fwd')]);
      (match Triggered(s, host, answer)
       case None => s1
       case Some(ran) =>
         var closure := srv.closures[ran.call];
         s1.(works := s.works[w := if ran.ok then Replaced(closure.slot, closure.copy) else Failing(closure.slot, closure.record)]))
    case FailMessage(w, marked, checked, published, ok) =>
      var work := s.works[w];
      var from := s.slots[work.slot];
      var failed := MarkFailed(work.record, marked);
      var s1 := s.(failures := s.failures + {Failed(from.token, UnixMillis(marked))});
      (match AfterFailure(work.record, marked, checked, s.timeout)
       case None => s1.(works := s.works[w := Expired(work.slot, failed.firstFailed, checked)])
       case Some(retry) =>
         if published then
           Publish(s1, Slot(from.host, RetryTopic, Marshalled(retry), from.token, None))
             .(works := if ok then s.works[w := Replaced(work.slot, Some(|s.slots|))] else s.works - {w})
         else s1.(works := s.works - {w}))
    case Finish(w) =>
      var work := s.works[w];
      var s1 := s.(unacked := s.unacked - {work.slot}, works := s.works - {w});
      if work.Expired? then s1.(discards := s.discards + {Discard(s.slots[work.slot].token, work.first, work.at)})
      else s1
    case Crash(host) =>
      s.(servers := s.servers - {host},
         works := map w | w in s.works && s.works[w].slot < |s.slots| && s.slots[s.works[w].slot].host != host :: s.works[w])
    case Receive(slot) =>
      var from := s.slots[slot];
      s.(unacked := s.unacked - {slot}, receipts := s.receipts + {Receipt(from.token, from.topic.addr, from.data)})
    case Transfer(w, slot, found, ok) =>
      var from := s.slots[slot];
      var record := NewRecord(Outbound(from.topic.addr, from.data));
      Publish(s, Slot(from.host, ForwardingTopic, Marshalled(record), from.token, Some(found)))
        .(works := if ok then s.works[w := Replaced(slot, Some(|s.slots|))] else s.works)
  }

  ghost predicate IsRun(trace: seq<State>, steps: seq<Step>) {
    && |trace| == |steps| + 1
    && IsInit(trace[0])
    && forall i :: 0 <= i < |steps| ==> Enabled(trace[i], steps[i]) && trace[i + 1] == Apply(trace[i], steps[i])
  }

  /** A crash forgets the callbacks, the answers and the work of its server, and nothing of the others or of any topic. */
  lemma CrashForgets(s: State, host: Host)
    requires forall w :: w in s.works ==> s.works[w].slot < |s.slots|
    ensures var s' := Apply(s, Crash(host));
            && ForwarderOf(s', host) == Forwarder.INIT && ServerOf(s', host).closures == []
            && (forall h :: h != host ==> ServerOf(s', h) == ServerOf(s, h))
            && (forall w :: w in s'.works <==> w in s.works && s.slots[s.works[w].slot].host != host)
            && (forall w :: w in s'.works ==> s'.works[w] == s.works[w])
            && s' == s.(servers := s'.servers, works := s'.works)
  {}

  // ----- no fabrication, no misrouting -----

  /** A failure time in a record is 0 or the time of an attempt that really failed. */
  ghost predicate TimesGenuine(s: State, token: nat, record: Forwarded) {
    && (record.firstFailed == 0 <==> record.lastFailed == 0)
    && (record.firstFailed != 0 ==> Failed(token, record.firstFailed) in s.failures)
  }

  /**
  A slot carries its submission: the sealed bytes on the addressee's topic, of the server
  presence named, or a record of it, on the forwarding topic of another server only.
  */
  ghost predicate Genuine(s: State, slot: Slot) {
    && slot.token < |s.sent|
    && var msg := s.sent[slot.token];
       match slot.topic
       case DeviceTopic(addr) => addr == msg.to && slot.data == msg.body && slot.placed == Some(slot.host)
       case _ =>
         && slot.data.Marshalled? && slot.data.record.message == msg && TimesGenuine(s, slot.token, slot.data.record)
         && (slot.topic.ForwardingTopic? ==> slot.placed.Some? && slot.placed.value != slot.host)
  }

  /** The copy is a later slot of the same submission. */
  ghost predicate IsCopy(s: State, slot: nat, copy: Option<nat>)
    requires slot < |s.slots|
  {
    copy.Some? && slot < copy.value < |s.slots| && s.slots[copy.value].token == s.slots[slot].token
  }

  ghost predicate WorkGenuine(s: State, work: Work) {
    && work.slot < |s.slots|
    && s.slots[work.slot].token < |s.sent|
    && var token := s.slots[work.slot].token;
       match work
       case Replaced(slot, copy) => IsCopy(s, slot, copy)
       case Expired(_, first, at) => DurationSince(first, at) > s.timeout && Failed(token, first) in s.failures
       case _ => work.record.message == s.sent[token] && TimesGenuine(s, token, work.record)
  }

  /** A callback holds a genuine record; if its call was sent and acked, the peer has published a copy. */
  ghost predicate ClosureGenuine(s: State, closure: Closure, msg: Outbound, acked: bool) {
    && WorkGenuine(s, Taken(closure.slot, closure.record)) && closure.record.message == msg
    && (closure.copy.Some? ==> IsCopy(s, closure.slot, closure.copy))
    && (acked ==> closure.copy.Some?)
  }

  ghost predicate ServerGenuine(s: State, srv: Server) {
    && Forwarder.Inv(srv.forwarder)
    && |srv.closures| == |srv.forwarder.calls|
    && (forall c :: 0 <= c < |srv.closures| ==>
          ClosureGenuine(s, srv.closures[c], srv.forwarder.calls[c].msg, c in srv.forwarder.acked))
  }

  ghost predicate RequestGenuine(s: State, r: Requested) {
    r.slot < |s.slots| && s.slots[r.slot].token < |s.sent| && r.message == s.sent[s.slots[r.slot].token]
  }

  /** Everything published, and everything a worker is doing, is genuine. */
  ghost predicate GenuineInv(s: State) {
    && (forall i :: 0 <= i < |s.slots| ==> Genuine(s, s.slots[i]))
    && (forall w :: w in s.works ==> WorkGenuine(s, s.works[w]))
  }

  /** So is everything sent to peers, and every callback that waits for their answers. */
  ghost predicate SentInv(s: State) {
    && (forall h :: h in s.servers ==> ServerGenuine(s, s.servers[h]))
    && (forall i :: 0 <= i < |s.requests| ==> RequestGenuine(s, s.requests[i]))
  }

  /** What is genuine stays genuine as history grows. */
  ghost predicate Grows(s: State, s': State) {
    && s'.timeout == s.timeout && s.sent <= s'.sent && s.slots <= s'.slots && s.failures <= s'.failures
  }

  lemma SlotGrows(s: State, s': State, slot: Slot)
    requires Grows(s, s') && Genuine(s, slot)
    ensures Genuine(s', slot)
  {}

  lemma WorkGrows(s: State, s': State, work: Work)
    requires Grows(s, s') && WorkGenuine(s, work)
    ensures WorkGenuine(s', work)
  {}

  lemma ServerGrows(s: State, s': State, srv: Server)
    requires Grows(s, s') && ServerGenuine(s, srv)
    ensures ServerGenuine(s', srv)
  {
    forall c | 0 <= c < |srv.closures|
      ensures ClosureGenuine(s', srv.closures[c], srv.forwarder.calls[c].msg, c in srv.forwarder.acked)
    {
      assert ClosureGenuine(s, srv.closures[c], srv.forwarder.calls[c].msg, c in srv.forwarder.acked);
      WorkGrows(s, s', Taken(srv.closures[c].slot, srv.closures[c].record));
    }
  }

  lemma HistoryGrows(s: State, step: Step)
    requires Enabled(s, step)
    ensures Grows(s, Apply(s, step))
  {}

  // What each step publishes, sets workers and servers to, or sends, is genuine.

  lemma PublishedHereGenuine(s: State, step: Step)
    requires GenuineInv(s) && Enabled(s, step) && |Apply(s, step).slots| == |s.slots| + 1
    requires !step.PeerHandles? && !step.PeerHandlesStray?
    ensures Genuine(Apply(s, step), Apply(s, step).slots[|s.slots|])
  {
    match step {
      case Submit(_, _, _) =>
      case PublishLocally(w, _, _) => assert WorkGenuine(s, s.works[w]);
      case FailMessage(w, _, _, _, _) => assert WorkGenuine(s, s.works[w]);
      case Transfer(_, slot, _, _) => assert Genuine(s, s.slots[slot]);
    }
  }

  lemma PublishedByPeerGenuine(s: State, host: Host, msg: Outbound, found: Host, slot: nat)
    requires RequestGenuine(s, Requested(slot, host, msg))
    ensures Genuine(s, SlotFor(host, msg, found, s.slots[slot].token))
  {}

  lemma CallGenuine(s: State, host: Host, call: nat)
    requires SentInv(s) && call < |ForwarderOf(s, host).calls|
    ensures var srv := ServerOf(s, host);
            && call < |srv.closures|
            && RequestGenuine(s, Requested(srv.closures[call].slot, srv.forwarder.calls[call].host, srv.forwarder.calls[call].msg))
  {
    var srv := ServerOf(s, host);
    ServerOfGenuine(s, host);
    assert ClosureGenuine(s, srv.closures[call], srv.forwarder.calls[call].msg, call in srv.forwarder.acked);
  }

  lemma PublishedGenuine(s: State, step: Step)
    requires GenuineInv(s) && SentInv(s) && Enabled(s, step) && |Apply(s, step).slots| == |s.slots| + 1
    ensures Genuine(Apply(s, step), Apply(s, step).slots[|s.slots|])
  {
    HistoryGrows(s, step);
    match step {
      case PeerHandles(host, call, found, _, _) =>
        var sent := ForwarderOf(s, host).calls[call];
        CallGenuine(s, host, call);
        PublishedByPeerGenuine(s, sent.host, sent.msg, found, ServerOf(s, host).closures[call].slot);
        SlotGrows(s, Apply(s, step), Apply(s, step).slots[|s.slots|]);
      case PeerHandlesStray(request, found) =>
        var r := s.requests[request];
        PublishedByPeerGenuine(s, r.peer, r.message, found, r.slot);
        SlotGrows(s, Apply(s, step), Apply(s, step).slots[|s.slots|]);
      case _ => PublishedHereGenuine(s, step);
    }
  }

  lemma ServerOfGenuine(s: State, host: Host)
    requires SentInv(s)
    ensures ServerGenuine(s, ServerOf(s, host))
  {}

  lemma RequestKeepsServer(s: State, srv: Server, slot: nat, record: Forwarded, step: Forwarder.Step)
    requires ServerGenuine(s, srv) && WorkGenuine(s, Taken(slot, record)) && Forwarder.Enabled(srv.forwarder, step)
    requires step.Forward? && step.msg == record.message
    ensures ServerGenuine(s, Server(Forwarder.Apply(srv.forwarder, step), srv.closures + [Closure(slot, record, None)]))
  {
    var srv' := Server(Forwarder.Apply(srv.forwarder, step), srv.closures + [Closure(slot, record, None)]);
    Forwarder.InvKept(srv.forwarder, step);
    forall c | 0 <= c < |srv'.closures|
      ensures ClosureGenuine(s, srv'.closures[c], srv'.forwarder.calls[c].msg, c in srv'.forwarder.acked)
    {
      if c < |srv.closures| {
        assert ClosureGenuine(s, srv.closures[c], srv.forwarder.calls[c].msg, c in srv.forwarder.acked);
      }
    }
  }

  lemma PeerKeepsServer(s: State, srv: Server, call: nat, ok: bool, copy: Option<nat>)
    requires ServerGenuine(s, srv) && Forwarder.WasSent(srv.forwarder, call) && (ok ==> copy.Some?)
    requires copy.Some? ==> IsCopy(s, srv.closures[call].slot, copy)
    ensures var closures := if copy.Some? then srv.closures[call := srv.closures[call].(copy := copy)] else srv.closures;
            ServerGenuine(s, Server(Forwarder.Apply(srv.forwarder, Forwarder.PeerAnswers(call, ok)), closures))
  {
    var closures := if copy.Some? then srv.closures[call := srv.closures[call].(copy := copy)] else srv.closures;
    var srv' := Server(Forwarder.Apply(srv.forwarder, Forwarder.PeerAnswers(call, ok)), closures);
    Forwarder.InvKept(srv.forwarder, Forwarder.PeerAnswers(call, ok));
    forall c | 0 <= c < |srv'.closures|
      ensures ClosureGenuine(s, srv'.closures[c], srv'.forwarder.calls[c].msg, c in srv'.forwarder.acked)
    {
      assert ClosureGenuine(s, srv.closures[c], srv.forwarder.calls[c].msg, c in srv.forwarder.acked);
    }
  }

  lemma ReadKeepsServer(s: State, srv: Server, answer: nat)
    requires ServerGenuine(s, srv) && answer < |srv.forwarder.answers|
    ensures ServerGenuine(s, srv.(forwarder := Forwarder.Apply(srv.forwarder, Forwarder.ReadAnswer(answer))))
  {
    Forwarder.InvKept(srv.forwarder, Forwarder.ReadAnswer(answer));
  }

  lemma ChangedByRequest(s: State, w: WorkId, peer: Host, dialOk: bool, h: Host)
    requires Enabled(s, Request(w, peer, dialOk)) && h == s.slots[s.works[w].slot].host
    requires ServerGenuine(s, ServerOf(s, h)) && WorkGenuine(s, s.works[w])
    ensures ServerGenuine(Apply(s, Request(w, peer, dialOk)), Apply(s, Request(w, peer, dialOk)).servers[h])
  {
    var s' := Apply(s, Request(w, peer, dialOk));
    RequestKeepsServer(s, ServerOf(s, h), s.works[w].slot, s.works[w].record, RequestStep(s, w, peer, dialOk));
    ServerGrows(s, s', s'.servers[h]);
  }

  lemma ChangedByPeer(s: State, step: Step)
    requires Enabled(s, step) && step.PeerHandles? && ServerGenuine(s, ServerOf(s, step.host))
    ensures ServerGenuine(Apply(s, step), Apply(s, step).servers[step.host])
  {
    var s', srv := Apply(s, step), ServerOf(s, step.host);
    ServerGrows(s, s', srv);
    assert ClosureGenuine(s', srv.closures[step.call], srv.forwarder.calls[step.call].msg, step.call in srv.forwarder.acked);
    PeerKeepsServer(s', srv, step.call, step.ok, if step.published then Some(|s.slots|) else None);
  }

  lemma ChangedByRead(s: State, step: Step)
    requires Enabled(s, step) && step.ReadAnswer? && ServerGenuine(s, ServerOf(s, step.host))
    ensures ServerGenuine(Apply(s, step), Apply(s, step).servers[step.host])
  {
    ReadKeepsServer(s, ServerOf(s, step.host), step.answer);
    ServerGrows(s, Apply(s, step), Apply(s, step).servers[step.host]);
  }

  lemma ChangedServerGenuine(s: State, step: Step, h: Host)
    requires GenuineInv(s) && ServerGenuine(s, ServerOf(s, h)) && Enabled(s, step) && h in Apply(s, step).servers
    requires h !in s.servers || Apply(s, step).servers[h] != s.servers[h]
    ensures ServerGenuine(Apply(s, step), Apply(s, step).servers[h])
  {
    match step {
      case Request(w, peer, dialOk) => ChangedByRequest(s, w, peer, dialOk, h);
      case PeerHandles(_, _, _, _, _) => ChangedByPeer(s, step);
      case ReadAnswer(_, _, _) => ChangedByRead(s, step);
      case _ =>
    }
  }

  /**
  The callback an answer runs is that of the call answered, so it is told of success
  only when the peer has published a copy of its message.
  */
  lemma ReadWorkGenuine(s: State, srv: Server, answer: nat)
    requires ServerGenuine(s, srv) && answer < |srv.forwarder.answers|
    ensures var fwd' := Forwarder.Apply(srv.forwarder, Forwarder.ReadAnswer(answer));
            |fwd'.table.ran| > |srv.forwarder.table.ran| ==>
              var ran := fwd'.table.ran[|fwd'.table.ran| - 1];
              && ran.call < |srv.closures|
              && var closure := srv.closures[ran.call];
                 WorkGenuine(s, if ran.ok then Replaced(closure.slot, closure.copy) else Failing(closure.slot, closure.record))
  {
    var fwd' := Forwarder.Apply(srv.forwarder, Forwarder.ReadAnswer(answer));
    Forwarder.InvKept(srv.forwarder, Forwarder.ReadAnswer(answer));
    if |fwd'.table.ran| > |srv.forwarder.table.ran| {
      var c := fwd'.table.ran[|fwd'.table.ran| - 1].call;
      assert ClosureGenuine(s, srv.closures[c], srv.forwarder.calls[c].msg, c in srv.forwarder.acked);
    }
  }

  lemma TakenWorkGenuine(s: State, w: WorkId, slot: nat)
    requires GenuineInv(s) && Enabled(s, Take(w, slot)) && w in Apply(s, Take(w, slot)).works
    ensures WorkGenuine(s, Apply(s, Take(w, slot)).works[w])
  {
    assert Genuine(s, s.slots[slot]);
  }

  lemma MovedWorkGenuine(s: State, w: WorkId, slot: nat, found: Host)
    requires GenuineInv(s) && Enabled(s, Transfer(w, slot, found, true))
    ensures WorkGenuine(Apply(s, Transfer(w, slot, found, true)), Replaced(slot, Some(|s.slots|)))
  {
    assert Genuine(s, s.slots[slot]);
  }

  lemma LocalWorkGenuine(s: State, w: WorkId, found: Host, ok: bool)
    requires GenuineInv(s) && Enabled(s, PublishLocally(w, found, ok))
    ensures WorkGenuine(Apply(s, PublishLocally(w, found, ok)), Apply(s, PublishLocally(w, found, ok)).works[w])
  {
    assert WorkGenuine(s, s.works[w]);
  }

  lemma ReadAnswerWorkGenuine(s: State, host: Host, answer: nat, w: WorkId)
    requires SentInv(s) && Enabled(s, ReadAnswer(host, answer, w)) && w in Apply(s, ReadAnswer(host, answer, w)).works
    ensures WorkGenuine(s, Apply(s, ReadAnswer(host, answer, w)).works[w])
  {
    ServerOfGenuine(s, host);
    ReadWorkGenuine(s, ServerOf(s, host), answer);
  }

  lemma FailingWorkGenuine(s: State, step: Step, w: WorkId)
    requires GenuineInv(s) && Enabled(s, step) && (step.Request? || step.FailTaken?) && w == step.w && w in Apply(s, step).works
    ensures WorkGenuine(s, Apply(s, step).works[w])
  {
    assert WorkGenuine(s, s.works[w]);
  }

  lemma ChangedWorkGenuine(s: State, step: Step, w: WorkId)
    requires GenuineInv(s) && Enabled(s, step) && w in Apply(s, step).works && !step.ReadAnswer?
    requires w !in s.works || Apply(s, step).works[w] != s.works[w]
    ensures WorkGenuine(Apply(s, step), Apply(s, step).works[w])
  {
    HistoryGrows(s, step);
    match step {
      case Take(_, slot) =>
        TakenWorkGenuine(s, w, slot);
        WorkGrows(s, Apply(s, step), Apply(s, step).works[w]);
      case Transfer(_, slot, found, _) => MovedWorkGenuine(s, w, slot, found);
      case PublishLocally(_, found, ok) => LocalWorkGenuine(s, w, found, ok);
      case Request(_, _, _) =>
        FailingWorkGenuine(s, step, w);
        WorkGrows(s, Apply(s, step), Apply(s, step).works[w]);
      case FailTaken(_) =>
        FailingWorkGenuine(s, step, w);
        WorkGrows(s, Apply(s, step), Apply(s, step).works[w]);
      case FailMessage(_, _, _, _, _) => FailedWorkGenuine(s, step);
      case _ =>
    }
  }

  lemma SentGenuine(s: State, step: Step)
    requires GenuineInv(s) && Enabled(s, step)
    ensures var s' := Apply(s, step);
            s'.requests == s.requests ||
            (|s'.requests| == |s.requests| + 1 && s.requests <= s'.requests && RequestGenuine(s, s'.requests[|s.requests|]))
  {
    if step.Request? { assert WorkGenuine(s, s.works[step.w]); }
  }

  lemma PublishesOne(s: State, step: Step)
    requires Enabled(s, step)
    ensures |Apply(s, step).slots| <= |s.slots| + 1
  {}

  lemma GenuineInvKept(s: State, step: Step)
    requires GenuineInv(s) && SentInv(s) && Enabled(s, step)
    ensures GenuineInv(Apply(s, step)) && Grows(s, Apply(s, step))
  {
    HistoryGrows(s, step);
    PublishesOne(s, step);
    if |Apply(s, step).slots| > |s.slots| { PublishedGenuine(s, step); }
    forall w | w in Apply(s, step).works && (w !in s.works || Apply(s, step).works[w] != s.works[w])
      ensures WorkGenuine(Apply(s, step), Apply(s, step).works[w])
    {
      if step.ReadAnswer? {
        ReadAnswerWorkGenuine(s, step.host, step.answer, w);
        WorkGrows(s, Apply(s, step), Apply(s, step).works[w]);
      } else {
        ChangedWorkGenuine(s, step, w);
      }
    }
    GenuineFrom(s, Apply(s, step));
  }

  lemma SentInvKept(s: State, step: Step)
    requires GenuineInv(s) && SentInv(s) && Enabled(s, step)
    ensures SentInv(Apply(s, step))
  {
    HistoryGrows(s, step);
    forall h | h in Apply(s, step).servers && (h !in s.servers || Apply(s, step).servers[h] != s.servers[h])
      ensures ServerGenuine(Apply(s, step), Apply(s, step).servers[h])
    {
      ServerOfGenuine(s, h);
      ChangedServerGenuine(s, step, h);
    }
    SentGenuine(s, step);
    SentFrom(s, Apply(s, step));
  }

  /** What a step does not change stays genuine. */
  lemma GenuineFrom(s: State, s': State)
    requires GenuineInv(s) && Grows(s, s')
    requires |s'.slots| <= |s.slots| + 1 && (|s'.slots| > |s.slots| ==> Genuine(s', s'.slots[|s.slots|]))
    requires forall w :: w in s'.works && (w !in s.works || s'.works[w] != s.works[w]) ==> WorkGenuine(s', s'.works[w])
    ensures GenuineInv(s')
  {
    forall i | 0 <= i < |s'.slots| ensures Genuine(s', s'.slots[i]) {
      if i < |s.slots| { SlotGrows(s, s', s.slots[i]); }
    }
    forall w | w in s'.works ensures WorkGenuine(s', s'.works[w]) {
      if w in s.works && s'.works[w] == s.works[w] { WorkGrows(s, s', s.works[w]); }
    }
  }

  lemma SentFrom(s: State, s': State)
    requires SentInv(s) && Grows(s, s')
    requires forall h :: h in s'.servers && (h !in s.servers || s'.servers[h] != s.servers[h]) ==> ServerGenuine(s', s'.servers[h])
    requires s'.requests == s.requests ||
             (|s'.requests| == |s.requests| + 1 && s.requests <= s'.requests && RequestGenuine(s, s'.requests[|s.requests|]))
    ensures SentInv(s')
  {
    forall h | h in s'.servers ensures ServerGenuine(s', s'.servers[h]) {
      if h in s.servers && s'.servers[h] == s.servers[h] { ServerGrows(s, s', s.servers[h]); }
    }
  }

  lemma FailedWorkGenuine(s: State, step: Step)
    requires GenuineInv(s) && Enabled(s, step) && step.FailMessage? && step.w in Apply(s, step).works
    ensures WorkGenuine(Apply(s, step), Apply(s, step).works[step.w])
  {}

  // ----- what the history records -----

  /** What a step adds to the history is what happened. */
  ghost predicate Records(s: State, step: Step, s': State) {
    && (forall r :: r in s'.receipts && r !in s.receipts ==>
          && step.Receive? && step.slot < |s.slots| && s.slots[step.slot].topic == DeviceTopic(r.addr)
          && r.token == s.slots[step.slot].token && r.data == s.slots[step.slot].data && step.slot !in s'.unacked)
    && (forall d :: d in s'.discards && d !in s.discards ==>
          && step.Finish? && step.w in s.works && s.works[step.w].slot < |s.slots|
          && d.token == s.slots[s.works[step.w].slot].token && s.works[step.w] == Expired(s.works[step.w].slot, d.first, d.at))
    && (forall f :: f in s'.failures && f !in s.failures ==>
          && step.FailMessage? && step.w in s.works && s.works[step.w].slot < |s.slots|
          && f.token == s.slots[s.works[step.w].slot].token && f.millis == step.marked / 1_000_000)
    && (s'.sent != s.sent ==> step.Submit? && s'.sent == s.sent + [step.msg])
    && (forall i :: i in s.unacked && i !in s'.unacked ==>
          || step == Receive(i)
          || (step.Take? && step.slot == i && i < |s.slots| && Unmarshal(s.slots[i].data).None?)
          || (step.Finish? && step.w in s.works && s.works[step.w].slot == i))
  }

  /**
  What the theorems call received, discarded, failed and submitted is what happened: a
  receipt stands for a client acknowledging that slot of its device's topic, a discard
  for a worker finishing with an expired record, a failure for an attempt marked then;
  and a slot leaves its topic only so, or because a worker finished with it.
  */
  lemma HistoryIsReal(trace: seq<State>, steps: seq<Step>, i: nat)
    requires IsRun(trace, steps) && i < |steps|
    ensures Records(trace[i], steps[i], trace[i + 1])
  {
    RecordsReal(trace[i], steps[i]);
  }

  lemma RecordsReal(s: State, step: Step)
    requires Enabled(s, step)
    ensures Records(s, step, Apply(s, step))
  {}

  /**
  Whatever reports an error leaves the source unacknowledged: the attempt fails, or the
  worker ends without an ack. A publish that reports none is followed by the ack.
  */
  lemma ErrorsKeepSource(s: State, step: Step)
    requires Enabled(s, step)
    ensures (step.PublishLocally? || step.FailMessage?) && step.ok ==>
              && step.w in Apply(s, step).works
              && (Apply(s, step).works[step.w] == Replaced(s.works[step.w].slot, Some(|s.slots|)) ||
                  Apply(s, step).works[step.w].Expired?)
    ensures step.Transfer? && step.ok ==> Apply(s, step).works == s.works[step.w := Replaced(step.slot, Some(|s.slots|))]
    ensures step.PublishLocally? && !step.ok ==>
              Apply(s, step).works == s.works[step.w := Failing(s.works[step.w].slot, s.works[step.w].record)]
    ensures step.FailMessage? && !step.ok ==>
              step.w !in Apply(s, step).works || Apply(s, step).works[step.w].Expired?
    ensures step.Transfer? && !step.ok ==> Apply(s, step).works == s.works
    ensures step.ReadAnswer? && !ForwarderOf(s, step.host).answers[step.answer].ok ==>
              step.w !in Apply(s, step).works || Apply(s, step).works[step.w].Failing?
  {}

  // ----- conservation -----

  /** Slot i is the newest of its token. */
  ghost predicate Newest(s: State, i: nat, token: nat) {
    && i < |s.slots| && s.slots[i].token == token
    && forall j :: i < j < |s.slots| ==> s.slots[j].token != token
  }

  ghost predicate NewestUnacked(s: State, token: nat) {
    exists i :: i in s.unacked && Newest(s, i, token)
  }

  ghost predicate WasReceived(s: State, token: nat) {
    token < |s.sent| && Receipt(token, s.sent[token].to, s.sent[token].body) in s.receipts
  }

  ghost predicate WasDiscarded(s: State, token: nat) {
    exists d :: d in s.discards && d.token == token
  }

  ghost predicate Settled(s: State, token: nat) {
    WasReceived(s, token) || WasDiscarded(s, token)
  }

  /** The newest copy of a submission is still on its topic, unless the submission is settled. */
  ghost predicate Conserved(s: State) {
    forall t :: 0 <= t < |s.sent| ==> NewestUnacked(s, t) || Settled(s, t)
  }

  ghost predicate DiscardInv(s: State) {
    forall d :: d in s.discards ==> DurationSince(d.first, d.at) > s.timeout && Failed(d.token, d.first) in s.failures
  }

  lemma PublishConserves(s: State, slot: Slot, t: nat)
    requires NewestUnacked(s, t) || slot.token == t
    ensures NewestUnacked(Publish(s, slot), t)
  {}

  /** Acknowledging a slot conserves a submission if a newer copy exists or the submission is settled. */
  lemma AckConserves(s: State, s': State, slot: nat, t: nat)
    requires NewestUnacked(s, t)
    requires s'.slots == s.slots && s'.unacked == s.unacked - {slot}
    requires slot < |s.slots| && (s.slots[slot].token != t || exists c :: slot < c < |s.slots| && s.slots[c].token == t)
    ensures NewestUnacked(s', t)
  {
    var i :| i in s.unacked && Newest(s, i, t);
    assert Newest(s', i, t);
  }

  lemma SettledGrows(s: State, s': State, t: nat)
    requires Grows(s, s') && s.receipts <= s'.receipts && s.discards <= s'.discards && Settled(s, t)
    ensures Settled(s', t)
  {}

  lemma SameSlots(s: State, s': State, t: nat)
    requires s'.slots == s.slots && s'.unacked == s.unacked && NewestUnacked(s, t)
    ensures NewestUnacked(s', t)
  {}

  lemma PublishingConserves(s: State, s': State, t: nat)
    requires NewestUnacked(s, t) && |s'.slots| == |s.slots| + 1
    requires s'.slots == Publish(s, s'.slots[|s.slots|]).slots && s'.unacked == Publish(s, s'.slots[|s.slots|]).unacked
    ensures NewestUnacked(s', t)
  {
    PublishConserves(s, s'.slots[|s.slots|], t);
    SameSlots(Publish(s, s'.slots[|s.slots|]), s', t);
  }

  lemma PublishesIntact(s: State, step: Step)
    requires Enabled(s, step) && |Apply(s, step).slots| > |s.slots|
    ensures var s' := Apply(s, step);
            s'.slots == s.slots + [s'.slots[|s.slots|]] && s'.unacked == s.unacked + {|s.slots|}
  {}

  lemma StepConserves(s: State, step: Step, t: nat)
    requires GenuineInv(s) && Enabled(s, step)
    requires t < |s.sent| && (NewestUnacked(s, t) || Settled(s, t))
    ensures NewestUnacked(Apply(s, step), t) || Settled(Apply(s, step), t)
  {
    var s' := Apply(s, step);
    HistoryGrows(s, step);
    PublishesOne(s, step);
    if Settled(s, t) {
      SettledGrows(s, s', t);
    } else if |s'.slots| > |s.slots| {
      PublishesIntact(s, step);
      PublishingConserves(s, s', t);
    } else {
      match step {
        case Take(w, slot) =>
          assert Genuine(s, s.slots[slot]);
          SameSlots(s, s', t);
        case Finish(w) => FinishConserves(s, w, t);
        case Receive(slot) => ReceiveConserves(s, slot, t);
        case _ =>
          QuietStep(s, step);
          SameSlots(s, s', t);
      }
    }
  }

  lemma QuietStep(s: State, step: Step)
    requires Enabled(s, step) && |Apply(s, step).slots| == |s.slots| && !step.Take? && !step.Finish? && !step.Receive?
    ensures Apply(s, step).slots == s.slots && Apply(s, step).unacked == s.unacked
  {}

  lemma ReceiveConserves(s: State, slot: nat, t: nat)
    requires GenuineInv(s) && Enabled(s, Receive(slot)) && NewestUnacked(s, t)
    ensures NewestUnacked(Apply(s, Receive(slot)), t) || Settled(Apply(s, Receive(slot)), t)
  {
    assert Genuine(s, s.slots[slot]);
    if s.slots[slot].token != t { AckConserves(s, Apply(s, Receive(slot)), slot, t); }
  }

  lemma FinishConserves(s: State, w: WorkId, t: nat)
    requires GenuineInv(s) && Enabled(s, Finish(w)) && NewestUnacked(s, t)
    ensures NewestUnacked(Apply(s, Finish(w)), t) || Settled(Apply(s, Finish(w)), t)
  {
    var s' := Apply(s, Finish(w));
    var work := s.works[w];
    assert WorkGenuine(s, work);
    if work.Expired? && s.slots[work.slot].token == t {
      assert Discard(t, work.first, work.at) in s'.discards;
    } else {
      AckConserves(s, s', work.slot, t);
    }
  }

  lemma ConservedKept(s: State, step: Step)
    requires GenuineInv(s) && Conserved(s) && Enabled(s, step)
    ensures Conserved(Apply(s, step))
  {
    var s' := Apply(s, step);
    forall t | 0 <= t < |s'.sent| ensures NewestUnacked(s', t) || Settled(s', t) {
      if t < |s.sent| {
        StepConserves(s, step, t);
      } else {
        assert Newest(s', |s.slots|, t);
      }
    }
  }

  lemma DiscardInvKept(s: State, step: Step)
    requires GenuineInv(s) && DiscardInv(s) && Enabled(s, step)
    ensures DiscardInv(Apply(s, step))
  {}

  lemma {:induction false} InvInRuns(trace: seq<State>, steps: seq<Step>, i: nat)
    requires IsRun(trace, steps) && i < |trace|
    ensures GenuineInv(trace[i]) && SentInv(trace[i]) && Conserved(trace[i]) && DiscardInv(trace[i])
    ensures trace[i].timeout == trace[0].timeout
  {
    if i > 0 {
      InvInRuns(trace, steps, i - 1);
      GenuineInvKept(trace[i - 1], steps[i - 1]);
      SentInvKept(trace[i - 1], steps[i - 1]);
      ConservedKept(trace[i - 1], steps[i - 1]);
      DiscardInvKept(trace[i - 1], steps[i - 1]);
    }
  }

  /**
  Conservation, in every reachable state of any number of servers, each of which builds
  fewer than 2^32 requests between two starts: a submission acked to its sender has an unacknowledged copy on some topic of some server, or its
  addressee's client acknowledged exactly its bytes, or it was discarded more than the
  forwarding timeout after an attempt of it really failed.
  */
  lemma Conservation(trace: seq<State>, steps: seq<Step>, i: nat, t: nat)
    requires IsRun(trace, steps) && i < |trace| && t < |trace[i].sent|
    ensures var s := trace[i];
            || (exists k :: k in s.unacked && k < |s.slots| && s.slots[k].token == t && Genuine(s, s.slots[k]))
            || Receipt(t, s.sent[t].to, s.sent[t].body) in s.receipts
            || (exists d :: d in s.discards && d.token == t && DurationSince(d.first, d.at) > trace[0].timeout &&
                  Failed(t, d.first) in s.failures)
  {
    InvInRuns(trace, steps, i);
    var s := trace[i];
    if NewestUnacked(s, t) {
      var k :| k in s.unacked && Newest(s, k, t);
      assert Genuine(s, s.slots[k]);
    } else if WasDiscarded(s, t) {
      var d :| d in s.discards && d.token == t;
    }
  }

  /**
  No fabrication or misrouting: through any chain of hops, retries and transfers,
  everything on a device topic is the sealed bytes of a submission to that device,
  published on the server where presence placed the device, and so is everything a
  client acknowledged; everything on the forwarding topics unmarshals to a record of a
  submission, so the malformed-record branch never runs, and is on a forwarding topic
  only of a server where presence did not place the device.
  */
  lemma NoFabrication(trace: seq<State>, steps: seq<Step>, i: nat)
    requires IsRun(trace, steps) && i < |trace|
    ensures var s := trace[i];
            && (forall k :: 0 <= k < |s.slots| ==>
                  && s.slots[k].token < |s.sent|
                  && var msg := s.sent[s.slots[k].token];
                     match s.slots[k].topic
                     case DeviceTopic(addr) => Outbound(addr, s.slots[k].data) == msg && s.slots[k].placed == Some(s.slots[k].host)
                     case _ =>
                       && s.slots[k].data.Marshalled? && s.slots[k].data.record.message == msg
                       && (s.slots[k].topic == ForwardingTopic ==>
                             s.slots[k].placed.Some? && s.slots[k].placed.value != s.slots[k].host))
            && (forall r :: r in s.receipts ==> r.token < |s.sent| && Outbound(r.addr, r.data) == s.sent[r.token])
  {
    ReceiptsGenuine(trace, steps, i);
    InvInRuns(trace, steps, i);
    var s := trace[i];
    forall k | 0 <= k < |s.slots| ensures Genuine(s, s.slots[k]) {}
  }

  lemma {:induction false} ReceiptsGenuine(trace: seq<State>, steps: seq<Step>, i: nat)
    requires IsRun(trace, steps) && i < |trace|
    ensures var s := trace[i];
            forall r :: r in s.receipts ==> r.token < |s.sent| && Outbound(r.addr, r.data) == s.sent[r.token]
  {
    if i > 0 {
      ReceiptsGenuine(trace, steps, i - 1);
      InvInRuns(trace, steps, i - 1);
      var s, step := trace[i - 1], steps[i - 1];
      GenuineInvKept(s, step);
      if step.Receive? { assert Genuine(s, s.slots[step.slot]); }
    }
  }
}
