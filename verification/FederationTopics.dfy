/**
The federation's steps seen topic by topic: each acts on the topics of the servers as
publishing and acknowledging act on the topics of the in-memory broker, and a worker
that is not interfered with does what the forwarding loop does.
*/
module FederationTopics {
  import opened Wrappers
  import opened Messages
  import opened Federation
  import Forwarder
  import Broker = MemBroker

  predicate IsOn(slot: Slot, host: Host, topic: Topic) {
    slot.host == host && slot.topic == topic
  }

  /** A topic as the broker keeps it: its messages numbered in the order they were published on it. */
  function TopicFrom(slots: seq<Slot>, unacked: set<nat>, host: Host, topic: Topic): Broker.TopicState {
    if slots == [] then Broker.TopicState(0, map[])
    else
      var i := |slots| - 1;
      var before := TopicFrom(slots[..i], unacked, host, topic);
      if !IsOn(slots[i], host, topic) then before
      else if i in unacked then Broker.Published(before, slots[i].data)
      else before.(next := before.next + 1)
  }

  function TopicOf(s: State, host: Host, topic: Topic): Broker.TopicState {
    TopicFrom(s.slots, s.unacked, host, topic)
  }

  /** The number of a slot on its topic. */
  function NumberOf(s: State, i: nat): nat
    requires i < |s.slots|
  {
    TopicFrom(s.slots[..i], s.unacked, s.slots[i].host, s.slots[i].topic).next
  }

  lemma {:induction false} NumbersAreBelow(slots: seq<Slot>, unacked: set<nat>, host: Host, topic: Topic)
    ensures forall id :: id in TopicFrom(slots, unacked, host, topic).messages ==> id < TopicFrom(slots, unacked, host, topic).next
  {
    if slots != [] {
      var before := TopicFrom(slots[..|slots| - 1], unacked, host, topic);
      NumbersAreBelow(slots[..|slots| - 1], unacked, host, topic);
      assert forall id :: id in before.messages ==> id < before.next;
    }
  }

  /** Only the slots of a topic matter, and whether they are acknowledged. */
  lemma {:induction false} SameBelow(slots: seq<Slot>, u: set<nat>, v: set<nat>, host: Host, topic: Topic)
    requires forall i :: 0 <= i < |slots| ==> (i in u <==> i in v)
    ensures TopicFrom(slots, u, host, topic) == TopicFrom(slots, v, host, topic)
  {
    if slots != [] { SameBelow(slots[..|slots| - 1], u, v, host, topic); }
  }

  lemma PublishActs(s: State, slot: Slot, host: Host, topic: Topic)
    requires forall i :: i in s.unacked ==> i < |s.slots|
    ensures TopicOf(Publish(s, slot), host, topic) ==
            if IsOn(slot, host, topic) then Broker.Published(TopicOf(s, host, topic), slot.data) else TopicOf(s, host, topic)
  {
    var s' := Publish(s, slot);
    assert s'.slots[..|s.slots|] == s.slots;
    SameBelow(s.slots, s.unacked, s'.unacked, host, topic);
  }

  lemma {:induction false} AckActsFrom(slots: seq<Slot>, unacked: set<nat>, i: nat, host: Host, topic: Topic)
    requires i < |slots|
    ensures var t, t' := TopicFrom(slots, unacked, host, topic), TopicFrom(slots, unacked - {i}, host, topic);
            && t' == (if IsOn(slots[i], host, topic)
                      then Broker.Acked(t, TopicFrom(slots[..i], unacked, host, topic).next) else t)
            && (IsOn(slots[i], host, topic) ==> TopicFrom(slots[..i], unacked, host, topic).next < t.next)
  {
    var n := |slots| - 1;
    if i < n {
      assert slots[..n][..i] == slots[..i];
      AckActsFrom(slots[..n], unacked, i, host, topic);
    } else {
      AckLastActs(slots, unacked, host, topic);
    }
  }

  lemma AckLastActs(slots: seq<Slot>, unacked: set<nat>, host: Host, topic: Topic)
    requires slots != []
    ensures var i := |slots| - 1;
            var t, t' := TopicFrom(slots, unacked, host, topic), TopicFrom(slots, unacked - {i}, host, topic);
            t' == if IsOn(slots[i], host, topic) then Broker.Acked(t, TopicFrom(slots[..i], unacked, host, topic).next) else t
  {
    var i := |slots| - 1;
    SameBelow(slots[..i], unacked, unacked - {i}, host, topic);
    NumbersAreBelow(slots[..i], unacked, host, topic);
  }

  lemma AckActs(s: State, s': State, i: nat, host: Host, topic: Topic)
    requires i < |s.slots| && s'.slots == s.slots && s'.unacked == s.unacked - {i}
    ensures TopicOf(s', host, topic) ==
            if IsOn(s.slots[i], host, topic) then Broker.Acked(TopicOf(s, host, topic), NumberOf(s, i)) else TopicOf(s, host, topic)
  {
    AckActsFrom(s.slots, s.unacked, i, host, topic);
  }

  // ----- every step -----

  ghost predicate UnackedInv(s: State) {
    forall i :: i in s.unacked ==> i < |s.slots|
  }

  /** A topic before and after a step that publishes at most one message and acknowledges at most one. */
  ghost predicate Acts(s: State, s': State, published: Option<Slot>, acked: Option<nat>) {
    && (acked.Some? ==> acked.value < |s.slots|)
    && forall host, topic ::
         var t := TopicOf(s, host, topic);
         var t1 := if published.Some? && IsOn(published.value, host, topic) then Broker.Published(t, published.value.data) else t;
         TopicOf(s', host, topic) ==
         if acked.Some? && IsOn(s.slots[acked.value], host, topic) then Broker.Acked(t1, NumberOf(s, acked.value)) else t1
  }

  lemma PublishOnly(s: State, s': State, slot: Slot)
    requires UnackedInv(s) && s'.slots == Publish(s, slot).slots && s'.unacked == Publish(s, slot).unacked
    ensures Acts(s, s', Some(slot), None) && UnackedInv(s')
  {
    forall host, topic
      ensures TopicOf(s', host, topic) ==
              if IsOn(slot, host, topic) then Broker.Published(TopicOf(s, host, topic), slot.data) else TopicOf(s, host, topic)
    {
      PublishActs(s, slot, host, topic);
    }
  }

  lemma AckOnly(s: State, s': State, i: nat)
    requires UnackedInv(s) && i < |s.slots| && s'.slots == s.slots && s'.unacked == s.unacked - {i}
    ensures Acts(s, s', None, Some(i)) && UnackedInv(s')
  {
    forall host, topic
      ensures TopicOf(s', host, topic) ==
              if IsOn(s.slots[i], host, topic) then Broker.Acked(TopicOf(s, host, topic), NumberOf(s, i)) else TopicOf(s, host, topic)
    {
      AckActs(s, s', i, host, topic);
    }
  }

  /** The sealed bytes, on the addressee's topic, exactly if that is where it was found; otherwise a record to be forwarded. */
  predicate IsRouted(slot: Slot, host: Host, msg: Outbound, found: Host) {
    slot.host == host &&
    if found == host then slot.topic == DeviceTopic(msg.to) && slot.data == msg.body
    else slot.topic == ForwardingTopic && slot.data == Marshalled(Forwarded(msg, 0, 0))
  }

  /** A request goes to the host presence named, with the message of the record, and so do the requests left on the wire. */
  lemma RequestGoesTo(s: State, w: WorkId, found: Host, dialOk: bool)
    requires Enabled(s, Request(w, found, dialOk))
    ensures var s', work := Apply(s, Request(w, found, dialOk)), s.works[w];
            var host := s.slots[work.slot].host;
            var calls, calls' := ForwarderOf(s, host).calls, ForwarderOf(s', host).calls;
            && found != host && |calls'| == |calls| + 1 && calls <= calls'
            && ServerOf(s', host).closures == ServerOf(s, host).closures + [Closure(work.slot, work.record, None)]
            && calls'[|calls|].host == found && calls'[|calls|].msg == work.record.message
            && (if found in ForwarderOf(s, host).table.conns || dialOk
                then w !in s'.works && s'.requests == s.requests + [Requested(work.slot, found, work.record.message)]
                else w in s'.works && s'.works[w] == Failing(work.slot, work.record) && s'.requests == s.requests)
  {}

  /**
  Each step of the federation publishes on one topic and acknowledges on one topic, or
  does one of these or none, as the broker's topics do: submissions and peers' requests
  are published where the addressee was found to be; local delivery publishes the
  sealed bytes for the addressee; a failure publishes the marked record on the retry
  topic, unless it has been failing for too long or nothing is published; a transfer
  publishes the wrapped message on the forwarding topic; finishing acknowledges the
  source; receiving acknowledges on the device's topic.
  */
  lemma StepActs(s: State, step: Step)
    requires UnackedInv(s) && Enabled(s, step)
    ensures UnackedInv(Apply(s, step))
    ensures match step
            case PublishLocally(w, _, _) =>
              var from, msg := s.slots[s.works[w].slot], s.works[w].record.message;
              exists slot :: IsOn(slot, from.host, DeviceTopic(msg.to)) && slot.data == msg.body &&
                Acts(s, Apply(s, step), Some(slot), None)
            case FailMessage(w, marked, checked, published, _) =>
              var record := s.works[w].record;
              var first := if record.firstFailed == 0 then marked / 1_000_000 else record.firstFailed;
              if published && checked - first * 1_000_000 <= s.timeout then
                exists slot :: IsOn(slot, s.slots[s.works[w].slot].host, RetryTopic) &&
                  slot.data == Marshalled(Forwarded(record.message, first, marked / 1_000_000)) &&
                  Acts(s, Apply(s, step), Some(slot), None)
              else Acts(s, Apply(s, step), None, None)
            case Finish(w) => Acts(s, Apply(s, step), None, Some(s.works[w].slot))
            case Receive(slot) => Acts(s, Apply(s, step), None, Some(slot))
            case Transfer(w, i, _, _) =>
              exists slot :: IsOn(slot, s.slots[i].host, ForwardingTopic) &&
                slot.data == Marshalled(Forwarded(Outbound(s.slots[i].topic.addr, s.slots[i].data), 0, 0)) &&
                Acts(s, Apply(s, step), Some(slot), None)
            case Take(w, slot) =>
              Acts(s, Apply(s, step), None, if Unmarshal(s.slots[slot].data).None? then Some(slot) else None)
            case Submit(host, msg, found) =>
              exists slot :: IsRouted(slot, host, msg, found) && Acts(s, Apply(s, step), Some(slot), None)
            case PeerHandlesStray(request, found) =>
              exists slot :: IsRouted(slot, s.requests[request].peer, s.requests[request].message, found) &&
                Acts(s, Apply(s, step), Some(slot), None)
            case PeerHandles(host, call, found, published, _) =>
              if published then
                var sent := ForwarderOf(s, host).calls[call];
                exists slot :: IsRouted(slot, sent.host, sent.msg, found) && Acts(s, Apply(s, step), Some(slot), None)
              else Acts(s, Apply(s, step), None, None)
            case _ => Acts(s, Apply(s, step), None, None)
  {
    var s' := Apply(s, step);
    if |s'.slots| > |s.slots| {
      PublishOnly(s, s', s'.slots[|s.slots|]);
    } else {
      match step {
        case Take(_, slot) => if Unmarshal(s.slots[slot].data).None? { AckOnly(s, s', slot); }
        case Finish(w) => AckOnly(s, s', s.works[w].slot);
        case Receive(slot) => AckOnly(s, s', slot);
        case _ =>
      }
    }
  }

  /** In every reachable state all this applies. */
  lemma {:induction false} ReachableTopics(trace: seq<State>, steps: seq<Step>, i: nat)
    requires IsRun(trace, steps) && i < |trace|
    ensures UnackedInv(trace[i])
    ensures forall host :: |ServerOf(trace[i], host).closures| == |ForwarderOf(trace[i], host).calls|
  {
    InvInRuns(trace, steps, i);
    forall host ensures |ServerOf(trace[i], host).closures| == |ForwarderOf(trace[i], host).calls| {
      ServerOfGenuine(trace[i], host);
    }
    if i > 0 {
      ReachableTopics(trace, steps, i - 1);
      StepActs(trace[i - 1], steps[i - 1]);
    }
  }

  // ----- a worker that is not interfered with -----

  ghost predicate Runs(s: State, steps: seq<Step>, s': State)
    decreases |steps|
  {
    if steps == [] then s' == s
    else Enabled(s, steps[0]) && Runs(Apply(s, steps[0]), steps[1..], s')
  }

  lemma {:induction false} RunsSnoc(s: State, steps: seq<Step>, s1: State, step: Step)
    requires Runs(s, steps, s1) && Enabled(s1, step)
    ensures Runs(s, steps + [step], Apply(s1, step))
    decreases |steps|
  {
    if steps == [] {
      assert [step][1..] == [];
    } else {
      RunsSnoc(Apply(s, steps[0]), steps[1..], s1, step);
      assert (steps + [step])[1..] == steps[1..] + [step];
    }
  }

  /** What a topic is to the message in a slot. */
  function RoleOf(from: Slot, to: Address, host: Host, topic: Topic): Broker.Role {
    Broker.Role(IsOn(from, host, topic), host == from.host && topic == RetryTopic, host == from.host && topic == DeviceTopic(to))
  }

  /** On every topic of the server, s' is s after the message in slot i has met its fate. */
  ghost predicate MeetsFate(s: State, s': State, i: nat, to: Address, fate: Broker.Fate)
    requires i < |s.slots|
  {
    var from := s.slots[i];
    forall topic :: TopicOf(s', from.host, topic) ==
      Broker.AfterFate(TopicOf(s, from.host, topic), RoleOf(from, to, from.host, topic), NumberOf(s, i), fate)
  }

  lemma NumberKept(s: State, s': State, i: nat)
    requires i < |s.slots| && s.slots <= s'.slots
    requires forall k :: 0 <= k < i ==> (k in s.unacked <==> k in s'.unacked)
    ensures NumberOf(s', i) == NumberOf(s, i)
  {
    assert s'.slots[..i] == s.slots[..i];
    SameBelow(s.slots[..i], s.unacked, s'.unacked, s.slots[i].host, s.slots[i].topic);
  }

  /** The worker takes the message: nothing changes on any topic. */
  lemma TakeRuns(s: State, w: WorkId, i: nat, record: Forwarded) returns (s1: State)
    requires UnackedInv(s) && w !in s.works && OnForwarding(s, i) && Unmarshal(s.slots[i].data) == Some(record)
    ensures Runs(s, [Take(w, i)], s1) && s1 == s.(works := s.works[w := Taken(i, record)])
  {
    s1 := Apply(s, Take(w, i));
    RunsSnoc(s, [], s, Take(w, i));
    assert [] + [Take(w, i)] == [Take(w, i)];
  }

  /** The worker, having published a copy or given up, acknowledges the source. */
  lemma FinishRuns(s: State, steps: seq<Step>, s1: State, w: WorkId, i: nat) returns (s2: State)
    requires Runs(s, steps, s1) && UnackedInv(s1) && i < |s.slots| && s.slots <= s1.slots
    requires forall k :: 0 <= k < i ==> (k in s.unacked <==> k in s1.unacked)
    requires w in s1.works && (s1.works[w].Replaced? || s1.works[w].Expired?) && s1.works[w].slot == i
    ensures Runs(s, steps + [Finish(w)], s2)
    ensures forall host, topic :: TopicOf(s2, host, topic) ==
              if IsOn(s.slots[i], host, topic) then Broker.Acked(TopicOf(s1, host, topic), NumberOf(s, i)) else TopicOf(s1, host, topic)
  {
    s2 := Apply(s1, Finish(w));
    StepActs(s1, Finish(w));
    NumberKept(s, s1, i);
    RunsSnoc(s, steps, s1, Finish(w));
  }

  lemma MalformedRuns(s: State, w: WorkId, i: nat, to: Address) returns (steps: seq<Step>, s': State)
    requires UnackedInv(s) && w !in s.works && OnForwarding(s, i) && Unmarshal(s.slots[i].data).None?
    ensures Runs(s, steps, s') && MeetsFate(s, s', i, to, Broker.Malformed)
  {
    steps, s' := [] + [Take(w, i)], Apply(s, Take(w, i));
    StepActs(s, Take(w, i));
    RunsSnoc(s, [], s, Take(w, i));
  }

  lemma LocalRuns(s: State, w: WorkId, i: nat, record: Forwarded) returns (steps: seq<Step>, s': State)
    requires UnackedInv(s) && w !in s.works && OnForwarding(s, i) && Unmarshal(s.slots[i].data) == Some(record)
    ensures Runs(s, steps, s') && MeetsFate(s, s', i, record.message.to, Broker.PublishedHere(record.message.body))
  {
    var s1 := TakeRuns(s, w, i, record);
    var s2 := Apply(s1, PublishLocally(w, s.slots[i].host, true));
    StepActs(s1, PublishLocally(w, s.slots[i].host, true));
    RunsSnoc(s, [Take(w, i)], s1, PublishLocally(w, s.slots[i].host, true));
    steps := [Take(w, i)] + [PublishLocally(w, s.slots[i].host, true)];
    s' := FinishRuns(s, steps, s2, w, i);
    steps := steps + [Finish(w)];
  }

  lemma FailingRuns(s: State, w: WorkId, i: nat, record: Forwarded) returns (steps: seq<Step>, s1: State)
    requires UnackedInv(s) && w !in s.works && OnForwarding(s, i) && Unmarshal(s.slots[i].data) == Some(record)
    ensures Runs(s, steps, s1) && s1 == s.(works := s.works[w := Failing(i, record)])
  {
    s1 := TakeRuns(s, w, i, record);
    RunsSnoc(s, [Take(w, i)], s1, FailTaken(w));
    steps, s1 := [Take(w, i)] + [FailTaken(w)], Apply(s1, FailTaken(w));
  }

  /** failMessage up to the ack of the source. */
  lemma FailActs(s: State, w: WorkId, i: nat, record: Forwarded, marked: nat, checked: nat, retryOk: bool) returns (s': State)
    requires UnackedInv(s) && i < |s.slots| && w in s.works && s.works[w] == Failing(i, record) && marked >= NANOS_PER_MILLI
    ensures var step := FailMessage(w, marked, checked, retryOk, retryOk);
            Enabled(s, step) && s' == Apply(s, step) && UnackedInv(s') && s.slots <= s'.slots
    ensures forall k :: 0 <= k < |s.slots| ==> (k in s.unacked <==> k in s'.unacked)
    ensures var fate := Broker.FailedFate(record, marked, checked, retryOk, s.timeout);
            && (!fate.Stuck? ==> w in s'.works && (s'.works[w].Replaced? || s'.works[w].Expired?) && s'.works[w].slot == i)
            && forall host, topic :: TopicOf(s', host, topic) ==
                 if fate.Retried? && host == s.slots[i].host && topic == RetryTopic
                 then Broker.Published(TopicOf(s, host, topic), Marshalled(fate.record)) else TopicOf(s, host, topic)
  {
    s' := Apply(s, FailMessage(w, marked, checked, retryOk, retryOk));
    StepActs(s, FailMessage(w, marked, checked, retryOk, retryOk));
  }

  lemma FailureRuns(s: State, w: WorkId, i: nat, record: Forwarded, marked: nat, checked: nat, retryOk: bool)
    returns (steps: seq<Step>, s': State)
    requires UnackedInv(s) && w !in s.works && OnForwarding(s, i) && Unmarshal(s.slots[i].data) == Some(record)
    requires marked >= NANOS_PER_MILLI
    ensures Runs(s, steps, s')
    ensures MeetsFate(s, s', i, record.message.to, Broker.FailedFate(record, marked, checked, retryOk, s.timeout))
  {
    var s1;
    steps, s1 := FailingRuns(s, w, i, record);
    s' := FailActs(s1, w, i, record, marked, checked, retryOk);
    RunsSnoc(s, steps, s1, FailMessage(w, marked, checked, retryOk, retryOk));
    steps := steps + [FailMessage(w, marked, checked, retryOk, retryOk)];
    if !Broker.FailedFate(record, marked, checked, retryOk, s.timeout).Stuck? {
      s' := FinishRuns(s, steps, s', w, i);
      steps := steps + [Finish(w)];
    }
  }

  /** The n-th call of a server waits for the answer of a peer. */
  ghost predicate Waits(s: State, host: Host, call: nat, peer: Host, slot: nat) {
    var srv := ServerOf(s, host);
    && call < |srv.closures| == |srv.forwarder.calls| && srv.closures[call].slot == slot < |s.slots|
    && var sent := srv.forwarder.calls[call];
       && sent.host == peer && sent.sequence != 0
       && sent.sequence in srv.forwarder.table.callbacks && srv.forwarder.table.callbacks[sent.sequence] == call
  }

  lemma RequestRuns(s: State, w: WorkId, i: nat, record: Forwarded, peer: Host) returns (steps: seq<Step>, s1: State, call: nat)
    requires UnackedInv(s) && w !in s.works && OnForwarding(s, i) && Unmarshal(s.slots[i].data) == Some(record)
    requires var srv := ServerOf(s, s.slots[i].host);
             |srv.closures| == |srv.forwarder.calls| && srv.forwarder.table.built + 1 < SEQUENCES
    requires peer != s.slots[i].host
    ensures Runs(s, steps, s1) && s1.slots == s.slots && s1.unacked == s.unacked && w !in s1.works
    ensures Waits(s1, s.slots[i].host, call, peer, i)
  {
    s1 := TakeRuns(s, w, i, record);
    call := |ForwarderOf(s, s.slots[i].host).calls|;
    SequenceBelowWrap(ForwarderOf(s, s.slots[i].host).table.built + 1);
    RunsSnoc(s, [Take(w, i)], s1, Request(w, peer, true));
    steps, s1 := [Take(w, i)] + [Request(w, peer, true)], Apply(s1, Request(w, peer, true));
  }

  /** The peer publishes, on its own topics only, and acks. */
  lemma PeerAcks(s: State, host: Host, call: nat, peer: Host, slot: nat) returns (s': State)
    requires UnackedInv(s) && Waits(s, host, call, peer, slot) && peer != host
    ensures Enabled(s, PeerHandles(host, call, peer, true, true)) && s' == Apply(s, PeerHandles(host, call, peer, true, true))
    ensures UnackedInv(s') && s'.works == s.works && s.slots <= s'.slots && s'.unacked == s.unacked + {|s.slots|}
    ensures forall topic :: TopicOf(s', host, topic) == TopicOf(s, host, topic)
    ensures Waits(s', host, call, peer, slot) && ForwarderOf(s', host).answers != []
    ensures var answers := ForwarderOf(s', host).answers;
            answers[|answers| - 1] == Forwarder.Answer(ForwarderOf(s', host).calls[call].sequence, true, call)
  {
    s' := Apply(s, PeerHandles(host, call, peer, true, true));
    PublishOnly(s, s', s'.slots[|s.slots|]);
  }

  /** Reading the answer runs the callback of the call. */
  lemma AnswerActs(s: State, host: Host, call: nat, peer: Host, slot: nat, answer: nat, w: WorkId)
    requires Waits(s, host, call, peer, slot) && w !in s.works && answer < |ForwarderOf(s, host).answers|
    requires ForwarderOf(s, host).answers[answer] == Forwarder.Answer(ForwarderOf(s, host).calls[call].sequence, true, call)
    ensures Enabled(s, ReadAnswer(host, answer, w))
    ensures var s' := Apply(s, ReadAnswer(host, answer, w));
            && s'.slots == s.slots && s'.unacked == s.unacked
            && w in s'.works && s'.works[w].Replaced? && s'.works[w].slot == slot
  {}

  lemma AnsweredRuns(s: State, steps: seq<Step>, s1: State, host: Host, call: nat, peer: Host, slot: nat, w: WorkId)
    returns (steps': seq<Step>, s': State)
    requires Runs(s, steps, s1) && UnackedInv(s1) && Waits(s1, host, call, peer, slot) && peer != host && w !in s1.works
    ensures Runs(s, steps', s') && UnackedInv(s') && s1.slots <= s'.slots && s'.unacked == s1.unacked + {|s1.slots|}
    ensures w in s'.works && s'.works[w].Replaced? && s'.works[w].slot == slot
    ensures forall topic :: TopicOf(s', host, topic) == TopicOf(s1, host, topic)
  {
    var s2 := PeerAcks(s1, host, call, peer, slot);
    RunsSnoc(s, steps, s1, PeerHandles(host, call, peer, true, true));
    steps' := steps + [PeerHandles(host, call, peer, true, true)];
    var answer := |ForwarderOf(s2, host).answers| - 1;
    AnswerActs(s2, host, call, peer, slot, answer, w);
    RunsSnoc(s, steps', s2, ReadAnswer(host, answer, w));
    steps', s' := steps' + [ReadAnswer(host, answer, w)], Apply(s2, ReadAnswer(host, answer, w));
  }

  /** The request reaches the peer, which publishes and acks; the answer runs the callback, which acknowledges. */
  lemma PeerRuns(s: State, w: WorkId, i: nat, record: Forwarded, peer: Host) returns (steps: seq<Step>, s': State)
    requires UnackedInv(s) && w !in s.works && OnForwarding(s, i) && Unmarshal(s.slots[i].data) == Some(record)
    requires var srv := ServerOf(s, s.slots[i].host);
             |srv.closures| == |srv.forwarder.calls| && srv.forwarder.table.built + 1 < SEQUENCES
    requires peer != s.slots[i].host
    ensures Runs(s, steps, s') && MeetsFate(s, s', i, record.message.to, Broker.AcceptedByPeer)
  {
    var host := s.slots[i].host;
    var s1, call;
    steps, s1, call := RequestRuns(s, w, i, record, peer);
    steps, s1 := AnsweredRuns(s, steps, s1, host, call, peer, i, w);
    s' := FinishRuns(s, steps, s1, w, i);
    steps := steps + [Finish(w)];
    forall topic ensures TopicOf(s1, host, topic) == TopicOf(s, host, topic) {}
  }

  /**
  The steps of the federation make up forwardMessage: from any state, whatever the
  services answer, there is a run of one worker after which every topic of its server is
  as `MemBroker.ForwardMessage` leaves it.
  */
  lemma ForwardMessageRuns(s: State, w: WorkId, i: nat, world: Broker.World) returns (steps: seq<Step>, s': State)
    requires UnackedInv(s) && w !in s.works && OnForwarding(s, i) && world.marked >= NANOS_PER_MILLI
    requires var srv := ServerOf(s, s.slots[i].host);
             |srv.closures| == |srv.forwarder.calls| && srv.forwarder.table.built + 1 < SEQUENCES
    ensures Runs(s, steps, s')
    ensures var to := match Unmarshal(s.slots[i].data) case None => Address("", "") case Some(record) => record.message.to;
            MeetsFate(s, s', i, to, Broker.FateOf(s.slots[i].data, s.slots[i].host, world, s.timeout))
  {
    match Unmarshal(s.slots[i].data) {
      case None => steps, s' := MalformedRuns(s, w, i, Address("", ""));
      case Some(record) =>
        if world.found == Some(s.slots[i].host) && world.publishOk {
          steps, s' := LocalRuns(s, w, i, record);
        } else if world.found.Some? && world.found.value != s.slots[i].host && world.peerAccepts {
          steps, s' := PeerRuns(s, w, i, record, world.found.value);
        } else {
          steps, s' := FailureRuns(s, w, i, record, world.marked, world.checked, world.retryOk);
        }
    }
  }
}
