/** Topics of the in-memory broker, and the loops of the service that move messages between them. */
module MemBroker {
  import opened Wrappers
  import opened Messages

  datatype TopicState = TopicState(next: nat, messages: map<nat, Bytes>)

  function Published(t: TopicState, data: Bytes): TopicState {
    TopicState(t.next + 1, t.messages[t.next := data])
  }

  function PublishedAll(t: TopicState, data: seq<Bytes>): TopicState {
    if data == [] then t else Published(PublishedAll(t, data[..|data| - 1]), data[|data| - 1])
  }

  function Acked(t: TopicState, id: nat): TopicState {
    t.(messages := t.messages - {id})
  }

  class MemTopic {
    var next: nat
    var messages: map<nat, Bytes>

    /** Numbers are not reused. */
    predicate Valid()
      reads this
    {
      forall id :: id in messages ==> id < next
    }

    function State(): TopicState
      reads this
    {
      TopicState(next, messages)
    }

    constructor ()
      ensures Valid() && State() == TopicState(0, map[])
    {
      next, messages := 0, map[];
    }

    method Publish(data: Bytes)
      requires Valid()
      modifies this
      ensures Valid() && State() == Published(old(State()), data)
      ensures next == old(next) + 1 && messages == old(messages)[old(next) := data] && old(next) !in old(messages)
    {
      messages := messages[next := data];
      next := next + 1;
    }

    method Ack(id: nat)
      requires Valid()
      modifies this
      ensures Valid() && State() == Acked(old(State()), id)
      ensures next == old(next) && messages == old(messages) - {id}
    {
      messages := messages - {id};
    }
  }

  /** An unmarshalled record a worker holds, marked in place when forwarding fails. */
  class RecordCell {
    var record: Forwarded

    constructor (r: Forwarded)
      ensures record == r
    {
      record := r;
    }

    method Mark(now: nat)
      modifies this
      ensures record == MarkFailed(old(record), now)
      ensures record.message == old(record).message && record.lastFailed * 1_000_000 <= now < (record.lastFailed + 1) * 1_000_000
      ensures record.firstFailed == if old(record).firstFailed == 0 then record.lastFailed else old(record).firstFailed
    {
      var millis := UnixMillis(now);
      record := record.(lastFailed := millis);
      if record.firstFailed == 0 {
        record := record.(firstFailed := millis);
      }
    }
  }

  /** What becomes of a message a forwarding worker takes. */
  datatype Fate = Malformed | PublishedHere(data: Bytes) | AcceptedByPeer | Expired | Retried(record: Forwarded) | Stuck

  /** The fate of a message whose forwarding fails. */
  function FailedFate(record: Forwarded, marked: nat, checked: nat, retryOk: bool, timeout: nat): Fate {
    match AfterFailure(record, marked, checked, timeout)
    case None => Expired
    case Some(again) => if retryOk then Retried(again) else Stuck
  }

  /** How the services answer during one call of forwardMessage; `found` is the addressee's host, if it can be found. */
  datatype World = World(found: Option<Host>, publishOk: bool, peerAccepts: bool, marked: nat, checked: nat, retryOk: bool)

  function FateOf(data: Bytes, publicAddr: Host, w: World, timeout: nat): Fate {
    match Unmarshal(data)
    case None => Malformed
    case Some(record) =>
      if w.found == Some(publicAddr) && w.publishOk then PublishedHere(record.message.body)
      else if w.found.Some? && w.found.value != publicAddr && w.peerAccepts then AcceptedByPeer
      else FailedFate(record, w.marked, w.checked, w.retryOk, timeout)
  }

  /** What a topic is to a message being forwarded. The retry topic can be the source as well. */
  datatype Role = Role(source: bool, retry: bool, device: bool)

  /** A topic after a message has met its fate: published first, then acknowledged. */
  function AfterFate(t: TopicState, role: Role, id: nat, fate: Fate): TopicState {
    var t1 := if role.device && fate.PublishedHere? then Published(t, fate.data)
              else if role.retry && fate.Retried? then Published(t, Marshalled(fate.record))
              else t;
    if role.source && !fate.Stuck? then Acked(t1, id) else t1
  }

  /**
  failMessage: mark the record; then discard it, or republish it for retry and
  acknowledge the source. If the publish fails the source stays unacknowledged. The
  retry topic may be the source itself.
  */
  method FailMessage(msg: RecordCell, source: MemTopic, id: nat, retry: MemTopic,
                     marked: nat, checked: nat, timeout: nat, publishOk: bool)
    requires source.Valid() && retry.Valid() && id < source.next
    modifies msg, source, retry
    ensures source.Valid() && retry.Valid()
    ensures var first := if old(msg.record).firstFailed == 0 then marked / 1_000_000 else old(msg.record).firstFailed;
            && msg.record == Forwarded(old(msg.record).message, first, marked / 1_000_000)
            && Outcome(old(source.State()), source.State(), old(retry.State()), retry.State(), retry == source, id,
                       first != 0 && checked - first * 1_000_000 > timeout, publishOk, Marshalled(msg.record))
    ensures forall topic :: topic in {source, retry} ==>
              topic.State() == AfterFate(old(topic.State()), Role(topic == source, topic == retry, false), id,
                                         FailedFate(old(msg.record), marked, checked, publishOk, timeout))
  {
    msg.Mark(marked);
    if HasBeenFailingFor(msg.record, checked) > timeout {
      source.Ack(id);
    } else if publishOk {
      retry.Publish(Marshalled(msg.record));
      source.Ack(id);
    }
  }

  /** What failMessage may lead to: the source is acked because of its age, or because the record was published for retry. */
  predicate Outcome(source: TopicState, source': TopicState, retry: TopicState, retry': TopicState, same: bool,
                    id: nat, expired: bool, published: bool, record: Bytes) {
    var retried := !expired && published;
    && (if same then retry' == source'
        else retry' == if retried then TopicState(retry.next + 1, retry.messages[retry.next := record]) else retry)
    && (if same && retried then source' == TopicState(source.next + 1, source.messages[source.next := record] - {id})
        else source' == TopicState(source.next, if expired || retried then source.messages - {id} else source.messages))
  }

  /** A topic has gained the given bytes. */
  ghost predicate Gained(before: TopicState, after: TopicState, data: Bytes) {
    exists k :: k >= before.next && k in after.messages && after.messages[k] == data
  }

  /** A topic has gained a record of the given message. */
  ghost predicate GainedRecord(before: TopicState, after: TopicState, msg: Outbound) {
    exists k :: k >= before.next && k in after.messages && after.messages[k].Marshalled? && after.messages[k].record.message == msg
  }

  /** The message that was under `id` in the source can still be delivered, or need not be. */
  ghost predicate NotLost(source: TopicState, source': TopicState, retry: TopicState, retry': TopicState,
                          device: TopicState, device': TopicState, id: nat, publicAddr: Host, w: World, timeout: nat)
    requires id in source.messages && source.messages[id].Marshalled?
  {
    var record := source.messages[id].record;
    || (id in source'.messages && source'.messages[id] == source.messages[id])
    || Gained(device, device', record.message.body)
    || GainedRecord(retry, retry', record.message)
    || (w.found.Some? && w.found.value != publicAddr && w.peerAccepts)
    || HasBeenFailingFor(MarkFailed(record, w.marked), w.checked) > timeout
  }

  /**
  What forwardMessage does to the topics. The device's topic gains the sealed bytes, and
  nothing but the ack happens besides, exactly when the addressee is on this server and
  the publish succeeds. When the addressee is elsewhere and the peer accepts, or when the
  record cannot be read, there is nothing but the ack. Otherwise the attempt failed, and
  the record is dropped for its age, published for retry, or left where it is.
  */
  predicate Forwards(publicAddr: Host, data: Bytes, source: TopicState, source': TopicState, retry: TopicState, retry': TopicState,
                     same: bool, device: TopicState, device': TopicState, id: nat, w: World, timeout: nat) {
    var here := data.Marshalled? && w.found == Some(publicAddr) && w.publishOk;
    var there := data.Marshalled? && w.found.Some? && w.found.value != publicAddr && w.peerAccepts;
    && device' == (if here then TopicState(device.next + 1, device.messages[device.next := data.record.message.body]) else device)
    && if !data.Marshalled? || here || there then
         source' == TopicState(source.next, source.messages - {id}) && retry' == if same then source' else retry
       else
         var first := if data.record.firstFailed == 0 then w.marked / 1_000_000 else data.record.firstFailed;
         Outcome(source, source', retry, retry', same, id, first != 0 && w.checked - first * 1_000_000 > timeout, w.retryOk,
                 Marshalled(Forwarded(data.record.message, first, w.marked / 1_000_000)))
  }

  /** The fate of a message says just that, and whatever it is, a record on its topic is not lost. */
  lemma FateMeans(publicAddr: Host, data: Bytes, source: TopicState, retry: TopicState, device: TopicState, same: bool, id: nat,
                  w: World, timeout: nat)
    requires id < source.next && (same ==> retry == source)
    ensures var fate := FateOf(data, publicAddr, w, timeout);
            var source' := AfterFate(source, Role(true, same, false), id, fate);
            var retry' := AfterFate(retry, Role(same, true, false), id, fate);
            var device' := AfterFate(device, Role(false, false, true), id, fate);
            && Forwards(publicAddr, data, source, source', retry, retry', same, device, device', id, w, timeout)
            && (id in source.messages && source.messages[id] == data && data.Marshalled? ==>
                  NotLost(source, source', retry, retry', device, device', id, publicAddr, w, timeout))
  {
    var fate := FateOf(data, publicAddr, w, timeout);
    if fate.PublishedHere? {
      assert device.next in AfterFate(device, Role(false, false, true), id, fate).messages;
    } else if fate.Retried? {
      assert retry.next in AfterFate(retry, Role(same, true, false), id, fate).messages;
    }
  }

  /** forwardMessage, its callback included. */
  method ForwardMessage(publicAddr: Host, data: Bytes, source: MemTopic, id: nat, retry: MemTopic, device: MemTopic,
                        w: World, timeout: nat)
    requires source.Valid() && retry.Valid() && device.Valid() && id < source.next && device != source && device != retry
    modifies source, retry, device
    ensures source.Valid() && retry.Valid() && device.Valid()
    ensures forall topic :: topic in {source, retry, device} ==>
              topic.State() == AfterFate(old(topic.State()), Role(topic == source, topic == retry, topic == device), id,
                                         FateOf(data, publicAddr, w, timeout))
    ensures Forwards(publicAddr, data, old(source.State()), source.State(), old(retry.State()), retry.State(), retry == source,
                     old(device.State()), device.State(), id, w, timeout)
    ensures id in old(source.messages) && old(source.messages)[id] == data && data.Marshalled? ==>
              NotLost(old(source.State()), source.State(), old(retry.State()), retry.State(),
                      old(device.State()), device.State(), id, publicAddr, w, timeout)
  {
    FateMeans(publicAddr, data, source.State(), retry.State(), device.State(), retry == source, id, w, timeout);
    var record := Unmarshal(data);
    if record.None? {
      source.Ack(id);
      return;
    }
    var msg := new RecordCell(record.value);
    if w.found == Some(publicAddr) && w.publishOk {
      device.Publish(msg.record.message.body);
      source.Ack(id);
    } else if w.found.Some? && w.found.value != publicAddr && w.peerAccepts {
      source.Ack(id);
    } else {
      FailMessage(msg, source, id, retry, w.marked, w.checked, timeout, w.retryOk);
    }
  }

  /** A device message on its way to the device's new server. */
  function Wrap(addr: Address, data: Bytes): Bytes {
    Marshalled(NewRecord(Outbound(addr, data)))
  }

  function WrapAll(addr: Address, messages: map<nat, Bytes>, ids: seq<nat>): seq<Bytes>
    requires forall id :: id in ids ==> id in messages
  {
    seq(|ids|, i requires 0 <= i < |ids| => Wrap(addr, messages[ids[i]]))
  }

  /** The messages have been added to a topic in order, each as a record to the address that has not failed yet. */
  ghost predicate Arrived(addr: Address, messages: map<nat, Bytes>, ids: seq<nat>, t: TopicState, t': TopicState)
    requires forall id :: id in ids ==> id in messages
  {
    && t'.next == t.next + |ids|
    && (forall k :: 0 <= k < |ids| ==> ArrivedAt(addr, messages, ids, t, t', k))
    && (forall id :: id in t.messages ==> id in t'.messages && t'.messages[id] == t.messages[id])
  }

  predicate ArrivedAt(addr: Address, messages: map<nat, Bytes>, ids: seq<nat>, t: TopicState, t': TopicState, k: nat)
    requires k < |ids| && ids[k] in messages
  {
    && t.next + k in t'.messages
    && t'.messages[t.next + k] == Marshalled(Forwarded(Outbound(addr, messages[ids[k]]), 0, 0))
  }

  lemma {:induction false} AllArrived(addr: Address, messages: map<nat, Bytes>, ids: seq<nat>, t: TopicState)
    requires (forall id :: id in ids ==> id in messages) && forall id :: id in t.messages ==> id < t.next
    ensures Arrived(addr, messages, ids, t, PublishedAll(t, WrapAll(addr, messages, ids)))
  {
    if ids != [] {
      var n := |ids| - 1;
      var front, wrapped := ids[..n], WrapAll(addr, messages, ids);
      AllArrived(addr, messages, front, t);
      assert wrapped[..n] == WrapAll(addr, messages, front);
      var t1, t' := PublishedAll(t, wrapped[..n]), PublishedAll(t, wrapped);
      forall k | 0 <= k < |ids| ensures ArrivedAt(addr, messages, ids, t, t', k) {
        if k < n { assert ArrivedAt(addr, messages, front, t, t1, k); }
      }
      assert forall id :: id in t.messages ==> id != t1.next;
    }
  }

  /**
  transferDeviceMessages, for the messages its subscriber hands over before a quiet
  interval ends the loop, with `failing` the messages whose publish fails: exactly the
  moved messages leave the device topic, each published once, wrapped, in the order
  moved. It succeeds exactly when no publish failed, so it can succeed and leave
  messages behind: those its subscriber did not hand over in time.
  */
  method TransferDeviceMessages(device: MemTopic, addr: Address, forwarding: MemTopic, found: seq<nat>, failing: set<nat>)
    returns (moved: seq<nat>, ok: bool)
    requires device.Valid() && forwarding.Valid() && device != forwarding
    requires forall i :: 0 <= i < |found| ==> found[i] in device.messages
    requires forall i, j :: 0 <= i < j < |found| ==> found[i] != found[j]
    modifies device, forwarding
    ensures device.Valid() && forwarding.Valid()
    ensures moved <= found && forall id :: id in moved ==> id in old(device.messages) && id !in failing
    ensures device.State() == old(device.State()).(messages := old(device.messages) - set id | id in moved)
    ensures forwarding.State() == PublishedAll(old(forwarding.State()), WrapAll(addr, old(device.messages), moved))
    ensures Arrived(addr, old(device.messages), moved, old(forwarding.State()), forwarding.State())
    ensures if ok then moved == found else |moved| < |found| && found[|moved|] in failing
    ensures ok ==> (device.messages == map[] <==> forall id :: id in old(device.messages) ==> id in found)
  {
    moved, ok := [], true;
    assert device.messages == old(device.messages) - set id | id in moved;
    while |moved| < |found| && ok
      invariant device.Valid() && forwarding.Valid() && moved <= found
      invariant !ok ==> |moved| < |found| && found[|moved|] in failing
      invariant forall id :: id in moved ==> id in old(device.messages) && id !in failing
      invariant device.next == old(device.next) && device.messages == old(device.messages) - set id | id in moved
      invariant forwarding.State() == PublishedAll(old(forwarding.State()), WrapAll(addr, old(device.messages), moved))
      decreases |found| - |moved|, ok
    {
      var id := found[|moved|];
      if id in failing {
        ok := false;
      } else {
        assert id !in moved;
        forwarding.Publish(Wrap(addr, device.messages[id]));
        device.Ack(id);
        ghost var wrapped := WrapAll(addr, old(device.messages), moved);
        assert WrapAll(addr, old(device.messages), moved + [id]) == wrapped + [Wrap(addr, old(device.messages)[id])];
        moved := moved + [id];
        assert device.messages == old(device.messages) - set id | id in moved;
      }
    }
    AllArrived(addr, old(device.messages), moved, old(forwarding.State()));
    assert ok ==> forall id :: id in old(device.messages) && id !in found ==> id in device.messages;
  }
}
