/**
The reader side of the Redis broker: the fold that picks the offset to read a
stream from, and the filter every subscriber applies to the batch it is sent.
*/
module StreamReader {
  import opened Listings
  import opened Offsets

  datatype Entry = Entry(id: Offset, data: string)

  /** What a subscriber holds: where it started, its current offset, and all it has put on its channel. */
  datatype SubState = SubState(start: Offset, offset: Offset, sent: seq<Entry>)

  function Fresh(start: Offset): SubState {
    SubState(start, start, [])
  }

  /** The filter of `process`, message by message. */
  function ProcessBatch(s: SubState, msgs: seq<Entry>): SubState {
    if msgs == [] then s
    else
      var p := ProcessBatch(s, msgs[..|msgs| - 1]);
      var msg := msgs[|msgs| - 1];
      if LessThan(p.offset, msg.id) then SubState(p.start, msg.id, p.sent + [msg]) else p
  }

  /** The fold of `gatherStreamsWithOffsets` over a stream's subscribers, in the order the map yields them. */
  function Lowest(offsets: seq<Offset>): (o: Offset)
    requires offsets != []
    ensures o in offsets
  {
    var last := offsets[|offsets| - 1];
    if |offsets| == 1 then last
    else
      var p := Lowest(offsets[..|offsets| - 1]);
      if LessThan(last, p) then last else p
  }

  predicate IsLowest(m: Offset, offsets: seq<Offset>) {
    m in offsets && forall o :: o in offsets ==> AtMost(m, o)
  }

  /** No offset has a later millisecond and yet a smaller sequence number than the real minimum. */
  predicate NoInversionWithLowest(offsets: seq<Offset>) {
    forall m, o :: m in offsets && o in offsets && IsLowest(m, offsets) ==> !Inverted(m, o)
  }

  lemma {:induction false} LowestWithoutInversion(offsets: seq<Offset>, m: Offset)
    requires IsLowest(m, offsets)
    requires forall o :: o in offsets ==> !Inverted(m, o)
    ensures Lowest(offsets) == m
  {
    if |offsets| > 1 {
      var front, last := offsets[..|offsets| - 1], offsets[|offsets| - 1];
      assert offsets == front + [last];
      if m in front {
        LowestWithoutInversion(front, m);
      } else {
        assert Lowest(front) in offsets;
      }
    }
  }

  /** Every non-empty list of offsets has a minimum. */
  lemma {:induction false} SomeLowest(offsets: seq<Offset>) returns (m: Offset)
    requires offsets != []
    ensures IsLowest(m, offsets)
  {
    m := offsets[0];
    for i := 1 to |offsets|
      invariant IsLowest(m, offsets[..i])
    {
      assert offsets[..i + 1] == offsets[..i] + [offsets[i]];
      if Before(offsets[i], m) { m := offsets[i]; }
    }
    assert offsets[..|offsets|] == offsets;
  }

  ghost predicate Reordered(r: seq<Offset>, s: seq<Offset>) {
    multiset(r) == multiset(s)
  }

  lemma ReorderedMembers(r: seq<Offset>, s: seq<Offset>)
    requires Reordered(r, s)
    ensures forall o :: o in r <==> o in s
    ensures |r| == |s|
  {
    assert forall o :: o in r <==> o in multiset(r);
    assert forall o :: o in s <==> o in multiset(s);
    assert |multiset(r)| == |r| && |multiset(s)| == |s|;
  }

  lemma MoveToEnd(s: seq<Offset>, o: Offset) returns (r: seq<Offset>, i: nat)
    requires o in s
    ensures i < |s| && s[i] == o && r == s[..i] + s[i + 1..] + [o]
    ensures Reordered(r, s)
  {
    i :| 0 <= i < |s| && s[i] == o;
    r := s[..i] + s[i + 1..] + [o];
    assert s == s[..i] + [o] + s[i + 1..];
  }

  /** Whatever comes before, the fold takes a minimum that comes last. */
  lemma LowestEndingInMinimum(s: seq<Offset>, m: Offset)
    requires s != [] && s[|s| - 1] == m
    requires forall o :: o in s ==> AtMost(m, o)
    ensures Lowest(s) == m
  {}

  /** An inverted pair makes some iteration order pick the wrong offset: minimum last but one, inverted offset last. */
  lemma InversionMisleads(offsets: seq<Offset>, m: Offset, o: Offset) returns (order: seq<Offset>)
    requires IsLowest(m, offsets) && o in offsets && Inverted(m, o)
    ensures Reordered(order, offsets) && order != []
    ensures Lowest(order) == o && !IsLowest(Lowest(order), offsets)
  {
    var r, i := MoveToEnd(offsets, m);
    ReorderedMembers(r, offsets);
    var j;
    order, j := MoveToEnd(r, o);
    ReorderedMembers(order, offsets);
    var front := order[..|order| - 1];
    assert front == r[..j] + r[j + 1..];
    assert front[|front| - 1] == m;
    LowestEndingInMinimum(front, m);
  }

  /**
  The gathered offset is the real minimum for every iteration order exactly when
  no offset is inverted with that minimum.
  */
  lemma GatherExactIff(offsets: seq<Offset>)
    requires offsets != []
    ensures (forall order: seq<Offset> :: Reordered(order, offsets) ==> order != [] && IsLowest(Lowest(order), offsets))
            <==> NoInversionWithLowest(offsets)
  {
    if NoInversionWithLowest(offsets) {
      var m := SomeLowest(offsets);
      forall order: seq<Offset> | Reordered(order, offsets)
        ensures order != [] && IsLowest(Lowest(order), offsets)
      {
        ReorderedMembers(order, offsets);
        LowestWithoutInversion(order, m);
      }
    } else {
      var m, o :| m in offsets && o in offsets && IsLowest(m, offsets) && Inverted(m, o);
      var order := InversionMisleads(offsets, m, o);
    }
  }

  /** The case the source gets wrong: sequence 0 of the later millisecond is taken for lower than sequence 1 of the earlier. */
  lemma GatherWitness()
    ensures var a, b := Offset(1_600_000_000_000, 1), Offset(1_600_000_000_001, 0);
            IsEntryId(a) && IsEntryId(b) && Before(a, b) && Lowest([a, b]) == b
  {}

  // ----- the objects of the broker -----

  /** A subscriber after `send`, which may drop the batch for a closed one. */
  function AfterSend(s: SubState, dropped: bool, msgs: seq<Entry>): SubState {
    if dropped then s else ProcessBatch(s, msgs)
  }

  class Subscriber {
    const start: Offset
    var offset: Offset
    var messagesOut: seq<Entry>
    var closed: bool

    function State(): SubState
      reads this
    {
      SubState(start, offset, messagesOut)
    }

    constructor (startingOffset: Offset)
      ensures State() == Fresh(startingOffset) && !closed
    {
      start, offset, messagesOut, closed := startingOffset, startingOffset, [], false;
    }

    method Close()
      modifies this
      ensures closed && State() == old(State())
    {
      closed := true;
    }

    /** Once the close channel is closed, `send` may take that branch and drop the batch. */
    method Send(msgs: seq<Entry>, takeClosed: bool)
      modifies this
      ensures State() == if old(closed) && takeClosed then old(State()) else ProcessBatch(old(State()), msgs)
      ensures closed == old(closed)
    {
      if !(closed && takeClosed) {
        Process(msgs);
      }
    }

    /** One batch received by `process`. */
    method Process(msgs: seq<Entry>)
      modifies this
      ensures State() == ProcessBatch(old(State()), msgs) && closed == old(closed)
    {
      for i := 0 to |msgs|
        invariant closed == old(closed)
        invariant State() == ProcessBatch(old(State()), msgs[..i])
      {
        assert msgs[..i + 1][..i] == msgs[..i];
        if LessThan(offset, msgs[i].id) {
          messagesOut := messagesOut + [msgs[i]];
          offset := msgs[i].id;
        }
      }
      assert msgs[..|msgs|] == msgs;
    }
  }

  type Subscribers = map<string, Subscriber>

  function OffsetsOf(subs: Subscribers, order: seq<string>): seq<Offset>
    requires forall id :: id in order ==> id in subs
    reads subs.Values
  {
    seq(|order|, i requires 0 <= i < |order| reads subs.Values => subs[order[i]].offset)
  }

  /** `o` is the fold over the subscribers' offsets in some order. */
  ghost predicate GatheredFrom(subs: Subscribers, o: Offset)
    reads subs.Values
  {
    exists order :: Lists(order, subs.Keys) && order != [] && o == Lowest(OffsetsOf(subs, order))
  }

  type Registry = map<string, Subscribers>

  /** No stream is kept without subscribers. */
  ghost predicate NoEmptyStream(r: Registry) {
    forall s :: s in r ==> r[s] != map[]
  }

  ghost predicate Registered(r: Registry, s: string, id: string, older sub: Subscriber) {
    s in r && id in r[s] && r[s][id] == sub
  }

  /** No subscriber is registered twice. */
  ghost predicate Distinct(r: Registry) {
    forall s, i, t, j, sub :: Registered(r, s, i, sub) && Registered(r, t, j, sub) ==> s == t && i == j
  }

  class RedisBroker {
    var subscribersByStream: Registry

    ghost predicate Valid()
      reads this
    {
      NoEmptyStream(subscribersByStream) && Distinct(subscribersByStream)
    }

    function SubscribersOf(stream: string): Subscribers
      reads this
    {
      if stream in subscribersByStream then subscribersByStream[stream] else map[]
    }

    constructor ()
      ensures Valid() && subscribersByStream == map[]
    {
      subscribersByStream := map[];
    }

    /** newSubscriber, with the generated ID as a parameter. */
    method NewSubscriber(stream: string, id: string, startingOffset: Offset) returns (sub: Subscriber)
      requires Valid() && id !in SubscribersOf(stream)
      modifies this
      ensures Valid() && fresh(sub) && sub.State() == Fresh(startingOffset)
      ensures var before: Subscribers := if stream in old(subscribersByStream) then old(subscribersByStream)[stream] else map[];
              subscribersByStream == old(subscribersByStream)[stream := before[id := sub]]
    {
      sub := new Subscriber(startingOffset);
      ghost var r := subscribersByStream;
      assert forall s, i :: !Registered(r, s, i, sub);
      subscribersByStream := subscribersByStream[stream := SubscribersOf(stream)[id := sub]];
      ghost var r' := subscribersByStream;
      assert id in r'[stream];
      assert forall s, i, x :: Registered(r', s, i, x) ==> Registered(r, s, i, x) || (s == stream && i == id && x == sub);
    }

    /** What the `process` goroutine does when it ends. */
    method Remove(stream: string, id: string)
      requires Valid() && stream in subscribersByStream
      modifies this
      ensures Valid()
      ensures var rest := old(subscribersByStream)[stream] - {id};
              subscribersByStream == if rest == map[] then old(subscribersByStream) - {stream}
                                     else old(subscribersByStream)[stream := rest]
    {
      ghost var r := subscribersByStream;
      var rest := subscribersByStream[stream] - {id};
      if rest == map[] {
        subscribersByStream := subscribersByStream - {stream};
      } else {
        subscribersByStream := subscribersByStream[stream := rest];
      }
      assert forall s, i, x :: Registered(subscribersByStream, s, i, x) ==> Registered(r, s, i, x);
    }

    /**
    gatherStreamsWithOffsets: each stream once, paired with the fold over its
    subscribers in some order; the real minimum when no offset is inverted with it.
    */
    method GatherStreamsWithOffsets() returns (streams: seq<string>, offsets: seq<Offset>)
      requires Valid()
      ensures Lists(streams, subscribersByStream.Keys) && |offsets| == |streams|
      ensures forall i :: 0 <= i < |streams| ==> Gathered(subscribersByStream, streams[i], offsets[i])
    {
      streams, offsets := [], [];
      var remaining := subscribersByStream.Keys;
      ghost var done := {};
      while remaining != {}
        invariant remaining + done == subscribersByStream.Keys && remaining !! done
        invariant |offsets| == |streams| && Lists(streams, done)
        invariant forall i :: 0 <= i < |streams| ==> Gathered(subscribersByStream, streams[i], offsets[i])
        decreases remaining
      {
        var stream :| stream in remaining;
        var lowest := GatherLowest(subscribersByStream[stream]);
        ListsSnoc(streams, done, stream);
        remaining, done := remaining - {stream}, done + {stream};
        streams, offsets := streams + [stream], offsets + [lowest];
        assert Gathered(subscribersByStream, stream, lowest);
      }
    }
  }

  ghost predicate Gathered(r: Registry, stream: string, o: Offset)
    reads if stream in r then r[stream].Values else {}
  {
    stream in r && GatheredFrom(r[stream], o)
  }

  /** The inner loop of `gatherStreamsWithOffsets`. */
  method GatherLowest(subs: Subscribers) returns (lowest: Offset)
    requires subs != map[]
    ensures GatheredFrom(subs, lowest)
  {
    lowest := MIN_OFFSET;
    ghost var order := [];
    var first := true;
    var remaining := subs.Keys;
    while remaining != {}
      invariant remaining <= subs.Keys && Lists(order, subs.Keys - remaining)
      invariant first <==> order == []
      invariant order != [] ==> lowest == Lowest(OffsetsOf(subs, order))
      decreases remaining
    {
      var id :| id in remaining;
      remaining := remaining - {id};
      ghost var before := OffsetsOf(subs, order);
      order := order + [id];
      assert OffsetsOf(subs, order) == before + [subs[id].offset];
      var offset := subs[id].offset;
      if first || LessThan(offset, lowest) {
        lowest := offset;
      }
      first := false;
    }
    assert subs.Keys - remaining == subs.Keys;
  }

  /**
  The fan-out of `readStreams` for one stream: every registered subscriber processes
  the whole batch, except that closed ones may be skipped.
  */
  method Dispatch(subs: Subscribers, msgs: seq<Entry>, skipped: set<string>)
    requires forall i, j :: i in subs && j in subs && i != j ==> subs[i] != subs[j]
    modifies subs.Values
    ensures forall id :: id in subs ==>
              subs[id].State() == AfterSend(old(subs[id].State()), id in skipped && old(subs[id].closed), msgs)
    ensures forall id :: id in subs ==> subs[id].closed == old(subs[id].closed)
  {
    var remaining := subs.Keys;
    while remaining != {}
      invariant remaining <= subs.Keys
      invariant forall id :: id in subs ==> subs[id].closed == old(subs[id].closed)
      invariant forall id :: id in remaining ==> subs[id].State() == old(subs[id].State())
      invariant forall id :: id in subs && id !in remaining ==>
                  subs[id].State() == AfterSend(old(subs[id].State()), id in skipped && old(subs[id].closed), msgs)
      decreases remaining
    {
      var id :| id in remaining;
      remaining := remaining - {id};
      assert subs[id] in subs.Values;
      subs[id].Send(msgs, id in skipped);
    }
  }
}
