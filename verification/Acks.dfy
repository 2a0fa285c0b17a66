/**
Acknowledgements in the Redis broker: pending acks are coalesced into one offset
per stream, which the commit script stores if it judges it newer.
*/
module Acks {
  import opened Wrappers
  import opened Text
  import opened Offsets

  /** The fold of `processAcks` over the acks of one stream. */
  function Highest(offsets: seq<Offset>): (o: Offset)
    requires offsets != []
    ensures o in offsets
  {
    var last := offsets[|offsets| - 1];
    if |offsets| == 1 then last
    else
      var p := Highest(offsets[..|offsets| - 1]);
      if LessThan(p, last) then last else p
  }

  /** One coalesced commit. */
  function CommitBatch(stored: Option<Offset>, batch: seq<Offset>): Option<Offset> {
    if batch == [] then stored else Commit(stored, Highest(batch))
  }

  function CommitAll(stored: Option<Offset>, batches: seq<seq<Offset>>): Option<Offset> {
    if batches == [] then stored
    else CommitBatch(CommitAll(stored, batches[..|batches| - 1]), batches[|batches| - 1])
  }

  /** The acks of all batches, in order. */
  function Flatten(batches: seq<seq<Offset>>): seq<Offset> {
    if batches == [] then [] else Flatten(batches[..|batches| - 1]) + batches[|batches| - 1]
  }

  function Singly(acks: seq<Offset>): (batches: seq<seq<Offset>>)
    ensures |batches| == |acks| && forall i :: 0 <= i < |acks| ==> batches[i] == [acks[i]]
  {
    seq(|acks|, i requires 0 <= i < |acks| => [acks[i]])
  }

  function Members(acks: seq<Offset>): set<Offset> {
    set o | o in acks
  }

  predicate IsHighest(m: Offset, ids: set<Offset>) {
    m in ids && forall o :: o in ids ==> AtMost(o, m)
  }

  /** No other ID is inverted with the highest, and the script's text comparison sees the highest as newer. */
  predicate CoalescingSafe(ids: set<Offset>, m: Offset) {
    forall o :: o in ids && o != m ==> !Inverted(o, m) && Newer(m, o)
  }

  /** A run of commits never stores anything but what was stored before or has been acked. */
  lemma {:induction false} CommitAllStoresAcked(stored: Option<Offset>, batches: seq<seq<Offset>>)
    ensures var r := CommitAll(stored, batches); r == stored || (r.Some? && r.value in Flatten(batches))
    ensures stored.Some? ==> CommitAll(stored, batches).Some?
    ensures Flatten(batches) != [] ==> CommitAll(stored, batches).Some?
  {
    if batches != [] { CommitAllStoresAcked(stored, batches[..|batches| - 1]); }
  }

  lemma {:induction false} HighestWithoutInversion(batch: seq<Offset>, m: Offset)
    requires m in batch
    requires forall o :: o in batch ==> AtMost(o, m) && !Inverted(o, m)
    ensures Highest(batch) == m
  {
    if |batch| > 1 {
      var front, last := batch[..|batch| - 1], batch[|batch| - 1];
      assert batch == front + [last];
      if m in front {
        HighestWithoutInversion(front, m);
      } else {
        assert Highest(front) in batch;
      }
    }
  }

  /** Under the condition the highest ID, once committed, is stored for good. */
  lemma {:induction false} SafeCommits(ids: set<Offset>, m: Offset, batches: seq<seq<Offset>>)
    requires IsHighest(m, ids) && CoalescingSafe(ids, m)
    requires Members(Flatten(batches)) <= ids
    ensures m in Flatten(batches) ==> CommitAll(None, batches) == Some(m)
  {
    if batches != [] {
      var front, batch := batches[..|batches| - 1], batches[|batches| - 1];
      forall o | o in Flatten(front) ensures o in ids { assert o in Flatten(batches); }
      forall o | o in batch ensures o in ids { assert o in Flatten(batches); }
      SafeCommits(ids, m, front);
      CommitAllStoresAcked(None, front);
      if m in batch {
        HighestWithoutInversion(batch, m);
      } else if m in Flatten(front) && batch != [] {
        NewerExactIff(m, Highest(batch));
      }
    }
  }

  lemma {:induction false} ListOf(ids: set<Offset>) returns (s: seq<Offset>)
    ensures Members(s) == ids
  {
    s := [];
    var rest := ids;
    while rest != {}
      invariant rest <= ids && Members(s) == ids - rest
      decreases rest
    {
      var o :| o in rest;
      rest := rest - {o};
      assert Members(s + [o]) == Members(s) + {o};
      s := s + [o];
    }
  }

  lemma {:induction false} FlattenSingly(s: seq<Offset>)
    ensures Flatten(Singly(s)) == s
  {
    if s != [] {
      var n := |s| - 1;
      assert Singly(s)[..n] == Singly(s[..n]);
      FlattenSingly(s[..n]);
      assert s == s[..n] + [s[n]];
    }
  }

  lemma AppendBatch(batches: seq<seq<Offset>>, b: seq<Offset>)
    ensures Flatten(batches + [b]) == Flatten(batches) + b
    ensures CommitAll(None, batches + [b]) == CommitBatch(CommitAll(None, batches), b)
  {}

  lemma CommitPair(stored: Option<Offset>, m: Offset, o: Offset)
    requires stored != Some(m) && Before(o, m)
    ensures Inverted(o, m) ==> CommitBatch(stored, [m, o]) != Some(m)
    ensures !Newer(m, o) ==> CommitBatch(CommitBatch(stored, [m]), [o]) != Some(m)
  {
    assert [m, o][..1] == [m];
    NewerExactIff(m, o);
  }

  /** An ID that breaks the condition makes some split of the same acks end at another offset. */
  lemma UnsafeCommits(ids: set<Offset>, m: Offset, o: Offset) returns (batches: seq<seq<Offset>>)
    requires IsHighest(m, ids) && o in ids && o != m
    requires Inverted(o, m) || !Newer(m, o)
    ensures Members(Flatten(batches)) == ids && [] !in batches
    ensures CommitAll(None, batches) != Some(m)
  {
    var others := ListOf(ids - {m, o});
    var start := Singly(others);
    FlattenSingly(others);
    CommitAllStoresAcked(None, start);
    assert m !in Members(others);
    CommitPair(CommitAll(None, start), m, o);
    if Inverted(o, m) {
      batches := start + [[m, o]];
      AppendBatch(start, [m, o]);
      assert Members(Flatten(batches)) == Members(others) + {m, o};
    } else {
      batches := start + [[m]] + [[o]];
      AppendBatch(start, [m]);
      AppendBatch(start + [[m]], [o]);
      assert Members(Flatten(batches)) == Members(others) + {m, o};
    }
  }

  /**
  However the acks of a set of IDs are ordered and split into batches, the stored
  offset ends at the highest of them, exactly when the condition holds.
  */
  lemma CoalescingExactIff(ids: set<Offset>, m: Offset)
    requires IsHighest(m, ids)
    ensures (forall batches :: Members(Flatten(batches)) == ids && [] !in batches ==> CommitAll(None, batches) == Some(m))
            <==> CoalescingSafe(ids, m)
  {
    if CoalescingSafe(ids, m) {
      forall batches | Members(Flatten(batches)) == ids
        ensures CommitAll(None, batches) == Some(m)
      {
        assert m in Members(Flatten(batches));
        SafeCommits(ids, m, batches);
      }
    } else {
      var o :| o in ids && o != m && !(!Inverted(o, m) && Newer(m, o));
      var batches := UnsafeCommits(ids, m, o);
    }
  }

  /** IDs without inversions, with sequence numbers of one width. */
  predicate Comonotone(ids: set<Offset>) {
    forall a, b :: a in ids && b in ids ==> !Inverted(a, b) && |Show(a.num)| == |Show(b.num)|
  }

  /** On such IDs batched commits and one-by-one commits store the same offset, the highest. */
  lemma BatchedEqualsSingly(batches: seq<seq<Offset>>, m: Offset)
    requires Comonotone(Members(Flatten(batches))) && IsHighest(m, Members(Flatten(batches)))
    ensures CommitAll(None, batches) == Some(m) == CommitAll(None, Singly(Flatten(batches)))
  {
    var ids := Members(Flatten(batches));
    forall o | o in ids && o != m ensures !Inverted(o, m) && Newer(m, o) {
      if o.ms == m.ms { ShownOrderSameWidth(o.num, m.num); }
    }
    SafeCommits(ids, m, batches);
    FlattenSingly(Flatten(batches));
    SafeCommits(ids, m, Singly(Flatten(batches)));
  }

  /** Sequence 10 acked after sequence 9 of its millisecond is never stored: the script compares "10" with "9" as text. */
  lemma TextComparisonWitness()
    ensures var nine, ten := Offset(1_600_000_000_000, 9), Offset(1_600_000_000_000, 10);
            IsEntryId(nine) && IsEntryId(ten) && Before(nine, ten) && CommitAll(None, [[nine], [ten]]) == Some(nine)
  {
    var nine, ten := Offset(1_600_000_000_000, 9), Offset(1_600_000_000_000, 10);
    assert !Newer(ten, nine);
    AppendBatch([], [nine]);
    AppendBatch([[nine]], [ten]);
    assert [] + [[nine]] + [[ten]] == [[nine], [ten]];
  }

  // ----- the ack loop -----

  datatype Ack = Ack(stream: string, offset: Offset)

  /** The offsets acked for one stream, in order. */
  function For(acks: seq<Ack>, stream: string): seq<Offset> {
    if acks == [] then []
    else
      var front := For(acks[..|acks| - 1], stream);
      var last := acks[|acks| - 1];
      if last.stream == stream then front + [last.offset] else front
  }

  /** The offsets of a stream are in the order of its acks: each comes right after those of the acks before it. */
  lemma {:induction false} ForAt(acks: seq<Ack>, stream: string, i: nat)
    requires i < |acks|
    ensures For(acks[..i], stream) <= For(acks, stream)
    ensures var n := |For(acks[..i], stream)|;
            if acks[i].stream == stream
            then n < |For(acks, stream)| && For(acks, stream)[n] == acks[i].offset && |For(acks[..i + 1], stream)| == n + 1
            else |For(acks[..i + 1], stream)| == n
  {
    var n := |acks| - 1;
    assert acks[..i + 1][..i] == acks[..i];
    if i < n {
      ForAt(acks[..n], stream, i);
      assert acks[..n][..i] == acks[..i] && acks[..n][..i + 1] == acks[..i + 1];
    } else {
      assert acks[..i + 1] == acks;
    }
  }

  /** The offset keys in Redis. */
  class OffsetKeys {
    var keys: map<string, Offset>

    function Get(stream: string): Option<Offset>
      reads this
    {
      if stream in keys then Some(keys[stream]) else None
    }

    constructor ()
      ensures forall stream :: Get(stream) == None
    {
      keys := map[];
    }

    /** One evaluation of the commit script. */
    method Eval(stream: string, newOffset: Offset)
      modifies this
      ensures Get(stream) == Commit(old(Get(stream)), newOffset)
      ensures forall s :: s != stream ==> Get(s) == old(Get(s))
    {
      if stream !in keys || Newer(newOffset, keys[stream]) {
        keys := keys[stream := newOffset];
      }
    }

    /**
    One pass of `processAcks` over the acks taken from the channel. When the pipeline
    fails, the scripts of the streams in `lost` have not run. Every ack is told the
    result of the whole pipeline exactly once, so an ack told of an error may have been
    committed all the same, and an ack told of success has been.
    */
    method ProcessAcks(acks: seq<Ack>, execOk: bool, lost: set<string>) returns (told: multiset<Told>)
      modifies this
      ensures forall stream :: Get(stream) == if !execOk && stream in lost then old(Get(stream))
                                              else CommitBatch(old(Get(stream)), For(acks, stream))
      ensures forall a, ok :: told[Told(a, ok)] == if ok == execOk then multiset(acks)[a] else 0
    {
      var acksByStream := GroupByStream(acks);
      var remaining := acksByStream.Keys;
      while remaining != {}
        invariant remaining <= acksByStream.Keys
        invariant forall s :: Get(s) == if s in acksByStream && s !in remaining && (execOk || s !in lost)
                                        then CommitBatch(old(Get(s)), For(acks, s)) else old(Get(s))
        decreases remaining
      {
        var stream :| stream in remaining;
        remaining := remaining - {stream};
        if execOk || stream !in lost {
          var highest := HighestOf(acksByStream[stream]);
          Eval(stream, highest);
        }
      }
      told := TellAll(acks, acksByStream, execOk);
    }
  }

  /** The acks taken from the channel, by stream. */
  ghost predicate Groups(acks: seq<Ack>, acksByStream: map<string, seq<Offset>>) {
    && (forall s :: s in acksByStream ==> acksByStream[s] == For(acks, s) != [])
    && (forall s :: s !in acksByStream ==> For(acks, s) == [])
  }

  method GroupByStream(acks: seq<Ack>) returns (acksByStream: map<string, seq<Offset>>)
    ensures Groups(acks, acksByStream)
  {
    acksByStream := map[];
    for i := 0 to |acks|
      invariant Groups(acks[..i], acksByStream)
    {
      assert acks[..i + 1][..i] == acks[..i];
      var a := acks[i];
      acksByStream := acksByStream[a.stream :=
        (if a.stream in acksByStream then acksByStream[a.stream] else []) + [a.offset]];
    }
    assert acks[..|acks|] == acks;
  }

  /** The loops that answer the ackers. */
  method TellAll(ghost acks: seq<Ack>, acksByStream: map<string, seq<Offset>>, ok: bool) returns (told: multiset<Told>)
    requires Groups(acks, acksByStream)
    ensures forall a, b :: told[Told(a, b)] == if b == ok then multiset(acks)[a] else 0
  {
    forall a: Ack ensures a.stream !in acksByStream ==> multiset(acks)[a] == 0 { ForCounts(acks, a); }
    told := multiset{};
    var remaining := acksByStream.Keys;
    while remaining != {}
      invariant remaining <= acksByStream.Keys
      invariant forall a, b :: told[Told(a, b)] == if b == ok && a.stream !in remaining then multiset(acks)[a] else 0
      decreases remaining
    {
      var stream :| stream in remaining;
      remaining := remaining - {stream};
      var some := Tell(stream, acksByStream[stream], ok);
      told := told + some;
      forall a: Ack | a.stream == stream ensures multiset(acksByStream[stream])[a.offset] == multiset(acks)[a] {
        ForCounts(acks, a);
      }
    }
  }

  method Tell(stream: string, offsets: seq<Offset>, ok: bool) returns (told: multiset<Told>)
    ensures forall a, b :: told[Told(a, b)] == if b == ok && a.stream == stream then multiset(offsets)[a.offset] else 0
  {
    told := multiset{};
    for i := 0 to |offsets|
      invariant forall a, b :: told[Told(a, b)] ==
                  if b == ok && a.stream == stream then multiset(offsets[..i])[a.offset] else 0
    {
      assert offsets[..i + 1] == offsets[..i] + [offsets[i]];
      told := told + multiset{Told(Ack(stream, offsets[i]), ok)};
    }
    assert offsets[..|offsets|] == offsets;
  }

  /** What an acker is told. */
  datatype Told = Told(ack: Ack, ok: bool)

  lemma {:induction false} ForCounts(acks: seq<Ack>, a: Ack)
    ensures multiset(For(acks, a.stream))[a.offset] == multiset(acks)[a]
  {
    if acks != [] {
      ForCounts(acks[..|acks| - 1], a);
      assert acks == acks[..|acks| - 1] + [acks[|acks| - 1]];
    }
  }

  method HighestOf(acks: seq<Offset>) returns (highest: Offset)
    requires acks != []
    ensures highest == Highest(acks)
  {
    highest := acks[0];
    for i := 1 to |acks|
      invariant highest == Highest(acks[..i])
    {
      assert acks[..i + 1][..i] == acks[..i];
      if LessThan(highest, acks[i]) {
        highest := acks[i];
      }
    }
    assert acks[..|acks|] == acks;
  }
}
