/**
One Redis-backed topic as a step machine: publishers, subscribers that look up
the stored offset and register, the reader loop (gather, XREAD, dispatch), the ack
loop and the trimmer, in every interleaving their locks allow.
*/
module BrokerRuns {
  import opened Listings
  import opened Wrappers
  import opened Offsets
  import opened StreamReader
  import opened Acks
  import opened Trimmer

  type SubId = nat

  /** The COUNT argument of XREAD. */
  const COUNT := 10000

  datatype Round = Idle | Gathering(lowest: Offset) | Reading(lowest: Offset, batch: seq<Entry>)

  datatype State = State(
    log: seq<Entry>,              // the Redis stream
    published: seq<Entry>,        // history: all entries ever added
    capped: set<Entry>,           // history: entries evicted by the length cap
    stored: Option<Offset>,       // the offset key
    trimming: Option<Offset>,     // the offset the trimmer last looked up
    joining: map<SubId, Offset>,  // subscribers that have read the offset key and are not registered yet
    subs: map<SubId, SubState>,   // registered subscribers
    closed: set<SubId>,           // subscribers whose close channel is closed
    round: Round,                 // the reader loop
    delivered: set<Offset>,       // history: IDs put on some subscriber's channel
    pending: seq<Offset>,         // acks on the ack channel
    committed: seq<seq<Offset>>,  // history: batches committed by the ack loop
    failed: seq<Offset>,          // history: acks of batches whose commit failed
    acks: seq<Offset>)            // history: all acks ever sent

  const INIT := State([], [], {}, None, None, map[], map[], {}, Idle, {}, [], [], [], [])

  datatype Step =
    | Publish(e: Entry)
    | LookUp(sub: SubId)
    | Register(sub: SubId)
    | Close(sub: SubId)
    | Leave(sub: SubId)
    | Gather(order: seq<SubId>)
    | XRead
    | Dispatch(skipped: set<SubId>)
    | EndRound
    | SendAck(o: Offset)
    | CommitAcks(n: nat)
    | FailAcks(n: nat)
    | TrimLookUp
    | TrimAcked
    | TrimLength(maxLen: nat)

  function OffsetsIn(subs: map<SubId, SubState>, order: seq<SubId>): seq<Offset>
    requires forall id :: id in order ==> id in subs
  {
    seq(|order|, i requires 0 <= i < |order| => subs[order[i]].offset)
  }

  ghost predicate Enabled(s: State, step: Step) {
    match step
    case Publish(e) => IsEntryId(e.id) && forall p :: p in s.published ==> Before(p.id, e.id)
    case LookUp(sub) => sub !in s.joining && sub !in s.subs
    case Register(sub) => sub in s.joining
    case Close(sub) => sub in s.subs
    case Leave(sub) => sub in s.subs && sub in s.closed
    case Gather(order) => s.round.Idle? && order != [] && Lists(order, s.subs.Keys)
    case XRead => s.round.Gathering?
    case Dispatch(skipped) => s.round.Reading? && skipped <= s.closed
    case EndRound => !s.round.Idle?
    case SendAck(o) => o in s.delivered
    case CommitAcks(n) => 1 <= n <= |s.pending|
    case FailAcks(n) => 1 <= n <= |s.pending|
    case TrimLookUp => true
    case TrimAcked => true
    case TrimLength(_) => true
  }

  /** XREAD: the first entries after the given ID. */
  function EntriesAfter(log: seq<Entry>, o: Offset): seq<Entry> {
    var after := TrimMinId(log, Successor(o));
    if |after| > COUNT then after[..COUNT] else after
  }

  function DispatchTo(subs: map<SubId, SubState>, skipped: set<SubId>, batch: seq<Entry>): map<SubId, SubState> {
    map id | id in subs :: if id in skipped then subs[id] else ProcessBatch(subs[id], batch)
  }

  ghost predicate Sent(subs: map<SubId, SubState>, e: Entry) {
    exists id :: id in subs && e in subs[id].sent
  }

  ghost function Apply(s: State, step: Step): State
    requires Enabled(s, step)
  {
    match step
    case Publish(e) => s.(log := s.log + [e], published := s.published + [e])
    case LookUp(sub) => s.(joining := s.joining[sub := if s.stored.Some? then s.stored.value else MIN_OFFSET])
    case Register(sub) => s.(joining := s.joining - {sub}, subs := s.subs[sub := Fresh(s.joining[sub])])
    case Close(sub) => s.(closed := s.closed + {sub})
    case Leave(sub) => s.(subs := s.subs - {sub})
    case Gather(order) => s.(round := Gathering(Lowest(OffsetsIn(s.subs, order))))
    case XRead => s.(round := Reading(s.round.lowest, EntriesAfter(s.log, s.round.lowest)))
    case Dispatch(skipped) =>
      s.(round := Idle,
         subs := DispatchTo(s.subs, skipped, s.round.batch),
         delivered := s.delivered + set e | e in s.round.batch && Sent(DispatchTo(s.subs, skipped, s.round.batch), e) :: e.id)
    case EndRound => s.(round := Idle)
    case SendAck(o) => s.(pending := s.pending + [o], acks := s.acks + [o])
    case CommitAcks(n) =>
      s.(stored := CommitBatch(s.stored, s.pending[..n]),
         committed := s.committed + [s.pending[..n]],
         pending := s.pending[n..])
    case FailAcks(n) => s.(pending := s.pending[n..], failed := s.failed + s.pending[..n])
    case TrimLookUp => s.(trimming := s.stored)
    case TrimAcked => s.(log := TrimToOffset(s.log, s.trimming))
    case TrimLength(maxLen) =>
      var kept := TrimMaxLen(s.log, maxLen);
      s.(log := kept, capped := s.capped + set e | e in s.log && e !in kept)
  }

  ghost predicate IsRun(trace: seq<State>, steps: seq<Step>) {
    && |trace| == |steps| + 1
    && trace[0] == INIT
    && forall i :: 0 <= i < |steps| ==> Enabled(trace[i], steps[i]) && trace[i + 1] == Apply(trace[i], steps[i])
  }

  // ----- what every step keeps -----

  /** `o` is where a fresh subscriber may start, or the ID of an entry that has been published. */
  ghost predicate Known(published: seq<Entry>, o: Offset) {
    o == MIN_OFFSET || exists e :: e in published && e.id == o
  }

  ghost predicate LogInv(s: State) {
    && Sorted(s.published) && Sorted(s.log)
    && (forall e :: e in s.published ==> IsEntryId(e.id))
    && (forall e :: e in s.log ==> e in s.published)
  }

  /** Every offset in the system is known. */
  ghost predicate KnownInv(s: State) {
    && (forall id :: id in s.subs ==> Known(s.published, s.subs[id].start) && Known(s.published, s.subs[id].offset))
    && (forall id :: id in s.joining ==> Known(s.published, s.joining[id]))
    && (forall o :: o in s.delivered ==> Known(s.published, o))
    && (!s.round.Idle? ==> Known(s.published, s.round.lowest))
    && (s.round.Reading? ==> forall e :: e in s.round.batch ==> e in s.published)
  }

  /** The acked IDs: on the channel or committed. */
  ghost predicate Acked(s: State, o: Offset) {
    o in s.pending || o in Flatten(s.committed)
  }

  ghost predicate AckInv(s: State) {
    && s.stored == CommitAll(None, s.committed)
    && (forall o :: Acked(s, o) ==> o in s.delivered)
    && (s.trimming.Some? ==> s.trimming.value in Flatten(s.committed))
    && (forall id :: id in s.joining ==> s.joining[id] == MIN_OFFSET || s.joining[id] in Flatten(s.committed))
    && (forall id :: id in s.subs ==> s.subs[id].start == MIN_OFFSET || s.subs[id].start in Flatten(s.committed))
  }

  /** A published entry is in the stream unless the cap evicted it or an ID at or above it was committed. */
  ghost predicate KeptInv(s: State) {
    forall e :: e in s.published && e !in s.log && e !in s.capped ==> Passed(s.committed, e)
  }

  ghost predicate Passed(committed: seq<seq<Offset>>, e: Entry) {
    exists a :: a in Flatten(committed) && AtMost(e.id, a)
  }

  /** A batch has everything of the stream from where the reader started up to each of its entries. */
  ghost predicate Covers(log: seq<Entry>, lowest: Offset, batch: seq<Entry>) {
    && Sorted(batch)
    && (forall e :: e in batch ==> Before(lowest, e.id))
    && (forall e, i :: e in log && 0 <= i < |batch| && Before(lowest, e.id) && AtMost(e.id, batch[i].id) ==> e in batch)
  }

  ghost predicate BatchInv(s: State) {
    s.round.Reading? ==> Covers(s.log, s.round.lowest, s.round.batch)
  }

  ghost predicate Inv(s: State) {
    LogInv(s) && KnownInv(s) && AckInv(s) && KeptInv(s) && BatchInv(s)
  }

  lemma LogInvKept(s: State, step: Step)
    requires LogInv(s) && Enabled(s, step)
    ensures LogInv(Apply(s, step))
  {
    var s' := Apply(s, step);
    match step {
      case Publish(e) =>
        forall i, j | 0 <= i < j < |s'.log| ensures Before(s'.log[i].id, s'.log[j].id) {
          assert s.log[i] in s.log;
        }
        forall i, j | 0 <= i < j < |s'.published| ensures Before(s'.published[i].id, s'.published[j].id) {
          assert s.published[i] in s.published;
        }
      case TrimAcked =>
        if s.trimming.Some? { MinIdExact(s.log, s.trimming.value); }
      case _ =>
    }
  }

  lemma KnownGrows(published: seq<Entry>, e: Entry)
    ensures forall o :: Known(published, o) ==> Known(published + [e], o)
  {}

  lemma {:induction false} ProcessBatchKeepsKnown(published: seq<Entry>, s: SubState, batch: seq<Entry>)
    requires Known(published, s.offset) && forall e :: e in batch ==> e in published
    ensures ProcessBatch(s, batch).start == s.start
    ensures Known(published, ProcessBatch(s, batch).offset)
  {
    if batch != [] { ProcessBatchKeepsKnown(published, s, batch[..|batch| - 1]); }
  }

  /** A read returns the first 10000 entries of the stream above the offset, or all of them if there are fewer. */
  lemma ReadsFirst(log: seq<Entry>, o: Offset) returns (n: nat)
    requires Sorted(log)
    ensures n <= |log| && forall i :: 0 <= i < |log| ==> (Before(o, log[i].id) <==> i >= n)
    ensures EntriesAfter(log, o) == log[n..if n + 10000 <= |log| then n + 10000 else |log|]
  {
    MinIdExact(log, o);
    n := |log| - |TrimMinId(log, Successor(o))|;
  }

  lemma EntriesAfterIs(log: seq<Entry>, o: Offset)
    requires Sorted(log)
    ensures Covers(log, o, EntriesAfter(log, o))
    ensures forall e :: e in EntriesAfter(log, o) ==> e in log
  {
    var n := ReadsFirst(log, o);
    var batch := EntriesAfter(log, o);
    forall e, i | e in log && 0 <= i < |batch| && Before(o, e.id) && AtMost(e.id, batch[i].id) ensures e in batch {
      var k :| 0 <= k < |log| && log[k] == e;
      assert batch[i] == log[n + i] && n <= k <= n + i;
      assert batch[k - n] == e;
    }
  }

  lemma LowestIsKnown(s: State, order: seq<SubId>)
    requires KnownInv(s) && Enabled(s, Gather(order))
    ensures Known(s.published, Lowest(OffsetsIn(s.subs, order)))
  {}

  lemma DispatchKeepsKnown(s: State, skipped: set<SubId>)
    requires KnownInv(s) && Enabled(s, Dispatch(skipped))
    ensures KnownInv(Apply(s, Dispatch(skipped)))
  {
    var s' := Apply(s, Dispatch(skipped));
    forall id | id in s.subs
      ensures Known(s.published, s'.subs[id].start) && Known(s.published, s'.subs[id].offset)
    {
      ProcessBatchKeepsKnown(s.published, s.subs[id], s.round.batch);
    }
  }

  lemma KnownInvKept(s: State, step: Step)
    requires LogInv(s) && KnownInv(s) && AckInv(s) && Enabled(s, step)
    ensures KnownInv(Apply(s, step))
  {
    match step {
      case Publish(e) => KnownGrows(s.published, e);
      case LookUp(sub) =>
        CommitAllStoresAcked(None, s.committed);
        assert s.stored.Some? ==> Acked(s, s.stored.value);
      case Gather(order) => LowestIsKnown(s, order);
      case XRead => EntriesAfterIs(s.log, s.round.lowest);
      case Dispatch(skipped) => DispatchKeepsKnown(s, skipped);
      case _ =>
    }
  }

  lemma CommitKeepsAckInv(s: State, n: nat)
    requires AckInv(s) && Enabled(s, CommitAcks(n))
    ensures AckInv(Apply(s, CommitAcks(n)))
  {}

  lemma DispatchKeepsAckInv(s: State, skipped: set<SubId>)
    requires KnownInv(s) && AckInv(s) && Enabled(s, Dispatch(skipped))
    ensures AckInv(Apply(s, Dispatch(skipped)))
  {
    var s' := Apply(s, Dispatch(skipped));
    forall id | id in s.subs ensures s'.subs[id].start == s.subs[id].start {
      ProcessBatchKeepsKnown(s.published, s.subs[id], s.round.batch);
    }
    forall o | Acked(s', o) ensures o in s'.delivered { assert Acked(s, o); }
  }

  lemma AckInvKept(s: State, step: Step)
    requires KnownInv(s) && AckInv(s) && Enabled(s, step)
    ensures AckInv(Apply(s, step))
  {
    var s' := Apply(s, step);
    match step {
      case CommitAcks(n) => CommitKeepsAckInv(s, n);
      case FailAcks(n) => forall o | Acked(s', o) ensures Acked(s, o) {}
      case SendAck(o) => forall a | Acked(s', a) ensures Acked(s, a) || a == o {}
      case Dispatch(skipped) => DispatchKeepsAckInv(s, skipped);
      case _ =>
        CommitAllStoresAcked(None, s.committed);
        forall o | Acked(s', o) ensures o in s'.delivered { assert Acked(s, o); }
    }
  }

  lemma KeptInvKept(s: State, step: Step)
    requires LogInv(s) && AckInv(s) && KeptInv(s) && Enabled(s, step)
    ensures KeptInv(Apply(s, step))
  {
    var s' := Apply(s, step);
    match step {
      case CommitAcks(n) =>
        assert s'.committed[..|s.committed|] == s.committed;
        forall e | Passed(s.committed, e) ensures Passed(s'.committed, e) {
          var a :| a in Flatten(s.committed) && AtMost(e.id, a);
          assert a in Flatten(s'.committed);
        }
      case TrimAcked =>
        if s.trimming.Some? {
          MinIdExact(s.log, s.trimming.value);
          forall e | e in s.log && e !in s'.log ensures Passed(s.committed, e) {
            assert AtMost(e.id, s.trimming.value);
          }
        }
      case _ =>
    }
  }

  lemma BatchInvKept(s: State, step: Step)
    requires LogInv(s) && KnownInv(s) && BatchInv(s) && Enabled(s, step)
    ensures BatchInv(Apply(s, step))
  {
    match step {
      case Publish(e) =>
        if s.round.Reading? {
          forall i | 0 <= i < |s.round.batch| ensures Before(s.round.batch[i].id, e.id) {
            assert s.round.batch[i] in s.round.batch;
          }
        }
      case XRead => EntriesAfterIs(s.log, s.round.lowest);
      case TrimAcked => if s.trimming.Some? { MinIdExact(s.log, s.trimming.value); }
      case _ =>
    }
  }

  lemma {:induction false} InvInRuns(trace: seq<State>, steps: seq<Step>, i: nat)
    requires IsRun(trace, steps) && i < |trace|
    ensures Inv(trace[i])
  {
    if i > 0 {
      InvInRuns(trace, steps, i - 1);
      var s, step := trace[i - 1], steps[i - 1];
      LogInvKept(s, step);
      KnownInvKept(s, step);
      AckInvKept(s, step);
      KeptInvKept(s, step);
      BatchInvKept(s, step);
    }
  }

  ghost predicate NewerThanAllAcked(s: State, e: Entry) {
    forall a :: Acked(s, a) ==> Before(a, e.id)
  }

  /**
  In every run the stored offset is an acked ID, so an entry newer than every acked
  ID survives the ack-based trimming and lies above where a subscriber that is
  joining, or has the stored offset to start from, will begin.
  */
  lemma CumulativeAckSafety(trace: seq<State>, steps: seq<Step>, i: nat)
    requires IsRun(trace, steps) && i < |trace|
    ensures var s := trace[i];
            && (s.stored.Some? ==> Acked(s, s.stored.value) && s.stored.value in s.delivered)
            && forall e :: e in s.published && NewerThanAllAcked(s, e) ==>
                 && (e in s.log || e in s.capped)
                 && (s.stored.Some? ==> Before(s.stored.value, e.id))
                 && (forall id :: id in s.joining ==> Before(s.joining[id], e.id))
                 && (forall id :: id in s.subs ==> Before(s.subs[id].start, e.id))
  {
    InvInRuns(trace, steps, i);
    var s := trace[i];
    CommitAllStoresAcked(None, s.committed);
    assert s.stored.Some? ==> Acked(s, s.stored.value);
    forall e | e in s.published && NewerThanAllAcked(s, e)
      ensures e in s.log || e in s.capped
      ensures s.stored.Some? ==> Before(s.stored.value, e.id)
      ensures forall id :: id in s.joining ==> Before(s.joining[id], e.id)
      ensures forall id :: id in s.subs ==> Before(s.subs[id].start, e.id)
    {
      assert forall a :: a in Flatten(s.committed) ==> Acked(s, a);
      forall id | id in s.joining ensures Before(s.joining[id], e.id) {
        if s.joining[id] != MIN_OFFSET { assert Acked(s, s.joining[id]); }
      }
      forall id | id in s.subs ensures Before(s.subs[id].start, e.id) {
        if s.subs[id].start != MIN_OFFSET { assert Acked(s, s.subs[id].start); }
      }
    }
  }

  /** In every run: the stored offset is the highest committed ID whenever the committed IDs are safe to coalesce. */
  lemma StoredIsHighest(trace: seq<State>, steps: seq<Step>, i: nat, m: Offset)
    requires IsRun(trace, steps) && i < |trace|
    requires var ids := Members(Flatten(trace[i].committed)); IsHighest(m, ids) && CoalescingSafe(ids, m)
    ensures trace[i].stored == Some(m)
  {
    InvInRuns(trace, steps, i);
    SafeCommits(Members(Flatten(trace[i].committed)), m, trace[i].committed);
  }

  /**
  Acks are cumulative: when the committed IDs are safe to coalesce, an entry lies above
  the stored offset, where a new subscriber starts, exactly when it is newer than every
  committed ID. So an entry that was never acked is skipped as soon as a later one is.
  */
  lemma RedeliveredIff(trace: seq<State>, steps: seq<Step>, i: nat, m: Offset, e: Entry)
    requires IsRun(trace, steps) && i < |trace|
    requires var ids := Members(Flatten(trace[i].committed)); IsHighest(m, ids) && CoalescingSafe(ids, m)
    ensures trace[i].stored.Some? &&
            (Before(trace[i].stored.value, e.id) <==> forall a :: a in Flatten(trace[i].committed) ==> Before(a, e.id))
  {
    StoredIsHighest(trace, steps, i, m);
    assert m in Members(Flatten(trace[i].committed));
    forall a | a in Flatten(trace[i].committed) ensures AtMost(a, m) {
      assert a in Members(Flatten(trace[i].committed));
    }
  }

  /** In every run a subscriber is registered from its registration until it leaves. */
  lemma RegisteredUntilLeaving(trace: seq<State>, steps: seq<Step>, i: nat, id: SubId)
    requires IsRun(trace, steps) && i < |steps|
    ensures id in trace[i + 1].subs <==> steps[i] == Register(id) || (id in trace[i].subs && steps[i] != Leave(id))
    ensures steps[i].Dispatch? || steps[i].EndRound? ==> trace[i + 1].round.Idle?
  {}

  /** What the history records at a step. */
  ghost predicate Records(s: State, step: Step, s': State) {
    && (forall e :: e in s'.capped && e !in s.capped ==> step.TrimLength? && e in s.log && e !in s'.log)
    && (forall e :: e in s'.published && e !in s.published ==> step == Publish(e))
    && (forall o :: o in s'.delivered && o !in s.delivered ==>
          step.Dispatch? && exists id, e :: WasSent(s, s', id, e) && e.id == o)
    && (s'.committed != s.committed ==>
          step.CommitAcks? && step.n <= |s.pending| && s'.committed == s.committed + [s.pending[..step.n]])
  }

  /** The entry was read, and is among those the subscriber has been sent. */
  ghost predicate WasSent(s: State, s': State, id: SubId, e: Entry) {
    id in s'.subs && e in s'.subs[id].sent && s.round.Reading? && e in s.round.batch
  }

  /**
  What the theorems call capped, published, delivered and committed is what happened: an
  entry is capped only when the length trim evicts it, published only by a publisher, an
  ID delivered only when an entry read goes to a subscriber, and a batch committed only
  when the ack loop takes it from the channel.
  */
  lemma HistoryIsReal(trace: seq<State>, steps: seq<Step>, i: nat)
    requires IsRun(trace, steps) && i < |steps|
    ensures Records(trace[i], steps[i], trace[i + 1])
  {
    var s, step, s' := trace[i], steps[i], trace[i + 1];
    if step.Dispatch? { DeliveredIsReal(s, step, s'); }
  }

  lemma DeliveredIsReal(s: State, step: Step, s': State)
    requires Enabled(s, step) && step.Dispatch? && s' == Apply(s, step)
    ensures forall o :: o in s'.delivered && o !in s.delivered ==> exists id, e :: WasSent(s, s', id, e) && e.id == o
  {
    forall o | o in s'.delivered && o !in s.delivered ensures exists id, e :: WasSent(s, s', id, e) && e.id == o {
      var e :| e in s.round.batch && Sent(s'.subs, e) && e.id == o;
      var id :| id in s'.subs && e in s'.subs[id].sent;
      assert WasSent(s, s', id, e);
    }
  }

  /** In every run a trim leaves precisely the entries above the offset looked up for it, and the cap the newest ones. */
  lemma TrimsInRuns(trace: seq<State>, steps: seq<Step>, i: nat)
    requires IsRun(trace, steps) && i < |steps|
    ensures var s, s' := trace[i], trace[i + 1];
            && (steps[i].TrimAcked? ==>
                  forall e :: e in s'.log <==> e in s.log && (s.trimming.Some? ==> Before(s.trimming.value, e.id)))
            && (steps[i].TrimLookUp? ==> s'.trimming == s.stored && s'.log == s.log)
            && (steps[i].TrimLength? ==>
                  s'.log == if |s.log| <= steps[i].maxLen then s.log else s.log[|s.log| - steps[i].maxLen..])
  {
    assert Sorted(trace[i].log) by { InvInRuns(trace, steps, i); }
    TrimStep(trace[i], steps[i], trace[i + 1]);
  }

  lemma TrimStep(s: State, step: Step, s': State)
    requires Sorted(s.log) && Enabled(s, step) && s' == Apply(s, step)
    ensures step.TrimAcked? ==>
              forall e :: e in s'.log <==> e in s.log && (s.trimming.Some? ==> Before(s.trimming.value, e.id))
    ensures step.TrimLookUp? ==> s'.trimming == s.stored && s'.log == s.log
    ensures step.TrimLength? ==> s'.log == if |s.log| <= step.maxLen then s.log else s.log[|s.log| - step.maxLen..]
  {
    if step.TrimAcked? && s.trimming.Some? { MinIdExact(s.log, s.trimming.value); }
  }

  /** Every ack sent is on the channel, committed or failed, once. */
  ghost predicate AcksCounted(s: State) {
    multiset(s.acks) == multiset(s.pending) + multiset(Flatten(s.committed)) + multiset(s.failed)
  }

  lemma TakenAcksCounted(pending: seq<Offset>, n: nat, committed: seq<seq<Offset>>)
    requires n <= |pending|
    ensures multiset(pending) == multiset(pending[..n]) + multiset(pending[n..])
    ensures multiset(Flatten(committed + [pending[..n]])) == multiset(Flatten(committed)) + multiset(pending[..n])
  {
    assert pending == pending[..n] + pending[n..];
    AppendBatch(committed, pending[..n]);
  }

  lemma CommitCounted(s: State, n: nat)
    requires AcksCounted(s) && Enabled(s, CommitAcks(n))
    ensures AcksCounted(Apply(s, CommitAcks(n)))
  {
    TakenAcksCounted(s.pending, n, s.committed);
  }

  lemma FailCounted(s: State, n: nat)
    requires AcksCounted(s) && Enabled(s, FailAcks(n))
    ensures AcksCounted(Apply(s, FailAcks(n)))
  {
    TakenAcksCounted(s.pending, n, s.committed);
  }

  lemma SendCounted(s: State, o: Offset)
    requires AcksCounted(s) && Enabled(s, SendAck(o))
    ensures AcksCounted(Apply(s, SendAck(o)))
  {}

  lemma AcksUntouched(s: State, step: Step)
    requires Enabled(s, step) && !step.CommitAcks? && !step.FailAcks? && !step.SendAck?
    ensures var s' := Apply(s, step);
            s'.acks == s.acks && s'.pending == s.pending && s'.committed == s.committed && s'.failed == s.failed
  {}

  lemma AcksCountedKept(s: State, step: Step)
    requires AcksCounted(s) && Enabled(s, step)
    ensures AcksCounted(Apply(s, step))
  {
    match step {
      case CommitAcks(n) => CommitCounted(s, n);
      case FailAcks(n) => FailCounted(s, n);
      case SendAck(o) => SendCounted(s, o);
      case _ => AcksUntouched(s, step);
    }
  }

  /** In every run no ack is lost or made up on its way to the commit. */
  lemma {:induction false} AcksAccountedFor(trace: seq<State>, steps: seq<Step>, i: nat)
    requires IsRun(trace, steps) && i < |trace|
    ensures multiset(trace[i].acks) == multiset(trace[i].pending) + multiset(Flatten(trace[i].committed)) + multiset(trace[i].failed)
  {
    if i > 0 {
      AcksAccountedFor(trace, steps, i - 1);
      AcksCountedKept(trace[i - 1], steps[i - 1]);
    }
  }

  /** The offset the key held at a step, or the smallest offset if it held none. */
  predicate LookedUpAt(s: State, step: Step, sub: SubId, o: Offset) {
    step == LookUp(sub) && o == if s.stored.Some? then s.stored.value else Offset(0, 0)
  }

  ghost predicate LookedUp(trace: seq<State>, steps: seq<Step>, i: nat, sub: SubId, o: Offset)
    requires |trace| == |steps| + 1 && i < |trace|
  {
    exists j :: 0 <= j < i && LookedUpAt(trace[j], steps[j], sub, o)
  }

  /** In every run a subscriber starts at the offset that was stored when it looked it up. */
  lemma {:induction false} StartsAtStored(trace: seq<State>, steps: seq<Step>, i: nat, id: SubId)
    requires IsRun(trace, steps) && i < |trace|
    ensures id in trace[i].subs ==> LookedUp(trace, steps, i, id, trace[i].subs[id].start)
    ensures id in trace[i].joining ==> LookedUp(trace, steps, i, id, trace[i].joining[id])
  {
    if i > 0 {
      StartsAtStored(trace, steps, i - 1, id);
      StartStep(trace[i - 1], steps[i - 1], trace[i], id);
    }
  }

  lemma {:induction false} ProcessBatchKeepsStart(s: SubState, batch: seq<Entry>)
    ensures ProcessBatch(s, batch).start == s.start
  {
    if batch != [] { ProcessBatchKeepsStart(s, batch[..|batch| - 1]); }
  }

  lemma StartStep(s: State, step: Step, s': State, id: SubId)
    requires Enabled(s, step) && s' == Apply(s, step)
    ensures id in s'.subs ==>
              (id in s.subs && s'.subs[id].start == s.subs[id].start) || (id in s.joining && s'.subs[id].start == s.joining[id])
    ensures id in s'.joining ==>
              (id in s.joining && s'.joining[id] == s.joining[id]) || LookedUpAt(s, step, id, s'.joining[id])
  {
    if step.Dispatch? && id in s.subs { ProcessBatchKeepsStart(s.subs[id], s.round.batch); }
  }

  // ----- no gaps -----

  /** Everything still in the stream between the start and the current offset has been sent. */
  ghost predicate NoGap(log: seq<Entry>, sub: SubState) {
    forall e :: e in log && Before(sub.start, e.id) && AtMost(e.id, sub.offset) ==> e in sub.sent
  }

  /** Processing: what is sent grows, and the offset is the old one or that of a processed entry. */
  lemma {:induction false} ProcessBatchShape(s: SubState, batch: seq<Entry>)
    requires Sorted(batch)
    ensures var r := ProcessBatch(s, batch);
            && r.start == s.start && s.sent <= r.sent
            && (r.offset == s.offset || exists e :: e in batch && e.id == r.offset)
            && (forall e :: e in batch ==> e in r.sent || AtMost(e.id, s.offset))
            && (forall e :: e in r.sent ==> e in s.sent || e in batch)
  {
    if batch != [] {
      var front, msg := batch[..|batch| - 1], batch[|batch| - 1];
      ProcessBatchShape(s, front);
      assert batch == front + [msg];
    }
  }

  /** A batch read from at or below the subscriber's own offset leaves no gap. */
  lemma DispatchKeepsNoGap(log: seq<Entry>, lowest: Offset, batch: seq<Entry>, s: SubState)
    requires Covers(log, lowest, batch) && NoGap(log, s) && AtMost(lowest, s.offset)
    ensures NoGap(log, ProcessBatch(s, batch))
  {
    ProcessBatchShape(s, batch);
    var r := ProcessBatch(s, batch);
    forall e | e in log && Before(r.start, e.id) && AtMost(e.id, r.offset) ensures e in r.sent {
      if !AtMost(e.id, s.offset) {
        var m :| m in batch && m.id == r.offset;
        var i :| 0 <= i < |batch| && batch[i] == m;
        assert e in batch;
      }
    }
  }

  /** A read from `lowest` passes over nothing that the subscriber has yet to be sent. */
  ghost predicate SkipsNothing(log: seq<Entry>, lowest: Offset, s: SubState) {
    forall e :: e in log && Before(s.start, e.id) && Before(s.offset, e.id) && AtMost(e.id, lowest) ==> e in s.sent
  }

  lemma BatchAboveOffset(lowest: Offset, batch: seq<Entry>, s: SubState)
    requires Sorted(batch) && batch != [] && Before(s.offset, lowest)
    requires forall e :: e in batch ==> Before(lowest, e.id)
    ensures ProcessBatch(s, batch) == SubState(s.start, batch[|batch| - 1].id, s.sent + batch)
    ensures Before(lowest, batch[|batch| - 1].id)
  {
    assert batch[|batch| - 1] in batch;
    AllAboveAreSent(s, batch);
    ProcessBatchShape(s, batch);
  }

  /** A batch leaves a subscriber without gap exactly when it is empty or was read without skipping anything. */
  lemma DispatchKeepsNoGapIff(log: seq<Entry>, lowest: Offset, batch: seq<Entry>, s: SubState)
    requires Covers(log, lowest, batch) && NoGap(log, s)
    ensures NoGap(log, ProcessBatch(s, batch)) <==> batch == [] || SkipsNothing(log, lowest, s)
  {
    if AtMost(lowest, s.offset) {
      DispatchKeepsNoGap(log, lowest, batch, s);
    } else if batch != [] {
      BatchAboveOffset(lowest, batch, s);
      var r := ProcessBatch(s, batch);
      if SkipsNothing(log, lowest, s) {
        forall e | e in log && Before(r.start, e.id) && AtMost(e.id, r.offset) ensures e in r.sent {
          if Before(lowest, e.id) { assert e in batch; }
        }
      } else {
        var e :| e in log && Before(s.start, e.id) && Before(s.offset, e.id) && AtMost(e.id, lowest) && e !in s.sent;
        assert e !in batch;
      }
    }
  }

  ghost predicate NoGapAnywhere(s: State) {
    forall id :: id in s.subs ==> NoGap(s.log, s.subs[id])
  }

  /** The step is not a dispatch that skips something for a subscriber it reaches. */
  ghost predicate Reaches(s: State, step: Step)
    requires Enabled(s, step)
  {
    step.Dispatch? && s.round.batch != [] ==>
      forall id :: id in s.subs && id !in step.skipped ==> SkipsNothing(s.log, s.round.lowest, s.subs[id])
  }

  lemma DispatchIff(s: State, skipped: set<SubId>)
    requires Inv(s) && NoGapAnywhere(s) && Enabled(s, Dispatch(skipped))
    ensures NoGapAnywhere(Apply(s, Dispatch(skipped))) <==> Reaches(s, Dispatch(skipped))
  {
    var s' := Apply(s, Dispatch(skipped));
    forall id | id in s.subs && id !in skipped
      ensures NoGap(s'.log, s'.subs[id]) <==> s.round.batch == [] || SkipsNothing(s.log, s.round.lowest, s.subs[id])
    {
      DispatchKeepsNoGapIff(s.log, s.round.lowest, s.round.batch, s.subs[id]);
    }
  }

  /** Only a dispatch that skips something opens a gap. */
  lemma StepKeepsNoGapIff(s: State, step: Step)
    requires Inv(s) && NoGapAnywhere(s) && Enabled(s, step)
    ensures NoGapAnywhere(Apply(s, step)) <==> Reaches(s, step)
  {
    match step {
      case Publish(e) => forall id | id in s.subs ensures Before(s.subs[id].offset, e.id) {}
      case Dispatch(skipped) => DispatchIff(s, skipped);
      case TrimAcked => if s.trimming.Some? { MinIdExact(s.log, s.trimming.value); }
      case _ =>
    }
  }

  lemma {:induction false} NoGapWhileReaching(trace: seq<State>, steps: seq<Step>, i: nat)
    requires IsRun(trace, steps) && i < |trace| && forall k :: 0 <= k < i ==> Reaches(trace[k], steps[k])
    ensures NoGapAnywhere(trace[i])
  {
    if i > 0 {
      NoGapWhileReaching(trace, steps, i - 1);
      InvInRuns(trace, steps, i - 1);
      StepKeepsNoGapIff(trace[i - 1], steps[i - 1]);
    }
  }

  /**
  No gaps, exactly, over every run: up to any state no registered subscriber ever
  misses an entry still in the stream between its start and its current offset if and
  only if no dispatch before it skips something, be it because of an inexact gather or
  because of a late joiner.
  */
  lemma NoGapsIff(trace: seq<State>, steps: seq<Step>, n: nat)
    requires IsRun(trace, steps) && n < |trace|
    ensures (forall i :: 0 <= i <= n ==> NoGapAnywhere(trace[i])) <==> forall k :: 0 <= k < n ==> Reaches(trace[k], steps[k])
  {
    if forall k :: 0 <= k < n ==> Reaches(trace[k], steps[k]) {
      forall i | 0 <= i <= n ensures NoGapAnywhere(trace[i]) { NoGapWhileReaching(trace, steps, i); }
    } else {
      var k :| 0 <= k < n && !Reaches(trace[k], steps[k]);
      if forall i :: 0 <= i <= n ==> NoGapAnywhere(trace[i]) {
        assert NoGapAnywhere(trace[k]) && NoGapAnywhere(trace[k + 1]);
        InvInRuns(trace, steps, k);
        StepKeepsNoGapIff(trace[k], steps[k]);
      }
    }
  }

  // ----- when nothing is skipped -----

  /** An exact gather, and no late joiner below a read in flight. */
  ghost predicate SafeStep(s: State, step: Step)
    requires Enabled(s, step)
  {
    match step
    case Gather(order) => NoInversionWithLowest(OffsetsIn(s.subs, order))
    case Register(sub) => s.round.Idle? || AtMost(s.round.lowest, s.joining[sub])
    case _ => true
  }

  ghost predicate ReaderInv(s: State) {
    !s.round.Idle? ==> forall id :: id in s.subs ==> AtMost(s.round.lowest, s.subs[id].offset)
  }

  lemma GatherBelowAll(s: State, order: seq<SubId>)
    requires Enabled(s, Gather(order)) && NoInversionWithLowest(OffsetsIn(s.subs, order))
    ensures forall id :: id in s.subs ==> AtMost(Lowest(OffsetsIn(s.subs, order)), s.subs[id].offset)
  {
    var offsets := OffsetsIn(s.subs, order);
    var m := SomeLowest(offsets);
    LowestWithoutInversion(offsets, m);
    forall id | id in s.subs ensures AtMost(Lowest(offsets), s.subs[id].offset) {
      var i :| 0 <= i < |order| && order[i] == id;
      assert offsets[i] in offsets;
    }
  }

  /** A gather is exact over one subscriber, and over any subscribers of a stream whose IDs have no inversions. */
  lemma GatherIsSafe(s: State, order: seq<SubId>)
    requires KnownInv(s) && Enabled(s, Gather(order)) && (|order| == 1 || NoInversions(s.published))
    ensures NoInversionWithLowest(OffsetsIn(s.subs, order))
  {}

  lemma ReaderInvKept(s: State, step: Step)
    requires ReaderInv(s) && Enabled(s, step) && SafeStep(s, step)
    ensures ReaderInv(Apply(s, step))
  {
    if step.Gather? { GatherBelowAll(s, step.order); }
  }

  ghost predicate IsSafeRun(trace: seq<State>, steps: seq<Step>) {
    IsRun(trace, steps) && forall i :: 0 <= i < |steps| ==> SafeStep(trace[i], steps[i])
  }

  lemma {:induction false} ReaderInvInRuns(trace: seq<State>, steps: seq<Step>, i: nat)
    requires IsSafeRun(trace, steps) && i < |trace|
    ensures ReaderInv(trace[i])
  {
    if i > 0 {
      ReaderInvInRuns(trace, steps, i - 1);
      ReaderInvKept(trace[i - 1], steps[i - 1]);
    }
  }

  /**
  No gaps, over every safe run: a registered subscriber has been sent every entry
  still in the stream between its start and its current offset; and, of all entries
  ever published there, every one that is newer than all acked IDs and was not
  evicted by the length cap.
  */
  lemma NoGaps(trace: seq<State>, steps: seq<Step>, i: nat, id: SubId)
    requires IsSafeRun(trace, steps) && i < |trace| && id in trace[i].subs
    ensures NoGap(trace[i].log, trace[i].subs[id])
    ensures forall e :: e in trace[i].published && e !in trace[i].capped && NewerThanAllAcked(trace[i], e) ==>
              AtMost(e.id, trace[i].subs[id].offset) ==> e in trace[i].subs[id].sent
  {
    forall k | 0 <= k < i ensures Reaches(trace[k], steps[k]) { ReaderInvInRuns(trace, steps, k); }
    NoGapWhileReaching(trace, steps, i);
    CumulativeAckSafety(trace, steps, i);
  }

  /** The step is not a registration below a read in flight, nor, unless `single` is false, a gather over several. */
  ghost predicate Timely(s: State, step: Step, single: bool)
    requires Enabled(s, step)
  {
    && (step.Register? ==> s.round.Idle? || AtMost(s.round.lowest, s.joining[step.sub]))
    && (step.Gather? && single ==> |step.order| == 1)
  }

  /**
  The conditions discharged: without late joiners, a run is safe if every gather is
  over one subscriber, or if the IDs published have no inversions.
  */
  lemma SafeWhen(trace: seq<State>, steps: seq<Step>, single: bool)
    requires IsRun(trace, steps) && (single || NoInversions(trace[|steps|].published))
    requires forall i :: 0 <= i < |steps| ==> Timely(trace[i], steps[i], single)
    ensures IsSafeRun(trace, steps)
  {
    forall i | 0 <= i < |steps| ensures SafeStep(trace[i], steps[i]) {
      InvInRuns(trace, steps, i);
      if steps[i].Gather? {
        PublishedGrowsInRuns(trace, steps, i, |steps|);
        GatherIsSafe(trace[i], steps[i].order);
      }
    }
  }

  lemma {:induction false} PublishedGrowsInRuns(trace: seq<State>, steps: seq<Step>, i: nat, j: nat)
    requires IsRun(trace, steps) && i <= j < |trace|
    ensures forall e :: e in trace[i].published ==> e in trace[j].published
  {
    if i < j {
      PublishedGrowsInRuns(trace, steps, i, j - 1);
      PublishedGrows(trace[j - 1], steps[j - 1]);
    }
  }

  /**
  Delivery: when no more than COUNT entries lie above the offset a round reads from,
  that round leaves the subscriber at or past everything then in the stream, and sent
  all of it that lies above its start.
  */
  lemma RoundDelivers(log: seq<Entry>, lowest: Offset, s: SubState)
    requires Sorted(log) && NoGap(log, s) && AtMost(lowest, s.offset)
    requires |TrimMinId(log, Successor(lowest))| <= COUNT
    ensures var r := ProcessBatch(s, EntriesAfter(log, lowest));
            forall e :: e in log ==> AtMost(e.id, r.offset) && (Before(s.start, e.id) ==> e in r.sent)
  {
    var batch := EntriesAfter(log, lowest);
    var r := ProcessBatch(s, batch);
    EntriesAfterIs(log, lowest);
    assert NoGap(log, r) by { DispatchKeepsNoGap(log, lowest, batch, s); }
    assert r.start == s.start by { ProcessBatchShape(s, batch); }
    forall e | e in log ensures AtMost(e.id, r.offset) { RoundPasses(log, lowest, s, e); }
  }

  /** The round's batch ends with the last entry of the stream, if anything lies above the offset. */
  lemma RoundPasses(log: seq<Entry>, lowest: Offset, s: SubState, e: Entry)
    requires Sorted(log) && AtMost(lowest, s.offset) && e in log
    requires |TrimMinId(log, Successor(lowest))| <= COUNT
    ensures AtMost(e.id, ProcessBatch(s, EntriesAfter(log, lowest)).offset)
  {
    var batch := EntriesAfter(log, lowest);
    MinIdExact(log, lowest);
    if batch != [] { EndsAtLast(s, batch); }
  }

  /**
  A whole round in a safe run: a subscriber that is not skipped ends up at or past
  everything that was in the stream when it was read, and sent all of it that lies above
  its start, unless more than 10000 entries lie above the offset gathered.
  */
  lemma RoundInRuns(trace: seq<State>, steps: seq<Step>, k: nat, id: SubId)
    requires IsSafeRun(trace, steps) && k + 2 < |steps| && steps[k].Gather? && steps[k + 1].XRead? && steps[k + 2].Dispatch?
    requires id in trace[k].subs && id !in steps[k + 2].skipped
    requires |TrimMinId(trace[k].log, Successor(trace[k + 1].round.lowest))| <= COUNT
    ensures id in trace[k + 3].subs
    ensures forall e :: e in trace[k].log ==>
              AtMost(e.id, trace[k + 3].subs[id].offset) &&
              (Before(trace[k].subs[id].start, e.id) ==> e in trace[k + 3].subs[id].sent)
  {
    assert trace[k + 1] == Apply(trace[k], steps[k]) && trace[k + 2] == Apply(trace[k + 1], steps[k + 1]);
    assert trace[k + 3] == Apply(trace[k + 2], steps[k + 2]);
    InvInRuns(trace, steps, k);
    ReaderInvInRuns(trace, steps, k + 1);
    NoGaps(trace, steps, k, id);
    RoundDelivers(trace[k].log, trace[k + 1].round.lowest, trace[k].subs[id]);
  }

  lemma EndsAtLast(s: SubState, batch: seq<Entry>)
    requires batch != [] && Sorted(batch)
    ensures var last, r := batch[|batch| - 1], ProcessBatch(s, batch);
            r.offset == last.id || (r.offset == s.offset && AtMost(last.id, s.offset))
  {
    ProcessBatchShape(s, batch[..|batch| - 1]);
  }

  // ----- no repetition -----

  predicate NoInversions(entries: seq<Entry>) {
    forall a, b :: a in entries && b in entries ==> !Inverted(a.id, b.id)
  }

  /** A subscriber's offset is that of the last entry it was sent, and what it was sent is in stream order and above its start. */
  ghost predicate SentInOrder(sub: SubState) {
    && Sorted(sub.sent) && (forall e :: e in sub.sent ==> Before(sub.start, e.id))
    && sub.offset == if sub.sent == [] then sub.start else sub.sent[|sub.sent| - 1].id
  }

  lemma {:induction false} ProcessBatchInOrder(published: seq<Entry>, s: SubState, batch: seq<Entry>)
    requires NoInversions(published) && Known(published, s.offset) && SentInOrder(s)
    requires forall e :: e in batch ==> e in published
    ensures SentInOrder(ProcessBatch(s, batch))
  {
    if batch != [] {
      var front, msg := batch[..|batch| - 1], batch[|batch| - 1];
      assert batch == front + [msg];
      ProcessBatchInOrder(published, s, front);
      ProcessBatchKeepsKnown(published, s, front);
      var p := ProcessBatch(s, front);
      assert msg in batch;
      if LessThan(p.offset, msg.id) {
        assert Before(p.offset, msg.id);
        SortedSnoc(p.sent, msg);
      }
    }
  }

  lemma SortedSnoc(log: seq<Entry>, e: Entry)
    requires Sorted(log) && (log == [] || Before(log[|log| - 1].id, e.id))
    ensures Sorted(log + [e])
  {
    forall i | 0 <= i < |log| ensures Before(log[i].id, e.id) {
      assert i == |log| - 1 || Before(log[i].id, log[|log| - 1].id);
    }
  }

  ghost predicate AllSentInOrder(s: State) {
    forall id :: id in s.subs ==> SentInOrder(s.subs[id])
  }

  lemma SentInOrderKept(s: State, step: Step, s': State)
    requires KnownInv(s) && NoInversions(s.published) && Enabled(s, step) && s' == Apply(s, step) && AllSentInOrder(s)
    ensures AllSentInOrder(s')
  {
    if step.Dispatch? {
      forall id | id in s.subs ensures SentInOrder(s'.subs[id]) {
        ProcessBatchInOrder(s.published, s.subs[id], s.round.batch);
      }
    }
  }

  lemma PublishedGrows(s: State, step: Step)
    requires Enabled(s, step)
    ensures forall e :: e in s.published ==> e in Apply(s, step).published
  {}

  /** In every run over IDs without inversions, each subscriber is sent entries above its start in stream order, none twice. */
  lemma {:induction false} SentOnceInOrder(trace: seq<State>, steps: seq<Step>, i: nat)
    requires IsRun(trace, steps) && i < |trace| && NoInversions(trace[i].published)
    ensures AllSentInOrder(trace[i])
  {
    if i > 0 {
      var k := i - 1;
      assert NoInversions(trace[k].published) by { PublishedGrows(trace[k], steps[k]); }
      SentOnceInOrder(trace, steps, k);
      assert KnownInv(trace[k]) by { InvInRuns(trace, steps, k); }
      SentInOrderKept(trace[k], steps[k], trace[k + 1]);
    }
  }

  // ----- late joiners -----

  /**
  A subscriber that registers while a read is in flight keeps its no-gap property
  through that read exactly when the stream holds nothing between its start and the
  offset the read began at.
  */
  lemma LateJoinIff(log: seq<Entry>, lowest: Offset, batch: seq<Entry>, start: Offset)
    requires Covers(log, lowest, batch) && batch != []
    ensures NoGap(log, ProcessBatch(Fresh(start), batch)) <==>
            forall e :: e in log && Before(start, e.id) ==> Before(lowest, e.id)
  {
    DispatchKeepsNoGapIff(log, lowest, batch, Fresh(start));
  }

  lemma {:induction false} AllAboveAreSent(s: SubState, batch: seq<Entry>)
    requires Sorted(batch) && forall e :: e in batch ==> Before(s.offset, e.id)
    ensures ProcessBatch(s, batch).sent == s.sent + batch
    ensures batch != [] ==> ProcessBatch(s, batch).offset == batch[|batch| - 1].id
  {
    if batch != [] {
      AllAboveAreSent(s, batch[..|batch| - 1]);
      assert batch == batch[..|batch| - 1] + [batch[|batch| - 1]];
    }
  }

  lemma Extend(trace: seq<State>, steps: seq<Step>, step: Step) returns (trace': seq<State>, steps': seq<Step>)
    requires IsRun(trace, steps) && Enabled(trace[|steps|], step)
    ensures IsRun(trace', steps') && trace'[|steps'|] == Apply(trace[|steps|], step)
  {
    trace', steps' := trace + [Apply(trace[|steps|], step)], steps + [step];
  }

  const ENTRY_1 := Entry(Offset(1_600_000_000_000, 0), "a")
  const ENTRY_2 := Entry(Offset(1_600_000_000_000, 1), "b")
  const AFTER_1 := SubState(MIN_OFFSET, ENTRY_1.id, [ENTRY_1])

  const START := INIT.(log := [ENTRY_1], published := [ENTRY_1], subs := map[0 := Fresh(MIN_OFFSET)])

  lemma FirstRegistration() returns (trace: seq<State>, steps: seq<Step>)
    ensures IsRun(trace, steps) && trace[|steps|] == START
  {
    trace, steps := [INIT], [];
    trace, steps := Extend(trace, steps, Publish(ENTRY_1));
    trace, steps := Extend(trace, steps, LookUp(0));
    trace, steps := Extend(trace, steps, Register(0));
    assert map[0 := MIN_OFFSET] - {0} == map[];
  }

  /** Subscriber 0 registers, and is sent the first entry. */
  lemma FirstDelivery() returns (trace: seq<State>, steps: seq<Step>)
    ensures IsRun(trace, steps)
    ensures trace[|steps|] == START.(subs := map[0 := AFTER_1], delivered := {ENTRY_1.id})
  {
    trace, steps := FirstRegistration();
    trace, steps := Extend(trace, steps, Gather([0]));
    assert OffsetsIn(START.subs, [0]) == [MIN_OFFSET];
    trace, steps := Extend(trace, steps, XRead);
    assert EntriesAfter([ENTRY_1], MIN_OFFSET) == [ENTRY_1];
    trace, steps := Extend(trace, steps, Dispatch({}));
    assert ProcessBatch(Fresh(MIN_OFFSET), [ENTRY_1]) == AFTER_1 by { assert [ENTRY_1][..0] == []; }
    assert DispatchTo(START.subs, {}, [ENTRY_1]) == map[0 := AFTER_1];
    assert Sent(map[0 := AFTER_1], ENTRY_1) by {
      assert ENTRY_1 in AFTER_1.sent;
      assert 0 in map[0 := AFTER_1] && ENTRY_1 in map[0 := AFTER_1][0].sent;
    }
  }

  const LATE := State([ENTRY_1, ENTRY_2], [ENTRY_1, ENTRY_2], {}, None, None, map[],
                      map[0 := AFTER_1, 1 := Fresh(MIN_OFFSET)], {}, Gathering(ENTRY_1.id), {ENTRY_1.id}, [], [], [], [])

  lemma LateRegistration() returns (trace: seq<State>, steps: seq<Step>)
    ensures IsRun(trace, steps) && trace[|steps|] == LATE
  {
    trace, steps := FirstDelivery();
    trace, steps := Extend(trace, steps, Gather([0]));
    assert OffsetsIn(map[0 := AFTER_1], [0]) == [ENTRY_1.id];
    trace, steps := Extend(trace, steps, LookUp(1));
    trace, steps := Extend(trace, steps, Register(1));
    trace, steps := Extend(trace, steps, Publish(ENTRY_2));
    assert map[1 := MIN_OFFSET] - {1} == map[];
  }

  /**
  The gap is reachable: subscriber 0 has been sent the first entry and has not acked
  it; subscriber 1 registers between the next gather and its read, starting from the
  beginning, and is sent the second entry only.
  */
  lemma LateJoinWitness() returns (trace: seq<State>, steps: seq<Step>)
    ensures IsRun(trace, steps)
    ensures var s := trace[|steps|];
            && s.log == s.published == [ENTRY_1, ENTRY_2]
            && 1 in s.subs && s.subs[1] == SubState(MIN_OFFSET, ENTRY_2.id, [ENTRY_2])
            && !NoGap(s.log, s.subs[1])
  {
    trace, steps := LateRegistration();
    ReadLast(LATE.log, 0, ENTRY_2);
    trace, steps := Extend(trace, steps, XRead);
    trace, steps := Extend(trace, steps, Dispatch({}));
    ProcessOne(Fresh(MIN_OFFSET), ENTRY_2);
    assert trace[|steps|].subs[1] == ProcessBatch(Fresh(MIN_OFFSET), [ENTRY_2]);
    assert LATE.log[0] == ENTRY_1;
    MissesFirst(trace[|steps|].log, trace[|steps|].subs[1]);
  }

  lemma MissesFirst(log: seq<Entry>, sub: SubState)
    requires ENTRY_1 in log && sub == SubState(MIN_OFFSET, ENTRY_2.id, [ENTRY_2])
    ensures !NoGap(log, sub)
  {
    assert Before(MIN_OFFSET, ENTRY_1.id) && AtMost(ENTRY_1.id, ENTRY_2.id) && ENTRY_1 !in sub.sent;
  }

  // ----- an inexact gather -----

  const ENTRY_3 := Entry(Offset(1_600_000_000_001, 0), "c")
  const ENTRY_4 := Entry(Offset(1_600_000_000_002, 0), "d")
  const AFTER_2 := SubState(MIN_OFFSET, ENTRY_2.id, [ENTRY_1, ENTRY_2])
  const AFTER_3 := SubState(MIN_OFFSET, ENTRY_3.id, [ENTRY_1, ENTRY_2, ENTRY_3])

  lemma ReadFrom(log: seq<Entry>, k: nat)
    requires Sorted(log) && k < |log| <= COUNT
    ensures EntriesAfter(log, log[k].id) == log[k + 1..]
  {
    MinIdExact(log, log[k].id);
    assert !Before(log[k].id, log[k].id);
    assert k + 1 < |log| ==> Before(log[k].id, log[k + 1].id);
  }

  lemma ReadLast(log: seq<Entry>, k: nat, e: Entry)
    requires Sorted(log) && k + 2 == |log| <= COUNT && log[k + 1] == e
    ensures EntriesAfter(log, log[k].id) == [e]
  {
    ReadFrom(log, k);
  }

  lemma ProcessOne(s: SubState, e: Entry)
    requires Before(s.offset, e.id)
    ensures ProcessBatch(s, [e]) == SubState(s.start, e.id, s.sent + [e])
  {
    assert [e][..0] == [];
  }

  /** A whole round of the reader over subscribers none of which is skipped. */
  lemma RunRound(trace: seq<State>, steps: seq<Step>, order: seq<SubId>, lowest: Offset, batch: seq<Entry>)
    returns (trace': seq<State>, steps': seq<Step>)
    requires IsRun(trace, steps) && Enabled(trace[|steps|], Gather(order))
    requires Lowest(OffsetsIn(trace[|steps|].subs, order)) == lowest && EntriesAfter(trace[|steps|].log, lowest) == batch
    ensures IsRun(trace', steps')
    ensures var s, s' := trace[|steps|], trace'[|steps'|];
            && s' == s.(subs := DispatchTo(s.subs, {}, batch), delivered := s'.delivered)
            && (forall e :: e in batch && Sent(s'.subs, e) ==> e.id in s'.delivered)
  {
    trace', steps' := Extend(trace, steps, Gather(order));
    trace', steps' := Extend(trace', steps', XRead);
    trace', steps' := Extend(trace', steps', Dispatch({}));
  }

  /** Subscriber 0 has been sent the first entry, and then the second. */
  lemma TwoDelivered() returns (trace: seq<State>, steps: seq<Step>)
    ensures IsRun(trace, steps)
    ensures var s := trace[|steps|];
            && s.log == s.published == [ENTRY_1, ENTRY_2] && s.round.Idle? && s.pending == []
            && s.subs == map[0 := AFTER_2] && s.joining == map[] && s.stored == None && ENTRY_2.id in s.delivered
  {
    trace, steps := FirstDelivery();
    trace, steps := Extend(trace, steps, Publish(ENTRY_2));
    ReadLast([ENTRY_1, ENTRY_2], 0, ENTRY_2);
    ProcessOne(AFTER_1, ENTRY_2);
    assert OffsetsIn(map[0 := AFTER_1], [0]) == [ENTRY_1.id];
    trace, steps := RunRound(trace, steps, [0], ENTRY_1.id, [ENTRY_2]);
    assert AFTER_1.sent + [ENTRY_2] == AFTER_2.sent;
    assert trace[|steps|].subs == map[0 := AFTER_2];
    assert Sent(map[0 := AFTER_2], ENTRY_2) by { assert 0 in map[0 := AFTER_2] && ENTRY_2 == AFTER_2.sent[1]; }
  }

  /** The second entry is acked and committed, and a third published. */
  lemma SecondAcked() returns (trace: seq<State>, steps: seq<Step>)
    ensures IsRun(trace, steps)
    ensures var s := trace[|steps|];
            && s.log == s.published == [ENTRY_1, ENTRY_2, ENTRY_3] && s.round.Idle?
            && s.subs == map[0 := AFTER_2] && s.joining == map[] && s.stored == Some(ENTRY_2.id)
  {
    trace, steps := TwoDelivered();
    trace, steps := Extend(trace, steps, SendAck(ENTRY_2.id));
    trace, steps := Extend(trace, steps, CommitAcks(1));
    trace, steps := Extend(trace, steps, Publish(ENTRY_3));
  }

  /** Subscriber 0 has been sent the third entry, which nobody has acked; subscriber 1 joins at the stored offset. */
  lemma ThirdUnacked() returns (trace: seq<State>, steps: seq<Step>)
    ensures IsRun(trace, steps)
    ensures var s := trace[|steps|];
            && s.log == s.published == [ENTRY_1, ENTRY_2, ENTRY_3] && s.round.Idle?
            && s.subs == map[0 := AFTER_3, 1 := Fresh(ENTRY_2.id)]
  {
    trace, steps := SecondAcked();
    ReadLast([ENTRY_1, ENTRY_2, ENTRY_3], 1, ENTRY_3);
    ProcessOne(AFTER_2, ENTRY_3);
    assert OffsetsIn(map[0 := AFTER_2], [0]) == [ENTRY_2.id];
    trace, steps := RunRound(trace, steps, [0], ENTRY_2.id, [ENTRY_3]);
    assert AFTER_2.sent + [ENTRY_3] == AFTER_3.sent;
    assert trace[|steps|].subs == map[0 := AFTER_3];
    trace, steps := Extend(trace, steps, LookUp(1));
    trace, steps := Extend(trace, steps, Register(1));
  }

  lemma FourthPublished() returns (trace: seq<State>, steps: seq<Step>)
    ensures IsRun(trace, steps)
    ensures var s := trace[|steps|];
            && s.log == [ENTRY_1, ENTRY_2, ENTRY_3, ENTRY_4] && EntriesAfter(s.log, ENTRY_3.id) == [ENTRY_4]
            && s.round.Idle? && s.subs == map[0 := AFTER_3, 1 := Fresh(ENTRY_2.id)]
  {
    trace, steps := ThirdUnacked();
    trace, steps := Extend(trace, steps, Publish(ENTRY_4));
    ReadLast(trace[|steps|].log, 2, ENTRY_4);
  }

  /** The third entry's ID is taken for lower than subscriber 1's offset. */
  lemma GatheredWrongly(subs: map<SubId, SubState>)
    requires subs == map[0 := AFTER_3, 1 := Fresh(ENTRY_2.id)]
    ensures Lowest(OffsetsIn(subs, [1, 0])) == ENTRY_3.id
  {
    assert OffsetsIn(subs, [1, 0]) == [ENTRY_2.id, ENTRY_3.id];
    assert [ENTRY_2.id, ENTRY_3.id][..1] == [ENTRY_2.id];
  }

  /**
  An inexact gather opens a gap although nobody joins late: subscriber 1 registers
  between two rounds with the unacked third entry above its start, and the gather
  takes that entry's ID for lower than subscriber 1's offset. The next round sends
  subscriber 1 the fourth entry only.
  */
  lemma InexactGatherWitness() returns (trace: seq<State>, steps: seq<Step>)
    ensures IsRun(trace, steps)
    ensures var s := trace[|steps|];
            && 1 in s.subs && s.subs[1] == SubState(ENTRY_2.id, ENTRY_4.id, [ENTRY_4])
            && ENTRY_3 in s.log && !NoGap(s.log, s.subs[1])
  {
    trace, steps := FourthPublished();
    GatheredWrongly(trace[|steps|].subs);
    assert trace[|steps|].log[2] == ENTRY_3;
    trace, steps := RunRound(trace, steps, [1, 0], ENTRY_3.id, [ENTRY_4]);
    ProcessOne(Fresh(ENTRY_2.id), ENTRY_4);
    assert trace[|steps|].subs[1] == ProcessBatch(Fresh(ENTRY_2.id), [ENTRY_4]);
    MissesThird(trace[|steps|].log, trace[|steps|].subs[1]);
  }

  lemma MissesThird(log: seq<Entry>, sub: SubState)
    requires ENTRY_3 in log && sub == SubState(ENTRY_2.id, ENTRY_4.id, [ENTRY_4])
    ensures !NoGap(log, sub)
  {
    assert Before(ENTRY_2.id, ENTRY_3.id) && AtMost(ENTRY_3.id, ENTRY_4.id) && ENTRY_3 !in sub.sent;
  }
}
