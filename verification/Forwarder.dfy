/** The forwarder: one sequence builder and one callback table shared by the connections to all peer servers. */
module Forwarder {
  import opened Messages

  type CallId = nat

  /** A callback that has run, with or without an error. */
  datatype Ran = Ran(call: CallId, ok: bool)

  /** The forwarder's fields, and what its callbacks have been told. */
  datatype Table = Table(conns: set<Host>, callbacks: map<nat, CallId>, built: nat, ran: seq<Ran>)

  const EMPTY := Table({}, map[], 0, [])

  predicate CanSend(t: Table, host: Host, dialOk: bool) {
    host in t.conns || dialOk
  }

  /** Forward: dial if needed, build the message, register the callback under its sequence. */
  function AfterForward(t: Table, host: Host, dialOk: bool, call: CallId): Table {
    if !CanSend(t, host, dialOk) then t.(ran := t.ran + [Ran(call, false)])
    else Table(t.conns + {host}, t.callbacks[SequenceOf(t.built + 1) := call], t.built + 1, t.ran)
  }

  /** triggerCallbackFor: whichever connection the response came from. */
  function AfterAnswer(t: Table, sequence: nat, ok: bool): Table {
    if sequence in t.callbacks
    then t.(callbacks := t.callbacks - {sequence}, ran := t.ran + [Ran(t.callbacks[sequence], ok)])
    else t
  }

  class ForwarderObject {
    var conns: set<Host>
    var callbacks: map<nat, CallId>
    var built: nat
    var ran: seq<Ran>

    function State(): Table
      reads this
    {
      Table(conns, callbacks, built, ran)
    }

    constructor ()
      ensures State() == EMPTY
    {
      conns, callbacks, built, ran := {}, map[], 0, [];
    }

    method Forward(host: Host, dialOk: bool, call: CallId) returns (sent: bool, sequence: nat)
      modifies this
      ensures State() == AfterForward(old(State()), host, dialOk, call)
      ensures sent <==> CanSend(old(State()), host, dialOk)
      ensures sent ==> sequence in callbacks && callbacks[sequence] == call
    {
      sent, sequence := false, 0;
      if host !in conns {
        if !dialOk {
          ran := ran + [Ran(call, false)];
          return;
        }
        conns := conns + {host};
      }
      built := built + 1;
      sent, sequence := true, SequenceOf(built);
      callbacks := callbacks[sequence := call];
    }

    method TriggerCallbackFor(sequence: nat, ok: bool)
      modifies this
      ensures State() == AfterAnswer(old(State()), sequence, ok)
    {
      if sequence in callbacks {
        var finished := callbacks[sequence];
        callbacks := callbacks - {sequence};
        ran := ran + [Ran(finished, ok)];
      }
    }
  }

  // ----- runs against peers that answer the messages they receive -----

  /** A call that reached a connection, with its sequence, or failed to dial (sequence 0). */
  datatype Call = Call(host: Host, msg: Outbound, sequence: nat)

  /** An answer on the wire. The call it answers is history: the wire carries the sequence only. */
  datatype Answer = Answer(sequence: nat, ok: bool, call: CallId)

  datatype State = State(table: Table, calls: seq<Call>, answers: seq<Answer>, acked: set<CallId>)

  const INIT := State(EMPTY, [], [], {})

  datatype Step =
    | Forward(host: Host, msg: Outbound, dialOk: bool)
    | PeerAnswers(call: CallId, ok: bool)
    | ReadAnswer(i: nat)

  predicate WasSent(s: State, call: CallId) {
    call < |s.calls| && s.calls[call].sequence != 0
  }

  /** Peers only echo sequences they received; they may answer a message more than once. */
  predicate Enabled(s: State, step: Step) {
    match step
    case Forward(_, _, _) => s.table.built + 1 < SEQUENCES
    case PeerAnswers(call, _) => WasSent(s, call)
    case ReadAnswer(i) => i < |s.answers|
  }

  function Apply(s: State, step: Step): State
    requires Enabled(s, step)
  {
    match step
    case Forward(host, msg, dialOk) =>
      var sequence := if CanSend(s.table, host, dialOk) then SequenceOf(s.table.built + 1) else 0;
      s.(table := AfterForward(s.table, host, dialOk, |s.calls|), calls := s.calls + [Call(host, msg, sequence)])
    case PeerAnswers(call, ok) =>
      s.(answers := s.answers + [Answer(s.calls[call].sequence, ok, call)],
         acked := if ok then s.acked + {call} else s.acked)
    case ReadAnswer(i) =>
      s.(table := AfterAnswer(s.table, s.answers[i].sequence, s.answers[i].ok))
  }

  ghost predicate IsRun(trace: seq<State>, steps: seq<Step>) {
    && |trace| == |steps| + 1
    && trace[0] == INIT
    && forall i :: 0 <= i < |steps| ==> Enabled(trace[i], steps[i]) && trace[i + 1] == Apply(trace[i], steps[i])
  }

  ghost predicate Pending(s: State, call: CallId) {
    exists q :: q in s.table.callbacks && s.table.callbacks[q] == call
  }

  ghost predicate HasRun(s: State, call: CallId) {
    exists k :: 0 <= k < |s.table.ran| && s.table.ran[k].call == call
  }

  ghost predicate CallsInv(s: State) {
    && s.table.built < SEQUENCES
    && (forall c :: 0 <= c < |s.calls| ==> s.calls[c].sequence <= s.table.built)
    && (forall c, d :: 0 <= c < d < |s.calls| && s.calls[c].sequence != 0 ==> s.calls[c].sequence != s.calls[d].sequence)
  }

  ghost predicate TableInv(s: State) {
    forall q :: q in s.table.callbacks ==>
      q != 0 && s.table.callbacks[q] < |s.calls| && s.calls[s.table.callbacks[q]].sequence == q
  }

  ghost predicate AnswersInv(s: State) {
    && (forall c :: c in s.acked ==> c < |s.calls|)
    && (forall i :: 0 <= i < |s.answers| ==>
          && WasSent(s, s.answers[i].call) && s.calls[s.answers[i].call].sequence == s.answers[i].sequence
          && (s.answers[i].ok ==> s.answers[i].call in s.acked))
  }

  /** The hosts with a connection are those a message was sent to. */
  ghost predicate ConnsInv(s: State) {
    && (forall c :: 0 <= c < |s.calls| && s.calls[c].sequence != 0 ==> s.calls[c].host in s.table.conns)
    && (forall h :: h in s.table.conns ==> exists c :: 0 <= c < |s.calls| && s.calls[c].sequence != 0 && s.calls[c].host == h)
  }

  ghost predicate SequenceInv(s: State) {
    CallsInv(s) && TableInv(s) && AnswersInv(s)
  }

  lemma ConnsInvKept(s: State, step: Step)
    requires s.table.built < SEQUENCES && ConnsInv(s) && Enabled(s, step)
    ensures ConnsInv(Apply(s, step))
  {
    var s' := Apply(s, step);
    if step.Forward? {
      SequenceBelowWrap(s.table.built + 1);
      forall h | h in s'.table.conns
        ensures exists c :: 0 <= c < |s'.calls| && s'.calls[c].sequence != 0 && s'.calls[c].host == h
      {
        if h in s.table.conns {
          var c :| 0 <= c < |s.calls| && s.calls[c].sequence != 0 && s.calls[c].host == h;
          assert s'.calls[c] == s.calls[c];
        } else {
          assert s'.calls[|s.calls|].host == h;
        }
      }
    }
  }

  ghost predicate CallbackInv(s: State) {
    && (forall c :: 0 <= c < |s.calls| ==> (Pending(s, c) <==> !HasRun(s, c)))
    && (forall k :: 0 <= k < |s.table.ran| ==> s.table.ran[k].call < |s.calls|)
    && (forall k, l :: 0 <= k < l < |s.table.ran| ==> s.table.ran[k].call != s.table.ran[l].call)
    && (forall k :: 0 <= k < |s.table.ran| && s.table.ran[k].ok ==> s.table.ran[k].call in s.acked)
  }

  lemma CallsInvKept(s: State, step: Step)
    requires CallsInv(s) && Enabled(s, step)
    ensures CallsInv(Apply(s, step))
  {}

  lemma TableInvKept(s: State, step: Step)
    requires TableInv(s) && Enabled(s, step)
    ensures TableInv(Apply(s, step))
  {}

  lemma AnswersInvKept(s: State, step: Step)
    requires AnswersInv(s) && Enabled(s, step)
    ensures AnswersInv(Apply(s, step))
  {}

  lemma SequenceInvKept(s: State, step: Step)
    requires SequenceInv(s) && Enabled(s, step)
    ensures SequenceInv(Apply(s, step))
  {
    CallsInvKept(s, step);
    TableInvKept(s, step);
    AnswersInvKept(s, step);
  }

  lemma ForwardKeepsCallbacks(s: State, step: Step)
    requires SequenceInv(s) && CallbackInv(s) && Enabled(s, step) && step.Forward?
    ensures CallbackInv(Apply(s, step))
  {
    var s' := Apply(s, step);
    var n := |s.calls|;
    if CanSend(s.table, step.host, step.dialOk) {
      var q := SequenceOf(s.table.built + 1);
      SequenceBelowWrap(s.table.built + 1);
      assert q !in s.table.callbacks;
      assert s'.table.callbacks[q] == n;
      forall c | 0 <= c < n ensures Pending(s', c) <==> Pending(s, c) {
        if Pending(s, c) {
          var p :| p in s.table.callbacks && s.table.callbacks[p] == c;
          assert s'.table.callbacks[p] == c;
        }
      }
    } else {
      assert s'.table.ran[|s.table.ran|].call == n;
      forall c | 0 <= c < n ensures HasRun(s', c) <==> HasRun(s, c) {
        if HasRun(s, c) {
          var k :| 0 <= k < |s.table.ran| && s.table.ran[k].call == c;
          assert s'.table.ran[k].call == c;
        }
      }
    }
  }

  lemma ReadKeepsCallbacks(s: State, i: nat)
    requires SequenceInv(s) && CallbackInv(s) && Enabled(s, ReadAnswer(i))
    ensures CallbackInv(Apply(s, ReadAnswer(i)))
  {
    var s' := Apply(s, ReadAnswer(i));
    var q := s.answers[i].sequence;
    if q in s.table.callbacks {
      var call := s.table.callbacks[q];
      assert call == s.answers[i].call;
      assert Pending(s, call) && !HasRun(s, call);
      assert s'.table.ran[|s.table.ran|].call == call;
      forall c | 0 <= c < |s.calls| && c != call
        ensures (HasRun(s', c) <==> HasRun(s, c)) && (Pending(s', c) <==> Pending(s, c))
      {
        if HasRun(s, c) {
          var k :| 0 <= k < |s.table.ran| && s.table.ran[k].call == c;
          assert s'.table.ran[k].call == c;
        }
        if Pending(s, c) {
          var p :| p in s.table.callbacks && s.table.callbacks[p] == c;
          assert s'.table.callbacks[p] == c;
        }
      }
    }
  }

  ghost predicate Inv(s: State) {
    SequenceInv(s) && ConnsInv(s) && CallbackInv(s)
  }

  lemma InvKept(s: State, step: Step)
    requires Inv(s) && Enabled(s, step)
    ensures Inv(Apply(s, step))
  {
    SequenceInvKept(s, step);
    ConnsInvKept(s, step);
    match step {
      case Forward(_, _, _) => ForwardKeepsCallbacks(s, step);
      case ReadAnswer(j) => ReadKeepsCallbacks(s, j);
      case PeerAnswers(_, _) =>
        forall c | 0 <= c < |s.calls| ensures Pending(Apply(s, step), c) <==> Pending(s, c) {}
    }
  }

  lemma {:induction false} InvInRuns(trace: seq<State>, steps: seq<Step>, i: nat)
    requires IsRun(trace, steps) && i < |trace|
    ensures Inv(trace[i])
  {
    if i > 0 {
      InvInRuns(trace, steps, i - 1);
      InvKept(trace[i - 1], steps[i - 1]);
    }
  }

  /**
  Correlation, over every run of fewer than 2^32 builds: the callback of a call is
  still pending or has run, never both, and runs at most once; it is told of success
  only if the peer acked that very message.
  */
  lemma Correlation(trace: seq<State>, steps: seq<Step>, i: nat, call: CallId)
    requires IsRun(trace, steps) && i < |trace| && call < |trace[i].calls|
    ensures var s := trace[i];
            && (Pending(s, call) <==> !HasRun(s, call))
            && (forall k, l :: 0 <= k < l < |s.table.ran| && s.table.ran[k].call == call ==> s.table.ran[l].call != call)
            && (Ran(call, true) in s.table.ran ==> call in s.acked)
  {
    InvInRuns(trace, steps, i);
  }

  /** In every run a call counts as acked only once a peer has answered it with an ack. */
  lemma {:induction false} AckedIsReal(trace: seq<State>, steps: seq<Step>, i: nat, call: CallId)
    requires IsRun(trace, steps) && i < |trace|
    ensures call in trace[i].acked <==> exists j :: 0 <= j < i && steps[j] == PeerAnswers(call, true)
  {
    if i > 0 {
      AckedIsReal(trace, steps, i - 1, call);
      assert steps[i - 1] == PeerAnswers(call, true) ==> call in trace[i].acked;
    }
  }

  /**
  In every run a host is dialled only for the first message sent to it: a later Forward
  to it sends even if dialling would fail, and one to a host no message was sent to
  depends on dialling.
  */
  lemma DialledOnce(trace: seq<State>, steps: seq<Step>, i: nat)
    requires IsRun(trace, steps) && i < |steps| && steps[i].Forward?
    ensures var s, s', n := trace[i], trace[i + 1], |trace[i].calls|;
            && |s'.calls| == n + 1 && s'.calls[n].host == steps[i].host && s'.calls[n].msg == steps[i].msg
            && (s'.calls[n].sequence != 0 <==>
                steps[i].dialOk || exists c :: 0 <= c < n && s.calls[c].sequence != 0 && s.calls[c].host == steps[i].host)
            && (s'.calls[n].sequence == 0 <==> Ran(n, false) in s'.table.ran)
  {
    InvInRuns(trace, steps, i);
    InvInRuns(trace, steps, i + 1);
    SequenceBelowWrap(trace[i].table.built + 1);
    var s, s', n := trace[i], trace[i + 1], |trace[i].calls|;
    if s'.calls[n].sequence == 0 {
      assert s'.table.ran[|s.table.ran|] == Ran(n, false);
    } else {
      assert s'.table.callbacks[s'.calls[n].sequence] == n;
      assert Pending(s', n);
    }
  }

  /** In every run, reading an answer to a call whose callback is pending runs that callback, with the result answered. */
  lemma AnswerRuns(trace: seq<State>, steps: seq<Step>, i: nat)
    requires IsRun(trace, steps) && i < |steps| && steps[i].ReadAnswer?
    ensures var s, s', answer := trace[i], trace[i + 1], trace[i].answers[steps[i].i];
            if Pending(s, answer.call) then s'.table.ran == s.table.ran + [Ran(answer.call, answer.ok)]
            else s'.table.ran == s.table.ran
  {
    InvInRuns(trace, steps, i);
    var s, answer := trace[i], trace[i].answers[steps[i].i];
    if answer.sequence in s.table.callbacks {
      assert s.table.callbacks[answer.sequence] == answer.call;
      assert Pending(s, answer.call);
    }
  }

  ghost predicate Holds(callbacks: map<nat, CallId>, call: CallId) {
    exists q :: q in callbacks && callbacks[q] == call
  }

  /** Whatever the number of builds: a Forward keeps every pending callback exactly when its wrapped sequence is free. */
  lemma ForwardKeepsPendingIff(t: Table, host: Host, dialOk: bool, call: CallId)
    requires CanSend(t, host, dialOk) && !Holds(t.callbacks, call)
    requires forall p, q :: p in t.callbacks && q in t.callbacks && p != q ==> t.callbacks[p] != t.callbacks[q]
    ensures (forall c :: Holds(t.callbacks, c) ==> Holds(AfterForward(t, host, dialOk, call).callbacks, c))
            <==> SequenceOf(t.built + 1) !in t.callbacks
  {
    var after := AfterForward(t, host, dialOk, call).callbacks;
    var q := SequenceOf(t.built + 1);
    if q in t.callbacks {
      assert Holds(t.callbacks, t.callbacks[q]);
      assert !Holds(after, t.callbacks[q]);
    } else {
      forall c | Holds(t.callbacks, c) ensures Holds(after, c) {
        var p :| p in t.callbacks && t.callbacks[p] == c;
        assert after[p] == c;
      }
    }
  }

  lemma SameSequenceIff(m: nat, n: nat)
    requires m <= n
    ensures SequenceOf(m) == SequenceOf(n) <==> (n - m) % SEQUENCES == 0
  {
    var q, r := m / SEQUENCES, n / SEQUENCES;
    assert m == q * SEQUENCES + SequenceOf(m) && n == r * SEQUENCES + SequenceOf(n);
    assert n - m == (r - q) * SEQUENCES + (SequenceOf(n) - SequenceOf(m));
  }

  /**
  Whatever the number of builds: after a Forward, a late answer to the n-th message
  built before it runs the new callback, and with the old message's result, exactly
  when a multiple of 2^32 messages lies between the two.
  */
  lemma LateAnswerIff(t: Table, host: Host, dialOk: bool, call: CallId, n: nat, ok: bool)
    requires CanSend(t, host, dialOk) && !Holds(t.callbacks, call) && n <= t.built
    ensures var t' := AfterForward(t, host, dialOk, call);
            AfterAnswer(t', SequenceOf(n), ok).ran == t'.ran + [Ran(call, ok)] <==> (t.built + 1 - n) % SEQUENCES == 0
  {
    var t', q := AfterForward(t, host, dialOk, call), SequenceOf(n);
    SameSequenceIff(n, t.built + 1);
    if q in t'.callbacks && q != SequenceOf(t.built + 1) {
      assert Holds(t.callbacks, t.callbacks[q]);
      assert (t'.ran + [Ran(t.callbacks[q], ok)])[|t'.ran|] != Ran(call, ok);
    }
  }
}
