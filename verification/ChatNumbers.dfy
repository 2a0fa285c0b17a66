/**
The chat-number directory: four maps kept in step by RegisterChatNumber, and the loop
of getNumber that looks for a free variant of an identity's preferred number.
*/
module ChatNumbers {
  import opened Wrappers

  datatype Index = Index(
    idToNumber: map<string, string>,
    numberToId: map<string, string>,
    numberToShort: map<string, string>,
    shortToNumber: map<string, string>)

  const EMPTY := Index(map[], map[], map[], map[])

  datatype Reg = Reg(id: string, number: string, short: string)

  datatype Number = Number(number: string, short: string)

  datatype Error = NumberTaken

  function ShortOf(ix: Index, number: string): string {
    if number in ix.numberToShort then ix.numberToShort[number] else ""
  }

  /** Whether a registration assigns a new number. "Taken" looks at the full number only. */
  predicate IsNew(ix: Index, r: Reg) {
    r.id !in ix.idToNumber && r.number !in ix.numberToId
  }

  function Added(ix: Index, r: Reg): Index {
    Index(ix.idToNumber[r.id := r.number], ix.numberToId[r.number := r.id],
          ix.numberToShort[r.number := r.short], ix.shortToNumber[r.short := r.number])
  }

  function Registered(ix: Index, r: Reg): Index {
    if IsNew(ix, r) then Added(ix, r) else ix
  }

  function Answer(ix: Index, r: Reg): Result<Number, Error> {
    if r.id in ix.idToNumber then Success(Number(ix.idToNumber[r.id], ShortOf(ix, ix.idToNumber[r.id])))
    else if r.number in ix.numberToId then Failure(NumberTaken)
    else Success(Number(r.number, r.short))
  }

  function RunFrom(ix: Index, regs: seq<Reg>): Index {
    if regs == [] then ix else Registered(RunFrom(ix, regs[..|regs| - 1]), regs[|regs| - 1])
  }

  function FindByShort(ix: Index, short: string): Option<string> {
    if short in ix.shortToNumber then Some(ix.shortToNumber[short]) else None
  }

  // ----- the index invariant -----

  ghost predicate Inv(ix: Index) {
    // identity -> number and number -> identity are mutually inverse
    && (forall id :: id in ix.idToNumber ==>
          ix.idToNumber[id] in ix.numberToId && ix.numberToId[ix.idToNumber[id]] == id)
    && (forall n :: n in ix.numberToId ==>
          ix.numberToId[n] in ix.idToNumber && ix.idToNumber[ix.numberToId[n]] == n)
    // exactly the registered numbers have a short number, and it can be looked up
    && ix.numberToShort.Keys == ix.numberToId.Keys
    && (forall n :: n in ix.numberToShort ==> ix.numberToShort[n] in ix.shortToNumber)
    // a lookup by short number returns a number whose short number it is
    && (forall s :: s in ix.shortToNumber ==>
          ix.shortToNumber[s] in ix.numberToShort && ix.numberToShort[ix.shortToNumber[s]] == s)
  }

  /** Assigned numbers and their short numbers never change. */
  ghost predicate Extends(ix: Index, ix': Index) {
    && (forall id :: id in ix.idToNumber ==> id in ix'.idToNumber && ix'.idToNumber[id] == ix.idToNumber[id])
    && (forall n :: n in ix.numberToId ==> n in ix'.numberToId && ix'.numberToId[n] == ix.numberToId[n])
    && (forall n :: n in ix.numberToShort ==> n in ix'.numberToShort && ix'.numberToShort[n] == ix.numberToShort[n])
  }

  lemma RegisteredKeeps(ix: Index, r: Reg)
    requires Inv(ix)
    ensures Inv(Registered(ix, r)) && Extends(ix, Registered(ix, r))
  {}

  /** In every reachable index the maps agree, and what was assigned before stays assigned. */
  lemma {:induction false} IndexInvariant(ix: Index, regs: seq<Reg>)
    requires Inv(ix)
    ensures Inv(RunFrom(ix, regs)) && Extends(ix, RunFrom(ix, regs))
  {
    if regs != [] {
      IndexInvariant(ix, regs[..|regs| - 1]);
      RegisteredKeeps(RunFrom(ix, regs[..|regs| - 1]), regs[|regs| - 1]);
    }
  }

  /** What a registration answers is what the directory holds for the identity from then on. */
  lemma AnswerIsKept(ix: Index, r: Reg, later: seq<Reg>)
    requires Inv(ix) && Answer(ix, r).Success?
    ensures var ix' := RunFrom(Registered(ix, r), later);
            && r.id in ix'.idToNumber && ix'.idToNumber[r.id] == Answer(ix, r).value.number
            && ShortOf(ix', ix'.idToNumber[r.id]) == Answer(ix, r).value.short
  {
    RegisteredKeeps(ix, r);
    IndexInvariant(Registered(ix, r), later);
  }

  /** Short numbers and numbers are in bijection exactly when no two numbers share a short number. */
  lemma ShortBijectionIff(ix: Index)
    requires Inv(ix)
    ensures (forall n :: n in ix.numberToShort ==> FindByShort(ix, ix.numberToShort[n]) == Some(n)) <==>
            (forall m, n :: m in ix.numberToShort && n in ix.numberToShort && m != n ==>
               ix.numberToShort[m] != ix.numberToShort[n])
  {}

  /** The k-th registration of a run assigned a new number. */
  ghost predicate NewAt(regs: seq<Reg>, k: int) {
    0 <= k < |regs| && IsNew(RunFrom(EMPTY, regs[..k]), regs[k])
  }

  lemma PrefixNewAt(regs: seq<Reg>, n: nat, k: int)
    requires 0 <= k < n <= |regs|
    ensures NewAt(regs[..n], k) <==> NewAt(regs, k)
  {
    assert regs[..n][..k] == regs[..k];
  }

  /**
  An identity's short number finds its own number exactly as long as no later
  registration has been given the same short number.
  */
  lemma {:induction false} OwnShortNumberIff(regs: seq<Reg>, k: nat)
    requires NewAt(regs, k)
    ensures FindByShort(RunFrom(EMPTY, regs), regs[k].short) == Some(regs[k].number) <==> StillOwn(regs, k)
    ensures regs[k].number in RunFrom(EMPTY, regs).numberToId
  {
    var n := |regs| - 1;
    var before := regs[..n];
    if k < n {
      PrefixNewAt(regs, n, k);
      OwnShortNumberIff(before, k);
      StillOwnIff(regs, k);
      StillFoundIff(RunFrom(EMPTY, before), regs[n], regs[k].short, regs[k].number);
    } else {
      NewIsFound(RunFrom(EMPTY, before), regs[n]);
    }
  }

  lemma NewIsFound(ix: Index, r: Reg)
    requires IsNew(ix, r)
    ensures FindByShort(Registered(ix, r), r.short) == Some(r.number) && r.number in Registered(ix, r).numberToId
  {}

  /** No later registration of the run was given the short number of the k-th. */
  ghost predicate StillOwn(regs: seq<Reg>, k: nat)
    requires k < |regs|
  {
    forall j :: k < j < |regs| && NewAt(regs, j) ==> regs[j].short != regs[k].short
  }

  lemma StillOwnIff(regs: seq<Reg>, k: nat)
    requires k < |regs| - 1
    ensures var n := |regs| - 1;
            StillOwn(regs, k) <==> StillOwn(regs[..n], k) && !(NewAt(regs, n) && regs[n].short == regs[k].short)
  {
    var n := |regs| - 1;
    forall j | 0 <= j < n ensures NewAt(regs[..n], j) <==> NewAt(regs, j) { PrefixNewAt(regs, n, j); }
  }

  lemma StillFoundIff(ix: Index, r: Reg, short: string, number: string)
    requires number in ix.numberToId
    ensures number in Registered(ix, r).numberToId
    ensures FindByShort(Registered(ix, r), short) == Some(number) <==>
            FindByShort(ix, short) == Some(number) && !(IsNew(ix, r) && r.short == short)
  {}

  /** Two identities can be given one short number; the later one takes the lookup over. */
  lemma SharedShortNumberWitness()
    ensures var ix := RunFrom(EMPTY, [Reg("a", "1234567890121", "123456789012"), Reg("b", "1234567890122", "123456789012")]);
            && "a" in ix.idToNumber && ix.idToNumber["a"] == "1234567890121" && ShortOf(ix, "1234567890121") == "123456789012"
            && FindByShort(ix, "123456789012") == Some("1234567890122")
  {}

  // ----- candidates -----

  const SHORT := 12

  function Fives(n: nat): (s: string)
    ensures |s| == n
  {
    if n == 0 then "" else "5" + Fives(n - 1)
  }

  lemma FivesPrefix(n: nat, s: string)
    ensures "5" + (Fives(n) + s) == Fives(n + 1) + s
  {}

  predicate LastChance(preferred: string, i: nat) {
    SHORT + i >= |preferred|
  }

  /** What the i-th attempt of getNumber tries to register. */
  function Candidate(preferred: string, i: nat): Number
    requires |preferred| >= SHORT
  {
    if LastChance(preferred, i) then Number(preferred, preferred)
    else
      var short := Fives(i) + preferred[..SHORT];
      Number(short + (Fives(i) + preferred[SHORT..]), short)
  }

  /** The digits that count: 5s are ignored when a number is parsed. */
  function Digits(s: string): string {
    if s == [] then [] else (if s[0] == '5' then [] else [s[0]]) + Digits(s[1..])
  }

  lemma {:induction false} DigitsConcat(s: string, t: string)
    ensures Digits(s + t) == Digits(s) + Digits(t)
  {
    if s == [] {
      assert s + t == t;
    } else {
      assert (s + t)[1..] == s[1..] + t;
      DigitsConcat(s[1..], t);
    }
  }

  lemma {:induction false} FivesHaveNoDigits(n: nat)
    ensures Digits(Fives(n)) == ""
  {
    if n > 0 {
      assert Fives(n)[1..] == Fives(n - 1);
      FivesHaveNoDigits(n - 1);
    }
  }

  /** Every candidate parses to the preferred number's digits and has its short number as a prefix. */
  lemma CandidateShape(preferred: string, i: nat)
    requires |preferred| >= SHORT
    ensures var c := Candidate(preferred, i);
            c.short <= c.number && Digits(c.number) == Digits(preferred) && |c.short| >= SHORT
  {
    if !LastChance(preferred, i) {
      var head, tail := preferred[..SHORT], preferred[SHORT..];
      FivesHaveNoDigits(i);
      DigitsConcat(Fives(i), head);
      DigitsConcat(Fives(i), tail);
      DigitsConcat(Fives(i) + head, Fives(i) + tail);
      DigitsConcat(head, tail);
      assert preferred == head + tail;
    }
  }

  lemma {:induction false} FivesAre(n: nat, k: nat)
    requires k < n
    ensures Fives(n)[k] == '5'
  {
    if k > 0 { FivesAre(n - 1, k - 1); }
  }

  /** A candidate is built of i fives, the first twelve digits, i fives again and the rest; the last chance is the number itself. */
  lemma CandidateDigits(preferred: string, i: nat)
    requires |preferred| >= 12
    ensures var c := Candidate(preferred, i);
            if 12 + i >= |preferred| then c.number == c.short == preferred
            else
              && |c.short| == 12 + i && |c.number| == |preferred| + 2 * i
              && (forall k :: 0 <= k < i ==> c.short[k] == '5') && c.short[i..] == preferred[..12]
              && c.number[..12 + i] == c.short
              && (forall k :: 12 + i <= k < 12 + 2 * i ==> c.number[k] == '5') && c.number[12 + 2 * i..] == preferred[12..]
  {
    forall k | 0 <= k < i ensures Fives(i)[k] == '5' { FivesAre(i, k); }
    if 12 + i < |preferred| {
      var c := Candidate(preferred, i);
      assert c.number == Fives(i) + preferred[..12] + Fives(i) + preferred[12..];
      forall k | 12 + i <= k < 12 + 2 * i ensures c.number[k] == '5' { assert c.number[k] == Fives(i)[k - 12 - i]; }
    }
  }

  /** Candidates before the last chance are pairwise different; the last chance is the first candidate again. */
  lemma CandidatesDistinct(preferred: string, i: nat, j: nat)
    requires |preferred| >= SHORT && i < j
    ensures !LastChance(preferred, j) ==>
              Candidate(preferred, i).number != Candidate(preferred, j).number &&
              Candidate(preferred, i).short != Candidate(preferred, j).short
    ensures LastChance(preferred, j) ==> Candidate(preferred, j).number == Candidate(preferred, 0).number
  {}

  // ----- the directory object and getNumber -----

  /** The directory holds this number for the identity. */
  predicate Holds(ix: Index, id: string, n: Number) {
    id in ix.idToNumber && ix.idToNumber[id] == n.number && ShortOf(ix, n.number) == n.short
  }

  lemma AnswerMeans(ix: Index, r: Reg)
    ensures match Answer(ix, r)
            case Success(n) => Holds(Registered(ix, r), r.id, n) &&
                               (r.id !in ix.idToNumber ==> n == Number(r.number, r.short) && r.number !in ix.numberToId)
            case Failure(_) => Registered(ix, r) == ix && r.id !in ix.idToNumber && r.number in ix.numberToId
  {}

  lemma {:induction false} RunConcat(ix: Index, a: seq<Reg>, b: seq<Reg>)
    ensures RunFrom(ix, a + b) == RunFrom(RunFrom(ix, a), b)
  {
    if b == [] {
      assert a + b == a;
    } else {
      assert (a + b)[..|a + b| - 1] == a + b[..|b| - 1];
      RunConcat(ix, a, b[..|b| - 1]);
    }
  }

  /** Numbers stay taken. */
  lemma {:induction false} TakenGrows(ix: Index, regs: seq<Reg>)
    ensures ix.numberToId.Keys <= RunFrom(ix, regs).numberToId.Keys
  {
    if regs != [] { TakenGrows(ix, regs[..|regs| - 1]); }
  }

  predicate NoneFor(regs: seq<Reg>, id: string) {
    forall r :: r in regs ==> r.id != id
  }

  lemma {:induction false} NoneForKeeps(ix: Index, regs: seq<Reg>, id: string)
    ensures NoneFor(regs, id) && id !in ix.idToNumber ==> id !in RunFrom(ix, regs).idToNumber
  {
    if regs != [] { NoneForKeeps(ix, regs[..|regs| - 1], id); }
  }

  function CandidatesBelow(preferred: string, n: nat): (cs: seq<Number>)
    requires |preferred| >= SHORT
    ensures |cs| == n
  {
    if n == 0 then [] else CandidatesBelow(preferred, n - 1) + [Candidate(preferred, n - 1)]
  }

  /** All candidates, up to and including the last chance. */
  function Candidates(preferred: string): seq<Number>
    requires |preferred| >= SHORT
  {
    CandidatesBelow(preferred, |preferred| - 11)
  }

  lemma {:induction false} CandidateAt(preferred: string, n: nat, i: nat)
    requires |preferred| >= SHORT && i < n
    ensures CandidatesBelow(preferred, n)[i] == Candidate(preferred, i)
  {
    if i < n - 1 { CandidateAt(preferred, n - 1, i); }
  }

  /** The first n candidates are among the taken numbers. */
  ghost predicate FirstTaken(taken: set<string>, candidates: seq<Number>, n: nat) {
    n <= |candidates| && forall k :: 0 <= k < n ==> candidates[k].number in taken
  }

  /** What others register before the i-th attempt. */
  function Meanwhile(others: seq<seq<Reg>>, i: nat): seq<Reg> {
    if i < |others| then others[i] else []
  }

  /** What is registered, or tried, during the first n attempts: before each, what others registered meanwhile. */
  function AttemptLog(id: string, candidates: seq<Number>, others: seq<seq<Reg>>, n: nat): seq<Reg>
    requires n <= |candidates|
  {
    if n == 0 then []
    else
      AttemptLog(id, candidates, others, n - 1) +
      (Meanwhile(others, n - 1) + [Reg(id, candidates[n - 1].number, candidates[n - 1].short)])
  }

  method BuildCandidate(preferred: string, i: nat) returns (c: Number, lastChance: bool)
    requires |preferred| >= SHORT
    ensures c == Candidate(preferred, i) && (lastChance <==> LastChance(preferred, i))
  {
    var short, tail := preferred[..SHORT], preferred[SHORT..];
    for n := 0 to i
      invariant short == Fives(n) + preferred[..SHORT] && tail == Fives(n) + preferred[SHORT..]
    {
      FivesPrefix(n, preferred[..SHORT]);
      FivesPrefix(n, preferred[SHORT..]);
      short, tail := "5" + short, "5" + tail;
    }
    c, lastChance := Number(short + tail, short), false;
    if |short| >= |preferred| {
      c, lastChance := Number(preferred, preferred), true;
    }
  }

  class Directory {
    var ix: Index

    constructor ()
      ensures ix == EMPTY && Inv(ix)
    {
      ix := EMPTY;
    }

    method RegisterChatNumber(id: string, number: string, short: string) returns (r: Result<Number, Error>)
      modifies this
      ensures ix == Registered(old(ix), Reg(id, number, short))
      ensures r == Answer(old(ix), Reg(id, number, short))
    {
      if id in ix.idToNumber {
        var existing := ix.idToNumber[id];
        return Success(Number(existing, ShortOf(ix, existing)));
      }
      if number in ix.numberToId {
        return Failure(NumberTaken);
      }
      ix := ix.(idToNumber := ix.idToNumber[id := number]);
      ix := ix.(numberToId := ix.numberToId[number := id]);
      ix := ix.(numberToShort := ix.numberToShort[number := short]);
      ix := ix.(shortToNumber := ix.shortToNumber[short := number]);
      return Success(Number(number, short));
    }

    /** One attempt of getNumber, after the registrations of other clients. */
    method Attempt(id: string, c: Number, others: seq<Reg>) returns (r: Result<Number, Error>)
      modifies this
      ensures ix == RunFrom(old(ix), others + [Reg(id, c.number, c.short)])
      ensures old(ix).numberToId.Keys <= ix.numberToId.Keys
      ensures r.Success? ==> Holds(ix, id, r.value)
      ensures r.Success? && id !in old(ix).idToNumber && NoneFor(others, id) ==> r.value == c
      ensures r.Failure? ==> id !in ix.idToNumber && c.number in ix.numberToId
      ensures others == [] && r.Failure? ==> ix == old(ix)
      ensures others == [] && r.Success? ==> id in old(ix).idToNumber || c.number !in old(ix).numberToId
    {
      ghost var reg := Reg(id, c.number, c.short);
      NoneForKeeps(ix, others, id);
      TakenGrows(ix, others + [reg]);
      assert (others + [reg])[..|others|] == others;
      ix := RunFrom(ix, others);
      AnswerMeans(ix, reg);
      r := RegisterChatNumber(id, c.number, c.short);
    }

    /** The i-th attempt: builds its candidate and tries it, logging what was registered. */
    method AttemptAt(id: string, preferred: string, i: nat, all: seq<seq<Reg>>, ghost start: Index)
      returns (r: Result<Number, Error>, lastChance: bool)
      requires |preferred| >= SHORT && i < |preferred| - 11
      requires ix == RunFrom(start, AttemptLog(id, Candidates(preferred), all, i))
      modifies this
      ensures ix == RunFrom(start, AttemptLog(id, Candidates(preferred), all, i + 1)) && (lastChance <==> i == |preferred| - 12)
      ensures old(ix).numberToId.Keys <= ix.numberToId.Keys
      ensures r.Success? ==> Holds(ix, id, r.value)
      ensures var c, others := Candidates(preferred)[i], Meanwhile(all, i);
              && (r.Success? && id !in old(ix).idToNumber && NoneFor(others, id) ==> r.value == c)
              && (r.Failure? ==> id !in ix.idToNumber && c.number in ix.numberToId)
              && (others == [] && r.Success? ==> id in old(ix).idToNumber || c.number !in old(ix).numberToId)
              && (others == [] && r.Failure? ==> ix == old(ix))
    {
      CandidateAt(preferred, |preferred| - 11, i);
      var c;
      c, lastChance := BuildCandidate(preferred, i);
      RunConcat(start, AttemptLog(id, Candidates(preferred), all, i), Meanwhile(all, i) + [Reg(id, c.number, c.short)]);
      r := Attempt(id, c, Meanwhile(all, i));
    }

    /**
    getNumber, with the registrations of other clients before each attempt given by
    `others`: it ends within |preferred| - 11 attempts, and `log` is all that was
    registered meanwhile, by others and by itself. On success the directory holds the answer for the identity,
    and a newly assigned number is the candidate of the last attempt, all earlier
    candidates being taken. It fails only when every candidate is taken, and,
    undisturbed, exactly then.
    */
    method GetNumber(id: string, preferred: string, others: seq<seq<Reg>>)
      returns (r: Result<Number, Error>, attempts: nat, ghost log: seq<Reg>)
      requires |preferred| >= SHORT
      modifies this
      ensures attempts <= |Candidates(preferred)| && log == AttemptLog(id, Candidates(preferred), others, attempts)
      ensures ix == RunFrom(old(ix), log)
      ensures 1 <= attempts <= |preferred| - 11
      ensures r.Success? ==> Holds(ix, id, r.value)
      ensures r.Success? && id !in old(ix).idToNumber && (forall k :: 0 <= k < |others| ==> NoneFor(others[k], id)) ==>
                r.value == Candidates(preferred)[attempts - 1]
      ensures FirstTaken(ix.numberToId.Keys, Candidates(preferred), if r.Success? then attempts - 1 else attempts)
      ensures r.Failure? ==> id !in ix.idToNumber && attempts == |preferred| - 11
      ensures others == [] ==>
                (r.Failure? <==>
                 id !in old(ix).idToNumber && FirstTaken(old(ix).numberToId.Keys, Candidates(preferred), |preferred| - 11))
    {
      r, attempts, log := Failure(NumberTaken), 0, [];
      ghost var candidates := Candidates(preferred);
      var lastChance := false;
      while !lastChance
        invariant attempts <= |candidates| && ix == RunFrom(old(ix), AttemptLog(id, candidates, others, attempts))
        invariant others == [] ==> ix == old(ix)
        invariant r.Failure? && (if attempts == 0 then ix == old(ix) && !lastChance else id !in ix.idToNumber)
        invariant attempts <= |preferred| - 11 && (lastChance <==> attempts == |preferred| - 11)
        invariant FirstTaken(ix.numberToId.Keys, candidates, attempts)
        decreases |preferred| - attempts
      {
        r, lastChance := AttemptAt(id, preferred, attempts, others, old(ix));
        attempts := attempts + 1;
        if r.Success? {
          break;
        }
      }
      log := AttemptLog(id, candidates, others, attempts);
    }
  }
}
