/**
The rate limiter of the chat-number script: a token account that every rate-limited
call moves by the time since the previous call less the price of a registration. A
call that finds the account overdrawn sleeps for the shortfall and then registers
without rate limiting.
*/
module RateLimiter {
  import opened Wrappers
  import opened ChatNumbers

  /** minMillisPerChatNumberRegistration */
  const PRICE := 500

  /** The six Redis keys of the script. */
  datatype Keys = Keys(ix: Index, last: Option<int>, tokens: int)

  datatype Reply = Have(number: Number) | IsTaken | SleepFor(millis: int)

  /** The part of the script that ends before rate limiting. */
  predicate Settled(ix: Index, r: Reg) {
    (r.id in ix.idToNumber && ix.idToNumber[r.id] != "") || r.number in ix.numberToId
  }

  function SettledReply(ix: Index, r: Reg): Reply {
    if r.id in ix.idToNumber && ix.idToNumber[r.id] != ""
    then Have(Number(ix.idToNumber[r.id], ShortOf(ix, ix.idToNumber[r.id])))
    else IsTaken
  }

  function TokensAfter(k: Keys, now: int): int {
    match k.last
    case None => k.tokens
    case Some(last) => k.tokens + (now - last - PRICE)
  }

  predicate Overdrawn(k: Keys, now: int) {
    k.last.Some? && TokensAfter(k, now) < 0
  }

  /** register_chat_number.lua; `now` is absent when rate limiting is off. */
  function Script(k: Keys, r: Reg, now: Option<int>): (Keys, Reply) {
    if Settled(k.ix, r) then (k, SettledReply(k.ix, r))
    else
      var k1 := if now.Some? then Keys(k.ix, Some(now.value), TokensAfter(k, now.value)) else k;
      if now.Some? && Overdrawn(k, now.value) then (k1, SleepFor(-k1.tokens))
      else (k1.(ix := Added(k.ix, r)), Have(Number(r.number, r.short)))
  }

  class ChatNumberKeys {
    var identityToNumber: map<string, string>
    var numberToIdentity: map<string, string>
    var numberToShortNumber: map<string, string>
    var shortNumberToNumber: map<string, string>
    var lastRegistrationTime: Option<int>
    var registrationTokens: int

    function State(): Keys
      reads this
    {
      Keys(Index(identityToNumber, numberToIdentity, numberToShortNumber, shortNumberToNumber),
           lastRegistrationTime, registrationTokens)
    }

    constructor ()
      ensures State() == Keys(EMPTY, None, 0)
    {
      identityToNumber, numberToIdentity, numberToShortNumber, shortNumberToNumber := map[], map[], map[], map[];
      lastRegistrationTime, registrationTokens := None, 0;
    }

    method Eval(identityKey: string, newNumber: string, newShortNumber: string, requiredTokens: int, now: int)
      returns (reply: Reply)
      requires requiredTokens == 0 || requiredTokens == PRICE
      modifies this
      ensures (State(), reply) == Script(old(State()), Reg(identityKey, newNumber, newShortNumber),
                                         if requiredTokens > 0 then Some(now) else None)
    {
      if identityKey in identityToNumber && identityToNumber[identityKey] != "" {
        var number := identityToNumber[identityKey];
        return Have(Number(number, if number in numberToShortNumber then numberToShortNumber[number] else ""));
      }
      if newNumber in numberToIdentity {
        return IsTaken;
      }
      if requiredTokens > 0 {
        var last := lastRegistrationTime;
        lastRegistrationTime := Some(now);
        if last.Some? {
          registrationTokens := registrationTokens + (now - last.value - requiredTokens);
          if registrationTokens < 0 {
            return SleepFor(-1 * registrationTokens);
          }
        }
      }
      identityToNumber := identityToNumber[identityKey := newNumber];
      numberToIdentity := numberToIdentity[newNumber := identityKey];
      numberToShortNumber := numberToShortNumber[newNumber := newShortNumber];
      shortNumberToNumber := shortNumberToNumber[newShortNumber := newNumber];
      return Have(Number(newNumber, newShortNumber));
    }
  }

  /** On an index without empty numbers the script registers as the in-memory directory does. */
  lemma ScriptRefinesDirectory(k: Keys, r: Reg)
    requires forall id :: id in k.ix.idToNumber ==> k.ix.idToNumber[id] != ""
    ensures var (k', reply) := Script(k, r, None);
            && k'.ix == Registered(k.ix, r)
            && match Answer(k.ix, r) case Success(n) => reply == Have(n) case Failure(_) => reply == IsTaken
  {}

  // ----- two-phase registration by any number of clients -----

  /** A client that was told to sleep. */
  datatype Sleeper = Sleeper(r: Reg, now: int, millis: int)

  datatype State = State(
    keys: Keys,
    calls: seq<int>,             // history: the clock values of the calls that reached the limiter
    sleepers: map<nat, Sleeper>, // by call
    registered: map<nat, int>)   // history: when the call's new number was registered

  const INIT := State(Keys(EMPTY, None, 0), [], map[], map[])

  datatype Step =
    | FirstPhase(r: Reg, now: int)
    | SecondPhase(call: nat, at: int)

  /** Clients honour their sleep; numbers are not empty. */
  predicate Enabled(s: State, step: Step) {
    match step
    case FirstPhase(r, _) => r.number != ""
    case SecondPhase(call, at) => call in s.sleepers && at >= s.sleepers[call].now + s.sleepers[call].millis
  }

  function Apply(s: State, step: Step): State
    requires Enabled(s, step)
  {
    match step
    case FirstPhase(r, now) =>
      if Settled(s.keys.ix, r) then s
      else
        var (keys, reply) := Script(s.keys, r, Some(now));
        var s1 := s.(keys := keys, calls := s.calls + [now]);
        if reply.SleepFor? then s1.(sleepers := s.sleepers[|s.calls| := Sleeper(r, now, reply.millis)])
        else s1.(registered := s.registered[|s.calls| := now])
    case SecondPhase(call, at) =>
      var r := s.sleepers[call].r;
      var s1 := s.(keys := Script(s.keys, r, None).0, sleepers := s.sleepers - {call});
      if Settled(s.keys.ix, r) then s1 else s1.(registered := s.registered[call := at])
  }

  ghost predicate IsRun(trace: seq<State>, steps: seq<Step>) {
    && |trace| == |steps| + 1
    && trace[0] == INIT
    && forall i :: 0 <= i < |steps| ==> Enabled(trace[i], steps[i]) && trace[i + 1] == Apply(trace[i], steps[i])
  }

  /** When call k may register at the earliest. */
  function Earliest(s: State, k: nat): int
    requires s.calls != []
  {
    s.calls[0] + PRICE * k
  }

  /** The account telescopes: it holds the time since the first call less the price of all later ones. */
  ghost predicate AccountInv(s: State) {
    if s.calls == [] then s.keys.last == None && s.keys.tokens == 0
    else s.keys.last == Some(s.calls[|s.calls| - 1]) &&
         s.keys.tokens == s.calls[|s.calls| - 1] - Earliest(s, |s.calls| - 1)
  }

  ghost predicate TimesInv(s: State) {
    && (forall k :: k in s.sleepers ==>
          k < |s.calls| && k !in s.registered && s.sleepers[k].now + s.sleepers[k].millis == Earliest(s, k) &&
          s.sleepers[k].r.number != "")
    && (forall k :: k in s.registered ==> k < |s.calls| && s.registered[k] >= Earliest(s, k))
  }

  ghost predicate CountInv(s: State) {
    |s.keys.ix.idToNumber| == |s.registered| &&
    forall id :: id in s.keys.ix.idToNumber ==> s.keys.ix.idToNumber[id] != ""
  }

  lemma AccountInvKept(s: State, step: Step)
    requires AccountInv(s) && Enabled(s, step)
    ensures AccountInv(Apply(s, step))
  {}

  lemma TimesInvKept(s: State, step: Step)
    requires AccountInv(s) && TimesInv(s) && Enabled(s, step)
    ensures TimesInv(Apply(s, step))
  {}

  /** A step registers one new number, by a call that had none, or changes neither the directory nor the history. */
  lemma RegistersAtMostOne(s: State, step: Step) returns (r: Reg, call: nat, at: int)
    requires TimesInv(s) && CountInv(s) && Enabled(s, step)
    ensures var s' := Apply(s, step);
            || (s'.keys.ix == s.keys.ix && s'.registered == s.registered)
            || (IsNew(s.keys.ix, r) && r.number != "" && s'.keys.ix == Added(s.keys.ix, r) &&
                call !in s.registered && s'.registered == s.registered[call := at])
  {
    match step {
      case FirstPhase(reg, now) => r, call, at := reg, |s.calls|, now;
      case SecondPhase(c, t) => r, call, at := s.sleepers[c].r, c, t;
    }
  }

  lemma CountInvKept(s: State, step: Step)
    requires TimesInv(s) && CountInv(s) && Enabled(s, step)
    ensures CountInv(Apply(s, step))
  {
    var r, call, at := RegistersAtMostOne(s, step);
    if Apply(s, step).keys.ix != s.keys.ix {
      OneMore(s.keys.ix.idToNumber, r.id, r.number);
      OneMore(s.registered, call, at);
    }
  }

  lemma OneMore<K, V>(m: map<K, V>, k: K, v: V)
    requires k !in m
    ensures |m[k := v]| == |m| + 1
  {}

  lemma {:induction false} InvInRuns(trace: seq<State>, steps: seq<Step>, i: nat)
    requires IsRun(trace, steps) && i < |trace|
    ensures AccountInv(trace[i]) && TimesInv(trace[i]) && CountInv(trace[i]) && Inv(trace[i].keys.ix)
  {
    if i > 0 {
      InvInRuns(trace, steps, i - 1);
      var s, step := trace[i - 1], steps[i - 1];
      AccountInvKept(s, step);
      TimesInvKept(s, step);
      CountInvKept(s, step);
      IndexInvKept(s, step);
    }
  }

  lemma IndexInvKept(s: State, step: Step)
    requires TimesInv(s) && CountInv(s) && Inv(s.keys.ix) && Enabled(s, step)
    ensures Inv(Apply(s, step).keys.ix) && Extends(s.keys.ix, Apply(s, step).keys.ix)
  {
    var r, call, at := RegistersAtMostOne(s, step);
    RegisteredKeeps(s.keys.ix, r);
  }

  /**
  The limiter delays exactly the calls that come too early. In every run a call for a new
  identity and a free number, the n-th to reach the limiter, registers its number at once
  if and only if it is the first or its clock is at least 500 * n milliseconds past that
  of the first; otherwise it is told to sleep for a positive time that ends exactly then,
  and the directory stays as it is.
  */
  lemma AtOnceIff(trace: seq<State>, steps: seq<Step>, i: nat)
    requires IsRun(trace, steps) && i < |steps| && steps[i].FirstPhase?
    requires steps[i].r.id !in trace[i].keys.ix.idToNumber && steps[i].r.number !in trace[i].keys.ix.numberToId
    ensures var s, s', n := trace[i], trace[i + 1], |trace[i].calls|;
            var r, now, reply := steps[i].r, steps[i].now, Script(trace[i].keys, steps[i].r, Some(steps[i].now)).1;
            && s'.calls == s.calls + [now]
            && (n in s'.registered <==> s.calls == [] || now >= s.calls[0] + 500 * n)
            && (if n in s'.registered then
                  s'.registered == s.registered[n := now] && s'.sleepers == s.sleepers &&
                  IsHeld(s'.keys.ix, r) && reply == Have(Number(r.number, r.short))
                else
                  s'.registered == s.registered && s'.keys.ix == s.keys.ix && reply.SleepFor? && reply.millis > 0 &&
                  now + reply.millis == s.calls[0] + 500 * n && s'.sleepers == s.sleepers[n := Sleeper(r, now, reply.millis)])
  {
    InvInRuns(trace, steps, i);
  }

  /** The registration is in all four maps. */
  predicate IsHeld(ix: Index, r: Reg) {
    && r.id in ix.idToNumber && ix.idToNumber[r.id] == r.number
    && r.number in ix.numberToId && ix.numberToId[r.number] == r.id
    && r.number in ix.numberToShort && ix.numberToShort[r.number] == r.short
    && r.short in ix.shortToNumber && ix.shortToNumber[r.short] == r.number
  }

  /** A call for an identity that has a number, or for a number that is taken, changes nothing and is told so. */
  lemma SettledAtOnce(trace: seq<State>, steps: seq<Step>, i: nat)
    requires IsRun(trace, steps) && i < |steps| && steps[i].FirstPhase?
    requires steps[i].r.id in trace[i].keys.ix.idToNumber || steps[i].r.number in trace[i].keys.ix.numberToId
    ensures var ix, r := trace[i].keys.ix, steps[i].r;
            && trace[i + 1] == trace[i]
            && match Script(trace[i].keys, r, Some(steps[i].now)).1
               case Have(n) => r.id in ix.idToNumber && n.number == ix.idToNumber[r.id] &&
                               n.number in ix.numberToShort && n.short == ix.numberToShort[n.number]
               case IsTaken => r.id !in ix.idToNumber && r.number in ix.numberToId
               case SleepFor(_) => false
  {
    InvInRuns(trace, steps, i);
  }

  /** After its sleep a call registers exactly when its identity still has no number and its number is still free. */
  lemma AfterSleepIff(trace: seq<State>, steps: seq<Step>, i: nat)
    requires IsRun(trace, steps) && i < |steps| && steps[i].SecondPhase?
    ensures var s, s', call := trace[i], trace[i + 1], steps[i].call;
            var r := s.sleepers[call].r;
            && s'.calls == s.calls && s'.sleepers == s.sleepers - {call}
            && (call in s'.registered <==> r.id !in s.keys.ix.idToNumber && r.number !in s.keys.ix.numberToId)
            && (if call in s'.registered then s'.registered == s.registered[call := steps[i].at] && IsHeld(s'.keys.ix, r)
                else s'.registered == s.registered && s'.keys.ix == s.keys.ix)
  {
    InvInRuns(trace, steps, i);
  }

  lemma {:induction false} BoundedSet(s: set<nat>, n: nat)
    requires forall k :: k in s ==> k < n
    ensures |s| <= n
  {
    if n > 0 {
      BoundedSet(s - {n - 1}, n - 1);
      assert s <= (s - {n - 1}) + {n - 1};
    } else {
      assert s == {};
    }
  }

  /** The calls whose new number was registered by time t. */
  function RegisteredBy(s: State, t: int): set<nat> {
    set k | k in s.registered && s.registered[k] <= t
  }

  /**
  The rate limit, for every interleaving of clients and any clock values they supply:
  call k registers no earlier than 500 * k milliseconds after the first call's clock, so
  at most (t - t0) / 500 + 1 numbers are registered by time t, and each number in the
  directory was registered by a call of its own.
  */
  lemma RateLimit(trace: seq<State>, steps: seq<Step>, i: nat, t: int)
    requires IsRun(trace, steps) && i < |trace| && trace[i].calls != []
    ensures var s := trace[i];
            && (forall k :: k in s.registered ==> k < |s.calls| && s.registered[k] >= s.calls[0] + PRICE * k)
            && (if t >= s.calls[0] then |RegisteredBy(s, t)| <= (t - s.calls[0]) / PRICE + 1 else |RegisteredBy(s, t)| == 0)
            && |s.keys.ix.idToNumber| == |s.registered|
  {
    InvInRuns(trace, steps, i);
    var s := trace[i];
    if t >= s.calls[0] {
      BoundedSet(RegisteredBy(s, t), (t - s.calls[0]) / PRICE + 1);
    } else {
      assert RegisteredBy(s, t) == {};
    }
  }
}
