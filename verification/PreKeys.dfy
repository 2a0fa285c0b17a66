/**
The pre-key store in memory: per identity and device a signed pre-key and a stack of
one-time pre-keys, each to be handed out once.
*/
module PreKeys {
  import opened Listings
  import opened Wrappers

  datatype Registration = Registration(signed: string, oneTime: seq<string>)

  type Devices = map<string, Registration>
  type Store = map<string, Devices>

  datatype PreKey = PreKey(device: string, signed: string, oneTime: Option<string>)

  datatype Error = UnknownIdentity | UnknownDevice

  function DevicesOf(st: Store, identity: string): Devices {
    if identity in st then st[identity] else map[]
  }

  predicate IsRegistered(st: Store, identity: string, device: string) {
    device in DevicesOf(st, identity)
  }

  /** Same signed key: append the one-time keys. Otherwise: replace the registration. */
  function Registered(st: Store, identity: string, device: string, reg: Registration): Store {
    var devices := DevicesOf(st, identity);
    st[identity := devices[device :=
      if device in devices && devices[device].signed == reg.signed
      then Registration(reg.signed, devices[device].oneTime + reg.oneTime)
      else reg]]
  }

  function Unregistered(st: Store, identity: string, device: string): Store {
    var rest := DevicesOf(st, identity) - {device};
    if identity !in st then st
    else if rest == map[] then st - {identity}
    else st[identity := rest]
  }

  function LastKey(reg: Registration): Option<string> {
    if reg.oneTime == [] then None else Some(reg.oneTime[|reg.oneTime| - 1])
  }

  function WithoutLast(reg: Registration): Registration {
    if reg.oneTime == [] then reg else reg.(oneTime := reg.oneTime[..|reg.oneTime| - 1])
  }

  /** The devices after the given ones have been served. */
  function ServedTo(devices: Devices, served: set<string>): Devices {
    map d | d in devices :: if d in served then WithoutLast(devices[d]) else devices[d]
  }

  function Wanted(devices: Devices, known: seq<string>): set<string> {
    set d | d in devices && d !in known
  }

  function Served(st: Store, identity: string, known: seq<string>): Store {
    if identity !in st then st
    else st[identity := ServedTo(st[identity], Wanted(st[identity], known))]
  }

  function AnswerFor(devices: Devices, order: seq<string>): seq<PreKey>
    requires forall d :: d in order ==> d in devices
  {
    seq(|order|, i requires 0 <= i < |order| =>
      PreKey(order[i], devices[order[i]].signed, LastKey(devices[order[i]])))
  }

  class MemDb {
    var identities: Store

    /** Identities without devices are removed. */
    ghost predicate Valid()
      reads this
    {
      NoEmptyIdentity(identities)
    }

    constructor ()
      ensures Valid() && identities == map[]
    {
      identities := map[];
    }

    method Register(identity: string, device: string, reg: Registration)
      requires Valid()
      modifies this
      ensures Valid() && identities == Registered(old(identities), identity, device, reg)
    {
      RegisteredKeeps(identities, identity, device, reg);
      if identity !in identities {
        identities := identities[identity := map[]];
      }
      var devices := identities[identity];
      if device in devices && devices[device].signed == reg.signed {
        var existing := devices[device];
        devices := devices[device := existing.(oneTime := existing.oneTime + reg.oneTime)];
      } else {
        devices := devices[device := reg];
      }
      identities := identities[identity := devices];
    }

    method Unregister(identity: string, device: string)
      requires Valid()
      modifies this
      ensures Valid() && identities == Unregistered(old(identities), identity, device)
    {
      if identity in identities {
        var rest := identities[identity] - {device};
        if rest == map[] {
          identities := identities - {identity};
        } else {
          identities := identities[identity := rest];
        }
      }
    }

    /** One pre-key for each registered device not listed as known, in the order the map yields them. */
    method RequestPreKeys(identity: string, known: seq<string>) returns (result: Result<seq<PreKey>, Error>, ghost order: seq<string>)
      requires Valid()
      modifies this
      ensures Valid() && identities == Served(old(identities), identity, known)
      ensures result == Failure(UnknownIdentity) <==> identity !in old(identities)
      ensures result.Success? ==>
                Lists(order, Wanted(old(identities)[identity], known)) &&
                result.value == AnswerFor(old(identities)[identity], order)
      ensures result.Success? ==> identity in identities && Serves(old(identities)[identity], identities[identity], known, result.value)
    {
      if identity !in identities {
        return Failure(UnknownIdentity), [];
      }
      var answers;
      answers, order := ServeDevices(identity, known);
      assert Served(old(identities), identity, known) == identities;
      result := Success(answers);
    }

    /** The loop over the devices of an identity. */
    method ServeDevices(identity: string, known: seq<string>) returns (answers: seq<PreKey>, ghost order: seq<string>)
      requires identity in identities
      modifies this
      ensures var start := old(identities)[identity];
              && identities == old(identities)[identity := ServedTo(start, Wanted(start, known))]
              && Lists(order, Wanted(start, known)) && answers == AnswerFor(start, order)
              && Serves(start, identities[identity], known, answers) && (identities[identity] == map[] <==> start == map[])
    {
      ghost var start := identities[identity];
      ghost var served := {};
      order, answers := [], [];
      var remaining := identities[identity].Keys;
      assert ServedTo(start, {}) == start;
      while remaining != {}
        invariant remaining <= start.Keys && served == Wanted(start, known) - remaining
        invariant identities == old(identities)[identity := ServedTo(start, served)]
        invariant Lists(order, served) && answers == AnswerFor(start, order)
        decreases remaining
      {
        var device :| device in remaining;
        remaining := remaining - {device};
        if device !in known {
          var reg := identities[identity][device];
          answers := answers + [PreKey(device, reg.signed, LastKey(reg))];
          identities := identities[identity := identities[identity][device := WithoutLast(reg)]];
          ListsSnoc(order, served, device);
          AnswerSnoc(start, order, device);
          assert identities[identity] == ServedTo(start, served + {device});
          order, served := order + [device], served + {device};
        }
      }
      assert served == Wanted(start, known);
      ServedKeepsDevices(start, served);
      ServedMeans(start, known, order);
    }
  }

  /**
  What a request does for the devices of an identity: those not known, and no others, are
  answered for, each once, with their signed key and their last one-time key, if any,
  which they lose.
  */
  ghost predicate Serves(devices: Devices, devices': Devices, known: seq<string>, answers: seq<PreKey>) {
    && devices'.Keys == devices.Keys
    && (forall d :: d in devices ==>
          && devices'[d].signed == devices[d].signed
          && devices'[d].oneTime == if d in known || devices[d].oneTime == [] then devices[d].oneTime
                                    else devices[d].oneTime[..|devices[d].oneTime| - 1])
    && (set p | p in answers :: p.device) == (set d | d in devices && d !in known)
    && (forall j, k :: 0 <= j < k < |answers| ==> answers[j].device != answers[k].device)
    && (forall k :: 0 <= k < |answers| ==>
          && answers[k].device in devices
          && var reg := devices[answers[k].device];
             answers[k].signed == reg.signed &&
             answers[k].oneTime == if reg.oneTime == [] then None else Some(reg.oneTime[|reg.oneTime| - 1]))
  }

  /** A request leaves the other identities alone. */
  lemma ServedLeavesOthers(st: Store, identity: string, known: seq<string>)
    ensures Served(st, identity, known).Keys == st.Keys
    ensures forall i :: i in st && i != identity ==> Served(st, identity, known)[i] == st[i]
  {}

  lemma ServedMeans(devices: Devices, known: seq<string>, order: seq<string>)
    requires Lists(order, Wanted(devices, known))
    ensures Serves(devices, ServedTo(devices, Wanted(devices, known)), known, AnswerFor(devices, order))
  {
    var answers := AnswerFor(devices, order);
    forall k | 0 <= k < |order| ensures order[k] in devices && order[k] !in known { assert order[k] in order; }
    forall d ensures d in (set p | p in answers :: p.device) <==> d in devices && d !in known {
      if d in devices && d !in known {
        assert d in order;
        var k :| 0 <= k < |order| && order[k] == d;
        assert answers[k] in answers && answers[k].device == d;
      }
    }
  }

  /** Registering keeps the given signed key, and touches no other device. */
  lemma RegisterMeans(st: Store, identity: string, device: string, reg: Registration, i: string, d: string)
    ensures var st' := Registered(st, identity, device, reg);
            if i == identity && d == device then
              IsRegistered(st', i, d) && st'[i][d].signed == reg.signed &&
              st'[i][d].oneTime == if IsRegistered(st, i, d) && st[i][d].signed == reg.signed
                                   then st[i][d].oneTime + reg.oneTime else reg.oneTime
            else (IsRegistered(st', i, d) <==> IsRegistered(st, i, d)) && (IsRegistered(st, i, d) ==> st'[i][d] == st[i][d])
  {}

  ghost predicate NoEmptyIdentity(st: Store) {
    forall i :: i in st ==> st[i] != map[]
  }

  lemma RegisteredKeeps(st: Store, identity: string, device: string, reg: Registration)
    requires NoEmptyIdentity(st)
    ensures NoEmptyIdentity(Registered(st, identity, device, reg))
  {}

  lemma AnswerSnoc(devices: Devices, order: seq<string>, d: string)
    requires forall e :: e in order + [d] ==> e in devices
    ensures (forall e :: e in order ==> e in devices)
    ensures AnswerFor(devices, order + [d]) ==
            AnswerFor(devices, order) + [PreKey(d, devices[d].signed, LastKey(devices[d]))]
  {}

  // ----- conservation of one-time keys -----

  datatype Op =
    | Register(identity: string, device: string, reg: Registration)
    | Unregister(identity: string, device: string)
    | Request(identity: string, known: seq<string>, order: seq<string>)  // the order devices are answered in

  function Apply(st: Store, op: Op): Store {
    match op
    case Register(identity, device, reg) => Registered(st, identity, device, reg)
    case Unregister(identity, device) => Unregistered(st, identity, device)
    case Request(identity, known, _) => Served(st, identity, known)
  }

  /** The answer to a request. */
  function Answer(st: Store, identity: string, order: seq<string>): Result<seq<PreKey>, Error>
    requires forall d :: d in order ==> d in DevicesOf(st, identity)
  {
    if identity !in st then Failure(UnknownIdentity) else Success(AnswerFor(DevicesOf(st, identity), order))
  }

  ghost predicate Enabled(st: Store, op: Op) {
    op.Request? ==> Lists(op.order, Wanted(DevicesOf(st, op.identity), op.known))
  }

  ghost predicate IsRun(ops: seq<Op>) {
    ops != [] ==> IsRun(ops[..|ops| - 1]) && Enabled(Run(ops[..|ops| - 1]), ops[|ops| - 1])
  }

  function Run(ops: seq<Op>): Store {
    if ops == [] then map[] else Apply(Run(ops[..|ops| - 1]), ops[|ops| - 1])
  }

  /** The fate of the one-time keys of one device. */
  datatype Ledger = Ledger(registered: multiset<string>, handedOut: multiset<string>, dropped: multiset<string>)

  function Held(st: Store, identity: string, device: string): multiset<string> {
    if IsRegistered(st, identity, device) then multiset(st[identity][device].oneTime) else multiset{}
  }

  /** The one-time keys an answer gives out for a device. */
  function KeysIn(answer: seq<PreKey>, device: string): multiset<string> {
    if answer == [] then multiset{}
    else
      var last := answer[|answer| - 1];
      KeysIn(answer[..|answer| - 1], device) +
      if last.device == device && last.oneTime.Some? then multiset{last.oneTime.value} else multiset{}
  }

  /** What an operation, applied in a store, adds to the ledger of a device. */
  ghost function Booked(l: Ledger, st: Store, op: Op, identity: string, device: string): Ledger
    requires Enabled(st, op)
  {
    match op
    case Register(i, d, reg) =>
      if i != identity || d != device then l
      else Ledger(l.registered + multiset(reg.oneTime), l.handedOut,
                  if IsRegistered(st, i, d) && st[i][d].signed != reg.signed then l.dropped + Held(st, i, d) else l.dropped)
    case Unregister(i, d) =>
      if i != identity || d != device then l else l.(dropped := l.dropped + Held(st, i, d))
    case Request(i, _, order) =>
      if i != identity then l
      else match Answer(st, i, order)
           case Success(answer) => l.(handedOut := l.handedOut + KeysIn(answer, device))
           case Failure(_) => l
  }

  ghost function LedgerOf(ops: seq<Op>, identity: string, device: string): Ledger
    requires IsRun(ops)
  {
    if ops == [] then Ledger(multiset{}, multiset{}, multiset{})
    else
      var before := ops[..|ops| - 1];
      Booked(LedgerOf(before, identity, device), Run(before), ops[|ops| - 1], identity, device)
  }

  lemma KeysInSnoc(answer: seq<PreKey>, last: PreKey, device: string)
    ensures KeysIn(answer + [last], device) == KeysIn(answer, device) +
            if last.device == device && last.oneTime.Some? then multiset{last.oneTime.value} else multiset{}
  {
    assert (answer + [last])[..|answer|] == answer;
  }

  /** An answer holds exactly one pre-key per answered device, so gives out at most one key of each. */
  lemma {:induction false} KeysInAnswer(devices: Devices, order: seq<string>, device: string)
    requires (forall d :: d in order ==> d in devices) && (forall i, j :: 0 <= i < j < |order| ==> order[i] != order[j])
    ensures KeysIn(AnswerFor(devices, order), device) ==
            if device in order && LastKey(devices[device]).Some? then multiset{LastKey(devices[device]).value} else multiset{}
  {
    if order != [] {
      var front, last := order[..|order| - 1], order[|order| - 1];
      assert order == front + [last];
      AnswerSnoc(devices, front, last);
      KeysInAnswer(devices, front, device);
      KeysInSnoc(AnswerFor(devices, front), PreKey(last, devices[last].signed, LastKey(devices[last])), device);
    }
  }

  lemma HeldAfterRegister(st: Store, i: string, d: string, reg: Registration, identity: string, device: string)
    ensures Held(Registered(st, i, d, reg), identity, device) ==
            if i != identity || d != device then Held(st, identity, device)
            else if IsRegistered(st, i, d) && st[i][d].signed == reg.signed then Held(st, i, d) + multiset(reg.oneTime)
            else multiset(reg.oneTime)
  {}

  lemma HeldAfterUnregister(st: Store, i: string, d: string, identity: string, device: string)
    ensures Held(Unregistered(st, i, d), identity, device) ==
            if i != identity || d != device then Held(st, identity, device) else multiset{}
  {}

  lemma HeldAfterRequest(st: Store, i: string, known: seq<string>, identity: string, device: string)
    ensures var held, after := Held(st, identity, device), Held(Served(st, i, known), identity, device);
            if i == identity && IsRegistered(st, i, device) && device in Wanted(st[i], known) && LastKey(st[i][device]).Some?
            then held == after + multiset{LastKey(st[i][device]).value}
            else held == after
  {
    if i == identity && IsRegistered(st, i, device) {
      var keys := st[i][device].oneTime;
      if keys != [] {
        assert keys == keys[..|keys| - 1] + [keys[|keys| - 1]];
      }
    }
  }

  ghost predicate Balanced(l: Ledger, held: multiset<string>) {
    l.registered == l.handedOut + held + l.dropped
  }

  lemma DropKeys(l: Ledger, held: multiset<string>)
    requires Balanced(l, held)
    ensures Balanced(l.(dropped := l.dropped + held), multiset{})
  {}

  lemma HandOutKey(l: Ledger, held: multiset<string>, after: multiset<string>, key: string)
    requires Balanced(l, held) && held == after + multiset{key}
    ensures Balanced(l.(handedOut := l.handedOut + multiset{key}), after)
  {}

  lemma RegisterConserves(l: Ledger, st: Store, i: string, d: string, reg: Registration)
    requires Balanced(l, Held(st, i, d))
    ensures Balanced(Booked(l, st, Register(i, d, reg), i, d), Held(Registered(st, i, d, reg), i, d))
  {}

  lemma StepConserves(l: Ledger, st: Store, op: Op, identity: string, device: string)
    requires Enabled(st, op) && Balanced(l, Held(st, identity, device))
    ensures Balanced(Booked(l, st, op, identity, device), Held(Apply(st, op), identity, device))
  {
    var held, after := Held(st, identity, device), Held(Apply(st, op), identity, device);
    match op {
      case Register(i, d, reg) =>
        HeldAfterRegister(st, i, d, reg, identity, device);
        if i == identity && d == device { RegisterConserves(l, st, i, d, reg); }
      case Unregister(i, d) =>
        HeldAfterUnregister(st, i, d, identity, device);
        DropKeys(l, held);
      case Request(i, known, order) =>
        HeldAfterRequest(st, i, known, identity, device);
        if i == identity && i in st {
          KeysInAnswer(DevicesOf(st, i), order, device);
          if held != after { HandOutKey(l, held, after, LastKey(st[i][device]).value); }
        }
    }
  }

  /**
  Over any run, for every device: the one-time keys registered are, counted with
  multiplicity, those handed out, those still held, and those dropped by a change of
  the signed key or by unregistering. In particular no registered instance is handed
  out twice.
  */
  lemma {:induction false} OneTimeKeysConserved(ops: seq<Op>, identity: string, device: string)
    requires IsRun(ops)
    ensures var l := LedgerOf(ops, identity, device);
            Balanced(l, Held(Run(ops), identity, device)) && l.handedOut <= l.registered
  {
    if ops != [] {
      OneTimeKeysConserved(ops[..|ops| - 1], identity, device);
      StepConserves(LedgerOf(ops[..|ops| - 1], identity, device), Run(ops[..|ops| - 1]), ops[|ops| - 1], identity, device);
    }
  }

  lemma ApplyKeepsNoEmptyIdentity(st: Store, op: Op)
    requires NoEmptyIdentity(st)
    ensures NoEmptyIdentity(Apply(st, op))
  {}

  lemma ServedKeepsDevices(devices: Devices, served: set<string>)
    ensures ServedTo(devices, served).Keys == devices.Keys
    ensures ServedTo(devices, served) == map[] <==> devices == map[]
  {}
}
