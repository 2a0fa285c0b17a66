/**
The pre-key store in Redis, at the level of its keys and scripts, and its refinement
of the in-memory store: the list of a device is the reverse of its in-memory stack.
*/
module RedisPreKeys {
  import opened Listings
  import opened Wrappers
  import opened Keys
  import opened PreKeys

  /** The part of the key space the store uses: device sets, signed keys of the device hashes, one-time key lists. */
  datatype Redis = Redis(sets: map<Key, set<string>>, hashes: map<Key, string>, lists: map<Key, seq<string>>)

  const EMPTY := Redis(map[], map[], map[])

  function SetAt(r: Redis, key: Key): set<string> {
    if key in r.sets then r.sets[key] else {}
  }

  function ListAt(r: Redis, key: Key): seq<string> {
    if key in r.lists then r.lists[key] else []
  }

  /** LPUSH with several values: each in turn becomes the head. */
  function PushAll(list: seq<string>, values: seq<string>): seq<string> {
    if values == [] then list
    else [values[|values| - 1]] + PushAll(list, values[..|values| - 1])
  }

  function Reverse(s: seq<string>): seq<string> {
    if s == [] then [] else [s[|s| - 1]] + Reverse(s[..|s| - 1])
  }

  /** The transaction of Register: register.lua, then LPUSH when there are one-time keys. */
  function RegisteredIn(r: Redis, identity: string, device: string, reg: Registration): Redis {
    var deviceKey, devicesKey, listKey := DeviceHash(identity, device), DeviceSet(identity), KeyList(identity, device);
    var replaced := deviceKey !in r.hashes || r.hashes[deviceKey] != reg.signed;
    var kept := if replaced then r.lists - {listKey} else r.lists;
    var present := if listKey in kept then kept[listKey] else [];
    Redis(r.sets[devicesKey := SetAt(r, devicesKey) + {device}],
          if replaced then r.hashes[deviceKey := reg.signed] else r.hashes,
          if reg.oneTime == [] then kept else kept[listKey := PushAll(present, reg.oneTime)])
  }

  /** unregister.lua: a device set of one member is deleted, whoever that member is. */
  function UnregisteredIn(r: Redis, identity: string, device: string): Redis {
    var deviceKey, devicesKey := DeviceHash(identity, device), DeviceSet(identity);
    var rest := SetAt(r, devicesKey) - {device};
    Redis(if |SetAt(r, devicesKey)| == 1 || rest == {} then r.sets - {devicesKey} else r.sets[devicesKey := rest],
          r.hashes - {deviceKey},
          r.lists - {KeyList(identity, device)})
  }

  /** LPOP. */
  function Popped(r: Redis, key: Key): Redis {
    var list := ListAt(r, key);
    if |list| <= 1 then r.(lists := r.lists - {key}) else r.(lists := r.lists[key := list[1..]])
  }

  function Head(list: seq<string>): Option<string> {
    if list == [] then None else Some(list[0])
  }

  function PoppedAll(r: Redis, identity: string, order: seq<string>): Redis {
    if order == [] then r
    else Popped(PoppedAll(r, identity, order[..|order| - 1]), KeyList(identity, order[|order| - 1]))
  }

  /** The pipeline of get_pre_key.lua calls: each reads a signed key and pops a one-time key. */
  function PipelineAnswer(r: Redis, identity: string, order: seq<string>): seq<PreKey>
    requires forall d :: d in order ==> DeviceHash(identity, d) in r.hashes
  {
    if order == [] then []
    else
      var front, last := order[..|order| - 1], order[|order| - 1];
      PipelineAnswer(r, identity, front) +
      [PreKey(last, r.hashes[DeviceHash(identity, last)], Head(ListAt(PoppedAll(r, identity, front), KeyList(identity, last))))]
  }

  /** RequestPreKeys: an empty answer is reported as an unknown identity. */
  function AnswerIn(r: Redis, identity: string, order: seq<string>): Result<seq<PreKey>, Error>
    requires forall d :: d in order ==> DeviceHash(identity, d) in r.hashes
  {
    if order == [] then Failure(UnknownIdentity) else Success(PipelineAnswer(r, identity, order))
  }

  // ----- the refinement relation -----

  /** Redis holds a registered device as the store does, and nothing of an unregistered one. */
  ghost predicate Matches(r: Redis, st: Store, identity: string, device: string) {
    var key, list := DeviceHash(identity, device), ListAt(r, KeyList(identity, device));
    if IsRegistered(st, identity, device) then
      var reg := st[identity][device];
      key in r.hashes && r.hashes[key] == reg.signed && list == Reverse(reg.oneTime)
    else
      key !in r.hashes && list == []
  }

  ghost predicate SetMatches(r: Redis, st: Store, identity: string) {
    SetAt(r, DeviceSet(identity)) == DevicesOf(st, identity).Keys
  }

  ghost predicate Refines(r: Redis, st: Store) {
    && NoEmptyIdentity(st)
    && (forall k :: k in r.hashes ==> k.DeviceHash?)
    && (forall i :: SetMatches(r, st, i))
    && (forall i, d :: Matches(r, st, i, d))
  }

  lemma {:induction false} PushAllReverses(list: seq<string>, values: seq<string>)
    ensures PushAll(list, values) == Reverse(values) + list
  {
    if values != [] { PushAllReverses(list, values[..|values| - 1]); }
  }

  lemma {:induction false} ReverseConcat(s: seq<string>, t: seq<string>)
    ensures Reverse(s + t) == Reverse(t) + Reverse(s)
  {
    if t == [] {
      assert s + t == s;
    } else {
      assert (s + t)[..|s + t| - 1] == s + t[..|t| - 1];
      ReverseConcat(s, t[..|t| - 1]);
    }
  }

  lemma EmptyRefines()
    ensures Refines(EMPTY, map[])
  {}

  lemma RegisterMatches(r: Redis, st: Store, identity: string, device: string, reg: Registration)
    requires Matches(r, st, identity, device)
    ensures Matches(RegisteredIn(r, identity, device, reg), Registered(st, identity, device, reg), identity, device)
  {
    PushAllReverses([], reg.oneTime);
    PushAllReverses(ListAt(r, KeyList(identity, device)), reg.oneTime);
    if IsRegistered(st, identity, device) {
      ReverseConcat(st[identity][device].oneTime, reg.oneTime);
      assert st[identity][device].oneTime + [] == st[identity][device].oneTime;
    }
  }

  /** Registering commutes with the refinement. */
  lemma RegisterRefines(r: Redis, st: Store, identity: string, device: string, reg: Registration)
    requires Refines(r, st)
    ensures Refines(RegisteredIn(r, identity, device, reg), Registered(st, identity, device, reg))
  {
    var r', st' := RegisteredIn(r, identity, device, reg), Registered(st, identity, device, reg);
    RegisteredKeeps(st, identity, device, reg);
    forall i ensures SetMatches(r', st', i) {
      assert SetMatches(r, st, i);
    }
    forall i, d ensures Matches(r', st', i, d) {
      assert Matches(r, st, i, d);
      if i == identity && d == device { RegisterMatches(r, st, identity, device, reg); }
    }
  }

  lemma UnregisterSets(r: Redis, st: Store, identity: string, device: string)
    requires SetMatches(r, st, identity)
    ensures SetMatches(UnregisteredIn(r, identity, device), Unregistered(st, identity, device), identity) <==>
            IsRegistered(st, identity, device) || |DevicesOf(st, identity)| != 1
  {
    var devices := DevicesOf(st, identity);
    assert |devices.Keys| == |devices|;
    assert (devices - {device}).Keys == devices.Keys - {device};
    if |devices.Keys| == 1 {
      var d :| d in devices;
      SingletonSet(devices.Keys, d);
    }
  }

  lemma SingletonSet(s: set<string>, x: string)
    requires |s| == 1 && x in s
    ensures s == {x}
  {
    assert |s - {x}| == 0;
  }

  lemma UnregisterMatches(r: Redis, st: Store, identity: string, device: string, i: string, d: string)
    requires Matches(r, st, i, d)
    ensures Matches(UnregisteredIn(r, identity, device), Unregistered(st, identity, device), i, d)
  {
    UnregisteredDevice(st, identity, device, i, d);
  }

  lemma UnregisteredDevice(st: Store, identity: string, device: string, i: string, d: string)
    ensures var st' := Unregistered(st, identity, device);
            && (IsRegistered(st', i, d) <==> IsRegistered(st, i, d) && !(i == identity && d == device))
            && (IsRegistered(st', i, d) ==> st'[i][d] == st[i][d])
  {}

  lemma UnregisterKeepsOtherSet(r: Redis, identity: string, device: string, i: string)
    requires i != identity
    ensures SetAt(UnregisteredIn(r, identity, device), DeviceSet(i)) == SetAt(r, DeviceSet(i))
  {}

  lemma UnregisterKeepsOtherIdentity(st: Store, identity: string, device: string, i: string)
    requires i != identity
    ensures DevicesOf(Unregistered(st, identity, device), i) == DevicesOf(st, i)
  {}

  /**
  Unregistering commutes with the refinement exactly when the device is registered or
  its identity does not have exactly one device.
  */
  lemma UnregisterRefinesIff(r: Redis, st: Store, identity: string, device: string)
    requires Refines(r, st)
    ensures Refines(UnregisteredIn(r, identity, device), Unregistered(st, identity, device)) <==>
            IsRegistered(st, identity, device) || |DevicesOf(st, identity)| != 1
  {
    var r', st' := UnregisteredIn(r, identity, device), Unregistered(st, identity, device);
    assert SetMatches(r, st, identity);
    UnregisterSets(r, st, identity, device);
    ApplyKeepsNoEmptyIdentity(st, Unregister(identity, device));
    if SetMatches(r', st', identity) {
      forall i ensures SetMatches(r', st', i) {
        assert SetMatches(r, st, i);
        if i != identity {
          UnregisterKeepsOtherSet(r, identity, device, i);
          UnregisterKeepsOtherIdentity(st, identity, device, i);
        }
      }
      forall i, d ensures Matches(r', st', i, d) {
        assert Matches(r, st, i, d);
        UnregisterMatches(r, st, identity, device, i, d);
      }
      assert Refines(r', st');
    } else {
      assert !Refines(r', st');
    }
  }

  lemma HeadIsLast(s: seq<string>)
    ensures s != [] ==> Reverse(s) != [] && Reverse(s)[0] == s[|s| - 1] && Reverse(s)[1..] == Reverse(s[..|s| - 1])
    ensures s == [] <==> Reverse(s) == []
    ensures |Reverse(s)| == |s|
  {}

  function ServedOnce(st: Store, identity: string, device: string): Store
    requires IsRegistered(st, identity, device)
  {
    st[identity := st[identity][device := WithoutLast(st[identity][device])]]
  }

  lemma PopMatches(r: Redis, st: Store, identity: string, device: string, i: string, d: string)
    requires IsRegistered(st, identity, device) && Matches(r, st, i, d)
    ensures Matches(Popped(r, KeyList(identity, device)), ServedOnce(st, identity, device), i, d)
  {}

  lemma PopRefines(r: Redis, st: Store, identity: string, device: string)
    requires Refines(r, st) && IsRegistered(st, identity, device)
    ensures Refines(Popped(r, KeyList(identity, device)), ServedOnce(st, identity, device))
  {
    var r', st' := Popped(r, KeyList(identity, device)), ServedOnce(st, identity, device);
    forall i, d ensures Matches(r', st', i, d) {
      assert Matches(r, st, i, d);
      PopMatches(r, st, identity, device, i, d);
    }
    forall i ensures SetMatches(r', st', i) {
      assert SetMatches(r, st, i);
    }
    assert device in st'[identity];
  }

  lemma PopNothingMatches(r: Redis, st: Store, identity: string, device: string, i: string, d: string)
    requires !IsRegistered(st, identity, device) && Matches(r, st, identity, device) && Matches(r, st, i, d)
    ensures Matches(Popped(r, KeyList(identity, device)), st, i, d)
  {}

  /** Popping for a device that is not registered changes nothing. */
  lemma PopNothingRefines(r: Redis, st: Store, identity: string, device: string)
    requires Refines(r, st) && !IsRegistered(st, identity, device)
    ensures Refines(Popped(r, KeyList(identity, device)), st)
  {
    var r' := Popped(r, KeyList(identity, device));
    assert Matches(r, st, identity, device);
    forall i, d ensures Matches(r', st, i, d) {
      assert Matches(r, st, i, d);
      PopNothingMatches(r, st, identity, device, i, d);
    }
    forall i ensures SetMatches(r', st, i) {
      assert SetMatches(r, st, i);
    }
  }

  /** The store after the registered ones of the given devices have been served. */
  function ServedOf(st: Store, identity: string, devices: set<string>): Store {
    if identity in st then st[identity := ServedTo(st[identity], devices)] else st
  }

  /** A pipeline over distinct registered devices. */
  ghost predicate ServesAll(st: Store, identity: string, order: seq<string>) {
    && identity in st && (forall d :: d in order ==> d in st[identity])
    && Distinct(order)
  }

  ghost predicate Distinct(order: seq<string>) {
    forall i, j :: 0 <= i < j < |order| ==> order[i] != order[j]
  }

  /** The pipeline pops the last key of each device it serves that is registered. */
  lemma {:induction false} PipelineRefines(r: Redis, st: Store, identity: string, order: seq<string>)
    requires Refines(r, st) && Distinct(order)
    ensures Refines(PoppedAll(r, identity, order), ServedOf(st, identity, set d | d in order))
    ensures PoppedAll(r, identity, order).hashes == r.hashes
  {
    if order == [] {
      assert identity in st ==> ServedTo(st[identity], set d | d in order) == st[identity];
      assert identity in st ==> st[identity := st[identity]] == st;
    } else {
      var front, last := order[..|order| - 1], order[|order| - 1];
      assert order == front + [last];
      PipelineRefines(r, st, identity, front);
      var mid := ServedOf(st, identity, set d | d in front);
      if IsRegistered(st, identity, last) {
        ServeOneMore(st, identity, front, last);
        PopRefines(PoppedAll(r, identity, front), mid, identity, last);
      } else {
        ServeNoMore(st, identity, front, last);
        PopNothingRefines(PoppedAll(r, identity, front), mid, identity, last);
      }
    }
  }

  lemma ServeNoMore(st: Store, identity: string, front: seq<string>, last: string)
    requires !IsRegistered(st, identity, last)
    ensures var mid := ServedOf(st, identity, set d | d in front);
            !IsRegistered(mid, identity, last) && mid == ServedOf(st, identity, set d | d in front + [last])
  {
    if identity in st {
      assert ServedTo(st[identity], set d | d in front) == ServedTo(st[identity], set d | d in front + [last]);
    }
  }

  /** The pipeline answers what the store answers. */
  lemma {:induction false} PipelineAnswers(r: Redis, st: Store, identity: string, order: seq<string>)
    requires Refines(r, st) && ServesAll(st, identity, order)
    ensures forall d :: d in order ==> DeviceHash(identity, d) in r.hashes
    ensures PipelineAnswer(r, identity, order) == AnswerFor(st[identity], order)
  {
    forall d | d in order ensures DeviceHash(identity, d) in r.hashes { assert Matches(r, st, identity, d); }
    if order != [] {
      var front, last := order[..|order| - 1], order[|order| - 1];
      assert order == front + [last];
      PipelineAnswers(r, st, identity, front);
      AnswerSnoc(st[identity], front, last);
      PipelineRefines(r, st, identity, front);
      ServeOneMore(st, identity, front, last);
      assert Matches(PoppedAll(r, identity, front), st[identity := ServedTo(st[identity], set d | d in front)], identity, last);
      HeadIsLast(st[identity][last].oneTime);
      assert Matches(r, st, identity, last);
    }
  }

  lemma ServeOneMore(st: Store, identity: string, front: seq<string>, last: string)
    requires identity in st && last in st[identity] && last !in front
    ensures var mid := st[identity := ServedTo(st[identity], set d | d in front)];
            && mid[identity][last] == st[identity][last]
            && ServedOnce(mid, identity, last) == st[identity := ServedTo(st[identity], set d | d in front + [last])]
  {
    var devices := st[identity];
    assert ServedTo(devices, set d | d in front)[last := WithoutLast(devices[last])] ==
           ServedTo(devices, set d | d in front + [last]);
  }

  /**
  An atomic RequestPreKeys commutes with the refinement and, answering in the same
  order, gives the same pre-keys; the answers agree exactly unless the identity is
  known but every device of it is listed as known.
  */
  lemma RequestRefines(r: Redis, st: Store, identity: string, known: seq<string>, order: seq<string>)
    requires Refines(r, st) && Lists(order, Wanted(DevicesOf(st, identity), known))
    ensures Refines(PoppedAll(r, identity, order), Served(st, identity, known))
    ensures forall d :: d in order ==> DeviceHash(identity, d) in r.hashes
    ensures AnswerIn(r, identity, order) == Answer(st, identity, order) <==> identity !in st || order != []
  {
    if identity in st {
      PipelineRefines(r, st, identity, order);
      PipelineAnswers(r, st, identity, order);
      assert (set d | d in order) == Wanted(st[identity], known);
    } else {
      EmptyOrSome(order);
    }
  }

  lemma EmptyOrSome(order: seq<string>)
    ensures order == [] || exists d :: d in order
  {
    assert order == [] || order[0] in order;
  }

  /** Listing the device set leaves out what the store leaves out. */
  lemma ListsWanted(r: Redis, st: Store, identity: string, known: seq<string>)
    requires Refines(r, st)
    ensures (set d | d in SetAt(r, DeviceSet(identity)) && d !in known) == Wanted(DevicesOf(st, identity), known)
    ensures forall d :: d in Wanted(DevicesOf(st, identity), known) <==> IsRegistered(st, identity, d) && d !in known
  {
    assert SetMatches(r, st, identity);
  }

  /** No call of the pipeline finds its device without a hash, which the source does not survive. */
  predicate Answerable(r: Redis, identity: string, order: seq<string>) {
    forall d :: d in order ==> DeviceHash(identity, d) in r.hashes
  }

  /**
  RequestPreKeys with anything happening between reading the device set and running the
  pipeline: it can be answered exactly when all devices listed are still registered,
  and then answers for them as they are at that time. In any case the registered ones
  lose their last key.
  */
  lemma SplitRequestIff(r: Redis, st: Store, identity: string, order: seq<string>)
    requires Refines(r, st) && Distinct(order)
    ensures Answerable(r, identity, order) <==> forall d :: d in order ==> IsRegistered(st, identity, d)
    ensures Answerable(r, identity, order) && order != [] ==>
              identity in st && (forall d :: d in order ==> d in st[identity]) &&
              AnswerIn(r, identity, order) == Success(AnswerFor(st[identity], order))
    ensures Refines(PoppedAll(r, identity, order), ServedOf(st, identity, set d | d in order))
  {
    forall d ensures DeviceHash(identity, d) in r.hashes <==> IsRegistered(st, identity, d) {
      assert Matches(r, st, identity, d);
    }
    PipelineRefines(r, st, identity, order);
    if Answerable(r, identity, order) && order != [] {
      assert order[0] in order;
      PipelineAnswers(r, st, identity, order);
    }
  }

  // ----- runs -----

  function ApplyIn(r: Redis, op: Op): Redis {
    match op
    case Register(identity, device, reg) => RegisteredIn(r, identity, device, reg)
    case Unregister(identity, device) => UnregisteredIn(r, identity, device)
    case Request(identity, _, order) => PoppedAll(r, identity, order)
  }

  function RunInFrom(r: Redis, ops: seq<Op>): Redis {
    if ops == [] then r else ApplyIn(RunInFrom(r, ops[..|ops| - 1]), ops[|ops| - 1])
  }

  function RunIn(ops: seq<Op>): Redis {
    RunInFrom(EMPTY, ops)
  }

  /** The operation is not the unregistering that the script gets wrong. */
  predicate Sound(st: Store, op: Op) {
    op.Unregister? ==> IsRegistered(st, op.identity, op.device) || |DevicesOf(st, op.identity)| != 1
  }

  ghost predicate IsSoundRun(ops: seq<Op>) {
    ops != [] ==>
      var st, op := Run(ops[..|ops| - 1]), ops[|ops| - 1];
      IsSoundRun(ops[..|ops| - 1]) && Enabled(st, op) && Sound(st, op)
  }

  lemma StepRefines(r: Redis, st: Store, op: Op)
    requires Refines(r, st) && Enabled(st, op) && Sound(st, op)
    ensures Refines(ApplyIn(r, op), Apply(st, op))
  {
    match op {
      case Register(i, d, reg) => RegisterRefines(r, st, i, d, reg);
      case Unregister(i, d) => UnregisterRefinesIff(r, st, i, d);
      case Request(i, known, order) => RequestRefines(r, st, i, known, order);
    }
  }

  /** After any sound run Redis refines the in-memory store. */
  lemma {:induction false} RunsRefine(ops: seq<Op>)
    requires IsSoundRun(ops)
    ensures Refines(RunIn(ops), Run(ops))
  {
    if ops == [] {
      EmptyRefines();
    } else {
      var before := ops[..|ops| - 1];
      RunsRefine(before);
      StepRefines(RunIn(before), Run(before), ops[|ops| - 1]);
    }
  }

  lemma RunSnoc(ops: seq<Op>, op: Op)
    ensures Run(ops + [op]) == Apply(Run(ops), op) && RunIn(ops + [op]) == ApplyIn(RunIn(ops), op)
    ensures IsRun(ops) && Enabled(Run(ops), op) ==> IsRun(ops + [op])
  {
    assert (ops + [op])[..|ops|] == ops;
  }

  const KEY := Registration("s", [])
  const OTHER := Registration("t", ["k"])
  const ONE := [Register("i", "a", KEY)]
  const TWO := ONE + [Register("i", "b", OTHER)]

  lemma AfterOne()
    ensures IsRun(ONE) && Run(ONE) == map["i" := map["a" := KEY]] && SetAt(RunIn(ONE), DeviceSet("i")) == {"a"}
  {
    RunSnoc([], ONE[0]);
    assert [] + [ONE[0]] == ONE;
  }

  /** Unregistering an unknown device of an identity with one device deletes the set that device is in. */
  lemma WrongUnregisterWitness()
    ensures var ops := ONE + [Unregister("i", "b")];
            IsRun(ops) && IsRegistered(Run(ops), "i", "a") && !Refines(RunIn(ops), Run(ops))
  {
    AfterOne();
    RunSnoc(ONE, Unregister("i", "b"));
    var ops := ONE + [Unregister("i", "b")];
    assert "a" in DevicesOf(Run(ops), "i").Keys && "a" !in SetAt(RunIn(ops), DeviceSet("i"));
    assert !SetMatches(RunIn(ops), Run(ops), "i");
  }

  /** Redis reports an unknown identity where the store answers with no pre-keys. */
  lemma AllKnownWitness()
    ensures IsRun(ONE) && Lists([], Wanted(DevicesOf(Run(ONE), "i"), ["a"]))
    ensures Answer(Run(ONE), "i", []) == Success([]) && AnswerIn(RunIn(ONE), "i", []) == Failure(UnknownIdentity)
  {
    AfterOne();
    assert Wanted(DevicesOf(Run(ONE), "i"), ["a"]) == {};
    assert AnswerFor(DevicesOf(Run(ONE), "i"), []) == [];
  }

  /** A device unregistered between the phases makes the request fail, and the other device lose its key all the same. */
  lemma SplitRequestWitness()
    ensures var ops := TWO + [Unregister("i", "a")];
            && Wanted(DevicesOf(Run(TWO), "i"), []) == {"a", "b"} && !Answerable(RunIn(ops), "i", ["a", "b"])
            && Held(Run(ops), "i", "b") == multiset{"k"} && Held(ServedOf(Run(ops), "i", {"a", "b"}), "i", "b") == multiset{}
  {
    AfterOne();
    RunSnoc(ONE, Register("i", "b", OTHER));
    RunSnoc(TWO, Unregister("i", "a"));
    assert Run(TWO) == map["i" := map["a" := KEY, "b" := OTHER]];
    assert DevicesOf(Run(TWO), "i") - {"a"} == map["b" := OTHER];
    assert "a" == ["a", "b"][0];
    assert OTHER.oneTime[..0] == [];
  }

  // ----- the database object -----

  /** Keys are of the right kind for their type, and built from encoded identities and devices. */
  ghost predicate NamedKeys(r: Redis) {
    && (forall k :: k in r.sets ==> k.DeviceSet? && NamedKey(k))
    && (forall k :: k in r.hashes ==> k.DeviceHash? && NamedKey(k))
    && (forall k :: k in r.lists ==> k.KeyList? && NamedKey(k))
  }

  function Texts(keys: set<Key>): set<string> {
    set k | k in keys :: KeyText(k)
  }

  /** KEYS "device:*". */
  function MatchingDevice(r: Redis): set<string> {
    set t | t in Texts(r.sets.Keys) + Texts(r.hashes.Keys) + Texts(r.lists.Keys) && "device:" <= t
  }

  lemma MatchingDeviceIs(r: Redis)
    requires NamedKeys(r)
    ensures MatchingDevice(r) == Texts(r.hashes.Keys)
  {
    forall k | k in r.sets.Keys + r.hashes.Keys + r.lists.Keys ensures "device:" <= KeyText(k) <==> k.DeviceHash? {
      KeyTextInjective(k, k);
    }
  }

  lemma RemoveText(keys: set<Key>, k: Key)
    requires k in keys && forall x :: x in keys ==> NamedKey(x)
    ensures Texts(keys) - {KeyText(k)} == Texts(keys - {k})
  {
    forall x | x in keys ensures KeyText(x) == KeyText(k) ==> x == k { KeyTextInjective(x, k); }
  }

  lemma PipelineSnoc(r: Redis, identity: string, front: seq<string>, last: string)
    ensures PoppedAll(r, identity, front + [last]) == Popped(PoppedAll(r, identity, front), KeyList(identity, last))
    ensures Answerable(r, identity, front + [last]) <==> Answerable(r, identity, front) && DeviceHash(identity, last) in r.hashes
    ensures Answerable(r, identity, front + [last]) ==>
              PipelineAnswer(r, identity, front + [last]) ==
              PipelineAnswer(r, identity, front) +
              [PreKey(last, r.hashes[DeviceHash(identity, last)], Head(ListAt(PoppedAll(r, identity, front), KeyList(identity, last))))]
  {
    var order := front + [last];
    assert order[..|front|] == front && order[|front|] == last;
    assert forall d :: d in order <==> d in front || d == last;
  }

  class RedisDb {
    var sets: map<Key, set<string>>
    var hashes: map<Key, string>
    var lists: map<Key, seq<string>>

    function State(): Redis
      reads this
    {
      Redis(sets, hashes, lists)
    }

    constructor ()
      ensures State() == EMPTY
    {
      sets, hashes, lists := map[], map[], map[];
    }

    method Register(identity: string, device: string, reg: Registration)
      modifies this
      ensures State() == RegisteredIn(old(State()), identity, device, reg)
    {
      var deviceKey, devicesKey, listKey := DeviceHash(identity, device), DeviceSet(identity), KeyList(identity, device);
      sets := sets[devicesKey := (if devicesKey in sets then sets[devicesKey] else {}) + {device}];
      if deviceKey !in hashes || hashes[deviceKey] != reg.signed {
        hashes := hashes[deviceKey := reg.signed];
        lists := lists - {listKey};
      }
      LPush(listKey, reg.oneTime);
    }

    method LPush(key: Key, values: seq<string>)
      modifies this`lists
      ensures lists == if values == [] then old(lists)
                       else old(lists)[key := PushAll(old(ListAt(State(), key)), values)]
    {
      for i := 0 to |values|
        invariant lists == if i == 0 then old(lists)
                           else old(lists)[key := PushAll(old(ListAt(State(), key)), values[..i])]
      {
        assert values[..i + 1][..i] == values[..i];
        lists := lists[key := [values[i]] + if key in lists then lists[key] else []];
      }
      assert values[..|values|] == values;
    }

    method Unregister(identity: string, device: string)
      modifies this
      ensures State() == UnregisteredIn(old(State()), identity, device)
    {
      var devicesKey := DeviceSet(identity);
      var members := if devicesKey in sets then sets[devicesKey] else {};
      if |members| == 1 || members - {device} == {} {
        sets := sets - {devicesKey};
      } else {
        sets := sets[devicesKey := members - {device}];
      }
      hashes := hashes - {DeviceHash(identity, device)};
      lists := lists - {KeyList(identity, device)};
    }

    /** The first phase of RequestPreKeys: the members of the device set that are not known, in some order. */
    method ListWanted(identity: string, known: seq<string>) returns (order: seq<string>)
      ensures Lists(order, set d | d in SetAt(State(), DeviceSet(identity)) && d !in known)
    {
      var members := if DeviceSet(identity) in sets then sets[DeviceSet(identity)] else {};
      var remaining := members;
      order := [];
      ghost var listed := {};
      while remaining != {}
        invariant remaining <= members && listed == (set d | d in members && d !in known) - remaining
        invariant Lists(order, listed)
        decreases remaining
      {
        var device :| device in remaining;
        remaining := remaining - {device};
        if device !in known {
          ListsSnoc(order, listed, device);
          order, listed := order + [device], listed + {device};
        }
      }
    }

    /** One call of get_pre_key.lua: the signed key, if there is one, and the head of the list, which goes. */
    method GetPreKey(identity: string, device: string) returns (signed: Option<string>, oneTime: Option<string>)
      modifies this`lists
      ensures State() == Popped(old(State()), KeyList(identity, device))
      ensures oneTime == Head(ListAt(old(State()), KeyList(identity, device)))
      ensures signed == if DeviceHash(identity, device) in hashes then Some(hashes[DeviceHash(identity, device)]) else None
    {
      var key := KeyList(identity, device);
      signed := if DeviceHash(identity, device) in hashes then Some(hashes[DeviceHash(identity, device)]) else None;
      var list := if key in lists then lists[key] else [];
      oneTime := Head(list);
      if |list| <= 1 {
        lists := lists - {key};
      } else {
        lists := lists[key := list[1..]];
      }
    }

    /** The second phase: the pipeline over the devices listed. A missing hash is not survived. */
    method RunPipeline(identity: string, order: seq<string>) returns (result: Option<Result<seq<PreKey>, Error>>)
      modifies this
      ensures State() == PoppedAll(old(State()), identity, order)
      ensures result.Some? <==> Answerable(old(State()), identity, order)
      ensures result.Some? ==> result.value == AnswerIn(old(State()), identity, order)
    {
      var preKeys, missing := [], false;
      for i := 0 to |order|
        invariant hashes == old(hashes) && State() == PoppedAll(old(State()), identity, order[..i])
        invariant !missing <==> Answerable(old(State()), identity, order[..i])
        invariant !missing ==> preKeys == PipelineAnswer(old(State()), identity, order[..i])
      {
        var device := order[i];
        assert order[..i + 1] == order[..i] + [device];
        PipelineSnoc(old(State()), identity, order[..i], device);
        var signed, oneTime := GetPreKey(identity, device);
        if signed.None? {
          missing := true;
        } else if !missing {
          preKeys := preKeys + [PreKey(device, signed.value, oneTime)];
        }
      }
      assert order[..|order|] == order;
      if missing {
        return None;
      }
      PipelineLength(old(State()), identity, order);
      result := Some(if |preKeys| == 0 then Failure(UnknownIdentity) else Success(preKeys));
    }

    /** RequestPreKeys, with the operations of others between its two phases given by `meanwhile`. */
    method RequestPreKeys(identity: string, known: seq<string>, meanwhile: seq<Op>)
      returns (result: Option<Result<seq<PreKey>, Error>>, order: seq<string>)
      modifies this
      ensures Lists(order, set d | d in SetAt(old(State()), DeviceSet(identity)) && d !in known)
      ensures var r := RunInFrom(old(State()), meanwhile);
              && State() == PoppedAll(r, identity, order)
              && (result.Some? <==> Answerable(r, identity, order))
              && (result.Some? ==> result.value == AnswerIn(r, identity, order))
    {
      order := ListWanted(identity, known);
      var r := RunInFrom(State(), meanwhile);
      sets, hashes, lists := r.sets, r.hashes, r.lists;
      result := RunPipeline(identity, order);
    }

    /** AllRegisteredDevices: every device with a device hash, each once. */
    method AllRegisteredDevices() returns (result: seq<ParsedKey>)
      requires NamedKeys(State())
      ensures forall a :: a in result <==> DeviceHash(a.identity, a.device) in hashes
      ensures forall i, j :: 0 <= i < j < |result| ==> result[i] != result[j]
    {
      result := [];
      ghost var left := hashes.Keys;
      var remaining := MatchingDevice(State());
      MatchingDeviceIs(State());
      while remaining != {}
        invariant left <= hashes.Keys && remaining == Texts(left)
        invariant forall a :: a in result <==> DeviceHash(a.identity, a.device) in hashes.Keys - left
        invariant forall i, j :: 0 <= i < j < |result| ==> result[i] != result[j]
        decreases remaining
      {
        var text :| text in remaining;
        ghost var k :| k in left && KeyText(k) == text;
        DeviceKeyRoundTrip(k.identity, k.device);
        RemoveText(left, k);
        result := result + [ParseDeviceKey(text)];
        remaining, left := remaining - {text}, left - {k};
      }
      assert forall k :: k in left ==> KeyText(k) in Texts(left);
    }
  }

  lemma {:induction false} PipelineLength(r: Redis, identity: string, order: seq<string>)
    requires forall d :: d in order ==> DeviceHash(identity, d) in r.hashes
    ensures |PipelineAnswer(r, identity, order)| == |order|
  {
    if order != [] { PipelineLength(r, identity, order[..|order| - 1]); }
  }

  predicate NamedOp(op: Op) {
    match op
    case Register(i, d, _) => IsName(i) && IsName(d)
    case Unregister(i, d) => IsName(i) && IsName(d)
    case Request(_, _, _) => true
  }

  lemma {:induction false} RunsKeepNamedKeys(ops: seq<Op>)
    requires forall op :: op in ops ==> NamedOp(op)
    ensures NamedKeys(RunIn(ops))
  {
    if ops != [] {
      var before, op := ops[..|ops| - 1], ops[|ops| - 1];
      RunsKeepNamedKeys(before);
      assert op in ops;
      if op.Request? { PoppedAllKeepsNamedKeys(RunIn(before), op.identity, op.order); }
    }
  }

  lemma {:induction false} PoppedAllKeepsNamedKeys(r: Redis, identity: string, order: seq<string>)
    requires NamedKeys(r)
    ensures NamedKeys(PoppedAll(r, identity, order))
  {
    if order != [] { PoppedAllKeepsNamedKeys(r, identity, order[..|order| - 1]); }
  }

  /** Every operation, sound or not, has a hash exactly for the devices it leaves registered. */
  lemma HashesStep(r: Redis, st: Store, op: Op, i: string, d: string)
    requires DeviceHash(i, d) in r.hashes <==> IsRegistered(st, i, d)
    ensures DeviceHash(i, d) in ApplyIn(r, op).hashes <==> IsRegistered(Apply(st, op), i, d)
  {
    match op {
      case Register(identity, device, reg) => RegisteredDevice(st, identity, device, reg, i, d);
      case Unregister(identity, device) => UnregisteredDevice(st, identity, device, i, d);
      case Request(identity, known, order) =>
        PoppedAllKeepsHashes(r, identity, order);
        ServedDevice(st, identity, known, i, d);
    }
  }

  lemma RegisteredDevice(st: Store, identity: string, device: string, reg: Registration, i: string, d: string)
    ensures IsRegistered(Registered(st, identity, device, reg), i, d) <==> IsRegistered(st, i, d) || (i == identity && d == device)
  {}

  lemma ServedDevice(st: Store, identity: string, known: seq<string>, i: string, d: string)
    ensures IsRegistered(Served(st, identity, known), i, d) <==> IsRegistered(st, i, d)
  {}

  lemma {:induction false} HashesAreRegistered(ops: seq<Op>, i: string, d: string)
    ensures DeviceHash(i, d) in RunIn(ops).hashes <==> IsRegistered(Run(ops), i, d)
  {
    if ops != [] {
      HashesAreRegistered(ops[..|ops| - 1], i, d);
      HashesStep(RunIn(ops[..|ops| - 1]), Run(ops[..|ops| - 1]), ops[|ops| - 1], i, d);
    }
  }

  lemma {:induction false} PoppedAllKeepsHashes(r: Redis, identity: string, order: seq<string>)
    ensures PoppedAll(r, identity, order).hashes == r.hashes
  {
    if order != [] { PoppedAllKeepsHashes(r, identity, order[..|order| - 1]); }
  }

  /** So in every state named operations reach, listing the device hashes lists the registered devices. */
  lemma ListedAreRegistered(ops: seq<Op>)
    requires forall op :: op in ops ==> NamedOp(op)
    ensures NamedKeys(RunIn(ops))
    ensures forall i, d :: DeviceHash(i, d) in RunIn(ops).hashes <==> IsRegistered(Run(ops), i, d)
  {
    RunsKeepNamedKeys(ops);
    forall i, d ensures DeviceHash(i, d) in RunIn(ops).hashes <==> IsRegistered(Run(ops), i, d) {
      HashesAreRegistered(ops, i, d);
    }
  }
}
