/** The names of topics and of Redis keys, built by concatenation from encoded identities and devices. */
module Keys {
  import opened Text

  /** An encoded identity key or device ID: its alphabet has no separator and no brace. */
  predicate IsName(s: string) {
    ':' !in s && '{' !in s && '}' !in s
  }

  function TopicFor(identity: string, device: string): string {
    identity + ":" + device
  }

  const FORWARDING_TOPIC := "forwarding"
  const FORWARDING_RETRY_TOPIC := "forwardingretry"

  function StreamName(topic: string): string {
    "topic:{" + topic + "}"
  }

  function OffsetName(stream: string): string {
    "offset:" + stream
  }

  function DeviceKey(identity: string, device: string): string {
    "device:{" + identity + "}:" + device
  }

  function IdentityDevicesKey(identity: string): string {
    "identity->devices:{" + identity + "}"
  }

  function OneTimePreKeysKey(deviceKey: string): string {
    "otpk:" + deviceKey
  }

  datatype ParsedKey = ParsedKey(identity: string, device: string)

  /** How AllRegisteredDevices takes a device key apart. */
  function ParseDeviceKey(key: string): ParsedKey
    requires |Split(key, ':')| >= 3
  {
    var parts := Split(key, ':');
    ParsedKey(Trim(parts[1], {'{', '}'}), parts[2])
  }

  lemma DeviceKeyParts(identity: string, device: string)
    requires IsName(identity) && IsName(device)
    ensures Split(DeviceKey(identity, device), ':') == ["device", "{" + identity + "}", device]
  {
    var wrapped := "{" + identity + "}";
    assert DeviceKey(identity, device) == "device" + [':'] + (wrapped + [':'] + device);
    SplitAt("device", ':', wrapped + [':'] + device);
    SplitAt(wrapped, ':', device);
    SplitPlain(device, ':');
  }

  /** Splitting and trimming a device key gives back the identity and the device. */
  lemma DeviceKeyRoundTrip(identity: string, device: string)
    requires IsName(identity) && IsName(device)
    ensures |Split(DeviceKey(identity, device), ':')| == 3
    ensures ParseDeviceKey(DeviceKey(identity, device)) == ParsedKey(identity, device)
  {
    DeviceKeyParts(identity, device);
    TrimBraces(identity);
  }

  lemma TopicParts(identity: string, device: string)
    requires IsName(identity) && IsName(device)
    ensures Split(TopicFor(identity, device), ':') == [identity, device]
  {
    SplitAt(identity, ':', device);
    SplitPlain(device, ':');
    assert TopicFor(identity, device) == identity + [':'] + device;
  }

  /** No two devices share a topic. */
  lemma TopicsDistinct(i: string, d: string, j: string, e: string)
    requires IsName(i) && IsName(d) && IsName(j) && IsName(e)
    ensures TopicFor(i, d) == TopicFor(j, e) ==> i == j && d == e
  {
    TopicParts(i, d);
    TopicParts(j, e);
    assert [i, d] == [j, e] ==> [i, d][0] == [j, e][0] && [i, d][1] == [j, e][1];
  }

  /** No device's topic is one of the forwarding topics. */
  lemma DeviceTopicIsNotForwarding(identity: string, device: string)
    ensures TopicFor(identity, device) != FORWARDING_TOPIC && TopicFor(identity, device) != FORWARDING_RETRY_TOPIC
  {
    assert TopicFor(identity, device)[|identity|] == ':';
    assert ':' in TopicFor(identity, device);
    assert ':' !in FORWARDING_TOPIC;
    assert ':' !in FORWARDING_RETRY_TOPIC;
  }

  /** Device keys, their key lists and the device sets of identities never clash. */
  lemma DeviceKeysDistinct(i: string, d: string, j: string, e: string)
    requires IsName(i) && IsName(d) && IsName(j) && IsName(e)
    ensures DeviceKey(i, d) == DeviceKey(j, e) ==> i == j && d == e
    ensures OneTimePreKeysKey(DeviceKey(i, d)) == OneTimePreKeysKey(DeviceKey(j, e)) ==> i == j && d == e
  {
    DeviceKeyRoundTrip(i, d);
    DeviceKeyRoundTrip(j, e);
    var a, b := DeviceKey(i, d), DeviceKey(j, e);
    assert OneTimePreKeysKey(a)[5..] == a && OneTimePreKeysKey(b)[5..] == b;
  }

  lemma IdentityKeysDistinct(i: string, j: string)
    ensures IdentityDevicesKey(i) == IdentityDevicesKey(j) ==> i == j
  {
    var n := |"identity->devices:{"|;
    assert IdentityDevicesKey(i)[n..][..|i|] == i;
    assert IdentityDevicesKey(j)[n..][..|j|] == j;
  }

  /** Streams and offset keys of different topics are different. */
  lemma StreamsDistinct(s: string, t: string)
    ensures StreamName(s) == StreamName(t) ==> s == t
    ensures OffsetName(StreamName(s)) == OffsetName(StreamName(t)) ==> s == t
  {
    assert StreamName(s)[7..][..|s|] == s;
    assert StreamName(t)[7..][..|t|] == t;
    assert OffsetName(StreamName(s))[7..] == StreamName(s);
    assert OffsetName(StreamName(t))[7..] == StreamName(t);
  }

  /** The keys of the pre-key store. */
  datatype Key = DeviceHash(identity: string, device: string) | DeviceSet(identity: string) | KeyList(identity: string, device: string)

  function KeyText(k: Key): string {
    match k
    case DeviceHash(identity, device) => DeviceKey(identity, device)
    case DeviceSet(identity) => IdentityDevicesKey(identity)
    case KeyList(identity, device) => OneTimePreKeysKey(DeviceKey(identity, device))
  }

  predicate NamedKey(k: Key) {
    IsName(k.identity) && (!k.DeviceSet? ==> IsName(k.device))
  }

  /** Keys of different devices, identities or kinds never clash as text, and "device:*" matches the device hashes only. */
  lemma KeyTextInjective(a: Key, b: Key)
    requires NamedKey(a) && NamedKey(b)
    ensures KeyText(a) == KeyText(b) ==> a == b
    ensures "device:" <= KeyText(a) <==> a.DeviceHash?
  {
    assert KeyText(a)[0] == match a case DeviceHash(_, _) => 'd' case DeviceSet(_) => 'i' case KeyList(_, _) => 'o';
    assert KeyText(b)[0] == match b case DeviceHash(_, _) => 'd' case DeviceSet(_) => 'i' case KeyList(_, _) => 'o';
    if a.DeviceSet? && b.DeviceSet? {
      IdentityKeysDistinct(a.identity, b.identity);
    } else if !a.DeviceSet? && !b.DeviceSet? {
      DeviceKeysDistinct(a.identity, a.device, b.identity, b.device);
    }
  }
}
