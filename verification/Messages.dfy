/** The messages servers exchange, the failure bookkeeping of forwarded messages, and the sequence builder. */
module Messages {
  import opened Wrappers

  type Host = string

  datatype Address = Address(identityKey: string, deviceId: string)

  datatype Outbound = Outbound(to: Address, body: Bytes)

  /** A message on its way to another server, with the times (in Unix milliseconds, 0 for never) it failed. */
  datatype Forwarded = Forwarded(message: Outbound, firstFailed: nat, lastFailed: nat)

  /** Message bytes: what a client sealed, or a marshalled record. Marshalling and unmarshalling are inverse. */
  datatype Bytes = Sealed(text: string) | Marshalled(record: Forwarded)

  function Unmarshal(data: Bytes): Option<Forwarded> {
    if data.Marshalled? then Some(data.record) else None
  }

  function NewRecord(message: Outbound): Forwarded {
    Forwarded(message, 0, 0)
  }

  const NANOS_PER_MILLI := 1_000_000

  function UnixMillis(nanos: nat): nat {
    nanos / NANOS_PER_MILLI
  }

  /** DurationSince: nanoseconds from a time in milliseconds to now. */
  function DurationSince(millis: nat, now: nat): int {
    now - millis * NANOS_PER_MILLI
  }

  function MarkFailed(record: Forwarded, now: nat): Forwarded {
    var millis := UnixMillis(now);
    Forwarded(record.message, if record.firstFailed == 0 then millis else record.firstFailed, millis)
  }

  function HasBeenFailingFor(record: Forwarded, now: nat): int {
    if record.firstFailed == 0 then 0 else DurationSince(record.firstFailed, now)
  }

  function DurationSinceLastFailure(record: Forwarded, now: nat): int {
    if record.lastFailed == 0 then 0 else DurationSince(record.lastFailed, now)
  }

  /** failMessage: the record to retry with, or none when it has been failing for too long. */
  function AfterFailure(record: Forwarded, marked: nat, checked: nat, timeout: nat): Option<Forwarded> {
    var failed := MarkFailed(record, marked);
    if HasBeenFailingFor(failed, checked) > timeout then None else Some(failed)
  }

  /** The number of distinct sequence values. */
  const SEQUENCES := 0x1_0000_0000

  /** The sequence of the n-th message built: an atomic 32-bit increment from zero. */
  function SequenceOf(n: nat): nat {
    n % SEQUENCES
  }

  lemma SequenceBelowWrap(n: nat)
    requires n < SEQUENCES
    ensures SequenceOf(n) == n
  {}
}
