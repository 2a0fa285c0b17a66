/** The stream trimmer: drop what has been acked, then cap the length. */
module Trimmer {
  import opened Wrappers
  import opened Offsets
  import opened StreamReader
  import opened Acks

  predicate Sorted(log: seq<Entry>) {
    forall i, j :: 0 <= i < j < |log| ==> Before(log[i].id, log[j].id)
  }

  /** XTRIM MINID: evict from the front while the first ID is below the bound. */
  function TrimMinId(log: seq<Entry>, min: Offset): seq<Entry> {
    if log != [] && Before(log[0].id, min) then TrimMinId(log[1..], min) else log
  }

  /** XTRIM MAXLEN: keep the newest entries. */
  function TrimMaxLen(log: seq<Entry>, maxLen: nat): seq<Entry> {
    if |log| > maxLen then log[|log| - maxLen..] else log
  }

  function TrimToOffset(log: seq<Entry>, stored: Option<Offset>): seq<Entry> {
    match stored
    case None => log
    case Some(o) => TrimMinId(log, Successor(o))
  }

  function TrimStream(log: seq<Entry>, stored: Option<Offset>, maxLen: nat): seq<Entry> {
    TrimMaxLen(TrimToOffset(log, stored), maxLen)
  }

  /** The first pass keeps a suffix, and of a sorted stream precisely the entries above the offset. */
  lemma {:induction false} MinIdExact(log: seq<Entry>, o: Offset)
    requires Sorted(log)
    ensures var kept := TrimMinId(log, Successor(o));
            && |kept| <= |log| && kept == log[|log| - |kept|..]
            && (forall i :: 0 <= i < |log| ==> (Before(o, log[i].id) <==> i >= |log| - |kept|))
            && (forall e :: e in kept <==> e in log && Before(o, e.id))
  {
    var kept := TrimMinId(log, Successor(o));
    if log != [] && Before(log[0].id, Successor(o)) {
      MinIdExact(log[1..], o);
      assert log[1..][|log| - 1 - |kept|..] == log[|log| - |kept|..];
      forall i | 0 <= i < |log| ensures Before(o, log[i].id) <==> i >= |log| - |kept| {
        if i > 0 { assert log[i] == log[1..][i - 1]; }
      }
      forall e ensures e in kept <==> e in log && Before(o, e.id) {
        assert log == [log[0]] + log[1..];
      }
    } else {
      assert log[0..] == log;
    }
  }

  predicate Admissible(log: seq<Entry>, stored: Option<Offset>, maxLen: nat) {
    |log| <= maxLen && (stored.Some? ==> forall e :: e in log ==> Before(stored.value, e.id))
  }

  /** After both passes: the longest suffix above the offset that fits the cap. */
  lemma TrimIsLongestSuffix(log: seq<Entry>, stored: Option<Offset>, maxLen: nat)
    requires Sorted(log)
    ensures var kept := TrimStream(log, stored, maxLen);
            && |kept| <= |log| && kept == log[|log| - |kept|..]
            && Admissible(kept, stored, maxLen)
            && (forall k :: 0 <= k < |log| - |kept| ==> !Admissible(log[k..], stored, maxLen))
  {
    var kept := TrimStream(log, stored, maxLen);
    var first := TrimToOffset(log, stored);
    if stored.Some? { MinIdExact(log, stored.value); }
    assert first == log[|log| - |first|..];
    assert kept == first[|first| - |kept|..];
    forall k | 0 <= k < |log| - |kept| ensures !Admissible(log[k..], stored, maxLen) {
      if k < |log| - |first| {
        assert log[k] in log[k..];
      }
    }
  }

  /** The Redis keys holding streams. */
  class StreamKeys {
    var streams: map<string, seq<Entry>>

    constructor ()
      ensures streams == map[]
    {
      streams := map[];
    }

    /** TrimStreams over every key matching "topic:*". */
    method TrimStreams(offsets: OffsetKeys, maxLen: nat)
      modifies this
      ensures streams.Keys == old(streams).Keys
      ensures forall s :: s in streams ==>
                streams[s] == if "topic:" <= s then TrimStream(old(streams)[s], offsets.Get(s), maxLen) else old(streams)[s]
    {
      var topics := set s | s in streams && "topic:" <= s;
      var remaining := topics;
      while remaining != {}
        invariant remaining <= topics && streams.Keys == old(streams).Keys
        invariant forall s :: s in streams ==>
                    streams[s] == if s in topics && s !in remaining
                                  then TrimToOffset(old(streams)[s], old(offsets.Get(s))) else old(streams)[s]
        invariant offsets.keys == old(offsets.keys)
        decreases remaining
      {
        var s :| s in remaining;
        remaining := remaining - {s};
        streams := streams[s := TrimToOffset(streams[s], offsets.Get(s))];
      }
      remaining := topics;
      while remaining != {}
        invariant remaining <= topics && streams.Keys == old(streams).Keys
        invariant forall s :: s in streams && s in topics ==>
                    var first := TrimToOffset(old(streams)[s], old(offsets.Get(s)));
                    streams[s] == if s in remaining then first else TrimMaxLen(first, maxLen)
        invariant forall s :: s in streams && s !in topics ==> streams[s] == old(streams)[s]
        invariant offsets.keys == old(offsets.keys)
        decreases remaining
      {
        var s :| s in remaining;
        remaining := remaining - {s};
        streams := streams[s := TrimMaxLen(streams[s], maxLen)];
      }
    }
  }
}
