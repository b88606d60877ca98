/** The in-memory diagnostic buffer of apps/api/src/observability.ts. */
module DiagnosticSink {
  import opened Numbers
  import opened Sequences

  const MAX_ENTRIES := 10_000
  const RETENTION_MS := 14 * 24 * 60 * 60 * 1000

  datatype Entry<E> = Entry(event: E, expiresAt: int, timer: nat)

  /** Entries are in the order of their expiry. */
  ghost predicate Ordered<E>(entries: seq<Entry<E>>) {
    forall i, j :: 0 <= i < j < |entries| ==> entries[i].expiresAt <= entries[j].expiresAt
  }

  function Timers<E>(entries: seq<Entry<E>>): set<nat> {
    set i | 0 <= i < |entries| :: entries[i].timer
  }

  /** Armed timers and entries correspond one to one, and no timer is due before its entry expires. */
  ghost predicate Linked<E>(entries: seq<Entry<E>>, armed: map<nat, int>, nextTimer: nat) {
    && (forall i, j :: 0 <= i < j < |entries| ==> entries[i].timer != entries[j].timer)
    && armed.Keys == Timers(entries)
    && (forall i :: 0 <= i < |entries| ==>
          entries[i].timer < nextTimer && armed[entries[i].timer] >= entries[i].expiresAt)
  }

  /**
   The entries are the newest of the accepted ones, and nothing was lost early: what is gone had expired
   at a purge, or has 10,000 successors among the total.
   */
  ghost predicate Suffix<E>(entries: seq<Entry<E>>, accepted: seq<Entry<E>>, horizon: int, total: int) {
    && |entries| <= |accepted|
    && (forall i :: 0 <= i < |entries| ==> entries[i] == accepted[|accepted| - |entries| + i])
    && forall k :: 0 <= k < |accepted| - |entries| ==> accepted[k].expiresAt <= horizon || k + MAX_ENTRIES < total
  }

  lemma TimersSplit<E>(entries: seq<Entry<E>>, r: nat)
    requires r <= |entries|
    ensures Timers(entries) == Timers(entries[..r]) + Timers(entries[r..])
  {
    var gone, kept := entries[..r], entries[r..];
    forall t | t in Timers(entries) ensures t in Timers(gone) + Timers(kept) {
      var i :| 0 <= i < |entries| && entries[i].timer == t;
      if i < r {
        assert gone[i].timer == t;
      } else {
        assert kept[i - r].timer == t;
      }
    }
    forall t | t in Timers(kept) ensures t in Timers(entries) {
      var i :| 0 <= i < |kept| && kept[i].timer == t;
      assert entries[r + i].timer == t;
    }
  }

  lemma TimersApart<E>(entries: seq<Entry<E>>, r: nat)
    requires r <= |entries| && forall i, j :: 0 <= i < j < |entries| ==> entries[i].timer != entries[j].timer
    ensures Timers(entries[..r]) !! Timers(entries[r..])
  {
    var gone, kept := entries[..r], entries[r..];
    forall i, j | 0 <= i < |gone| && 0 <= j < |kept| ensures gone[i].timer != kept[j].timer {
      assert gone[i] == entries[i] && kept[j] == entries[r + j];
    }
  }

  lemma LinkedDrop<E>(entries: seq<Entry<E>>, armed: map<nat, int>, nextTimer: nat, r: nat)
    requires Linked(entries, armed, nextTimer) && r <= |entries|
    ensures Linked(entries[r..], armed - Timers(entries[..r]), nextTimer)
  {
    TimersSplit(entries, r);
    TimersApart(entries, r);
    var kept, left := entries[r..], armed - Timers(entries[..r]);
    assert left.Keys == Timers(kept);
    forall i | 0 <= i < |kept| ensures kept[i].timer < nextTimer && left[kept[i].timer] >= kept[i].expiresAt {
      assert kept[i] == entries[r + i] && kept[i].timer in Timers(kept);
    }
  }

  lemma LinkedAppend<E>(entries: seq<Entry<E>>, armed: map<nat, int>, nextTimer: nat, e: Entry<E>, due: int)
    requires Linked(entries, armed, nextTimer) && e.timer == nextTimer && due >= e.expiresAt
    ensures Linked(entries + [e], armed[nextTimer := due], nextTimer + 1)
  {
    var longer := entries + [e];
    assert Timers(longer) == Timers(entries) + {nextTimer} by {
      assert longer[|entries|].timer == nextTimer;
      forall t | t in Timers(entries) ensures t in Timers(longer) {
        var i :| 0 <= i < |entries| && entries[i].timer == t;
        assert longer[i].timer == t;
      }
    }
  }

  lemma SuffixAppend<E>(entries: seq<Entry<E>>, accepted: seq<Entry<E>>, horizon: int, e: Entry<E>)
    requires Suffix(entries, accepted, horizon, |accepted| + 1)
    ensures Suffix(entries + [e], accepted + [e], horizon, |accepted| + 1)
  {
  }

  /** One more accepted entry only widens what may be gone. */
  lemma SuffixLater<E>(entries: seq<Entry<E>>, accepted: seq<Entry<E>>, horizon: int, total: int)
    requires Suffix(entries, accepted, horizon, total)
    ensures Suffix(entries, accepted, horizon, total + 1)
  {
  }

  ghost predicate ExpireBy<E>(entries: seq<Entry<E>>, at: int) {
    forall i :: 0 <= i < |entries| ==> entries[i].expiresAt <= at
  }

  lemma OrderedAppend<E>(accepted: seq<Entry<E>>, e: Entry<E>)
    requires Ordered(accepted) && ExpireBy(accepted, e.expiresAt)
    ensures Ordered(accepted + [e])
  {
  }

  lemma ExpireByAppend<E>(accepted: seq<Entry<E>>, e: Entry<E>, at: int)
    requires ExpireBy(accepted, e.expiresAt) && e.expiresAt <= at
    ensures ExpireBy(accepted + [e], at)
  {
  }

  lemma SuffixDrop<E>(
    entries: seq<Entry<E>>, accepted: seq<Entry<E>>, horizon: int, total: int, r: nat, horizon': int, total': int)
    requires Suffix(entries, accepted, horizon, total) && r <= |entries| && horizon <= horizon' && total <= total'
    requires forall i :: 0 <= i < r ==>
      entries[i].expiresAt <= horizon' || |accepted| - |entries| + i + MAX_ENTRIES < total'
    ensures Suffix(entries[r..], accepted, horizon', total')
  {
    var gone := |accepted| - |entries|;
    forall k | 0 <= k < gone + r ensures accepted[k].expiresAt <= horizon' || k + MAX_ENTRIES < total' {
      if k >= gone {
        assert accepted[k] == entries[k - gone];
      }
    }
  }

  /** A full buffer without its oldest entry. */
  function Newest<E>(entries: seq<Entry<E>>): seq<Entry<E>> {
    if |entries| == MAX_ENTRIES then entries[1..] else entries
  }

  /** The expired entries leave, then the oldest one if the buffer is full, and the new one comes last. */
  ghost predicate Emitted<E(!new)>(before: seq<Entry<E>>, after: seq<Entry<E>>, at: int) {
    after != [] && exists kept :: Purged(before, kept, at) && after[..|after| - 1] == Newest(kept)
  }

  lemma EmittedOne<E(!new)>(before: seq<Entry<E>>, kept: seq<Entry<E>>, entry: Entry<E>, at: int)
    requires Purged(before, kept, at)
    ensures Emitted(before, Newest(kept) + [entry], at)
  {
    var after := Newest(kept) + [entry];
    assert after[..|after| - 1] == Newest(kept);
  }

  lemma {:induction false} EvictOldest<E>(
    entries: seq<Entry<E>>, armed: map<nat, int>, nextTimer: nat, accepted: seq<Entry<E>>, horizon: int)
    requires |entries| == MAX_ENTRIES && Linked(entries, armed, nextTimer)
      && Suffix(entries, accepted, horizon, |accepted|)
    ensures Linked(entries[1..], armed - {entries[0].timer}, nextTimer)
    ensures Suffix(entries[1..], accepted, horizon, |accepted| + 1)
  {
    var oldest := entries[..1];
    assert Timers(oldest) == {entries[0].timer} by { assert oldest[0].timer in Timers(oldest); }
    LinkedDrop(entries, armed, nextTimer, 1);
    SuffixDrop(entries, accepted, horizon, |accepted|, 1, horizon, |accepted| + 1);
  }

  /** Exactly the entries that had expired at the given time are gone, and they were the oldest. */
  ghost predicate Purged<E>(before: seq<Entry<E>>, after: seq<Entry<E>>, at: int) {
    && |after| <= |before|
    && (forall i :: 0 <= i < |after| ==> after[i] == before[|before| - |after| + i])
    && forall i :: 0 <= i < |before| ==> (before[i].expiresAt <= at <==> i < |before| - |after|)
  }

  /** How many entries have expired: with entries in order of expiry these come first. */
  method Expired<E>(entries: seq<Entry<E>>, at: int) returns (count: nat, retained: seq<Entry<E>>)
    requires Ordered(entries)
    ensures count <= |entries| && retained == entries[count..]
    ensures forall i :: 0 <= i < |entries| ==> (entries[i].expiresAt <= at <==> i < count)
  {
    retained, count := [], 0;
    for i := 0 to |entries|
      invariant count <= i && retained == entries[count..i]
      invariant forall k :: 0 <= k < i ==> (entries[k].expiresAt <= at <==> k < count)
      invariant count < i ==> entries[i - 1].expiresAt > at
    {
      if entries[i].expiresAt > at {
        retained := retained + [entries[i]];
      } else {
        count := i + 1;
      }
    }
  }

  class Sink<E(!new)> {
    var entries: seq<Entry<E>>
    /** The host's timers that are set and have neither fired nor been cleared, with their due times. */
    var armed: map<nat, int>
    var nextTimer: nat
    /** Every entry ever accepted, the clock of the last call, and the latest time anything was purged to. */
    ghost var accepted: seq<Entry<E>>
    ghost var clock: int
    ghost var horizon: int

    ghost predicate Valid()
      reads this
    {
      && |entries| <= MAX_ENTRIES
      && Ordered(accepted) && ExpireBy(accepted, clock + RETENTION_MS)
      && Suffix(entries, accepted, horizon, |accepted|)
      && Linked(entries, armed, nextTimer)
    }

    constructor ()
      ensures Valid() && entries == [] && accepted == []
    {
      entries, armed, nextTimer := [], map[], 0;
      accepted, clock, horizon := [], 0, 0;
    }

    /** Drops the entries that have expired at the given time, clearing the timers that are still set. */
    method Purge(at: int) returns (removed: nat)
      requires Valid()
      modifies this`entries, this`armed, this`horizon
      ensures Valid() && Purged(old(entries), entries, at) && removed == |old(entries)| - |entries|
      ensures armed == old(armed) - Timers(old(entries)[..removed])
      ensures horizon == Max(old(horizon), at)
    {
      var retained;
      removed, retained := Expired(entries, at);
      LinkedDrop(entries, armed, nextTimer, removed);
      SuffixDrop(entries, accepted, horizon, |accepted|, removed, Max(horizon, at), |accepted|);
      armed := armed - Timers(entries[..removed]);
      entries := retained;
      horizon := Max(horizon, at);
    }

    /**
     `emit` of an event that the sanitizer let through (None: it did not). The clock is read for the
     purge, for the expiry and when the timer is set. A full buffer gives up its oldest entry.
     */
    method Emit(sanitized: Option<E>, purgeTime: int, entryTime: int, timerTime: int)
      requires Valid() && clock <= purgeTime <= entryTime <= timerTime
      modifies this
      ensures Valid()
      ensures sanitized.None? ==> entries == old(entries) && accepted == old(accepted) && armed == old(armed)
      ensures sanitized.Some? ==>
        && entries != [] && accepted == old(accepted) + [Last(entries)]
        && Emitted(old(entries), entries, purgeTime)
        && Last(entries).event == sanitized.value && Last(entries).expiresAt == entryTime + RETENTION_MS
        && clock == timerTime && horizon == Max(old(horizon), purgeTime)
    {
      if sanitized.None? {
        return;
      }
      var removed := Purge(purgeTime);
      ghost var kept := entries;
      MakeRoom();
      Append(Entry(sanitized.value, entryTime + RETENTION_MS, nextTimer), timerTime);
      EmittedOne(old(entries), kept, Last(entries), purgeTime);
    }

    method MakeRoom()
      requires |entries| <= MAX_ENTRIES && Linked(entries, armed, nextTimer)
        && Suffix(entries, accepted, horizon, |accepted|)
      modifies this`entries, this`armed
      ensures |entries| < MAX_ENTRIES && Linked(entries, armed, nextTimer)
      ensures Suffix(entries, accepted, horizon, |accepted| + 1)
      ensures entries == Newest(old(entries))
    {
      SuffixLater(entries, accepted, horizon, |accepted|);
      if |entries| >= MAX_ENTRIES {
        EvictOldest(entries, armed, nextTimer, accepted, horizon);
        var evicted := entries[0];
        entries := entries[1..];
        armed := armed - {evicted.timer};
      }
    }

    method Append(entry: Entry<E>, timerTime: int)
      requires |entries| < MAX_ENTRIES && Linked(entries, armed, nextTimer)
        && Suffix(entries, accepted, horizon, |accepted| + 1)
      requires Ordered(accepted) && ExpireBy(accepted, entry.expiresAt)
      requires entry.timer == nextTimer && entry.expiresAt <= timerTime + RETENTION_MS
      modifies this`entries, this`armed, this`nextTimer, this`accepted, this`clock
      ensures Valid() && entries == old(entries) + [entry] && accepted == old(accepted) + [entry] && clock == timerTime
    {
      LinkedAppend(entries, armed, nextTimer, entry, timerTime + RETENTION_MS);
      SuffixAppend(entries, accepted, horizon, entry);
      OrderedAppend(accepted, entry);
      ExpireByAppend(accepted, entry, timerTime + RETENTION_MS);
      armed, nextTimer := armed[nextTimer := timerTime + RETENTION_MS], nextTimer + 1;
      entries, accepted, clock := entries + [entry], accepted + [entry], timerTime;
    }

    /** The host runs a timer that is due: it is no longer set, and its callback purges its entry with it. */
    method Fire(timer: nat, at: int) returns (removed: nat)
      requires Valid() && timer in armed && at >= armed[timer] && at >= clock
      modifies this
      ensures Valid() && timer !in armed && clock == at && accepted == old(accepted)
      ensures horizon == Max(old(horizon), at) && nextTimer == old(nextTimer)
      ensures Purged(old(entries), entries, at) && removed == |old(entries)| - |entries| > 0
    {
      ghost var i :| 0 <= i < |entries| && entries[i].timer == timer;
      removed := Purge(at);
      assert old(entries)[..removed][i].timer == timer;
      clock := at;
    }

    /** `records`: the events that have not expired at the given time, oldest first. */
    method Records(at: int) returns (events: seq<E>)
      requires Valid()
      modifies this`entries, this`armed, this`horizon
      ensures Valid() && Purged(old(entries), entries, at) && horizon == Max(old(horizon), at)
      ensures |events| == |entries| && forall i :: 0 <= i < |events| ==> events[i] == entries[i].event
    {
      var removed := Purge(at);
      var retained := entries;
      events := seq(|retained|, i requires 0 <= i < |retained| => retained[i].event);
    }
  }
}
