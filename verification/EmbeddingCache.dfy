/** The keyed store with expiry under the embedding cache, and the service on top of it. */
module EmbeddingCache {
  import opened Common

  type Vector = seq<real>
  type Time = int

  /** The five columns of the unique index. */
  datatype Key = Key(project: string, contentHash: string, version: string, model: string, provider: string)

  datatype Entry = Entry(key: Key, dimensions: nat, vector: Vector, expiresAt: Option<Time>)

  const DAY: Time := 86_400_000_000

  predicate Active(e: Entry, now: Time) {
    e.expiresAt.None? || e.expiresAt.value > now
  }

  /** The unique index. */
  ghost predicate OnePerKey(entries: seq<Entry>) {
    forall i, j :: 0 <= i < j < |entries| ==> entries[i].key != entries[j].key
  }

  /** The row of a key, expired or not. */
  function Row(entries: seq<Entry>, key: Key): Option<nat> {
    if entries == [] then None
    else
      var n := |entries| - 1;
      if entries[n].key == key then Some(n) else Row(entries[..n], key)
  }

  lemma {:induction false} RowFound(entries: seq<Entry>, key: Key)
    ensures var r := Row(entries, key);
            && (r.Some? ==> r.value < |entries| && entries[r.value].key == key)
            && (r.None? ==> forall i :: 0 <= i < |entries| ==> entries[i].key != key)
  {
    if entries != [] {
      RowFound(entries[..|entries| - 1], key);
    }
  }

  /** What a reader sees at a time: the vector of the key's row unless it has expired. */
  function Seen(entries: seq<Entry>, key: Key, now: Time): Option<Vector> {
    RowFound(entries, key);
    var r := Row(entries, key);
    if r.Some? && Active(entries[r.value], now) then Some(entries[r.value].vector) else None
  }

  lemma {:induction false} RowOf(entries: seq<Entry>, i: nat)
    requires OnePerKey(entries) && i < |entries|
    ensures Row(entries, entries[i].key) == Some(i)
  {
    var n := |entries| - 1;
    if i < n {
      RowOf(entries[..n], i);
    }
  }

  /** Two tables with one row per key and the same rows answer every reader alike. */
  lemma SeenByRows(entries: seq<Entry>, key: Key, now: Time)
    requires OnePerKey(entries)
    ensures Seen(entries, key, now).Some? <==> exists i :: 0 <= i < |entries| && entries[i].key == key && Active(entries[i], now)
    ensures forall i :: 0 <= i < |entries| && entries[i].key == key && Active(entries[i], now) ==>
              Seen(entries, key, now) == Some(entries[i].vector)
  {
    RowFound(entries, key);
    forall i | 0 <= i < |entries| && entries[i].key == key
      ensures Row(entries, key) == Some(i)
    {
      RowOf(entries, i);
    }
  }

  /** The table after an upsert: the key's row is overwritten where it stands, or a row is added. */
  function Upserted(entries: seq<Entry>, e: Entry): seq<Entry> {
    RowFound(entries, e.key);
    var r := Row(entries, e.key);
    if r.Some? then entries[r.value := e] else entries + [e]
  }

  /** An upsert changes what is seen under its own key and nothing else, and keeps the index unique. */
  lemma UpsertSeen(entries: seq<Entry>, e: Entry, key: Key, now: Time)
    requires OnePerKey(entries)
    ensures OnePerKey(Upserted(entries, e))
    ensures Seen(Upserted(entries, e), key, now)
         == if key == e.key then (if Active(e, now) then Some(e.vector) else None) else Seen(entries, key, now)
  {
    RowFound(entries, e.key);
    var after := Upserted(entries, e);
    assert OnePerKey(after);
    SeenByRows(entries, key, now);
    SeenByRows(after, key, now);
    if key == e.key {
      var r := Row(entries, e.key);
      var at := if r.Some? then r.value else |entries|;
      assert after[at] == e;
      forall i | 0 <= i < |after| && after[i].key == key
        ensures i == at
      {
      }
    } else {
      forall i | 0 <= i < |entries| && entries[i].key == key
        ensures after[i] == entries[i]
      {
      }
      forall i | 0 <= i < |after| && after[i].key == key
        ensures i < |entries| && entries[i] == after[i]
      {
      }
    }
  }

  /** The rows that have not expired, in order. */
  function Unexpired(entries: seq<Entry>, now: Time): seq<Entry> {
    if entries == [] then []
    else
      var n := |entries| - 1;
      Unexpired(entries[..n], now) + if Active(entries[n], now) then [entries[n]] else []
  }

  lemma {:induction false} UnexpiredRows(entries: seq<Entry>, now: Time)
    ensures forall e :: e in Unexpired(entries, now) <==> e in entries && Active(e, now)
    ensures OnePerKey(entries) ==> OnePerKey(Unexpired(entries, now))
    ensures |Unexpired(entries, now)| <= |entries|
  {
    if entries != [] {
      var n := |entries| - 1;
      UnexpiredRows(entries[..n], now);
      assert entries == entries[..n] + [entries[n]];
      var kept := Unexpired(entries[..n], now);
      if OnePerKey(entries) && Active(entries[n], now) {
        forall i | 0 <= i < |kept|
          ensures kept[i].key != entries[n].key
        {
          assert kept[i] in kept;
          assert kept[i] in entries[..n];
        }
      }
    }
  }

  /** Deleting expired rows is invisible from then on. */
  lemma ExpirySweepInvisible(entries: seq<Entry>, key: Key, now: Time, later: Time)
    requires OnePerKey(entries) && now <= later
    ensures Seen(Unexpired(entries, now), key, later) == Seen(entries, key, later)
  {
    UnexpiredRows(entries, now);
    var kept := Unexpired(entries, now);
    SeenByRows(entries, key, later);
    SeenByRows(kept, key, later);
    forall i | 0 <= i < |entries| && entries[i].key == key && Active(entries[i], later)
      ensures exists j :: 0 <= j < |kept| && kept[j] == entries[i]
    {
      assert entries[i] in kept;
    }
    forall j | 0 <= j < |kept|
      ensures kept[j] in entries
    {
      assert kept[j] in kept;
    }
  }

  function Expiry(now: Time, ttlDays: int): Option<Time> {
    if ttlDays > 0 then Some(now + ttlDays * DAY) else None
  }

  class CacheTable {
    var entries: seq<Entry>

    constructor ()
      ensures entries == []
    {
      entries := [];
    }

    /** The active row of a key. */
    method FindActive(key: Key, now: Time) returns (e: Option<Entry>)
      requires OnePerKey(entries)
      ensures e.Some? <==> Seen(entries, key, now).Some?
      ensures e.Some? ==> e.value in entries && e.value.key == key && Active(e.value, now)
                          && Seen(entries, key, now) == Some(e.value.vector)
    {
      RowFound(entries, key);
      var r := Row(entries, key);
      if r.Some? && Active(entries[r.value], now) {
        return Some(entries[r.value]);
      }
      return None;
    }

    method Upsert(e: Entry)
      modifies this
      ensures entries == Upserted(old(entries), e)
    {
      RowFound(entries, e.key);
      var r := Row(entries, e.key);
      if r.Some? {
        var entry := entries[r.value];
        entry := entry.(dimensions := e.dimensions);
        entry := entry.(vector := e.vector);
        entry := entry.(expiresAt := e.expiresAt);
        entries := entries[r.value := entry];
      } else {
        entries := entries + [e];
      }
    }

    /** Delete the expired rows one by one and count them. */
    method DeleteExpired(now: Time) returns (deleted: nat)
      modifies this
      ensures entries == Unexpired(old(entries), now)
      ensures deleted == |old(entries)| - |entries|
    {
      ghost var before := entries;
      deleted := 0;
      var i := 0;
      while i < |entries|
        invariant 0 <= i <= |entries| && |entries| + deleted == |before|
        invariant entries[..i] == Unexpired(before[..i + deleted], now)
        invariant entries[i..] == before[i + deleted..]
        decreases |entries| - i
      {
        assert before[..i + deleted + 1][..i + deleted] == before[..i + deleted];
        assert entries[i] == entries[i..][0] == before[i + deleted];
        if entries[i].expiresAt.Some? && entries[i].expiresAt.value <= now {
          assert (entries[..i] + entries[i + 1..])[i..] == entries[i..][1..] == before[i + deleted..][1..];
          assert (entries[..i] + entries[i + 1..])[..i] == entries[..i];
          entries := entries[..i] + entries[i + 1..];
          deleted := deleted + 1;
        } else {
          assert entries[..i + 1] == entries[..i] + [entries[i]];
          i := i + 1;
        }
      }
      assert entries[..i] == entries && before[..i + deleted] == before;
    }

    method Get(key: Key, now: Time) returns (vector: Option<Vector>)
      requires OnePerKey(entries)
      ensures vector == Seen(entries, key, now)
    {
      var e := FindActive(key, now);
      return if e.Some? then Some(e.value.vector) else None;
    }

    method Set(key: Key, vector: Vector, dimensions: nat, ttlDays: int, now: Time)
      modifies this
      ensures entries == Upserted(old(entries), Entry(key, dimensions, vector, Expiry(now, ttlDays)))
    {
      var expiresAt := if ttlDays > 0 then Some(now + ttlDays * DAY) else None;
      Upsert(Entry(key, dimensions, vector, expiresAt));
    }

    /** Return what is cached, or generate, store for thirty days and return. */
    method GetOrGenerate(key: Key, generate: () -> Vector, now: Time, afterwards: Time) returns (vector: Vector)
      requires OnePerKey(entries)
      modifies this
      ensures OnePerKey(entries)
      ensures old(Seen(entries, key, now)).Some? ==> Some(vector) == old(Seen(entries, key, now)) && entries == old(entries)
      ensures old(Seen(entries, key, now)).None? ==>
                vector == generate()
                && entries == Upserted(old(entries), Entry(key, |vector|, vector, Some(afterwards + 30 * DAY)))
    {
      var cached := Get(key, now);
      if cached.Some? {
        return cached.value;
      }
      vector := generate();
      UpsertSeen(entries, Entry(key, |vector|, vector, Some(afterwards + 30 * DAY)), key, now);
      Set(key, vector, |vector|, 30, afterwards);
    }
  }
}
