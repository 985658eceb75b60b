/** Embedding a list of texts through the cache: look every text up, send the misses to the provider in
    batches that may finish in any order, and put the answers back in place. */
module EmbedWithCache {
  import opened Common
  import opened EmbeddingCache

  datatype Meta = Meta(contentHash: string, version: string)

  datatype Reply = Vectors(vectors: seq<Vector>) | Failed

  /** A provider answers each request, identified by its number, with vectors or a failure. */
  datatype Provider = Provider(name: string, model: string, embed: (nat, seq<string>) -> Reply)

  datatype Outcome = Done(vectors: seq<Vector>) | ProviderError | ValueError | KeyError

  datatype Batch = Batch(texts: seq<string>, indices: seq<nat>)

  function KeyOf(project: string, m: Meta, p: Provider): Key {
    Key(project, m.contentHash, m.version, p.model, p.name)
  }

  function MapTexts(texts: seq<string>, truth: string -> Vector): seq<Vector> {
    seq(|texts|, i requires 0 <= i < |texts| => truth(texts[i]))
  }

  // ---- what the caller may assume -------------------------------------------

  /** Whenever the provider answers, it answers each text with that text's own embedding. */
  ghost predicate Pointwise(p: Provider, truth: string -> Vector) {
    forall n: nat, texts: seq<string> :: p.embed(n, texts).Vectors? ==> p.embed(n, texts).vectors == MapTexts(texts, truth)
  }

  ghost predicate NeverFails(p: Provider) {
    forall n: nat, texts: seq<string> :: p.embed(n, texts).Vectors?
  }

  /** A content hash determines the embedding. */
  ghost predicate HashDetermines(hash: string -> string, truth: string -> Vector) {
    forall s, t :: hash(s) == hash(t) ==> truth(s) == truth(t)
  }

  /** Each text is labelled with its own hash. */
  ghost predicate Hashed(texts: seq<string>, metas: seq<Meta>, hash: string -> string) {
    |texts| == |metas| && forall i :: 0 <= i < |texts| ==> metas[i].contentHash == hash(texts[i])
  }

  /** Every row the provider's model has stored holds the embedding of the texts with its hash. */
  ghost predicate Coherent(entries: seq<Entry>, p: Provider, hash: string -> string, truth: string -> Vector) {
    forall i, t | 0 <= i < |entries| && entries[i].key.provider == p.name && entries[i].key.model == p.model
                  && hash(t) == entries[i].key.contentHash :: entries[i].vector == truth(t)
  }

  lemma UpsertKeepsCoherent(entries: seq<Entry>, e: Entry, p: Provider, hash: string -> string, truth: string -> Vector, text: string)
    requires Coherent(entries, p, hash, truth) && HashDetermines(hash, truth)
    requires e.key.contentHash == hash(text) && e.vector == truth(text)
    ensures Coherent(Upserted(entries, e), p, hash, truth)
  {
    RowFound(entries, e.key);
  }

  lemma SeenIsTrue(entries: seq<Entry>, key: Key, now: Time, p: Provider, hash: string -> string, truth: string -> Vector, text: string)
    requires Coherent(entries, p, hash, truth) && Seen(entries, key, now).Some?
    requires key.provider == p.name && key.model == p.model && key.contentHash == hash(text)
    ensures Seen(entries, key, now) == Some(truth(text))
  {
    RowFound(entries, key);
  }

  // ---- batches --------------------------------------------------------------

  /** The misses cut into batches, from a position on. */
  function Batches(misses: seq<string>, indices: seq<nat>, size: nat, i: nat): seq<Batch>
    requires size >= 1 && |misses| == |indices|
    decreases |misses| - i
  {
    if i >= |misses| then []
    else
      var end := Min(i + size, |misses|);
      [Batch(misses[i..end], indices[i..end])] + Batches(misses, indices, size, i + size)
  }

  function IndexLists(batches: seq<Batch>): seq<seq<nat>> {
    seq(|batches|, i requires 0 <= i < |batches| => batches[i].indices)
  }

  /** A batch pairs each text with its index. */
  ghost predicate Paired(b: Batch, texts: seq<string>) {
    |b.texts| == |b.indices| && forall k :: 0 <= k < |b.indices| ==> b.indices[k] < |texts| && b.texts[k] == texts[b.indices[k]]
  }

  function FirstBatch(misses: seq<string>, indices: seq<nat>, size: nat, i: nat): Batch
    requires i < |misses| == |indices|
  {
    var end := Min(i + size, |misses|);
    Batch(misses[i..end], indices[i..end])
  }

  lemma FirstBatchPaired(misses: seq<string>, indices: seq<nat>, size: nat, i: nat, texts: seq<string>)
    requires size >= 1 && i < |misses| == |indices| && Paired(Batch(misses, indices), texts)
    ensures var b := FirstBatch(misses, indices, size, i); Paired(b, texts) && 0 < |b.texts| <= size
  {
    var b := FirstBatch(misses, indices, size, i);
    forall k | 0 <= k < |b.indices|
      ensures b.indices[k] < |texts| && b.texts[k] == texts[b.indices[k]]
    {
      assert b.indices[k] == indices[i + k] && b.texts[k] == misses[i + k];
    }
  }

  lemma IndexListsCons(first: Batch, rest: seq<Batch>)
    ensures Concat(IndexLists([first] + rest)) == first.indices + Concat(IndexLists(rest))
  {
    assert IndexLists([first] + rest) == [first.indices] + IndexLists(rest);
    ConcatAppend([first.indices], IndexLists(rest));
    assert [first.indices][..0] == [];
    assert Concat([first.indices]) == Concat([]) + first.indices == first.indices;
  }

  /** The batches hold every miss once, in order, and none exceeds the batch size. */
  lemma {:induction false} BatchesCover(misses: seq<string>, indices: seq<nat>, size: nat, i: nat, texts: seq<string>)
    requires size >= 1 && |misses| == |indices|
    requires Paired(Batch(misses, indices), texts)
    ensures var batches := Batches(misses, indices, size, i);
            && Concat(IndexLists(batches)) == indices[Min(i, |indices|)..]
            && (forall b :: 0 <= b < |batches| ==> Paired(batches[b], texts) && 0 < |batches[b].texts| <= size)
    decreases |misses| - i
  {
    hide Paired;
    if i < |misses| {
      var first := FirstBatch(misses, indices, size, i);
      FirstBatchPaired(misses, indices, size, i, texts);
      BatchesCover(misses, indices, size, i + size, texts);
      IndexListsCons(first, Batches(misses, indices, size, i + size));
      hide Concat, IndexLists;
      var end := Min(i + size, |misses|);
      assert indices[i..] == indices[i..end] + indices[end..];
    } else {
      NoBatches();
    }
  }

  lemma NoBatches()
    ensures Concat(IndexLists([])) == []
  {
  }

  /** A completion order: every batch finishes exactly once. */
  ghost predicate Completion(order: seq<nat>, n: nat) {
    && |order| == n
    && (forall k :: 0 <= k < n ==> order[k] < n)
    && (forall b: nat :: b < n ==> b in order)
  }

  /** Run all batches, each answered whenever its turn in the completion order comes; the answers are listed
      by batch all the same. */
  method Gather(p: Provider, batches: seq<Batch>, order: seq<nat>) returns (replies: seq<Reply>)
    requires Completion(order, |batches|)
    ensures |replies| == |batches|
    ensures forall b :: 0 <= b < |batches| ==> replies[b] == p.embed(b, batches[b].texts)
  {
    var slots: seq<Option<Reply>> := seq(|batches|, i => None);
    for k := 0 to |order|
      invariant |slots| == |batches|
      invariant forall b :: 0 <= b < |slots| && slots[b].Some? ==> slots[b].value == p.embed(b, batches[b].texts)
      invariant forall j :: 0 <= j < k ==> slots[order[j]].Some?
    {
      var b := order[k];
      slots := slots[b := Some(p.embed(b, batches[b].texts))];
    }
    forall b | 0 <= b < |slots|
      ensures slots[b].Some?
    {
      assert b in order;
    }
    replies := seq(|slots|, i requires 0 <= i < |slots| && slots[i].Some? => slots[i].value);
  }

  // ---- the call -------------------------------------------------------------

  /** What a call is about: the texts, their labels, and the meaning of hashes and embeddings. */
  datatype Scene = Scene(texts: seq<string>, metas: seq<Meta>, hash: string -> string, truth: string -> Vector)

  ghost predicate Labelled(s: Scene) {
    HashDetermines(s.hash, s.truth) && Hashed(s.texts, s.metas, s.hash)
  }

  /** The results collected so far are true. */
  ghost predicate Truthful(results: map<nat, Vector>, s: Scene) {
    forall i :: i in results ==> i < |s.texts| && results[i] == s.truth(s.texts[i])
  }

  /** Every listed text would be found in the cache at that time. */
  ghost predicate AllSeen(entries: seq<Entry>, project: string, metas: seq<Meta>, p: Provider, now: Time, indices: set<nat>) {
    forall i :: i in indices && i < |metas| ==> Seen(entries, KeyOf(project, metas[i], p), now).Some?
  }

  function Upto(n: nat): (r: set<nat>)
    ensures forall i: nat :: i in r <==> i < n
  {
    if n == 0 then {} else Upto(n - 1) + {n - 1}
  }

  function Elements(s: seq<nat>): set<nat> {
    set i | i in s
  }

  lemma HitStaysSeen(entries: seq<Entry>, project: string, metas: seq<Meta>, p: Provider, now: Time, known: set<nat>, i: nat)
    requires AllSeen(entries, project, metas, p, now, known) && i < |metas|
    requires Seen(entries, KeyOf(project, metas[i], p), now).Some?
    ensures AllSeen(entries, project, metas, p, now, known + {i})
  {
  }

  lemma MissPaired(misses: seq<string>, indices: seq<nat>, texts: seq<string>, i: nat)
    requires Paired(Batch(misses, indices), texts) && i < |texts|
    ensures Paired(Batch(misses + [texts[i]], indices + [i]), texts)
  {
  }

  lemma NothingPaired(entries: seq<Entry>, project: string, metas: seq<Meta>, p: Provider, texts: seq<string>)
    ensures Paired(Batch([], []), texts) && Elements([]) == {}
    ensures forall now :: AllSeen(entries, project, metas, p, now, {})
  {
  }

  lemma ElementsSnoc(s: seq<nat>, i: nat)
    ensures Elements(s + [i]) == Elements(s) + {i}
  {
  }

  lemma StoreKeepsSeen(entries: seq<Entry>, e: Entry, project: string, metas: seq<Meta>, p: Provider, now: Time,
                       known: set<nat>, i: nat)
    requires OnePerKey(entries) && i < |metas| && e.key == KeyOf(project, metas[i], p)
    requires Active(e, now) && AllSeen(entries, project, metas, p, now, known)
    ensures AllSeen(Upserted(entries, e), project, metas, p, now, known + {i})
  {
    forall j | j in known + {i} && j < |metas|
      ensures Seen(Upserted(entries, e), KeyOf(project, metas[j], p), now).Some?
    {
      UpsertSeen(entries, e, KeyOf(project, metas[j], p), now);
    }
  }

  // ---- what is looked up, placed and raised ---------------------------------

  /** The positions among the first n whose lookup finds nothing. */
  function MissesTo(entries: seq<Entry>, project: string, metas: seq<Meta>, p: Provider, clock: nat -> Time, n: nat): seq<nat>
    requires n <= |metas|
  {
    if n == 0 then []
    else
      MissesTo(entries, project, metas, p, clock, n - 1)
      + if Seen(entries, KeyOf(project, metas[n - 1], p), clock(n - 1)).Some? then [] else [n - 1]
  }

  /** Each such position once, in order, and no other. */
  lemma {:induction false} MissesExact(entries: seq<Entry>, project: string, metas: seq<Meta>, p: Provider, clock: nat -> Time, n: nat)
    requires n <= |metas|
    ensures var misses := MissesTo(entries, project, metas, p, clock, n);
            && (forall i: nat :: i in misses <==> i < n && Seen(entries, KeyOf(project, metas[i], p), clock(i)).None?)
            && (forall j, k :: 0 <= j < k < |misses| ==> misses[j] < misses[k])
  {
    hide Seen;
    if n > 0 {
      MissesExact(entries, project, metas, p, clock, n - 1);
      var before := MissesTo(entries, project, metas, p, clock, n - 1);
      assert forall k :: 0 <= k < |before| ==> before[k] in before;
    }
  }

  function TextsAt(texts: seq<string>, indices: seq<nat>): seq<string> {
    seq(|indices|, k requires 0 <= k < |indices| => if indices[k] < |texts| then texts[indices[k]] else "")
  }

  /** The first k vectors at their indices. */
  function Placed(results: map<nat, Vector>, indices: seq<nat>, vectors: seq<Vector>, k: nat): map<nat, Vector>
    requires k <= |indices| && k <= |vectors|
  {
    if k == 0 then results else Placed(results, indices, vectors, k - 1)[indices[k - 1] := vectors[k - 1]]
  }

  function RowFor(project: string, metas: seq<Meta>, p: Provider, clock: nat -> Time, i: nat, vector: Vector): Entry
    requires i < |metas|
  {
    Entry(KeyOf(project, metas[i], p), |vector|, vector, Expiry(clock(|metas| + i), 30))
  }

  /** The table after the first k vectors have been stored. */
  function Stored(entries: seq<Entry>, project: string, metas: seq<Meta>, p: Provider, clock: nat -> Time,
                  indices: seq<nat>, vectors: seq<Vector>, k: nat): seq<Entry>
    requires k <= |indices| && k <= |vectors| && forall j :: 0 <= j < |indices| ==> indices[j] < |metas|
  {
    if k == 0 then entries
    else
      Upserted(Stored(entries, project, metas, p, clock, indices, vectors, k - 1),
               RowFor(project, metas, p, clock, indices[k - 1], vectors[k - 1]))
  }

  function VectorsOf(r: Reply): seq<Vector> {
    if r.Vectors? then r.vectors else []
  }

  /** What a reply to so many texts raises. */
  function ReplyError(r: Reply, expected: nat): Option<Outcome> {
    if r.Failed? then Some(ProviderError) else if |r.vectors| != expected then Some(ValueError) else None
  }

  /** What the replies raise from batch b on: the first error in batch order. */
  function RepliesError(batches: seq<Batch>, replies: seq<Reply>, b: nat): Option<Outcome>
    requires b <= |batches| == |replies|
    decreases |batches| - b
  {
    if b == |batches| then None
    else
      var e := ReplyError(replies[b], |batches[b].indices|);
      if e.Some? then e else RepliesError(batches, replies, b + 1)
  }

  /** How many batches are put in place from batch b on: all, or those up to the first that raises, which is put
      in place as far as its vectors reach. */
  function Reached(batches: seq<Batch>, replies: seq<Reply>, b: nat): (n: nat)
    requires b <= |batches| == |replies|
    ensures b <= n <= |batches|
    decreases |batches| - b
  {
    if b == |batches| then b
    else if ReplyError(replies[b], |batches[b].indices|).Some? then b + 1
    else Reached(batches, replies, b + 1)
  }

  function Shorter(b: Batch, r: Reply): (k: nat)
    ensures k <= |b.indices| && k <= |VectorsOf(r)|
  {
    Min(|b.indices|, |VectorsOf(r)|)
  }

  /** The results after the first n batches. */
  function PlacedTo(results: map<nat, Vector>, batches: seq<Batch>, replies: seq<Reply>, n: nat): map<nat, Vector>
    requires n <= |batches| == |replies|
  {
    if n == 0 then results
    else
      Placed(PlacedTo(results, batches, replies, n - 1), batches[n - 1].indices, VectorsOf(replies[n - 1]),
             Shorter(batches[n - 1], replies[n - 1]))
  }

  ghost predicate InRange(batches: seq<Batch>, metas: seq<Meta>) {
    forall b, k :: 0 <= b < |batches| && 0 <= k < |batches[b].indices| ==> batches[b].indices[k] < |metas|
  }

  /** The table after the first n batches. */
  function StoredTo(entries: seq<Entry>, project: string, metas: seq<Meta>, p: Provider, clock: nat -> Time,
                    batches: seq<Batch>, replies: seq<Reply>, n: nat): seq<Entry>
    requires n <= |batches| == |replies| && InRange(batches, metas)
  {
    if n == 0 then entries
    else
      Stored(StoredTo(entries, project, metas, p, clock, batches, replies, n - 1), project, metas, p, clock,
             batches[n - 1].indices, VectorsOf(replies[n - 1]), Shorter(batches[n - 1], replies[n - 1]))
  }

  // ---- what placing and storing keep ----------------------------------------

  lemma {:induction false} PlacedKeys(results: map<nat, Vector>, indices: seq<nat>, vectors: seq<Vector>, k: nat)
    requires k <= |indices| && k <= |vectors|
    ensures Placed(results, indices, vectors, k).Keys == results.Keys + Elements(indices[..k])
  {
    if k > 0 {
      PlacedKeys(results, indices, vectors, k - 1);
      assert indices[..k] == indices[..k - 1] + [indices[k - 1]];
      ElementsSnoc(indices[..k - 1], indices[k - 1]);
    } else {
      assert indices[..0] == [];
    }
  }

  lemma {:induction false} StoredUnique(entries: seq<Entry>, project: string, metas: seq<Meta>, p: Provider, clock: nat -> Time,
                                        indices: seq<nat>, vectors: seq<Vector>, k: nat)
    requires k <= |indices| && k <= |vectors| && forall j :: 0 <= j < |indices| ==> indices[j] < |metas|
    requires OnePerKey(entries)
    ensures OnePerKey(Stored(entries, project, metas, p, clock, indices, vectors, k))
  {
    hide OnePerKey, Upserted, RowFor;
    if k > 0 {
      StoredUnique(entries, project, metas, p, clock, indices, vectors, k - 1);
      var row := RowFor(project, metas, p, clock, indices[k - 1], vectors[k - 1]);
      UpsertSeen(Stored(entries, project, metas, p, clock, indices, vectors, k - 1), row, row.key, 0);
    }
  }

  /** True vectors keep the results true and the table coherent. */
  lemma {:induction false} StoredTrue(entries: seq<Entry>, results: map<nat, Vector>, project: string, p: Provider, clock: nat -> Time,
                                      s: Scene, b: Batch, vectors: seq<Vector>, k: nat)
    requires Labelled(s) && Paired(b, s.texts) && |s.metas| == |s.texts| && k <= |b.indices| && k <= |vectors|
    requires Coherent(entries, p, s.hash, s.truth) && Truthful(results, s)
    requires k > 0 ==> vectors == MapTexts(b.texts, s.truth)
    ensures Coherent(Stored(entries, project, s.metas, p, clock, b.indices, vectors, k), p, s.hash, s.truth)
    ensures Truthful(Placed(results, b.indices, vectors, k), s)
  {
    hide Coherent, Upserted;
    if k > 0 {
      StoredTrue(entries, results, project, p, clock, s, b, vectors, k - 1);
      var i := b.indices[k - 1];
      assert vectors[k - 1] == s.truth(s.texts[i]);
      UpsertKeepsCoherent(Stored(entries, project, s.metas, p, clock, b.indices, vectors, k - 1),
                          RowFor(project, s.metas, p, clock, i, vectors[k - 1]), p, s.hash, s.truth, s.texts[i]);
    }
  }

  /** What was found stays to be found, and what is stored is found too, while the clock stands still. */
  lemma {:induction false} StoredSeen(entries: seq<Entry>, results: map<nat, Vector>, project: string, metas: seq<Meta>, p: Provider,
                                      clock: nat -> Time, indices: seq<nat>, vectors: seq<Vector>, k: nat, now: Time)
    requires k <= |indices| && k <= |vectors| && forall j :: 0 <= j < |indices| ==> indices[j] < |metas|
    requires OnePerKey(entries) && (forall n :: clock(n) == now) && AllSeen(entries, project, metas, p, now, results.Keys)
    ensures AllSeen(Stored(entries, project, metas, p, clock, indices, vectors, k), project, metas, p, now,
                    Placed(results, indices, vectors, k).Keys)
  {
    hide OnePerKey, Upserted, AllSeen;
    if k > 0 {
      StoredSeen(entries, results, project, metas, p, clock, indices, vectors, k - 1, now);
      StoredUnique(entries, project, metas, p, clock, indices, vectors, k - 1);
      var i := indices[k - 1];
      var known := Placed(results, indices, vectors, k - 1).Keys;
      StoreKeepsSeen(Stored(entries, project, metas, p, clock, indices, vectors, k - 1),
                     RowFor(project, metas, p, clock, i, vectors[k - 1]), project, metas, p, now, known, i);
      assert Placed(results, indices, vectors, k).Keys == known + {i};
    }
  }

  /** None of these is the key of a text with such a label. */
  ghost predicate Foreign(key: Key, project: string, metas: seq<Meta>, p: Provider) {
    forall i :: 0 <= i < |metas| ==> key != Key(project, metas[i].contentHash, metas[i].version, p.model, p.name)
  }

  /** Readers of two tables under a key see the same at every time. */
  ghost predicate SameSeen(entries: seq<Entry>, entries': seq<Entry>, key: Key) {
    forall now :: Seen(entries', key, now) == Seen(entries, key, now)
  }

  lemma {:induction false} StoredElsewhere(entries: seq<Entry>, project: string, metas: seq<Meta>, p: Provider, clock: nat -> Time,
                                           indices: seq<nat>, vectors: seq<Vector>, k: nat, key: Key)
    requires k <= |indices| && k <= |vectors| && forall j :: 0 <= j < |indices| ==> indices[j] < |metas|
    requires OnePerKey(entries) && Foreign(key, project, metas, p)
    ensures SameSeen(entries, Stored(entries, project, metas, p, clock, indices, vectors, k), key)
  {
    hide OnePerKey, Upserted, Seen;
    if k > 0 {
      StoredElsewhere(entries, project, metas, p, clock, indices, vectors, k - 1, key);
      StoredUnique(entries, project, metas, p, clock, indices, vectors, k - 1);
      var before := Stored(entries, project, metas, p, clock, indices, vectors, k - 1);
      var row := RowFor(project, metas, p, clock, indices[k - 1], vectors[k - 1]);
      forall now
        ensures Seen(Upserted(before, row), key, now) == Seen(before, key, now)
      {
        UpsertSeen(before, row, key, now);
      }
    }
  }

  lemma {:induction false} StoredToElsewhere(entries: seq<Entry>, project: string, metas: seq<Meta>, p: Provider, clock: nat -> Time,
                                             batches: seq<Batch>, replies: seq<Reply>, n: nat, key: Key)
    requires n <= |batches| == |replies| && InRange(batches, metas) && OnePerKey(entries) && Foreign(key, project, metas, p)
    ensures SameSeen(entries, StoredTo(entries, project, metas, p, clock, batches, replies, n), key)
  {
    hide OnePerKey, Stored, Seen, Foreign;
    if n > 0 {
      StoredToElsewhere(entries, project, metas, p, clock, batches, replies, n - 1, key);
      StoredToUnique(entries, project, metas, p, clock, batches, replies, n - 1);
      StoredElsewhere(StoredTo(entries, project, metas, p, clock, batches, replies, n - 1), project, metas, p, clock,
                      batches[n - 1].indices, VectorsOf(replies[n - 1]), Shorter(batches[n - 1], replies[n - 1]), key);
    }
  }

  /** A stored answer is read under its text's own key for thirty days, and not after. */
  lemma StoredForThirtyDays(entries: seq<Entry>, project: string, metas: seq<Meta>, p: Provider, clock: nat -> Time,
                            i: nat, vector: Vector, now: Time)
    requires OnePerKey(entries) && i < |metas|
    ensures var key := Key(project, metas[i].contentHash, metas[i].version, p.model, p.name);
            Seen(Upserted(entries, RowFor(project, metas, p, clock, i, vector)), key, now)
            == if now < clock(|metas| + i) + 30 * DAY then Some(vector) else None
  {
    hide Upserted, Seen;
    var row := RowFor(project, metas, p, clock, i, vector);
    UpsertSeen(entries, row, row.key, now);
  }

  lemma {:induction false} PlacedToKeys(results: map<nat, Vector>, batches: seq<Batch>, replies: seq<Reply>, n: nat)
    requires n <= |batches| == |replies|
    requires forall b :: 0 <= b < n ==> ReplyError(replies[b], |batches[b].indices|).None?
    ensures PlacedTo(results, batches, replies, n).Keys == results.Keys + Elements(Concat(IndexLists(batches)[..n]))
  {
    hide Placed;
    var lists := IndexLists(batches);
    if n == 0 {
      assert lists[..0] == [];
    } else {
      PlacedToKeys(results, batches, replies, n - 1);
      PlacedKeys(PlacedTo(results, batches, replies, n - 1), batches[n - 1].indices, VectorsOf(replies[n - 1]),
                 Shorter(batches[n - 1], replies[n - 1]));
      assert lists[..n][..n - 1] == lists[..n - 1];
      var indices := batches[n - 1].indices;
      assert indices[..|indices|] == indices;
    }
  }

  lemma {:induction false} StoredToUnique(entries: seq<Entry>, project: string, metas: seq<Meta>, p: Provider, clock: nat -> Time,
                                          batches: seq<Batch>, replies: seq<Reply>, n: nat)
    requires n <= |batches| == |replies| && InRange(batches, metas) && OnePerKey(entries)
    ensures OnePerKey(StoredTo(entries, project, metas, p, clock, batches, replies, n))
  {
    hide OnePerKey, Stored;
    if n > 0 {
      StoredToUnique(entries, project, metas, p, clock, batches, replies, n - 1);
      StoredUnique(StoredTo(entries, project, metas, p, clock, batches, replies, n - 1), project, metas, p, clock,
                   batches[n - 1].indices, VectorsOf(replies[n - 1]), Shorter(batches[n - 1], replies[n - 1]));
    }
  }

  lemma {:induction false} StoredToTrue(entries: seq<Entry>, results: map<nat, Vector>, project: string, p: Provider, clock: nat -> Time,
                                        s: Scene, batches: seq<Batch>, replies: seq<Reply>, n: nat)
    requires n <= |batches| == |replies| && InRange(batches, s.metas) && |s.metas| == |s.texts|
    requires forall b :: 0 <= b < |batches| ==> Paired(batches[b], s.texts)
    requires forall b :: 0 <= b < |batches| && replies[b].Vectors? ==> replies[b].vectors == MapTexts(batches[b].texts, s.truth)
    requires Labelled(s) && Coherent(entries, p, s.hash, s.truth) && Truthful(results, s)
    ensures Coherent(StoredTo(entries, project, s.metas, p, clock, batches, replies, n), p, s.hash, s.truth)
    ensures Truthful(PlacedTo(results, batches, replies, n), s)
  {
    hide Coherent, Truthful, Labelled, Stored, Placed, Paired, MapTexts;
    if n > 0 {
      StoredToTrue(entries, results, project, p, clock, s, batches, replies, n - 1);
      StoredTrue(StoredTo(entries, project, s.metas, p, clock, batches, replies, n - 1), PlacedTo(results, batches, replies, n - 1),
                 project, p, clock, s, batches[n - 1], VectorsOf(replies[n - 1]), Shorter(batches[n - 1], replies[n - 1]));
    }
  }

  lemma {:induction false} StoredToSeen(entries: seq<Entry>, results: map<nat, Vector>, project: string, metas: seq<Meta>, p: Provider,
                                        clock: nat -> Time, batches: seq<Batch>, replies: seq<Reply>, n: nat, now: Time)
    requires n <= |batches| == |replies| && InRange(batches, metas) && OnePerKey(entries)
    requires (forall n :: clock(n) == now) && AllSeen(entries, project, metas, p, now, results.Keys)
    ensures AllSeen(StoredTo(entries, project, metas, p, clock, batches, replies, n), project, metas, p, now,
                    PlacedTo(results, batches, replies, n).Keys)
  {
    hide OnePerKey, AllSeen, Stored, Placed;
    if n > 0 {
      StoredToSeen(entries, results, project, metas, p, clock, batches, replies, n - 1, now);
      StoredToUnique(entries, project, metas, p, clock, batches, replies, n - 1);
      StoredSeen(StoredTo(entries, project, metas, p, clock, batches, replies, n - 1), PlacedTo(results, batches, replies, n - 1),
                 project, metas, p, clock, batches[n - 1].indices, VectorsOf(replies[n - 1]),
                 Shorter(batches[n - 1], replies[n - 1]), now);
    }
  }

  lemma {:induction false} NoRepliesError(batches: seq<Batch>, replies: seq<Reply>, b: nat)
    requires b <= |batches| == |replies|
    ensures RepliesError(batches, replies, b).None? <==> forall j :: b <= j < |batches| ==> ReplyError(replies[j], |batches[j].indices|).None?
    ensures RepliesError(batches, replies, b).None? ==> Reached(batches, replies, b) == |batches|
    ensures RepliesError(batches, replies, b).Some? ==> !RepliesError(batches, replies, b).value.Done?
    decreases |batches| - b
  {
    if b < |batches| {
      NoRepliesError(batches, replies, b + 1);
    }
  }

  lemma NothingPlaced(results: map<nat, Vector>, entries: seq<Entry>, project: string, metas: seq<Meta>, p: Provider,
                      clock: nat -> Time, indices: seq<nat>)
    requires forall j :: 0 <= j < |indices| ==> indices[j] < |metas|
    ensures Placed(results, indices, [], 0) == results
    ensures Stored(entries, project, metas, p, clock, indices, [], 0) == entries
  {
  }

  lemma PairedInRange(batches: seq<Batch>, texts: seq<string>, metas: seq<Meta>)
    requires |metas| == |texts| && forall b :: 0 <= b < |batches| ==> Paired(batches[b], texts)
    ensures InRange(batches, metas)
  {
  }

  /** All that one stored batch keeps. */
  lemma AfterBatch(entries: seq<Entry>, results: map<nat, Vector>, project: string, p: Provider, clock: nat -> Time,
                   s: Scene, b: Batch, vectors: seq<Vector>)
    requires OnePerKey(entries) && |s.metas| == |s.texts| && Paired(b, s.texts)
    ensures var k := Min(|b.indices|, |vectors|);
            var after := Stored(entries, project, s.metas, p, clock, b.indices, vectors, k);
            var stored := Placed(results, b.indices, vectors, k);
            && OnePerKey(after)
            && (forall key :: Foreign(key, project, s.metas, p) ==> SameSeen(entries, after, key))
            && (|vectors| == |b.indices| ==> stored.Keys == results.Keys + Elements(b.indices))
            && (Labelled(s) && Coherent(entries, p, s.hash, s.truth) && Truthful(results, s) && vectors == MapTexts(b.texts, s.truth) ==>
                  Coherent(after, p, s.hash, s.truth) && Truthful(stored, s))
            && (forall now: Time :: (forall n :: clock(n) == now) && AllSeen(entries, project, s.metas, p, now, results.Keys) ==>
                  AllSeen(after, project, s.metas, p, now, stored.Keys))
  {
    hide OnePerKey, Labelled, Coherent, Truthful, MapTexts, AllSeen, Placed, Stored, Foreign, SameSeen;
    var k := Min(|b.indices|, |vectors|);
    StoredUnique(entries, project, s.metas, p, clock, b.indices, vectors, k);
    forall key | Foreign(key, project, s.metas, p)
      ensures SameSeen(entries, Stored(entries, project, s.metas, p, clock, b.indices, vectors, k), key)
    {
      StoredElsewhere(entries, project, s.metas, p, clock, b.indices, vectors, k, key);
    }
    PlacedKeys(results, b.indices, vectors, k);
    assert b.indices[..|b.indices|] == b.indices;
    if Labelled(s) && Coherent(entries, p, s.hash, s.truth) && Truthful(results, s) && vectors == MapTexts(b.texts, s.truth) {
      StoredTrue(entries, results, project, p, clock, s, b, vectors, k);
    }
    forall now: Time | (forall n :: clock(n) == now) && AllSeen(entries, project, s.metas, p, now, results.Keys)
      ensures AllSeen(Stored(entries, project, s.metas, p, clock, b.indices, vectors, k), project, s.metas, p, now,
                      Placed(results, b.indices, vectors, k).Keys)
    {
      StoredSeen(entries, results, project, s.metas, p, clock, b.indices, vectors, k, now);
    }
  }

  /** All that the stored replies keep. */
  lemma AfterReplies(entries: seq<Entry>, results: map<nat, Vector>, project: string, p: Provider, clock: nat -> Time,
                     s: Scene, batches: seq<Batch>, replies: seq<Reply>)
    requires OnePerKey(entries) && |s.metas| == |s.texts| && |batches| == |replies|
    requires InRange(batches, s.metas) && forall b :: 0 <= b < |batches| ==> Paired(batches[b], s.texts)
    ensures var n := Reached(batches, replies, 0);
            var after := StoredTo(entries, project, s.metas, p, clock, batches, replies, n);
            var stored := PlacedTo(results, batches, replies, n);
            && OnePerKey(after)
            && (forall key :: Foreign(key, project, s.metas, p) ==> SameSeen(entries, after, key))
            && (RepliesError(batches, replies, 0).None? ==> stored.Keys == results.Keys + Elements(Concat(IndexLists(batches))))
            && (Labelled(s) && Coherent(entries, p, s.hash, s.truth) && Truthful(results, s)
                && (forall b :: 0 <= b < |batches| && replies[b].Vectors? ==> replies[b].vectors == MapTexts(batches[b].texts, s.truth)) ==>
                  Coherent(after, p, s.hash, s.truth) && Truthful(stored, s))
            && (forall now: Time :: (forall n :: clock(n) == now) && AllSeen(entries, project, s.metas, p, now, results.Keys) ==>
                  AllSeen(after, project, s.metas, p, now, stored.Keys))
  {
    hide OnePerKey, Labelled, Coherent, Truthful, MapTexts, AllSeen, PlacedTo, StoredTo, Paired, Foreign, SameSeen;
    var n := Reached(batches, replies, 0);
    StoredToUnique(entries, project, s.metas, p, clock, batches, replies, n);
    forall key | Foreign(key, project, s.metas, p)
      ensures SameSeen(entries, StoredTo(entries, project, s.metas, p, clock, batches, replies, n), key)
    {
      StoredToElsewhere(entries, project, s.metas, p, clock, batches, replies, n, key);
    }
    NoRepliesError(batches, replies, 0);
    if RepliesError(batches, replies, 0).None? {
      PlacedToKeys(results, batches, replies, n);
      var lists := IndexLists(batches);
      assert lists[..|batches|] == lists;
    }
    if Labelled(s) && Coherent(entries, p, s.hash, s.truth) && Truthful(results, s)
       && forall b :: 0 <= b < |batches| && replies[b].Vectors? ==> replies[b].vectors == MapTexts(batches[b].texts, s.truth) {
      StoredToTrue(entries, results, project, p, clock, s, batches, replies, n);
    }
    forall now: Time | (forall n :: clock(n) == now) && AllSeen(entries, project, s.metas, p, now, results.Keys)
      ensures AllSeen(StoredTo(entries, project, s.metas, p, clock, batches, replies, n), project, s.metas, p, now,
                      PlacedTo(results, batches, replies, n).Keys)
    {
      StoredToSeen(entries, results, project, s.metas, p, clock, batches, replies, n, now);
    }
  }

  /** What sending the misses raises. */
  function FillError(p: Provider, misses: seq<string>, indices: seq<nat>, batchSize: int): Option<Outcome>
    requires |misses| == |indices|
  {
    if misses == [] then None
    else if |misses| <= batchSize then ReplyError(p.embed(0, misses), |indices|)
    else if batchSize == 0 then Some(ValueError)
    else if batchSize < 0 then None
    else
      var batches := Batches(misses, indices, batchSize, 0);
      RepliesError(batches, seq(|batches|, b requires 0 <= b < |batches| => p.embed(b, batches[b].texts)), 0)
  }

  /** With no positive batch size only a call without misses gets past the misses; a provider that always answers
      one vector for each text never makes it fail. */
  lemma FillErrors(p: Provider, truth: string -> Vector, misses: seq<string>, indices: seq<nat>, batchSize: int)
    requires |misses| == |indices|
    ensures misses != [] && batchSize == 0 ==> FillError(p, misses, indices, batchSize).Some?
    ensures batchSize < 0 || misses == [] ==> FillError(p, misses, indices, batchSize).None?
    ensures Pointwise(p, truth) && NeverFails(p) && batchSize >= 1 ==> FillError(p, misses, indices, batchSize).None?
    ensures FillError(p, misses, indices, batchSize).Some? ==> !FillError(p, misses, indices, batchSize).value.Done?
  {
    if misses != [] && |misses| > batchSize >= 1 {
      var batches := Batches(misses, indices, batchSize, 0);
      var replies := seq(|batches|, b requires 0 <= b < |batches| => p.embed(b, batches[b].texts));
      NoRepliesError(batches, replies, 0);
      BatchesMatch(misses, indices, batchSize, 0);
      if Pointwise(p, truth) && NeverFails(p) {
        forall b | 0 <= b < |batches|
          ensures ReplyError(replies[b], |batches[b].indices|).None?
        {
          assert p.embed(b, batches[b].texts).Vectors?;
        }
      }
    }
  }

  lemma {:induction false} BatchesMatch(misses: seq<string>, indices: seq<nat>, size: nat, i: nat)
    requires size >= 1 && |misses| == |indices|
    ensures forall b :: 0 <= b < |Batches(misses, indices, size, i)| ==>
              |Batches(misses, indices, size, i)[b].texts| == |Batches(misses, indices, size, i)[b].indices|
    decreases |misses| - i
  {
    if i < |misses| {
      BatchesMatch(misses, indices, size, i + size);
    }
  }

  /** What the whole call raises, if anything, given the positions that miss. */
  function EmbedError(p: Provider, texts: seq<string>, metas: seq<Meta>, useCache: bool, batchSize: int, misses: seq<nat>): Option<Outcome> {
    if !useCache || texts == [] then if p.embed(0, texts).Failed? then Some(ProviderError) else None
    else if |texts| != |metas| then Some(ValueError)
    else
      var e := FillError(p, TextsAt(texts, misses), misses, batchSize);
      if e.Some? then e else if misses != [] && batchSize < 0 then Some(KeyError) else None
  }

  lemma MissesApart(entries: seq<Entry>, project: string, metas: seq<Meta>, p: Provider, clock: nat -> Time, results: map<nat, Vector>)
    requires forall i :: i in results ==> i < |metas| && Seen(entries, KeyOf(project, metas[i], p), clock(i)).Some?
    ensures results.Keys !! Elements(MissesTo(entries, project, metas, p, clock, |metas|))
  {
    hide Seen;
    MissesExact(entries, project, metas, p, clock, |metas|);
  }

  lemma PairedTexts(misses: seq<string>, indices: seq<nat>, texts: seq<string>)
    requires Paired(Batch(misses, indices), texts)
    ensures misses == TextsAt(texts, indices)
  {
  }

  class Embedder {
    const provider: Provider
    const project: string
    const cache: CacheTable
    const clock: nat -> Time

    constructor (provider: Provider, project: string, cache: CacheTable, clock: nat -> Time)
      ensures this.provider == provider && this.project == project && this.cache == cache && this.clock == clock
    {
      this.provider, this.project, this.cache, this.clock := provider, project, cache, clock;
    }

    ghost predicate Faithful(s: Scene)
      reads cache
    {
      Coherent(cache.entries, provider, s.hash, s.truth)
    }

    /** If the clock stands still, every listed text would be found again. */
    ghost predicate Refindable(metas: seq<Meta>, indices: set<nat>)
      reads cache
    {
      forall now: Time :: (forall n :: clock(n) == now) ==> AllSeen(cache.entries, project, metas, provider, now, indices)
    }

    /** Look every text up; a miss is remembered with its position. */
    method LookUp(texts: seq<string>, metas: seq<Meta>, ghost s: Scene)
      returns (results: map<nat, Vector>, misses: seq<string>, missIndices: seq<nat>)
      requires OnePerKey(cache.entries) && |texts| == |metas| && s.texts == texts && s.metas == metas
      ensures Paired(Batch(misses, missIndices), texts)
      ensures results.Keys + Elements(missIndices) == Upto(|texts|) && results.Keys !! Elements(missIndices)
      ensures missIndices == MissesTo(cache.entries, project, metas, provider, clock, |texts|)
      ensures forall i :: i in results ==> i < |metas| && Seen(cache.entries, KeyOf(project, metas[i], provider), clock(i)) == Some(results[i])
      ensures Labelled(s) && Faithful(s) ==> Truthful(results, s)
      ensures Refindable(metas, results.Keys)
    {
      hide AllSeen, Paired, OnePerKey, Elements, Seen;
      results, misses, missIndices := map[], [], [];
      assert results.Keys == {};
      NothingPaired(cache.entries, project, metas, provider, texts);
      for i := 0 to |texts|
        invariant Paired(Batch(misses, missIndices), texts)
        invariant results.Keys + Elements(missIndices) == Upto(i)
        invariant missIndices == MissesTo(cache.entries, project, metas, provider, clock, i)
        invariant forall j :: j in results ==>
                    j < i && Seen(cache.entries, KeyOf(project, metas[j], provider), clock(j)) == Some(results[j])
        invariant Labelled(s) && Faithful(s) ==> Truthful(results, s)
        invariant Refindable(metas, results.Keys)
      {
        var key := KeyOf(project, metas[i], provider);
        var cached := cache.Get(key, clock(i));
        if cached.Some? {
          if Labelled(s) && Faithful(s) {
            SeenIsTrue(cache.entries, key, clock(i), provider, s.hash, s.truth, texts[i]);
          }
          ghost var known := results.Keys;
          results := results[i := cached.value];
          assert results.Keys == known + {i};
          forall now: Time | (forall n :: clock(n) == now) && AllSeen(cache.entries, project, metas, provider, now, known)
            ensures AllSeen(cache.entries, project, metas, provider, now, known + {i})
          {
            assert clock(i) == now;
            HitStaysSeen(cache.entries, project, metas, provider, now, known, i);
          }
        } else {
          ElementsSnoc(missIndices, i);
          MissPaired(misses, missIndices, texts, i);
          misses := misses + [texts[i]];
          missIndices := missIndices + [i];
        }
      }
      MissesApart(cache.entries, project, metas, provider, clock, results);
    }

    /** Store one answer. */
    method StoreOne(metas: seq<Meta>, i: nat, vector: Vector, results: map<nat, Vector>) returns (stored: map<nat, Vector>)
      requires i < |metas|
      modifies cache
      ensures stored == results[i := vector]
      ensures cache.entries == Upserted(old(cache.entries), RowFor(project, metas, provider, clock, i, vector))
    {
      stored := results[i := vector];
      cache.Set(KeyOf(project, metas[i], provider), vector, |vector|, 30, clock(|metas| + i));
    }

    /** Put one batch of answers in place and store them, each at its index.  A batch answered with the wrong
        number of vectors stops at the shorter list. */
    method StoreBatch(metas: seq<Meta>, b: Batch, vectors: seq<Vector>, results: map<nat, Vector>)
      returns (stored: map<nat, Vector>, matched: bool)
      requires forall k :: 0 <= k < |b.indices| ==> b.indices[k] < |metas|
      modifies cache
      ensures matched <==> |vectors| == |b.indices|
      ensures stored == Placed(results, b.indices, vectors, Min(|b.indices|, |vectors|))
      ensures cache.entries == Stored(old(cache.entries), project, metas, provider, clock, b.indices, vectors,
                                      Min(|b.indices|, |vectors|))
    {
      hide Upserted, RowFor;
      stored := results;
      var k := 0;
      while k < |b.indices| && k < |vectors|
        invariant 0 <= k <= |b.indices| && k <= |vectors|
        invariant stored == Placed(results, b.indices, vectors, k)
        invariant cache.entries == Stored(old(cache.entries), project, metas, provider, clock, b.indices, vectors, k)
      {
        stored := StoreOne(metas, b.indices[k], vectors[k], stored);
        k := k + 1;
      }
      matched := |vectors| == |b.indices|;
    }

    /** Put all batches of answers in place, in batch order; the first failure is raised, and the batches before
        it are in place. */
    method StoreReplies(metas: seq<Meta>, batches: seq<Batch>, replies: seq<Reply>, results: map<nat, Vector>)
      returns (stored: map<nat, Vector>, error: Option<Outcome>)
      requires |replies| == |batches| && InRange(batches, metas)
      modifies cache
      ensures error == RepliesError(batches, replies, 0)
      ensures stored == PlacedTo(results, batches, replies, Reached(batches, replies, 0))
      ensures cache.entries == StoredTo(old(cache.entries), project, metas, provider, clock, batches, replies,
                                        Reached(batches, replies, 0))
    {
      hide Stored, Placed;
      stored, error := results, None;
      for b := 0 to |batches|
        invariant RepliesError(batches, replies, b) == RepliesError(batches, replies, 0)
        invariant Reached(batches, replies, b) == Reached(batches, replies, 0)
        invariant stored == PlacedTo(results, batches, replies, b)
        invariant cache.entries == StoredTo(old(cache.entries), project, metas, provider, clock, batches, replies, b)
      {
        if replies[b].Failed? {
          NothingPlaced(stored, cache.entries, project, metas, provider, clock, batches[b].indices);
          return stored, Some(ProviderError);
        }
        var matched;
        stored, matched := StoreBatch(metas, batches[b], replies[b].vectors, stored);
        if !matched {
          return stored, Some(ValueError);
        }
      }
    }

    /** Send the misses to the provider, in one request or in batches, and store the answers. */
    method Fill(metas: seq<Meta>, misses: seq<string>, missIndices: seq<nat>, batchSize: int, schedule: nat -> seq<nat>,
                results: map<nat, Vector>, ghost s: Scene)
      returns (stored: map<nat, Vector>, error: Option<Outcome>)
      requires OnePerKey(cache.entries) && s.metas == metas && |s.texts| == |metas|
      requires Paired(Batch(misses, missIndices), s.texts)
      requires forall n: nat :: Completion(schedule(n), n)
      modifies cache
      ensures OnePerKey(cache.entries)
      ensures forall key :: Foreign(key, project, metas, provider) ==> SameSeen(old(cache.entries), cache.entries, key)
      ensures error == FillError(provider, misses, missIndices, batchSize)
      ensures error.None? && (misses == [] || batchSize >= 1) ==> stored.Keys == results.Keys + Elements(missIndices)
      ensures error.None? && batchSize < 0 ==> stored == results
      ensures Pointwise(provider, s.truth) && Labelled(s) && old(Faithful(s)) && Truthful(results, s) ==>
                Faithful(s) && Truthful(stored, s)
      ensures old(Refindable(metas, results.Keys)) ==> Refindable(metas, stored.Keys)
    {
      hide Labelled, Truthful, Coherent, OnePerKey, AllSeen, Completion, Concat, IndexLists;
      stored, error := results, None;
      if misses == [] {
        assert missIndices == [];
        return;
      }
      ghost var before := cache.entries;
      if |misses| <= batchSize {
        var reply := provider.embed(0, misses);
        if reply.Failed? {
          return stored, Some(ProviderError);
        }
        var matched;
        stored, matched := StoreBatch(metas, Batch(misses, missIndices), reply.vectors, results);
        AfterBatch(before, results, project, provider, clock, s, Batch(misses, missIndices), reply.vectors);
        return stored, if matched then None else Some(ValueError);
      }
      if batchSize == 0 {
        return stored, Some(ValueError);
      }
      var batches := if batchSize > 0 then Batches(misses, missIndices, batchSize, 0) else [];
      if batchSize > 0 {
        BatchesCover(misses, missIndices, batchSize, 0, s.texts);
        assert missIndices[0..] == missIndices;
      }
      var replies := Gather(provider, batches, schedule(|batches|));
      assert replies == seq(|batches|, b requires 0 <= b < |batches| => provider.embed(b, batches[b].texts));
      PairedInRange(batches, s.texts, metas);
      stored, error := StoreReplies(metas, batches, replies, results);
      AfterReplies(before, results, project, provider, clock, s, batches, replies);
    }

    /** The call for texts that are to be looked up. */
    method Through(texts: seq<string>, metas: seq<Meta>, batchSize: int, schedule: nat -> seq<nat>, ghost s: Scene)
      returns (results: map<nat, Vector>, error: Option<Outcome>)
      requires OnePerKey(cache.entries) && s.texts == texts && s.metas == metas && |texts| == |metas|
      requires forall n: nat :: Completion(schedule(n), n)
      modifies cache
      ensures OnePerKey(cache.entries)
      ensures forall key :: Foreign(key, project, metas, provider) ==> SameSeen(old(cache.entries), cache.entries, key)
      ensures var misses := MissesTo(old(cache.entries), project, metas, provider, clock, |texts|);
              && error == FillError(provider, TextsAt(texts, misses), misses, batchSize)
              && (error.None? ==> results.Keys == if misses != [] && batchSize < 0 then Upto(|texts|) - Elements(misses) else Upto(|texts|))
      ensures Pointwise(provider, s.truth) && Labelled(s) && old(Faithful(s)) ==> Faithful(s) && Truthful(results, s)
      ensures Refindable(metas, results.Keys)
    {
      hide Labelled, Coherent, OnePerKey, AllSeen, Completion, FillError, Truthful, Pointwise, Paired;
      var found, misses, missIndices := LookUp(texts, metas, s);
      PairedTexts(misses, missIndices, texts);
      FillErrors(provider, s.truth, misses, missIndices, batchSize);
      results, error := Fill(metas, misses, missIndices, batchSize, schedule, found, s);
    }

    /** The whole call.  What it raises is exactly what `EmbedError` says.  Under the assumptions, whatever it
        returns is what the provider answers for each text, in place, for every pattern of hits and every
        completion order, and the cache stays coherent even when the call fails; with a provider that always
        answers and a positive batch size it does return; and if the clock stands still a second look finds every
        text. */
    method Embed(texts: seq<string>, metas: seq<Meta>, useCache: bool, batchSize: int, schedule: nat -> seq<nat>, ghost s: Scene)
      returns (o: Outcome)
      requires OnePerKey(cache.entries) && s.texts == texts && s.metas == metas
      requires forall n: nat :: Completion(schedule(n), n)
      modifies cache
      ensures OnePerKey(cache.entries)
      ensures forall key :: Foreign(key, project, metas, provider) ==> SameSeen(old(cache.entries), cache.entries, key)
      ensures var misses := if |texts| == |metas| then MissesTo(old(cache.entries), project, metas, provider, clock, |texts|) else [];
              var e := EmbedError(provider, texts, metas, useCache, batchSize, misses);
              if e.Some? then o == e.value else o.Done? && (useCache && texts != [] ==> |o.vectors| == |texts|)
      ensures !useCache || texts == [] || |texts| != |metas| ==> cache.entries == old(cache.entries)
      ensures Pointwise(provider, s.truth) && Labelled(s) && old(Faithful(s)) ==>
                Faithful(s) && (o.Done? ==> o.vectors == MapTexts(texts, s.truth))
      ensures Pointwise(provider, s.truth) && NeverFails(provider) && |texts| == |metas| && batchSize >= 1 ==> o.Done?
      ensures o.Done? && useCache && |texts| == |metas| ==> Refindable(metas, Upto(|texts|))
    {
      hide Labelled, Coherent, OnePerKey, AllSeen, Completion, FillError;
      if !useCache || texts == [] {
        var reply := provider.embed(0, texts);
        NothingToSee(cache.entries, project, metas, provider);
        return if reply.Failed? then ProviderError else Done(reply.vectors);
      }
      if |texts| != |metas| {
        HashedHasLabels(s);
        return ValueError;
      }
      ghost var misses := MissesTo(cache.entries, project, metas, provider, clock, |texts|);
      MissesExact(cache.entries, project, metas, provider, clock, |texts|);
      FillErrors(provider, s.truth, TextsAt(texts, misses), misses, batchSize);
      var results, error := Through(texts, metas, batchSize, schedule, s);
      if error.Some? {
        return error.value;
      }
      SomeMissing(results, misses, |texts|, batchSize);
      if exists i :: 0 <= i < |texts| && i !in results {
        return KeyError;
      }
      o := Done(seq(|texts|, i requires 0 <= i < |texts| && i in results => results[i]));
    }
  }

  lemma SomeMissing(results: map<nat, Vector>, misses: seq<nat>, n: nat, batchSize: int)
    requires results.Keys == if misses != [] && batchSize < 0 then Upto(n) - Elements(misses) else Upto(n)
    requires forall i: nat :: i in misses ==> i < n
    ensures (exists i :: 0 <= i < n && i !in results) <==> misses != [] && batchSize < 0
  {
    if misses != [] && batchSize < 0 {
      assert misses[0] in misses && misses[0] !in results.Keys;
    }
  }

  lemma HashedHasLabels(s: Scene)
    ensures Labelled(s) ==> |s.texts| == |s.metas|
  {
  }

  lemma NothingToSee(entries: seq<Entry>, project: string, metas: seq<Meta>, p: Provider)
    ensures forall now :: AllSeen(entries, project, metas, p, now, {})
  {
  }
}
