/**
 * populate_database.py: `add_to_chroma` sends the split chunks to the vector
 * store in consecutive batches of 500, each with the ids `doc_<k>` of its
 * chunks' positions in the whole list. The store's `add_documents` calls are
 * recorded as a log of (batch, ids) pairs.
 */
module PopulateDatabase {
  import opened Text

  const BATCH_SIZE: nat := 500

  /** One `db.add_documents(batch, ids=batch_ids)` call. */
  datatype Call<T> = Call(batch: seq<T>, ids: seq<string>)

  /** The id of the chunk at position `k`: `f"doc_{k}"`. */
  function Id(k: nat): string {
    "doc_" + NatToString(k)
  }

  /** Different positions get different ids. */
  lemma IdInjective(a: nat, b: nat)
    requires Id(a) == Id(b)
    ensures a == b
  {
    assert Id(a)[4..] == NatToString(a);
    assert Id(b)[4..] == NatToString(b);
    NatToStringInjective(a, b);
  }

  /** `[f"doc_{start+j}" for j, _ in enumerate(batch)]` for a batch of `n` chunks. */
  function Ids(start: nat, n: nat): (r: seq<string>)
    ensures |r| == n && forall j :: 0 <= j < n ==> r[j] == Id(start + j)
  {
    seq(n, j requires 0 <= j < n => Id(start + j))
  }

  function Min(a: nat, b: nat): nat {
    if a < b then a else b
  }

  /** The calls made for the batches that start at `from`, `from + 500`, ... below `|chunks|`. */
  function Plan<T>(chunks: seq<T>, from: nat): seq<Call<T>>
    decreases |chunks| - from
  {
    if from >= |chunks| then []
    else
      var end := Min(from + BATCH_SIZE, |chunks|);
      [Call(chunks[from..end], Ids(from, end - from))] + Plan(chunks, from + BATCH_SIZE)
  }

  /** `add_to_chroma(chunks)`: the loop over `range(0, len(chunks), 500)`, returning the calls it makes. */
  method AddToChroma<T>(chunks: seq<T>) returns (log: seq<Call<T>>)
    ensures log == Plan(chunks, 0)
  {
    log := [];
    var i: nat := 0;
    while i < |chunks|
      invariant log + Plan(chunks, i) == Plan(chunks, 0)
      decreases |chunks| - i
    {
      var batch := chunks[i..Min(i + BATCH_SIZE, |chunks|)];
      var batchIds := Ids(i, |batch|);
      assert Plan(chunks, i) == [Call(batch, batchIds)] + Plan(chunks, i + BATCH_SIZE);
      assert log + [Call(batch, batchIds)] + Plan(chunks, i + BATCH_SIZE) == log + Plan(chunks, i);
      log := log + [Call(batch, batchIds)];
      i := i + BATCH_SIZE;
    }
    assert log + [] == log;
  }

  // ---------------------------------------------------------------------------
  // What the plan promises
  // ---------------------------------------------------------------------------

  /** The number of batches from `from` on: ceil((|chunks| - from) / 500), none past the end. */
  lemma {:induction false} PlanLength<T>(chunks: seq<T>, from: nat)
    ensures from >= |chunks| ==> |Plan(chunks, from)| == 0
    ensures from < |chunks| ==> |Plan(chunks, from)| == (|chunks| - from + BATCH_SIZE - 1) / BATCH_SIZE
    decreases |chunks| - from
  {
    if from < |chunks| {
      PlanLength(chunks, from + BATCH_SIZE);
    }
  }

  /** The number of `add_documents` calls is ceil(n / 500); an empty list makes none. */
  lemma CallCount<T>(chunks: seq<T>)
    ensures |Plan(chunks, 0)| == (|chunks| + BATCH_SIZE - 1) / BATCH_SIZE
  {
    PlanLength(chunks, 0);
  }

  /** Call `k` from `from` on is the batch starting at `from + 500 k` with its ids. */
  lemma {:induction false} PlanCall<T>(chunks: seq<T>, from: nat, k: nat)
    requires k < |Plan(chunks, from)|
    ensures var start := from + BATCH_SIZE * k;
      var end := Min(start + BATCH_SIZE, |chunks|);
      && start < end
      && Plan(chunks, from)[k] == Call(chunks[start..end], Ids(start, end - start))
    decreases |chunks| - from
  {
    var p := Plan(chunks, from);
    var end := Min(from + BATCH_SIZE, |chunks|);
    assert p[0] == Call(chunks[from..end], Ids(from, end - from));
    if k > 0 {
      assert p[k] == Plan(chunks, from + BATCH_SIZE)[k - 1];
      PlanCall(chunks, from + BATCH_SIZE, k - 1);
      assert from + BATCH_SIZE * k == (from + BATCH_SIZE) + BATCH_SIZE * (k - 1);
    }
  }

  /**
   * Call `k` from `from` on sends the chunks from `from + 500 k` up to 500 of
   * them, with the ids of exactly those positions.
   */
  lemma PlanEntry<T>(chunks: seq<T>, from: nat, k: nat)
    requires k < |Plan(chunks, from)|
    ensures var start := from + BATCH_SIZE * k;
      var end := Min(start + BATCH_SIZE, |chunks|);
      && start < end
      && Plan(chunks, from)[k].batch == chunks[start..end]
      && |Plan(chunks, from)[k].ids| == end - start
      && forall j :: 0 <= j < end - start ==> Plan(chunks, from)[k].ids[j] == Id(start + j)
  {
    PlanCall(chunks, from, k);
  }

  /** Every batch but the last holds exactly 500 chunks; the last holds 1 to 500. */
  lemma BatchSizes<T>(chunks: seq<T>, k: nat)
    requires k < |Plan(chunks, 0)|
    ensures 1 <= |Plan(chunks, 0)[k].batch| <= BATCH_SIZE
    ensures k < |Plan(chunks, 0)| - 1 ==> |Plan(chunks, 0)[k].batch| == BATCH_SIZE
  {
    PlanEntry(chunks, 0, k);
    PlanLength(chunks, 0);
  }

  /** The chunks sent in call `k` at offset `j` is chunk `500 k + j`, and its id is `doc_{500 k + j}`. */
  lemma ChunkGetsItsPositionAsId<T>(chunks: seq<T>, k: nat, j: nat)
    requires k < |Plan(chunks, 0)| && j < |Plan(chunks, 0)[k].batch|
    ensures BATCH_SIZE * k + j < |chunks|
    ensures Plan(chunks, 0)[k].batch[j] == chunks[BATCH_SIZE * k + j]
    ensures j < |Plan(chunks, 0)[k].ids| && Plan(chunks, 0)[k].ids[j] == Id(BATCH_SIZE * k + j)
  {
    PlanEntry(chunks, 0, k);
  }

  /** All the batches sent. */
  function Sent<T>(calls: seq<Call<T>>): seq<T> {
    if calls == [] then [] else calls[0].batch + Sent(calls[1..])
  }

  /** Concatenating the batches from `from` on gives back the chunks from `from` on, in order. */
  lemma {:induction false} SentFrom<T>(chunks: seq<T>, from: nat)
    requires from <= |chunks|
    ensures Sent(Plan(chunks, from)) == chunks[from..]
    decreases |chunks| - from
  {
    if from < |chunks| {
      var end := Min(from + BATCH_SIZE, |chunks|);
      var p := Plan(chunks, from);
      assert p[1..] == Plan(chunks, from + BATCH_SIZE);
      if end < |chunks| {
        SentFrom(chunks, from + BATCH_SIZE);
        assert chunks[from..] == chunks[from..end] + chunks[end..];
      } else {
        assert Plan(chunks, from + BATCH_SIZE) == [];
        assert chunks[from..] == chunks[from..end] + [];
      }
    }
  }

  /** Every chunk is sent exactly once, in its original order. */
  lemma AllChunksSentInOrder<T>(chunks: seq<T>)
    ensures Sent(Plan(chunks, 0)) == chunks
  {
    SentFrom(chunks, 0);
  }

  /** Id `j` of call `k` is the id of position `500 k + j`, and `j` is below 500. */
  lemma PlanId<T>(chunks: seq<T>, k: nat, j: nat)
    requires k < |Plan(chunks, 0)| && j < |Plan(chunks, 0)[k].ids|
    ensures j < BATCH_SIZE && Plan(chunks, 0)[k].ids[j] == Id(BATCH_SIZE * k + j)
  {
    PlanEntry(chunks, 0, k);
  }

  /** No id is used twice in a run, within a batch or across batches. */
  lemma IdsUnique<T>(chunks: seq<T>, k1: nat, j1: nat, k2: nat, j2: nat)
    requires k1 < |Plan(chunks, 0)| && j1 < |Plan(chunks, 0)[k1].ids|
    requires k2 < |Plan(chunks, 0)| && j2 < |Plan(chunks, 0)[k2].ids|
    requires Plan(chunks, 0)[k1].ids[j1] == Plan(chunks, 0)[k2].ids[j2]
    ensures k1 == k2 && j1 == j2
  {
    PlanId(chunks, k1, j1);
    PlanId(chunks, k2, j2);
    var a, b := BATCH_SIZE * k1 + j1, BATCH_SIZE * k2 + j2;
    IdInjective(a, b);
    assert a == b;
    SamePosition(k1, j1, k2, j2);
  }

  /** A position below the batch size within a batch determines the batch and the offset. */
  lemma SamePosition(k1: nat, j1: nat, k2: nat, j2: nat)
    requires j1 < BATCH_SIZE && j2 < BATCH_SIZE
    requires BATCH_SIZE * k1 + j1 == BATCH_SIZE * k2 + j2
    ensures k1 == k2 && j1 == j2
  {
    PositionSplit(k1, j1);
    PositionSplit(k2, j2);
  }

  /** A position is split back into its batch number and its offset. */
  lemma PositionSplit(k: nat, j: nat)
    requires j < BATCH_SIZE
    ensures (BATCH_SIZE * k + j) / BATCH_SIZE == k && (BATCH_SIZE * k + j) % BATCH_SIZE == j
  {
  }
}
