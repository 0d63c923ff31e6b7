/** The upload step of the PDF page (`add_to_pinecone`), without the network.

    New rows get consecutive ids starting one past the largest id the index
    returned for a query; the ids are written into the data frame's `Index`
    column as strings; then the rows are sent to the index in slices of
    `BatchSize`, each row as the triple (id, embedding, {Filename, Text,
    Metadata}). The ids the index returned are an input (`observed`): the query
    that fetches them is random and bounded, so nothing here claims anything
    about ids the index holds but did not return. */
module Loader {
  import opened Seqs
  import opened Decimal

  /** One row of the data frame built for an uploaded PDF: one chunk of text. */
  datatype Row = Row(filename: string, metadata: string, text: string, embedding: seq<real>)

  /** The metadata record stored beside each vector. */
  datatype Metadata = Metadata(filename: string, text: string, metadata: string)

  /** The triple handed to the index's upsert call. */
  datatype Vector = Vector(id: string, values: seq<real>, metadata: Metadata)

  /** Why the starting id cannot be computed (both raise `ValueError` in Python). */
  datatype IdError =
    | NotAnInteger(id: string)   // `int(i)` on an id that is not a numeral
    | NoExistingIds              // `max` of an empty list

  datatype Result<T> = Ok(value: T) | Err(error: IdError)

  const BatchSize: nat := 32

  // ---------------------------------------------------------------------------
  // Id assignment
  // ---------------------------------------------------------------------------

  /** `[int(i) for i in ids]`: fails on the first id that is not a numeral. */
  function ParseIds(ids: seq<string>): (r: Result<seq<int>>)
    ensures r.Ok? ==> |r.value| == |ids| && forall i :: 0 <= i < |ids| ==> ParseInt(ids[i]) == Some(r.value[i])
    ensures r.Err? ==> exists i :: (0 <= i < |ids| && r.error == NotAnInteger(ids[i]) && ParseInt(ids[i]).None?
      && forall j :: 0 <= j < i ==> ParseInt(ids[j]).Some?)
  {
    if ids == [] then Ok([])
    else match ParseInt(ids[0])
      case None => Err(NotAnInteger(ids[0]))
      case Some(x) =>
        match ParseIds(ids[1..])
        case Err(e) => Err(e)
        case Ok(xs) => Ok([x] + xs)
  }

  /** Python's `max` of a non-empty list of integers. */
  function MaxOf(xs: seq<int>): (m: int)
    requires xs != []
    ensures forall i :: 0 <= i < |xs| ==> xs[i] <= m
    ensures exists i :: 0 <= i < |xs| && xs[i] == m
  {
    if |xs| == 1 then xs[0]
    else
      var rest := MaxOf(xs[1..]);
      if xs[0] >= rest then xs[0] else rest
  }

  /** The first new id: one past the largest observed id. */
  function StartingIndex(observed: seq<string>): (r: Result<int>)
    ensures r.Ok? <==> observed != [] && forall i :: 0 <= i < |observed| ==> ParseInt(observed[i]).Some?
    ensures r == Err(NoExistingIds) <==> observed == []
    ensures r.Err? && r.error.NotAnInteger? ==>
      exists i :: (0 <= i < |observed| && observed[i] == r.error.id && ParseInt(observed[i]).None?
        && forall j :: 0 <= j < i ==> ParseInt(observed[j]).Some?)
    ensures r.Ok? ==> forall i :: 0 <= i < |observed| ==> ParseInt(observed[i]).value < r.value
    ensures r.Ok? ==> exists i :: 0 <= i < |observed| && ParseInt(observed[i]).value + 1 == r.value
  {
    match ParseIds(observed)
    case Err(e) => Err(e)
    case Ok(xs) => if xs == [] then Err(NoExistingIds) else Ok(MaxOf(xs) + 1)
  }

  /** The `Index` column: `range(start, start + n)` written as strings. */
  function NewIds(start: int, n: nat): (ids: seq<string>)
    ensures |ids| == n
    ensures forall k :: 0 <= k < n ==> ParseInt(ids[k]) == Some(start + k)
  {
    var ids := seq(n, k requires 0 <= k < n => FormatInt(start + k));
    ConsecutiveParseBack(ids, start);
    ids
  }

  /** New ids read back as `start, start + 1, ...`, are pairwise distinct, and
      each is greater than, hence different from, every observed id. */
  lemma NewIdsFresh(observed: seq<string>, n: nat)
    requires StartingIndex(observed).Ok?
    ensures var ids := NewIds(StartingIndex(observed).value, n);
      && (forall k :: 0 <= k < n ==> ParseInt(ids[k]) == Some(StartingIndex(observed).value + k))
      && (forall k, i :: 0 <= k < n && 0 <= i < |observed| ==>
            ParseInt(observed[i]).value < ParseInt(ids[k]).value && ids[k] != observed[i])
      && (forall k, l :: 0 <= k < l < n ==> ids[k] != ids[l])
  {
    FreshRun(observed, StartingIndex(observed).value, n);
  }

  /** `NewIdsFresh` for any start above every observed id. */
  lemma FreshRun(observed: seq<string>, start: int, n: nat)
    requires forall i :: 0 <= i < |observed| ==> ParseInt(observed[i]).Some?
    requires forall i :: 0 <= i < |observed| ==> ParseInt(observed[i]).value < start
    ensures var ids := NewIds(start, n);
      && (forall k, i :: 0 <= k < n && 0 <= i < |observed| ==>
            ParseInt(observed[i]).value < ParseInt(ids[k]).value && ids[k] != observed[i])
      && (forall k, l :: 0 <= k < l < n ==> ids[k] != ids[l])
  {
    var ids := NewIds(start, n);
    IdsAbove(observed, ids, start);
    IdsDistinct(ids, start);
  }

  /** Ids that read back as `start, start + 1, ...` are above, hence different
      from, every observed id below `start`. */
  lemma IdsAbove(observed: seq<string>, ids: seq<string>, start: int)
    requires forall i :: 0 <= i < |observed| ==> ParseInt(observed[i]).Some?
    requires forall i :: 0 <= i < |observed| ==> ParseInt(observed[i]).value < start
    requires forall k :: 0 <= k < |ids| ==> ParseInt(ids[k]) == Some(start + k)
    ensures forall k, i :: 0 <= k < |ids| && 0 <= i < |observed| ==>
      ParseInt(observed[i]).value < ParseInt(ids[k]).value && ids[k] != observed[i]
  {
  }

  /** Ids that read back as `start, start + 1, ...` are pairwise distinct. */
  lemma IdsDistinct(ids: seq<string>, start: int)
    requires forall k :: 0 <= k < |ids| ==> ParseInt(ids[k]) == Some(start + k)
    ensures forall k, l :: 0 <= k < l < |ids| ==> ids[k] != ids[l]
  {
    forall k, l | 0 <= k < l < |ids|
      ensures ids[k] != ids[l]
    {
      assert ParseInt(ids[k]) != ParseInt(ids[l]);
    }
  }

  // ---------------------------------------------------------------------------
  // Payload and batching
  // ---------------------------------------------------------------------------

  function MetadataOf(row: Row): Metadata
  {
    Metadata(row.filename, row.text, row.metadata)
  }

  /** Every row as the triple it is sent as, in row order, ids from `start`. */
  function Payload(rows: seq<Row>, start: int): (p: seq<Vector>)
    ensures |p| == |rows|
    ensures forall k :: 0 <= k < |rows| ==>
      && p[k].id == NewIds(start, |rows|)[k]
      && p[k].values == rows[k].embedding
      && p[k].metadata == MetadataOf(rows[k])
  {
    seq(|rows|, k requires 0 <= k < |rows| => Vector(FormatInt(start + k), rows[k].embedding, MetadataOf(rows[k])))
  }

  /** Python's `zip` of three lists: stops at the shortest. */
  function Zip3(ids: seq<string>, values: seq<seq<real>>, metas: seq<Metadata>): (vs: seq<Vector>)
    ensures |vs| == Min(|ids|, Min(|values|, |metas|))
    ensures |ids| == |values| == |metas| ==> |vs| == |ids|
    ensures forall k :: 0 <= k < |vs| ==> vs[k].id == ids[k] && vs[k].values == values[k] && vs[k].metadata == metas[k]
  {
    var n := Min(|ids|, Min(|values|, |metas|));
    seq(n, k requires 0 <= k < n => Vector(ids[k], values[k], metas[k]))
  }

  /** The slices `xs[i:i + BatchSize]` for `i` in `range(0, len(xs), BatchSize)`. */
  function Batches<T>(xs: seq<T>): (bs: seq<seq<T>>)
    ensures xs == [] <==> bs == []
    ensures forall b :: 0 <= b < |bs| ==> 0 < |bs[b]| <= BatchSize
    decreases |xs|
  {
    if xs == [] then []
    else
      var cut := Min(BatchSize, |xs|);
      [xs[..cut]] + Batches(xs[cut..])
  }

  /** The batches, in order, are exactly the rows: each row is sent once. */
  lemma {:induction false} BatchesPartition<T>(xs: seq<T>)
    ensures Join(Batches(xs)) == xs
    decreases |xs|
  {
    if xs != [] {
      var cut := Min(BatchSize, |xs|);
      BatchesPartition(xs[cut..]);
      JoinCons(xs[..cut], Batches(xs[cut..]));
      assert xs == xs[..cut] + xs[cut..];
    }
  }

  /** Every batch holds between one and `BatchSize` rows, every batch but the
      last holds exactly `BatchSize`, and there are `ceil(len(xs) / BatchSize)`
      of them. */
  lemma {:induction false} BatchesSizes<T>(xs: seq<T>)
    ensures var bs := Batches(xs);
      && |bs| == (|xs| + BatchSize - 1) / BatchSize
      && forall b :: 0 <= b < |bs| ==> 0 < |bs[b]| <= BatchSize && (b < |bs| - 1 ==> |bs[b]| == BatchSize)
    decreases |xs|
  {
    if xs != [] {
      var cut := Min(BatchSize, |xs|);
      BatchesSizes(xs[cut..]);
      var bs := Batches(xs);
      forall b | 0 <= b < |bs|
        ensures 0 < |bs[b]| <= BatchSize && (b < |bs| - 1 ==> |bs[b]| == BatchSize)
      {
        if b > 0 {
          assert bs[b] == Batches(xs[cut..])[b - 1];
        } else if b < |bs| - 1 {
          assert xs[cut..] != [];
        }
      }
    }
  }

  /** Row `j` of batch `b` is row `b * BatchSize + j` of the input. */
  lemma {:induction false} BatchAt<T>(xs: seq<T>, b: nat, j: nat)
    requires b < |Batches(xs)| && j < |Batches(xs)[b]|
    ensures b * BatchSize + j < |xs| && Batches(xs)[b][j] == xs[b * BatchSize + j]
    decreases |xs|
  {
    var cut := Min(BatchSize, |xs|);
    if b > 0 {
      assert Batches(xs)[b] == Batches(xs[cut..])[b - 1];
      BatchAt(xs[cut..], b - 1, j);
    }
  }

  /** The `k`-th triple sent carries the `k`-th row's id, embedding, file name,
      text and metadata. */
  lemma UpsertedInOrder(rows: seq<Row>, start: int)
    ensures var sent := Join(Batches(Payload(rows, start)));
      && |sent| == |rows|
      && forall k :: 0 <= k < |rows| ==>
           sent[k] == Vector(NewIds(start, |rows|)[k], rows[k].embedding,
                             Metadata(rows[k].filename, rows[k].text, rows[k].metadata))
  {
    BatchesPartition(Payload(rows, start));
  }

  // ---------------------------------------------------------------------------
  // The index
  // ---------------------------------------------------------------------------

  /** The index after upserting `vs` in order: an id already present is
      overwritten, a new one is added. */
  function UpsertAll(entries: map<string, Vector>, vs: seq<Vector>): (r: map<string, Vector>)
    ensures entries.Keys <= r.Keys
    ensures forall k :: 0 <= k < |vs| ==> vs[k].id in r
    decreases |vs|
  {
    if vs == [] then entries else UpsertAll(entries[vs[0].id := vs[0]], vs[1..])
  }

  lemma {:induction false} UpsertAllAppend(entries: map<string, Vector>, a: seq<Vector>, b: seq<Vector>)
    ensures UpsertAll(entries, a + b) == UpsertAll(UpsertAll(entries, a), b)
    decreases |a|
  {
    if a == [] {
      assert a + b == b;
    } else {
      assert (a + b)[0] == a[0] && (a + b)[1..] == a[1..] + b;
      UpsertAllAppend(entries[a[0].id := a[0]], a[1..], b);
    }
  }

  /** Upserting vectors with distinct ids stores each of them under its id and
      leaves every other entry as it was. */
  /** The ids in the index after upserting `vs` are the ids before plus the
      ids of `vs`. */
  lemma {:induction false} UpsertAllKeys(entries: map<string, Vector>, vs: seq<Vector>)
    ensures UpsertAll(entries, vs).Keys == entries.Keys + set k | 0 <= k < |vs| :: vs[k].id
    decreases |vs|
  {
    if vs != [] {
      UpsertAllKeys(entries[vs[0].id := vs[0]], vs[1..]);
      assert forall k :: 0 < k < |vs| ==> vs[k] == vs[1..][k - 1];
    }
  }

  lemma {:induction false} UpsertAllEffect(entries: map<string, Vector>, vs: seq<Vector>)
    requires forall i, j :: 0 <= i < j < |vs| ==> vs[i].id != vs[j].id
    ensures var r := UpsertAll(entries, vs);
      && (forall k :: 0 <= k < |vs| ==> vs[k].id in r && r[vs[k].id] == vs[k])
      && (forall key :: key in entries && (forall k :: 0 <= k < |vs| ==> vs[k].id != key) ==>
            key in r && r[key] == entries[key])
      && r.Keys == entries.Keys + set k | 0 <= k < |vs| :: vs[k].id
  {
    UpsertAllKeys(entries, vs);
    UpsertAllStores(entries, vs);
    UpsertAllKeeps(entries, vs);
  }

  /** With distinct ids, every upserted vector ends up stored under its id. */
  lemma {:induction false} UpsertAllStores(entries: map<string, Vector>, vs: seq<Vector>)
    requires forall i, j :: 0 <= i < j < |vs| ==> vs[i].id != vs[j].id
    ensures forall k :: 0 <= k < |vs| ==> vs[k].id in UpsertAll(entries, vs) && UpsertAll(entries, vs)[vs[k].id] == vs[k]
    decreases |vs|
  {
    if vs != [] {
      UpsertAllStores(entries[vs[0].id := vs[0]], vs[1..]);
      UpsertAllKeeps(entries[vs[0].id := vs[0]], vs[1..]);
      forall k | 0 < k < |vs|
        ensures vs[k] == vs[1..][k - 1]
      {
      }
    }
  }

  /** An entry whose id is not upserted keeps its vector. */
  lemma {:induction false} UpsertAllKeeps(entries: map<string, Vector>, vs: seq<Vector>)
    ensures forall key :: key in entries && (forall k :: 0 <= k < |vs| ==> vs[k].id != key) ==>
      key in UpsertAll(entries, vs) && UpsertAll(entries, vs)[key] == entries[key]
    decreases |vs|
  {
    if vs != [] {
      UpsertAllKeeps(entries[vs[0].id := vs[0]], vs[1..]);
      forall key | key in entries && (forall k :: 0 <= k < |vs| ==> vs[k].id != key)
        ensures forall k :: 0 <= k < |vs[1..]| ==> vs[1..][k].id != key
      {
        assert forall k :: 0 <= k < |vs[1..]| ==> vs[1..][k] == vs[k + 1];
      }
    }
  }

  /** After an upload the index holds every row under its new id, and every
      observed id it held before still maps to what it did. */
  lemma PayloadStored(observed: seq<string>, rows: seq<Row>, entries: map<string, Vector>)
    requires StartingIndex(observed).Ok?
    ensures var ids := NewIds(StartingIndex(observed).value, |rows|);
      var r := UpsertAll(entries, Payload(rows, StartingIndex(observed).value));
      && (forall k :: 0 <= k < |rows| ==>
            ids[k] in r && r[ids[k]] == Vector(ids[k], rows[k].embedding, MetadataOf(rows[k])))
      && (forall id :: id in observed && id in entries ==> id in r && r[id] == entries[id])
  {
    var start := StartingIndex(observed).value;
    var payload := Payload(rows, start);
    NewIdsFresh(observed, |rows|);
    assert forall k :: 0 <= k < |payload| ==> payload[k].id == NewIds(start, |rows|)[k];
    UpsertAllEffect(entries, payload);
    forall id | id in observed && id in entries
      ensures forall k :: 0 <= k < |payload| ==> payload[k].id != id
    {
      var i :| 0 <= i < |observed| && observed[i] == id;
    }
  }

  lemma BatchStep<T>(xs: seq<T>, i: nat)
    requires i < |xs|
    ensures Batches(xs[i..]) == [xs[i..Min(i + BatchSize, |xs|)]] + Batches(xs[Min(i + BatchSize, |xs|)..])
  {
    var hi := Min(i + BatchSize, |xs|);
    assert xs[i..][..Min(BatchSize, |xs| - i)] == xs[i..hi];
    assert xs[i..][Min(BatchSize, |xs| - i)..] == xs[hi..];
  }

  /** One turn of the batch loop: sending the next slice keeps "sent so far
      plus still to send" equal to the whole, for the log and for the entries. */
  lemma BatchLoopStep(log: seq<seq<Vector>>, entries: map<string, Vector>, payload: seq<Vector>, i: nat,
                      total: seq<seq<Vector>>)
    requires i < |payload|
    requires log + Batches(payload[i..]) == total
    ensures var hi := Min(i + BatchSize, |payload|);
      && (log + [payload[i..hi]]) + Batches(payload[hi..]) == total
      && UpsertAll(UpsertAll(entries, payload[..i]), payload[i..hi]) == UpsertAll(entries, payload[..hi])
  {
    var hi := Min(i + BatchSize, |payload|);
    BatchStep(payload, i);
    assert log + ([payload[i..hi]] + Batches(payload[hi..])) == (log + [payload[i..hi]]) + Batches(payload[hi..]);
    assert payload[..hi] == payload[..i] + payload[i..hi];
    UpsertAllAppend(entries, payload[..i], payload[i..hi]);
  }

  /** The triples zipped from a slice of the columns are that slice of the payload. */
  lemma BatchPayload(rows: seq<Row>, start: int, i: nat, hi: nat, embeds: seq<seq<real>>, ms: seq<Metadata>)
    requires i <= hi <= |rows|
    requires |embeds| == hi - i && forall k :: 0 <= k < hi - i ==> embeds[k] == rows[i + k].embedding
    requires |ms| == hi - i && forall k :: 0 <= k < hi - i ==> ms[k] == MetadataOf(rows[i + k])
    ensures Zip3(NewIds(start, |rows|)[i..hi], embeds, ms) == Payload(rows, start)[i..hi]
  {
  }

  /** The data frame of one uploaded PDF. Its columns Filename, Metadata, Text
      and Embeddings are `rows`; the `Index` column is absent until the upload
      step writes it. */
  class Frame {
    const rows: seq<Row>
    var index: Option<seq<string>>

    constructor (rows: seq<Row>)
      ensures this.rows == rows && index == None
    {
      this.rows := rows;
      index := None;
    }
  }

  /** The vector index: its entries by id, and the batches it has been sent. */
  class VectorIndex {
    var entries: map<string, Vector>
    ghost var log: seq<seq<Vector>>

    constructor (entries: map<string, Vector>)
      ensures this.entries == entries && log == []
    {
      this.entries := entries;
      log := [];
    }

    /** `index.upsert(vectors=...)`. */
    method Upsert(vectors: seq<Vector>)
      modifies this
      ensures entries == UpsertAll(old(entries), vectors)
      ensures log == old(log) + [vectors]
    {
      entries := UpsertAll(entries, vectors);
      log := log + [vectors];
    }
  }

  /** The metadata records of a batch, built one row at a time. */
  method MetadataList(rows: seq<Row>) returns (ms: seq<Metadata>)
    ensures |ms| == |rows|
    ensures forall k :: 0 <= k < |rows| ==>
      ms[k] == Metadata(rows[k].filename, rows[k].text, rows[k].metadata)
  {
    ms := [];
    for k := 0 to |rows|
      invariant |ms| == k
      invariant forall j :: 0 <= j < k ==> ms[j] == MetadataOf(rows[j])
    {
      ms := ms + [MetadataOf(rows[k])];
    }
  }

  /** The triples of one batch: the rows `i` to `hi` of the frame, zipped from
      their ids, their embeddings and their metadata records. */
  method BatchVectors(rows: seq<Row>, ids: seq<string>, ghost start: int, i: nat, hi: nat)
      returns (toUpsert: seq<Vector>)
    requires ids == NewIds(start, |rows|)
    requires i <= hi <= |rows|
    ensures toUpsert == Payload(rows, start)[i..hi]
  {
    var batch := rows[i..hi];
    var idList := ids[i..hi];
    var embeds := seq(|batch|, k requires 0 <= k < |batch| => batch[k].embedding);
    var mList := MetadataList(batch);
    toUpsert := Zip3(idList, embeds, mList);
    BatchPayload(rows, start, i, hi, embeds, mList);
  }

  /** The batch loop of `add_to_pinecone`: send the rows, numbered by `ids`,
      to the index in slices of `BatchSize`. */
  method UpsertInBatches(index: VectorIndex, rows: seq<Row>, ids: seq<string>, ghost start: int)
    requires ids == NewIds(start, |rows|)
    modifies index
    ensures index.log == old(index.log) + Batches(Payload(rows, start))
    ensures index.entries == UpsertAll(old(index.entries), Payload(rows, start))
  {
    var n := |rows|;
    ghost var payload := Payload(rows, start);
    ghost var total := old(index.log) + Batches(payload);
    ghost var done := 0;
    var i := 0;
    while i < n
      invariant 0 <= i && done == Min(i, n)
      invariant index.log + Batches(payload[done..]) == total
      invariant index.entries == UpsertAll(old(index.entries), payload[..done])
    {
      var hi := Min(i + BatchSize, n);
      var toUpsert := BatchVectors(rows, ids, start, i, hi);
      BatchLoopStep(index.log, old(index.entries), payload, i, total);
      index.Upsert(toUpsert);
      i := i + BatchSize;
      done := hi;
    }
    assert payload[..n] == payload;
  }

  /** `add_to_pinecone`: number the rows after the observed ids, write the ids
      into the frame, and upsert the rows in batches of `BatchSize`. */
  method AddToIndex(index: VectorIndex, frame: Frame, observed: seq<string>) returns (outcome: Result<()>)
    modifies index, frame
    ensures StartingIndex(observed).Err? ==>
      && outcome == Err(StartingIndex(observed).error)
      && frame.index == old(frame.index)
      && index.entries == old(index.entries) && index.log == old(index.log)
    ensures StartingIndex(observed).Ok? ==>
      var start := StartingIndex(observed).value;
      && outcome == Ok(())
      && frame.index == Some(NewIds(start, |frame.rows|))
      && index.log == old(index.log) + Batches(Payload(frame.rows, start))
      && index.entries == UpsertAll(old(index.entries), Payload(frame.rows, start))
    ensures outcome.Ok? ==> (frame.index.Some? && |frame.index.value| == |frame.rows|
      && forall k :: 0 <= k < |frame.rows| ==>
           var id := frame.index.value[k];
           id in index.entries && index.entries[id] == Vector(id, frame.rows[k].embedding, MetadataOf(frame.rows[k])))
    ensures forall id :: id in observed && id in old(index.entries) ==>
      id in index.entries && index.entries[id] == old(index.entries)[id]
  {
    var r := StartingIndex(observed);
    if r.Err? {
      return Err(r.error);
    }
    var start := r.value;
    frame.index := Some(NewIds(start, |frame.rows|));
    UpsertInBatches(index, frame.rows, frame.index.value, start);
    outcome := Ok(());
    PayloadStored(observed, frame.rows, old(index.entries));
  }
}
