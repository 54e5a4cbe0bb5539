/** `bulk_insert` of the importer: rows are collected in a batch list that is
    handed to `executemany` and cleared each time it holds `CHUNK_SIZE` rows;
    at such a flush the connection commits when the running total is a
    multiple of `commit_every`; at the end the partial batch, if any, is
    inserted and the connection commits. The database is a sink that records
    what it is asked to do. */
module BulkLoad {
  /** One row's field values, as `parse_rows` yields them. */
  datatype Row = Row(fields: seq<string>)

  /** `CHUNK_SIZE`. */
  const Chunk: nat := 50000

  /** `COMMIT_EVERY`, the default `commit_every`. */
  const CommitEvery: nat := 500000

  datatype Event = ExecuteMany(batch: seq<Row>) | Commit

  /** The cursor and connection, reduced to the calls they receive. */
  class Sink {
    var events: seq<Event>

    constructor ()
      ensures events == []
    {
      events := [];
    }

    method ExecuteMany(batch: seq<Row>)
      modifies this
      ensures events == old(events) + [Event.ExecuteMany(batch)]
    {
      events := events + [Event.ExecuteMany(batch)];
    }

    method Commit()
      modifies this
      ensures events == old(events) + [Event.Commit]
    {
      events := events + [Event.Commit];
    }
  }

  // ---------------------------------------------------------------------------
  // What bulk_insert asks of the sink

  /** The rows a run of `n` rows has flushed in full chunks: the largest
      multiple of `Chunk` not above `n`. */
  function Flushed(n: nat): (f: nat)
    ensures f <= n && n - f < Chunk
  {
    if n < Chunk then 0 else Chunk + Flushed(n - Chunk)
  }

  lemma {:induction false} FlushedUnique(f: nat, n: nat)
    requires Flushed(f) == f && f <= n < f + Chunk
    ensures Flushed(n) == f
    decreases f
  {
    if f >= Chunk {
      FlushedUnique(f - Chunk, n - Chunk);
    }
  }

  /** The calls for the full chunks that make up the first `n` rows: the
      chunk ending at row `n` follows those before it, and a commit follows
      it exactly when `n` is a multiple of `ce`. */
  function ChunkEvents(rows: seq<Row>, ce: nat, n: nat): seq<Event>
    requires ce > 0 && n <= |rows|
    decreases n
  {
    if n < Chunk then []
    else
      ChunkEvents(rows, ce, n - Chunk) + [Event.ExecuteMany(rows[n - Chunk..n])]
      + (if n % ce == 0 then [Event.Commit] else [])
  }

  /** All calls: the full chunks, the partial last batch if any, the final
      commit. */
  function InsertEvents(rows: seq<Row>, ce: nat): seq<Event>
    requires ce > 0
  {
    var f := Flushed(|rows|);
    ChunkEvents(rows, ce, f)
    + (if f < |rows| then [Event.ExecuteMany(rows[f..])] else [])
    + [Event.Commit]
  }

  /** Flushing the next full chunk extends the calls by its batch and, when
      due, a commit. */
  lemma ChunkEventsNext(rows: seq<Row>, ce: nat, f: nat, e0: seq<Event>)
    requires ce > 0 && Flushed(f) == f && f + Chunk <= |rows|
    ensures Flushed(f + Chunk) == f + Chunk
    ensures var flushed := e0 + ChunkEvents(rows, ce, f) + [Event.ExecuteMany(rows[f..f + Chunk])];
      if (f + Chunk) % ce == 0 then flushed + [Event.Commit] == e0 + ChunkEvents(rows, ce, f + Chunk)
      else flushed == e0 + ChunkEvents(rows, ce, f + Chunk)
  {
    var prev, x := ChunkEvents(rows, ce, f), Event.ExecuteMany(rows[f..f + Chunk]);
    var tail := if (f + Chunk) % ce == 0 then [Event.Commit] else [];
    assert ChunkEvents(rows, ce, f + Chunk) == prev + [x] + tail;
    assert e0 + prev + [x] + tail == e0 + (prev + [x] + tail);
    assert tail == [] ==> e0 + prev + [x] + tail == e0 + prev + [x];
  }

  /** The calls after the last full chunk complete the specified calls. */
  lemma InsertEventsEnd(rows: seq<Row>, ce: nat, e0: seq<Event>)
    requires ce > 0
    ensures var f := Flushed(|rows|);
      var full := e0 + ChunkEvents(rows, ce, f);
      var last := (if f < |rows| then full + [Event.ExecuteMany(rows[f..])] else full) + [Event.Commit];
      last == e0 + InsertEvents(rows, ce)
  {
    var f := Flushed(|rows|);
    var prev := ChunkEvents(rows, ce, f);
    var rest := if f < |rows| then [Event.ExecuteMany(rows[f..])] else [];
    assert InsertEvents(rows, ce) == prev + rest + [Event.Commit];
    assert e0 + prev + rest + [Event.Commit] == e0 + (prev + rest + [Event.Commit]);
    assert rest == [] ==> e0 + prev + rest == e0 + prev;
  }

  /** `bulk_insert`: returns the number of rows it consumed. */
  method BulkInsert(sink: Sink, rows: seq<Row>, commitEvery: nat) returns (total: nat)
    requires commitEvery > 0
    modifies sink
    ensures total == |rows|
    ensures sink.events == old(sink.events) + InsertEvents(rows, commitEvery)
  {
    total := 0;
    var batch: seq<Row> := [];
    ghost var flushed: nat := 0;
    var i := 0;
    while i < |rows|
      invariant i <= |rows| && total == i
      invariant flushed + |batch| == i && |batch| < Chunk && Flushed(flushed) == flushed
      invariant batch == rows[flushed..i]
      invariant sink.events == old(sink.events) + ChunkEvents(rows, commitEvery, flushed)
    {
      SliceSnoc(rows, flushed, i);
      batch := batch + [rows[i]];
      total := total + 1;
      if |batch| >= Chunk {
        ChunkEventsNext(rows, commitEvery, flushed, old(sink.events));
        sink.ExecuteMany(batch);
        batch := [];
        flushed := flushed + Chunk;
        if total % commitEvery == 0 {
          sink.Commit();
        }
      }
      i := i + 1;
    }
    FlushedUnique(flushed, |rows|);
    assert rows[flushed..i] == rows[flushed..];
    InsertEventsEnd(rows, commitEvery, old(sink.events));
    if |batch| > 0 {
      sink.ExecuteMany(batch);
    }
    sink.Commit();
  }

  // ---------------------------------------------------------------------------
  // Properties of the calls

  /** The batches handed to `executemany`, in order. */
  function Batches(ev: seq<Event>): seq<seq<Row>> {
    if ev == [] then []
    else Batches(ev[..|ev| - 1]) + (match ev[|ev| - 1] case ExecuteMany(b) => [b] case Commit => [])
  }

  function Flatten(bs: seq<seq<Row>>): seq<Row> {
    if bs == [] then [] else Flatten(bs[..|bs| - 1]) + bs[|bs| - 1]
  }

  /** The number of rows in the batches of `ev`. */
  function Size(ev: seq<Event>): nat {
    if ev == [] then 0
    else Size(ev[..|ev| - 1]) + (match ev[|ev| - 1] case ExecuteMany(b) => |b| case Commit => 0)
  }

  predicate FullFlush(e: Event) {
    e.ExecuteMany? && |e.batch| == Chunk
  }

  lemma {:induction false} BatchesAppend(a: seq<Event>, b: seq<Event>)
    ensures Batches(a + b) == Batches(a) + Batches(b)
    ensures Size(a + b) == Size(a) + Size(b)
    decreases |b|
  {
    if b == [] {
      assert a + b == a;
    } else {
      var init := b[..|b| - 1];
      BatchesAppend(a, init);
      assert (a + b)[..|a + b| - 1] == a + init;
    }
  }

  lemma {:induction false} FlattenAppend(a: seq<seq<Row>>, b: seq<seq<Row>>)
    ensures Flatten(a + b) == Flatten(a) + Flatten(b)
    decreases |b|
  {
    if b == [] {
      assert a + b == a;
    } else {
      var init := b[..|b| - 1];
      FlattenAppend(a, init);
      assert (a + b)[..|a + b| - 1] == a + init;
    }
  }

  lemma OneBatch(b: seq<Row>)
    ensures Batches([Event.ExecuteMany(b)]) == [b] && Size([Event.ExecuteMany(b)]) == |b|
    ensures Batches([Event.Commit]) == [] && Size([Event.Commit]) == 0
    ensures Flatten([b]) == b
  {
    assert [Event.ExecuteMany(b)][..0] == [];
    assert [Event.Commit][..0] == [];
    assert [b][..0] == [];
  }

  /** Every batch of `bs` holds exactly `Chunk` rows. */
  predicate AllFull(bs: seq<seq<Row>>) {
    bs == [] || (AllFull(bs[..|bs| - 1]) && |bs[|bs| - 1]| == Chunk)
  }

  lemma {:induction false} AllFullAt(bs: seq<seq<Row>>, i: nat)
    requires AllFull(bs) && i < |bs|
    ensures |bs[i]| == Chunk
    decreases |bs|
  {
    if i < |bs| - 1 {
      AllFullAt(bs[..|bs| - 1], i);
    }
  }

  lemma AllFullSnoc(bs: seq<seq<Row>>, b: seq<Row>)
    requires AllFull(bs) && |b| == Chunk
    ensures AllFull(bs + [b])
  {
    assert (bs + [b])[..|bs|] == bs;
  }

  /** The full chunks cover the first `n` rows, in order, in batches of
      exactly `Chunk` rows. */
  lemma {:induction false} ChunkEventsBatches(rows: seq<Row>, ce: nat, n: nat)
    requires ce > 0 && n <= |rows| && Flushed(n) == n
    ensures Flatten(Batches(ChunkEvents(rows, ce, n))) == rows[..n]
    ensures AllFull(Batches(ChunkEvents(rows, ce, n)))
    ensures Size(ChunkEvents(rows, ce, n)) == n
    decreases n
  {
    if n >= Chunk {
      ChunkStep(rows, ce, n);
      ChunkEventsBatches(rows, ce, n - Chunk);
      ChunkBatchesStep(rows, ce, n);
    } else {
      assert rows[..n] == [];
    }
  }

  lemma ChunkBatchesStep(rows: seq<Row>, ce: nat, n: nat)
    requires ce > 0 && Chunk <= n <= |rows| && Flushed(n) == n
    requires var prev := ChunkEvents(rows, ce, n - Chunk);
      Flatten(Batches(prev)) == rows[..n - Chunk] && AllFull(Batches(prev)) && Size(prev) == n - Chunk
    ensures Flatten(Batches(ChunkEvents(rows, ce, n))) == rows[..n]
    ensures AllFull(Batches(ChunkEvents(rows, ce, n)))
    ensures Size(ChunkEvents(rows, ce, n)) == n
  {
    ChunkStep(rows, ce, n);
    FullSnoc(Batches(ChunkEvents(rows, ce, n - Chunk)), rows[..n - Chunk], rows[n - Chunk..n]);
    SliceSplit(rows, n - Chunk, n);
  }

  lemma SliceSnoc(rows: seq<Row>, a: nat, i: nat)
    requires a <= i < |rows|
    ensures rows[a..i] + [rows[i]] == rows[a..i + 1]
  {
  }

  lemma SliceSplit(rows: seq<Row>, a: nat, b: nat)
    requires a <= b <= |rows|
    ensures rows[..a] + rows[a..b] == rows[..b]
  {
  }

  lemma FullSnoc(prev: seq<seq<Row>>, done: seq<Row>, chunk: seq<Row>)
    requires Flatten(prev) == done && AllFull(prev) && |chunk| == Chunk
    ensures Flatten(prev + [chunk]) == done + chunk && AllFull(prev + [chunk])
  {
    FlattenAppend(prev, [chunk]);
    OneBatch(chunk);
    AllFullSnoc(prev, chunk);
  }

  /** One more full chunk adds its batch and its rows. */
  lemma ChunkStep(rows: seq<Row>, ce: nat, n: nat)
    requires ce > 0 && Chunk <= n <= |rows| && Flushed(n) == n
    ensures Flushed(n - Chunk) == n - Chunk
    ensures Batches(ChunkEvents(rows, ce, n)) == Batches(ChunkEvents(rows, ce, n - Chunk)) + [rows[n - Chunk..n]]
    ensures Size(ChunkEvents(rows, ce, n)) == Size(ChunkEvents(rows, ce, n - Chunk)) + Chunk
  {
    var prev := ChunkEvents(rows, ce, n - Chunk);
    var x := Event.ExecuteMany(rows[n - Chunk..n]);
    var tail := if n % ce == 0 then [Event.Commit] else [];
    assert ChunkEvents(rows, ce, n) == (prev + [x]) + tail;
    OneBatch(x.batch);
    BatchesAppend(prev, [x]);
    BatchesAppend(prev + [x], tail);
  }

  /** The events after the full chunks: the partial batch, if any, and the
      final commit. */
  function Rest(rows: seq<Row>): seq<Event> {
    var f := Flushed(|rows|);
    (if f < |rows| then [Event.ExecuteMany(rows[f..])] else []) + [Event.Commit]
  }

  lemma RestBatches(rows: seq<Row>)
    ensures var f := Flushed(|rows|);
      Batches(Rest(rows)) == (if f < |rows| then [rows[f..]] else [])
      && Size(Rest(rows)) == |rows| - f
  {
    var f := Flushed(|rows|);
    if f < |rows| {
      TwoEvents(rows[f..]);
    } else {
      NoEvents();
    }
  }

  lemma TwoEvents(b: seq<Row>)
    ensures Batches([Event.ExecuteMany(b)] + [Event.Commit]) == [b]
    ensures Size([Event.ExecuteMany(b)] + [Event.Commit]) == |b|
  {
    var ev := [Event.ExecuteMany(b)] + [Event.Commit];
    assert ev[..1] == [Event.ExecuteMany(b)];
    OneBatch(b);
  }

  lemma NoEvents()
    ensures Batches([] + [Event.Commit]) == [] && Size([] + [Event.Commit]) == 0
  {
    assert [] + [Event.Commit] == [Event.Commit];
    OneBatch([]);
  }

  lemma {:induction false} FlushedIsFlushed(n: nat)
    ensures Flushed(Flushed(n)) == Flushed(n)
    decreases n
  {
    if n >= Chunk {
      FlushedIsFlushed(n - Chunk);
      assert Flushed(n) >= Chunk;
      assert Flushed(n) - Chunk == Flushed(n - Chunk);
    }
  }

  /** The batches of a whole run: those of the full chunks, then the
      partial batch if any. */
  lemma InsertEventsBatches(rows: seq<Row>, ce: nat)
    requires ce > 0
    ensures var f := Flushed(|rows|);
      && Batches(InsertEvents(rows, ce)) == Batches(ChunkEvents(rows, ce, f)) + (if f < |rows| then [rows[f..]] else [])
      && Flatten(Batches(ChunkEvents(rows, ce, f))) == rows[..f]
      && AllFull(Batches(ChunkEvents(rows, ce, f)))
  {
    var f := Flushed(|rows|);
    var full := ChunkEvents(rows, ce, f);
    FlushedIsFlushed(|rows|);
    ChunkEventsBatches(rows, ce, f);
    RestBatches(rows);
    assert InsertEvents(rows, ce) == full + Rest(rows);
    BatchesAppend(full, Rest(rows));
  }

  /** Each row is inserted exactly once, in order: the batches concatenate to
      the input. */
  lemma InsertEventsRows(rows: seq<Row>, ce: nat)
    requires ce > 0
    ensures Flatten(Batches(InsertEvents(rows, ce))) == rows
  {
    var f := Flushed(|rows|);
    InsertEventsBatches(rows, ce);
    var full := Batches(ChunkEvents(rows, ce, f));
    if f < |rows| {
      FlattenAppend(full, [rows[f..]]);
      OneBatch(rows[f..]);
      assert rows[..f] + rows[f..] == rows;
    } else {
      assert full + [] == full;
      assert rows[..f] == rows;
    }
  }

  /** Every batch is non-empty and at most `Chunk` rows long, and all but the
      last are exactly `Chunk` rows long. */
  lemma InsertEventsSizes(rows: seq<Row>, ce: nat)
    requires ce > 0
    ensures var bs := Batches(InsertEvents(rows, ce));
      forall i :: 0 <= i < |bs| ==> 0 < |bs[i]| <= Chunk && (i < |bs| - 1 ==> |bs[i]| == Chunk)
  {
    var f := Flushed(|rows|);
    InsertEventsBatches(rows, ce);
    var full := Batches(ChunkEvents(rows, ce, f));
    var bs := Batches(InsertEvents(rows, ce));
    forall i | 0 <= i < |bs| ensures 0 < |bs[i]| <= Chunk && (i < |bs| - 1 ==> |bs[i]| == Chunk) {
      if i < |full| {
        AllFullAt(full, i);
        assert bs[i] == full[i];
      } else {
        assert bs[i] == rows[f..];
      }
    }
  }

  /** Event `j` of `ev` is a commit exactly when it follows the flush of a
      full chunk at which the rows inserted so far are a multiple of `ce`. */
  predicate CommitIffAt(ev: seq<Event>, ce: nat, j: nat)
    requires ce > 0 && j < |ev|
  {
    ev[j].Commit? <==> (j > 0 && FullFlush(ev[j - 1]) && Size(ev[..j]) % ce == 0)
  }

  /** `ev` does not end in a flush that calls for a commit. */
  predicate NoCommitDue(ev: seq<Event>, ce: nat)
    requires ce > 0
  {
    ev == [] || !FullFlush(ev[|ev| - 1]) || Size(ev) % ce != 0
  }

  lemma {:induction false} ChunkEventsEnd(rows: seq<Row>, ce: nat, n: nat)
    requires ce > 0 && n <= |rows| && Flushed(n) == n
    ensures NoCommitDue(ChunkEvents(rows, ce, n), ce)
  {
    if n >= Chunk {
      ChunkStep(rows, ce, n);
      ChunkEventsBatches(rows, ce, n);
    }
  }

  /** Appending events leaves the verdict at an earlier position as it was. */
  lemma CommitIffAtAppend(a: seq<Event>, b: seq<Event>, ce: nat, j: nat)
    requires ce > 0 && j < |a| && CommitIffAt(a, ce, j)
    ensures CommitIffAt(a + b, ce, j)
  {
    assert (a + b)[j] == a[j] && (a + b)[..j] == a[..j];
    if j > 0 {
      assert (a + b)[j - 1] == a[j - 1];
    }
  }

  /** A batch right after events that call for no commit is not a commit,
      as it should be. */
  lemma CommitIffAtBoundary(a: seq<Event>, b: seq<Event>, ce: nat)
    requires ce > 0 && b != [] && b[0].ExecuteMany? && NoCommitDue(a, ce)
    ensures CommitIffAt(a + b, ce, |a|)
  {
    assert (a + b)[..|a|] == a && (a + b)[|a|] == b[0];
    if a != [] {
      assert (a + b)[|a| - 1] == a[|a| - 1];
    }
  }

  /** A commit right after a full flush at a multiple of `ce` is due. */
  lemma CommitIffAtDue(a: seq<Event>, ce: nat, total: nat)
    requires ce > 0 && a != [] && FullFlush(a[|a| - 1]) && Size(a) == total && total % ce == 0
    ensures CommitIffAt(a + [Event.Commit], ce, |a|)
  {
    assert (a + [Event.Commit])[..|a|] == a && (a + [Event.Commit])[|a| - 1] == a[|a| - 1];
  }

  /** The chunks before a full chunk end at a multiple of `Chunk` too. */
  lemma FlushedPrev(n: nat)
    requires Chunk <= n && Flushed(n) == n
    ensures Flushed(n - Chunk) == n - Chunk
  {
  }

  lemma EventsAssoc(a: seq<Event>, b: seq<Event>, c: seq<Event>)
    ensures a + b + c == a + (b + c)
  {
  }

  /** Each event among the full chunks is a commit exactly when it is due. */
  lemma {:induction false} ChunkEventsCommitAt(rows: seq<Row>, ce: nat, n: nat, j: nat)
    requires ce > 0 && n <= |rows| && Flushed(n) == n && j < |ChunkEvents(rows, ce, n)|
    ensures CommitIffAt(ChunkEvents(rows, ce, n), ce, j)
    decreases n, 1
  {
    var p := |ChunkEvents(rows, ce, n - Chunk)|;
    assert |ChunkEvents(rows, ce, n)| == p + 1 + (if n % ce == 0 then 1 else 0);
    if j < p {
      CommitAtEarlier(rows, ce, n, j);
    } else if j == p {
      CommitAtFlush(rows, ce, n);
    } else {
      CommitAtCommit(rows, ce, n);
    }
  }

  /** An event before the last chunk keeps the verdict it had. */
  lemma {:induction false} CommitAtEarlier(rows: seq<Row>, ce: nat, n: nat, j: nat)
    requires ce > 0 && Chunk <= n <= |rows| && Flushed(n) == n && j < |ChunkEvents(rows, ce, n - Chunk)|
    ensures CommitIffAt(ChunkEvents(rows, ce, n), ce, j)
    decreases n, 0
  {
    FlushedPrev(n);
    var prev := ChunkEvents(rows, ce, n - Chunk);
    var x := Event.ExecuteMany(rows[n - Chunk..n]);
    var tail := if n % ce == 0 then [Event.Commit] else [];
    assert ChunkEvents(rows, ce, n) == prev + [x] + tail;
    ChunkEventsCommitAt(rows, ce, n - Chunk, j);
    CommitIffAtAppend(prev, [x], ce, j);
    CommitIffAtAppend(prev + [x], tail, ce, j);
  }

  /** The flush of the last chunk is not a commit, and none was due. */
  lemma CommitAtFlush(rows: seq<Row>, ce: nat, n: nat)
    requires ce > 0 && Chunk <= n <= |rows| && Flushed(n) == n
    ensures |ChunkEvents(rows, ce, n - Chunk)| < |ChunkEvents(rows, ce, n)|
    ensures CommitIffAt(ChunkEvents(rows, ce, n), ce, |ChunkEvents(rows, ce, n - Chunk)|)
  {
    FlushedPrev(n);
    var prev := ChunkEvents(rows, ce, n - Chunk);
    var x := Event.ExecuteMany(rows[n - Chunk..n]);
    var tail := if n % ce == 0 then [Event.Commit] else [];
    assert ChunkEvents(rows, ce, n) == prev + [x] + tail;
    ChunkEventsEnd(rows, ce, n - Chunk);
    CommitIffAtBoundary(prev, [x] + tail, ce);
    EventsAssoc(prev, [x], tail);
  }

  /** The commit after the last chunk is due: it follows a full flush at a
      multiple of `ce`. */
  lemma CommitAtCommit(rows: seq<Row>, ce: nat, n: nat)
    requires ce > 0 && Chunk <= n <= |rows| && Flushed(n) == n && n % ce == 0
    ensures |ChunkEvents(rows, ce, n - Chunk)| + 1 < |ChunkEvents(rows, ce, n)|
    ensures CommitIffAt(ChunkEvents(rows, ce, n), ce, |ChunkEvents(rows, ce, n - Chunk)| + 1)
  {
    FlushedPrev(n);
    var prev := ChunkEvents(rows, ce, n - Chunk);
    var x := Event.ExecuteMany(rows[n - Chunk..n]);
    assert ChunkEvents(rows, ce, n) == prev + [x] + [Event.Commit];
    ChunkEventsBatches(rows, ce, n - Chunk);
    OneBatch(x.batch);
    BatchesAppend(prev, [x]);
    CommitIffAtDue(prev + [x], ce, n);
  }

  /** The last call is the final commit; before it, each call is a commit
      exactly when it follows the flush of a full chunk at which the running
      total is a multiple of `ce`. */
  lemma InsertEventsCommits(rows: seq<Row>, ce: nat)
    requires ce > 0
    ensures var ev := InsertEvents(rows, ce);
      ev[|ev| - 1] == Event.Commit
      && forall j :: 0 <= j < |ev| - 1 ==> CommitIffAt(ev, ce, j)
  {
    var f := Flushed(|rows|);
    var full := ChunkEvents(rows, ce, f);
    var rest := if f < |rows| then [Event.ExecuteMany(rows[f..])] else [];
    FlushedIsFlushed(|rows|);
    EventsAssoc(full, rest, [Event.Commit]);
    var ev := full + (rest + [Event.Commit]);
    assert ev == InsertEvents(rows, ce);
    forall j | 0 <= j < |ev| - 1 ensures CommitIffAt(ev, ce, j) {
      if j < |full| {
        ChunkEventsCommitAt(rows, ce, f, j);
        CommitIffAtAppend(full, rest + [Event.Commit], ce, j);
      } else {
        ChunkEventsEnd(rows, ce, f);
        CommitIffAtBoundary(full, rest + [Event.Commit], ce);
      }
    }
  }
}
