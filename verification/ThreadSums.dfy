/**
 * Per-thread sums of chunk vectors, kept by deltas, against the sums read anew from
 * every chunk vector of the thread. Vectors are integers in units of the smallest float.
 */
module ThreadSums {
  import opened Wrappers

  type ChunkId = string
  type Thread = string
  type Claimant = string
  type Payload = string
  type Vector = seq<int>

  datatype Chunk = Chunk(claimant: Claimant, thread: Thread, slice: Option<Payload>)

  /** A sum and the number of vectors in it. */
  datatype Sum = Sum(total: Vector, count: int)

  /** A stored sums row; one written under another encoding cannot be read. */
  datatype Stored = Readable(sum: Sum) | Unreadable

  // ----- vectors ---------------------------------------------------------------------------

  function Zero(dim: nat): Vector {
    seq(dim, _ => 0)
  }

  /** `add_units`: `a + sign * b`. */
  function AddUnits(a: Vector, b: Vector, sign: int): (r: Vector)
    requires |a| == |b|
    ensures |r| == |a|
  {
    seq(|a|, i requires 0 <= i < |a| => if sign >= 0 then a[i] + b[i] else a[i] - b[i])
  }

  function Plus(a: Sum, b: Sum): Sum
    requires |a.total| == |b.total|
  {
    Sum(AddUnits(a.total, b.total, 1), a.count + b.count)
  }

  function One(v: Vector, sign: int): Sum {
    Sum(AddUnits(Zero(|v|), v, sign), if sign >= 0 then 1 else -1)
  }

  lemma PlusAssoc(a: Sum, b: Sum, c: Sum)
    requires |a.total| == |b.total| == |c.total|
    ensures Plus(Plus(a, b), c) == Plus(a, Plus(b, c))
  {
    assert Plus(Plus(a, b), c).total == Plus(a, Plus(b, c)).total;
  }

  lemma PlusComm(a: Sum, b: Sum)
    requires |a.total| == |b.total|
    ensures Plus(a, b) == Plus(b, a)
  {
    assert Plus(a, b).total == Plus(b, a).total;
  }

  lemma PlusNothing(a: Sum)
    ensures Plus(a, Sum(Zero(|a.total|), 0)) == a
  {
    assert Plus(a, Sum(Zero(|a.total|), 0)).total == a.total;
  }

  lemma PlusAndMinus(a: Sum, v: Vector)
    requires |a.total| == |v|
    ensures Plus(Plus(a, One(v, 1)), One(v, -1)) == a
  {
    assert Plus(Plus(a, One(v, 1)), One(v, -1)).total == a.total;
  }

  // ----- the exact sum -----------------------------------------------------------------------

  ghost predicate Shaped(vec: map<ChunkId, Vector>, dim: nat) {
    forall id | id in vec :: |vec[id]| == dim
  }

  ghost function Total(ids: set<ChunkId>, vec: map<ChunkId, Vector>, dim: nat): (r: Sum)
    requires ids <= vec.Keys && Shaped(vec, dim)
    ensures |r.total| == dim
  {
    if ids == {} then Sum(Zero(dim), 0)
    else
      var id :| id in ids;
      Plus(Total(ids - {id}, vec, dim), One(vec[id], 1))
  }

  lemma {:induction false} TotalWithout(ids: set<ChunkId>, vec: map<ChunkId, Vector>, dim: nat, id: ChunkId)
    requires ids <= vec.Keys && Shaped(vec, dim) && id in ids
    ensures Total(ids, vec, dim) == Plus(Total(ids - {id}, vec, dim), One(vec[id], 1))
  {
    var first :| first in ids && Total(ids, vec, dim) == Plus(Total(ids - {first}, vec, dim), One(vec[first], 1));
    if first != id {
      var both := ids - {first} - {id};
      assert both == ids - {id} - {first};
      TotalWithout(ids - {first}, vec, dim, id);
      TotalWithout(ids - {id}, vec, dim, first);
      var rest, a, b := Total(both, vec, dim), One(vec[id], 1), One(vec[first], 1);
      PlusAssoc(rest, a, b);
      PlusAssoc(rest, b, a);
      PlusComm(a, b);
    }
  }

  lemma TotalOneMore(ids: set<ChunkId>, vec: map<ChunkId, Vector>, dim: nat, id: ChunkId)
    requires ids <= vec.Keys && Shaped(vec, dim) && id in vec && id !in ids
    ensures var sum := Total(ids, vec, dim);
            Total(ids + {id}, vec, dim) == Sum(AddUnits(sum.total, vec[id], 1), sum.count + 1)
  {
    TotalWithout(ids + {id}, vec, dim, id);
    assert ids + {id} - {id} == ids;
    var sum := Total(ids, vec, dim);
    assert AddUnits(sum.total, vec[id], 1) == Plus(sum, One(vec[id], 1)).total;
  }

  /** Only the vectors summed matter. */
  lemma {:induction false} TotalAgrees(ids: set<ChunkId>, a: map<ChunkId, Vector>, b: map<ChunkId, Vector>, dim: nat)
    requires ids <= a.Keys && ids <= b.Keys && Shaped(a, dim) && Shaped(b, dim) && forall id | id in ids ::
            a[id] == b[id]
    ensures Total(ids, a, dim) == Total(ids, b, dim)
  {
    if ids != {} {
      var id :| id in ids;
      TotalWithout(ids, a, dim, id);
      TotalWithout(ids, b, dim, id);
      TotalAgrees(ids - {id}, a, b, dim);
    }
  }

  lemma {:induction false} TotalCounts(ids: set<ChunkId>, vec: map<ChunkId, Vector>, dim: nat)
    requires ids <= vec.Keys && Shaped(vec, dim)
    ensures Total(ids, vec, dim).count == |ids|
  {
    if ids != {} {
      var id :| id in ids;
      TotalWithout(ids, vec, dim, id);
      TotalCounts(ids - {id}, vec, dim);
    }
  }

  /** The rows the thread-wide read joins. */
  function Members(chunks: map<ChunkId, Chunk>, vec: map<ChunkId, Vector>, t: Thread): set<ChunkId> {
    set id | id in chunks && id in vec && chunks[id].thread == t
  }

  ghost function Exact(chunks: map<ChunkId, Chunk>, vec: map<ChunkId, Vector>, dim: nat, t: Thread): (r: Sum)
    requires Shaped(vec, dim)
    ensures |r.total| == dim
  {
    Total(Members(chunks, vec, t), vec, dim)
  }

  ghost predicate Agree(chunks: map<ChunkId, Chunk>, vec: map<ChunkId, Vector>, sums: map<Thread, Stored>, dim: nat)
    requires Shaped(vec, dim)
  {
    forall t | t in sums && sums[t].Readable? :: sums[t].sum == Exact(chunks, vec, dim, t)
  }

  // ----- deltas ------------------------------------------------------------------------------

  type Deltas = map<Thread, Sum>

  /** `_SumDeltas.add`. */
  function AddDelta(deltas: Deltas, t: Thread, v: Vector, sign: int): Deltas
    requires t in deltas ==> |deltas[t].total| == |v|
  {
    var before := if t in deltas then deltas[t] else Sum(Zero(|v|), 0);
    deltas[t := Sum(AddUnits(before.total, v, sign), before.count + sign)]
  }

  ghost predicate DeltasShaped(deltas: Deltas, dim: nat) {
    forall t | t in deltas :: |deltas[t].total| == dim
  }

  function DeltaOf(deltas: Deltas, dim: nat, t: Thread): Sum {
    if t in deltas then deltas[t] else Sum(Zero(dim), 0)
  }

  /** The deltas are the difference, thread by thread, between two states of the rows. */
  ghost predicate Balanced(deltas: Deltas, chunks: map<ChunkId, Chunk>, vec: map<ChunkId, Vector>,
                           nowChunks: map<ChunkId, Chunk>, nowVec: map<ChunkId, Vector>, dim: nat)
    requires Shaped(vec, dim) && Shaped(nowVec, dim)
  {
    && DeltasShaped(deltas, dim)
    && forall t :: BalancedFor(deltas, chunks, vec, nowChunks, nowVec, dim, t)
  }

  ghost predicate BalancedFor(deltas: Deltas, chunks: map<ChunkId, Chunk>, vec: map<ChunkId, Vector>,
                              nowChunks: map<ChunkId, Chunk>, nowVec: map<ChunkId, Vector>, dim: nat, t: Thread)
    requires Shaped(vec, dim) && Shaped(nowVec, dim) && DeltasShaped(deltas, dim)
  {
    Exact(nowChunks, nowVec, dim, t) == Plus(Exact(chunks, vec, dim, t), DeltaOf(deltas, dim, t))
  }

  lemma StartsBalanced(chunks: map<ChunkId, Chunk>, vec: map<ChunkId, Vector>, dim: nat)
    requires Shaped(vec, dim)
    ensures Balanced(map[], chunks, vec, chunks, vec, dim)
  {
    forall t ensures BalancedFor(map[], chunks, vec, chunks, vec, dim, t) {
      PlusNothing(Exact(chunks, vec, dim, t));
    }
  }

  lemma DeltaAdded(deltas: Deltas, dim: nat, t: Thread, v: Vector, sign: int, u: Thread)
    requires DeltasShaped(deltas, dim) && |v| == dim && (sign == 1 || sign == -1)
    ensures DeltasShaped(AddDelta(deltas, t, v, sign), dim)
    ensures DeltaOf(AddDelta(deltas, t, v, sign), dim, u) ==
            if u == t then Plus(DeltaOf(deltas, dim, u), One(v, sign)) else DeltaOf(deltas, dim, u)
  {
    var before := DeltaOf(deltas, dim, t);
    assert AddUnits(before.total, v, sign) == Plus(before, One(v, sign)).total;
  }

  lemma InsertBalances(deltas: Deltas, chunks: map<ChunkId, Chunk>, vec: map<ChunkId, Vector>,
                       nowChunks: map<ChunkId, Chunk>, nowVec: map<ChunkId, Vector>, dim: nat, id: ChunkId, row: Chunk,
                       v: Vector)
    requires Shaped(vec, dim) && Shaped(nowVec, dim) && |v| == dim && id !in nowChunks && id !in nowVec
    requires Balanced(deltas, chunks, vec, nowChunks, nowVec, dim)
    ensures DeltasShaped(deltas, dim)
    ensures Balanced(AddDelta(deltas, row.thread, v, 1), chunks, vec, nowChunks[id := row], nowVec[id := v], dim)
  {
    var chunks', vec', deltas' := nowChunks[id := row], nowVec[id := v], AddDelta(deltas, row.thread, v, 1);
    assert DeltasShaped(deltas', dim) by { DeltaAdded(deltas, dim, row.thread, v, 1, row.thread); }
    forall t ensures BalancedFor(deltas', chunks, vec, chunks', vec', dim, t) {
      assert BalancedFor(deltas, chunks, vec, nowChunks, nowVec, dim, t);
      DeltaAdded(deltas, dim, row.thread, v, 1, t);
      var members, members' := Members(nowChunks, nowVec, t), Members(chunks', vec', t);
      if t == row.thread {
        assert members' == members + {id};
        TotalWithout(members', vec', dim, id);
        assert members' - {id} == members;
        PlusAssoc(Exact(chunks, vec, dim, t), DeltaOf(deltas, dim, t), One(v, 1));
      } else {
        assert members' == members;
      }
      TotalAgrees(members, nowVec, vec', dim);
    }
  }

  lemma DeleteBalances(deltas: Deltas, chunks: map<ChunkId, Chunk>, vec: map<ChunkId, Vector>,
                       nowChunks: map<ChunkId, Chunk>, nowVec: map<ChunkId, Vector>, dim: nat, id: ChunkId)
    requires Shaped(vec, dim) && Shaped(nowVec, dim) && id in nowChunks && id in nowVec
    requires Balanced(deltas, chunks, vec, nowChunks, nowVec, dim)
    ensures Shaped(nowVec - {id}, dim) && DeltasShaped(deltas, dim)
    ensures Balanced(AddDelta(deltas, nowChunks[id].thread, nowVec[id], -1), chunks, vec, nowChunks, nowVec - {id}, dim)
  {
    var vec', v, thread := nowVec - {id}, nowVec[id], nowChunks[id].thread;
    var deltas' := AddDelta(deltas, thread, v, -1);
    assert DeltasShaped(deltas', dim) by { DeltaAdded(deltas, dim, thread, v, -1, thread); }
    forall t ensures BalancedFor(deltas', chunks, vec, nowChunks, vec', dim, t) {
      assert BalancedFor(deltas, chunks, vec, nowChunks, nowVec, dim, t);
      DeltaAdded(deltas, dim, thread, v, -1, t);
      var members, members' := Members(nowChunks, nowVec, t), Members(nowChunks, vec', t);
      TotalAgrees(members', nowVec, vec', dim);
      if t == thread {
        assert members' == members - {id};
        TotalWithout(members, nowVec, dim, id);
        PlusAndMinus(Exact(nowChunks, vec', dim, t), v);
        PlusAssoc(Exact(chunks, vec, dim, t), DeltaOf(deltas, dim, t), One(v, -1));
      } else {
        assert members' == members;
      }
    }
  }

  /** Rows without a vector count for nothing. */
  lemma RowsWithoutVectors(chunks: map<ChunkId, Chunk>, vec: map<ChunkId, Vector>, nowChunks: map<ChunkId, Chunk>,
                           dim: nat)
    requires Shaped(vec, dim)
    requires forall id | id in vec ::
        (id in chunks) == (id in nowChunks) && (id in chunks ==> chunks[id].thread == nowChunks[id].thread)
    ensures forall t :: Exact(nowChunks, vec, dim, t) == Exact(chunks, vec, dim, t)
  {
    forall t ensures Exact(nowChunks, vec, dim, t) == Exact(chunks, vec, dim, t) {
      assert Members(nowChunks, vec, t) == Members(chunks, vec, t);
    }
  }

  lemma ExactCounts(chunks: map<ChunkId, Chunk>, vec: map<ChunkId, Vector>, dim: nat, t: Thread)
    requires Shaped(vec, dim)
    ensures var sum := Exact(chunks, vec, dim, t);
            sum.count == |Members(chunks, vec, t)| && (sum.count == 0 ==> sum.total == Zero(dim))
  {
    TotalCounts(Members(chunks, vec, t), vec, dim);
  }

  ghost predicate RowKeys(chunks: map<ChunkId, Chunk>, summed: set<Thread>, threads: set<Thread>,
                          messages: set<Claimant>) {
    && summed <= threads
    && forall id | id in chunks :: chunks[id].thread in threads && chunks[id].claimant in messages
  }

  datatype NewChunk = NewChunk(id: ChunkId, attachment: bool)

  function Ids(chunks: seq<NewChunk>): set<ChunkId> {
    set i | 0 <= i < |chunks| :: chunks[i].id
  }

  // ----- the operations -------------------------------------------------------------------------------

  datatype Tables = Tables(chunks: map<ChunkId, Chunk>, vec: map<ChunkId, Vector>, sums: map<Thread, Stored>,
                           threads: set<Thread>, threadOf: map<Claimant, Thread>)

  datatype Operation =
    | Track(c: Claimant, t: Thread)
    | Replace(c: Claimant, t: Thread, slice: Option<Payload>, incoming: seq<NewChunk>, embeddings: map<ChunkId, Vector>,
              deleteMissing: bool)
    | DeleteSlice(c: Claimant, only: Option<Payload>)
    | Remove(c: Claimant)
    | ReadSums(t: Thread)
    | Repair(t: Thread)
    | Delete(t: Thread)
    | Lose(t: Thread)
    | Garble(t: Thread)

  /** The vector length, the threads and the messages a new chunk row must fit. */
  datatype Known = Known(dim: nat, threads: set<Thread>, messages: set<Claimant>)

  /** Chunk `i`, not stored yet, can be inserted: it has a vector, its id is free, and its keys exist. */
  ghost predicate Insertable(k: Known, rows: map<ChunkId, Chunk>, vectors: map<ChunkId, Vector>, c: Claimant, t: Thread,
                             incoming: seq<NewChunk>,
                             existing: set<ChunkId>, i: nat, embeddings: map<ChunkId, Vector>)
    requires i < |incoming|
  {
    var id := incoming[i].id;
    && id in embeddings && |embeddings[id]| == k.dim
    && id !in rows && id !in vectors
    && (forall j | 0 <= j < i :: incoming[j].id != id)
    && t in k.threads && c in k.messages
  }

  ghost predicate AllInsertable(k: Known, rows: map<ChunkId, Chunk>, vectors: map<ChunkId, Vector>, c: Claimant,
                                t: Thread,
                                incoming: seq<NewChunk>,
                                existing: set<ChunkId>, n: nat, embeddings: map<ChunkId, Vector>)
    requires n <= |incoming|
  {
    forall i | 0 <= i < n && incoming[i].id !in existing ::
        Insertable(k, rows, vectors, c, t, incoming, existing, i, embeddings)
  }

  lemma AllInsertableGrows(k: Known, rows: map<ChunkId, Chunk>, vectors: map<ChunkId, Vector>, c: Claimant, t: Thread,
                           incoming: seq<NewChunk>,
                           existing: set<ChunkId>, n: nat, embeddings: map<ChunkId, Vector>)
    requires n < |incoming| && AllInsertable(k, rows, vectors, c, t, incoming, existing, n, embeddings)
    ensures AllInsertable(k, rows, vectors, c, t, incoming, existing, n + 1, embeddings) <==>
            (incoming[n].id !in existing ==> Insertable(k, rows, vectors, c, t, incoming, existing, n, embeddings))
  {
    hide Insertable;
  }

  lemma NotAllInsertable(k: Known, rows: map<ChunkId, Chunk>, vectors: map<ChunkId, Vector>, c: Claimant, t: Thread,
                         incoming: seq<NewChunk>,
                         existing: set<ChunkId>, i: nat, embeddings: map<ChunkId, Vector>)
    requires i < |incoming| && incoming[i].id !in existing
    requires !Insertable(k, rows, vectors, c, t, incoming, existing, i, embeddings)
    ensures !AllInsertable(k, rows, vectors, c, t, incoming, existing, |incoming|, embeddings)
  {
    hide Insertable;
  }

  /** What the insert finds in the tables by then says whether the chunk was insertable. */
  lemma InsertableNow(k: Known, rows: map<ChunkId, Chunk>, vectors: map<ChunkId, Vector>, c: Claimant, t: Thread,
                      incoming: seq<NewChunk>, existing: set<ChunkId>, i: nat, embeddings: map<ChunkId, Vector>,
                      row: Chunk, added: set<ChunkId>)
    requires i < |incoming| && incoming[i].id !in existing && added == Ids(incoming[..i]) - existing
    requires AllInsertable(k, rows, vectors, c, t, incoming, existing, i, embeddings)
    ensures var id := incoming[i].id;
            Insertable(k, rows, vectors, c, t, incoming, existing, i, embeddings) <==>
            (id in embeddings && |embeddings[id]| == k.dim && id !in WithRows(rows, added, row)
             && id !in WithVectors(vectors, added, embeddings) && t in k.threads && c in k.messages)
  {
    var id := incoming[i].id;
    assert id in added <==> exists j :: 0 <= j < i && incoming[j].id == id by {
      forall j | 0 <= j < i ensures incoming[j].id in Ids(incoming[..i]) {
        assert incoming[..i][j] == incoming[j];
      }
    }
  }

  /** The rows a replacement deletes. */
  function Gone(chunks: map<ChunkId, Chunk>, op: Operation): set<ChunkId>
    requires op.Replace?
  {
    if op.deleteMissing then Existing(chunks, op.c, op.slice) - Ids(op.incoming) else {}
  }

  function Added(chunks: map<ChunkId, Chunk>, op: Operation): set<ChunkId>
    requires op.Replace?
  {
    Ids(op.incoming) - Existing(chunks, op.c, op.slice)
  }

  ghost predicate CanReplace(dim: nat, s: Tables, op: Operation)
    requires op.Replace?
  {
    var gone := Gone(s.chunks, op);
    && (forall i | 0 <= i < |op.incoming| :: op.incoming[i].attachment == op.slice.Some?)
    && AllInsertable(Known(dim, s.threads, s.threadOf.Keys), s.chunks - gone, s.vec - gone, op.c, op.t, op.incoming,
                     Existing(s.chunks, op.c, op.slice), |op.incoming|, op.embeddings)
  }

  /** The threads of the vectors that go with these rows. */
  function Touched(chunks: map<ChunkId, Chunk>, vec: map<ChunkId, Vector>, gone: set<ChunkId>): set<Thread> {
    set id | id in gone && id in chunks && id in vec :: chunks[id].thread
  }

  /** The touched threads' sums are read anew, and the others are as they were. */
  ghost function Resummed(sums: map<Thread, Stored>, chunks: map<ChunkId, Chunk>, vec: map<ChunkId, Vector>, dim: nat,
                          touched: set<Thread>): map<Thread, Stored>
    requires Shaped(vec, dim)
  {
    map t | t in sums.Keys + touched :: if t in touched then Readable(Exact(chunks, vec, dim, t)) else sums[t]
  }

  /** A replacement that goes through. */
  ghost function Replaced(dim: nat, s: Tables, op: Operation): Tables
    requires op.Replace? && Shaped(s.vec, dim) && CanReplace(dim, s, op)
  {
    var gone, added := Gone(s.chunks, op), Added(s.chunks, op);
    var chunks := WithRows(s.chunks - gone, added, Chunk(op.c, op.t, op.slice));
    var vec := WithVectors(s.vec - gone, added, op.embeddings);
    ReplacedIsShaped(dim, s, op);
    var touched := Touched(s.chunks, s.vec, gone) + if added == {} then {} else {op.t};
    s.(chunks := chunks, vec := vec, sums := Resummed(s.sums, chunks, vec, dim, touched))
  }

  lemma ReplacedIsShaped(dim: nat, s: Tables, op: Operation)
    requires op.Replace? && Shaped(s.vec, dim) && CanReplace(dim, s, op)
    ensures Shaped(WithVectors(s.vec - Gone(s.chunks, op), Added(s.chunks, op), op.embeddings), dim)
  {
    forall id | id in Added(s.chunks, op) ensures id in op.embeddings && |op.embeddings[id]| == dim {
      var i :| 0 <= i < |op.incoming| && op.incoming[i].id == id;
      assert op.incoming[i].id !in Existing(s.chunks, op.c, op.slice);
    }
  }

  /** The selected chunk rows and vectors go, and the sums follow. */
  ghost function Without(dim: nat, s: Tables, gone: set<ChunkId>): Tables
    requires Shaped(s.vec, dim)
  {
    s.(chunks := s.chunks - gone, vec := s.vec - gone,
       sums := Resummed(s.sums, s.chunks - gone, s.vec - gone, dim, Touched(s.chunks, s.vec, gone)))
  }

  /** What an operation leaves; one that fails leaves everything. */
  ghost function Next(dim: nat, s: Tables, op: Operation): (n: Tables)
    requires Shaped(s.vec, dim)
    ensures Shaped(n.vec, dim)
  {
    match op
    case Track(c, t) =>
      s.(threads := s.threads + {t}, threadOf := s.threadOf[c := t],
         sums := if t in s.threads then s.sums else s.sums[t := Readable(Sum(Zero(dim), 0))])
    case Replace(_, _, _, _, _, _) =>
      if CanReplace(dim, s, op) then ReplacedIsShaped(dim, s, op); Replaced(dim, s, op) else s
    case DeleteSlice(c, only) => Without(dim, s, Selected(s.chunks, c, only))
    case Remove(c) => Without(dim, s, Selected(s.chunks, c, None)).(threadOf := s.threadOf - {c})
    case ReadSums(t) =>
      if t in s.threads && !(t in s.sums && s.sums[t].Readable?) then
        s.(sums := Resummed(s.sums, s.chunks, s.vec, dim, {t}))
      else s
    case Repair(t) =>
      if t in s.threads then s.(sums := Resummed(s.sums, s.chunks, s.vec, dim, {t})) else s
    case Delete(t) =>
      Tables(map id | id in s.chunks && s.chunks[id].thread != t && !OfThread(s.threadOf, t, s.chunks[id].claimant) ::
               s.chunks[id],
             s.vec - OfThreadRows(s.chunks, t), s.sums - {t}, s.threads - {t},
             map c | c in s.threadOf && s.threadOf[c] != t :: s.threadOf[c])
    // a thread stored before its sum was, and a sum in another encoding
    case Lose(t) => s.(sums := s.sums - {t})
    case Garble(t) => if t in s.sums then s.(sums := s.sums[t := Unreadable]) else s
  }

  /** The rows obey their keys, and every readable sum is the exact one. */
  ghost predicate Ok(dim: nat, s: Tables) {
    && Shaped(s.vec, dim) && Agree(s.chunks, s.vec, s.sums, dim)
    && RowKeys(s.chunks, s.sums.Keys, s.threads, s.threadOf.Keys)
  }

  /** A whole-thread delete that takes a vectored row of another, summed, thread. */
  ghost predicate Spoils(s: Tables, op: Operation) {
    op.Delete? && exists id :: Strays(s.chunks, s.vec, s.sums, s.threadOf, op.t, id)
  }

  /** Just the spoiling deletes leave a sum that is not the exact one. */
  lemma NextKeeps(dim: nat, s: Tables, op: Operation)
    requires Ok(dim, s)
    ensures Ok(dim, Next(dim, s, op)) <==> !Spoils(s, op)
  {
    hide Exact, Strays, Shaped, Agree, RowKeys, CanReplace;
    match op
    case Track(c, t) => TrackKeeps(dim, s, c, t);
    case Replace(_, _, _, _, _, _) => if CanReplace(dim, s, op) { ReplaceKeeps(dim, s, op); }
    case DeleteSlice(c, only) => WithoutKeeps(dim, s, Selected(s.chunks, c, only));
    case Remove(c) =>
      WithoutKeeps(dim, s, Selected(s.chunks, c, None));
      RemoveKeepsKeys(dim, s, c);
    case ReadSums(t) => if t in s.threads { FillKeeps(dim, s, t); }
    case Repair(t) => if t in s.threads { FillKeeps(dim, s, t); }
    case Delete(t) =>
      var n := Next(dim, s, op);
      ThreadGone(s.chunks, s.vec, s.sums, s.threadOf, t, n.chunks, dim);
      ThreadGoneKeys(s.chunks, s.sums, s.threads, s.threadOf, t, n.chunks);
      assert n.threadOf.Keys == (s.threadOf - (set c | c in s.threadOf && s.threadOf[c] == t)).Keys;
    case Lose(t) => FewerKeep(dim, s, t);
    case Garble(t) => FewerKeep(dim, s, t);
  }

  lemma FewerKeep(dim: nat, s: Tables, t: Thread)
    requires Ok(dim, s)
    ensures Ok(dim, Next(dim, s, Lose(t))) && Ok(dim, Next(dim, s, Garble(t)))
  {
    hide Shaped, Exact;
  }

  lemma TrackKeeps(dim: nat, s: Tables, c: Claimant, t: Thread)
    requires Ok(dim, s)
    ensures Ok(dim, Next(dim, s, Track(c, t)))
  {
    hide Shaped;
    assert t !in s.threads ==> Members(s.chunks, s.vec, t) == {};
  }

  lemma FillKeeps(dim: nat, s: Tables, t: Thread)
    requires Ok(dim, s) && t in s.threads
    ensures Ok(dim, s.(sums := Resummed(s.sums, s.chunks, s.vec, dim, {t})))
  {
    hide Shaped, Exact;
  }

  lemma RemoveKeepsKeys(dim: nat, s: Tables, c: Claimant)
    requires Shaped(s.vec, dim)
    ensures var n := Without(dim, s, Selected(s.chunks, c, None));
      RowKeys(n.chunks, n.sums.Keys, s.threads, s.threadOf.Keys) ==>
      RowKeys(n.chunks, n.sums.Keys, s.threads, (s.threadOf - {c}).Keys)
  {
  }

  /** A thread none of whose vectored rows come or go keeps its exact sum. */
  lemma UntouchedIsSame(chunks: map<ChunkId, Chunk>, vec: map<ChunkId, Vector>, nowChunks: map<ChunkId, Chunk>,
                        nowVec: map<ChunkId, Vector>, dim: nat, t: Thread)
    requires Shaped(vec, dim) && Shaped(nowVec, dim)
    requires Members(nowChunks, nowVec, t) == Members(chunks, vec, t)
    requires forall id | id in Members(chunks, vec, t) :: nowVec[id] == vec[id]
    ensures Exact(nowChunks, nowVec, dim, t) == Exact(chunks, vec, dim, t)
  {
    TotalAgrees(Members(chunks, vec, t), vec, nowVec, dim);
  }

  lemma WithoutKeeps(dim: nat, s: Tables, gone: set<ChunkId>)
    requires Ok(dim, s)
    ensures Ok(dim, Without(dim, s, gone))
  {
    hide Exact;
    var n, touched := Without(dim, s, gone), Touched(s.chunks, s.vec, gone);
    forall t | t in n.sums && n.sums[t].Readable? ensures n.sums[t].sum == Exact(n.chunks, n.vec, dim, t) {
      if t !in touched {
        assert Members(n.chunks, n.vec, t) == Members(s.chunks, s.vec, t);
        UntouchedIsSame(s.chunks, s.vec, n.chunks, n.vec, dim, t);
      }
    }
  }

  lemma ReplaceKeeps(dim: nat, s: Tables, op: Operation)
    requires Ok(dim, s) && op.Replace? && CanReplace(dim, s, op)
    ensures Ok(dim, Replaced(dim, s, op))
  {
    hide Exact, Agree, CanReplace, Shaped;
    var n, gone, added := Replaced(dim, s, op), Gone(s.chunks, op), Added(s.chunks, op);
    ReplacedIsShaped(dim, s, op);
    AddedAreNew(dim, s, op);
    ReplacedAgrees(dim, s, n, gone, added, Chunk(op.c, op.t, op.slice), op.embeddings);
  }

  /** Rows that go and rows that come, each under one thread, change no other thread's exact sum. */
  lemma ReplacedAgrees(dim: nat, s: Tables, n: Tables, gone: set<ChunkId>, added: set<ChunkId>, row: Chunk,
                       embeddings: map<ChunkId, Vector>)
    requires Shaped(s.vec, dim) && Shaped(n.vec, dim) && Agree(s.chunks, s.vec, s.sums, dim)
    requires forall id | id in added :: id in embeddings && id !in s.chunks - gone && id !in s.vec - gone
    requires n.chunks == WithRows(s.chunks - gone, added, row) && n.vec == WithVectors(s.vec - gone, added, embeddings)
    requires var touched := Touched(s.chunks, s.vec, gone) + if added == {} then {} else {row.thread};
      n.sums == Resummed(s.sums, n.chunks, n.vec, dim, touched)
    ensures Agree(n.chunks, n.vec, n.sums, dim)
  {
    hide Exact;
    forall t | t in s.sums && s.sums[t].Readable? && t !in Touched(s.chunks, s.vec, gone)
               && (added == {} || t != row.thread)
      ensures Exact(n.chunks, n.vec, dim, t) == Exact(s.chunks, s.vec, dim, t)
    {
      assert Members(n.chunks, n.vec, t) == Members(s.chunks, s.vec, t);
      UntouchedIsSame(s.chunks, s.vec, n.chunks, n.vec, dim, t);
    }
  }

  lemma AddedAreNew(dim: nat, s: Tables, op: Operation)
    requires op.Replace? && CanReplace(dim, s, op)
    ensures forall id | id in Added(s.chunks, op) ::
              id in op.embeddings && id !in s.chunks - Gone(s.chunks, op) && id !in s.vec - Gone(s.chunks, op)
    ensures Added(s.chunks, op) != {} ==> op.t in s.threads && op.c in s.threadOf
  {
    forall id | id in Added(s.chunks, op)
      ensures id in op.embeddings && id !in s.chunks - Gone(s.chunks, op) && id !in s.vec - Gone(s.chunks, op)
      ensures op.t in s.threads && op.c in s.threadOf
    {
      var i :| 0 <= i < |op.incoming| && op.incoming[i].id == id;
      assert op.incoming[i].id !in Existing(s.chunks, op.c, op.slice);
    }
  }

  // ----- what an operation leaves, row by row ----------------------------------------------------

  predicate Named(incoming: seq<NewChunk>, id: ChunkId) {
    exists i :: 0 <= i < |incoming| && incoming[i].id == id
  }

  /** The row and vector are what they were, if they were there. */
  ghost predicate SameRow(s: Tables, n: Tables, id: ChunkId) {
    && (id in n.chunks <==> id in s.chunks) && (id in n.chunks ==> n.chunks[id] == s.chunks[id])
    && (id in n.vec <==> id in s.vec) && (id in n.vec ==> n.vec[id] == s.vec[id])
  }

  /**
   * A replacement that goes through takes, of the message's body rows or of one payload's,
   * those that are not named again, if it deletes, and adds the named ones that were not
   * there, with their vectors; no other row changes.
   */
  lemma ReplaceLeaves(dim: nat, s: Tables, op: Operation, id: ChunkId)
    requires op.Replace? && Shaped(s.vec, dim) && CanReplace(dim, s, op)
    ensures var n := Next(dim, s, op);
      var own := id in s.chunks && s.chunks[id].claimant == op.c && s.chunks[id].slice == op.slice;
      && n.threads == s.threads && n.threadOf == s.threadOf
      && (if Named(op.incoming, id) && !own then
            && id in n.chunks && n.chunks[id] == Chunk(op.c, op.t, op.slice)
            && id in op.embeddings && id in n.vec && n.vec[id] == op.embeddings[id]
          else if own && !Named(op.incoming, id) && op.deleteMissing then id !in n.chunks && id !in n.vec
          else SameRow(s, n, id))
  {
    hide Exact, Shaped, CanReplace, Resummed, Touched;
    AddedAreNew(dim, s, op);
    assert id in Ids(op.incoming) <==> Named(op.incoming, id);
  }

  /** The other operations only take rows: of a message, of one of its payloads, or of a thread and its messages. */
  lemma DeletionLeaves(dim: nat, s: Tables, op: Operation)
    requires Shaped(s.vec, dim) && !op.Replace?
    ensures var n := Next(dim, s, op);
      match op
      case Track(c, t) =>
        && n.chunks == s.chunks && n.vec == s.vec && n.threadOf == s.threadOf[c := t] && n.threads == s.threads + {t}
        && (t in s.threads ==> n.sums == s.sums) && (t !in s.threads ==> n.sums.Keys == s.sums.Keys + {t})
      case DeleteSlice(c, only) =>
        && RowsTaken(s, n, id => id in s.chunks && s.chunks[id].claimant == c
                                 && (only.None? || s.chunks[id].slice == only))
        && n.threads == s.threads && n.threadOf == s.threadOf
      case Remove(c) =>
        && RowsTaken(s, n, id => id in s.chunks && s.chunks[id].claimant == c)
        && n.threads == s.threads && n.threadOf == s.threadOf - {c}
      case Delete(t) =>
        && (forall id :: id in n.chunks <==>
              && id in s.chunks && s.chunks[id].thread != t
              && !(s.chunks[id].claimant in s.threadOf && s.threadOf[s.chunks[id].claimant] == t))
        && (forall id | id in n.chunks :: n.chunks[id] == s.chunks[id])
        && (forall id :: id in n.vec <==> id in s.vec && !(id in s.chunks && s.chunks[id].thread == t))
        && (forall id | id in n.vec :: n.vec[id] == s.vec[id])
        && n.sums == s.sums - {t} && n.threads == s.threads - {t}
        && (forall c :: c in n.threadOf <==> c in s.threadOf && s.threadOf[c] != t)
        && (forall c | c in n.threadOf :: n.threadOf[c] == s.threadOf[c])
      case _ => n == s.(sums := n.sums)
  {
    hide Exact, Shaped, Resummed, Touched;
  }

  ghost predicate RowsTaken(s: Tables, n: Tables, taken: ChunkId -> bool) {
    && (forall id :: id in n.chunks <==> id in s.chunks && !taken(id))
    && (forall id | id in n.chunks :: n.chunks[id] == s.chunks[id])
    && (forall id :: id in n.vec <==> id in s.vec && !taken(id))
    && (forall id | id in n.vec :: n.vec[id] == s.vec[id])
  }

  /** A vectored row of the thread went or came. */
  ghost predicate Changed(s: Tables, n: Tables, t: Thread) {
    exists id ::
      || (id in s.chunks && id in s.vec && s.chunks[id].thread == t && id !in n.chunks)
      || (id in n.chunks && id in n.vec && n.chunks[id].thread == t && id !in s.chunks)
  }

  ghost predicate SumLeft(dim: nat, s: Tables, n: Tables, t: Thread)
    requires Shaped(n.vec, dim)
  {
    if Changed(s, n, t) then t in n.sums && n.sums[t] == Readable(Exact(n.chunks, n.vec, dim, t))
    else (t in n.sums <==> t in s.sums) && (t in n.sums ==> n.sums[t] == s.sums[t])
  }

  /** Just the threads that lost or got a vector have their sums written, exactly; a read or a repair writes its own. */
  lemma SumsLeft(dim: nat, s: Tables, op: Operation, t: Thread)
    requires Shaped(s.vec, dim)
    ensures var n := Next(dim, s, op);
      match op
      case Replace(_, _, _, _, _, _) => if CanReplace(dim, s, op) then SumLeft(dim, s, n, t) else n == s
      case DeleteSlice(_, _) => SumLeft(dim, s, n, t)
      case Remove(_) => SumLeft(dim, s, n, t)
      case ReadSums(u) =>
        n.sums == if u in s.threads && (u !in s.sums || s.sums[u].Unreadable?)
                  then s.sums[u := Readable(Exact(s.chunks, s.vec, dim, u))] else s.sums
      case Repair(u) =>
        n.sums == if u in s.threads then s.sums[u := Readable(Exact(s.chunks, s.vec, dim, u))] else s.sums
      case Lose(u) => n.sums == s.sums - {u}
      case Garble(u) => n.sums == if u in s.sums then s.sums[u := Unreadable] else s.sums
      case Track(_, u) =>
        n.sums == if u in s.threads then s.sums else s.sums[u := Readable(Sum(Zero(dim), 0))]
      case Delete(u) => n.sums == s.sums - {u}
  {
    hide Exact, Shaped, CanReplace, Members;
    match op
    case Replace(_, _, _, _, _, _) => if CanReplace(dim, s, op) { ReplacedSum(dim, s, op, t); }
    case _ =>
  }

  lemma GoneNotAdded(chunks: map<ChunkId, Chunk>, op: Operation)
    requires op.Replace?
    ensures Gone(chunks, op) !! Added(chunks, op) && Gone(chunks, op) <= chunks.Keys
  {
  }

  lemma ReplacedSum(dim: nat, s: Tables, op: Operation, t: Thread)
    requires op.Replace? && Shaped(s.vec, dim) && CanReplace(dim, s, op)
    ensures SumLeft(dim, s, Next(dim, s, op), t)
  {
    hide Exact, Shaped, CanReplace, Members, Existing, Ids, Gone, Added, Insertable;
    GoneNotAdded(s.chunks, op);
    ReplacedIsShaped(dim, s, op);
    AddedAreNew(dim, s, op);
    var n, gone, added := Next(dim, s, op), Gone(s.chunks, op), Added(s.chunks, op);
    if t in Touched(s.chunks, s.vec, gone) {
      var id :| id in gone && id in s.chunks && id in s.vec && s.chunks[id].thread == t;
      assert id !in n.chunks;
    } else if added != {} && t == op.t {
      var id :| id in added;
      assert id in n.chunks && id in n.vec && n.chunks[id].thread == t && id !in s.chunks;
    }
  }

  // ----- mending ----------------------------------------------------------------------------------

  /** The threads' sums are reconciled, one after another. */
  ghost function Mended(dim: nat, s: Tables, order: seq<Thread>): (n: Tables)
    requires Shaped(s.vec, dim)
    ensures Shaped(n.vec, dim)
  {
    if order == [] then s
    else Next(dim, Mended(dim, s, order[..|order|-1]), Repair(order[|order|-1]))
  }

  lemma ResummedTwice(dim: nat, s: Tables, some: set<Thread>, more: set<Thread>)
    requires Shaped(s.vec, dim)
    ensures Resummed(Resummed(s.sums, s.chunks, s.vec, dim, some), s.chunks, s.vec, dim, more)
      == Resummed(s.sums, s.chunks, s.vec, dim, some + more)
    ensures Resummed(s.sums, s.chunks, s.vec, dim, {}) == s.sums
  {
    hide Exact, Shaped;
  }

  lemma {:induction false} MendedIs(dim: nat, s: Tables, order: seq<Thread>)
    requires Shaped(s.vec, dim)
    ensures Mended(dim, s, order) == s.(sums := Resummed(s.sums, s.chunks, s.vec, dim, SetOf(order) * s.threads))
  {
    hide Exact, Shaped, Resummed, SetOf;
    ResummedTwice(dim, s, {}, {});
    if order == [] {
      NoneOf(s.threads);
    } else {
      var before, t := order[..|order|-1], order[|order|-1];
      MendedIs(dim, s, before);
      assert order == before + [t];
      SetOfAppend(before, t);
      ResummedTwice(dim, s, SetOf(before) * s.threads, {t});
      if t in s.threads {
        assert SetOf(order) * s.threads == SetOf(before) * s.threads + {t};
      } else {
        assert SetOf(order) * s.threads == SetOf(before) * s.threads;
      }
    }
  }

  lemma NoneOf(threads: set<Thread>)
    ensures SetOf([]) * threads == {}
  {
  }

  /** However the stored sums went wrong, reconciling these threads puts them right exactly when no other is wrong. */
  lemma MendedIsOk(dim: nat, s: Tables, order: seq<Thread>)
    requires Shaped(s.vec, dim) && RowKeys(s.chunks, s.sums.Keys, s.threads, s.threadOf.Keys)
    ensures Ok(dim, Mended(dim, s, order)) <==>
            forall t | t in s.sums && t !in order && s.sums[t].Readable? ::
                s.sums[t].sum == Exact(s.chunks, s.vec, dim, t)
  {
    hide Exact, Shaped, Mended;
    MendedIs(dim, s, order);
    var n := Mended(dim, s, order);
    if Ok(dim, n) {
      forall t | t in s.sums && t !in order && s.sums[t].Readable?
        ensures s.sums[t].sum == Exact(s.chunks, s.vec, dim, t)
      {
        assert n.sums[t] == s.sums[t];
      }
    }
  }

  /** So a spoiling delete is made good by reconciling every thread that has a sum. */
  lemma SpoiledIsMended(dim: nat, s: Tables, op: Operation, order: seq<Thread>)
    requires Ok(dim, s) && Next(dim, s, op).sums.Keys <= SetOf(order)
    ensures Ok(dim, Mended(dim, Next(dim, s, op), order))
  {
    hide Exact, Shaped, Agree, Mended, Next, Spoils, RowKeys;
    var n := Next(dim, s, op);
    KeysStay(dim, s, op);
    forall t | t in n.sums ensures t in order {
      assert t in SetOf(order);
    }
    MendedIsOk(dim, n, order);
  }

  lemma KeysStay(dim: nat, s: Tables, op: Operation)
    requires Ok(dim, s)
    ensures var n := Next(dim, s, op); RowKeys(n.chunks, n.sums.Keys, n.threads, n.threadOf.Keys)
  {
    hide Exact, Shaped, Agree, CanReplace, Strays, RowKeys;
    NextKeeps(dim, s, op);
    if Spoils(s, op) {
      var n, t := Next(dim, s, op), op.t;
      ThreadGoneKeys(s.chunks, s.sums, s.threads, s.threadOf, t, n.chunks);
      assert n.threadOf.Keys == (s.threadOf - (set c | c in s.threadOf && s.threadOf[c] == t)).Keys;
    }
  }

  const EMPTY := Tables(map[], map[], map[], {}, map[])

  /** The tables after a run from nothing. */
  ghost function After(dim: nat, operations: seq<Operation>): (s: Tables)
    ensures Shaped(s.vec, dim)
  {
    if operations == [] then EMPTY
    else Next(dim, After(dim, operations[..|operations|-1]), operations[|operations|-1])
  }

  /** A run is its operations, one after another, each on what the earlier ones left. */
  lemma RunIsItsSteps(dim: nat, operations: seq<Operation>, i: nat)
    requires i < |operations|
    ensures After(dim, operations[..0]) == Tables(map[], map[], map[], {}, map[])
    ensures After(dim, operations[..i+1]) == Next(dim, After(dim, operations[..i]), operations[i])
  {
    hide Next;
    assert operations[..i+1][..i] == operations[..i];
  }

  /** The first operation of the run that spoils the sums. */
  ghost predicate FirstSpoils(dim: nat, operations: seq<Operation>, n: nat) {
    && n < |operations| && Spoils(After(dim, operations[..n]), operations[n])
    && NoneSpoils(dim, operations[..n])
  }

  ghost predicate NoneSpoils(dim: nat, operations: seq<Operation>) {
    forall i | 0 <= i < |operations| :: !Spoils(After(dim, operations[..i]), operations[i])
  }

  /** Every readable sum is the exact one after every run in which no delete takes a stray row. */
  lemma {:induction false} RunKeeps(dim: nat, operations: seq<Operation>)
    requires NoneSpoils(dim, operations)
    ensures Ok(dim, After(dim, operations))
  {
    hide Next, Spoils;
    if operations != [] {
      var n := |operations| - 1;
      var before := operations[..n];
      assert forall i | 0 <= i < n :: before[..i] == operations[..i] && before[i] == operations[i];
      assert !Spoils(After(dim, operations[..n]), operations[n]);
      RunKeeps(dim, before);
      NextKeeps(dim, After(dim, before), operations[n]);
    }
  }

  /** The first delete that does leaves a sum that is not. */
  lemma FirstSpoilerSpoils(dim: nat, operations: seq<Operation>, n: nat)
    requires FirstSpoils(dim, operations, n)
    ensures Ok(dim, After(dim, operations[..n])) && !Ok(dim, After(dim, operations[..n+1]))
  {
    hide Next, Spoils;
    RunKeeps(dim, operations[..n]);
    NextKeeps(dim, After(dim, operations[..n]), operations[n]);
    assert operations[..n+1][..n] == operations[..n];
  }

  // ----- a stray row ------------------------------------------------------------------------------------

  /** A message is written under `t`, mapped to `u`, and `u` is deleted. */
  function StrayRun(c: Claimant, t: Thread, u: Thread, id: ChunkId, v: Vector): seq<Operation> {
    [Track(c, t), WriteOne(c, t, id, v), Track(c, u), Delete(u)]
  }

  function WriteOne(c: Claimant, t: Thread, id: ChunkId, v: Vector): Operation {
    Replace(c, t, None, [NewChunk(id, false)], map[id := v], false)
  }

  /** The tables with the one chunk row, whose message belongs to `owner`. */
  ghost function OneRow(c: Claimant, t: Thread, owner: Thread, id: ChunkId, v: Vector): Tables {
    var chunks, vec := map[id := Chunk(c, t, None)], map[id := v];
    var sums := map[t := Readable(Exact(chunks, vec, |v|, t))];
    if owner == t then Tables(chunks, vec, sums, {t}, map[c := t])
    else Tables(chunks, vec, sums[owner := Readable(Sum(Zero(|v|), 0))], {t, owner}, map[c := owner])
  }

  lemma Writes(c: Claimant, t: Thread, id: ChunkId, v: Vector)
    ensures Next(|v|, Next(|v|, EMPTY, Track(c, t)), WriteOne(c, t, id, v)) == OneRow(c, t, t, id, v)
  {
    hide Exact;
    var s, op := Next(|v|, EMPTY, Track(c, t)), WriteOne(c, t, id, v);
    assert Existing(s.chunks, c, None) == {};
    assert op.incoming[0].id in Ids(op.incoming) && Ids(op.incoming) == {id};
    assert Gone(s.chunks, op) == {} && Added(s.chunks, op) == {id};
    assert CanReplace(|v|, s, op);
    var n, one := Next(|v|, s, op), OneRow(c, t, t, id, v);
    assert n.chunks == one.chunks && n.vec == one.vec;
    assert n.sums == one.sums;
  }

  lemma OneAfter(dim: nat, operations: seq<Operation>, op: Operation)
    ensures After(dim, operations + [op]) == Next(dim, After(dim, operations), op)
  {
    assert (operations + [op])[..|operations + [op]|-1] == operations;
  }

  /** The cascade takes its chunk row, and the sum of `t` still counts the vector. */
  lemma StrayIsCounted(c: Claimant, t: Thread, u: Thread, id: ChunkId, v: Vector)
    requires t != u
    ensures var run := StrayRun(c, t, u, id, v);
      var s := After(|v|, run);
      && FirstSpoils(|v|, run, 3)
      && t in s.sums && s.sums[t].Readable? && s.sums[t].sum.count == 1 && Exact(s.chunks, s.vec, |v|, t).count == 0
  {
    hide *;
    var run := StrayRun(c, t, u, id, v);
    StrayPrefix(c, t, u, id, v);
    Deletes(c, t, u, id, v);
    OneAfter(|v|, run[..3], Delete(u));
    NoDeleteNoSpoil(|v|, run[..3]);
    IsFirst(|v|, run, 3);
  }

  lemma StrayPrefix(c: Claimant, t: Thread, u: Thread, id: ChunkId, v: Vector)
    requires t != u
    ensures var run := StrayRun(c, t, u, id, v);
      && |run| == 4 && run[3] == Delete(u) && run == run[..3] + [Delete(u)]
      && After(|v|, run[..3]) == OneRow(c, t, u, id, v) && forall i | 0 <= i < 3 :: !run[..3][i].Delete?
  {
    hide Next, Exact, After, OneRow;
    var one, two := [Track(c, t)], [Track(c, t), WriteOne(c, t, id, v)];
    assert one == [] + [Track(c, t)] && two == one + [WriteOne(c, t, id, v)];
    assert StrayRun(c, t, u, id, v)[..3] == two + [Track(c, u)];
    OneAfter(|v|, [], Track(c, t));
    OneAfter(|v|, one, WriteOne(c, t, id, v));
    OneAfter(|v|, two, Track(c, u));
    assert After(|v|, []) == EMPTY by { NothingYet(|v|); }
    Writes(c, t, id, v);
    Maps(c, t, u, id, v);
  }

  lemma NothingYet(dim: nat)
    ensures After(dim, []) == EMPTY
  {
  }

  lemma NoDeleteNoSpoil(dim: nat, operations: seq<Operation>)
    requires forall i | 0 <= i < |operations| :: !operations[i].Delete?
    ensures NoneSpoils(dim, operations)
  {
  }

  lemma IsFirst(dim: nat, operations: seq<Operation>, n: nat)
    requires n < |operations| && NoneSpoils(dim, operations[..n]) && Spoils(After(dim, operations[..n]), operations[n])
    ensures FirstSpoils(dim, operations, n)
  {
  }

  lemma Maps(c: Claimant, t: Thread, u: Thread, id: ChunkId, v: Vector)
    requires t != u
    ensures Shaped(OneRow(c, t, t, id, v).vec, |v|)
    ensures Next(|v|, OneRow(c, t, t, id, v), Track(c, u)) == OneRow(c, t, u, id, v)
  {
    hide Exact;
  }

  lemma Deletes(c: Claimant, t: Thread, u: Thread, id: ChunkId, v: Vector)
    requires t != u
    ensures var s := OneRow(c, t, u, id, v);
      && Shaped(s.vec, |v|) && Spoils(s, Delete(u))
      && var n := Next(|v|, s, Delete(u));
         && t in n.sums && n.sums[t].Readable? && n.sums[t].sum.count == 1 && Exact(n.chunks, n.vec, |v|, t).count == 0
  {
    hide Exact;
    var s := OneRow(c, t, u, id, v);
    var n := Next(|v|, s, Delete(u));
    assert Strays(s.chunks, s.vec, s.sums, s.threadOf, u, id);
    ExactCounts(s.chunks, s.vec, |v|, t);
    ExactCounts(n.chunks, n.vec, |v|, t);
    assert Members(s.chunks, s.vec, t) == {id} && Members(n.chunks, n.vec, t) == {};
    assert n.sums[t] == s.sums[t];
  }

  class SumStore {
    const dim: nat
    var chunks: map<ChunkId, Chunk>
    var vec: map<ChunkId, Vector>
    var sums: map<Thread, Stored>
    var threads: set<Thread>
    var threadOf: map<Claimant, Thread>

    constructor (dim: nat)
      ensures Valid() && this.dim == dim && State() == EMPTY
    {
      this.dim := dim;
      chunks, vec, sums, threads, threadOf := map[], map[], map[], {}, map[];
    }

    ghost predicate Valid()
      reads this
    {
      Ok(dim, State())
    }

    function State(): Tables
      reads this
    {
      Tables(chunks, vec, sums, threads, threadOf)
    }

    function Present(): Known
      reads this`threads, this`threadOf
    {
      Known(dim, threads, threadOf.Keys)
    }

    /** The foreign keys of chunk and sums rows. */
    ghost predicate Keys()
      reads this
    {
      RowKeys(chunks, sums.Keys, threads, threadOf.Keys)
    }

    /** `_compute_thread_sums`: every chunk vector of the thread, one at a time. */
    method ComputeSums(t: Thread) returns (sum: Sum)
      requires Shaped(vec, dim)
      ensures sum == Exact(chunks, vec, dim, t)
    {
      var members := Members(chunks, vec, t);
      var rest := members;
      ghost var done: set<ChunkId> := {};
      sum := Sum(Zero(dim), 0);
      while rest != {}
        invariant done + rest == members && done !! rest && sum == Total(done, vec, dim)
        decreases rest
      {
        var id :| id in rest;
        TotalOneMore(done, vec, dim, id);
        sum := Sum(AddUnits(sum.total, vec[id], 1), sum.count + 1);
        rest, done := rest - {id}, done + {id};
      }
      assert done == members;
    }

    /** One thread of `_apply_thread_sum_deltas`; `repaired` says the running sum disagreed. */
    method ApplyDelta(t: Thread, delta: Sum) returns (repaired: bool)
      requires Shaped(vec, dim) && |delta.total| == dim
      requires t in sums && sums[t].Readable? ==>
                 |sums[t].sum.total| == dim && Plus(sums[t].sum, delta) == Exact(chunks, vec, dim, t)
      modifies this`sums
      ensures sums == old(sums)[t := Readable(Exact(chunks, vec, dim, t))] && !repaired
    {
      repaired := false;
      var sum;
      if t in sums && sums[t].Readable? {
        var state := sums[t].sum;
        sum := Sum(AddUnits(state.total, delta.total, 1), state.count + delta.count);
        ExactCounts(chunks, vec, dim, t);
        if sum.count < 0 || (sum.count == 0 && sum.total != Zero(dim)) {
          repaired := true;
          sum := ComputeSums(t);
        }
      } else {
        sum := ComputeSums(t);
      }
      sums := sums[t := Readable(sum)];
    }

    /** `_apply_thread_sum_deltas`, after the rows were written in the same transaction. */
    method ApplyDeltas(deltas: Deltas, ghost chunks0: map<ChunkId, Chunk>, ghost vec0: map<ChunkId, Vector>)
      returns (repaired: bool)
      requires Shaped(vec, dim) && Shaped(vec0, dim)
      requires Agree(chunks0, vec0, sums, dim) && Balanced(deltas, chunks0, vec0, chunks, vec, dim)
      modifies this`sums
      ensures Agree(chunks, vec, sums, dim) && !repaired
      ensures sums == Resummed(old(sums), chunks, vec, dim, deltas.Keys)
    {
      hide Exact, Plus, Shaped, Resummed, Balanced, Agree;
      repaired := false;
      var rest := deltas.Keys;
      ResummedNone(sums, chunks, vec, dim);
      assert deltas.Keys - rest == {};
      while rest != {}
        invariant rest <= deltas.Keys && !repaired
        invariant sums == Resummed(old(sums), chunks, vec, dim, deltas.Keys - rest)
        decreases rest
      {
        var t :| t in rest;
        DeltaApplies(deltas, chunks0, vec0, old(sums), chunks, vec, dim, t);
        ResummedMore(old(sums), chunks, vec, dim, deltas.Keys - rest, t);
        assert deltas.Keys - rest + {t} == deltas.Keys - (rest - {t});
        var wrong := ApplyDelta(t, deltas[t]);
        repaired := repaired || wrong;
        rest := rest - {t};
      }
      assert deltas.Keys - rest == deltas.Keys;
      ResummedAgrees(deltas, chunks0, vec0, old(sums), chunks, vec, dim);
    }

    // ----- replacing a slice -----------------------------------------------------------------

    /**
     * `replace_message_chunks`. It goes through exactly when every chunk to insert has a
     * vector and an unused id; then the slice's rows are the incoming ones (and, unless
     * `deleteMissing`, the older ones), kept rows keep their vectors, and the sums agree.
     * Otherwise nothing changes.
     */
    method ReplaceMessageChunks(c: Claimant, t: Thread, slice: Option<Payload>, incoming: seq<NewChunk>,
                                embeddings: map<ChunkId, Vector>,
                                deleteMissing: bool)
      returns (r: Option<Counts>)
      requires Valid()
      modifies this`chunks, this`vec, this`sums
      ensures Valid() && State() == Next(dim, old(State()), Replace(c, t, slice, incoming, embeddings, deleteMissing))
      ensures r.Some? <==> CanReplace(dim, old(State()), Replace(c, t, slice, incoming, embeddings, deleteMissing))
      ensures r.None? ==> State() == old(State())
      ensures r.Some? ==>
                var existing := Existing(old(chunks), c, slice);
                var gone := if deleteMissing then existing - Ids(incoming) else {};
                var added := Ids(incoming) - existing;
                && chunks == WithRows(old(chunks) - gone, added, Chunk(c, t, slice))
                && vec == WithVectors(old(vec) - gone, added, embeddings)
                && r.value == Counts(|added|, |gone|, |existing * Ids(incoming)|)
    {
      hide Exact, Agree, WithRows, WithVectors, Ids, Existing, AllInsertable, RowKeys, Shaped, Touched, Resummed;
      ghost var before, op := State(), Replace(c, t, slice, incoming, embeddings, deleteMissing);
      if exists i :: 0 <= i < |incoming| && incoming[i].attachment != slice.Some? {
        return None;
      }
      var chunks0, vec0, sums0 := chunks, vec, sums;
      var existing := Existing(chunks, c, slice);
      var gone := if deleteMissing then existing - Ids(incoming) else {};
      assert gone <= chunks.Keys by { ExistingIsStored(chunks, c, slice); }
      var ok := SyncSlice(c, t, slice, incoming, embeddings, existing, gone);
      if ok {
        r := Some(Counts(|Ids(incoming) - existing|, |gone|, |existing * Ids(incoming)|));
        assert CanReplace(dim, before, op);
        assert State() == Replaced(dim, before, op);
      } else {
        chunks, vec, sums := chunks0, vec0, sums0;
        r := None;
      }
    }

    /** The transaction's statements; when one of them fails, what they wrote so far is left to the rollback. */
    method SyncSlice(c: Claimant, t: Thread, slice: Option<Payload>, incoming: seq<NewChunk>,
                     embeddings: map<ChunkId, Vector>,
                     existing: set<ChunkId>, gone: set<ChunkId>)
      returns (ok: bool)
      requires Valid() && gone <= chunks.Keys
      modifies this`chunks, this`vec, this`sums
      ensures ok
          <==> AllInsertable(Present(), old(chunks) - gone, old(vec) - gone, c, t, incoming, existing, |incoming|,
                             embeddings)
      ensures ok ==> Valid() && chunks == WithRows(old(chunks) - gone, Ids(incoming) - existing, Chunk(c, t, slice))
      ensures ok ==> vec == WithVectors(old(vec) - gone, Ids(incoming) - existing, embeddings)
      ensures ok ==>
                var touched := if Ids(incoming) - existing == {} then {} else {t};
                sums == Resummed(old(sums), chunks, vec, dim, Touched(old(chunks), old(vec), gone) + touched)
    {
      hide Exact, Balanced, Agree, WithRows, WithVectors, Ids, AllInsertable, ThreadsOf, RowKeys, Shaped, Touched;
      ghost var chunks0, vec0, sums0 := chunks, vec, sums;
      var deltas := DeleteRows(gone);
      var added;
      deltas, added, ok := InsertRows(c, t, slice, incoming, existing, embeddings, deltas, chunks0, vec0);
      if ok {
        var repaired := ApplyDeltas(deltas, chunks0, vec0);
        KeysAfter(chunks0, sums0, gone, added, Chunk(c, t, slice), deltas);
      }
    }

    lemma KeysAfter(chunks0: map<ChunkId, Chunk>, sums0: map<Thread, Stored>, gone: set<ChunkId>, added: set<ChunkId>,
                    row: Chunk, deltas: Deltas)
      requires RowKeys(chunks0, sums0.Keys, threads, threadOf.Keys)
      requires chunks == WithRows(chunks0 - gone, added, row) && sums.Keys == sums0.Keys + deltas.Keys
      requires deltas.Keys <= ThreadsOf(chunks0) + {row.thread}
      requires added != {} ==> row.thread in threads && row.claimant in threadOf
      requires row.thread in deltas && added == {} ==> row.thread in ThreadsOf(chunks0)
      ensures Keys()
    {
    }

    /** The deletions of one slice, each subtracted from the deltas. */
    method DeleteRows(gone: set<ChunkId>) returns (deltas: Deltas)
      requires Shaped(vec, dim) && gone <= chunks.Keys
      modifies this`chunks, this`vec
      ensures chunks == old(chunks) - gone && vec == old(vec) - gone && Shaped(vec, dim)
      ensures Balanced(deltas, old(chunks), old(vec), chunks, vec, dim) && deltas.Keys <= ThreadsOf(old(chunks))
      ensures deltas.Keys == Touched(old(chunks), old(vec), gone)
    {
      hide Exact, Balanced, BalancedFor;
      deltas := map[];
      StartsBalanced(chunks, vec, dim);
      var rest := gone;
      ghost var done: set<ChunkId> := {};
      while rest != {}
        invariant done + rest == gone && done !! rest
        invariant chunks == old(chunks) - done && vec == old(vec) - done && Shaped(vec, dim)
        invariant Balanced(deltas, old(chunks), old(vec), chunks, vec, dim)
        invariant deltas.Keys == Touched(old(chunks), old(vec), done)
        decreases rest
      {
        var id :| id in rest;
        if id in vec {
          DeleteBalances(deltas, old(chunks), old(vec), chunks, vec, dim, id);
          deltas := AddDelta(deltas, chunks[id].thread, vec[id], -1);
        } else {
          assert vec - {id} == vec;
        }
        NoVectorNoMatter(deltas, old(chunks), old(vec), chunks, vec - {id}, dim, chunks - {id});
        assert vec == old(vec) - done;
        chunks, vec := chunks - {id}, vec - {id};
        rest, done := rest - {id}, done + {id};
        assert vec == old(vec) - done && chunks == old(chunks) - done;
      }
      assert done == gone;
    }

    /** The insertions; `ok` turns false at the first that would fail, and the rest are skipped. */
    method InsertRows(c: Claimant, t: Thread, slice: Option<Payload>, incoming: seq<NewChunk>, existing: set<ChunkId>,
                      embeddings: map<ChunkId, Vector>, deltas0: Deltas, ghost chunks0: map<ChunkId, Chunk>,
                      ghost vec0: map<ChunkId, Vector>)
      returns (deltas: Deltas, added: set<ChunkId>, ok: bool)
      requires Shaped(vec, dim) && Shaped(vec0, dim) && Balanced(deltas0, chunks0, vec0, chunks, vec, dim)
      modifies this`chunks, this`vec
      ensures Shaped(vec, dim) && Balanced(deltas, chunks0, vec0, chunks, vec, dim)
      ensures ok ==> deltas.Keys == deltas0.Keys + if added == {} then {} else {t}
      ensures ok <==> AllInsertable(Present(), old(chunks), old(vec), c, t, incoming, existing, |incoming|, embeddings)
      ensures ok ==> added == Ids(incoming) - existing
      ensures ok ==>
          chunks == WithRows(old(chunks), added, Chunk(c, t, slice)) && vec == WithVectors(old(vec), added, embeddings)
      ensures ok && added != {} ==> t in threads && c in threadOf
    {
      hide Exact, Balanced, Insertable, Ids, WithRows, WithVectors;
      deltas, added, ok := deltas0, {}, true;
      ghost var row := Chunk(c, t, slice);
      NoRows(chunks, vec, row, embeddings, incoming);
      for i := 0 to |incoming|
        invariant ok && Shaped(vec, dim) && Balanced(deltas, chunks0, vec0, chunks, vec, dim)
        invariant deltas.Keys == deltas0.Keys + (if added == {} then {} else {t})
        invariant added != {} ==> t in threads && c in threadOf
        invariant added == Ids(incoming[..i]) - existing
        invariant chunks == WithRows(old(chunks), added, row) && vec == WithVectors(old(vec), added, embeddings)
        invariant AllInsertable(Present(), old(chunks), old(vec), c, t, incoming, existing, i, embeddings)
      {
        var id := incoming[i].id;
        IdsGrow(incoming, i);
        AllInsertableGrows(Present(), old(chunks), old(vec), c, t, incoming, existing, i, embeddings);
        if id !in existing {
          InsertableNow(Present(), old(chunks), old(vec), c, t, incoming, existing, i, embeddings, row, added);
          if id !in embeddings || |embeddings[id]| != dim || id in vec || id in chunks || t !in threads
             || c !in threadOf {
            NotAllInsertable(Present(), old(chunks), old(vec), c, t, incoming, existing, i, embeddings);
            ok := false;
            return;
          }
          InsertBalances(deltas, chunks0, vec0, chunks, vec, dim, id, row, embeddings[id]);
          OneMoreRow(old(chunks), old(vec), added, id, row, embeddings);
          deltas := AddDelta(deltas, t, embeddings[id], 1);
          chunks, vec := chunks[id := Chunk(c, t, slice)], vec[id := embeddings[id]];
          added := added + {id};
        }
      }
      assert incoming[..|incoming|] == incoming;
    }

    // ----- bulk deletions -----------------------------------------------------------------------

    /**
     * `_delete_chunks_in_batches`: the vectors go, 500 rows at a time, and with `trackSums`
     * are subtracted from their threads' sums; the chunk rows are the caller's to delete.
     */
    method DeleteChunksInBatches(rows: seq<ChunkId>, trackSums: bool)
      requires Shaped(vec, dim) && Distinct(rows) && SetOf(rows) <= chunks.Keys
      requires trackSums ==> Agree(chunks, vec, sums, dim) && RowKeys(chunks, sums.Keys, threads, threadOf.Keys)
      modifies this`vec, this`sums
      ensures vec == old(vec) - SetOf(rows) && Shaped(vec, dim)
      ensures trackSums ==> Agree(chunks, vec, sums, dim) && RowKeys(chunks, sums.Keys, threads, threadOf.Keys)
      ensures sums == if !trackSums then old(sums)
                      else Resummed(old(sums), chunks, vec, dim, Touched(chunks, old(vec), SetOf(rows)))
    {
      hide Exact, Balanced, BalancedFor, Agree, SetOf, RowKeys;
      var deltas: Deltas := map[];
      StartsBalanced(chunks, vec, dim);
      NothingNamed(rows, vec);
      var start := 0;
      while start < |rows|
        invariant 0 <= start <= |rows| && vec == old(vec) - SetOf(rows[..start]) && Shaped(vec, dim)
        invariant sums == old(sums)
        invariant trackSums ==> Balanced(deltas, chunks, old(vec), chunks, vec, dim)
        invariant trackSums ==> deltas.Keys == Touched(chunks, old(vec), SetOf(rows[..start]))
      {
        var end := if start + BATCH_SIZE < |rows| then start + BATCH_SIZE else |rows|;
        if trackSums {
          deltas := SubtractBatch(rows, start, end, deltas, old(vec));
        }
        vec := vec - SetOf(rows[start..end]);
        NamedSplit(rows, start, end, old(vec));
        TouchedSplit(chunks, old(vec), rows, start, end);
        start := end;
      }
      assert rows[..|rows|] == rows;
      if trackSums {
        var repaired := ApplyDeltas(deltas, chunks, old(vec));
        TouchedHaveRows(chunks, old(vec), SetOf(rows));
        assert sums.Keys == old(sums).Keys + deltas.Keys;
        SummedThreads(chunks, old(sums).Keys, deltas.Keys, threads, threadOf.Keys);
      }
    }

    /** The vectors one batch is about to lose, subtracted one at a time. */
    method SubtractBatch(rows: seq<ChunkId>, start: nat, end: nat, deltas0: Deltas, ghost vec0: map<ChunkId, Vector>)
      returns (deltas: Deltas)
      requires start <= end <= |rows| && Shaped(vec, dim) && Shaped(vec0, dim) && Distinct(rows)
      requires SetOf(rows) <= chunks.Keys
      requires Balanced(deltas0, chunks, vec0, chunks, vec, dim)
      ensures Shaped(vec - SetOf(rows[start..end]), dim)
      ensures Balanced(deltas, chunks, vec0, chunks, vec - SetOf(rows[start..end]), dim)
      ensures deltas.Keys == deltas0.Keys + Touched(chunks, vec, SetOf(rows[start..end]))
    {
      hide Exact, Balanced, BalancedFor, SetOf;
      deltas := deltas0;
      ghost var left := vec;
      NamedIn(rows, start);
      assert SetOf(rows[start..start]) == {}
             && vec - {} == vec by { NothingNamed(rows, vec); assert rows[start..start] == rows[..0]; }
      for i := start to end
        invariant left == vec - SetOf(rows[start..i]) && Shaped(left, dim)
        invariant Balanced(deltas, chunks, vec0, chunks, left, dim)
        invariant deltas.Keys == deltas0.Keys + Touched(chunks, vec, SetOf(rows[start..i]))
      {
        var id := rows[i];
        NamedIn(rows, i);
        NamedMore(rows, start, i, vec);
        assert SetOf(rows[start..i+1]) == SetOf(rows[start..i]) + {id} by { NamedOneMore(rows, start, i); }
        if id in vec {
          DeleteBalances(deltas, chunks, vec0, chunks, left, dim, id);
          deltas := AddDelta(deltas, chunks[id].thread, vec[id], -1);
        } else {
          assert left - {id} == left;
        }
        left := left - {id};
      }
    }

    /** The ids of the rows a query selects, in some order. */
    method Select(ids: set<ChunkId>) returns (rows: seq<ChunkId>)
      ensures Distinct(rows) && SetOf(rows) == ids
    {
      rows := [];
      var rest := ids;
      while rest != {}
        invariant Distinct(rows) && SetOf(rows) + rest == ids && SetOf(rows) !! rest
        decreases rest
      {
        var id :| id in rest;
        assert forall k | 0 <= k < |rows| :: rows[k] in SetOf(rows);
        assert SetOf(rows + [id]) == SetOf(rows) + {id} by { SetOfAppend(rows, id); }
        rest := rest - {id};
        rows := rows + [id];
      }
    }

    /** `_delete_chunks_for_message`, and with a payload the deletion of that slice only. */
    method DeleteChunks(c: Claimant, only: Option<Payload>)
      requires Valid()
      modifies this`chunks, this`vec, this`sums
      ensures Valid() && State() == Next(dim, old(State()), DeleteSlice(c, only))
    {
      hide Exact, RowKeys, Shaped, Agree, Resummed, Touched, SetOf;
      ghost var before := State();
      var gone := Selected(chunks, c, only);
      WithoutKeeps(dim, State(), gone);
      var rows := Select(gone);
      DeleteChunksInBatches(rows, true);
      RowsLast(dim, before, gone);
      chunks := chunks - gone;
    }

    /** The chunk part of `_remove_message_row`: the chunks, then the map row. */
    method RemoveMessage(c: Claimant)
      requires Valid()
      modifies this`chunks, this`vec, this`sums, this`threadOf
      ensures Valid() && State() == Next(dim, old(State()), Remove(c))
    {
      DeleteChunks(c, None);
      threadOf := threadOf - {c};
    }

    /**
     * The chunk part of `delete_thread_completely`: the thread's chunk rows, vectors and sums
     * go; then its messages' map rows, whose cascade takes their remaining chunk rows but no
     * vector and no sum. The sums of the other threads still agree exactly when no such row
     * of a summed thread had a vector.
     */
    method DeleteThread(t: Thread)
      requires Valid()
      modifies this`chunks, this`vec, this`sums, this`threads, this`threadOf
      ensures State() == Next(dim, old(State()), Delete(t))
      ensures Shaped(vec, dim) && RowKeys(chunks, sums.Keys, threads, threadOf.Keys)
      ensures Agree(chunks, vec, sums, dim) <==> !Spoils(old(State()), Delete(t))
    {
      hide Exact, Shaped, Agree, RowKeys, Strays, ThreadsOf, Next, SetOf, Touched, Resummed;
      var rows := Select(OfThreadRows(chunks, t));
      sums := sums - {t};
      DeleteChunksInBatches(rows, false);
      var messages := set c | c in threadOf && threadOf[c] == t;
      chunks := map id | id in chunks && chunks[id].thread != t :: chunks[id];
      chunks := map id | id in chunks && chunks[id].claimant !in messages :: chunks[id];
      threadOf := threadOf - messages;
      threads := threads - {t};
      ThreadGoneKeys(old(chunks), old(sums), old(threads), old(threadOf), t, chunks);
      ThreadGone(old(chunks), old(vec), old(sums), old(threadOf), t, chunks, dim);
      DeletedIs(dim, old(State()), t, State());
    }

    // ----- filling and checking ----------------------------------------------------------------

    /** `upsert_thread`'s part: a new thread starts with an empty sum, and its messages are mapped. */
    method TrackMessage(c: Claimant, t: Thread)
      requires Valid()
      modifies this`sums, this`threads, this`threadOf
      ensures Valid() && State() == Next(dim, old(State()), Track(c, t))
    {
      if t !in threads {
        assert Members(chunks, vec, t) == {};
        threads := threads + {t};
        sums := sums[t := Readable(Sum(Zero(dim), 0))];
      }
      threadOf := threadOf[c := t];
    }

    /** `_thread_sums`: the stored sums, filled inline when there are none. */
    method ThreadSumsOf(t: Thread) returns (sum: Sum)
      requires Valid() && t in threads
      modifies this`sums
      ensures Valid() && sum == Exact(chunks, vec, dim, t)
      ensures State() == Next(dim, old(State()), ReadSums(t))
    {
      if t in sums && sums[t].Readable? {
        sum := sums[t].sum;
      } else {
        sum := ComputeSums(t);
        sums := sums[t := Readable(sum)];
      }
    }

    /**
     * `reconcile_thread_vector_sums`: whatever is stored, the thread's sum is exact afterwards;
     * a sum that was kept is never repaired.
     */
    method Reconcile(t: Thread) returns (repaired: bool, read: int)
      requires Shaped(vec, dim) && Keys()
      modifies this`sums
      ensures State() == Next(dim, old(State()), Repair(t)) && Keys()
      ensures repaired <==> t in threads && !(t in old(sums) && old(sums)[t] == Readable(Exact(chunks, vec, dim, t)))
      ensures read == if t in threads then |Members(chunks, vec, t)| else 0
      ensures old(Valid()) ==> Valid() && (repaired ==> t !in old(sums) || old(sums)[t].Unreadable?)
    {
      if t !in threads {
        return false, 0;
      }
      var sum := ComputeSums(t);
      ExactCounts(chunks, vec, dim, t);
      if t in sums && sums[t] == Readable(sum) {
        return false, sum.count;
      }
      sums := sums[t := Readable(sum)];
      return true, sum.count;
    }

  }

  datatype Counts = Counts(inserted: nat, deleted: nat, kept: nat)

  function ThreadsOf(chunks: map<ChunkId, Chunk>): set<Thread> {
    set id | id in chunks :: chunks[id].thread
  }

  /** The stored rows of a message's body, or of one of its payloads. */
  function Existing(chunks: map<ChunkId, Chunk>, c: Claimant, slice: Option<Payload>): set<ChunkId> {
    set id | id in chunks && chunks[id].claimant == c && chunks[id].slice == slice
  }

  function WithRows(chunks: map<ChunkId, Chunk>, added: set<ChunkId>, row: Chunk): map<ChunkId, Chunk> {
    map id | id in chunks.Keys + added :: if id in added then row else chunks[id]
  }

  function WithVectors(vec: map<ChunkId, Vector>, added: set<ChunkId>,
                       embeddings: map<ChunkId, Vector>): map<ChunkId, Vector> {
    map id | id in vec.Keys + added && (id in added ==> id in embeddings) :: if id in added then embeddings[id]
                                            else vec[id]
  }

  lemma ExistingIsStored(chunks: map<ChunkId, Chunk>, c: Claimant, slice: Option<Payload>)
    ensures Existing(chunks, c, slice) <= chunks.Keys
  {
  }

  lemma NoRows(chunks: map<ChunkId, Chunk>, vec: map<ChunkId, Vector>, row: Chunk, embeddings: map<ChunkId, Vector>,
               incoming: seq<NewChunk>)
    ensures WithRows(chunks, {}, row) == chunks && WithVectors(vec, {}, embeddings) == vec && Ids(incoming[..0]) == {}
  {
  }

  lemma OneMoreRow(chunks: map<ChunkId, Chunk>, vec: map<ChunkId, Vector>, added: set<ChunkId>, id: ChunkId, row: Chunk,
                   embeddings: map<ChunkId, Vector>)
    requires id in embeddings
    ensures WithRows(chunks, added, row)[id := row] == WithRows(chunks, added + {id}, row)
    ensures WithVectors(vec, added, embeddings)[id := embeddings[id]] == WithVectors(vec, added + {id}, embeddings)
  {
    var rows, rows' := WithRows(chunks, added, row)[id := row], WithRows(chunks, added + {id}, row);
    assert rows.Keys == rows'.Keys;
    var vecs := WithVectors(vec, added, embeddings)[id := embeddings[id]];
    var vecs' := WithVectors(vec, added + {id}, embeddings);
    assert vecs.Keys == vecs'.Keys;
  }

  lemma IdsGrow(incoming: seq<NewChunk>, i: nat)
    requires i < |incoming|
    ensures Ids(incoming[..i+1]) == Ids(incoming[..i]) + {incoming[i].id}
  {
    assert incoming[..i+1] == incoming[..i] + [incoming[i]];
    assert forall j | 0 <= j < i :: incoming[..i+1][j] == incoming[..i][j];
  }

  lemma NoVectorNoMatter(deltas: Deltas, chunks: map<ChunkId, Chunk>, vec: map<ChunkId, Vector>,
                         nowChunks: map<ChunkId, Chunk>, nowVec: map<ChunkId, Vector>, dim: nat,
                         fewer: map<ChunkId, Chunk>)
    requires Shaped(vec, dim) && Shaped(nowVec, dim) && Balanced(deltas, chunks, vec, nowChunks, nowVec, dim)
    requires fewer.Keys <= nowChunks.Keys && (forall id | id in fewer :: fewer[id] == nowChunks[id])
    requires forall id | id in nowChunks && id in nowVec :: id in fewer
    ensures Balanced(deltas, chunks, vec, fewer, nowVec, dim)
  {
    RowsWithoutVectors(nowChunks, nowVec, fewer, dim);
    forall t ensures BalancedFor(deltas, chunks, vec, fewer, nowVec, dim, t) {
      assert BalancedFor(deltas, chunks, vec, nowChunks, nowVec, dim, t);
    }
  }

  const BATCH_SIZE: nat := 500

  lemma NothingNamed(rows: seq<ChunkId>, vec: map<ChunkId, Vector>)
    ensures SetOf(rows[..0]) == {} && vec - {} == vec
  {
  }

  lemma NamedIn(rows: seq<ChunkId>, i: nat)
    ensures i < |rows| ==> rows[i] in SetOf(rows)
  {
  }

  lemma NamedMore(rows: seq<ChunkId>, start: nat, i: nat, vec: map<ChunkId, Vector>)
    requires start <= i < |rows| && Distinct(rows)
    ensures vec - SetOf(rows[start..i]) - {rows[i]} == vec - SetOf(rows[start..i+1])
    ensures rows[i] !in SetOf(rows[start..i])
  {
    assert rows[start..i+1] == rows[start..i] + [rows[i]];
    SetOfAppend(rows[start..i], rows[i]);
  }

  lemma NamedSplit(rows: seq<ChunkId>, start: nat, end: nat, vec: map<ChunkId, Vector>)
    requires start <= end <= |rows|
    ensures vec - SetOf(rows[..start]) - SetOf(rows[start..end]) == vec - SetOf(rows[..end])
  {
    assert rows[..end] == rows[..start] + rows[start..end];
  }

  lemma ResummedNone(sums: map<Thread, Stored>, chunks: map<ChunkId, Chunk>, vec: map<ChunkId, Vector>, dim: nat)
    requires Shaped(vec, dim)
    ensures Resummed(sums, chunks, vec, dim, {}) == sums
  {
  }

  lemma ResummedMore(sums: map<Thread, Stored>, chunks: map<ChunkId, Chunk>, vec: map<ChunkId, Vector>, dim: nat,
                     touched: set<Thread>, t: Thread)
    requires Shaped(vec, dim)
    ensures var now := Resummed(sums, chunks, vec, dim, touched);
      && now[t := Readable(Exact(chunks, vec, dim, t))] == Resummed(sums, chunks, vec, dim, touched + {t})
      && (t !in touched ==> (t in now <==> t in sums) && (t in sums ==> now[t] == sums[t]))
  {
    hide Exact;
  }

  /** The running sum of a thread and its delta make its exact sum. */
  lemma DeltaApplies(deltas: Deltas, chunks0: map<ChunkId, Chunk>, vec0: map<ChunkId, Vector>,
                     sums: map<Thread, Stored>,
                     chunks: map<ChunkId, Chunk>, vec: map<ChunkId, Vector>, dim: nat, t: Thread)
    requires Shaped(vec0, dim) && Shaped(vec, dim) && t in deltas
    requires Agree(chunks0, vec0, sums, dim) && Balanced(deltas, chunks0, vec0, chunks, vec, dim)
    ensures |deltas[t].total| == dim
    ensures t in sums && sums[t].Readable? ==>
              |sums[t].sum.total| == dim && Plus(sums[t].sum, deltas[t]) == Exact(chunks, vec, dim, t)
  {
    assert BalancedFor(deltas, chunks0, vec0, chunks, vec, dim, t);
  }

  lemma ResummedAgrees(deltas: Deltas, chunks0: map<ChunkId, Chunk>, vec0: map<ChunkId, Vector>,
                       sums: map<Thread, Stored>, chunks: map<ChunkId, Chunk>, vec: map<ChunkId, Vector>, dim: nat)
    requires Shaped(vec0, dim) && Shaped(vec, dim)
    requires Agree(chunks0, vec0, sums, dim) && Balanced(deltas, chunks0, vec0, chunks, vec, dim)
    ensures Agree(chunks, vec, Resummed(sums, chunks, vec, dim, deltas.Keys), dim)
  {
    hide Exact, Plus, Shaped;
    forall t | t in sums && sums[t].Readable? && t !in deltas ensures sums[t].sum == Exact(chunks, vec, dim, t) {
      assert BalancedFor(deltas, chunks0, vec0, chunks, vec, dim, t);
      PlusNothing(Exact(chunks0, vec0, dim, t));
    }
  }

  lemma TouchedHaveRows(chunks: map<ChunkId, Chunk>, vec: map<ChunkId, Vector>, gone: set<ChunkId>)
    ensures Touched(chunks, vec, gone) <= ThreadsOf(chunks)
  {
  }

  /** The chunk rows may go after the sums were read: their vectors are gone by then. */
  lemma RowsLast(dim: nat, s: Tables, gone: set<ChunkId>)
    requires Shaped(s.vec, dim)
    ensures Shaped(s.vec - gone, dim)
    ensures Resummed(s.sums, s.chunks, s.vec - gone, dim, Touched(s.chunks, s.vec, gone))
         == Without(dim, s, gone).sums
  {
    hide Exact, Touched;
    RowsWithoutVectors(s.chunks, s.vec - gone, s.chunks - gone, dim);
  }

  lemma DeletedIs(dim: nat, s: Tables, t: Thread, n: Tables)
    requires Shaped(s.vec, dim)
    requires n.chunks == map id | id in s.chunks && s.chunks[id].thread != t
                                  && !OfThread(s.threadOf, t, s.chunks[id].claimant) :: s.chunks[id]
    requires n.vec == s.vec - OfThreadRows(s.chunks, t) && n.sums == s.sums - {t} && n.threads == s.threads - {t}
    requires n.threadOf == s.threadOf - (set c | c in s.threadOf && s.threadOf[c] == t)
    ensures n == Next(dim, s, Delete(t))
  {
  }

  lemma NamedOneMore(rows: seq<ChunkId>, start: nat, i: nat)
    requires start <= i < |rows|
    ensures SetOf(rows[start..i+1]) == SetOf(rows[start..i]) + {rows[i]}
  {
    assert rows[start..i+1] == rows[start..i] + [rows[i]];
    SetOfAppend(rows[start..i], rows[i]);
  }

  /** What earlier batches took is not in the next one, so it touches what it would have at first. */
  lemma TouchedSplit(chunks: map<ChunkId, Chunk>, vec: map<ChunkId, Vector>, rows: seq<ChunkId>, start: nat, end: nat)
    requires start <= end <= |rows|
    ensures Touched(chunks, vec, SetOf(rows[..start])) +
            Touched(chunks, vec - SetOf(rows[..start]), SetOf(rows[start..end]))
            == Touched(chunks, vec, SetOf(rows[..end]))
  {
    assert rows[..end] == rows[..start] + rows[start..end];
    assert SetOf(rows[..end]) == SetOf(rows[..start]) + SetOf(rows[start..end]);
  }

  lemma SummedThreads(chunks: map<ChunkId, Chunk>, summed: set<Thread>, more: set<Thread>, threads: set<Thread>,
                      messages: set<Claimant>)
    requires RowKeys(chunks, summed, threads, messages) && more <= ThreadsOf(chunks)
    ensures RowKeys(chunks, summed + more, threads, messages)
  {
  }

  /** A message's rows, or those of one of its payloads. */
  function Selected(chunks: map<ChunkId, Chunk>, c: Claimant, only: Option<Payload>): set<ChunkId> {
    set id | id in chunks && chunks[id].claimant == c && (only.Some? ==> chunks[id].slice == only)
  }

  function OfThreadRows(chunks: map<ChunkId, Chunk>, t: Thread): set<ChunkId> {
    set id | id in chunks && chunks[id].thread == t
  }

  predicate OfThread(threadOf: map<Claimant, Thread>, t: Thread, c: Claimant) {
    c in threadOf && threadOf[c] == t
  }

  /** A vectored chunk row that a thread's message holds under another, summed, thread. */
  predicate Strays(chunks: map<ChunkId, Chunk>, vec: map<ChunkId, Vector>, sums: map<Thread, Stored>,
                   threadOf: map<Claimant, Thread>,
                   t: Thread, id: ChunkId)
  {
    && id in chunks && id in vec && chunks[id].thread != t && OfThread(threadOf, t, chunks[id].claimant)
    && chunks[id].thread in sums && sums[chunks[id].thread].Readable?
  }

  lemma ThreadGoneKeys(chunks: map<ChunkId, Chunk>, sums: map<Thread, Stored>, threads: set<Thread>,
                       threadOf: map<Claimant, Thread>,
                       t: Thread, left: map<ChunkId, Chunk>)
    requires RowKeys(chunks, sums.Keys, threads, threadOf.Keys)
    requires left == map id | id in chunks && chunks[id].thread != t && !OfThread(threadOf, t, chunks[id].claimant) ::
            chunks[id]
    ensures RowKeys(left, (sums - {t}).Keys, threads - {t},
                    (threadOf - (set c | c in threadOf && threadOf[c] == t)).Keys)
  {
  }

  lemma {:induction false} ThreadGone(chunks: map<ChunkId, Chunk>, vec: map<ChunkId, Vector>, sums: map<Thread, Stored>,
                                      threadOf: map<Claimant, Thread>, t: Thread, left: map<ChunkId, Chunk>, dim: nat)
    requires Shaped(vec, dim) && Agree(chunks, vec, sums, dim)
    requires left == map id | id in chunks && chunks[id].thread != t && !OfThread(threadOf, t, chunks[id].claimant) ::
            chunks[id]
    ensures Shaped(vec - OfThreadRows(chunks, t), dim)
    ensures Agree(left, vec - OfThreadRows(chunks, t), sums - {t}, dim) <==> !exists id ::
            Strays(chunks, vec, sums, threadOf, t, id)
  {
    var vec', sums' := vec - OfThreadRows(chunks, t), sums - {t};
    if id :| Strays(chunks, vec, sums, threadOf, t, id) {
      var u := chunks[id].thread;
      var before, after := Members(chunks, vec, u), Members(left, vec', u);
      assert after <= before && id in before && id !in after;
      assert |before| == |after| + |before - after| by { assert before == after + (before - after); }
      ExactCounts(chunks, vec, dim, u);
      ExactCounts(left, vec', dim, u);
      assert u in sums' && sums'[u].sum != Exact(left, vec', dim, u);
    } else {
      forall u | u in sums' && sums'[u].Readable? ensures sums'[u].sum == Exact(left, vec', dim, u) {
        assert Members(left, vec', u) == Members(chunks, vec, u) by {
          forall id | id in Members(chunks, vec, u) ensures id in Members(left, vec', u) {
            assert !Strays(chunks, vec, sums, threadOf, t, id);
          }
        }
        TotalAgrees(Members(left, vec', u), vec, vec', dim);
      }
    }
  }

  /** The store, driven by a run until an operation spoils its sums. */
  method Run(dim: nat, operations: seq<Operation>) returns (store: SumStore, done: nat)
    ensures fresh(store) && store.dim == dim && done <= |operations|
    ensures if done == |operations| then NoneSpoils(dim, operations) else FirstSpoils(dim, operations, done)
    ensures store.State() == After(dim, operations[..if done < |operations| then done + 1 else done])
    ensures store.Valid() <==> done == |operations|
  {
    hide Exact, Agree, Shaped, RowKeys, Strays, Next, CanReplace, Spoils;
    store := new SumStore(dim);
    done := 0;
    while done < |operations|
      invariant fresh(store) && done <= |operations| && store.dim == dim && store.Valid()
      invariant store.State() == After(dim, operations[..done]) && NoneSpoils(dim, operations[..done])
    {
      ghost var before := store.State();
      assert operations[..done+1][..done] == operations[..done];
      var spoils := Step(store, operations[done]);
      OneMore(dim, operations, done);
      if spoils {
        return;
      }
      done := done + 1;
    }
    assert operations[..|operations|] == operations;
  }

  method Step(store: SumStore, op: Operation) returns (spoils: bool)
    requires store.Valid()
    modifies store
    ensures store.State() == Next(store.dim, old(store.State()), op)
    ensures spoils == Spoils(old(store.State()), op) && (store.Valid() <==> !spoils)
  {
    hide Exact, Agree, Shaped, RowKeys, Strays, CanReplace;
    NextKeeps(store.dim, store.State(), op);
    spoils := false;
    match op
    case Track(c, t) => store.TrackMessage(c, t);
    case Replace(c, t, slice, incoming, embeddings, deleteMissing) =>
      var counts := store.ReplaceMessageChunks(c, t, slice, incoming, embeddings, deleteMissing);
    case DeleteSlice(c, only) => store.DeleteChunks(c, only);
    case Remove(c) => store.RemoveMessage(c);
    case ReadSums(t) => if t in store.threads { var sum := store.ThreadSumsOf(t); }
    case Repair(t) => var repaired, read := store.Reconcile(t);
    case Lose(t) => store.sums := store.sums - {t};
    case Garble(t) => if t in store.sums { store.sums := store.sums[t := Unreadable]; }
    case Delete(t) =>
      var strays := set id | id in store.chunks && Strays(store.chunks, store.vec, store.sums, store.threadOf, t, id);
      NoStrays(store.chunks, store.vec, store.sums, store.threadOf, t, strays);
      store.DeleteThread(t);
      spoils := strays != {};
  }

  lemma OneMore(dim: nat, operations: seq<Operation>, n: nat)
    requires n < |operations| && NoneSpoils(dim, operations[..n])
    ensures if Spoils(After(dim, operations[..n]), operations[n]) then FirstSpoils(dim, operations, n)
            else NoneSpoils(dim, operations[..n+1])
  {
    hide Spoils, After;
    assert forall i | 0 <= i <= n :: operations[..n+1][..i] == operations[..i] && operations[..n+1][i] == operations[i];
    assert forall i | 0 <= i < n :: operations[..n][..i] == operations[..i] && operations[..n][i] == operations[i];
  }

  lemma NoStrays(chunks: map<ChunkId, Chunk>, vec: map<ChunkId, Vector>, sums: map<Thread, Stored>,
                 threadOf: map<Claimant, Thread>, t: Thread, strays: set<ChunkId>)
    requires strays == set id | id in chunks && Strays(chunks, vec, sums, threadOf, t, id)
    ensures strays == {} <==> !exists id :: Strays(chunks, vec, sums, threadOf, t, id)
  {
    assert forall id | Strays(chunks, vec, sums, threadOf, t, id) :: id in strays;
  }
}
