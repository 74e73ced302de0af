/** The one-off migration (migration.js, `copyCollection`): every document
    of one Firestore collection is written under the same ID into another,
    through write batches committed 500 writes at a time. Firestore is a
    map from collection name to documents plus a log of committed batches. */
module Migration {

  /** The largest batch `copyCollection` builds before committing it. */
  const BatchLimit: nat := 500

  /** `batch.set(db.collection(coll).doc(id), data)`. */
  datatype Write<D> = Write(coll: string, id: string, data: D)

  /** The documents of a collection; a collection never written is empty. */
  function Collection<D>(colls: map<string, map<string, D>>, name: string): map<string, D> {
    if name in colls then colls[name] else map[]
  }

  /** One `set` without merge: the document is replaced whole. */
  function Set<D>(colls: map<string, map<string, D>>, w: Write<D>): (r: map<string, map<string, D>>)
    ensures Collection(r, w.coll) == Collection(colls, w.coll)[w.id := w.data]
    ensures forall c :: c != w.coll ==> Collection(r, c) == Collection(colls, c)
  {
    colls[w.coll := Collection(colls, w.coll)[w.id := w.data]]
  }

  /** The writes applied in order. */
  function ApplyWrites<D>(colls: map<string, map<string, D>>, writes: seq<Write<D>>): map<string, map<string, D>>
    decreases |writes|
  {
    if writes == [] then colls
    else Set(ApplyWrites(colls, writes[..|writes| - 1]), writes[|writes| - 1])
  }

  /** Applying two runs of writes is applying their concatenation. */
  lemma {:induction false} ApplyWritesAppend<D>(colls: map<string, map<string, D>>, a: seq<Write<D>>, b: seq<Write<D>>)
    ensures ApplyWrites(colls, a + b) == ApplyWrites(ApplyWrites(colls, a), b)
    decreases |b|
  {
    if b == [] {
      assert a + b == a;
    } else {
      var init := b[..|b| - 1];
      assert (a + b)[..|a + b| - 1] == a + init;
      assert (a + b)[|a + b| - 1] == b[|b| - 1];
      ApplyWritesAppend(colls, a, init);
    }
  }

  function Flatten<T>(chunks: seq<seq<T>>): seq<T> {
    if chunks == [] then [] else chunks[0] + Flatten(chunks[1..])
  }

  /** How the loop cuts a run of writes into committed batches: full
      batches of `BatchLimit` and one final, shorter batch when writes are
      left over. */
  function Chunks<T>(w: seq<T>): seq<seq<T>>
    decreases |w|
  {
    if w == [] then []
    else if |w| <= BatchLimit then [w]
    else [w[..BatchLimit]] + Chunks(w[BatchLimit..])
  }

  /** Every batch holds between 1 and `BatchLimit` writes, the batches put
      back together are the writes, and there are ceil(n / BatchLimit) of
      them. */
  lemma {:induction false} ChunksSpec<T>(w: seq<T>)
    ensures forall i :: 0 <= i < |Chunks(w)| ==> 1 <= |Chunks(w)[i]| <= BatchLimit
    ensures Flatten(Chunks(w)) == w
    ensures |Chunks(w)| == (|w| + BatchLimit - 1) / BatchLimit
    decreases |w|
  {
    if |w| > BatchLimit {
      var rest := w[BatchLimit..];
      ChunksSpec(rest);
      var cs := Chunks(w);
      assert cs[1..] == Chunks(rest);
      assert w[..BatchLimit] + rest == w;
      forall i | 0 <= i < |cs|
        ensures 1 <= |cs[i]| <= BatchLimit
      {
        if i > 0 {
          assert cs[i] == Chunks(rest)[i - 1];
        }
      }
    } else if w != [] {
      assert Chunks(w)[1..] == [];
    }
  }

  /** A write count at which a batch has just been committed. */
  predicate Boundary(n: nat) {
    n % BatchLimit == 0
  }

  /** Cutting a run that starts with whole batches cuts those batches off
      first. */
  lemma {:induction false} ChunksAppend<T>(a: seq<T>, b: seq<T>)
    requires Boundary(|a|)
    ensures Chunks(a + b) == Chunks(a) + Chunks(b)
    decreases |a|
  {
    if a == [] {
      assert a + b == b;
    } else {
      assert (a + b)[..BatchLimit] == a[..BatchLimit];
      assert (a + b)[BatchLimit..] == a[BatchLimit..] + b;
      ChunksAppend(a[BatchLimit..], b);
      if |a| == BatchLimit {
        assert a[BatchLimit..] == [];
        if b == [] {
          assert a + b == a;
        }
      }
    }
  }

  /** A write run of one batch after whole batches adds one batch; a full
      one ends on a batch boundary again. */
  lemma ChunksLast<T>(a: seq<T>, batch: seq<T>)
    requires Boundary(|a|) && 0 < |batch| <= BatchLimit
    ensures Chunks(a + batch) == Chunks(a) + [batch]
    ensures |batch| == BatchLimit ==> Boundary(|a + batch|)
  {
    ChunksAppend(a, batch);
  }

  /** What `db.collection(coll).get()` returns: each document of the
      collection exactly once, as (ID, data), in some order. */
  ghost predicate IsSnapshot<D>(coll: map<string, D>, snapshot: seq<(string, D)>) {
    && (forall i :: 0 <= i < |snapshot| ==> snapshot[i].0 in coll && coll[snapshot[i].0] == snapshot[i].1)
    && (forall id :: id in coll ==> exists i :: 0 <= i < |snapshot| && snapshot[i].0 == id)
    && (forall i, j :: 0 <= i < j < |snapshot| ==> snapshot[i].0 != snapshot[j].0)
  }

  /** The writes `copyCollection` queues, one per snapshot document, in
      snapshot order. */
  function CopyWrites<D>(toColl: string, snapshot: seq<(string, D)>): (ws: seq<Write<D>>)
    ensures |ws| == |snapshot|
    ensures forall i :: 0 <= i < |snapshot| ==> ws[i] == Write(toColl, snapshot[i].0, snapshot[i].1)
  {
    if snapshot == [] then []
    else CopyWrites(toColl, snapshot[..|snapshot| - 1])
         + [Write(toColl, snapshot[|snapshot| - 1].0, snapshot[|snapshot| - 1].1)]
  }

  /** The documents of a snapshot as a map. */
  function SnapshotMap<D>(snapshot: seq<(string, D)>): map<string, D> {
    if snapshot == [] then map[]
    else SnapshotMap(snapshot[..|snapshot| - 1])[snapshot[|snapshot| - 1].0 := snapshot[|snapshot| - 1].1]
  }

  /** Copying a run of documents into `toColl` overlays them on what
      `toColl` held and touches no other collection. */
  lemma {:induction false} ApplyCopy<D>(colls: map<string, map<string, D>>, toColl: string, snapshot: seq<(string, D)>)
    ensures Collection(ApplyWrites(colls, CopyWrites(toColl, snapshot)), toColl)
            == Collection(colls, toColl) + SnapshotMap(snapshot)
    ensures forall c :: c != toColl ==>
              Collection(ApplyWrites(colls, CopyWrites(toColl, snapshot)), c) == Collection(colls, c)
  {
    if snapshot != [] {
      var init := snapshot[..|snapshot| - 1];
      var last := snapshot[|snapshot| - 1];
      var ws := CopyWrites(toColl, snapshot);
      assert ws[..|ws| - 1] == CopyWrites(toColl, init);
      ApplyCopy(colls, toColl, init);
      var before := ApplyWrites(colls, CopyWrites(toColl, init));
      assert ApplyWrites(colls, ws) == Set(before, Write(toColl, last.0, last.1));
    }
  }

  /** A snapshot read as a map is the collection it was taken from. */
  lemma {:induction false} SnapshotMapIsCollection<D>(coll: map<string, D>, snapshot: seq<(string, D)>)
    requires IsSnapshot(coll, snapshot)
    ensures SnapshotMap(snapshot) == coll
  {
    SnapshotMapSpec(snapshot);
    var m := SnapshotMap(snapshot);
    forall id | id in coll
      ensures id in m && m[id] == coll[id]
    {
      var i :| 0 <= i < |snapshot| && snapshot[i].0 == id;
    }
    forall id | id in m
      ensures id in coll
    {
      var i :| 0 <= i < |snapshot| && snapshot[i].0 == id;
    }
  }

  /** With distinct IDs, the map holds each snapshot document and nothing
      else. */
  lemma {:induction false} SnapshotMapSpec<D>(snapshot: seq<(string, D)>)
    requires forall i, j :: 0 <= i < j < |snapshot| ==> snapshot[i].0 != snapshot[j].0
    ensures forall i :: 0 <= i < |snapshot| ==>
              snapshot[i].0 in SnapshotMap(snapshot) && SnapshotMap(snapshot)[snapshot[i].0] == snapshot[i].1
    ensures forall id :: id in SnapshotMap(snapshot) ==> exists i :: 0 <= i < |snapshot| && snapshot[i].0 == id
  {
    if snapshot != [] {
      var init := snapshot[..|snapshot| - 1];
      SnapshotMapSpec(init);
      var m := SnapshotMap(snapshot);
      forall i | 0 <= i < |snapshot|
        ensures snapshot[i].0 in m && m[snapshot[i].0] == snapshot[i].1
      {
        if i < |init| {
          assert init[i] == snapshot[i];
        }
      }
      forall id | id in m
        ensures exists i :: 0 <= i < |snapshot| && snapshot[i].0 == id
      {
        if id != snapshot[|snapshot| - 1].0 {
          assert id in SnapshotMap(init);
          var i :| 0 <= i < |init| && init[i].0 == id;
          assert snapshot[i] == init[i];
        }
      }
    }
  }

  /** The effect of the whole copy on the data: the destination holds every
      source document under its own ID, with its data, besides the documents
      it already held under other IDs; the source, when it is a different
      collection, and every other collection are unchanged. */
  lemma CopyOutcome<D>(colls: map<string, map<string, D>>, fromColl: string, toColl: string,
                       snapshot: seq<(string, D)>)
    requires IsSnapshot(Collection(colls, fromColl), snapshot)
    ensures var after := ApplyWrites(colls, CopyWrites(toColl, snapshot));
            && Collection(after, toColl) == Collection(colls, toColl) + Collection(colls, fromColl)
            && (forall c :: c != toColl ==> Collection(after, c) == Collection(colls, c))
  {
    ApplyCopy(colls, toColl, snapshot);
    SnapshotMapIsCollection(Collection(colls, fromColl), snapshot);
  }

  /** The Firestore database the script talks to, with the batches it has
      committed in order. */
  class Database<D> {
    var collections: map<string, map<string, D>>
    var commits: seq<seq<Write<D>>>

    constructor (initial: map<string, map<string, D>>)
      ensures collections == initial && commits == []
    {
      collections := initial;
      commits := [];
    }

    /** `batch.commit()`: the batch's writes land, in order, and the batch is
        logged. */
    method Commit(batch: seq<Write<D>>)
      modifies this
      ensures collections == ApplyWrites(old(collections), batch)
      ensures commits == old(commits) + [batch]
    {
      collections := ApplyWrites(collections, batch);
      commits := commits + [batch];
    }
  }

  /** `await batch.commit()` inside the copy: committing the batch that
      follows the writes committed so far extends both the commit log and
      the applied writes by that batch. */
  method CommitBatch<D>(db: Database<D>, batch: seq<Write<D>>,
                        ghost committed: seq<Write<D>>,
                        ghost initial: map<string, map<string, D>>, ghost log: seq<seq<Write<D>>>)
    requires Boundary(|committed|) && 0 < |batch| <= BatchLimit
    requires db.commits == log + Chunks(committed)
    requires db.collections == ApplyWrites(initial, committed)
    modifies db
    ensures db.commits == log + Chunks(committed + batch)
    ensures db.collections == ApplyWrites(initial, committed + batch)
    ensures |batch| == BatchLimit ==> Boundary(|committed + batch|)
  {
    ChunksLast(committed, batch);
    ApplyWritesAppend(initial, committed, batch);
    db.Commit(batch);
  }

  /** `copyCollection(fromColl, toColl)` over the snapshot it reads: it
      commits exactly the batches `Chunks` cuts from the copy writes, so the
      data ends as `CopyOutcome` describes, and it reports the snapshot size. */
  method CopyCollection<D>(db: Database<D>, fromColl: string, toColl: string, snapshot: seq<(string, D)>)
    returns (copied: nat)
    modifies db
    ensures copied == |snapshot|
    ensures db.commits == old(db.commits) + Chunks(CopyWrites(toColl, snapshot))
    ensures db.collections == ApplyWrites(old(db.collections), CopyWrites(toColl, snapshot))
    ensures IsSnapshot(old(Collection(db.collections, fromColl)), snapshot) ==>
              && Collection(db.collections, toColl)
                 == old(Collection(db.collections, toColl)) + old(Collection(db.collections, fromColl))
              && forall c :: c != toColl ==> Collection(db.collections, c) == old(Collection(db.collections, c))
  {
    ghost var writes := CopyWrites(toColl, snapshot);
    ghost var done := 0;
    var batch: seq<Write<D>> := [];
    var ops := 0;
    for i := 0 to |snapshot|
      invariant ops == |batch| < BatchLimit && done + ops == i
      invariant Boundary(done)
      invariant batch == writes[done..i]
      invariant db.commits == old(db.commits) + Chunks(writes[..done])
      invariant db.collections == ApplyWrites(old(db.collections), writes[..done])
    {
      batch := batch + [Write(toColl, snapshot[i].0, snapshot[i].1)];
      assert batch == writes[done..i + 1];
      ops := ops + 1;
      if ops == BatchLimit {
        assert writes[..i + 1] == writes[..done] + batch;
        CommitBatch(db, batch, writes[..done], old(db.collections), old(db.commits));
        batch := [];
        ops := 0;
        done := i + 1;
      }
    }
    if ops > 0 {
      assert writes == writes[..done] + batch;
      CommitBatch(db, batch, writes[..done], old(db.collections), old(db.commits));
    } else {
      assert writes[..done] == writes;
    }
    if IsSnapshot(old(Collection(db.collections, fromColl)), snapshot) {
      CopyOutcome(old(db.collections), fromColl, toColl, snapshot);
    }
    copied := |snapshot|;
  }
}
