/** The operation store (main.py, `save_operation` and `list_operations`):
    one Firestore collection, a map from document ID to document. The
    server timestamp is a clock that every write advances. */
module Store {
  import opened Wrappers
  import opened JsonValues
  import opened DocIds

  /** A stored document as `to_dict()` returns it. `save_operation` always
      writes all four fields; `name`, `url` and `payload` are optional
      because the readers fall back when a document lacks them. */
  datatype Doc = Doc(name: Option<string>, url: Option<string>, payload: Option<Json>, created: int)

  /** `set({...}, merge=True)` with every field listed: the document under
      `key` ends up holding exactly the new values, whatever was there. */
  function Upsert(docs: map<string, Doc>, key: string, name: string, url: string, payload: Json, stamp: int)
    : (r: map<string, Doc>)
    ensures r.Keys == docs.Keys + {key}
    ensures forall k :: k in docs && k != key ==> r[k] == docs[k]
    ensures r[key] == Doc(Some(name), Some(url), Some(payload), stamp)
  {
    docs[key := Doc(Some(name), Some(url), Some(payload), stamp)]
  }

  /** `data.get("name") or d.id`: the stored name, or the document ID when
      the name is missing or empty. */
  function DisplayName(id: string, doc: Doc): string {
    if doc.name.Some? && doc.name.value != "" then doc.name.value else id
  }

  /** What `order_by("created", DESCENDING).stream()` yields: every
      document ID exactly once, newest `created` first. */
  ghost predicate IsListing(docs: map<string, Doc>, listing: seq<string>) {
    && (forall i :: 0 <= i < |listing| ==> listing[i] in docs)
    && (forall k :: k in docs ==> k in listing)
    && (forall i, j :: 0 <= i < j < |listing| ==> listing[i] != listing[j])
    && (forall i, j :: 0 <= i < j < |listing| && listing[i] in docs && listing[j] in docs ==>
          docs[listing[i]].created >= docs[listing[j]].created)
  }

  /** The names `list_operations` returns for a listing. */
  function NamesOf(docs: map<string, Doc>, listing: seq<string>): (names: seq<string>)
    requires forall i :: 0 <= i < |listing| ==> listing[i] in docs
  {
    seq(|listing|, i requires 0 <= i < |listing| => DisplayName(listing[i], docs[listing[i]]))
  }

  /** `k` is stored, and no stored document is stamped later than it. */
  ghost predicate IsNewest(docs: map<string, Doc>, k: string) {
    k in docs && forall k' :: k' in docs ==> docs[k'].created <= docs[k].created
  }

  /** Every non-empty store has a newest document. */
  lemma {:induction false} NewestExists(docs: map<string, Doc>) returns (k: string)
    requires docs != map[]
    ensures IsNewest(docs, k)
    decreases |docs|
  {
    var k0 :| k0 in docs;
    var rest := docs - {k0};
    assert docs.Keys == rest.Keys + {k0};
    if rest == map[] {
      k := k0;
      assert docs.Keys == {k0};
    } else {
      var k1 := NewestExists(rest);
      k := if docs[k0].created <= docs[k1].created then k1 else k0;
      forall k' | k' in docs ensures docs[k'].created <= docs[k].created {
        if k' != k0 {
          assert k' in rest;
        }
      }
    }
  }

  /** Putting a newest document in front of a listing of the others gives a
      listing of all of them. */
  lemma ConsListing(docs: map<string, Doc>, k: string, tail: seq<string>)
    requires IsNewest(docs, k)
    requires IsListing(docs - {k}, tail)
    ensures IsListing(docs, [k] + tail)
  {
    var listing := [k] + tail;
    var rest := docs - {k};
    assert forall i :: 1 <= i < |listing| ==> listing[i] == tail[i - 1];
    forall k' | k' in docs ensures k' in listing {
      if k' != k {
        assert k' in rest;
        var i :| 0 <= i < |tail| && tail[i] == k';
        assert listing[i + 1] == k';
      }
    }
    forall i, j | 0 <= i < j < |listing| ensures listing[i] != listing[j] {
      if i == 0 {
        assert tail[j - 1] in rest;
      }
    }
    forall i, j | 0 <= i < j < |listing| && listing[i] in docs && listing[j] in docs
      ensures docs[listing[i]].created >= docs[listing[j]].created
    {
      if i > 0 {
        assert tail[i - 1] in rest && tail[j - 1] in rest;
      }
    }
  }

  /** Every store can be listed: Firestore's query always has an answer. */
  lemma {:induction false} ListingExists(docs: map<string, Doc>) returns (listing: seq<string>)
    ensures IsListing(docs, listing)
    decreases |docs|
  {
    if docs == map[] {
      listing := [];
    } else {
      var k := NewestExists(docs);
      var rest := docs - {k};
      assert docs.Keys == rest.Keys + {k};
      var tail := ListingExists(rest);
      ConsListing(docs, k, tail);
      listing := [k] + tail;
    }
  }

  /** The document just written carries the newest stamp, so it heads every
      listing, and its name (or its ID when the name is empty) is the first
      name `list_operations` returns. */
  lemma SavedHeadsListing(docs: map<string, Doc>, key: string, name: string, url: string, payload: Json,
                          stamp: int, listing: seq<string>)
    requires forall k :: k in docs ==> docs[k].created < stamp
    requires IsListing(Upsert(docs, key, name, url, payload, stamp), listing)
    ensures |listing| > 0 && listing[0] == key
    ensures NamesOf(Upsert(docs, key, name, url, payload, stamp), listing)[0] == if name != "" then name else key
  {
    var after := Upsert(docs, key, name, url, payload, stamp);
    assert key in after;
    var p :| 0 <= p < |listing| && listing[p] == key;
    assert after[listing[0]].created >= after[listing[p]].created;
    if p > 0 {
      assert false;
    }
  }

  /** Saving the same name twice leaves one document under its key, holding
      the second call's fields and stamp. */
  lemma SaveTwice(docs: map<string, Doc>, key: string, name: string,
                  url1: string, payload1: Json, stamp1: int, url2: string, payload2: Json, stamp2: int)
    ensures var once := Upsert(docs, key, name, url1, payload1, stamp1);
            var twice := Upsert(once, key, name, url2, payload2, stamp2);
            && twice.Keys == once.Keys
            && |twice| == |once| == |docs| + (if key in docs then 0 else 1)
            && twice[key] == Doc(Some(name), Some(url2), Some(payload2), stamp2)
  {
    var once := Upsert(docs, key, name, url1, payload1, stamp1);
    if key !in docs {
      assert |once.Keys| == |docs.Keys| + 1;
    } else {
      assert once.Keys == docs.Keys;
    }
  }

  /** Every stored operation whose document holds a non-empty name is
      listed under that name. */
  lemma StoredNameListed(docs: map<string, Doc>, listing: seq<string>, key: string)
    requires IsListing(docs, listing)
    requires key in docs && docs[key].name.Some? && docs[key].name.value != ""
    ensures docs[key].name.value in NamesOf(docs, listing)
  {
    var p :| 0 <= p < |listing| && listing[p] == key;
    assert NamesOf(docs, listing)[p] == docs[key].name.value;
  }

  /** The Firestore collection that `save_operation` and `list_operations`
      share. `sha1` is the digest function `_doc_id` applies. */
  class OperationStore {
    const sha1: string -> Digest
    var docs: map<string, Doc>
    var clock: int

    /** No document is stamped later than the clock. */
    ghost predicate Valid()
      reads this
    {
      forall k :: k in docs ==> docs[k].created <= clock
    }

    /** The handle on a collection that already holds `initial`, every
        document stamped no later than the server time `now`. */
    constructor (digest: string -> Digest, initial: map<string, Doc>, now: int)
      requires forall k :: k in initial ==> initial[k].created <= now
      ensures Valid() && sha1 == digest && docs == initial && clock == now
    {
      sha1 := digest;
      docs := initial;
      clock := now;
    }

    /** `save_operation(name, url, payload)`: upsert under `_doc_id(name)`,
        stamping `created` with a fresh server time on every call. */
    method SaveOperation(name: string, url: string, payload: Json)
      requires Valid()
      modifies this
      ensures Valid()
      ensures clock > old(clock)
      ensures docs == Upsert(old(docs), DocId(sha1, name), name, url, payload, clock)
    {
      clock := clock + 1;
      docs := docs[DocId(sha1, name) := Doc(Some(name), Some(url), Some(payload), clock)];
    }

    /** `list_operations()`: the name of every document, newest first, as the
        query hands the document IDs over in `listing`. */
    method ListOperations(listing: seq<string>) returns (names: seq<string>)
      requires IsListing(docs, listing)
      ensures names == NamesOf(docs, listing)
    {
      names := [];
      for i := 0 to |listing|
        invariant names == NamesOf(docs, listing[..i])
      {
        var id := listing[i];
        var data := docs[id];
        names := names + [DisplayName(id, data)];
      }
      assert listing[..|listing|] == listing;
    }
  }
}
