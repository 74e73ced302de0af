/** `_doc_id`: the Firestore document ID of an operation, the SHA-1 digest of
    its name in URL-safe base64 with the `=` padding stripped. SHA-1 itself
    (FIPS 180-4) is not modelled: callers pass the digest function in. */
module DocIds {
  import opened Base64Url

  /** A SHA-1 digest: 20 bytes. */
  type Digest = d: seq<byte> | |d| == 20 witness seq(20, _ => 0)

  /** The document ID for a digest: base64url, then `rstrip("=")`. */
  function DocIdOfDigest(digest: Digest): (key: string)
    ensures |key| == 27
    ensures forall i :: 0 <= i < |key| ==> IsUrlSafe(key[i])
    ensures key + "=" == Encode(digest)
  {
    EncodeShape(digest);
    var padded := Encode(digest);
    var key := StripPadding(padded);
    assert padded[26] != '=' && padded[27] == '=';
    key
  }

  /** `_doc_id(name)` for a given SHA-1 function. */
  function DocId(sha1: string -> Digest, name: string): (key: string)
    ensures |key| == 27
    ensures forall i :: 0 <= i < |key| ==> IsUrlSafe(key[i])
  {
    DocIdOfDigest(sha1(name))
  }

  /** Recovers the digest from a document ID. */
  function DigestOfDocId(key: string): seq<byte> {
    Decode(key + "=")
  }

  /** The document ID determines the digest, so distinct digests get
      distinct document IDs. */
  lemma DigestOfDocIdInverts(digest: Digest)
    ensures DigestOfDocId(DocIdOfDigest(digest)) == digest
  {
    DecodeEncode(digest);
  }

  lemma DocIdInjective(a: Digest, b: Digest)
    requires DocIdOfDigest(a) == DocIdOfDigest(b)
    ensures a == b
  {
    DigestOfDocIdInverts(a);
    DigestOfDocIdInverts(b);
  }

  /** Two operation names share a document exactly when SHA-1 collides on them. */
  lemma SameDocIdIffSameDigest(sha1: string -> Digest, n1: string, n2: string)
    ensures DocId(sha1, n1) == DocId(sha1, n2) <==> sha1(n1) == sha1(n2)
  {
    if DocId(sha1, n1) == DocId(sha1, n2) {
      DocIdInjective(sha1(n1), sha1(n2));
    }
  }

  /** A document ID never holds `/` (a Firestore path separator), `+` or `=`. */
  lemma DocIdIsPathSafe(sha1: string -> Digest, name: string)
    ensures '/' !in DocId(sha1, name) && '+' !in DocId(sha1, name) && '=' !in DocId(sha1, name)
  {
    var key := DocId(sha1, name);
    forall c | c in key ensures c != '/' && c != '+' && c != '=' {
      var i :| 0 <= i < |key| && key[i] == c;
    }
  }
}
