/**
 * A document collection as the store sees it: a sequence of documents in
 * insertion order, addressed through an application-level key. Insert never
 * checks that keys are unique, so lookups, replaces and deletes act on the
 * FIRST document whose key matches, as a one-document filter on `id` does.
 */
module Collection {
  import opened Wrappers

  /** No document of `docs` has key `id`. */
  predicate Absent<D>(docs: seq<D>, key: D -> string, id: string)
  {
    forall j :: 0 <= j < |docs| ==> key(docs[j]) != id
  }

  /** Position `i` holds the first document whose key is `id`. */
  predicate IsFirstMatch<D>(docs: seq<D>, key: D -> string, id: string, i: int)
  {
    0 <= i < |docs| && key(docs[i]) == id && Absent(docs[..i], key, id)
  }

  /** No two documents share a key. The store does not enforce this; it holds
      as long as every inserted key is fresh. */
  ghost predicate UniqueKeys<D>(docs: seq<D>, key: D -> string)
  {
    forall i, j :: 0 <= i < j < |docs| ==> key(docs[i]) != key(docs[j])
  }

  /** The index a one-document filter on `id` selects. */
  function FirstMatch<D>(docs: seq<D>, key: D -> string, id: string): (r: Option<nat>)
    ensures r.Some? ==> IsFirstMatch(docs, key, id, r.value)
    ensures r.None? <==> Absent(docs, key, id)
    decreases |docs|
  {
    if |docs| == 0 then None
    else if key(docs[0]) == id then Some(0)
    else
      match FirstMatch(docs[1..], key, id)
      case None => None
      case Some(k) =>
        assert docs[..k + 1] == [docs[0]] + docs[1..][..k];
        Some(k + 1)
  }

  /** The first match is unique: any two positions that are both the first
      match of the same key coincide. */
  lemma FirstMatchUnique<D>(docs: seq<D>, key: D -> string, id: string, i: int, j: int)
    requires IsFirstMatch(docs, key, id, i) && IsFirstMatch(docs, key, id, j)
    ensures i == j
  {
  }

  /** find-one on `id`: the first document with that key, if any. */
  function FindOne<D>(docs: seq<D>, key: D -> string, id: string): (r: Option<D>)
    ensures r.None? <==> Absent(docs, key, id)
    ensures r.Some? ==> exists i :: IsFirstMatch(docs, key, id, i) && docs[i] == r.value
  {
    match FirstMatch(docs, key, id)
    case None => None
    case Some(i) => Some(docs[i])
  }

  /** replace-one on `id`: the first document with that key becomes `d`; every
      other position keeps its document; with no match nothing changes. */
  function ReplaceOne<D>(docs: seq<D>, key: D -> string, id: string, d: D): (r: seq<D>)
    ensures |r| == |docs|
    ensures Absent(docs, key, id) ==> r == docs
    ensures forall j :: 0 <= j < |docs| ==> r[j] == if IsFirstMatch(docs, key, id, j) then d else docs[j]
  {
    match FirstMatch(docs, key, id)
    case None => docs
    case Some(i) =>
      assert forall j :: 0 <= j < |docs| && IsFirstMatch(docs, key, id, j) ==> j == i by {
        forall j | 0 <= j < |docs| && IsFirstMatch(docs, key, id, j) {
          FirstMatchUnique(docs, key, id, i, j);
        }
      }
      docs[i := d]
  }

  /** delete-one on `id`: the first document with that key is removed and the
      others keep their order; with no match nothing changes. */
  function DeleteOne<D>(docs: seq<D>, key: D -> string, id: string): (r: seq<D>)
    ensures Absent(docs, key, id) ==> r == docs
    ensures !Absent(docs, key, id) ==> |r| == |docs| - 1
    ensures forall i :: IsFirstMatch(docs, key, id, i) ==> r == docs[..i] + docs[i + 1..]
    ensures multiset(r) <= multiset(docs)
  {
    match FirstMatch(docs, key, id)
    case None => docs
    case Some(i) =>
      assert forall j :: IsFirstMatch(docs, key, id, j) ==> j == i by {
        forall j | IsFirstMatch(docs, key, id, j) {
          FirstMatchUnique(docs, key, id, i, j);
        }
      }
      assert docs == docs[..i] + docs[i + 1..][..0] + [docs[i]] + docs[i + 1..];
      docs[..i] + docs[i + 1..]
  }

  /** With unique keys, after a delete-one on `id` no document has that key. */
  lemma DeleteRemovesKey<D>(docs: seq<D>, key: D -> string, id: string)
    requires UniqueKeys(docs, key)
    ensures Absent(DeleteOne(docs, key, id), key, id)
  {
  }

  /** With unique keys, deleting the same key twice leaves what deleting it
      once left. */
  lemma DeleteTwice<D>(docs: seq<D>, key: D -> string, id: string)
    requires UniqueKeys(docs, key)
    ensures DeleteOne(DeleteOne(docs, key, id), key, id) == DeleteOne(docs, key, id)
  {
  }

  /** Without unique keys the property above fails: of two documents with the
      same key, a delete-one leaves the second one findable. */
  lemma DuplicateSurvivesDelete<D>(a: D, b: D, key: D -> string, id: string)
    requires key(a) == id && key(b) == id
    ensures FindOne(DeleteOne([a, b], key, id), key, id) == Some(b)
  {
  }

  /** Deleting keeps keys unique. */
  lemma DeleteKeepsUnique<D>(docs: seq<D>, key: D -> string, id: string)
    requires UniqueKeys(docs, key)
    ensures UniqueKeys(DeleteOne(docs, key, id), key)
  {
  }

  /** Appending a document whose key is fresh: it is the one a lookup of its key
      finds, and keys stay unique. */
  lemma InsertFresh<D>(docs: seq<D>, key: D -> string, d: D)
    requires Absent(docs, key, key(d))
    ensures FindOne(docs + [d], key, key(d)) == Some(d)
    ensures UniqueKeys(docs, key) ==> UniqueKeys(docs + [d], key)
  {
    var s := docs + [d];
    assert s[..|docs|] == docs;
    assert IsFirstMatch(s, key, key(d), |docs|);
    var i := FirstMatch(s, key, key(d)).value;
    FirstMatchUnique(s, key, key(d), i, |docs|);
  }

  /** Appending a document leaves every lookup of another key as it was. */
  lemma InsertOtherKey<D>(docs: seq<D>, key: D -> string, d: D, id: string)
    requires key(d) != id
    ensures FindOne(docs + [d], key, id) == FindOne(docs, key, id)
  {
    var s := docs + [d];
    match FirstMatch(docs, key, id)
    case None =>
    case Some(i) =>
      assert s[..i] == docs[..i];
      assert IsFirstMatch(s, key, id, i);
      FirstMatchUnique(s, key, id, i, FirstMatch(s, key, id).value);
  }

  /** A replace whose document keeps the key keeps keys unique and is then what
      a lookup of that key finds. */
  lemma ReplaceSameKey<D>(docs: seq<D>, key: D -> string, id: string, d: D)
    requires UniqueKeys(docs, key) && key(d) == id && !Absent(docs, key, id)
    ensures UniqueKeys(ReplaceOne(docs, key, id, d), key)
    ensures FindOne(ReplaceOne(docs, key, id, d), key, id) == Some(d)
  {
  }

  /** A replace writes the document as given, so when its key differs from the
      filter key and keys were unique, the filter key is no longer found. */
  lemma ReplaceRekeys<D>(docs: seq<D>, key: D -> string, id: string, d: D)
    requires UniqueKeys(docs, key) && key(d) != id
    ensures Absent(ReplaceOne(docs, key, id, d), key, id)
  {
  }
}
