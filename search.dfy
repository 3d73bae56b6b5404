/**
 * The query path over the "messages" collection: the filter built from the
 * search text, the selection it makes, the count of matching documents, the
 * order by thread `date` descending and the skip/limit window.
 */
module Search {
  import opened Records

  /** The filter document: `{}` or a `$text` search for a phrase. */
  datatype Filter = MatchAll | TextSearch(phrase: string)

  /** Empty search text means no filter; otherwise the text, wrapped in double
      quotes, is searched as one phrase. */
  function BuildFilter(searchText: string): (f: Filter)
    ensures searchText == "" <==> f.MatchAll?
    ensures f.TextSearch? ==>
      |f.phrase| == |searchText| + 2 && f.phrase[0] == '"' && f.phrase[|f.phrase| - 1] == '"'
      && f.phrase[1..|f.phrase| - 1] == searchText
  {
    if searchText == "" then MatchAll else TextSearch("\"" + searchText + "\"")
  }

  /** Whether a thread satisfies the filter. This is the definition of what a
      filter matches; its ensures only spell out the two cases of the body.
      The text index is not modelled: `textMatches(t, phrase)` says whether
      the store's `$text` search finds `phrase` in thread `t`. */
  predicate Satisfies(f: Filter, t: ThreadDoc, textMatches: (ThreadDoc, string) -> bool)
    ensures f.MatchAll? ==> Satisfies(f, t, textMatches)
    ensures f.TextSearch? ==> (Satisfies(f, t, textMatches) <==> textMatches(t, f.phrase))
  {
    match f
    case MatchAll => true
    case TextSearch(phrase) => textMatches(t, phrase)
  }

  /** The documents a find with filter `f` visits, in collection order. The
      last ensures, which counts the copies of every document, implies the
      others; they are kept as the forms callers use. */
  function Select(docs: seq<ThreadDoc>, f: Filter, textMatches: (ThreadDoc, string) -> bool): (r: seq<ThreadDoc>)
    ensures |r| <= |docs|
    ensures forall t :: t in docs ==> (t in r <==> Satisfies(f, t, textMatches))
    ensures forall t :: t in r ==> t in docs
    ensures multiset(r) <= multiset(docs)
    ensures forall t :: multiset(r)[t] == if Satisfies(f, t, textMatches) then multiset(docs)[t] else 0
  {
    if docs == [] then []
    else
      var rest := Select(docs[1..], f, textMatches);
      assert docs == [docs[0]] + docs[1..];
      if Satisfies(f, docs[0], textMatches) then [docs[0]] + rest else rest
  }

  /** A document satisfies the filter built from a search text exactly when
      the text is empty or the text index finds the quoted text in it. */
  lemma FilterMeaning(searchText: string, t: ThreadDoc, textMatches: (ThreadDoc, string) -> bool)
    ensures Satisfies(BuildFilter(searchText), t, textMatches)
      <==> searchText == "" || textMatches(t, "\"" + searchText + "\"")
  {
  }

  /** The number of documents satisfying `f`: the store's count, computed
      independently of the find. */
  function CountMatching(docs: seq<ThreadDoc>, f: Filter, textMatches: (ThreadDoc, string) -> bool): (n: nat)
    ensures n <= |docs|
  {
    if docs == [] then 0
    else (if Satisfies(f, docs[0], textMatches) then 1 else 0) + CountMatching(docs[1..], f, textMatches)
  }

  /** The count and the find agree on how many documents match. */
  lemma {:induction false} CountIsSelectionSize(docs: seq<ThreadDoc>, f: Filter, textMatches: (ThreadDoc, string) -> bool)
    ensures CountMatching(docs, f, textMatches) == |Select(docs, f, textMatches)|
  {
    if docs != [] {
      CountIsSelectionSize(docs[1..], f, textMatches);
    }
  }

  /** With no filter every document is selected, in order, and counted. */
  lemma {:induction false} MatchAllSelectsEverything(docs: seq<ThreadDoc>, textMatches: (ThreadDoc, string) -> bool)
    ensures Select(docs, MatchAll, textMatches) == docs
    ensures CountMatching(docs, MatchAll, textMatches) == |docs|
  {
    if docs != [] {
      MatchAllSelectsEverything(docs[1..], textMatches);
      assert docs == [docs[0]] + docs[1..];
    }
  }

  /** Most recent thread first. */
  predicate SortedByDateDesc(s: seq<ThreadDoc>)
  {
    forall i, j :: 0 <= i < j < |s| ==> s[i].date >= s[j].date
  }

  /** A thread no older than the head of a newest-first sequence can go in
      front of it. */
  lemma ConsSorted(x: ThreadDoc, s: seq<ThreadDoc>)
    requires SortedByDateDesc(s) && (|s| > 0 ==> x.date >= s[0].date)
    ensures SortedByDateDesc([x] + s)
  {
  }

  /** Places `t` in front of the first thread that is not newer than it. */
  function InsertByDate(t: ThreadDoc, s: seq<ThreadDoc>): (r: seq<ThreadDoc>)
    ensures multiset(r) == multiset(s) + multiset{t}
    ensures |r| == |s| + 1
    ensures r[0] == t || (|s| > 0 && r[0] == s[0])
  {
    if s == [] then [t]
    else if t.date >= s[0].date then [t] + s
    else
      assert s == [s[0]] + s[1..];
      [s[0]] + InsertByDate(t, s[1..])
  }

  /** Inserting into a newest-first sequence keeps it newest-first. */
  lemma {:induction false} InsertKeepsSorted(t: ThreadDoc, s: seq<ThreadDoc>)
    requires SortedByDateDesc(s)
    ensures SortedByDateDesc(InsertByDate(t, s))
  {
    if s == [] {
    } else if t.date >= s[0].date {
      ConsSorted(t, s);
    } else {
      var tail := s[1..];
      assert SortedByDateDesc(tail) by {
        forall i, j | 0 <= i < j < |tail| ensures tail[i].date >= tail[j].date {
          assert tail[i] == s[i + 1] && tail[j] == s[j + 1];
        }
      }
      InsertKeepsSorted(t, tail);
      var rest := InsertByDate(t, tail);
      assert rest[0] == t || rest[0] == s[1];
      ConsSorted(s[0], rest);
    }
  }

  /** The order of `sort: {date: -1}`: threads by date, newest first; threads
      with equal dates keep their collection order. */
  function SortByDateDesc(s: seq<ThreadDoc>): (r: seq<ThreadDoc>)
    ensures SortedByDateDesc(r)
    ensures multiset(r) == multiset(s)
    ensures |r| == |s|
  {
    if s == [] then []
    else
      assert s == [s[0]] + s[1..];
      var rest := SortByDateDesc(s[1..]);
      InsertKeepsSorted(s[0], rest);
      InsertByDate(s[0], rest)
  }

  /** skip/limit: drop the first `skip` elements, then keep at most `limit`; a
      limit of 0 keeps all of them, as MongoDB reads a zero limit. */
  function Window<T>(s: seq<T>, skip: nat, limit: nat): (r: seq<T>)
    ensures skip >= |s| ==> r == []
    ensures skip < |s| ==> |r| == if limit == 0 || limit > |s| - skip then |s| - skip else limit
    ensures limit > 0 ==> |r| <= limit
    ensures forall k :: 0 <= k < |r| ==> skip + k < |s| && r[k] == s[skip + k]
  {
    var rest := if skip <= |s| then s[skip..] else [];
    if limit == 0 || limit >= |rest| then rest else rest[..limit]
  }

  /** A window of a sorted sequence is sorted and holds elements of it only. */
  lemma WindowOfSorted(s: seq<ThreadDoc>, skip: nat, limit: nat)
    requires SortedByDateDesc(s)
    ensures SortedByDateDesc(Window(s, skip, limit))
    ensures multiset(Window(s, skip, limit)) <= multiset(s)
  {
    var r := Window(s, skip, limit);
    if skip < |s| {
      assert r == s[skip..skip + |r|];
      assert s == s[..skip] + s[skip..skip + |r|] + s[skip + |r|..];
    }
  }

  /** Consecutive pages tile the ordered result: the page at `skip` followed by
      the page at `skip + limit` is the double-size page at `skip`. */
  lemma PagesTile<T>(s: seq<T>, skip: nat, limit: nat)
    requires limit > 0
    ensures Window(s, skip, limit) + Window(s, skip + limit, limit) == Window(s, skip, 2 * limit)
  {
  }

  /** The page a find with filter, sort and skip/limit returns. */
  function Page(docs: seq<ThreadDoc>, req: QueryRequest, textMatches: (ThreadDoc, string) -> bool): (page: seq<ThreadDoc>)
    ensures SortedByDateDesc(page)
    ensures forall t :: t in page ==> t in docs && Satisfies(BuildFilter(req.searchText), t, textMatches)
    ensures req.limit > 0 ==> |page| <= req.limit
  {
    var matches := Select(docs, BuildFilter(req.searchText), textMatches);
    var sorted := SortByDateDesc(matches);
    var window := Window(sorted, req.offset, req.limit);
    WindowOfSorted(sorted, req.offset, req.limit);
    forall t | t in window ensures t in multiset(matches) {
      assert t in multiset(window);
    }
    window
  }

  /** What a page is: sorted newest first, made of matching documents of the
      collection only, no longer than the match count nor than a non-zero
      limit, and exactly the matches' ordered sequence from `offset` on. */
  lemma PageProperties(docs: seq<ThreadDoc>, req: QueryRequest, textMatches: (ThreadDoc, string) -> bool)
    ensures SortedByDateDesc(Page(docs, req, textMatches))
    ensures forall t :: t in Page(docs, req, textMatches) ==>
      t in docs && Satisfies(BuildFilter(req.searchText), t, textMatches)
    ensures multiset(Page(docs, req, textMatches)) <= multiset(Select(docs, BuildFilter(req.searchText), textMatches))
    ensures |Page(docs, req, textMatches)| <= CountMatching(docs, BuildFilter(req.searchText), textMatches)
    ensures req.limit > 0 ==> |Page(docs, req, textMatches)| <= req.limit
    ensures forall k :: 0 <= k < |Page(docs, req, textMatches)| ==>
      Page(docs, req, textMatches)[k] == SortByDateDesc(Select(docs, BuildFilter(req.searchText), textMatches))[req.offset + k]
    ensures var n := CountMatching(docs, BuildFilter(req.searchText), textMatches);
      |Page(docs, req, textMatches)|
        == if req.offset >= n then 0 else if req.limit == 0 || req.limit > n - req.offset then n - req.offset else req.limit
  {
    var f := BuildFilter(req.searchText);
    var matches := Select(docs, f, textMatches);
    var sorted := SortByDateDesc(matches);
    var page := Window(sorted, req.offset, req.limit);
    assert Page(docs, req, textMatches) == page;
    WindowOfSorted(sorted, req.offset, req.limit);
    assert multiset(page) <= multiset(matches);
    CountIsSelectionSize(docs, f, textMatches);
    assert |page| <= |sorted| == |matches|;
  }
}
