/**
 * The store: two document collections, "messages" and "users", each a
 * sequence of documents keyed by their application-level `id`. A driver call
 * that fails is given as `fault`, the error text the driver would report.
 */
module Storage {
  import opened Wrappers
  import opened Records
  import opened Collection
  import opened Search

  /** What the driver can report: no document matched a find-one, or any other
      failure (connectivity, a bad filter, a decode error, ...). */
  datatype StoreError = NoDocuments | Driver(reason: string)

  /** How a mutating store call ends: it returns its error value, or a fault
      sent it to `log.Fatal` and the process exited. */
  datatype Completion = Returned(err: Option<StoreError>) | Exited(cause: StoreError)

  /** Faults of the three driver steps of a query: the find, the decoding of
      its cursor, and the count. */
  datatype QueryFaults = QueryFaults(find: Option<string>, decode: Option<string>, count: Option<string>)

  /** A query's answer: the page of threads and the total number of matches. */
  datatype QueryResult = QueryResult(threads: seq<ThreadDoc>, matches: nat)

  class Store {
    var messages: seq<ThreadDoc>
    var users: seq<UserDoc>

    /** A store attached to the two collections, holding whatever documents
        they already contain. */
    constructor (messages: seq<ThreadDoc>, users: seq<UserDoc>)
      ensures this.messages == messages && this.users == users
    {
      this.messages := messages;
      this.users := users;
    }

    /** Inserts the user document as given. An insert fault ends the process,
        so whenever the call returns, its error is nil. */
    method CreateUser(usr: UserDoc, fault: Option<string>) returns (c: Completion)
      modifies this
      ensures fault.None? ==> c == Returned(None) && users == old(users) + [usr]
      ensures fault.Some? ==> c == Exited(Driver(fault.value)) && users == old(users)
      ensures messages == old(messages)
    {
      if fault.Some? {
        c := Exited(Driver(fault.value));
        return;
      }
      users := users + [usr];
      c := Returned(None);
    }

    /** The first user whose `id` is `id`; no such user is the driver's
        no-documents error, which is returned like any other error. */
    function GetUser(id: string, fault: Option<string>): (r: Result<UserDoc, StoreError>)
      reads this
      ensures fault.Some? ==> r == Failure(Driver(fault.value))
      ensures fault.None? ==> (r.Success? <==> !Absent(users, UserKey, id))
      ensures fault.None? && r.Failure? ==> r.error == NoDocuments
      ensures r.Success? ==> r.value.id == id && FindOne(users, UserKey, id) == Some(r.value)
    {
      if fault.Some? then Failure(Driver(fault.value))
      else
        match FindOne(users, UserKey, id)
        case None => Failure(NoDocuments)
        case Some(u) => Success(u)
    }

    /** Deletes the first user whose `id` is `id`. Deleting an absent id is not
        an error. */
    method DeleteUser(id: string, fault: Option<string>) returns (err: Option<StoreError>)
      modifies this
      ensures fault.Some? ==> err == Some(Driver(fault.value)) && users == old(users)
      ensures fault.None? ==> err == None && users == DeleteOne(old(users), UserKey, id)
      ensures fault.None? && UniqueKeys(old(users), UserKey) ==> GetUser(id, None) == Failure(NoDocuments)
      ensures messages == old(messages)
    {
      if fault.Some? {
        err := Some(Driver(fault.value));
        return;
      }
      if UniqueKeys(users, UserKey) {
        DeleteRemovesKey(users, UserKey, id);
      }
      users := DeleteOne(users, UserKey, id);
      err := None;
    }

    /** Inserts the thread document as given; like CreateUser, a fault ends the
        process instead of returning. */
    method CreateMsg(msg: ThreadDoc, fault: Option<string>) returns (c: Completion)
      modifies this
      ensures fault.None? ==> c == Returned(None) && messages == old(messages) + [msg]
      ensures fault.Some? ==> c == Exited(Driver(fault.value)) && messages == old(messages)
      ensures users == old(users)
    {
      if fault.Some? {
        c := Exited(Driver(fault.value));
        return;
      }
      messages := messages + [msg];
      c := Returned(None);
    }

    /** The query path: find with the filter, sort and window, decode the
        cursor, then count the same filter with no window. Any failing step
        makes the whole query fail with that step's error. */
    function QueryMsg(qr: QueryRequest, textMatches: (ThreadDoc, string) -> bool, faults: QueryFaults): (r: Result<QueryResult, StoreError>)
      reads this
      ensures faults.find.Some? ==> r == Failure(Driver(faults.find.value))
      ensures faults.find.None? && faults.decode.Some? ==> r == Failure(Driver(faults.decode.value))
      ensures faults.find.None? && faults.decode.None? && faults.count.Some? ==> r == Failure(Driver(faults.count.value))
      ensures r.Success? <==> faults == QueryFaults(None, None, None)
      ensures r.Success? ==>
        var f := BuildFilter(qr.searchText);
        && r.value.threads == Window(SortByDateDesc(Select(messages, f, textMatches)), qr.offset, qr.limit)
        && r.value.matches == CountMatching(messages, f, textMatches)
        && SortedByDateDesc(r.value.threads)
        && (forall t :: t in r.value.threads ==> t in messages && Satisfies(f, t, textMatches))
        && |r.value.threads| <= r.value.matches
        && (qr.limit > 0 ==> |r.value.threads| <= qr.limit)
    {
      var filter := BuildFilter(qr.searchText);
      if faults.find.Some? then Failure(Driver(faults.find.value))
      else if faults.decode.Some? then Failure(Driver(faults.decode.value))
      else if faults.count.Some? then Failure(Driver(faults.count.value))
      else
        PageProperties(messages, qr, textMatches);
        Success(QueryResult(Page(messages, qr, textMatches), CountMatching(messages, filter, textMatches)))
    }

    /** The first thread whose `id` is `id`, or the no-documents error. */
    function GetMsg(id: string, fault: Option<string>): (r: Result<ThreadDoc, StoreError>)
      reads this
      ensures fault.Some? ==> r == Failure(Driver(fault.value))
      ensures fault.None? ==> (r.Success? <==> !Absent(messages, ThreadKey, id))
      ensures fault.None? && r.Failure? ==> r.error == NoDocuments
      ensures r.Success? ==> r.value.id == id && FindOne(messages, ThreadKey, id) == Some(r.value)
    {
      if fault.Some? then Failure(Driver(fault.value))
      else
        match FindOne(messages, ThreadKey, id)
        case None => Failure(NoDocuments)
        case Some(t) => Success(t)
    }

    /** Replaces the first thread whose `id` is `id` wholesale by `msg` as
        given, so the stored `id` becomes `msg.id`. No match changes nothing
        and is not an error; a fault ends the process. */
    method UpdateMsg(id: string, msg: ThreadDoc, fault: Option<string>) returns (c: Completion)
      modifies this
      ensures fault.None? ==> c == Returned(None) && messages == ReplaceOne(old(messages), ThreadKey, id, msg)
      ensures fault.Some? ==> c == Exited(Driver(fault.value)) && messages == old(messages)
      ensures users == old(users)
    {
      if fault.Some? {
        c := Exited(Driver(fault.value));
        return;
      }
      messages := ReplaceOne(messages, ThreadKey, id, msg);
      c := Returned(None);
    }

    /** Deletes the first thread whose `id` is `id`; an absent id is not an
        error. */
    method DeleteMsg(id: string, fault: Option<string>) returns (err: Option<StoreError>)
      modifies this
      ensures fault.Some? ==> err == Some(Driver(fault.value)) && messages == old(messages)
      ensures fault.None? ==> err == None && messages == DeleteOne(old(messages), ThreadKey, id)
      ensures fault.None? && UniqueKeys(old(messages), ThreadKey) ==> GetMsg(id, None) == Failure(NoDocuments)
      ensures users == old(users)
    {
      if fault.Some? {
        err := Some(Driver(fault.value));
        return;
      }
      if UniqueKeys(messages, ThreadKey) {
        DeleteRemovesKey(messages, ThreadKey, id);
      }
      messages := DeleteOne(messages, ThreadKey, id);
      err := None;
    }
  }

  /** With an empty search text the query reaches every thread: the count is
      the size of the collection and the page is a window of all threads. */
  lemma EmptySearchCountsAll(s: Store, qr: QueryRequest, textMatches: (ThreadDoc, string) -> bool)
    requires qr.searchText == ""
    ensures s.QueryMsg(qr, textMatches, QueryFaults(None, None, None))
      == Success(QueryResult(Window(SortByDateDesc(s.messages), qr.offset, qr.limit), |s.messages|))
  {
    MatchAllSelectsEverything(s.messages, textMatches);
  }

  /** The count does not depend on the window: two queries that differ only in
      offset and limit report the same number of matches. */
  lemma CountIgnoresWindow(s: Store, a: QueryRequest, b: QueryRequest, textMatches: (ThreadDoc, string) -> bool)
    requires a.searchText == b.searchText
    ensures s.QueryMsg(a, textMatches, QueryFaults(None, None, None)).value.matches
      == s.QueryMsg(b, textMatches, QueryFaults(None, None, None)).value.matches
  {
  }
}
