/**
 * The service handlers: validation of the search text, stamping of ids and
 * timestamps on the incoming records, one store call per request, and the
 * translation of store errors into RPC error codes. `now` stands for the
 * clock's Unix time and `newId` for the fresh UUID string the handler draws.
 */
module Handler {
  import opened Wrappers
  import opened Records
  import opened Collection
  import opened Search
  import opened Storage

  /** The RPC errors a handler returns: every store error is wrapped as
      Aborted; a malformed search text is InvalidArgument. */
  datatype RpcError = Aborted(cause: StoreError) | InvalidArgument(message: string)

  /** A handler's outcome: a response, an RPC error, or no answer at all
      because the store call ended the process. */
  datatype Reply<T> = Ok(body: T) | Failed(err: RpcError) | Halted(cause: StoreError)

  datatype QueryResponse = QueryResponse(cursor: seq<ThreadDoc>, matches: nat)

  const InvalidSearchText: string := "invalid search text format"

  /** The character class of the search-text pattern `^[a-zA-Z@. ]+$`. */
  predicate SearchChar(c: char)
  {
    ('a' <= c <= 'z') || ('A' <= c <= 'Z') || c == '@' || c == '.' || c == ' '
  }

  /** Whether the whole text matches the anchored pattern: one or more
      characters, each in the class. */
  predicate MatchesSearchPattern(s: string)
  {
    |s| > 0 && forall i :: 0 <= i < |s| ==> SearchChar(s[i])
  }

  /** The check Query makes before touching the store: empty text is not
      checked; other text fails with InvalidArgument unless every character is
      a letter, `@`, `.` or a space. */
  function CheckSearchText(s: string): (r: Option<RpcError>)
    ensures r.None? <==> s == "" || forall i :: 0 <= i < |s| ==> SearchChar(s[i])
    ensures r.Some? ==> r.value == InvalidArgument(InvalidSearchText)
    ensures r.Some? <==> exists i :: 0 <= i < |s| && !SearchChar(s[i])
  {
    if s != "" && !MatchesSearchPattern(s) then Some(InvalidArgument(InvalidSearchText)) else None
  }

  /** The thread Create stores: the fresh id, the first message dated `now`,
      everything else as supplied. */
  function StampCreated(t: ThreadDoc, id: string, now: int): (r: ThreadDoc)
    requires |t.messages| > 0
    ensures r.id == id && r.date == t.date
    ensures |r.messages| == |t.messages|
    ensures r.messages[0].date == now
    ensures r.messages[0].sender == t.messages[0].sender && r.messages[0].text == t.messages[0].text
    ensures forall i :: 1 <= i < |t.messages| ==> r.messages[i] == t.messages[i]
  {
    t.(id := id, messages := t.messages[0 := t.messages[0].(date := now)])
  }

  /** The thread Update stores: the last message dated `now`, everything else,
      the thread's own id included, as supplied. */
  function StampUpdated(t: ThreadDoc, now: int): (r: ThreadDoc)
    requires |t.messages| > 0
    ensures r.id == t.id && r.date == t.date
    ensures |r.messages| == |t.messages|
    ensures r.messages[|r.messages| - 1].date == now
    ensures r.messages[|r.messages| - 1].sender == t.messages[|t.messages| - 1].sender
    ensures r.messages[|r.messages| - 1].text == t.messages[|t.messages| - 1].text
    ensures forall i :: 0 <= i < |t.messages| - 1 ==> r.messages[i] == t.messages[i]
  {
    var last := |t.messages| - 1;
    t.(messages := t.messages[last := t.messages[last].(date := now)])
  }

  /** The user CreateUser stores: the fresh id and `now` as its date, the
      profile as supplied. */
  function StampUser(u: UserDoc, id: string, now: int): (r: UserDoc)
    ensures r.id == id && r.date == now
    ensures r.name == u.name && r.email == u.email
  {
    u.(id := id, date := now)
  }

  /** Stamping a new thread with a fresh id and storing it: a lookup of that
      id finds exactly the stamped thread. */
  lemma CreatedThreadIsFound(docs: seq<ThreadDoc>, t: ThreadDoc, id: string, now: int)
    requires |t.messages| > 0 && Absent(docs, ThreadKey, id)
    ensures FindOne(docs + [StampCreated(t, id, now)], ThreadKey, id) == Some(StampCreated(t, id, now))
  {
    InsertFresh(docs, ThreadKey, StampCreated(t, id, now));
  }

  /** A thread created, given an appended reply and updated: its id is the
      created one, the first message keeps its creation date, the messages in
      between keep what was sent, and the reply carries the update date. */
  lemma CreateThenUpdate(t: ThreadDoc, id: string, created: int, reply: Message, updated: int)
    requires |t.messages| >= 1
    ensures var c := StampCreated(t, id, created);
      var u := StampUpdated(c.(messages := c.messages + [reply]), updated);
      && u.id == id && |u.messages| == |t.messages| + 1
      && u.messages[0].date == created
      && (forall i :: 1 <= i < |t.messages| ==> u.messages[i] == t.messages[i])
      && u.messages[|t.messages|] == reply.(date := updated)
  {
  }

  class MessagingServer {
    const store: Store

    constructor (store: Store)
      ensures this.store == store
    {
      this.store := store;
    }

    /** Create: stamp the thread in place, insert it, answer with it. */
    method Create(msg: MessageThread, newId: string, now: int, fault: Option<string>) returns (r: Reply<ThreadDoc>)
      requires msg.messages.Length > 0
      modifies msg, msg.messages, store
      ensures msg.messages == old(msg.messages)
      ensures msg.Doc() == StampCreated(old(msg.Doc()), newId, now)
      ensures fault.None? ==> r == Ok(msg.Doc()) && store.messages == old(store.messages) + [msg.Doc()]
      ensures fault.Some? ==> r == Halted(Driver(fault.value)) && store.messages == old(store.messages)
      ensures fault.None? && Absent(old(store.messages), ThreadKey, newId) ==> store.GetMsg(newId, None) == Success(msg.Doc())
      ensures !r.Failed?
      ensures store.users == old(store.users)
    {
      msg.id := newId;
      msg.messages[0] := msg.messages[0].(date := now);
      var c := store.CreateMsg(msg.Doc(), fault);
      match c
      case Returned(None) =>
        if Absent(old(store.messages), ThreadKey, newId) {
          CreatedThreadIsFound(old(store.messages), old(msg.Doc()), newId, now);
        }
        r := Ok(msg.Doc());
      case Returned(Some(e)) =>
        r := Failed(Aborted(e));
      case Exited(e) =>
        r := Halted(e);
    }

    /** Query: validate non-empty search text, then run the store query and
        answer with its page and count. */
    function Query(req: QueryRequest, textMatches: (ThreadDoc, string) -> bool, faults: QueryFaults): (r: Reply<QueryResponse>)
      reads store
      ensures !MatchesSearchPattern(req.searchText) && req.searchText != "" ==> r == Failed(InvalidArgument(InvalidSearchText))
      ensures (req.searchText == "" || MatchesSearchPattern(req.searchText)) ==>
        match store.QueryMsg(req, textMatches, faults)
        case Success(q) => r == Ok(QueryResponse(q.threads, q.matches))
        case Failure(e) => r == Failed(Aborted(e))
      ensures r.Ok? ==> SortedByDateDesc(r.body.cursor) && |r.body.cursor| <= r.body.matches
      ensures r.Ok? ==> forall t :: t in r.body.cursor ==> t in store.messages
      ensures !r.Halted?
    {
      match CheckSearchText(req.searchText)
      case Some(e) => Failed(e)
      case None =>
        match store.QueryMsg(req, textMatches, faults)
        case Failure(e) => Failed(Aborted(e))
        case Success(q) => Ok(QueryResponse(q.threads, q.matches))
    }

    /** Get: the stored thread with that id; not found is Aborted like every
        other store error. */
    function Get(messageId: string, fault: Option<string>): (r: Reply<ThreadDoc>)
      reads store
      ensures r.Ok? <==> fault.None? && !Absent(store.messages, ThreadKey, messageId)
      ensures r.Ok? ==> r.body.id == messageId && r.body in store.messages
      ensures r.Ok? ==> store.GetMsg(messageId, fault) == Success(r.body)
      ensures fault.Some? ==> r == Failed(Aborted(Driver(fault.value)))
      ensures fault.None? && Absent(store.messages, ThreadKey, messageId) ==> r == Failed(Aborted(NoDocuments))
    {
      match store.GetMsg(messageId, fault)
      case Failure(e) => Failed(Aborted(e))
      case Success(t) => Ok(t)
    }

    /** Update: date the last message in place, replace the document stored
        under `messageId` (not under the thread's own id), answer with the
        thread as sent. */
    method Update(messageId: string, msg: MessageThread, now: int, fault: Option<string>) returns (r: Reply<ThreadDoc>)
      requires msg.messages.Length > 0
      modifies msg.messages, store
      ensures msg.Doc() == StampUpdated(old(msg.Doc()), now)
      ensures fault.None? ==> r == Ok(msg.Doc()) && store.messages == ReplaceOne(old(store.messages), ThreadKey, messageId, msg.Doc())
      ensures fault.Some? ==> r == Halted(Driver(fault.value)) && store.messages == old(store.messages)
      ensures fault.None? && UniqueKeys(old(store.messages), ThreadKey) && msg.id == messageId
              && !Absent(old(store.messages), ThreadKey, messageId)
              ==> store.GetMsg(messageId, None) == Success(msg.Doc())
      ensures fault.None? && UniqueKeys(old(store.messages), ThreadKey) && msg.id != messageId
              ==> store.GetMsg(messageId, None) == Failure(NoDocuments)
      ensures !r.Failed?
      ensures store.users == old(store.users)
    {
      var last := msg.messages.Length - 1;
      msg.messages[last] := msg.messages[last].(date := now);
      var c := store.UpdateMsg(messageId, msg.Doc(), fault);
      match c
      case Returned(None) =>
        if UniqueKeys(old(store.messages), ThreadKey) {
          if msg.id == messageId && !Absent(old(store.messages), ThreadKey, messageId) {
            ReplaceSameKey(old(store.messages), ThreadKey, messageId, msg.Doc());
          } else if msg.id != messageId {
            ReplaceRekeys(old(store.messages), ThreadKey, messageId, msg.Doc());
          }
        }
        r := Ok(msg.Doc());
      case Returned(Some(e)) =>
        r := Failed(Aborted(e));
      case Exited(e) =>
        r := Halted(e);
    }

    /** CreateUser: stamp id and date in place, insert, answer with the user. */
    method CreateUser(usr: User, newId: string, now: int, fault: Option<string>) returns (r: Reply<UserDoc>)
      modifies usr, store
      ensures usr.Doc() == StampUser(old(usr.Doc()), newId, now)
      ensures fault.None? ==> r == Ok(usr.Doc()) && store.users == old(store.users) + [usr.Doc()]
      ensures fault.Some? ==> r == Halted(Driver(fault.value)) && store.users == old(store.users)
      ensures fault.None? && Absent(old(store.users), UserKey, newId) ==> store.GetUser(newId, None) == Success(usr.Doc())
      ensures !r.Failed?
      ensures store.messages == old(store.messages)
    {
      usr.id := newId;
      usr.date := now;
      var c := store.CreateUser(usr.Doc(), fault);
      match c
      case Returned(None) =>
        if Absent(old(store.users), UserKey, newId) {
          InsertFresh(old(store.users), UserKey, usr.Doc());
        }
        r := Ok(usr.Doc());
      case Returned(Some(e)) =>
        r := Failed(Aborted(e));
      case Exited(e) =>
        r := Halted(e);
    }

    /** GetUser: the stored user with that id, or Aborted. */
    function GetUser(userId: string, fault: Option<string>): (r: Reply<UserDoc>)
      reads store
      ensures r.Ok? <==> fault.None? && !Absent(store.users, UserKey, userId)
      ensures r.Ok? ==> r.body.id == userId && r.body in store.users
      ensures r.Ok? ==> store.GetUser(userId, fault) == Success(r.body)
      ensures fault.Some? ==> r == Failed(Aborted(Driver(fault.value)))
      ensures fault.None? && Absent(store.users, UserKey, userId) ==> r == Failed(Aborted(NoDocuments))
    {
      match store.GetUser(userId, fault)
      case Failure(e) => Failed(Aborted(e))
      case Success(u) => Ok(u)
    }

    /** DeleteUser: delete by id; an absent id still answers with the empty
        response. */
    method DeleteUser(userId: string, fault: Option<string>) returns (r: Reply<()>)
      modifies store
      ensures fault.None? ==> r == Ok(()) && store.users == DeleteOne(old(store.users), UserKey, userId)
      ensures fault.Some? ==> r == Failed(Aborted(Driver(fault.value))) && store.users == old(store.users)
      ensures fault.None? && UniqueKeys(old(store.users), UserKey) ==> store.GetUser(userId, None) == Failure(NoDocuments)
      ensures store.messages == old(store.messages)
    {
      var err := store.DeleteUser(userId, fault);
      if err.Some? {
        r := Failed(Aborted(err.value));
      } else {
        if UniqueKeys(old(store.users), UserKey) {
          DeleteRemovesKey(old(store.users), UserKey, userId);
        }
        r := Ok(());
      }
    }
  }

  /** A rejected search text is rejected whatever the store holds and however
      its calls would end: the store is not consulted. */
  lemma RejectionIgnoresStore(a: MessagingServer, b: MessagingServer, req: QueryRequest,
                              ta: (ThreadDoc, string) -> bool, tb: (ThreadDoc, string) -> bool,
                              fa: QueryFaults, fb: QueryFaults)
    requires CheckSearchText(req.searchText).Some?
    ensures a.Query(req, ta, fa) == b.Query(req, tb, fb) == Failed(InvalidArgument(InvalidSearchText))
  {
  }

  /** Examples of the search-text check: the text of an address passes, markup,
      digits and underscores do not. */
  lemma SearchTextExamples()
    ensures CheckSearchText("hello@world").None?
    ensures CheckSearchText("John Smith.").None?
    ensures CheckSearchText("hello<script>") == Some(InvalidArgument(InvalidSearchText))
    ensures CheckSearchText("room42") == Some(InvalidArgument(InvalidSearchText))
    ensures CheckSearchText("snake_case") == Some(InvalidArgument(InvalidSearchText))
  {
    assert !SearchChar("hello<script>"[5]);
    assert !SearchChar("room42"[4]);
    assert !SearchChar("snake_case"[5]);
  }
}
