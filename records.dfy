/**
 * The protocol records the service exchanges: message threads, their message
 * entries, users and query requests. Documents are values; the request objects
 * that the handlers stamp in place are classes.
 */
module Records {

  /** One entry of a thread's conversation. `sender` and `text` stand for the
      payload fields, which this core passes through untouched; `date` is a
      Unix timestamp in seconds. */
  datatype Message = Message(sender: string, text: string, date: int)

  /** A stored thread document: its application-level `id`, the thread-level
      `date` the query path sorts on, and the ordered messages. */
  datatype ThreadDoc = ThreadDoc(id: string, date: int, messages: seq<Message>)

  /** A stored user document; `name` and `email` stand for the profile fields. */
  datatype UserDoc = UserDoc(id: string, name: string, email: string, date: int)

  /** A query: optional search text (empty means no text filter) and a
      skip/limit window. */
  datatype QueryRequest = QueryRequest(searchText: string, offset: nat, limit: nat)

  /** The `id` field that lookups, replaces and deletes filter on. */
  function ThreadKey(t: ThreadDoc): string { t.id }

  function UserKey(u: UserDoc): string { u.id }

  /** A thread as the handler receives it: an object whose fields, and whose
      message entries, can be assigned in place. */
  class MessageThread {
    var id: string
    var date: int
    var messages: array<Message>

    constructor (id: string, date: int, entries: seq<Message>)
      ensures Doc() == ThreadDoc(id, date, entries)
      ensures fresh(messages)
    {
      this.id := id;
      this.date := date;
      this.messages := new Message[|entries|](i requires 0 <= i < |entries| => entries[i]);
    }

    /** The document this object encodes to when it is sent to the store or
        returned in a response. */
    function Doc(): ThreadDoc
      reads this, messages
    {
      ThreadDoc(id, date, messages[..])
    }
  }

  /** A user as the handler receives it. */
  class User {
    var id: string
    var name: string
    var email: string
    var date: int

    constructor (id: string, name: string, email: string, date: int)
      ensures Doc() == UserDoc(id, name, email, date)
    {
      this.id := id;
      this.name := name;
      this.email := email;
      this.date := date;
    }

    function Doc(): UserDoc
      reads this
    {
      UserDoc(id, name, email, date)
    }
  }
}
