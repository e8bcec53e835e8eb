/** The three-table conversation cache as a refinement of one conversation per (user, conversation). */
module ConversationCache {
  import opened Wrappers
  import opened Tables

  type Key = (string, string)

  /** Lists of documents and tool records are kept as the JSON texts of their items. */
  datatype CacheEntry = CacheEntry(query: string, response: string, provider: string, model: string,
                                   startedAt: string, completedAt: string, documents: Option<seq<string>>,
                                   toolCalls: Option<seq<string>>, toolResults: Option<seq<string>>)

  datatype Conversation = Conversation(topic: Option<string>, lastMessage: int)

  /** `createdAt` stands for the position of the created_at text in text order. */
  datatype Summary = Summary(text: string, throughTurn: int, tokens: int, createdAt: int, model: string)

  datatype Db = Db(history: Table<Key, CacheEntry>, conversations: map<Key, Conversation>,
                   summaries: Table<Key, Summary>)

  /** A row with this primary key is already there. */
  datatype DbError = IntegrityError

  const EMPTY_DB := Db(map[], map[], map[])

  /** Empty lists are stored as NULL. */
  function NullIfEmpty(items: Option<seq<string>>): Option<seq<string>> {
    if items == Some([]) then None else items
  }

  function Stored(e: CacheEntry): CacheEntry {
    e.(documents := NullIfEmpty(e.documents), toolCalls := NullIfEmpty(e.toolCalls),
       toolResults := NullIfEmpty(e.toolResults))
  }

  /** An optional list comes back as it was given; an empty one comes back absent. */
  predicate ListReadsBack(given: Option<seq<string>>, read: Option<seq<string>>) {
    if given.Some? && given.value != [] then read == given else read == None
  }

  /** What is read is what was inserted, field by field. */
  predicate ReadsBack(given: CacheEntry, read: CacheEntry) {
    && read.query == given.query && read.response == given.response
    && read.provider == given.provider && read.model == given.model
    && read.startedAt == given.startedAt && read.completedAt == given.completedAt
    && ListReadsBack(given.documents, read.documents)
    && ListReadsBack(given.toolCalls, read.toolCalls) && ListReadsBack(given.toolResults, read.toolResults)
  }

  // ----- operations --------------------------------------------------------

  /** Add the row, then upsert the conversation without touching its topic. */
  function Insert(db: Db, key: Key, entry: CacheEntry, now: int): Result<Db, DbError> {
    if (key, now) in db.history then Err(IntegrityError)
    else
      var topic := if key in db.conversations then db.conversations[key].topic else None;
      Ok(db.(history := db.history[(key, now) := Stored(entry)],
             conversations := db.conversations[key := Conversation(topic, now)]))
  }

  function Delete(db: Db, key: Key): Db {
    Db(Without(db.history, key), db.conversations - {key}, Without(db.summaries, key))
  }

  function SetTopic(db: Db, key: Key, topic: string, now: int): Db {
    db.(conversations := db.conversations[key := Conversation(Some(topic), now)])
  }

  function StoreSummary(db: Db, key: Key, s: Summary): Result<Db, DbError> {
    if (key, s.createdAt) in db.summaries then Err(IntegrityError)
    else Ok(db.(summaries := db.summaries[(key, s.createdAt) := s]))
  }

  function ReplaceSummaries(db: Db, key: Key, s: Summary): Db {
    db.(summaries := Without(db.summaries, key)[(key, s.createdAt) := s])
  }

  datatype ListItem = ListItem(conversation: string, topic: Option<string>, lastMessage: int)

  /** Exactly the user's conversations, each once, most recent first. */
  ghost predicate ListsAll(db: Db, user: string, items: seq<ListItem>) {
    && (forall i :: 0 <= i < |items| ==>
          && (user, items[i].conversation) in db.conversations
          && db.conversations[(user, items[i].conversation)] == Conversation(items[i].topic, items[i].lastMessage))
    && (forall i, j :: 0 <= i < j < |items| ==>
          items[i].conversation != items[j].conversation && items[i].lastMessage >= items[j].lastMessage)
    && (forall c :: (user, c) in db.conversations ==> exists i :: 0 <= i < |items| && items[i].conversation == c)
  }

  class SQLiteCache {
    var history: Table<Key, CacheEntry>
    var conversations: map<Key, Conversation>
    var summaries: Table<Key, Summary>

    function Contents(): Db
      reads this
    {
      Db(history, conversations, summaries)
    }

    constructor ()
      ensures Contents() == EMPTY_DB
    {
      history, conversations, summaries := map[], map[], map[];
    }

    /** Read the rows in time order, one entry per row. */
    method Get(user: string, conversation: string) returns (result: seq<CacheEntry>)
      ensures result == Rows(history, (user, conversation))
      ensures InTimeOrder(history, (user, conversation), result)
    {
      var key := (user, conversation);
      var times := Ascending(TimesOf(history, key));
      result := [];
      for i := 0 to |times|
        invariant result == Rows(history, key)[..i]
      {
        assert times[i] in times;
        result := result + [history[(key, times[i])]];
      }
      RowsInTimeOrder(history, key);
    }

    /** Read the summaries, oldest first. */
    method GetSummaries(user: string, conversation: string) returns (result: seq<Summary>)
      ensures result == Rows(summaries, (user, conversation))
      ensures InTimeOrder(summaries, (user, conversation), result)
    {
      var key := (user, conversation);
      var times := Ascending(TimesOf(summaries, key));
      result := [];
      for i := 0 to |times|
        invariant result == Rows(summaries, key)[..i]
      {
        assert times[i] in times;
        result := result + [summaries[(key, times[i])]];
      }
      RowsInTimeOrder(summaries, key);
    }

    method InsertOrAppend(user: string, conversation: string, entry: CacheEntry, now: int)
      returns (failure: Option<DbError>)
      modifies this
      ensures match Insert(old(Contents()), (user, conversation), entry, now)
              case Ok(db) => failure == None && Contents() == db
              case Err(e) => failure == Some(e) && Contents() == old(Contents())
      ensures failure == None ==>
                var row := ((user, conversation), now); row in history && ReadsBack(entry, history[row])
    {
      var key := (user, conversation);
      if (key, now) in history {
        return Some(IntegrityError);
      }
      history := history[(key, now) := Stored(entry)];
      if key in conversations {
        conversations := conversations[key := conversations[key].(lastMessage := now)];
      } else {
        conversations := conversations[key := Conversation(None, now)];
      }
      return None;
    }

    method DeleteConversation(user: string, conversation: string) returns (deleted: bool)
      modifies this
      ensures Contents() == Delete(old(Contents()), (user, conversation))
      ensures deleted <==> Rows(old(history), (user, conversation)) != []
    {
      var key := (user, conversation);
      deleted := TimesOf(history, key) != {};
      RowsAreTimes(history, key);
      history := Without(history, key);
      conversations := conversations - {key};
      summaries := Without(summaries, key);
    }

    method SetTopicSummary(user: string, conversation: string, topic: string, now: int)
      modifies this
      ensures Contents() == SetTopic(old(Contents()), (user, conversation), topic, now)
    {
      conversations := conversations[(user, conversation) := Conversation(Some(topic), now)];
    }

    method AppendSummary(user: string, conversation: string, s: Summary) returns (failure: Option<DbError>)
      modifies this
      ensures match StoreSummary(old(Contents()), (user, conversation), s)
              case Ok(db) => failure == None && Contents() == db
              case Err(e) => failure == Some(e) && Contents() == old(Contents())
    {
      var key := (user, conversation);
      if (key, s.createdAt) in summaries {
        return Some(IntegrityError);
      }
      summaries := summaries[(key, s.createdAt) := s];
      return None;
    }

    method ReplaceAllSummaries(user: string, conversation: string, folded: Summary)
      modifies this
      ensures Contents() == ReplaceSummaries(old(Contents()), (user, conversation), folded)
    {
      var key := (user, conversation);
      summaries := Without(summaries, key);
      summaries := summaries[(key, folded.createdAt) := folded];
    }

    /** The store leaves the order of equal timestamps open, and so does this. */
    method List(user: string) returns (items: seq<ListItem>)
      ensures ListsAll(Contents(), user, items)
    {
      items := [];
      var todo := set k <- conversations | k.0 == user :: k.1;
      while todo != {}
        invariant ListedDownTo(conversations, user, items, todo)
        decreases todo
      {
        NewestExists(conversations, user, todo);
        var c :| c in todo && forall d <- todo ::
          conversations[(user, c)].lastMessage >= conversations[(user, d)].lastMessage;
        var row := conversations[(user, c)];
        ListOneMore(conversations, user, items, todo, c);
        items := items + [ListItem(c, row.topic, row.lastMessage)];
        todo := todo - {c};
      }
    }
  }

  /** The rows listed so far are in order and nothing left to list is newer than any of them. */
  ghost predicate ListedDownTo(conversations: map<Key, Conversation>, user: string, items: seq<ListItem>,
                               todo: set<string>) {
    && (forall c <- todo :: (user, c) in conversations)
    && (forall c <- todo, i | 0 <= i < |items| ::
          items[i].lastMessage >= conversations[(user, c)].lastMessage && items[i].conversation != c)
    && (forall i :: 0 <= i < |items| ==>
          && (user, items[i].conversation) in conversations
          && conversations[(user, items[i].conversation)] == Conversation(items[i].topic, items[i].lastMessage))
    && (forall i, j :: 0 <= i < j < |items| ==>
          items[i].conversation != items[j].conversation && items[i].lastMessage >= items[j].lastMessage)
    && (forall c :: (user, c) in conversations ==>
          c in todo || exists i :: 0 <= i < |items| && items[i].conversation == c)
  }

  lemma ListOneMore(conversations: map<Key, Conversation>, user: string, items: seq<ListItem>, todo: set<string>,
                    c: string)
    requires ListedDownTo(conversations, user, items, todo) && c in todo
    requires forall d <- todo :: conversations[(user, c)].lastMessage >= conversations[(user, d)].lastMessage
    ensures var row := conversations[(user, c)];
            ListedDownTo(conversations, user, items + [ListItem(c, row.topic, row.lastMessage)], todo - {c})
  {
    var row := conversations[(user, c)];
    var last := ListItem(c, row.topic, row.lastMessage);
    ListedSnoc(conversations, user, items, todo, c, last);
    var more := items + [last];
    forall d | (user, d) in conversations && d !in todo - {c}
      ensures exists i :: 0 <= i < |more| && more[i].conversation == d
    {
      if d == c {
        assert more[|items|].conversation == d;
      } else {
        var i :| 0 <= i < |items| && items[i].conversation == d;
        assert more[i].conversation == d;
      }
    }
  }

  lemma ListedSnoc(conversations: map<Key, Conversation>, user: string, items: seq<ListItem>, todo: set<string>,
                   c: string,
                   last: ListItem)
    requires ListedDownTo(conversations, user, items, todo) && c in todo
    requires forall d <- todo :: conversations[(user, c)].lastMessage >= conversations[(user, d)].lastMessage
    requires last == ListItem(c, conversations[(user, c)].topic, conversations[(user, c)].lastMessage)
    ensures var more := items + [last];
            && (forall d <- todo - {c}, i | 0 <= i < |more| ::
                  more[i].lastMessage >= conversations[(user, d)].lastMessage && more[i].conversation != d)
            && (forall i :: 0 <= i < |more| ==>
                  && (user, more[i].conversation) in conversations
                  && conversations[(user, more[i].conversation)] == Conversation(more[i].topic, more[i].lastMessage))
            && (forall i, j :: 0 <= i < j < |more| ==>
                  more[i].conversation != more[j].conversation && more[i].lastMessage >= more[j].lastMessage)
  {
    var more := items + [last];
    assert forall i :: 0 <= i < |more| ==> more[i] == if i < |items| then items[i] else last;
  }

  lemma {:induction false} NewestExists(conversations: map<Key, Conversation>, user: string, todo: set<string>)
    requires todo != {} && forall c <- todo :: (user, c) in conversations
    ensures exists c :: c in todo
               && forall d <- todo :: conversations[(user, c)].lastMessage >= conversations[(user, d)].lastMessage
    decreases |todo|
  {
    var x :| x in todo;
    if todo == {x} {
      assert forall d <- todo :: d == x;
    } else {
      NewestExists(conversations, user, todo - {x});
      var m :| m in todo - {x}
               && forall d <- todo - {x} ::
                 conversations[(user, m)].lastMessage >= conversations[(user, d)].lastMessage;
      assert forall d <- todo :: d == x || d in todo - {x};
      assert x in todo && m in todo;
    }
  }

  lemma RowsAreTimes(t: Table<Key, CacheEntry>, key: Key)
    ensures Rows(t, key) == [] <==> TimesOf(t, key) == {}
  {
    if TimesOf(t, key) != {} {
      assert Min(TimesOf(t, key)) in Ascending(TimesOf(t, key));
    }
  }
}
