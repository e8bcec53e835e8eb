/** Whole runs of the conversation cache, against what the log of operations says. */
module CacheLog {
  import opened Wrappers
  import opened Tables
  import opened ConversationCache

  datatype Op =
    | Inserting(key: Key, entry: CacheEntry)
    | Deleting(key: Key)
    | SettingTopic(key: Key, topic: string)
    | Summarizing(key: Key, summary: Summary)
    | Folding(key: Key, summary: Summary)

  /** Operations with the clock reading each of them took. */
  type Log = seq<(Op, int)>

  /** A statement that fails leaves the tables as they were. */
  function Apply(db: Db, op: Op, now: int): Db {
    match op
    case Inserting(key, entry) => (match Insert(db, key, entry, now) case Ok(d) => d case Err(_) => db)
    case Deleting(key) => Delete(db, key)
    case SettingTopic(key, topic) => SetTopic(db, key, topic, now)
    case Summarizing(key, s) => (match StoreSummary(db, key, s) case Ok(d) => d case Err(_) => db)
    case Folding(key, s) => ReplaceSummaries(db, key, s)
  }

  function Run(log: Log): Db {
    if log == [] then EMPTY_DB
    else
      var last := log[|log| - 1];
      Apply(Run(log[..|log| - 1]), last.0, last.1)
  }

  // ----- what a conversation is, read off the log --------------------------

  /** The entries inserted since the last deletion, in order and as they were given. */
  function HistoryOf(log: Log, key: Key): seq<CacheEntry> {
    if log == [] then []
    else
      var before := HistoryOf(log[..|log| - 1], key);
      match log[|log| - 1].0
      case Inserting(k, e) => if k == key then before + [e] else before
      case Deleting(k) => if k == key then [] else before
      case _ => before
  }

  /** Topic and time of the last insertion or topic change; gone after a deletion. */
  function ConversationOf(log: Log, key: Key): Option<Conversation> {
    if log == [] then None
    else
      var before := ConversationOf(log[..|log| - 1], key);
      var now := log[|log| - 1].1;
      match log[|log| - 1].0
      case Inserting(k, _) =>
        if k == key then Some(Conversation(if before.Some? then before.value.topic else None, now)) else before
      case SettingTopic(k, topic) => if k == key then Some(Conversation(Some(topic), now)) else before
      case Deleting(k) => if k == key then None else before
      case _ => before
  }

  /** The last fold and the summaries stored after it, in order. */
  function SummariesOf(log: Log, key: Key): seq<Summary> {
    if log == [] then []
    else
      var before := SummariesOf(log[..|log| - 1], key);
      match log[|log| - 1].0
      case Summarizing(k, s) => if k == key then before + [s] else before
      case Folding(k, s) => if k == key then [s] else before
      case Deleting(k) => if k == key then [] else before
      case _ => before
  }

  /** The entries read are those given, in the same order. */
  predicate AllReadBack(given: seq<CacheEntry>, read: seq<CacheEntry>) {
    |read| == |given| && forall i :: 0 <= i < |given| ==> ReadsBack(given[i], read[i])
  }

  lemma StoredReadsBack(entry: CacheEntry)
    ensures ReadsBack(entry, Stored(entry))
  {
  }

  // ----- assumptions on a log ----------------------------------------------

  /** The clock strictly increases. */
  predicate Ticking(log: Log) {
    forall i, j :: 0 <= i < j < |log| ==> log[i].1 < log[j].1
  }

  /** Each summary of the conversation is stamped later than the ones before it. */
  predicate SummariesTick(log: Log, key: Key) {
    forall i, j :: 0 <= i < j < |log| && IsSummaryOf(log[i].0, key) && IsSummaryOf(log[j].0, key) ==>
      log[i].0.summary.createdAt < log[j].0.summary.createdAt
  }

  predicate IsSummaryOf(op: Op, key: Key) {
    (op.Summarizing? || op.Folding?) && op.key == key
  }

  // ----- refinement --------------------------------------------------------

  /** No history row is newer than the log. */
  ghost predicate Dated(log: Log, db: Db) {
    forall row <- db.history :: exists i :: 0 <= i < |log| && log[i].1 == row.1
  }

  lemma {:induction false} RunIsDated(log: Log)
    ensures Dated(log, Run(log))
  {
    if log != [] {
      var n := |log| - 1;
      RunIsDated(log[..n]);
      var before, db := Run(log[..n]), Run(log);
      forall row <- db.history ensures exists i :: 0 <= i < |log| && log[i].1 == row.1 {
        if row in before.history {
          var i :| 0 <= i < |log[..n]| && log[..n][i].1 == row.1;
          assert log[i].1 == row.1;
        } else {
          assert log[n].1 == row.1;
        }
      }
    }
  }

  /** The clock readings of the insertions of a conversation since its last deletion. */
  function ReadingsOf(log: Log, key: Key): (r: seq<int>)
    ensures |r| == |HistoryOf(log, key)|
  {
    if log == [] then []
    else
      var n := |log| - 1;
      var before := ReadingsOf(log[..n], key);
      match log[n].0
      case Inserting(k, _) => if k == key then before + [log[n].1] else before
      case Deleting(k) => if k == key then [] else before
      case _ => before
  }

  /** Topic and time as `ConversationOf` has them, but without insertions that repeat a reading: those are refused. */
  function KeptOf(log: Log, key: Key): Option<Conversation> {
    if log == [] then None
    else
      var n := |log| - 1;
      var before := KeptOf(log[..n], key);
      match log[n].0
      case Inserting(k, _) =>
        if k == key && log[n].1 !in ReadingsOf(log[..n], key)
        then Some(Conversation(if before.Some? then before.value.topic else None, log[n].1)) else before
      case SettingTopic(k, topic) => if k == key then Some(Conversation(Some(topic), log[n].1)) else before
      case Deleting(k) => if k == key then None else before
      case _ => before
  }

  /** Whatever the clock does, the rows of a conversation carry exactly those readings. */
  lemma {:induction false} RowsCarryReadings(log: Log, key: Key)
    ensures forall x :: (key, x) in Run(log).history <==> x in ReadingsOf(log, key)
  {
    if log != [] {
      RowsCarryReadings(log[..|log| - 1], key);
    }
  }

  /** Of several insertions with one reading, the first is the one that is kept. */
  lemma {:induction false} FirstIsKept(log: Log, key: Key, i: nat)
    requires i < |ReadingsOf(log, key)| && forall j :: 0 <= j < i ==> ReadingsOf(log, key)[j] != ReadingsOf(log, key)[i]
    ensures (key, ReadingsOf(log, key)[i]) in Run(log).history
    ensures ReadsBack(HistoryOf(log, key)[i], Run(log).history[(key, ReadingsOf(log, key)[i])])
  {
    hide ReadsBack, Stored;
    var n := |log| - 1;
    var readings := ReadingsOf(log[..n], key);
    RowsCarryReadings(log[..n], key);
    if i < |readings| {
      assert forall j :: 0 <= j < |readings| ==> readings[j] == ReadingsOf(log, key)[j];
      FirstIsKept(log[..n], key, i);
    } else {
      assert forall j :: 0 <= j < |readings| ==> readings[j] == ReadingsOf(log, key)[j];
      StoredReadsBack(log[n].0.entry);
    }
  }

  predicate Distinct(times: seq<int>) {
    forall i, j :: 0 <= i < j < |times| ==> times[i] != times[j]
  }

  /**
   * No insertion since the last deletion is lost, that is, there are as many rows as insertions, exactly if their
   * clock readings are pairwise distinct.
   */
  lemma NoneLostExactly(log: Log, key: Key)
    ensures |Rows(Run(log).history, key)| == |HistoryOf(log, key)| <==> Distinct(ReadingsOf(log, key))
  {
    hide Run, Ascending;
    var times, readings := TimesOf(Run(log).history, key), ReadingsOf(log, key);
    RowsCarryReadings(log, key);
    forall x ensures x in times <==> x in readings {
      TimesAreKeys(Run(log).history, key, x);
    }
    AscendingLength(times);
    CountDistinct(readings);
    assert times == set x | x in readings;
  }

  lemma {:induction false} CountDistinct(times: seq<int>)
    ensures |set x | x in times| <= |times|
    ensures |set x | x in times| == |times| <==> Distinct(times)
  {
    if times != [] {
      var rest, all := times[1..], set x | x in times;
      var more := set x | x in rest;
      CountDistinct(rest);
      assert all == more + {times[0]};
      assert forall i :: 0 <= i < |rest| ==> rest[i] == times[i + 1];
      assert times[0] in more <==> exists i :: 0 <= i < |rest| && rest[i] == times[0];
    }
  }

  predicate Increasing(times: seq<int>) {
    forall i, j :: 0 <= i < j < |times| ==> times[i] < times[j]
  }

  /**
   * Reading a conversation gives what was inserted since its last deletion, in order, if those insertions took
   * increasing clock readings; nothing is asked of other conversations or of earlier readings.
   */
  lemma {:induction false} HistoryRefines(log: Log, key: Key)
    requires Increasing(ReadingsOf(log, key))
    ensures AllReadBack(HistoryOf(log, key), Rows(Run(log).history, key))
  {
    hide ReadsBack, Stored;
    if log == [] {
      assert TimesOf(EMPTY_DB.history, key) == {};
    } else {
      var n := |log| - 1;
      var before, op, now := Run(log[..n]), log[n].0, log[n].1;
      hide Rows, TimesOf;
      if op.Deleting? {
        RowsOfRemoved(before.history, op.key);
        if op.key != key {
          HistoryRefines(log[..n], key);
        }
      } else if op.Inserting? && op.key == key {
        var readings := ReadingsOf(log[..n], key);
        assert ReadingsOf(log, key)[..|readings|] == readings && ReadingsOf(log, key)[|readings|] == now;
        assert forall i :: 0 <= i < |readings| ==> readings[i] == ReadingsOf(log, key)[i];
        HistoryRefines(log[..n], key);
        RowsCarryReadings(log[..n], key);
        forall x <- TimesOf(before.history, key) ensures x < now {
          TimesAreKeys(before.history, key, x);
        }
        RowsAfterInsert(before.history, key, now, Stored(op.entry));
        StoredReadsBack(op.entry);
      } else {
        HistoryRefines(log[..n], key);
        if op.Inserting? && (op.key, now) !in before.history {
          RowsOfOthers(before.history, op.key, now, Stored(op.entry), key);
        }
      }
    }
  }

  lemma IncreasingSnoc(times: seq<int>, now: int)
    requires Increasing(times) && forall x <- times :: x < now
    ensures Increasing(times + [now])
  {
    assert forall i :: 0 <= i < |times| ==> times[i] in times;
  }

  /** A strictly increasing clock gives increasing readings. */
  lemma {:induction false} TickingReadings(log: Log, key: Key)
    requires Ticking(log)
    ensures Increasing(ReadingsOf(log, key))
    ensures forall x <- ReadingsOf(log, key) :: exists i :: 0 <= i < |log| && log[i].1 == x
  {
    if log != [] {
      var n := |log| - 1;
      var before := ReadingsOf(log[..n], key);
      TickingReadings(log[..n], key);
      forall x <- before ensures x < log[n].1 && exists i :: 0 <= i < |log| && log[i].1 == x {
        var i :| 0 <= i < |log[..n]| && log[..n][i].1 == x;
        assert log[..n][i] == log[i] && i < n;
      }
      var now := log[n].1;
      assert forall i :: 0 <= i < |before| ==> before[i] in before;
      IncreasingSnoc(before, now);
    }
  }

  /** Under a clock that strictly increases, every conversation reads back whole and in order. */
  lemma {:induction false} TickingHistory(log: Log, key: Key)
    requires Ticking(log)
    ensures AllReadBack(HistoryOf(log, key), Rows(Run(log).history, key))
    ensures |Rows(Run(log).history, key)| == |ReadingsOf(log, key)|
  {
    TickingReadings(log, key);
    HistoryRefines(log, key);
  }

  /** Every history row belongs to a conversation in the table. */
  lemma {:induction false} HistoryHasConversation(log: Log)
    ensures forall row <- Run(log).history :: row.0 in Run(log).conversations
  {
    if log != [] {
      HistoryHasConversation(log[..|log| - 1]);
    }
  }

  /**
   * Whatever the clock does, the conversations table holds exactly the live conversations, each with its topic and the
   * time of the last activity that was not refused; that is the last one of all if the insertions since the last
   * deletion took distinct readings.
   */
  lemma {:induction false} ConversationsRefine(log: Log, key: Key)
    ensures (if key in Run(log).conversations then Some(Run(log).conversations[key]) else None) == KeptOf(log, key)
    ensures key in Run(log).conversations <==> ConversationOf(log, key).Some?
    ensures key in Run(log).conversations ==> Run(log).conversations[key].topic == ConversationOf(log, key).value.topic
    ensures key in Run(log).conversations && Distinct(ReadingsOf(log, key)) ==>
              Run(log).conversations[key] == ConversationOf(log, key).value
  {
    if log != [] {
      var n := |log| - 1;
      var before, op, now := log[..n], log[n].0, log[n].1;
      hide Without;
      ConversationsRefine(before, key);
      if op.Inserting? && op.key == key {
        var readings := ReadingsOf(before, key);
        RowsCarryReadings(before, key);
        HistoryHasConversation(before);
        if (key, now) in Run(before).history {
          var i :| 0 <= i < |readings| && readings[i] == now;
          assert ReadingsOf(log, key)[i] == ReadingsOf(log, key)[|readings|];
        }
      }
    }
  }

  ghost predicate SummariesDated(log: Log, db: Db, key: Key) {
    forall x <- TimesOf(db.summaries, key) ::
      exists i :: 0 <= i < |log| && IsSummaryOf(log[i].0, key) && log[i].0.summary.createdAt == x
  }

  lemma {:induction false} SummariesAreDated(log: Log, key: Key)
    ensures SummariesDated(log, Run(log), key)
  {
    if log != [] {
      var n := |log| - 1;
      SummariesAreDated(log[..n], key);
      var before, db := Run(log[..n]), Run(log);
      forall x <- TimesOf(db.summaries, key)
        ensures exists i ::
                  0 <= i < |log| && IsSummaryOf(log[i].0, key) && log[i].0.summary.createdAt == x
      {
        TimesAreKeys(db.summaries, key, x);
        TimesAreKeys(before.summaries, key, x);
        if x in TimesOf(before.summaries, key) {
          var i :| 0 <= i < |log[..n]| && IsSummaryOf(log[..n][i].0, key)
                   && log[..n][i].0.summary.createdAt == x;
          assert log[..n][i] == log[i];
        } else {
          assert IsSummaryOf(log[n].0, key) && log[n].0.summary.createdAt == x;
        }
      }
    }
  }

  /** Summaries read back as the last fold followed by what was stored after it. */
  lemma {:induction false} SummariesRefine(log: Log, key: Key)
    requires SummariesTick(log, key)
    ensures Rows(Run(log).summaries, key) == SummariesOf(log, key)
  {
    if log == [] {
      assert TimesOf(EMPTY_DB.summaries, key) == {};
    } else {
      var n := |log| - 1;
      var before, op := Run(log[..n]).summaries, log[n].0;
      SummariesRefine(log[..n], key);
      hide Rows, TimesOf;
      if IsSummaryOf(op, key) {
        SummaryIsLatest(log, key);
        RowsAfterInsert(before, key, op.summary.createdAt, op.summary);
        FoldedRows(before, key, op.summary);
      } else if op.Summarizing? || op.Folding? {
        RowsOfOthers(before, op.key, op.summary.createdAt, op.summary, key);
        RowsOfRemoved(before, op.key);
        RowsOfOthers(Without(before, op.key), op.key, op.summary.createdAt, op.summary, key);
      } else if op.Deleting? {
        RowsOfRemoved(before, op.key);
      }
    }
  }

  lemma SummaryIsLatest(log: Log, key: Key)
    requires SummariesTick(log, key) && log != [] && IsSummaryOf(log[|log| - 1].0, key)
    ensures var n := |log| - 1; var before, at := Run(log[..n]).summaries, log[n].0.summary.createdAt;
            (key, at) !in before && forall x <- TimesOf(before, key) :: x < at
  {
    hide Run, TimesOf;
    var n := |log| - 1;
    var before, at := Run(log[..n]).summaries, log[n].0.summary.createdAt;
    SummariesAreDated(log[..n], key);
    forall x <- TimesOf(before, key) ensures x < at {
      var i :| 0 <= i < |log[..n]| && IsSummaryOf(log[..n][i].0, key)
               && log[..n][i].0.summary.createdAt == x;
      assert log[..n][i] == log[i];
    }
    TimesAreKeys(before, key, at);
  }

  lemma FoldedRows(t: Table<Key, Summary>, key: Key, s: Summary)
    ensures Rows(Without(t, key)[(key, s.createdAt) := s], key) == [s]
  {
    RowsOfRemoved(t, key);
    assert TimesOf(Without(t, key), key) == {};
    RowsAfterInsert(Without(t, key), key, s.createdAt, s);
  }

  lemma {:induction false} ActivityIsDated(log: Log, key: Key)
    requires key in Run(log).conversations
    ensures exists i :: 0 <= i < |log| && log[i].1 == Run(log).conversations[key].lastMessage
  {
    var n := |log| - 1;
    var before := Run(log[..n]);
    var last := Run(log).conversations[key].lastMessage;
    if key in before.conversations && before.conversations[key] == Run(log).conversations[key] {
      ActivityIsDated(log[..n], key);
      var i :| 0 <= i < |log[..n]| && log[..n][i].1 == last;
      assert log[i].1 == last;
    } else {
      assert log[n].1 == last;
    }
  }

  /** The conversation that was just written to is listed first if the clock then reads later than ever before. */
  lemma {:induction false} ActiveIsListedFirst(log: Log, key: Key, entry: CacheEntry, now: int, items: seq<ListItem>)
    requires forall i :: 0 <= i < |log| ==> log[i].1 < now
    requires ListsAll(Run(log + [(Inserting(key, entry), now)]), key.0, items)
    ensures items != [] && items[0].conversation == key.1 && items[0].lastMessage == now
  {
    var before, after := Run(log), Run(log + [(Inserting(key, entry), now)]);
    assert (log + [(Inserting(key, entry), now)])[..|log|] == log && key == (key.0, key.1);
    RunIsDated(log);
    assert (key, now) !in before.history;
    assert key in after.conversations && after.conversations[key].lastMessage == now;
    var at :| 0 <= at < |items| && items[at].conversation == key.1;
    var first := (key.0, items[0].conversation);
    if first != key {
      assert first in before.conversations && before.conversations[first] == after.conversations[first];
      ActivityIsDated(log, first);
    }
  }
}
