/** ForwardingHistory: two append-only record lists, one for forwarded
    messages and one for deleted ones. Records are immutable once appended and
    the getters return them in insertion order. */
module History {

  /** One successful forward: titles of both groups, the forwarded message's
      id and the timestamp string stamped when it was recorded. */
  datatype ForwardRecord = ForwardRecord(sourceGroup: string, targetGroup: string, messageId: int, timestamp: string)

  /** One deleted forwarded message: the group title, the message id and the
      timestamp string. */
  datatype DeletionRecord = DeletionRecord(group: string, messageId: int, timestamp: string)

  datatype Ledger = Ledger(history: seq<ForwardRecord>, deletedMessages: seq<DeletionRecord>)

  /** A freshly constructed ForwardingHistory. */
  function EmptyLedger(): (l: Ledger)
    ensures |l.history| == 0 && |l.deletedMessages| == 0
  {
    Ledger([], [])
  }

  /** `add_entry`: exactly one record at the end of the forward history;
      earlier records and the deletion list untouched. */
  function AddEntry(l: Ledger, sourceGroup: string, targetGroup: string, messageId: int, timestamp: string): (r: Ledger)
    ensures |r.history| == |l.history| + 1
    ensures r.history[..|l.history|] == l.history
    ensures r.history[|l.history|] == ForwardRecord(sourceGroup, targetGroup, messageId, timestamp)
    ensures r.deletedMessages == l.deletedMessages
  {
    l.(history := l.history + [ForwardRecord(sourceGroup, targetGroup, messageId, timestamp)])
  }

  /** `add_deleted_message`: exactly one record at the end of the deletion
      list; earlier records and the forward history untouched. */
  function AddDeletedMessage(l: Ledger, group: string, messageId: int, timestamp: string): (r: Ledger)
    ensures |r.deletedMessages| == |l.deletedMessages| + 1
    ensures r.deletedMessages[..|l.deletedMessages|] == l.deletedMessages
    ensures r.deletedMessages[|l.deletedMessages|] == DeletionRecord(group, messageId, timestamp)
    ensures r.history == l.history
  {
    l.(deletedMessages := l.deletedMessages + [DeletionRecord(group, messageId, timestamp)])
  }

  /** `get_history` */
  function GetHistory(l: Ledger): seq<ForwardRecord>
  {
    l.history
  }

  /** `get_deleted_messages` */
  function GetDeletedMessages(l: Ledger): seq<DeletionRecord>
  {
    l.deletedMessages
  }

  /** Calling `add_entry` once per record, in order. */
  function AddEntries(l: Ledger, recs: seq<ForwardRecord>): Ledger
    decreases |recs|
  {
    if recs == [] then l
    else
      var r := recs[0];
      AddEntries(AddEntry(l, r.sourceGroup, r.targetGroup, r.messageId, r.timestamp), recs[1..])
  }

  /** Calling `add_deleted_message` once per record, in order. */
  function AddDeletedMessages(l: Ledger, recs: seq<DeletionRecord>): Ledger
    decreases |recs|
  {
    if recs == [] then l
    else
      var r := recs[0];
      AddDeletedMessages(AddDeletedMessage(l, r.group, r.messageId, r.timestamp), recs[1..])
  }

  /** Any run of `add_entry` calls leaves `get_history` returning the old
      history followed by the new records in call order, and leaves
      `get_deleted_messages` as it was. */
  lemma {:induction false} AddEntriesInOrder(l: Ledger, recs: seq<ForwardRecord>)
    ensures GetHistory(AddEntries(l, recs)) == GetHistory(l) + recs
    ensures GetDeletedMessages(AddEntries(l, recs)) == GetDeletedMessages(l)
    decreases |recs|
  {
    if recs != [] {
      var r := recs[0];
      var l' := AddEntry(l, r.sourceGroup, r.targetGroup, r.messageId, r.timestamp);
      AddEntriesInOrder(l', recs[1..]);
      assert l'.history == l.history + [r];
      assert [r] + recs[1..] == recs;
      assert l.history + [r] + recs[1..] == l.history + recs;
    }
  }

  /** The same for `add_deleted_message`. */
  lemma {:induction false} AddDeletedMessagesInOrder(l: Ledger, recs: seq<DeletionRecord>)
    ensures GetDeletedMessages(AddDeletedMessages(l, recs)) == GetDeletedMessages(l) + recs
    ensures GetHistory(AddDeletedMessages(l, recs)) == GetHistory(l)
    decreases |recs|
  {
    if recs != [] {
      var r := recs[0];
      var l' := AddDeletedMessage(l, r.group, r.messageId, r.timestamp);
      AddDeletedMessagesInOrder(l', recs[1..]);
      assert l'.deletedMessages == l.deletedMessages + [r];
      assert [r] + recs[1..] == recs;
      assert l.deletedMessages + [r] + recs[1..] == l.deletedMessages + recs;
    }
  }

  /** Two runs of `add_entry` calls are one run over both record lists. */
  lemma {:induction false} AddEntriesAppend(l: Ledger, a: seq<ForwardRecord>, b: seq<ForwardRecord>)
    ensures AddEntries(l, a + b) == AddEntries(AddEntries(l, a), b)
    decreases |a|
  {
    if a == [] {
      assert a + b == b;
    } else {
      var r := a[0];
      assert (a + b)[0] == r && (a + b)[1..] == a[1..] + b;
      AddEntriesAppend(AddEntry(l, r.sourceGroup, r.targetGroup, r.messageId, r.timestamp), a[1..], b);
    }
  }

  /** Two runs of `add_deleted_message` calls are one run over both record lists. */
  lemma {:induction false} AddDeletedMessagesAppend(l: Ledger, a: seq<DeletionRecord>, b: seq<DeletionRecord>)
    ensures AddDeletedMessages(l, a + b) == AddDeletedMessages(AddDeletedMessages(l, a), b)
    decreases |a|
  {
    if a == [] {
      assert a + b == b;
    } else {
      var r := a[0];
      assert (a + b)[0] == r && (a + b)[1..] == a[1..] + b;
      AddDeletedMessagesAppend(AddDeletedMessage(l, r.group, r.messageId, r.timestamp), a[1..], b);
    }
  }
}
