/** The sweep of `delete_forwarded_messages`: for each selected group, walk
    its messages and delete those that are forwards, recording each deletion.
    The `try` encloses a whole group, so the first exception (from fetching a
    message or from deleting one) ends that group's sweep, and the next
    selected group is still swept. */
module Deletion {
  import opened Common
  import opened History
  import opened Statistics
  import opened Bookkeeping

  /** What iterating a group's messages yields: a message (its id, whether
      its `forward` attribute is set, and what `message.delete()` would do),
      or an exception raised by the iteration itself. */
  datatype Item =
    | Message(id: int, isForward: bool, deletion: Attempt)
    | FetchFailed(reason: string)

  /** Whether this item raises inside the group's `try`. A deletion is only
      attempted for a forwarded message, so another message never raises. */
  predicate Raises(it: Item)
  {
    it.FetchFailed? || (it.isForward && it.deletion.Failed?)
  }

  /** Index of the first item that raises, or the listing length. */
  function StopIndex(items: seq<Item>): (k: nat)
    ensures k <= |items|
    ensures forall j :: 0 <= j < k ==> !Raises(items[j])
    ensures k < |items| ==> Raises(items[k])
    decreases |items|
  {
    if items == [] then 0 else if Raises(items[0]) then 0 else 1 + StopIndex(items[1..])
  }

  /** A deleted message and the timestamp of its deletion record. */
  datatype Deleted = Deleted(messageId: int, at: string)

  /** The forwarded messages of a listing whose deletion succeeded, in order. */
  function Forwards(items: seq<Item>): seq<Deleted>
    decreases |items|
  {
    if items == [] then []
    else
      var it := items[0];
      if it.Message? && it.isForward && it.deletion.Delivered?
      then [Deleted(it.id, it.deletion.at)] + Forwards(items[1..])
      else Forwards(items[1..])
  }

  /** Reference for one group: the forwarded messages that come before the
      first item that raises. */
  function Deletions(items: seq<Item>): seq<Deleted>
  {
    Forwards(items[..StopIndex(items)])
  }

  function DeletionRecords(group: Group, ds: seq<Deleted>): (r: seq<DeletionRecord>)
    ensures |r| == |ds|
    ensures forall i :: 0 <= i < |ds| ==> r[i] == DeletionRecord(group.title, ds[i].messageId, ds[i].at)
  {
    seq(|ds|, i requires 0 <= i < |ds| => DeletionRecord(group.title, ds[i].messageId, ds[i].at))
  }

  lemma {:induction false} DeletionsCons(items: seq<Item>)
    requires items != []
    ensures Raises(items[0]) ==> Deletions(items) == []
    ensures !Raises(items[0]) && items[0].isForward ==>
              Deletions(items) == [Deleted(items[0].id, items[0].deletion.at)] + Deletions(items[1..])
    ensures !Raises(items[0]) && !items[0].isForward ==> Deletions(items) == Deletions(items[1..])
  {
    if !Raises(items[0]) {
      var k := StopIndex(items[1..]);
      assert items[..1 + k][1..] == items[1..][..k];
    }
  }

  /** `n` copies of a group id: the `increment_deletion` calls of `n` deletions. */
  function Repeat(id: int, n: nat): (r: seq<int>)
    ensures |r| == n
    ensures forall i :: 0 <= i < n ==> r[i] == id
    decreases n
  {
    if n == 0 then [] else [id] + Repeat(id, n - 1)
  }

  lemma {:induction false} RepeatCount(id: int, n: nat, h: int)
    ensures multiset(Repeat(id, n))[h] == if h == id then n else 0
    decreases n
  {
    if n > 0 {
      RepeatCount(id, n - 1, h);
      assert multiset(Repeat(id, n)) == multiset{id} + multiset(Repeat(id, n - 1));
    }
  }

  /** The `async for` loop over one group's messages inside its `try`: it
      makes exactly the `add_deleted_message` and `increment_deletion` calls
      of the reference deletions, in order, and no others. */
  function SweepGroup(b: Books, group: Group, items: seq<Item>): (r: Books)
    ensures r.ledger == AddDeletedMessages(b.ledger, DeletionRecords(group, Deletions(items)))
    ensures r.stats == IncrementDeletionAll(b.stats, Repeat(group.id, |Deletions(items)|))
    decreases |items|
  {
    if items == [] then b
    else
      DeletionsCons(items);
      match items[0]
      case FetchFailed(_) => b
      case Message(id, isForward, deletion) =>
        if !isForward then SweepGroup(b, group, items[1..])
        else match deletion
          case Failed(_) => b
          case Delivered(at) =>
            var b' := Books(AddDeletedMessage(b.ledger, group.title, id, at), IncrementDeletion(b.stats, group.id));
            DeletedHeadUnfolds(group, items);
            SweepGroup(b', group, items[1..])
  }

  /** When the first message is a forward that is deleted, the reference
      records and counter calls start with that message's. */
  lemma DeletedHeadUnfolds(group: Group, items: seq<Item>)
    requires items != [] && items[0].Message? && items[0].isForward && items[0].deletion.Delivered?
    ensures var recs := DeletionRecords(group, Deletions(items));
            && recs != [] && recs[0] == DeletionRecord(group.title, items[0].id, items[0].deletion.at)
            && recs[1..] == DeletionRecords(group, Deletions(items[1..]))
    ensures var ids := Repeat(group.id, |Deletions(items)|);
            ids != [] && ids[0] == group.id && ids[1..] == Repeat(group.id, |Deletions(items[1..])|)
  {
    DeletionsCons(items);
  }

  /** What one group's sweep does, read through the getters: its deletion
      records are appended in order, its own deletion counter rises by their
      number, and nothing else changes. */
  lemma SweepGroupEffect(b: Books, group: Group, items: seq<Item>)
    ensures var r := SweepGroup(b, group, items);
            && r.ledger.history == b.ledger.history
            && r.stats.forwarded == b.stats.forwarded
            && r.ledger.deletedMessages == b.ledger.deletedMessages + DeletionRecords(group, Deletions(items))
            && forall h :: Read(r.stats.deleted, h) == Read(b.stats.deleted, h) + (if h == group.id then |Deletions(items)| else 0)
  {
    var n := |Deletions(items)|;
    AddDeletedMessagesInOrder(b.ledger, DeletionRecords(group, Deletions(items)));
    IncrementDeletionAllKeepsForwarded(b.stats, Repeat(group.id, n));
    forall h
      ensures Read(IncrementDeletionAll(b.stats, Repeat(group.id, n)).deleted, h) ==
                Read(b.stats.deleted, h) + (if h == group.id then n else 0)
    {
      IncrementDeletionAllCounts(b.stats, Repeat(group.id, n), h);
      RepeatCount(group.id, n, h);
    }
  }

  /** Every deletion record of a group's sweep names a message of that
      group's listing that is a forward: nothing else is deleted. */
  lemma {:induction false} OnlyForwardsDeleted(items: seq<Item>)
    ensures forall d :: d in Deletions(items) ==> exists j :: 0 <= j < |items| && items[j] == Message(d.messageId, true, Delivered(d.at))
  {
    ForwardsFromListing(items[..StopIndex(items)]);
  }

  lemma {:induction false} ForwardsFromListing(items: seq<Item>)
    ensures forall d :: d in Forwards(items) ==> exists j :: 0 <= j < |items| && items[j] == Message(d.messageId, true, Delivered(d.at))
    decreases |items|
  {
    if items != [] {
      ForwardsFromListing(items[1..]);
      forall d | d in Forwards(items)
        ensures exists j :: 0 <= j < |items| && items[j] == Message(d.messageId, true, Delivered(d.at))
      {
        if d !in Forwards(items[1..]) {
          assert items[0] == Message(d.messageId, true, Delivered(d.at));
        } else {
          var j :| 0 <= j < |items[1..]| && items[1..][j] == Message(d.messageId, true, Delivered(d.at));
          assert items[j + 1] == items[1..][j];
        }
      }
    }
  }

  /** An exception at item `i` ends the group: whatever follows it, the
      group's deletions are those of the items before it. */
  lemma {:induction false} RaiseEndsGroup(items: seq<Item>, i: nat, later: seq<Item>)
    requires i < |items| && Raises(items[i])
    ensures Deletions(items[..i + 1] + later) == Deletions(items[..i])
  {
    var s := items[..i + 1] + later;
    StopIndexPrefix(items[..i], items[i], later);
    assert s == items[..i] + [items[i]] + later;
    assert s[..StopIndex(s)] == items[..i][..StopIndex(items[..i])];
  }

  lemma {:induction false} StopIndexPrefix(front: seq<Item>, stop: Item, later: seq<Item>)
    requires Raises(stop)
    ensures StopIndex(front + [stop] + later) == StopIndex(front)
    decreases |front|
  {
    var s := front + [stop] + later;
    if front == [] {
      assert s[0] == stop;
    } else {
      assert s[0] == front[0];
      assert s[1..] == front[1..] + [stop] + later;
      if !Raises(front[0]) {
        StopIndexPrefix(front[1..], stop, later);
      }
    }
  }

  /** The reference deletions of each selected group's own listing. */
  function PerGroupDeletions(listings: seq<seq<Item>>): (r: seq<seq<Deleted>>)
    ensures |r| == |listings|
    ensures forall i :: 0 <= i < |listings| ==> r[i] == Deletions(listings[i])
  {
    seq(|listings|, i requires 0 <= i < |listings| => Deletions(listings[i]))
  }

  /** Deletion records of a sweep over the selected groups, group by group,
      given each group's deletions. */
  function SweepRecords(groups: seq<Group>, dels: seq<seq<Deleted>>): seq<DeletionRecord>
    requires |dels| == |groups|
    decreases |groups|
  {
    if groups == [] then []
    else DeletionRecords(groups[0], dels[0]) + SweepRecords(groups[1..], dels[1..])
  }

  /** How many deletions a sweep over the selected groups makes in groups
      whose id is `h`: the number of `increment_deletion(h)` calls. */
  function DeletedCount(groups: seq<Group>, dels: seq<seq<Deleted>>, h: int): nat
    requires |dels| == |groups|
    decreases |groups|
  {
    if groups == [] then 0
    else (if groups[0].id == h then |dels[0]| else 0) + DeletedCount(groups[1..], dels[1..], h)
  }

  lemma {:induction false} SweepRecordsAppend(g1: seq<Group>, d1: seq<seq<Deleted>>, g2: seq<Group>, d2: seq<seq<Deleted>>)
    requires |d1| == |g1| && |d2| == |g2|
    ensures SweepRecords(g1 + g2, d1 + d2) == SweepRecords(g1, d1) + SweepRecords(g2, d2)
    decreases |g1|
  {
    var g := g1 + g2;
    var d := d1 + d2;
    if g1 == [] {
      assert g == g2 && d == d2;
    } else {
      assert g[0] == g1[0] && d[0] == d1[0];
      assert g[1..] == g1[1..] + g2 && d[1..] == d1[1..] + d2;
      SweepRecordsAppend(g1[1..], d1[1..], g2, d2);
      var head := DeletionRecords(g1[0], d1[0]);
      assert head + (SweepRecords(g1[1..], d1[1..]) + SweepRecords(g2, d2)) ==
             (head + SweepRecords(g1[1..], d1[1..])) + SweepRecords(g2, d2);
    }
  }

  lemma {:induction false} DeletedCountAppend(g1: seq<Group>, d1: seq<seq<Deleted>>, g2: seq<Group>, d2: seq<seq<Deleted>>, h: int)
    requires |d1| == |g1| && |d2| == |g2|
    ensures DeletedCount(g1 + g2, d1 + d2, h) == DeletedCount(g1, d1, h) + DeletedCount(g2, d2, h)
    decreases |g1|
  {
    var g := g1 + g2;
    var d := d1 + d2;
    if g1 == [] {
      assert g == g2 && d == d2;
    } else {
      assert g[0] == g1[0] && d[0] == d1[0];
      assert g[1..] == g1[1..] + g2 && d[1..] == d1[1..] + d2;
      DeletedCountAppend(g1[1..], d1[1..], g2, d2, h);
    }
  }

  /** Sweeping one more selected group appends exactly that group's records. */
  lemma SweepRecordsSnoc(selected: seq<Group>, dels: seq<seq<Deleted>>, i: nat)
    requires |dels| == |selected| && i < |selected|
    ensures SweepRecords(selected[..i + 1], dels[..i + 1]) ==
              SweepRecords(selected[..i], dels[..i]) + DeletionRecords(selected[i], dels[i])
  {
    assert selected[..i + 1] == selected[..i] + [selected[i]];
    assert dels[..i + 1] == dels[..i] + [dels[i]];
    SweepRecordsAppend(selected[..i], dels[..i], [selected[i]], [dels[i]]);
    assert SweepRecords([selected[i]], [dels[i]]) == DeletionRecords(selected[i], dels[i]) + SweepRecords([], []);
  }

  /** Sweeping one more selected group adds exactly its deletions to the
      count of its id. */
  lemma DeletedCountSnoc(selected: seq<Group>, dels: seq<seq<Deleted>>, i: nat, h: int)
    requires |dels| == |selected| && i < |selected|
    ensures DeletedCount(selected[..i + 1], dels[..i + 1], h) ==
              DeletedCount(selected[..i], dels[..i], h) + (if h == selected[i].id then |dels[i]| else 0)
  {
    assert selected[..i + 1] == selected[..i] + [selected[i]];
    assert dels[..i + 1] == dels[..i] + [dels[i]];
    DeletedCountAppend(selected[..i], dels[..i], [selected[i]], [dels[i]], h);
    assert DeletedCount([selected[i]], [dels[i]], h) ==
             (if selected[i].id == h then |dels[i]| else 0) + DeletedCount([], [], h);
  }

  /** One turn of the loop over the selected groups: sweeping group `i`
      carries the counters of the first `i` groups over to the first `i + 1`. */
  lemma SweepGroupsCountStep(b: Books, r: Books, selected: seq<Group>, listings: seq<seq<Item>>, dels: seq<seq<Deleted>>, i: nat)
    requires |listings| == |selected| && dels == PerGroupDeletions(listings) && i < |selected|
    requires forall h :: Read(r.stats.deleted, h) == Read(b.stats.deleted, h) + DeletedCount(selected[..i], dels[..i], h)
    requires r.stats.forwarded == b.stats.forwarded
    ensures var r' := SweepGroup(r, selected[i], listings[i]);
            && (forall h :: Read(r'.stats.deleted, h) == Read(b.stats.deleted, h) + DeletedCount(selected[..i + 1], dels[..i + 1], h))
            && r'.stats.forwarded == b.stats.forwarded
  {
    var r' := SweepGroup(r, selected[i], listings[i]);
    SweepGroupEffect(r, selected[i], listings[i]);
    forall h
      ensures Read(r'.stats.deleted, h) == Read(b.stats.deleted, h) + DeletedCount(selected[..i + 1], dels[..i + 1], h)
    {
      DeletedCountSnoc(selected, dels, i, h);
      assert Read(r'.stats.deleted, h) == Read(r.stats.deleted, h) + (if h == selected[i].id then |dels[i]| else 0);
    }
  }

  /** The same turn for the records: the `add_deleted_message` calls of
      group `i` go after those of the first `i` groups. */
  lemma SweepGroupsLedgerStep(b: Ledger, l: Ledger, selected: seq<Group>, dels: seq<seq<Deleted>>, i: nat)
    requires |dels| == |selected| && i < |selected|
    requires l == Ledger(b.history, b.deletedMessages + SweepRecords(selected[..i], dels[..i]))
    ensures AddDeletedMessages(l, DeletionRecords(selected[i], dels[i])) ==
              Ledger(b.history, b.deletedMessages + SweepRecords(selected[..i + 1], dels[..i + 1]))
  {
    SweepRecordsSnoc(selected, dels, i);
    var recs := DeletionRecords(selected[i], dels[i]);
    var before := SweepRecords(selected[..i], dels[..i]);
    var after := AddDeletedMessages(l, recs);
    AddDeletedMessagesInOrder(l, recs);
    assert after.deletedMessages == b.deletedMessages + before + recs;
    assert b.deletedMessages + before + recs == b.deletedMessages + (before + recs);
    assert after == Ledger(after.history, after.deletedMessages);
  }

  /** The loop over the selected groups: `listings[i]` is what iterating
      the i-th group yields. Each group's deletion counter rises by the
      deletions made in the selected groups with that id, forward counters
      stay as they were, and the deletion list grows by each group's own
      records, group after group, whether or not an earlier group raised. */
  method SweepGroups(b: Books, selected: seq<Group>, listings: seq<seq<Item>>) returns (r: Books)
    requires |listings| == |selected|
    ensures forall h :: Read(r.stats.deleted, h) == Read(b.stats.deleted, h) + DeletedCount(selected, PerGroupDeletions(listings), h)
    ensures r.stats.forwarded == b.stats.forwarded
    ensures r.ledger == Ledger(b.ledger.history, b.ledger.deletedMessages + SweepRecords(selected, PerGroupDeletions(listings)))
  {
    var dels := PerGroupDeletions(listings);
    r := b;
    var i := 0;
    while i < |selected|
      invariant 0 <= i <= |selected|
      invariant forall h :: Read(r.stats.deleted, h) == Read(b.stats.deleted, h) + DeletedCount(selected[..i], dels[..i], h)
      invariant r.stats.forwarded == b.stats.forwarded
      invariant r.ledger == Ledger(b.ledger.history, b.ledger.deletedMessages + SweepRecords(selected[..i], dels[..i]))
    {
      SweepGroupsCountStep(b, r, selected, listings, dels, i);
      SweepGroupsLedgerStep(b.ledger, r.ledger, selected, dels, i);
      r := SweepGroup(r, selected[i], listings[i]);
      i := i + 1;
    }
    assert selected[..i] == selected && dels[..i] == dels;
  }

  /** `delete_forwarded_messages` after the dialog: the groups whose title
      was selected are swept in dialog-list order, with the effect above. */
  method DeleteForwardedMessages(b: Books, groups: seq<Group>, selectedTitles: seq<string>, listings: seq<seq<Item>>)
    returns (r: Books)
    requires |listings| == |SelectByTitle(groups, selectedTitles)|
    ensures forall h :: Read(r.stats.deleted, h) ==
              Read(b.stats.deleted, h) + DeletedCount(SelectByTitle(groups, selectedTitles), PerGroupDeletions(listings), h)
    ensures r.stats.forwarded == b.stats.forwarded
    ensures r.ledger == Ledger(b.ledger.history,
                               b.ledger.deletedMessages + SweepRecords(SelectByTitle(groups, selectedTitles), PerGroupDeletions(listings)))
  {
    r := SweepGroups(b, SelectByTitle(groups, selectedTitles), listings);
  }

  /** A worked instance: the first group holds three forwards and deleting
      the second raises; the second group holds two forwards. The first
      group yields one record, and the second group is still swept. */
  lemma PerGroupFailureExample()
    ensures var g1 := Group(1, "one");
            var g2 := Group(2, "two");
            var l1 := [Message(10, true, Delivered("t1")), Message(11, true, Failed("e")), Message(12, true, Delivered("t3"))];
            var l2 := [Message(20, true, Delivered("t4")), Message(21, false, Delivered("t5")), Message(22, true, Delivered("t6"))];
            SweepRecords([g1, g2], PerGroupDeletions([l1, l2])) ==
              [DeletionRecord("one", 10, "t1"), DeletionRecord("two", 20, "t4"), DeletionRecord("two", 22, "t6")]
  {
    var l1 := [Message(10, true, Delivered("t1")), Message(11, true, Failed("e")), Message(12, true, Delivered("t3"))];
    var l2 := [Message(20, true, Delivered("t4")), Message(21, false, Delivered("t5")), Message(22, true, Delivered("t6"))];
    assert StopIndex(l1) == 1;
    assert l1[..1] == [Message(10, true, Delivered("t1"))];
    assert StopIndex(l2) == 3;
    assert l2[..3] == l2;
    assert Deletions(l1) == [Deleted(10, "t1")];
    assert Deletions(l2) == [Deleted(20, "t4"), Deleted(22, "t6")];
    var g1 := Group(1, "one");
    var g2 := Group(2, "two");
    var dels := PerGroupDeletions([l1, l2]);
    assert dels == [Deletions(l1), Deletions(l2)];
    assert SweepRecords([g2], dels[1..]) == DeletionRecords(g2, Deletions(l2)) + SweepRecords([], []);
    assert SweepRecords([g1, g2], dels) == DeletionRecords(g1, Deletions(l1)) + SweepRecords([g2], dels[1..]);
  }
}
