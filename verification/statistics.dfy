/** ForwardingStatistics: per-group counters held in two `defaultdict(int)`
    maps, one for forwarded and one for deleted messages. A group never
    counted reads as 0. */
module Statistics {

  datatype Stats = Stats(forwarded: map<int, nat>, deleted: map<int, nat>)

  /** Reading a `defaultdict(int)`: a missing key reads 0. */
  function Read(m: map<int, nat>, group: int): nat
  {
    if group in m then m[group] else 0
  }

  /** `m[group] += 1` on a `defaultdict(int)`. */
  function Bump(m: map<int, nat>, group: int): (r: map<int, nat>)
    ensures Read(r, group) == Read(m, group) + 1
    ensures forall h :: h != group ==> Read(r, h) == Read(m, h)
    ensures r.Keys == m.Keys + {group}
  {
    m[group := Read(m, group) + 1]
  }

  /** A freshly constructed ForwardingStatistics. */
  function EmptyStats(): (s: Stats)
    ensures forall g :: Read(s.forwarded, g) == 0 && Read(s.deleted, g) == 0
  {
    Stats(map[], map[])
  }

  /** `increment`: the forwarded counter of `group` goes up by exactly one;
      every other group and the deletion counters are unchanged. */
  function Increment(s: Stats, group: int): (r: Stats)
    ensures Read(r.forwarded, group) == Read(s.forwarded, group) + 1
    ensures forall h :: h != group ==> Read(r.forwarded, h) == Read(s.forwarded, h)
    ensures r.deleted == s.deleted
  {
    s.(forwarded := Bump(s.forwarded, group))
  }

  /** `increment_deletion`: the deletion counter of `group` goes up by
      exactly one; every other group and the forward counters are unchanged. */
  function IncrementDeletion(s: Stats, group: int): (r: Stats)
    ensures Read(r.deleted, group) == Read(s.deleted, group) + 1
    ensures forall h :: h != group ==> Read(r.deleted, h) == Read(s.deleted, h)
    ensures r.forwarded == s.forwarded
  {
    s.(deleted := Bump(s.deleted, group))
  }

  /** `get_statistics`: the two maps under the keys "forwarded" and "deleted". */
  function GetStatistics(s: Stats): (m: map<string, map<int, nat>>)
    ensures m.Keys == {"forwarded", "deleted"}
    ensures m["forwarded"] == s.forwarded && m["deleted"] == s.deleted
  {
    map["forwarded" := s.forwarded, "deleted" := s.deleted]
  }

  /** Calling `increment` once per group id, in order. */
  function IncrementAll(s: Stats, groups: seq<int>): Stats
    decreases |groups|
  {
    if groups == [] then s else IncrementAll(Increment(s, groups[0]), groups[1..])
  }

  /** Calling `increment_deletion` once per group id, in order. */
  function IncrementDeletionAll(s: Stats, groups: seq<int>): Stats
    decreases |groups|
  {
    if groups == [] then s else IncrementDeletionAll(IncrementDeletion(s, groups[0]), groups[1..])
  }

  /** Replaying a sequence of `increment` calls adds, to each group's counter,
      the number of times that group occurs in the sequence; the deletion
      counters do not move. From empty statistics this is the recount of the
      events. */
  lemma {:induction false} IncrementAllCounts(s: Stats, groups: seq<int>, g: int)
    ensures Read(IncrementAll(s, groups).forwarded, g) == Read(s.forwarded, g) + multiset(groups)[g]
    ensures IncrementAll(s, groups).deleted == s.deleted
    decreases |groups|
  {
    if groups != [] {
      IncrementAllCounts(Increment(s, groups[0]), groups[1..], g);
      assert groups == [groups[0]] + groups[1..];
      assert multiset(groups) == multiset{groups[0]} + multiset(groups[1..]);
    }
  }

  /** The same for `increment_deletion`. */
  lemma {:induction false} IncrementDeletionAllCounts(s: Stats, groups: seq<int>, g: int)
    ensures Read(IncrementDeletionAll(s, groups).deleted, g) == Read(s.deleted, g) + multiset(groups)[g]
    ensures IncrementDeletionAll(s, groups).forwarded == s.forwarded
    decreases |groups|
  {
    if groups != [] {
      IncrementDeletionAllCounts(IncrementDeletion(s, groups[0]), groups[1..], g);
      assert groups == [groups[0]] + groups[1..];
      assert multiset(groups) == multiset{groups[0]} + multiset(groups[1..]);
    }
  }

  /** A run of `increment` calls leaves the deletion counters alone. */
  lemma {:induction false} IncrementAllKeepsDeleted(s: Stats, groups: seq<int>)
    ensures IncrementAll(s, groups).deleted == s.deleted
    decreases |groups|
  {
    if groups != [] {
      IncrementAllKeepsDeleted(Increment(s, groups[0]), groups[1..]);
    }
  }

  /** A run of `increment_deletion` calls leaves the forward counters alone. */
  lemma {:induction false} IncrementDeletionAllKeepsForwarded(s: Stats, groups: seq<int>)
    ensures IncrementDeletionAll(s, groups).forwarded == s.forwarded
    decreases |groups|
  {
    if groups != [] {
      IncrementDeletionAllKeepsForwarded(IncrementDeletion(s, groups[0]), groups[1..]);
    }
  }

  /** Two runs of `increment` calls are one run over both id lists. */
  lemma {:induction false} IncrementAllAppend(s: Stats, a: seq<int>, b: seq<int>)
    ensures IncrementAll(s, a + b) == IncrementAll(IncrementAll(s, a), b)
    decreases |a|
  {
    if a == [] {
      assert a + b == b;
    } else {
      assert (a + b)[0] == a[0] && (a + b)[1..] == a[1..] + b;
      IncrementAllAppend(Increment(s, a[0]), a[1..], b);
    }
  }

  /** Two runs of `increment_deletion` calls are one run over both id lists. */
  lemma {:induction false} IncrementDeletionAllAppend(s: Stats, a: seq<int>, b: seq<int>)
    ensures IncrementDeletionAll(s, a + b) == IncrementDeletionAll(IncrementDeletionAll(s, a), b)
    decreases |a|
  {
    if a == [] {
      assert a + b == b;
    } else {
      assert (a + b)[0] == a[0] && (a + b)[1..] == a[1..] + b;
      IncrementDeletionAllAppend(IncrementDeletion(s, a[0]), a[1..], b);
    }
  }
}
