/** The forwarding logic of `forward_messages_to_groups`: the guard that
    refuses an empty or an already active configuration, and the per-message
    fan-out loop of the `handler` it registers. The chat service's forward
    call is an abstract outcome per target, supplied with the input. */
module Forwarding {
  import opened Common
  import opened History
  import opened Statistics
  import opened RouteKey
  import opened Bookkeeping

  /** What the registered handler captures: the source group and the target
      groups, in dialog-list order. */
  datatype Route = Route(source: Group, targets: seq<Group>)

  datatype SetupError =
    | SourceNotFound   // `next(...)` finds no group with the chosen title
    | NoValidTargets   // "No valid target groups selected."
    | AlreadyActive    // "Handler for this forwarding configuration is already active."

  datatype SetupOutcome = Registered(route: Route, key: string) | Rejected(error: SetupError)

  /** The outcome of one setup together with the `active_handlers` set it
      leaves behind. */
  datatype Setup = Setup(outcome: SetupOutcome, activeHandlers: set<string>)

  function Ids(groups: seq<Group>): (r: seq<int>)
    ensures |r| == |groups|
    ensures forall i :: 0 <= i < |groups| ==> r[i] == groups[i].id
  {
    seq(|groups|, i requires 0 <= i < |groups| => groups[i].id)
  }

  /** The first group with the given title (Python `next(...)` over the dialog list). */
  function FindByTitle(groups: seq<Group>, title: string): (r: Option<Group>)
    ensures r.None? <==> forall g :: g in groups ==> g.title != title
    ensures r.Some? ==> r.value in groups && r.value.title == title
    ensures r.Some? ==> exists i :: 0 <= i < |groups| && groups[i] == r.value && forall j :: 0 <= j < i ==> groups[j].title != title
  {
    if groups == [] then None
    else if groups[0].title == title then Some(groups[0])
    else FindByTitle(groups[1..], title)
  }

  /** The handler key of a route. */
  function RouteHandlerKey(route: Route): string
  {
    HandlerKey(route.source.id, Ids(route.targets))
  }

  /** The setup part of `forward_messages_to_groups`, after the dialogs have
      produced a source title and a list of target titles. */
  function SetupForwarding(groups: seq<Group>, active: set<string>, sourceTitle: string, targetTitles: seq<string>): (r: Setup)
    ensures r.outcome.Rejected? ==> r.activeHandlers == active
    ensures r.outcome == Rejected(SourceNotFound) <==> FindByTitle(groups, sourceTitle).None?
    ensures r.outcome == Rejected(NoValidTargets) <==>
              FindByTitle(groups, sourceTitle).Some? && SelectByTitle(groups, targetTitles) == []
    ensures r.outcome.Registered? ==>
              && r.outcome.route.source == FindByTitle(groups, sourceTitle).value
              && r.outcome.route.targets == SelectByTitle(groups, targetTitles)
              && r.outcome.route.targets != []
              && r.outcome.key == RouteHandlerKey(r.outcome.route)
              && r.outcome.key !in active
              && r.activeHandlers == active + {r.outcome.key}
    ensures r.outcome == Rejected(AlreadyActive) ==>
              RouteHandlerKey(Route(FindByTitle(groups, sourceTitle).value, SelectByTitle(groups, targetTitles))) in active
  {
    match FindByTitle(groups, sourceTitle)
    case None => Setup(Rejected(SourceNotFound), active)
    case Some(source) =>
      var targets := SelectByTitle(groups, targetTitles);
      if targets == [] then Setup(Rejected(NoValidTargets), active)
      else
        var route := Route(source, targets);
        var key := RouteHandlerKey(route);
        if key in active then Setup(Rejected(AlreadyActive), active)
        else Setup(Registered(route, key), active + {key})
  }

  /** Registering the same configuration a second time is refused, and the
      set of active handler keys does not change. */
  lemma SetupTwiceRejected(groups: seq<Group>, active: set<string>, sourceTitle: string, targetTitles: seq<string>)
    requires SetupForwarding(groups, active, sourceTitle, targetTitles).outcome.Registered?
    ensures var first := SetupForwarding(groups, active, sourceTitle, targetTitles);
            var second := SetupForwarding(groups, first.activeHandlers, sourceTitle, targetTitles);
            second.outcome == Rejected(AlreadyActive) && second.activeHandlers == first.activeHandlers
  {
  }

  /** A registered key blocks only its own configuration: a route with a
      different source id or a different ordered list of target ids is not
      taken for a duplicate. */
  lemma DistinctRoutesDoNotCollide(groups: seq<Group>, active: set<string>, sourceTitle: string, targetTitles: seq<string>, other: Route)
    requires SetupForwarding(groups, active, sourceTitle, targetTitles).outcome.Registered?
    requires RouteHandlerKey(other) !in active
    ensures var first := SetupForwarding(groups, active, sourceTitle, targetTitles);
            RouteHandlerKey(other) in first.activeHandlers <==>
              other.source.id == first.outcome.route.source.id && Ids(other.targets) == Ids(first.outcome.route.targets)
  {
    var first := SetupForwarding(groups, active, sourceTitle, targetTitles);
    var route := first.outcome.route;
    HandlerKeyInjective(other.source.id, Ids(other.targets), route.source.id, Ids(route.targets));
  }

  /** One target delivered to, with the timestamp of its history record. */
  datatype Success = Success(target: Group, at: string)

  /** The targets whose forward succeeded, in target order: the reference
      the fan-out loop is checked against. */
  function Successes(targets: seq<Group>, attempts: seq<Attempt>): (r: seq<Success>)
    requires |attempts| == |targets|
    ensures |r| <= |targets|
    decreases |targets|
  {
    if targets == [] then []
    else
      var rest := Successes(targets[1..], attempts[1..]);
      match attempts[0]
      case Delivered(at) => [Success(targets[0], at)] + rest
      case Failed(_) => rest
  }

  /** The history record a success produces. */
  function RecordOf(route: Route, messageId: int, s: Success): ForwardRecord
  {
    ForwardRecord(route.source.title, s.target.title, messageId, s.at)
  }

  function Records(route: Route, messageId: int, ss: seq<Success>): (r: seq<ForwardRecord>)
    ensures |r| == |ss|
    ensures forall i :: 0 <= i < |ss| ==> r[i] == RecordOf(route, messageId, ss[i])
  {
    seq(|ss|, i requires 0 <= i < |ss| => RecordOf(route, messageId, ss[i]))
  }

  function TargetIds(ss: seq<Success>): (r: seq<int>)
    ensures |r| == |ss|
    ensures forall i :: 0 <= i < |ss| ==> r[i] == ss[i].target.id
  {
    seq(|ss|, i requires 0 <= i < |ss| => ss[i].target.id)
  }

  /** Number of attempts that succeeded. */
  function SuccessCount(attempts: seq<Attempt>): nat
    decreases |attempts|
  {
    if attempts == [] then 0
    else (if attempts[0].Delivered? then 1 else 0) + SuccessCount(attempts[1..])
  }

  lemma {:induction false} SuccessesAppend(t1: seq<Group>, a1: seq<Attempt>, t2: seq<Group>, a2: seq<Attempt>)
    requires |a1| == |t1| && |a2| == |t2|
    ensures Successes(t1 + t2, a1 + a2) == Successes(t1, a1) + Successes(t2, a2)
    decreases |t1|
  {
    if t1 == [] {
      assert t1 + t2 == t2 && a1 + a2 == a2;
    } else {
      assert (t1 + t2)[1..] == t1[1..] + t2;
      assert (a1 + a2)[1..] == a1[1..] + a2;
      assert (t1 + t2)[0] == t1[0] && (a1 + a2)[0] == a1[0];
      SuccessesAppend(t1[1..], a1[1..], t2, a2);
    }
  }

  /** One success per successful attempt. */
  lemma {:induction false} SuccessesCount(targets: seq<Group>, attempts: seq<Attempt>)
    requires |attempts| == |targets|
    ensures |Successes(targets, attempts)| == SuccessCount(attempts)
    decreases |targets|
  {
    if targets != [] {
      SuccessesCount(targets[1..], attempts[1..]);
    }
  }

  /** One iteration of the handler's loop body for one target: on a
      successful forward, `increment(target.id)` then `add_entry`; on a
      raised exception, nothing but a log line. */
  function TryForward(b: Books, route: Route, messageId: int, target: Group, a: Attempt): Books
  {
    match a
    case Delivered(at) =>
      Books(AddEntry(b.ledger, route.source.title, target.title, messageId, at), Increment(b.stats, target.id))
    case Failed(_) => b
  }

  lemma RecordsAppend(route: Route, messageId: int, x: seq<Success>, y: seq<Success>)
    ensures Records(route, messageId, x + y) == Records(route, messageId, x) + Records(route, messageId, y)
  {
  }

  lemma TargetIdsAppend(x: seq<Success>, y: seq<Success>)
    ensures TargetIds(x + y) == TargetIds(x) + TargetIds(y)
  {
  }

  /** One iteration of the loop body is the run of `add_entry` and
      `increment` calls for the successes among that one target. */
  lemma TryForwardStep(r: Books, route: Route, messageId: int, target: Group, a: Attempt)
    ensures var step := Successes([target], [a]);
            TryForward(r, route, messageId, target, a) ==
              Books(AddEntries(r.ledger, Records(route, messageId, step)), IncrementAll(r.stats, TargetIds(step)))
  {
    var step := Successes([target], [a]);
    match a
    case Delivered(at) =>
      assert step == [Success(target, at)] + Successes([], []);
      var recs := Records(route, messageId, step);
      assert recs[1..] == [] && TargetIds(step)[1..] == [];
    case Failed(_) =>
      assert step == Successes([], []);
  }

  /** The `for target_group in target_group_objs` loop, one target after
      another: it makes exactly the `add_entry` and `increment` calls of the
      reference successes, in target order, and no others. */
  function FanOut(b: Books, route: Route, messageId: int, targets: seq<Group>, attempts: seq<Attempt>): (r: Books)
    requires |attempts| == |targets|
    ensures r.ledger == AddEntries(b.ledger, Records(route, messageId, Successes(targets, attempts)))
    ensures r.stats == IncrementAll(b.stats, TargetIds(Successes(targets, attempts)))
    decreases |targets|
  {
    if targets == [] then b
    else
      var b' := TryForward(b, route, messageId, targets[0], attempts[0]);
      var r := FanOut(b', route, messageId, targets[1..], attempts[1..]);
      FanOutStep(b, route, messageId, targets, attempts);
      r
  }

  /** Trying the first target and then the rest makes the calls of the
      first target's successes followed by those of the rest. */
  lemma FanOutStep(b: Books, route: Route, messageId: int, targets: seq<Group>, attempts: seq<Attempt>)
    requires |attempts| == |targets| && targets != []
    ensures var b' := TryForward(b, route, messageId, targets[0], attempts[0]);
            var rest := Successes(targets[1..], attempts[1..]);
            && AddEntries(b'.ledger, Records(route, messageId, rest)) ==
                 AddEntries(b.ledger, Records(route, messageId, Successes(targets, attempts)))
            && IncrementAll(b'.stats, TargetIds(rest)) == IncrementAll(b.stats, TargetIds(Successes(targets, attempts)))
  {
    var head := Successes([targets[0]], [attempts[0]]);
    var rest := Successes(targets[1..], attempts[1..]);
    assert targets == [targets[0]] + targets[1..] && attempts == [attempts[0]] + attempts[1..];
    SuccessesAppend([targets[0]], [attempts[0]], targets[1..], attempts[1..]);
    RecordsAppend(route, messageId, head, rest);
    TargetIdsAppend(head, rest);
    AddEntriesAppend(b.ledger, Records(route, messageId, head), Records(route, messageId, rest));
    IncrementAllAppend(b.stats, TargetIds(head), TargetIds(rest));
    TryForwardStep(b, route, messageId, targets[0], attempts[0]);
  }

  /** The registered `handler` for one new message of the source group:
      every target is tried in list order; `attempts[i]` is what forwarding to
      `route.targets[i]` did. Exactly the successful targets, in order, get a
      history record and a counter increment; failures are skipped without
      stopping the loop; deletions are untouched. */
  method HandleNewMessage(b: Books, route: Route, messageId: int, attempts: seq<Attempt>) returns (r: Books)
    requires |attempts| == |route.targets|
    ensures r.ledger.history == b.ledger.history + Records(route, messageId, Successes(route.targets, attempts))
    ensures |r.ledger.history| == |b.ledger.history| + SuccessCount(attempts)
    ensures forall g :: Read(r.stats.forwarded, g) ==
              Read(b.stats.forwarded, g) + multiset(TargetIds(Successes(route.targets, attempts)))[g]
    ensures r.ledger.deletedMessages == b.ledger.deletedMessages
    ensures r.stats.deleted == b.stats.deleted
  {
    r := FanOut(b, route, messageId, route.targets, attempts);
    var done := Successes(route.targets, attempts);
    SuccessesCount(route.targets, attempts);
    AddEntriesInOrder(b.ledger, Records(route, messageId, done));
    IncrementAllKeepsDeleted(b.stats, TargetIds(done));
    forall g
      ensures Read(r.stats.forwarded, g) == Read(b.stats.forwarded, g) + multiset(TargetIds(done))[g]
    {
      IncrementAllCounts(b.stats, TargetIds(done), g);
    }
  }

  /** With every forward succeeding, a route with k targets yields exactly k
      history records, the i-th for the i-th target, and each target's
      counter rises by the number of times it is listed. */
  lemma {:induction false} AllDeliveredOnePerTarget(route: Route, messageId: int, attempts: seq<Attempt>)
    requires |attempts| == |route.targets|
    requires forall i :: 0 <= i < |attempts| ==> attempts[i].Delivered?
    ensures var recs := Records(route, messageId, Successes(route.targets, attempts));
            && |recs| == |route.targets|
            && (forall i :: 0 <= i < |recs| ==>
                  recs[i] == ForwardRecord(route.source.title, route.targets[i].title, messageId, attempts[i].at))
    ensures TargetIds(Successes(route.targets, attempts)) == Ids(route.targets)
  {
    AllDeliveredSuccesses(route.targets, attempts);
  }

  lemma {:induction false} AllDeliveredSuccesses(targets: seq<Group>, attempts: seq<Attempt>)
    requires |attempts| == |targets|
    requires forall i :: 0 <= i < |attempts| ==> attempts[i].Delivered?
    ensures Successes(targets, attempts) == seq(|targets|, i requires 0 <= i < |targets| => Success(targets[i], attempts[i].at))
    decreases |targets|
  {
    if targets != [] {
      AllDeliveredSuccesses(targets[1..], attempts[1..]);
    }
  }

  /** A failed forward to target `i` only drops that target: the successes
      are those before it followed by those after it. */
  lemma FailureSkipsOnlyThatTarget(targets: seq<Group>, attempts: seq<Attempt>, i: nat)
    requires |attempts| == |targets|
    requires i < |targets| && attempts[i].Failed?
    ensures Successes(targets, attempts) ==
              Successes(targets[..i], attempts[..i]) + Successes(targets[i + 1..], attempts[i + 1..])
  {
    assert targets == targets[..i] + ([targets[i]] + targets[i + 1..]);
    assert attempts == attempts[..i] + ([attempts[i]] + attempts[i + 1..]);
    SuccessesAppend(targets[..i], attempts[..i], [targets[i]] + targets[i + 1..], [attempts[i]] + attempts[i + 1..]);
    assert ([targets[i]] + targets[i + 1..])[1..] == targets[i + 1..];
    assert ([attempts[i]] + attempts[i + 1..])[1..] == attempts[i + 1..];
  }
}
