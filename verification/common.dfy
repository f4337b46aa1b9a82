/** Shared vocabulary of the forwarding bookkeeping: optional values, the
    abstract outcome of one call into the chat service, and a chat group as
    the bot sees it (its numeric id and its display title). */
module Common {

  datatype Option<+T> = None | Some(value: T)

  /** The outcome of one transport call (forward a message, delete a message).
      A call that succeeds carries the wall-clock timestamp the bot would have
      stamped on its bookkeeping record; a call that raises carries the text of
      the exception. */
  datatype Attempt = Delivered(at: string) | Failed(reason: string)

  /** A group or megagroup dialog: the numeric id used for routing and
      counters, and the title shown to the user and written into history. */
  datatype Group = Group(id: int, title: string)

  /** The groups of `groups` whose title is one of `titles`, in the order of
      `groups` (not in the order of the selection). */
  function SelectByTitle(groups: seq<Group>, titles: seq<string>): (r: seq<Group>)
    ensures |r| <= |groups|
    ensures forall g :: g in r <==> g in groups && g.title in titles
    ensures titles == [] ==> r == []
  {
    if groups == [] then []
    else
      var rest := SelectByTitle(groups[1..], titles);
      if groups[0].title in titles then [groups[0]] + rest else rest
  }

  /** Selection distributes over concatenation: the groups picked from the
      front of the dialog list come before those picked from the back, so the
      selection keeps the dialog list's order. */
  lemma {:induction false} SelectByTitleAppend(front: seq<Group>, back: seq<Group>, titles: seq<string>)
    ensures SelectByTitle(front + back, titles) == SelectByTitle(front, titles) + SelectByTitle(back, titles)
  {
    if front == [] {
      assert front + back == back;
    } else {
      assert (front + back)[0] == front[0];
      assert (front + back)[1..] == front[1..] + back;
      SelectByTitleAppend(front[1..], back, titles);
    }
  }
}
