# Forwarding bookkeeping of combined_bot.py, in Dafny

`combined_bot.py` is a desktop Telegram bot. A PySimpleGUI window lets the
user do four things:

- log in with a phone number and a verification code;
- pick a source group and target groups, so that every new message of the
  source is forwarded to each target;
- sweep selected groups and delete the forwarded messages in them;
- view the forwarding and deletion history.

Under the widgets and the Telethon calls sits a small, sequential
bookkeeping layer, and this project models it:

- `History` covers `ForwardingHistory`. It holds two append-only record lists: forwards and deletions.
- `Statistics` covers `ForwardingStatistics`. It holds two per-group counters that default to 0. They are `defaultdict(int)` keyed by group id.
- `Users` covers `UserManagement`. It is a set of user ids.
- `Bookkeeping` pairs a ForwardingHistory with a ForwardingStatistics. That pair is the state both loops write to.
- `RouteKey` covers the handler key `"<source id>_to_<target id>_<target id>..."`. The Python `str(int)` and `'_'.join` are written out. A parser for the key is proved to invert it, which shows that the key is injective.
- `Forwarding` covers `forward_messages_to_groups` after its dialogs:
  - the source lookup;
  - the target filter;
  - the empty-target and duplicate-key guards;
  - the registration in `active_handlers`;
  - the registered `handler`'s loop over the targets for one new message.
- `Deletion` covers `delete_forwarded_messages` after its dialog. It is the sweep over the selected groups, with one `try` per group.
- `LogBuffer` covers `log_message`'s trimming to the newest `max_lines` lines. This includes Python's `a[-m:]` slice semantics.
- `Login` covers the input guards of `send_verification_code` and `login`. It includes a model of Python's `str.strip()` and `str.isspace()`.

Every Telethon call is an abstract outcome supplied with the input. For
forwarding, `Attempt` is `Delivered(timestamp)` or `Failed(reason)`. For the
sweep, an `Item` of a group's listing is one of two things:

- a message, with its forward flag and what deleting it would do;
- an exception raised by the iteration itself.

`datetime.now()` timestamps are opaque strings that travel with a
successful outcome. Each loop has a reference definition:

- `Forwarding.Successes` gives the targets whose forward succeeded.
- `Deletion.Deletions` gives the forwards deleted before the group's first exception.

The loop is proved to make exactly the `add_entry` / `increment` (or
`add_deleted_message` / `increment_deletion`) calls of that reference, in
order, and no others.

Notes on the code:

- In the sweep, the `try` encloses a whole group (combined_bot.py:281-295).
  The first failing fetch or delete therefore ends that group's sweep, not
  just the one message; the next selected group is still swept.
- The code has no rate limiter, flood-wait retry, keyword filter, topic
  routing or rule pausing. The `rate_limits` dict and `FloodWaitError` are
  unused, and the only throttle is a fixed `asyncio.sleep(2)`.
- The statistics are keyed by group id, but history records store group
  titles. Counters therefore cannot be rebuilt from the history, and the
  model keeps the two apart.
- The handler key lists target ids in dialog-list order, not in the order the
  user picked them. Two selections of the same targets therefore give the same key.
- When two dialogs share a title, `next(...)` takes the first of them as the
  source, and the target filter keeps all of them.

## Model

| member | source | states |
|---|---|---|
| History.EmptyLedger | combined_bot.py:16-18 | a new ForwardingHistory has an empty forward list and an empty deletion list |
| History.AddEntry | combined_bot.py:20-26 | `add_entry` appends exactly one record, holding the given source title, target title, message id and timestamp, after all earlier records; the deletion list is unchanged |
| History.AddDeletedMessage | combined_bot.py:28-33 | `add_deleted_message` appends exactly one record at the end of the deletion list; earlier records and the forward list are unchanged |
| History.AddEntriesInOrder | combined_bot.py:20-39 | after any run of `add_entry` calls, `get_history` returns the old records followed by the new ones in call order, and `get_deleted_messages` is unchanged |
| History.AddDeletedMessagesInOrder | combined_bot.py:28-39 | after any run of `add_deleted_message` calls, `get_deleted_messages` returns the old records followed by the new ones in call order, and `get_history` is unchanged |
| History.AddEntriesAppend | combined_bot.py:20-26 | two consecutive runs of `add_entry` calls have the same effect as one run over both lists |
| History.AddDeletedMessagesAppend | combined_bot.py:28-33 | two consecutive runs of `add_deleted_message` calls have the same effect as one run over both lists |
| Statistics.EmptyStats | combined_bot.py:42-44 | a new ForwardingStatistics reads 0 for every group in both maps |
| Statistics.Bump | combined_bot.py:47 | `m[g] += 1` on a `defaultdict(int)` raises g's reading by exactly 1, an absent key reading 0. It leaves every other key's reading alone and adds g to the keys |
| Statistics.Increment | combined_bot.py:46-47 | `increment(g)` raises g's forward count by exactly 1, an unseen group counting as 0; no other group's count changes; the deletion map is unchanged |
| Statistics.IncrementDeletion | combined_bot.py:49-50 | `increment_deletion(g)` raises g's deletion count by exactly 1; no other count changes; the forward map is unchanged |
| Statistics.GetStatistics | combined_bot.py:52-56 | `get_statistics` has exactly the keys "forwarded" and "deleted", mapped to the forward and deletion counters |
| Statistics.IncrementAllCounts | combined_bot.py:46-47 | after any sequence of `increment` calls, each group's count is its old count plus the number of calls naming it; the deletion map is unchanged |
| Statistics.IncrementDeletionAllCounts | combined_bot.py:49-50 | after any sequence of `increment_deletion` calls, each group's count is its old count plus the number of calls naming it; the forward map is unchanged |
| Statistics.IncrementAllKeepsDeleted | combined_bot.py:46-47 | any sequence of `increment` calls leaves the deletion counters unchanged |
| Statistics.IncrementDeletionAllKeepsForwarded | combined_bot.py:49-50 | any sequence of `increment_deletion` calls leaves the forward counters unchanged |
| Statistics.IncrementAllAppend | combined_bot.py:46-47 | two consecutive runs of `increment` calls have the same effect as one run over both lists |
| Statistics.IncrementDeletionAllAppend | combined_bot.py:49-50 | two consecutive runs of `increment_deletion` calls have the same effect as one run over both lists |
| Users.AddUser | combined_bot.py:62-64 | after `add_user` the user is a member and no other user's membership changed; adding a user who is already a member changes nothing |
| Users.RemoveUser | combined_bot.py:66-68 | after `remove_user` the user is not a member, and no other user's membership changed; removing a non-member is not an error and changes nothing |
| Users.AddRemoveIdempotent | combined_bot.py:62-68 | adding twice equals adding once; removing twice equals removing once; removing an absent user or adding a present one changes nothing |
| Users.AddRemoveInverse | combined_bot.py:62-68 | removing undoes adding a previously absent user, and adding undoes removing a previously present one |
| Users.GetUsers | combined_bot.py:70-71 | `get_users` returns a list with exactly the members of the set, each exactly once |
| Common.SelectByTitle | combined_bot.py:219 | the target filter keeps exactly the dialog groups whose title was chosen, never more groups than the dialog list holds, and nothing when no title was chosen |
| Common.SelectByTitleAppend | combined_bot.py:219 | the filter keeps the dialog-list order: filtering a concatenation is the concatenation of the filtered parts |
| RouteKey.IntToString | combined_bot.py:225 | `str(id)` is a nonempty decimal text that contains no '_' |
| RouteKey.JoinIds | combined_bot.py:225 | `'_'.join(str(id) ...)` is empty exactly when there are no target ids |
| RouteKey.ParseIntToString | combined_bot.py:225 | `str(id)` loses nothing: reading the decimal text back gives the id, negative ids included |
| RouteKey.SplitJoinIds | combined_bot.py:225 | splitting the joined target part at '_' gives back each target's decimal text, in order |
| RouteKey.HandlerKeyRoundTrip | combined_bot.py:225 | the handler key can be parsed back into its source id and its ordered target ids |
| RouteKey.HandlerKeyInjective | combined_bot.py:225 | two handler keys are equal if and only if they have the same source id and the same ordered list of target ids |
| Forwarding.FindByTitle | combined_bot.py:218 | the source lookup fails exactly when no dialog group has the chosen title. Otherwise it yields the first dialog group with that title: every group before it has another title |
| Forwarding.SetupForwarding | combined_bot.py:218-247 | covers each outcome of a setup. A missing source, and a source with no valid targets, are each rejected exactly when they occur. A key already active is rejected. Every rejection leaves `active_handlers` unchanged. A registration has the looked-up source and the filtered targets, which are nonempty. Its key is the handler key of that route, was not active before, and is the one key added |
| Forwarding.SetupTwiceRejected | combined_bot.py:226-228 | repeating a registered configuration is rejected as already active, and the active set stays as it was |
| Forwarding.DistinctRoutesDoNotCollide | combined_bot.py:225-247 | after a registration, an inactive route is blocked if and only if it has the registered source id and ordered target ids |
| Forwarding.Successes | combined_bot.py:232-245 | the reference list of targets whose forward succeeded, in target order, is never longer than the target list |
| Forwarding.SuccessesAppend | combined_bot.py:232-245 | the successes over two consecutive target lists are the successes of the first list followed by those of the second |
| Forwarding.SuccessesCount | combined_bot.py:232-245 | there are exactly as many successes as successful attempts |
| Forwarding.TryForwardStep | combined_bot.py:233-245 | a single loop iteration is one `increment` plus one `add_entry` when the forward succeeds, and nothing when it raises |
| Forwarding.FanOut | combined_bot.py:232-245 | the handler's loop makes exactly the `add_entry` calls of the reference successes, with source title, target title and message id, in target order. It makes exactly the matching `increment(target.id)` calls, and no others |
| Forwarding.FanOutStep | combined_bot.py:232-245 | trying the first target and then the rest gives the same bookkeeping as the reference successes of the whole list |
| Forwarding.HandleNewMessage | combined_bot.py:231-245 | one new message of the source gives k new history entries for k successful forwards, appended in target order. Each group's forward count rises by the number of its successful targets. Deletion records and deletion counts are unchanged |
| Forwarding.AllDeliveredOnePerTarget | combined_bot.py:232-245 | when every forward succeeds, the i-th new record is for the i-th target, and the counter calls are exactly the target ids |
| Forwarding.AllDeliveredSuccesses | combined_bot.py:232-245 | when every forward succeeds, the successes are all targets paired with their timestamps |
| Forwarding.FailureSkipsOnlyThatTarget | combined_bot.py:244-245 | a failed forward to target i removes only that target: the later targets are still tried |
| Deletion.StopIndex | combined_bot.py:281-295 | gives the position of the first item that raises in the group's `try`, or the end of the listing when none does |
| Deletion.DeletionsCons | combined_bot.py:282-292 | the reference deletions of a listing, first item by first item: a raising item ends them, a deleted forward comes first, and any other message is skipped |
| Deletion.SweepGroup | combined_bot.py:281-295 | one group's `async for` loop inside its `try` makes exactly the `add_deleted_message` and `increment_deletion(group.id)` calls of the reference deletions, in order, and no others |
| Deletion.DeletedHeadUnfolds | combined_bot.py:283-290 | a deleted forward at the head of the listing gives the first deletion record and the first counter call |
| Deletion.SweepGroupEffect | combined_bot.py:281-295 | one group's sweep appends its deletion records in order, and raises that group's deletion count by their number. No other count changes. History and forward counts are untouched |
| Deletion.OnlyForwardsDeleted | combined_bot.py:283-285 | every deletion record names a message of that group's listing that is a forward and whose deletion succeeded |
| Deletion.ForwardsFromListing | combined_bot.py:283-285 | every message counted as deleted is a forward of the listing whose deletion succeeded |
| Deletion.RaiseEndsGroup | combined_bot.py:281-295 | once an item raises, nothing after it in that group's listing is deleted or recorded |
| Deletion.StopIndexPrefix | combined_bot.py:281-295 | the first raising item is found by the same position, whatever follows it |
| Deletion.RepeatCount | combined_bot.py:285 | n deletions in a group make n `increment_deletion` calls, all for that group |
| Deletion.SweepRecordsAppend | combined_bot.py:280-295 | sweeping two consecutive lists of groups gives the records of the first list followed by those of the second |
| Deletion.DeletedCountAppend | combined_bot.py:280-295 | the deletions counted for an id over two consecutive lists of groups add up |
| Deletion.SweepRecordsSnoc | combined_bot.py:280-295 | sweeping one more group appends exactly that group's records |
| Deletion.DeletedCountSnoc | combined_bot.py:280-295 | sweeping one more group adds exactly its deletions to the count of its id, and nothing to any other id |
| Deletion.SweepGroupsCountStep | combined_bot.py:280-295 | sweeping group i carries the deletion and forward counters of the first i groups over to the first i + 1 |
| Deletion.SweepGroupsLedgerStep | combined_bot.py:280-295 | the records of group i go after those of the first i groups, and the forward history is untouched |
| Deletion.SweepGroups | combined_bot.py:280-295 | over the selected groups, each id's deletion count rises by the deletions made in the selected groups with that id. Forward counts and history are unchanged. The deletion list grows by each group's own records, group after group, even after an earlier group raised |
| Deletion.DeleteForwardedMessages | combined_bot.py:275-295 | the groups whose titles were selected are swept in dialog-list order, with the bookkeeping effect stated for the sweep over the selected groups |
| Deletion.PerGroupFailureExample | combined_bot.py:280-295 | worked case: a failed delete in the first group stops that group after one record, and the second group's two forwards are still deleted and recorded |
| LogBuffer.NegativeSliceStart | combined_bot.py:327 | the start index of Python's `a[-m:]` always lies within the list |
| LogBuffer.Last | combined_bot.py:327 | the newest m lines form a suffix of length min(len, m) |
| LogBuffer.LogMessage | combined_bot.py:322-328 | the new buffer is a suffix of the old lines followed by the new line. For a positive `max_lines` it is nonempty, ends with the new line, holds min(old + 1, max_lines) lines, and trims nothing while there is room |
| LogBuffer.LogMessageDefault | combined_bot.py:322-328 | with the default `max_lines=100`, the widget holds between 1 and 100 lines. Its last line is `f"{timestamp}: {message}"`, and the lines are a suffix of the old lines followed by that one |
| LogBuffer.LogMessageZeroKeepsAll | combined_bot.py:326-327 | with `max_lines == 0`, the slice `[-0:]` is the whole list, so nothing is trimmed |
| LogBuffer.LogMessageIsLast | combined_bot.py:322-328 | for a positive bound, one call keeps exactly the newest `max_lines` of the old lines plus the new line |
| LogBuffer.LastOfAppend | combined_bot.py:326-327 | trimming, then appending, then trimming again equals appending and then trimming once |
| LogBuffer.LogAllKeepsNewest | combined_bot.py:322-328 | after any number of calls, the buffer holds exactly the newest `max_lines` of all lines ever logged |
| Login.LeadingSpace | combined_bot.py:145 | counts the leading whitespace of the code, i.e. the whitespace before its first non-space character |
| Login.TrimmedEnd | combined_bot.py:145 | gives the end of the code without its trailing whitespace |
| Login.Strip | combined_bot.py:145 | `code.strip()` is the slice of the code between blank ends, and neither end of a nonempty result is whitespace |
| Login.StripEmptyIffBlank | combined_bot.py:145-147 | `code.strip()` is empty if and only if every character of the code is whitespace |
| Login.SendVerificationCode | combined_bot.py:122-142 | a client exists only for a phone number that is nonempty and starts with '+'. A refused number logs the invalid-phone message. For an accepted number the client exists unless the `TelegramClient` constructor raised. Either raise, from the constructor or from a later call, logs the error prefix followed by the reason. The authorized and code-sent replies log their own lines |
| Login.InvalidPhoneIgnoresService | combined_bot.py:123-125 | a refused phone number never reaches the service: its outcome is the same whatever the service would answer |
| Login.Login | combined_bot.py:144-153 | sign-in is attempted if and only if the code is not blank. A blank code logs the invalid-code message and does not refresh the groups. The groups are refreshed if and only if sign-in was attempted and succeeded |

Helpers without a row of their own:

- `RouteKey.HandlerKey` builds the key of combined_bot.py:225. What it promises is stated by `RouteKey.HandlerKeyRoundTrip` and `RouteKey.HandlerKeyInjective`.
- `Forwarding.TryForward` is the loop body of combined_bot.py:233-245. `Forwarding.TryForwardStep` states what it does.
- `History.GetHistory` and `History.GetDeletedMessages` are the getters of combined_bot.py:35-39. The `InOrder` lemmas state what they return.
- `Login.IsSpace` is the character set of Python's `str.isspace`. `Login.Strip` and `Login.StripEmptyIffBlank` use it for `code.strip()` at combined_bot.py:145.
- `Deletion.PerGroupDeletions` lists each selected group's reference deletions.
- `Users.NonEmptyHasMember` lets `Users.GetUsers` pick a member.

## Left out

- PySimpleGUI windows, popups and the event loop. The chosen source title, target titles and selected group titles are inputs. The lines involved are combined_bot.py:84-120, 172-215, 255-278 and 300-320.
- Telethon I/O: `connect`, `is_user_authorized`, `send_code_request`, `sign_in`, `iter_dialogs`, `forward_messages`, `iter_messages` and `message.delete`. Each is an abstract outcome given with the input.
- `refresh_groups` and its dialog filter are left out: the dialog list is the input `groups`.
- Telethon's event dispatch is left out: which messages reach a registered handler, and when, is not modelled. `HandleNewMessage` covers one delivery. Each target's `await` in `handler` lets other invocations interleave their own `add_entry` and `increment` calls: later messages, or other routes from the same source. The contiguous `old + records` of `HandleNewMessage` therefore describes one handler run that nothing interleaves. The same holds for the sweep. Each `await message.delete()` at combined_bot.py:284 lets a handler append history and raise forward counts mid-sweep. The clauses of `Deletion.SweepGroups` and `Deletion.DeleteForwardedMessages` that keep the history and the forward counters unchanged therefore describe a sweep that nothing interleaves.
- asyncio scheduling, `create_task` and the fixed `asyncio.sleep(2)` are left out, because they are concurrency and wall-clock timing.
- `datetime.now().strftime(...)` timestamps are opaque strings supplied with each outcome.
- `logging.info` calls and the log lines of the forwarding and sweep loops are left out, because they are side effects only. The login guards do return their log line.
- The unused `rate_limits` dict and `FloodWaitError` are left out. The `config` import, the session string and the `__main__` bootstrap are environment.
- `view_forwarding_history` and `view_deletion_history` are left out, because they format the getters' lists for a popup.
- `forward_messages_to_groups`'s `except Exception` around the registration (combined_bot.py:249-250) is covered only for a missing source, which is where `next(...)` raises. Other exceptions there come from the client and are not modelled.
- LogBuffer.LogMessage: the widget's text is modelled as its list of lines. The `splitlines` / `"\n".join` round trip of the text is not modelled, so a message that itself holds a newline counts as one line here.
- Users.GetUsers: the order of `list(set)` is an implementation detail of CPython. The contract allows any order and fixes only the elements and the absence of duplicates.
- Common.Group: a group is its id and title. The topic half of each `groups_with_topics` pair is never read by the modelled code.
