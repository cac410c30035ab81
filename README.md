# Gmail filter squasher, modelled in Dafny

The squasher lists a Gmail account's filters and groups them by action. Two
actions belong together when they are equal as dictionaries. In every group of
more than one filter, it selects the filters whose criteria are a single
"from" clause. If at least two are selected, it creates one filter whose
"from" is their senders joined with " OR ", then deletes the originals one by
one. It stops the whole run at the first write call that fails. In debug mode
no write call is made, but the counts are reported as if they had been.

The model has five modules:

- `Filters` (filters.dfy) holds the data: filters, criteria, actions, the
  `{id, criteria}` entry left once the action is removed, and `Join`, which
  is `" OR ".join`.
- `Directory` (directory.dfy) is the Gmail filter store, the
  `FilterDirectory` class. Its `List`, `Create` and `Delete` may each fail.
  Every write call is recorded, with how it ended, in a ghost `log`.
  `Replay` says what a sequence of calls does to the filters. `Issued` says
  that calls were a prefix of a planned list of requests in which only the
  last call can fail.
- `Grouping` (grouping.dfy) is the grouping loop of `main`. It is checked
  against a reference description (first-seen actions, members per action).
- `Squash` (squash.dfy) is `squash_filter`. `PlanFor` is a pure plan: keep
  the group, or create one rule and then delete some ids. The methods
  `CollectSenders`, `ExecuteMerge` and `DeleteOriginals` are its loops and
  calls, each proved against that plan.
- `Squasher` (squasher.dfy) is the rest of `main`. `Run` lists the filters,
  returns early when there are none, groups them, and squashes each group of
  more than one filter. Its result is one of four outcomes: the listing
  failed, there were no filters, the run was aborted with an error, or it
  finished with the two totals. Each outcome stands for one of the program's
  exit paths.

The `DEBUG` constant becomes a `debug` parameter. Whether a call to the
service fails is left open: the directory methods choose it
nondeterministically. Only one failure is forced: deleting an id that does
not exist.

## Model

| member | source | states |
|---|---|---|
| Filters.IsSenderOnly | gmail_filter_squasher.py:128 | a filter's criteria count as "from" alone exactly when they have one key and that key is "from" |
| Filters.Join | gmail_filter_squasher.py:137 | the " OR "-joined string starts with the first sender |
| Filters.JoinPart | gmail_filter_squasher.py:137 | each sender appears, unchanged, at its own offset in the " OR "-joined string |
| Filters.JoinSeparator | gmail_filter_squasher.py:137 | between two consecutive senders in the joined string there is exactly one separator and nothing else |
| Filters.JoinLength | gmail_filter_squasher.py:137 | the joined string ends right after the last sender: nothing follows it |
| Grouping.Find | gmail_filter_squasher.py:48-50 | looking up an action finds a group whose key is equal to it as a dictionary, and finds nothing exactly when no group has an equal key |
| Grouping.Add | gmail_filter_squasher.py:235-237 | adding a filter keeps every existing group's action and position, opens a new group only at the end, holding that filter alone without its action, and adds exactly one filter to the groups |
| Grouping.Grouped | gmail_filter_squasher.py:231-237 | the groups after every filter has been seen hold as many filters as were listed |
| Grouping.GroupByAction | gmail_filter_squasher.py:231-237 | the grouping loop builds the groups that `Grouped` describes filter by filter |
| Grouping.FirstSeenActions | gmail_filter_squasher.py:231-240 | the first-seen list of actions holds every filter's action, only those, and each once |
| Grouping.GroupedByFirstSeen | gmail_filter_squasher.py:231-240 | there is one group per distinct action, in first-seen order; the group for an action holds exactly the filters with that action, without it, in listing order |
| Grouping.GroupingIsPartition | gmail_filter_squasher.py:231-237 | group keys are pairwise different; every filter has the group keyed by its action; each group is exactly its filters in order; the group sizes add up to the number of filters |
| Squash.Selected | gmail_filter_squasher.py:127-131 | every selected entry has criteria made of the single key "from", and there are no more selected entries than entries |
| Squash.Senders | gmail_filter_squasher.py:130 | one condition is collected per selected filter (SendersAt gives each one) |
| Squash.EntryIds | gmail_filter_squasher.py:131 | one id is collected per selected filter (EntryIdsAt gives each one) |
| Squash.SelectedMembers | gmail_filter_squasher.py:127-131 | an entry is selected if and only if it is in the group and its criteria are "from" alone |
| Squash.SelectedAppend | gmail_filter_squasher.py:127-131 | selection keeps group order: selecting from two parts in turn is selecting from the whole |
| Squash.SendersAt | gmail_filter_squasher.py:130 | the i-th collected condition is the "from" value of the i-th selected filter, and that filter's criteria are exactly that one clause |
| Squash.EntryIdsAt | gmail_filter_squasher.py:131 | the i-th collected id is the id of the i-th selected filter |
| Squash.PlanFor | gmail_filter_squasher.py:127-139 | a group of one filter is left alone; a merge keeps the group's action, matches on "from" alone, and deletes at least two and at most as many filters as the group has |
| Squash.MergedRule | gmail_filter_squasher.py:133-139 | a merge happens if and only if two or more filters are selected; the new filter keeps the group's action and matches on "from" alone; each selected filter's sender sits at its place in the new "from", and the i-th id to delete is the i-th selected filter's |
| Squash.OthersNeverDeleted | gmail_filter_squasher.py:127-131 | when ids are distinct, a filter with any criterion besides "from" is never among the ids a merge deletes |
| Squash.CreateComesFirst | gmail_filter_squasher.py:142-188 | in the calls made for a group, every delete comes after a create that succeeded, and a failed create is the last call made |
| Squash.CompletedMerge | gmail_filter_squasher.py:142-188 | a merge whose calls all succeeded removes exactly the filters with the original ids, keeps the others in order, and adds the merged filter under its new id |
| Squash.MergeReplay | gmail_filter_squasher.py:163-188 | once the create and the first m deletes have succeeded, the first m originals are gone, every other filter keeps its place, and the merged filter is at the end |
| Squash.MergeCalls | gmail_filter_squasher.py:142-188 | the calls made for a merge are the create and then the deletes of the originals in order; a call that failed after the create is the delete of the next original |
| Squash.AbortedMerge | gmail_filter_squasher.py:142-188 | a failed create leaves the filters as they were; a delete that failed leaves the merged filter in place, the originals deleted before it gone, and every other filter, the remaining originals included, where it was |
| Squash.MergeOutcome | gmail_filter_squasher.py:142-188 | what a merge leaves behind, whether it ran in full, its create failed, or a delete failed |
| Squash.CollectSenders | gmail_filter_squasher.py:123-131 | the collecting loop gathers the senders and the ids of the selected filters, in group order |
| Squash.DeleteOriginals | gmail_filter_squasher.py:165-188 | the deleting loop issues one delete per original id, in order, and stops at the first failure; on success it counts every id; in debug mode it makes no call but still counts them all; the directory changes as the calls made say |
| Squash.ExecuteMerge | gmail_filter_squasher.py:136-190 | it creates the merged filter before any delete, and makes no delete if the create fails; on success it reports (1, number of originals); when the originals exist, a full run leaves the directory without them and with the merged filter added, and a failed run leaves it as `AbortedMerge` says |
| Squash.SquashGroup | gmail_filter_squasher.py:106-197 | it reports the counts of the group's plan, (0, 0) or (1, n); the calls it makes follow the plan, with only the last able to fail; a kept group and debug mode make no call; a full merge leaves the directory as `CompletedMerge` says, and a failed one as `AbortedMerge` says |
| Directory.FilterDirectory.List | gmail_filter_squasher.py:210-225 | it returns the current filters, or a failure |
| Directory.FilterDirectory.Create | gmail_filter_squasher.py:144-161 | on success the new filter gets an id not in use and is added; on failure nothing changes; the call is logged either way |
| Directory.FilterDirectory.Delete | gmail_filter_squasher.py:169-187 | a missing id always fails; on success the filter with that id is removed; on failure nothing changes; the call is logged either way |
| Directory.FreshId | gmail_filter_squasher.py:145-161 | the id the directory gives a new filter is not the id of any existing filter |
| Directory.RemoveKeepsOthers | gmail_filter_squasher.py:172-174 | after a delete, a filter remains if and only if it was there before and has a different id |
| Directory.RemoveAppend | gmail_filter_squasher.py:172-174 | a delete acts on each part of the filter list separately |
| Directory.RemoveWithout | gmail_filter_squasher.py:165-174 | one more delete after several removes that id as well, keeping the order of the rest |
| Directory.DeletionsReplay | gmail_filter_squasher.py:165-174 | successful deletes of a list of ids, one after another, leave exactly the filters whose ids are not in the list, in order |
| Directory.ReplayAppend | gmail_filter_squasher.py:142-188 | the effect of two runs of calls, one after the other, is the effect of their concatenation |
| Directory.InOrderMeans | gmail_filter_squasher.py:142-188 | calls are issued in order if and only if the k-th call is for the k-th planned request |
| Directory.IssuedStep | gmail_filter_squasher.py:165-188 | one more call after calls that all succeeded keeps them in order; a failure ends them |
| Directory.IssuedAppend | gmail_filter_squasher.py:142-188 | issuing one list of requests in full and then another is issuing their concatenation, with the same outcome |
| Directory.IssuedWithin | gmail_filter_squasher.py:152-159 | calls that stopped at a failure while issuing some requests also stopped at a failure when the requests are followed by more |
| Squasher.BlocksIssuedMeans | gmail_filter_squasher.py:239-255 | the calls of the run fall into one block per group reached, and each block is that group's plan issued in full |
| Squasher.GroupPlan | gmail_filter_squasher.py:240-247 | a group is either left alone or given squash_filter's plan, and a group of at most one filter is always left alone |
| Squasher.TotalsOfMerges | gmail_filter_squasher.py:245-250 | when every merge takes two or more filters, the created total is the number of merges and the deleted total at least twice that |
| Squasher.TotalsCountMerges | gmail_filter_squasher.py:245-250 | the run's created total is the number of groups merged, and its deleted total is at least twice that |
| Squasher.BlockStep | gmail_filter_squasher.py:239-255 | one more group's calls, after groups whose plans were issued in full, carry the directory and the log on, and either complete that group's plan or close the run with a failed call |
| Squasher.StoppedBlocksMean | gmail_filter_squasher.py:239-255 | in a run that stopped, every group's calls but the last are its plan issued in full, and the last group's calls end in the failed call |
| Squasher.SquashIfShared | gmail_filter_squasher.py:240-250 | one turn of the loop: a group is handed on only when it has more than one filter; its counts are its plan's; its calls extend the run's calls and the directory's log; they are its plan issued in full when it succeeds and end in the failed call when it fails; debug mode makes no call |
| Squasher.SquashAll | gmail_filter_squasher.py:239-255 | the groups are squashed in order and the totals are the sum of their counts; the run stops at the first failed call, with every earlier group's plan carried out in full and the last group's ending in that failure |
| Squasher.Run | gmail_filter_squasher.py:200-263 | a failed listing or an empty one makes no write call, and "no filters" means the directory was empty; debug mode never aborts and never changes the directory; otherwise the calls follow the groups' plans in order, and the totals are those of every group when the run finishes |

## Left out

- Obtaining credentials (`get_credentials`: the OAuth flow, the token file, refreshing) is not modelled. It is file and network I/O. Building the API client is not modelled either.
- The Gmail REST calls become the `FilterDirectory` methods. Whether a call fails is nondeterministic, and `HttpError` and `GoogleAuthError` are not told apart. A failed listing is `ListFailed`; a failed create or delete aborts the run (`Aborted`).
- Logging (the logger setup, every `logger` call, the closing summary line) is not modelled. It has no effect on the filters. `Run` returns the totals instead.
- Process exit codes are not modelled. `exit(1)` becomes a `ListFailed` or `Aborted` result, and the early return on no filters becomes `NoFilters`.
- The value of `hashabledict.__hash__` is not modelled. Only key equality decides grouping, and `Find` compares actions as maps.
- `del filter["action"]` is not modelled as an in-place change of the listed records. The model builds a new `Entry` without the action, because the listed records are not used again.
- The new filter's id is chosen by Gmail. `FreshId` stands for any id not in use, and the model relies only on that.
- Whether the merged query `a OR b` matches the same mail as the separate filters is not modelled. That depends on Gmail's search semantics. The model proves the structure of the joined string only.
- Every listed filter is assumed to have an id, criteria and an action. In the program a missing key raises `KeyError` (lines 128 and 235). No handler catches it (the handlers at lines 152, 176 and 252 catch `HttpError` only), so the process crashes, possibly after earlier groups were already written.
- Criteria values are modelled as strings, although Gmail's `hasAttachment` and `size` criteria are not strings. Only the key set and the "from" value are read, so nothing in the model depends on the others' types.
- Other clients changing the filters during a run (concurrency) are not modelled.
- Squasher.Run: the directory's final contents after a whole finished run are not composed group by group. Per group, `SquashGroup` states them when its originals are present; across groups, `Run` states them as the replay of the calls made.
- Squash.OthersNeverDeleted: it requires distinct filter ids, which Gmail ensures. The directory model does not maintain this as an invariant.
