/** Squashing one group of filters that share an action: the filters whose
    criteria are a single "from" clause are merged into one new filter whose
    sender is their senders joined with " OR ", and the originals are deleted. */
module Squash {
  import opened Filters
  import opened Directory

  /** The entries of `group`, in order, whose criteria are "from" alone. */
  function Selected(group: seq<Entry>): (sel: seq<Entry>)
    ensures |sel| <= |group|
    ensures forall i :: 0 <= i < |sel| ==> IsSenderOnly(sel[i].criteria)
  {
    if group == [] then []
    else
      var last := group[|group| - 1];
      Selected(group[..|group| - 1]) + if IsSenderOnly(last.criteria) then [last] else []
  }

  /** The "from" value of each entry. */
  function Senders(sel: seq<Entry>): (senders: seq<string>)
    requires forall i :: 0 <= i < |sel| ==> IsSenderOnly(sel[i].criteria)
    ensures |senders| == |sel|
  {
    if sel == [] then []
    else
      var last := sel[|sel| - 1];
      assert IsSenderOnly(last.criteria);
      assert Sender in last.criteria.Keys;
      Senders(sel[..|sel| - 1]) + [last.criteria[Sender]]
  }

  function EntryIds(sel: seq<Entry>): (ids: seq<string>)
    ensures |ids| == |sel|
  {
    if sel == [] then [] else EntryIds(sel[..|sel| - 1]) + [sel[|sel| - 1].id]
  }

  /** What squashing a group amounts to: leave it alone, or create `rule` and
      then delete the filters with ids `originals`, in that order. */
  datatype Plan = Keep | Merge(rule: Rule, originals: seq<string>)

  function PlanFor(action: Action, group: seq<Entry>): (p: Plan)
    ensures |group| <= 1 ==> p.Keep?
    ensures p.Merge? ==>
      p.rule.action == action && IsSenderOnly(p.rule.criteria) && 2 <= |p.originals| <= |group|
  {
    var sel := Selected(group);
    if |sel| > 1 then
      Merge(Rule(map[Sender := Join(Senders(sel), Separator)], action), EntryIds(sel))
    else
      Keep
  }

  /** The numbers of filters created and deleted that squash_filter reports. */
  datatype Tally = Tally(created: nat, deleted: nat)

  /** The tally reported for a plan. */
  function Counts(p: Plan): Tally {
    match p
    case Keep => Tally(0, 0)
    case Merge(_, originals) => Tally(1, |originals|)
  }

  /** One delete request per id, in the same order. */
  function DeleteRequests(ids: seq<string>): (r: seq<Request>)
    ensures |r| == |ids|
    ensures forall i :: 0 <= i < |ids| ==> r[i] == DeleteRequest(ids[i])
  {
    if ids == [] then [] else DeleteRequests(ids[..|ids| - 1]) + [DeleteRequest(ids[|ids| - 1])]
  }

  /** The write calls a plan needs, in the order they must be issued. */
  function PlannedRequests(p: Plan): seq<Request> {
    match p
    case Keep => []
    case Merge(rule, originals) => [CreateRequest(rule)] + DeleteRequests(originals)
  }

  /** Selection keeps order: it distributes over concatenation. */
  lemma {:induction false} SelectedAppend(a: seq<Entry>, b: seq<Entry>)
    ensures Selected(a + b) == Selected(a) + Selected(b)
  {
    if b != [] {
      var b' := b[..|b| - 1];
      SelectedAppend(a, b');
      assert (a + b)[..|a + b| - 1] == a + b';
      assert b[..|b| - 1] == b';
    } else {
      assert a + b == a;
    }
  }

  /** An entry is selected exactly when it is in the group and its criteria are "from" alone. */
  lemma {:induction false} SelectedMembers(group: seq<Entry>)
    ensures forall e :: e in Selected(group) <==> e in group && IsSenderOnly(e.criteria)
  {
    if group != [] {
      var init := group[..|group| - 1];
      SelectedMembers(init);
      assert group == init + [group[|group| - 1]];
    }
  }

  lemma {:induction false} SendersAt(sel: seq<Entry>, i: nat)
    requires forall k :: 0 <= k < |sel| ==> IsSenderOnly(sel[k].criteria)
    requires i < |sel|
    ensures Senders(sel)[i] == sel[i].criteria[Sender]
    ensures sel[i].criteria == map[Sender := Senders(sel)[i]]
  {
    if i < |sel| - 1 {
      SendersAt(sel[..|sel| - 1], i);
    }
  }

  lemma {:induction false} EntryIdsAt(sel: seq<Entry>, i: nat)
    requires i < |sel|
    ensures EntryIds(sel)[i] == sel[i].id
  {
    if i < |sel| - 1 {
      EntryIdsAt(sel[..|sel| - 1], i);
    }
  }

  /** A merge happens exactly when at least two entries of the group have a
      "from"-only criteria. The merged filter keeps the group's action, matches
      on "from" alone, and its sender is the selected senders in group order,
      each at its place in the " OR "-joined string; the i-th id to delete is
      the id of the i-th selected entry. */
  lemma {:induction false} MergedRule(action: Action, group: seq<Entry>, i: nat)
    requires i < |Selected(group)|
    ensures var p := PlanFor(action, group); var sel := Selected(group);
      && (p.Merge? <==> |sel| >= 2)
      && (p.Merge? ==>
        && p.rule.action == action
        && IsSenderOnly(p.rule.criteria)
        && |p.originals| == |sel|
        && p.originals[i] == sel[i].id
        && var from := p.rule.criteria[Sender];
           var o := Offset(Senders(sel), Separator, i);
           o + |Senders(sel)[i]| <= |from|
           && sel[i].criteria == map[Sender := from[o..o + |Senders(sel)[i]|]])
  {
    var sel := Selected(group);
    SendersAt(sel, i);
    EntryIdsAt(sel, i);
    JoinPart(Senders(sel), Separator, i);
  }

  /** With ids that tell the filters apart, a filter with any criterion other
      than "from" (or none at all) is never among those a merge deletes. */
  lemma {:induction false} OthersNeverDeleted(action: Action, group: seq<Entry>, e: Entry)
    requires forall i, j :: 0 <= i < j < |group| ==> group[i].id != group[j].id
    requires e in group && !IsSenderOnly(e.criteria)
    ensures PlanFor(action, group).Merge? ==> e.id !in PlanFor(action, group).originals
  {
    var sel := Selected(group);
    SelectedMembers(group);
    forall k | 0 <= k < |sel|
      ensures EntryIds(sel)[k] != e.id
    {
      EntryIdsAt(sel, k);
      assert sel[k] in group;
    }
  }

  /** In the write calls made for a plan, the create comes before every
      delete, and a failed create is the last call made. */
  lemma {:induction false} CreateComesFirst(p: Plan, t: seq<Call>)
    requires InOrder(t, PlannedRequests(p)) && FailsOnlyAtEnd(t)
    ensures forall j :: 0 <= j < |t| && RequestOf(t[j]).DeleteRequest? ==> 0 < j && t[0].Created?
    ensures t != [] && t[0].CreateFailed? ==> |t| == 1
  {
    if t != [] {
      var planned := PlannedRequests(p);
      InOrderMeans(t, planned);
      assert RequestOf(t[0]) == planned[0];
      assert p.Merge? && planned[0] == CreateRequest(p.rule);
      assert RequestOf(t[0]) == CreateRequest(p.rule);
      if |t| > 1 {
        assert Succeeded(t[0]);
      }
      forall j | 0 <= j < |t| && RequestOf(t[j]).DeleteRequest?
        ensures 0 < j && t[0].Created?
      {
        assert j != 0;
        assert Succeeded(t[0]);
      }
    }
  }

  /** A merge whose create and first `m` deletes succeeded: the filters with
      the first `m` original ids are gone, the others keep their order, and
      the merged filter has been added at the end. */
  lemma {:induction false} MergeReplay(fs: seq<Filter>, rule: Rule, originals: seq<string>, t: seq<Call>, m: nat)
    requires m < |t| && m <= |originals|
    requires t[0].Created? && t[0].rule == rule && !HasId(fs, t[0].id)
    requires forall k :: 0 <= k < m ==> HasId(fs, originals[k])
    requires forall j :: 0 < j <= m ==> t[j] == Deleted(originals[j - 1])
    ensures Replay(fs, t[..m + 1]) == Without(fs, originals[..m]) + [Filter(t[0].id, rule.criteria, rule.action)]
  {
    var merged := Filter(t[0].id, rule.criteria, rule.action);
    var ids := originals[..m];
    var deletes := t[1..m + 1];
    assert t[..m + 1] == [t[0]] + deletes;
    ReplayAppend(fs, [t[0]], deletes);
    assert Replay(fs, [t[0]]) == fs + [merged];
    forall j | 0 <= j < |deletes|
      ensures deletes[j] == Deleted(ids[j])
    {
      assert deletes[j] == t[j + 1];
    }
    DeletionsReplay(fs + [merged], deletes, ids);
    forall k | 0 <= k < |ids|
      ensures ids[k] != merged.id
    {
      assert HasId(fs, originals[k]);
    }
    WithoutAppend(fs, merged, ids);
  }

  /** The calls issued for a merge, up to `t`, are the create and then the
      deletes of the originals in order, the last of them possibly failed. */
  lemma {:induction false} MergeCalls(rule: Rule, originals: seq<string>, t: seq<Call>, ok: bool)
    requires Issued(t, PlannedRequests(Merge(rule, originals)), ok, false)
    requires 1 < |t| || (ok && t != [])
    ensures |t| <= |originals| + 1
    ensures t[0].Created? && t[0].rule == rule
    ensures forall j :: 0 < j < |t| - 1 ==> t[j] == Deleted(originals[j - 1])
    ensures ok ==> forall j :: 0 < j < |t| ==> t[j] == Deleted(originals[j - 1])
    ensures !ok ==> t[|t| - 1] == DeleteFailed(originals[|t| - 2])
  {
    var planned := PlannedRequests(Merge(rule, originals));
    InOrderMeans(t, planned);
    assert RequestOf(t[0]) == planned[0];
    assert Succeeded(t[0]);
    forall j | 0 < j < |t| && (ok || j < |t| - 1)
      ensures t[j] == Deleted(originals[j - 1])
    {
      assert RequestOf(t[j]) == planned[j] == DeleteRequest(originals[j - 1]);
      assert Succeeded(t[j]);
    }
    if !ok {
      assert RequestOf(t[|t| - 1]) == planned[|t| - 1];
    }
  }

  /** A merge carried out in full, every call succeeding, leaves the
      directory as it was except that the filters with the original ids are
      gone and the merged filter has been added at the end. */
  lemma {:induction false} CompletedMerge(fs: seq<Filter>, rule: Rule, originals: seq<string>, t: seq<Call>)
    requires Issued(t, PlannedRequests(Merge(rule, originals)), true, false)
    requires forall k :: 0 <= k < |originals| ==> HasId(fs, originals[k])
    requires t[0].Created? && !HasId(fs, t[0].id)
    ensures Replay(fs, t) == Without(fs, originals) + [Filter(t[0].id, rule.criteria, rule.action)]
  {
    MergeCalls(rule, originals, t, true);
    var m := |originals|;
    MergeReplay(fs, rule, originals, t, m);
    assert t[..m + 1] == t && originals[..m] == originals;
  }

  /** A merge stopped by a failed delete leaves the merged filter in place,
      the originals deleted before the failure gone, and every other filter,
      the rest of the originals included, where it was. A merge stopped by a
      failed create leaves the filters as they were. */
  lemma {:induction false} AbortedMerge(fs: seq<Filter>, rule: Rule, originals: seq<string>, t: seq<Call>)
    requires Issued(t, PlannedRequests(Merge(rule, originals)), false, false)
    requires forall k :: 0 <= k < |originals| ==> HasId(fs, originals[k])
    requires forall id :: t[0] == Created(rule, id) ==> !HasId(fs, id)
    ensures |t| <= |originals| + 1
    ensures |t| == 1 ==> t[0] == CreateFailed(rule) && Replay(fs, t) == fs
    ensures 1 < |t| ==>
      t[0].Created? && Replay(fs, t) == Without(fs, originals[..|t| - 2]) + [Filter(t[0].id, rule.criteria, rule.action)]
  {
    var planned := PlannedRequests(Merge(rule, originals));
    InOrderMeans(t, planned);
    if |t| == 1 {
      assert RequestOf(t[0]) == planned[0];
      assert t[..0] == [];
    } else {
      MergeCalls(rule, originals, t, false);
      var m := |t| - 2;
      MergeReplay(fs, rule, originals, t, m);
      assert t[..|t| - 1] == t[..m + 1];
    }
  }

  /** What a merge's calls leave behind, whether they all succeeded or
      stopped at a failure (CompletedMerge and AbortedMerge in one). */
  lemma {:induction false} MergeOutcome(fs: seq<Filter>, rule: Rule, originals: seq<string>, t: seq<Call>, ok: bool)
    requires Issued(t, PlannedRequests(Merge(rule, originals)), ok, false)
    requires forall k :: 0 <= k < |originals| ==> HasId(fs, originals[k])
    requires forall id :: t != [] && t[0] == Created(rule, id) ==> !HasId(fs, id)
    ensures 0 < |t| <= |originals| + 1
    ensures ok ==>
      t[0].Created? && Replay(fs, t) == Without(fs, originals) + [Filter(t[0].id, rule.criteria, rule.action)]
    ensures !ok && |t| == 1 ==> Replay(fs, t) == fs
    ensures !ok && 1 < |t| ==>
      t[0].Created? && Replay(fs, t) == Without(fs, originals[..|t| - 2]) + [Filter(t[0].id, rule.criteria, rule.action)]
  {
    if ok {
      MergeCalls(rule, originals, t, true);
      CompletedMerge(fs, rule, originals, t);
    } else {
      AbortedMerge(fs, rule, originals, t);
    }
  }

  /** The loop of squash_filter that gathers, in order, the sender and the id
      of every filter whose criteria are "from" alone. */
  method CollectSenders(group: seq<Entry>) returns (conditions: seq<string>, originalFilters: seq<string>)
    ensures conditions == Senders(Selected(group))
    ensures originalFilters == EntryIds(Selected(group))
  {
    conditions, originalFilters := [], [];
    for i := 0 to |group|
      invariant conditions == Senders(Selected(group[..i]))
      invariant originalFilters == EntryIds(Selected(group[..i]))
    {
      var entry := group[i];
      assert group[..i + 1][..i] == group[..i];
      ghost var sel := Selected(group[..i]);
      assert Selected(group[..i + 1]) == sel + if IsSenderOnly(entry.criteria) then [entry] else [];
      if IsSenderOnly(entry.criteria) {
        assert (sel + [entry])[..|sel|] == sel;
        conditions := conditions + [entry.criteria[Sender]];
        originalFilters := originalFilters + [entry.id];
      } else {
        assert sel + [] == sel;
      }
    }
    assert group[..|group|] == group;
  }

  /** The loop of squash_filter that deletes the originals in order, counting
      them, and stops at the first delete that fails; `t` is the calls it made. */
  method DeleteOriginals(dir: FilterDirectory, originalFilters: seq<string>, debug: bool)
    returns (r: Result<nat>, ghost t: seq<Call>)
    modifies dir
    ensures dir.log == old(dir.log) + t
    ensures dir.filters == Replay(old(dir.filters), t)
    ensures r.Ok? ==> r.value == |originalFilters|
    ensures Issued(t, DeleteRequests(originalFilters), r.Ok?, debug)
  {
    t := [];
    var deleted: nat := 0;
    for k := 0 to |originalFilters|
      invariant deleted == k
      invariant dir.log == old(dir.log) + t
      invariant dir.filters == Replay(old(dir.filters), t)
      invariant debug ==> t == []
      invariant !debug ==> |t| == k && AllSucceeded(t)
      invariant InOrder(t, DeleteRequests(originalFilters))
    {
      if !debug {
        var outcome := dir.Delete(originalFilters[k]);
        ghost var c := dir.log[|dir.log| - 1];
        ReplayStep(old(dir.filters), t, c);
        IssuedStep(t, DeleteRequests(originalFilters), c);
        t := t + [c];
        if outcome.Fail? {
          r := Err(outcome.error);
          return;
        }
      }
      deleted := deleted + 1;
    }
    r := Ok(deleted);
  }

  /** The create-then-delete part of squash_filter for a group that merges:
      create the merged filter and, only once that has succeeded, delete the
      originals. `t` is the write calls it made. */
  method ExecuteMerge(dir: FilterDirectory, rule: Rule, originalFilters: seq<string>, debug: bool)
    returns (r: Result<Tally>, ghost t: seq<Call>)
    modifies dir
    ensures dir.log == old(dir.log) + t
    ensures dir.filters == Replay(old(dir.filters), t)
    ensures r.Ok? ==> r.value == Tally(1, |originalFilters|)
    ensures Issued(t, PlannedRequests(Merge(rule, originalFilters)), r.Ok?, debug)
    ensures r.Ok? && !debug && (forall k :: 0 <= k < |originalFilters| ==> HasId(old(dir.filters), originalFilters[k])) ==>
      t != [] && t[0].Created? &&
      dir.filters == Without(old(dir.filters), originalFilters) + [Filter(t[0].id, rule.criteria, rule.action)]
    ensures r.Err? && (forall k :: 0 <= k < |originalFilters| ==> HasId(old(dir.filters), originalFilters[k])) ==>
      && 0 < |t| <= |originalFilters| + 1
      && (|t| == 1 ==> dir.filters == old(dir.filters))
      && (1 < |t| ==>
            t[0].Created? &&
            dir.filters == Without(old(dir.filters), originalFilters[..|t| - 2]) + [Filter(t[0].id, rule.criteria, rule.action)])
  {
    ghost var create := [CreateRequest(rule)];
    t := [];
    if !debug {
      var made := dir.Create(rule);
      t := [dir.log[|dir.log| - 1]];
      assert Replay(old(dir.filters), t) == Effect(old(dir.filters), t[0]);
      InOrderMeans(t, create);
      assert Issued(t, create, made.Ok?, false);
      if made.Err? {
        IssuedWithin(t, create, DeleteRequests(originalFilters), false);
        r := Err(made.error);
        return;
      }
    }
    var deleted, deletes := DeleteOriginals(dir, originalFilters, debug);
    IssuedAppend(t, create, deletes, DeleteRequests(originalFilters), deleted.Ok?, debug);
    ReplayAppend(old(dir.filters), t, deletes);
    t := t + deletes;
    if !debug && forall k :: 0 <= k < |originalFilters| ==> HasId(old(dir.filters), originalFilters[k]) {
      MergeOutcome(old(dir.filters), rule, originalFilters, t, deleted.Ok?);
    }
    if deleted.Err? {
      r := Err(deleted.error);
      return;
    }
    r := Ok(Tally(1, deleted.value));
  }

  /** squash_filter: select the "from"-only filters of the group; if there
      are at least two, create the merged filter and then delete the
      originals one by one, stopping at the first failure. With `debug` set,
      the calls are not issued but the counts are reported all the same.
      `t` is the write calls it made. */
  method SquashGroup(dir: FilterDirectory, action: Action, group: seq<Entry>, debug: bool)
    returns (r: Result<Tally>, ghost t: seq<Call>)
    modifies dir
    ensures dir.log == old(dir.log) + t
    ensures r.Ok? ==> r.value == Counts(PlanFor(action, group))
    ensures dir.filters == Replay(old(dir.filters), t)
    ensures debug || PlanFor(action, group).Keep? ==> r.Ok? && t == []
    ensures Issued(t, PlannedRequests(PlanFor(action, group)), r.Ok?, debug)
    ensures var p := PlanFor(action, group);
      r.Ok? && !debug && p.Merge? && (forall k :: 0 <= k < |p.originals| ==> HasId(old(dir.filters), p.originals[k])) ==>
        t != [] && t[0].Created? &&
        dir.filters == Without(old(dir.filters), p.originals) + [Filter(t[0].id, p.rule.criteria, p.rule.action)]
    ensures var p := PlanFor(action, group);
      r.Err? && (forall k :: 0 <= k < |p.originals| ==> HasId(old(dir.filters), p.originals[k])) ==>
        && p.Merge? && 0 < |t| <= |p.originals| + 1
        && (|t| == 1 ==> dir.filters == old(dir.filters))
        && (1 < |t| ==>
              t[0].Created? &&
              dir.filters == Without(old(dir.filters), p.originals[..|t| - 2]) + [Filter(t[0].id, p.rule.criteria, p.rule.action)])
  {
    var conditions, originalFilters := CollectSenders(group);
    if |conditions| > 1 {
      var rule := Rule(map[Sender := Join(conditions, Separator)], action);
      assert PlanFor(action, group) == Merge(rule, originalFilters);
      r, t := ExecuteMerge(dir, rule, originalFilters, debug);
    } else {
      r, t := Ok(Tally(0, 0)), [];
    }
  }
}
