/** One run of the squasher: list the filters, group them by action, squash
    every group of more than one filter in first-seen order, and add up how
    many filters were created and deleted. The run stops at the first write
    call that fails. */
module Squasher {
  import opened Filters
  import opened Directory
  import opened Grouping
  import opened Squash

  datatype RunResult =
    | ListFailed(error: DirectoryError)
    | NoFilters
    | Aborted(error: DirectoryError)
    | Finished(created: nat, deleted: nat)

  /** main only hands a group to squash_filter when it has more than one member. */
  predicate Squashable(g: Group) {
    |g.members| > 1
  }

  /** The plan main carries out for a group. */
  function GroupPlan(g: Group): (p: Plan)
    ensures p == Keep || p == PlanFor(g.action, g.members)
    ensures |g.members| <= 1 ==> p.Keep?
  {
    if Squashable(g) then PlanFor(g.action, g.members) else Keep
  }

  /** The plan of each group, in order. */
  function Plans(groups: seq<Group>): (plans: seq<Plan>)
    ensures |plans| == |groups|
  {
    if groups == [] then [] else Plans(groups[..|groups| - 1]) + [GroupPlan(groups[|groups| - 1])]
  }

  lemma {:induction false} PlansAt(groups: seq<Group>, i: nat)
    requires i < |groups|
    ensures Plans(groups)[i] == GroupPlan(groups[i])
  {
    if i < |groups| - 1 {
      PlansAt(groups[..|groups| - 1], i);
    }
  }

  /** The run totals after the first `n` plans: their counts added up. */
  function Totals(plans: seq<Plan>, n: nat): Tally
    requires n <= |plans|
  {
    if n == 0 then Tally(0, 0)
    else
      var before, counts := Totals(plans, n - 1), Counts(plans[n - 1]);
      Tally(before.created + counts.created, before.deleted + counts.deleted)
  }

  /** How many of the first `n` plans merge a group. */
  function MergeCount(plans: seq<Plan>, n: nat): nat
    requires n <= |plans|
  {
    if n == 0 then 0 else MergeCount(plans, n - 1) + if plans[n - 1].Merge? then 1 else 0
  }

  /** Totals of plans whose merges each take two or more filters: one
      filter is created per merge, and at least two are deleted. */
  lemma {:induction false} TotalsOfMerges(plans: seq<Plan>, n: nat)
    requires n <= |plans|
    requires forall k :: 0 <= k < |plans| ==> plans[k].Merge? ==> 2 <= |plans[k].originals|
    ensures Totals(plans, n).created == MergeCount(plans, n)
    ensures Totals(plans, n).deleted >= 2 * MergeCount(plans, n)
  {
    if n > 0 {
      TotalsOfMerges(plans, n - 1);
    }
  }

  /** The run's created total is the number of groups squashed, and its
      deleted total is at least twice that, since a merge takes two or more filters. */
  lemma {:induction false} TotalsCountMerges(groups: seq<Group>, n: nat)
    requires n <= |groups|
    ensures Totals(Plans(groups), n).created == MergeCount(Plans(groups), n)
    ensures Totals(Plans(groups), n).deleted >= 2 * MergeCount(Plans(groups), n)
  {
    var plans := Plans(groups);
    forall k | 0 <= k < |plans|
      ensures plans[k].Merge? ==> 2 <= |plans[k].originals|
    {
      PlansAt(groups, k);
    }
    TotalsOfMerges(plans, n);
  }

  /** The calls of the blocks, one block after another. */
  function Flatten(blocks: seq<seq<Call>>): seq<Call> {
    if blocks == [] then [] else Flatten(blocks[..|blocks| - 1]) + blocks[|blocks| - 1]
  }

  /** Each of the blocks is the plan of the same position issued in full,
      stated from the last block back (BlocksIssuedMeans states it block by block). */
  ghost predicate BlocksIssued(blocks: seq<seq<Call>>, plans: seq<Plan>, debug: bool)
    requires |blocks| <= |plans|
  {
    blocks != [] ==>
      && BlocksIssued(blocks[..|blocks| - 1], plans, debug)
      && Issued(blocks[|blocks| - 1], PlannedRequests(plans[|blocks| - 1]), true, debug)
  }

  /** One more block, for the next plan, after blocks issued in full: the
      calls run on, the directory and the log take them in turn, and the new
      block either completes the blocks issued in full or, when it ends in a
      failure, closes them. */
  lemma {:induction false} BlockStep(start: seq<Filter>, log: seq<Call>, t: seq<Call>, blocks: seq<seq<Call>>,
                                     calls: seq<Call>, plans: seq<Plan>, debug: bool, ok: bool)
    requires |blocks| < |plans| && BlocksIssued(blocks, plans, debug) && t == Flatten(blocks)
    requires debug ==> t == []
    requires Issued(calls, PlannedRequests(plans[|blocks|]), ok, debug)
    ensures log + t + calls == log + (t + calls)
    ensures Replay(Replay(start, t), calls) == Replay(start, t + calls)
    ensures t + calls == Flatten(blocks + [calls])
    ensures debug ==> t + calls == []
    ensures ok ==> BlocksIssued(blocks + [calls], plans, debug)
    ensures !ok ==> var b := blocks + [calls];
      && 0 < |b| <= |plans| && !debug
      && BlocksIssued(b[..|b| - 1], plans, debug)
      && Issued(b[|b| - 1], PlannedRequests(plans[|b| - 1]), false, debug)
  {
    ReplayAppend(start, t, calls);
    assert (blocks + [calls])[..|blocks|] == blocks;
  }

  lemma {:induction false} BlocksIssuedMeans(blocks: seq<seq<Call>>, plans: seq<Plan>, debug: bool)
    requires |blocks| <= |plans|
    ensures BlocksIssued(blocks, plans, debug) <==>
      forall k :: 0 <= k < |blocks| ==> Issued(blocks[k], PlannedRequests(plans[k]), true, debug)
  {
    if blocks != [] {
      var init := blocks[..|blocks| - 1];
      BlocksIssuedMeans(init, plans, debug);
      assert forall k :: 0 <= k < |init| ==> init[k] == blocks[k];
    }
  }

  /** Blocks of a run that stopped: every block but the last is its plan
      issued in full, and the last one ends in the failed call. */
  lemma {:induction false} StoppedBlocksMean(blocks: seq<seq<Call>>, plans: seq<Plan>, debug: bool)
    requires 0 < |blocks| <= |plans|
    requires BlocksIssued(blocks[..|blocks| - 1], plans, debug)
    requires Issued(blocks[|blocks| - 1], PlannedRequests(plans[|blocks| - 1]), false, debug)
    ensures forall k :: 0 <= k < |blocks| ==>
      Issued(blocks[k], PlannedRequests(plans[k]), k < |blocks| - 1, debug)
  {
    var init := blocks[..|blocks| - 1];
    BlocksIssuedMeans(init, plans, debug);
    assert forall k :: 0 <= k < |init| ==> init[k] == blocks[k];
  }

  /** `plans` holds the plan of each group, in order. */
  ghost predicate PlansOf(groups: seq<Group>, plans: seq<Plan>) {
    |plans| == |groups| && forall k :: 0 <= k < |groups| ==> plans[k] == GroupPlan(groups[k])
  }

  /** One turn of main's squashing loop, on group `i`: the group is handed to
      squash_filter when it has more than one member, and skipped otherwise.
      `t` is the calls made so far, one block per earlier group, each issued in
      full, and `start` and `log` are the directory before them. The turn adds
      the group's block: issued in full when it succeeds, ending in the failed
      call when it does not. */
  method SquashIfShared(dir: FilterDirectory, groups: seq<Group>, i: nat, debug: bool, ghost plans: seq<Plan>,
                        ghost start: seq<Filter>, ghost log: seq<Call>, ghost t: seq<Call>, ghost blocks: seq<seq<Call>>)
    returns (r: Result<Tally>, ghost calls: seq<Call>)
    requires i < |groups| && PlansOf(groups, plans)
    requires |blocks| == i && BlocksIssued(blocks, plans, debug) && t == Flatten(blocks)
    requires dir.log == log + t && dir.filters == Replay(start, t)
    requires debug ==> t == []
    modifies dir
    ensures dir.log == log + (t + calls)
    ensures dir.filters == Replay(start, t + calls)
    ensures t + calls == Flatten(blocks + [calls])
    ensures debug ==> t + calls == []
    ensures r.Ok? ==> r.value == Counts(plans[i]) && BlocksIssued(blocks + [calls], plans, debug)
    ensures r.Err? ==> var b := blocks + [calls];
      && 0 < |b| <= |plans| && !debug
      && BlocksIssued(b[..|b| - 1], plans, debug)
      && Issued(b[|b| - 1], PlannedRequests(plans[|b| - 1]), false, debug)
  {
    var g := groups[i];
    assert plans[i] == GroupPlan(g);
    if |g.members| > 1 {
      r, calls := SquashGroup(dir, g.action, g.members, debug);
    } else {
      r, calls := Ok(Tally(0, 0)), [];
    }
    BlockStep(start, log, t, blocks, calls, plans, debug, r.Ok?);
  }

  /** The squashing loop of main: squash each group of more than one filter,
      in order, add up the counts, and stop at the first failed write call.
      `plans` is the plan of each group; the write calls made, `t`, fall into
      one block per group reached, and each block is that group's plan issued
      in full, except for the last block of a run that stopped, which ends in
      the failed call. */
  method SquashAll(dir: FilterDirectory, groups: seq<Group>, debug: bool, ghost plans: seq<Plan>)
    returns (r: Result<Tally>, ghost t: seq<Call>, ghost blocks: seq<seq<Call>>)
    requires PlansOf(groups, plans)
    modifies dir
    ensures dir.log == old(dir.log) + t
    ensures dir.filters == Replay(old(dir.filters), t)
    ensures t == Flatten(blocks)
    ensures r.Ok? ==> |blocks| == |plans| && r.value == Totals(plans, |plans|)
    ensures r.Ok? ==> BlocksIssued(blocks, plans, debug)
    ensures r.Err? ==> 0 < |blocks| <= |plans| && !debug
    ensures r.Err? ==> BlocksIssued(blocks[..|blocks| - 1], plans, debug)
    ensures r.Err? ==> Issued(blocks[|blocks| - 1], PlannedRequests(plans[|blocks| - 1]), false, debug)
    ensures debug ==> t == []
  {
    ghost var start, log := dir.filters, dir.log;
    t, blocks := [], [];
    var createdFilters: nat, deletedFilters: nat := 0, 0;
    for i := 0 to |groups|
      invariant dir.log == log + t
      invariant dir.filters == Replay(start, t)
      invariant t == Flatten(blocks)
      invariant |blocks| == i
      invariant Tally(createdFilters, deletedFilters) == Totals(plans, i)
      invariant BlocksIssued(blocks, plans, debug)
      invariant debug ==> t == []
    {
      var outcome, calls := SquashIfShared(dir, groups, i, debug, plans, start, log, t, blocks);
      t, blocks := t + calls, blocks + [calls];
      if outcome.Err? {
        r := Err(outcome.error);
        return;
      }
      createdFilters, deletedFilters := createdFilters + outcome.value.created, deletedFilters + outcome.value.deleted;
    }
    r := Ok(Tally(createdFilters, deletedFilters));
  }

  /** main, from the listing on: list the filters (a failure ends the run),
      stop early when there are none, group them by action and squash the
      groups. With `debug` set no write call is issued and the directory is
      left as it was, but the totals are those a real run would report. `t` is
      the write calls the run made. */
  method Run(dir: FilterDirectory, debug: bool) returns (r: RunResult, ghost t: seq<Call>, ghost blocks: seq<seq<Call>>)
    modifies dir
    ensures dir.log == old(dir.log) + t
    ensures dir.filters == Replay(old(dir.filters), t)
    ensures r.NoFilters? ==> old(dir.filters) == []
    ensures old(dir.filters) == [] ==> r.NoFilters? || r.ListFailed?
    ensures r.ListFailed? || r.NoFilters? || debug ==> t == []
    ensures debug ==> !r.Aborted? && dir.filters == old(dir.filters)
    ensures t == Flatten(blocks)
    ensures var plans := Plans(Grouped(old(dir.filters)));
      r.Finished? ==> |blocks| == |plans| && Tally(r.created, r.deleted) == Totals(plans, |plans|)
    ensures r.Aborted? ==> 0 < |blocks| <= |Plans(Grouped(old(dir.filters)))|
    ensures var plans := Plans(Grouped(old(dir.filters)));
      r.Finished? || r.Aborted? ==> forall k :: 0 <= k < |blocks| ==>
        Issued(blocks[k], PlannedRequests(plans[k]), r.Finished? || k < |blocks| - 1, debug)
  {
    t, blocks := [], [];
    var listed := dir.List();
    if listed.Err? {
      r := ListFailed(listed.error);
      return;
    }
    var filters := listed.value;
    if filters == [] {
      r := NoFilters;
      return;
    }
    var groups := GroupByAction(filters);
    forall k | 0 <= k < |groups|
      ensures Plans(groups)[k] == GroupPlan(groups[k])
    {
      PlansAt(groups, k);
    }
    var totals;
    totals, t, blocks := SquashAll(dir, groups, debug, Plans(groups));
    if totals.Err? {
      StoppedBlocksMean(blocks, Plans(groups), debug);
      r := Aborted(totals.error);
    } else {
      BlocksIssuedMeans(blocks, Plans(groups), debug);
      r := Finished(totals.value.created, totals.value.deleted);
    }
  }
}
