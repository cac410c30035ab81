/** Grouping the listed filters by action: each filter loses its action and
    is appended to the list kept for that action. Actions are compared as
    dictionaries (same keys, same values), and groups keep first-seen order. */
module Grouping {
  import opened Filters

  datatype Group = Group(action: Action, members: seq<Entry>)

  /** The position of the group whose key equals `a`, if there is one. */
  function Find(groups: seq<Group>, a: Action): (r: Option<nat>)
    ensures r.Some? ==> r.value < |groups| && groups[r.value].action == a
    ensures r.None? ==> forall g :: 0 <= g < |groups| ==> groups[g].action != a
  {
    if groups == [] then None
    else if groups[0].action == a then Some(0)
    else match Find(groups[1..], a)
      case None => None
      case Some(k) => Some(k + 1)
  }

  /** One step of the grouping loop: append the filter, without its action,
      to its action's group, opening a new group at the end if there is none. */
  function Add(groups: seq<Group>, f: Filter): (r: seq<Group>)
    ensures |groups| <= |r| <= |groups| + 1
    ensures forall g :: 0 <= g < |groups| ==> r[g].action == groups[g].action
    ensures |r| == |groups| + 1 ==> r[|groups|] == Group(f.action, [Strip(f)])
    ensures TotalSize(r) == TotalSize(groups) + 1
  {
    match Find(groups, f.action)
    case None =>
      var g := Group(f.action, [Strip(f)]);
      TotalSizeAppend(groups, g);
      groups + [g]
    case Some(k) =>
      var g := Group(groups[k].action, groups[k].members + [Strip(f)]);
      TotalSizeUpdate(groups, k, g);
      groups[k := g]
  }

  /** The groups after the grouping loop has seen every filter of `fs`: no
      filter is lost or counted twice. */
  function Grouped(fs: seq<Filter>): (gs: seq<Group>)
    ensures TotalSize(gs) == |fs|
  {
    if fs == [] then [] else Add(Grouped(fs[..|fs| - 1]), fs[|fs| - 1])
  }

  /** The grouping loop of main. */
  method GroupByAction(filters: seq<Filter>) returns (groups: seq<Group>)
    ensures groups == Grouped(filters)
  {
    groups := [];
    for i := 0 to |filters|
      invariant groups == Grouped(filters[..i])
    {
      var filter := filters[i];
      var entry := Strip(filter);
      match Find(groups, filter.action) {
        case None =>
          groups := groups + [Group(filter.action, [entry])];
        case Some(k) =>
          groups := groups[k := Group(groups[k].action, groups[k].members + [entry])];
      }
      assert filters[..i + 1][..i] == filters[..i];
    }
    assert filters[..|filters|] == filters;
  }

  // A reference description of the grouping, independent of the loop.

  /** The distinct actions of `fs` in the order they first occur. */
  function FirstSeen(fs: seq<Filter>): seq<Action> {
    if fs == [] then []
    else
      var init := FirstSeen(fs[..|fs| - 1]);
      var a := fs[|fs| - 1].action;
      if a in init then init else init + [a]
  }

  /** The filters of `fs` with action `a`, in order, without their action. */
  function MembersWith(fs: seq<Filter>, a: Action): seq<Entry> {
    if fs == [] then []
    else
      var f := fs[|fs| - 1];
      MembersWith(fs[..|fs| - 1], a) + if f.action == a then [Strip(f)] else []
  }

  function TotalSize(groups: seq<Group>): nat {
    if groups == [] then 0 else TotalSize(groups[..|groups| - 1]) + |groups[|groups| - 1].members|
  }

  lemma {:induction false} FirstSeenActions(fs: seq<Filter>)
    ensures forall i :: 0 <= i < |fs| ==> fs[i].action in FirstSeen(fs)
    ensures forall a :: a in FirstSeen(fs) ==> exists i :: 0 <= i < |fs| && fs[i].action == a
    ensures forall i, j :: 0 <= i < j < |FirstSeen(fs)| ==> FirstSeen(fs)[i] != FirstSeen(fs)[j]
  {
    if fs != [] {
      var init := fs[..|fs| - 1];
      FirstSeenActions(init);
      forall i | 0 <= i < |init|
        ensures fs[i].action in FirstSeen(fs)
      {
        assert fs[i] == init[i];
      }
      forall a | a in FirstSeen(fs)
        ensures exists i :: 0 <= i < |fs| && fs[i].action == a
      {
        if a in FirstSeen(init) {
          var i :| 0 <= i < |init| && init[i].action == a;
          assert fs[i] == init[i];
        } else {
          assert fs[|fs| - 1].action == a;
        }
      }
    }
  }

  lemma {:induction false} NoMembersWithout(fs: seq<Filter>, a: Action)
    requires forall i :: 0 <= i < |fs| ==> fs[i].action != a
    ensures MembersWith(fs, a) == []
  {
    if fs != [] {
      NoMembersWithout(fs[..|fs| - 1], a);
    }
  }

  lemma {:induction false} TotalSizeAppend(groups: seq<Group>, g: Group)
    ensures TotalSize(groups + [g]) == TotalSize(groups) + |g.members|
  {
    assert (groups + [g])[..|groups|] == groups;
  }

  lemma {:induction false} TotalSizeUpdate(groups: seq<Group>, k: nat, g: Group)
    requires k < |groups|
    ensures TotalSize(groups[k := g]) + |groups[k].members| == TotalSize(groups) + |g.members|
  {
    var n := |groups| - 1;
    if k < n {
      TotalSizeUpdate(groups[..n], k, g);
      assert groups[k := g][..n] == groups[..n][k := g];
    } else {
      assert groups[k := g][..n] == groups[..n];
    }
  }

  /** The grouping agrees with the reference description: there is one
      group per distinct action, in first-seen order, and the members of the
      group for action `a` are exactly the filters with action `a`, in order. */
  lemma {:induction false} GroupedByFirstSeen(fs: seq<Filter>)
    ensures |Grouped(fs)| == |FirstSeen(fs)|
    ensures forall g :: 0 <= g < |Grouped(fs)| ==>
      Grouped(fs)[g] == Group(FirstSeen(fs)[g], MembersWith(fs, FirstSeen(fs)[g]))
  {
    if fs != [] {
      var init := fs[..|fs| - 1];
      var f := fs[|fs| - 1];
      GroupedByFirstSeen(init);
      FirstSeenActions(init);
      var gs, seen := Grouped(init), FirstSeen(init);
      assert forall g :: 0 <= g < |gs| ==> gs[g].action == seen[g];
      match Find(gs, f.action)
      case None =>
        assert f.action !in seen;
        NoMembersWithout(init, f.action);
        assert Grouped(fs) == gs + [Group(f.action, [Strip(f)])];
        assert FirstSeen(fs) == seen + [f.action];
        forall g | 0 <= g < |gs|
          ensures Grouped(fs)[g] == Group(FirstSeen(fs)[g], MembersWith(fs, FirstSeen(fs)[g]))
        {
          assert seen[g] != f.action;
          assert MembersWith(fs, seen[g]) == MembersWith(init, seen[g]) + [];
        }
        assert MembersWith(fs, f.action) == [] + [Strip(f)];
      case Some(k) =>
        assert seen[k] == f.action;
        assert FirstSeen(fs) == seen;
        var grown := Group(gs[k].action, gs[k].members + [Strip(f)]);
        assert Grouped(fs) == gs[k := grown];
        forall g | 0 <= g < |gs|
          ensures Grouped(fs)[g] == Group(FirstSeen(fs)[g], MembersWith(fs, FirstSeen(fs)[g]))
        {
          if g == k {
            assert MembersWith(fs, f.action) == MembersWith(init, f.action) + [Strip(f)];
          } else {
            assert seen[g] != f.action;
            assert MembersWith(fs, seen[g]) == MembersWith(init, seen[g]) + [];
          }
        }
    }
  }

  /** Grouping is a partition of the listed filters: group keys are pairwise
      different, every filter has the group keyed by its action, each group
      holds exactly the filters with its action, in order, and the group
      sizes add up to the number of filters. */
  lemma {:induction false} GroupingIsPartition(fs: seq<Filter>)
    ensures var gs := Grouped(fs);
      && (forall g, h :: 0 <= g < h < |gs| ==> gs[g].action != gs[h].action)
      && (forall i :: 0 <= i < |fs| ==> exists g :: 0 <= g < |gs| && gs[g].action == fs[i].action)
      && (forall g :: 0 <= g < |gs| ==> gs[g].members == MembersWith(fs, gs[g].action))
      && TotalSize(gs) == |fs|
  {
    GroupedByFirstSeen(fs);
    FirstSeenActions(fs);
    var gs := Grouped(fs);
    forall i | 0 <= i < |fs|
      ensures exists g :: 0 <= g < |gs| && gs[g].action == fs[i].action
    {
      var g :| 0 <= g < |FirstSeen(fs)| && FirstSeen(fs)[g] == fs[i].action;
      assert gs[g].action == fs[i].action;
    }
  }
}
