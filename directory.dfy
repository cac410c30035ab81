/** The Gmail filter store as the squasher sees it: a list of filters that can
    be listed, added to and deleted from, where every call can fail. Each write
    call is recorded, with how it ended, in a ghost log so that the order and
    the outcome of the calls can be stated. */
module Directory {
  import opened Filters

  /** A write call as issued. */
  datatype Request = CreateRequest(rule: Rule) | DeleteRequest(id: string)

  /** A write call as it ended; a created filter carries the id it was given. */
  datatype Call =
    | Created(rule: Rule, id: string)
    | CreateFailed(rule: Rule)
    | Deleted(id: string)
    | DeleteFailed(id: string)

  function RequestOf(c: Call): Request {
    match c
    case Created(rule, _) => CreateRequest(rule)
    case CreateFailed(rule) => CreateRequest(rule)
    case Deleted(id) => DeleteRequest(id)
    case DeleteFailed(id) => DeleteRequest(id)
  }

  predicate Succeeded(c: Call) {
    c.Created? || c.Deleted?
  }

  predicate AllSucceeded(t: seq<Call>) {
    forall i :: 0 <= i < |t| ==> Succeeded(t[i])
  }

  /** Every call but possibly the last one succeeded: nothing is issued after a failure. */
  predicate FailsOnlyAtEnd(t: seq<Call>) {
    forall i :: 0 <= i < |t| - 1 ==> Succeeded(t[i])
  }

  /** The filters left after deleting the one with the given id. */
  function Remove(fs: seq<Filter>, id: string): seq<Filter> {
    if fs == [] then []
    else
      var last := fs[|fs| - 1];
      Remove(fs[..|fs| - 1], id) + if last.id == id then [] else [last]
  }

  /** What one call did to the directory's filters. */
  function Effect(fs: seq<Filter>, c: Call): seq<Filter> {
    match c
    case Created(rule, id) => fs + [Filter(id, rule.criteria, rule.action)]
    case Deleted(id) => Remove(fs, id)
    case CreateFailed(_) => fs
    case DeleteFailed(_) => fs
  }

  /** The filters after the calls of `t`, in order, starting from `fs`. */
  function Replay(fs: seq<Filter>, t: seq<Call>): seq<Filter> {
    if t == [] then fs else Effect(Replay(fs, t[..|t| - 1]), t[|t| - 1])
  }

  lemma {:induction false} ReplayStep(fs: seq<Filter>, t: seq<Call>, c: Call)
    ensures Replay(fs, t + [c]) == Effect(Replay(fs, t), c)
  {
    assert (t + [c])[..|t|] == t;
  }

  /** Appending calls that fail only at their end to calls that all
      succeeded gives calls that fail only at their end, ending in the same call. */
  lemma {:induction false} FailsOnlyAtEndAppend(t: seq<Call>, u: seq<Call>)
    requires AllSucceeded(t) && FailsOnlyAtEnd(u)
    ensures FailsOnlyAtEnd(t + u)
    ensures AllSucceeded(u) ==> AllSucceeded(t + u)
    ensures u != [] ==> (t + u)[|t + u| - 1] == u[|u| - 1]
  {
  }

  /** The calls of `t` are the first `|t|` requests of `planned`, issued in
      order. It is stated call by call from the last one back, so that a
      caller holding it unfolds it one call at a time; InOrderMeans gives it
      as a statement about every position. */
  ghost predicate InOrder(t: seq<Call>, planned: seq<Request>) {
    && |t| <= |planned|
    && (t != [] ==> InOrder(t[..|t| - 1], planned) && RequestOf(t[|t| - 1]) == planned[|t| - 1])
  }

  lemma {:induction false} InOrderMeans(t: seq<Call>, planned: seq<Request>)
    ensures InOrder(t, planned) <==>
      |t| <= |planned| && forall k :: 0 <= k < |t| ==> RequestOf(t[k]) == planned[k]
  {
    if t != [] {
      var init := t[..|t| - 1];
      InOrderMeans(init, planned);
      assert forall k :: 0 <= k < |init| ==> init[k] == t[k];
    }
  }

  /** `t` is what issuing the requests `planned` in order left behind: a
      prefix of them in which only the last call can fail; all of them, every
      one succeeding, when the caller reports success (`ok`) outside debug
      mode; a failed call at the end when it reports failure; and no call at
      all in debug mode, which always reports success. */
  ghost predicate Issued(t: seq<Call>, planned: seq<Request>, ok: bool, debug: bool) {
    && InOrder(t, planned)
    && FailsOnlyAtEnd(t)
    && (debug ==> ok && t == [])
    && (ok && !debug ==> |t| == |planned| && AllSucceeded(t))
    && (!ok ==> t != [] && !Succeeded(t[|t| - 1]))
  }

  /** One more call, for the next planned request, after calls that all
      succeeded: the calls stay in order, and a failed call ends them. */
  lemma {:induction false} IssuedStep(t: seq<Call>, planned: seq<Request>, c: Call)
    requires |t| < |planned| && InOrder(t, planned) && AllSucceeded(t)
    requires RequestOf(c) == planned[|t|]
    ensures InOrder(t + [c], planned) && FailsOnlyAtEnd(t + [c])
    ensures Succeeded(c) ==> AllSucceeded(t + [c])
    ensures !Succeeded(c) ==> Issued(t + [c], planned, false, false)
  {
    assert (t + [c])[..|t|] == t;
  }

  /** Issuing `a` in full and then `b` is issuing `a + b`. */
  lemma {:induction false} IssuedAppend(t: seq<Call>, a: seq<Request>, u: seq<Call>, b: seq<Request>, ok: bool, debug: bool)
    requires Issued(t, a, true, debug) && Issued(u, b, ok, debug)
    ensures Issued(t + u, a + b, ok, debug)
  {
    if debug {
      assert t + u == [];
    } else {
      InOrderMeans(t, a);
      InOrderMeans(u, b);
      InOrderMeans(t + u, a + b);
      forall k | 0 <= k < |t + u|
        ensures RequestOf((t + u)[k]) == (a + b)[k]
      {
        if k < |t| {
          assert RequestOf(t[k]) == a[k];
        } else {
          assert RequestOf(u[k - |t|]) == b[k - |t|];
        }
      }
      FailsOnlyAtEndAppend(t, u);
    }
  }

  /** Calls that stopped at a failure while issuing `a` also stopped at a
      failure while issuing `a` followed by anything. */
  lemma {:induction false} IssuedWithin(t: seq<Call>, a: seq<Request>, rest: seq<Request>, debug: bool)
    requires Issued(t, a, false, debug)
    ensures Issued(t, a + rest, false, debug)
  {
    InOrderMeans(t, a);
    InOrderMeans(t, a + rest);
    forall k | 0 <= k < |t|
      ensures RequestOf(t[k]) == (a + rest)[k]
    {
      assert RequestOf(t[k]) == a[k];
    }
  }

  lemma {:induction false} ReplayAppend(fs: seq<Filter>, t: seq<Call>, u: seq<Call>)
    ensures Replay(fs, t + u) == Replay(Replay(fs, t), u)
  {
    if u == [] {
      assert t + u == t;
    } else {
      var u' := u[..|u| - 1];
      ReplayAppend(fs, t, u');
      assert (t + u)[..|t + u| - 1] == t + u';
    }
  }

  lemma {:induction false} RemoveKeepsOthers(fs: seq<Filter>, id: string)
    ensures forall f :: f in Remove(fs, id) <==> f in fs && f.id != id
  {
    if fs != [] {
      var init := fs[..|fs| - 1];
      RemoveKeepsOthers(init, id);
      assert fs == init + [fs[|fs| - 1]];
    }
  }

  /** Removing from a concatenation removes from each part. */
  lemma {:induction false} RemoveAppend(a: seq<Filter>, b: seq<Filter>, id: string)
    ensures Remove(a + b, id) == Remove(a, id) + Remove(b, id)
  {
    if b == [] {
      assert a + b == a;
    } else {
      var b' := b[..|b| - 1];
      RemoveAppend(a, b', id);
      assert (a + b)[..|a + b| - 1] == a + b';
    }
  }

  /** The filters of `fs`, in order, whose id is not in `ids`. */
  function Without(fs: seq<Filter>, ids: seq<string>): seq<Filter> {
    if fs == [] then []
    else
      var last := fs[|fs| - 1];
      Without(fs[..|fs| - 1], ids) + if last.id in ids then [] else [last]
  }

  lemma {:induction false} RemoveWithout(fs: seq<Filter>, ids: seq<string>, id: string)
    ensures Remove(Without(fs, ids), id) == Without(fs, ids + [id])
  {
    if fs != [] {
      var init, last := fs[..|fs| - 1], fs[|fs| - 1];
      RemoveWithout(init, ids, id);
      var kept := if last.id in ids then [] else [last];
      RemoveAppend(Without(init, ids), kept, id);
      assert last.id in ids + [id] <==> last.id in ids || last.id == id;
      if kept != [] {
        assert kept[..0] == [];
      }
    }
  }

  lemma {:induction false} WithoutAppend(fs: seq<Filter>, f: Filter, ids: seq<string>)
    requires f.id !in ids
    ensures Without(fs + [f], ids) == Without(fs, ids) + [f]
  {
    assert (fs + [f])[..|fs|] == fs;
  }

  /** Deleting the ids one after another, each call succeeding, removes
      exactly the filters with those ids and keeps the rest in order. */
  lemma {:induction false} DeletionsReplay(fs: seq<Filter>, t: seq<Call>, ids: seq<string>)
    requires |t| == |ids|
    requires forall j :: 0 <= j < |t| ==> t[j] == Deleted(ids[j])
    ensures Replay(fs, t) == Without(fs, ids)
  {
    if t == [] {
      WithoutNothing(fs);
    } else {
      var n := |t| - 1;
      DeletionsReplay(fs, t[..n], ids[..n]);
      RemoveWithout(fs, ids[..n], ids[n]);
      assert ids[..n] + [ids[n]] == ids;
    }
  }

  lemma {:induction false} WithoutNothing(fs: seq<Filter>)
    ensures Without(fs, []) == fs
  {
    if fs != [] {
      var init := fs[..|fs| - 1];
      WithoutNothing(init);
      assert fs == init + [fs[|fs| - 1]];
    }
  }

  /** Every id of `fs`, one after another. */
  function AllIds(fs: seq<Filter>): (s: string)
    ensures forall i :: 0 <= i < |fs| ==> |fs[i].id| <= |s|
  {
    if fs == [] then "" else AllIds(fs[..|fs| - 1]) + fs[|fs| - 1].id
  }

  /** An id no filter in `fs` has: it is longer than all of theirs. */
  function FreshId(fs: seq<Filter>): (id: string)
    ensures !HasId(fs, id)
  {
    AllIds(fs) + "#"
  }

  class FilterDirectory {
    var filters: seq<Filter>
    ghost var log: seq<Call>

    constructor (initial: seq<Filter>)
      ensures filters == initial && log == []
    {
      filters := initial;
      log := [];
    }

    /** All current filters, unless the directory cannot be reached. */
    method List() returns (r: Result<seq<Filter>>)
      ensures r.Ok? ==> r.value == filters
      ensures r.Err? ==> r.error == Unavailable
    {
      var reachable: bool := *;
      if reachable {
        r := Ok(filters);
      } else {
        r := Err(Unavailable);
      }
    }

    /** Adds a filter for `rule` under a new id, or fails and changes nothing. */
    method Create(rule: Rule) returns (r: Result<string>)
      modifies this
      ensures r.Ok? ==> !HasId(old(filters), r.value) && log == old(log) + [Created(rule, r.value)]
      ensures r.Err? ==> r.error == Rejected && log == old(log) + [CreateFailed(rule)]
      ensures filters == Effect(old(filters), log[|log| - 1])
    {
      var accepted: bool := *;
      if accepted {
        var id := FreshId(filters);
        filters := filters + [Filter(id, rule.criteria, rule.action)];
        log := log + [Created(rule, id)];
        r := Ok(id);
      } else {
        log := log + [CreateFailed(rule)];
        r := Err(Rejected);
      }
    }

    /** Deletes the filter with id `id`; fails when there is none, and may fail
        anyway, changing nothing. */
    method Delete(id: string) returns (r: Outcome)
      modifies this
      ensures !HasId(old(filters), id) ==> r == Fail(NotFound)
      ensures r.Pass? ==> log == old(log) + [Deleted(id)]
      ensures r.Fail? ==> log == old(log) + [DeleteFailed(id)]
      ensures filters == Effect(old(filters), log[|log| - 1])
    {
      if !HasId(filters, id) {
        log := log + [DeleteFailed(id)];
        r := Fail(NotFound);
        return;
      }
      var accepted: bool := *;
      if accepted {
        filters := Remove(filters, id);
        log := log + [Deleted(id)];
        r := Pass;
      } else {
        log := log + [DeleteFailed(id)];
        r := Fail(Rejected);
      }
    }
  }
}
