/** The data the squasher works on: a Gmail filter is an id, a set of matching
    criteria and an action; grouping strips the action off and keeps the
    remaining `{id, criteria}` record. */
module Filters {

  datatype Option<T> = None | Some(value: T)

  /** The ways a call to the filter directory can fail. */
  datatype DirectoryError = Unavailable | Rejected | NotFound

  datatype Result<T> = Ok(value: T) | Err(error: DirectoryError)

  datatype Outcome = Pass | Fail(error: DirectoryError)

  /** Criterion name ("from", "subject", "query", ...) to its value. */
  type Criteria = map<string, string>

  /** An action field holds either a single string ("forward") or a list of
      label ids ("addLabelIds", "removeLabelIds"). */
  datatype Value = Text(text: string) | Labels(ids: seq<string>)

  /** Action name to value. Two actions are equal exactly when they have the
      same keys with the same values, whatever order they were built in. */
  type Action = map<string, Value>

  datatype Filter = Filter(id: string, criteria: Criteria, action: Action)

  /** A filter with its action removed. */
  datatype Entry = Entry(id: string, criteria: Criteria)

  /** A filter that is yet to be created: it has no id until the directory assigns one. */
  datatype Rule = Rule(criteria: Criteria, action: Action)

  const Sender: string := "from"
  const Separator: string := " OR "

  function Strip(f: Filter): Entry {
    Entry(f.id, f.criteria)
  }

  /** The criteria consist of the single key "from" and nothing else. */
  predicate IsSenderOnly(c: Criteria): (b: bool)
    ensures b <==> |c| == 1 && Sender in c
  {
    OnlyKey(c.Keys, Sender);
    c.Keys == {Sender}
  }

  /** A set is `{x}` exactly when it has one element and `x` is in it. */
  lemma {:induction false} OnlyKey<K>(keys: set<K>, x: K)
    ensures keys == {x} <==> |keys| == 1 && x in keys
  {
    if |keys| == 1 && x in keys {
      var rest := keys - {x};
      assert keys == rest + {x};
      assert |rest| == 0;
    }
  }

  predicate HasId(fs: seq<Filter>, id: string) {
    exists i :: 0 <= i < |fs| && fs[i].id == id
  }

  /** `sep.join(parts)` */
  function Join(parts: seq<string>, sep: string): (s: string)
    ensures |parts| > 0 ==> parts[0] <= s
  {
    if |parts| == 0 then ""
    else if |parts| == 1 then parts[0]
    else parts[0] + sep + Join(parts[1..], sep)
  }

  /** Where `parts[i]` starts in `Join(parts, sep)`. */
  function Offset(parts: seq<string>, sep: string, i: nat): nat
    requires i <= |parts|
  {
    if i == 0 then 0 else |parts[0]| + |sep| + Offset(parts[1..], sep, i - 1)
  }

  lemma {:induction false} OffsetStep(parts: seq<string>, sep: string, i: nat)
    requires i < |parts|
    ensures Offset(parts, sep, i + 1) == Offset(parts, sep, i) + |parts[i]| + |sep|
  {
    if i > 0 {
      OffsetStep(parts[1..], sep, i - 1);
    }
  }

  lemma {:induction false} JoinLength(parts: seq<string>, sep: string)
    requires |parts| > 0
    ensures |Join(parts, sep)| == Offset(parts, sep, |parts| - 1) + |parts[|parts| - 1]|
  {
    if |parts| > 1 {
      var rest := parts[1..];
      JoinLength(rest, sep);
      assert Join(parts, sep) == parts[0] + sep + Join(rest, sep);
      assert Offset(parts, sep, |parts| - 1) == |parts[0]| + |sep| + Offset(rest, sep, |rest| - 1);
      assert rest[|rest| - 1] == parts[|parts| - 1];
    }
  }

  /** The i-th part sits in the joined string at its offset. */
  lemma {:induction false} JoinPart(parts: seq<string>, sep: string, i: nat)
    requires i < |parts|
    ensures Offset(parts, sep, i) + |parts[i]| <= |Join(parts, sep)|
    ensures Join(parts, sep)[Offset(parts, sep, i)..Offset(parts, sep, i) + |parts[i]|] == parts[i]
  {
    if |parts| > 1 {
      var s, rest := Join(parts, sep), parts[1..];
      var k := |parts[0]| + |sep|;
      assert s == parts[0] + sep + Join(rest, sep);
      if i == 0 {
        assert s[..|parts[0]|] == parts[0];
      } else {
        JoinPart(rest, sep, i - 1);
        var o := Offset(rest, sep, i - 1);
        assert Offset(parts, sep, i) == k + o;
        assert s[k..] == Join(rest, sep);
        assert s[k + o..k + o + |parts[i]|] == Join(rest, sep)[o..o + |rest[i - 1]|];
      }
    }
  }

  /** Between the i-th part and the next sits exactly one separator. */
  lemma {:induction false} JoinSeparator(parts: seq<string>, sep: string, i: nat)
    requires i + 1 < |parts|
    ensures Offset(parts, sep, i + 1) == Offset(parts, sep, i) + |parts[i]| + |sep| <= |Join(parts, sep)|
    ensures Join(parts, sep)[Offset(parts, sep, i) + |parts[i]|..Offset(parts, sep, i + 1)] == sep
  {
    OffsetStep(parts, sep, i);
    var s, rest := Join(parts, sep), parts[1..];
    var k := |parts[0]| + |sep|;
    assert s == parts[0] + sep + Join(rest, sep);
    if i == 0 {
      assert s[|parts[0]|..k] == sep;
    } else {
      JoinSeparator(rest, sep, i - 1);
      var o, o' := Offset(rest, sep, i - 1), Offset(rest, sep, i);
      assert Offset(parts, sep, i) == k + o;
      assert Offset(parts, sep, i + 1) == k + o';
      assert s[k..] == Join(rest, sep);
      assert s[k + o + |parts[i]|..k + o'] == Join(rest, sep)[o + |rest[i - 1]|..o'];
    }
  }
}
