/** The ordered topic list of the Dashboard page and the interest list of the Profile
    page: an input field, an add action guarded against empty and duplicate input, and a
    remove action that drops every equal entry. The list is rendered keyed by value, so
    it is meant to hold no duplicates. */
module Topics {
  import opened Text
  import opened Seqs

  /** The list and the text currently in the input field. */
  datatype ListState = ListState(items: seq<string>, input: string)

  /** The Dashboard's initial topics. */
  const InitialTopics: seq<string> := ["Technology", "Books"]

  /** The Profile page starts with no interests. */
  const InitialInterests: seq<string> := []

  /** Dashboard `addTopic`: a non-blank input that is not yet listed is appended as typed
      and the field is cleared; otherwise nothing changes. */
  function AddTopic(st: ListState): (r: ListState)
    ensures Strip(st.input) == "" || st.input in st.items ==> r == st
    ensures Strip(st.input) != "" && st.input !in st.items ==>
      && |r.items| == |st.items| + 1
      && r.items[..|st.items|] == st.items
      && r.items[|st.items|] == st.input
      && r.input == ""
  {
    if Strip(st.input) != "" && st.input !in st.items then ListState(st.items + [st.input], "") else st
  }

  /** `items.filter(t => t !== topic)`, shared by `removeTopic` and `removeInterest`. */
  function Remove(items: seq<string>, t: string): seq<string> {
    Filter(x => x != t, items)
  }

  /** Removing drops every entry equal to `t`, keeps every occurrence of the others in
      their original order, and changes nothing when `t` is absent. */
  lemma RemoveSpec(items: seq<string>, t: string)
    ensures t !in Remove(items, t)
    ensures IsSubsequence(Remove(items, t), items)
    ensures forall x :: x != t ==> multiset(Remove(items, t))[x] == multiset(items)[x]
    ensures t !in items ==> Remove(items, t) == items
  {
    FilterSpec(x => x != t, items);
    FilterMembers(x => x != t, items, t);
    if t !in items {
      FilterAll(x => x != t, items);
    }
  }

  /** A filter of a duplicate-free list is duplicate-free. */
  lemma {:induction false} FilterNoDuplicates(p: string -> bool, s: seq<string>)
    requires NoDuplicates(s)
    ensures NoDuplicates(Filter(p, s))
    decreases |s|
  {
    if s != [] {
      assert NoDuplicates(s[1..]);
      FilterNoDuplicates(p, s[1..]);
      var rest := Filter(p, s[1..]);
      if p(s[0]) {
        FilterMembers(p, s[1..], s[0]);
        var f := [s[0]] + rest;
        assert Filter(p, s) == f;
        forall i, j | 0 <= i < j < |f|
          ensures f[i] != f[j]
        {
          if i == 0 {
            assert f[j] == rest[j - 1] && f[j] in rest;
          } else {
            assert f[i] == rest[i - 1] && f[j] == rest[j - 1];
          }
        }
      } else {
        assert Filter(p, s) == rest;
      }
    }
  }

  /** Appending a value not yet present keeps a list duplicate-free. */
  lemma AppendNoDuplicates(s: seq<string>, x: string)
    requires NoDuplicates(s) && x !in s
    ensures NoDuplicates(s + [x])
  {
    var r := s + [x];
    forall i, j | 0 <= i < j < |r|
      ensures r[i] != r[j]
    {
      if j == |s| {
        assert r[i] == s[i];
      } else {
        assert r[i] == s[i] && r[j] == s[j];
      }
    }
  }

  /** What the user can do to a list: type into the field, press Add, or press the
      remove button of an entry. */
  datatype ListOp = Type(text: string) | Add | RemoveEntry(entry: string)

  /** Dashboard: one user action. */
  function TopicStep(st: ListState, op: ListOp): ListState {
    match op
    case Type(text) => st.(input := text)
    case Add => AddTopic(st)
    case RemoveEntry(t) => st.(items := Remove(st.items, t))
  }

  /** Dashboard: a sequence of user actions, applied in order. */
  function TopicRun(st: ListState, ops: seq<ListOp>): ListState
    decreases |ops|
  {
    if ops == [] then st else TopicRun(TopicStep(st, ops[0]), ops[1..])
  }

  /** Every Dashboard action keeps the topic list duplicate-free. */
  lemma TopicStepNoDuplicates(st: ListState, op: ListOp)
    requires NoDuplicates(st.items)
    ensures NoDuplicates(TopicStep(st, op).items)
  {
    match op
    case Type(_) =>
    case Add =>
      if Strip(st.input) != "" && st.input !in st.items {
        AppendNoDuplicates(st.items, st.input);
      }
    case RemoveEntry(t) =>
      FilterNoDuplicates(x => x != t, st.items);
  }

  /** Starting from the initial topics, no sequence of actions produces a duplicate. */
  lemma {:induction false} TopicRunNoDuplicates(st: ListState, ops: seq<ListOp>)
    requires NoDuplicates(st.items)
    ensures NoDuplicates(TopicRun(st, ops).items)
    decreases |ops|
  {
    if ops != [] {
      TopicStepNoDuplicates(st, ops[0]);
      TopicRunNoDuplicates(TopicStep(st, ops[0]), ops[1..]);
    }
  }

  /** The Dashboard's initial state satisfies the invariant, so every reachable state
      does. */
  lemma DashboardTopicsDistinct(ops: seq<ListOp>, input: string)
    ensures NoDuplicates(TopicRun(ListState(InitialTopics, input), ops).items)
  {
    TopicRunNoDuplicates(ListState(InitialTopics, input), ops);
  }

  /** Profile `addInterest` as written: the membership test uses the raw input, but the
      trimmed input is appended. */
  function AddInterestAsWritten(st: ListState): (r: ListState)
    ensures Strip(st.input) == "" || st.input in st.items ==> r == st
    ensures Strip(st.input) != "" && st.input !in st.items ==>
      r.items == st.items + [Strip(st.input)] && r.input == ""
  {
    if Strip(st.input) != "" && st.input !in st.items then ListState(st.items + [Strip(st.input)], "") else st
  }

  /** With `AI` listed, typing ` AI` and pressing Add lists `AI` twice. */
  lemma AddInterestAsWrittenDuplicates()
    ensures var st := ListState(["AI"], " AI");
      NoDuplicates(st.items) && !NoDuplicates(AddInterestAsWritten(st).items)
  {
    var st := ListState(["AI"], " AI");
    StripNoOp("AI");
    assert Strip(" AI") == "AI" by {
      assert SkipSpace(" AI", 0) == 1;
      assert SkipSpaceBack(" AI", 1, 3) == 3;
    }
    var r := AddInterestAsWritten(st).items;
    assert r == ["AI", "AI"];
    assert r[0] == r[1];
  }

  /** Profile `addInterest` with the membership test on the trimmed input. */
  function AddInterest(st: ListState): (r: ListState)
    ensures Strip(st.input) == "" || Strip(st.input) in st.items ==> r == st
    ensures Strip(st.input) != "" && Strip(st.input) !in st.items ==>
      r.items == st.items + [Strip(st.input)] && r.input == ""
  {
    if Strip(st.input) != "" && Strip(st.input) !in st.items then ListState(st.items + [Strip(st.input)], "") else st
  }

  /** Every entry is non-empty and has no surrounding whitespace. */
  predicate AllTrimmed(items: seq<string>) {
    forall k :: 0 <= k < |items| ==> items[k] != "" && Strip(items[k]) == items[k]
  }

  /** Stripping twice is stripping once. */
  lemma StripIdempotent(s: string)
    ensures Strip(Strip(s)) == Strip(s)
  {
    StripNoOp(Strip(s));
  }

  /** Profile: one user action. */
  function InterestStep(st: ListState, op: ListOp): ListState {
    match op
    case Type(text) => st.(input := text)
    case Add => AddInterest(st)
    case RemoveEntry(t) => st.(items := Remove(st.items, t))
  }

  /** Profile: a sequence of user actions, applied in order. */
  function InterestRun(st: ListState, ops: seq<ListOp>): ListState
    decreases |ops|
  {
    if ops == [] then st else InterestRun(InterestStep(st, ops[0]), ops[1..])
  }

  /** Every Profile action keeps the interests duplicate-free, non-empty and trimmed. */
  lemma InterestStepInvariant(st: ListState, op: ListOp)
    requires NoDuplicates(st.items) && AllTrimmed(st.items)
    ensures NoDuplicates(InterestStep(st, op).items) && AllTrimmed(InterestStep(st, op).items)
  {
    match op
    case Type(_) =>
    case Add =>
      var v := Strip(st.input);
      if v != "" && v !in st.items {
        AppendNoDuplicates(st.items, v);
        StripIdempotent(st.input);
        AppendTrimmed(st.items, v);
      }
    case RemoveEntry(t) =>
      FilterNoDuplicates(x => x != t, st.items);
      RemoveTrimmed(st.items, t);
  }

  /** Appending a trimmed non-empty value keeps every entry trimmed. */
  lemma AppendTrimmed(items: seq<string>, v: string)
    requires AllTrimmed(items) && v != "" && Strip(v) == v
    ensures AllTrimmed(items + [v])
  {
    var r := items + [v];
    assert forall k :: 0 <= k < |items| ==> r[k] == items[k];
  }

  /** Removing entries keeps every remaining entry trimmed. */
  lemma RemoveTrimmed(items: seq<string>, t: string)
    requires AllTrimmed(items)
    ensures AllTrimmed(Remove(items, t))
  {
    var r := Remove(items, t);
    forall k | 0 <= k < |r|
      ensures r[k] != "" && Strip(r[k]) == r[k]
    {
      FilterMembers(x => x != t, items, r[k]);
      var j :| 0 <= j < |items| && items[j] == r[k];
    }
  }

  /** From an empty interest list, no sequence of actions produces a duplicate, an
      empty entry or an entry with surrounding whitespace. */
  lemma {:induction false} InterestRunInvariant(st: ListState, ops: seq<ListOp>)
    requires NoDuplicates(st.items) && AllTrimmed(st.items)
    ensures NoDuplicates(InterestRun(st, ops).items) && AllTrimmed(InterestRun(st, ops).items)
    decreases |ops|
  {
    if ops != [] {
      InterestStepInvariant(st, ops[0]);
      InterestRunInvariant(InterestStep(st, ops[0]), ops[1..]);
    }
  }

  /** With the corrected `addInterest` (`AddInterest`), the Profile page's initial empty
      list satisfies the invariant, so every interest list reachable from it is distinct
      and trimmed. The handler as written does not keep this
      (`AddInterestAsWrittenDuplicates`). */
  lemma ProfileInterestsClean(ops: seq<ListOp>, input: string)
    ensures var items := InterestRun(ListState(InitialInterests, input), ops).items;
      NoDuplicates(items) && AllTrimmed(items)
  {
    InterestRunInvariant(ListState(InitialInterests, input), ops);
  }
}
