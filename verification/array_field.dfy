/** The list editors of the dashboards. The tag, technology and achievement
    editors add a trimmed entry from an input buffer when it is neither blank
    nor already present and remove entries by value; media, section items and
    skills are removed by position. */
module ArrayField {
  import Text

  /** No entry occurs twice. */
  predicate Distinct<T(==)>(xs: seq<T>) {
    forall i, j :: 0 <= i < j < |xs| ==> xs[i] != xs[j]
  }

  /** No entry is blank once trimmed. */
  predicate NoBlanks(xs: seq<string>) {
    forall i :: 0 <= i < |xs| ==> Text.Trim(xs[i]) != ""
  }

  /** The shape an add-only editor keeps its list in. */
  predicate Tidy(xs: seq<string>) {
    Distinct(xs) && NoBlanks(xs)
  }

  /** The list and the input buffer after an add. */
  datatype Edit = Edit(list: seq<string>, buffer: string)

  /** Whether an add accepts `buffer`: its trimmed text is non-empty and not in
      the list yet. */
  predicate Accepts(list: seq<string>, buffer: string) {
    Text.Trim(buffer) != "" && Text.Trim(buffer) !in list
  }

  /** The add button: appends the trimmed buffer and clears the buffer when the
      add is accepted, and changes nothing otherwise. */
  function Add(list: seq<string>, buffer: string): (r: Edit)
    ensures |list| <= |r.list| <= |list| + 1 && r.list[..|list|] == list
    ensures |r.list| == |list| + 1 <==> Accepts(list, buffer)
    ensures Accepts(list, buffer) ==> r.list[|list|] == Text.Trim(buffer) && r.buffer == ""
    ensures !Accepts(list, buffer) ==> r == Edit(list, buffer)
    ensures Text.Trim(buffer) != "" ==> Text.Trim(buffer) in r.list
  {
    var t := Text.Trim(buffer);
    if t != "" && t !in list then Edit(list + [t], "") else Edit(list, buffer)
  }

  /** Remove by value: `list.filter(x => x !== v)`. */
  function RemoveAll(list: seq<string>, v: string): (r: seq<string>)
    ensures v !in r
    ensures forall x :: x != v ==> (x in r <==> x in list)
    ensures forall x :: x != v ==> multiset(r)[x] == multiset(list)[x]
    ensures |r| <= |list|
    decreases |list|
  {
    if |list| == 0 then []
    else
      var rest := RemoveAll(list[1..], v);
      assert list == [list[0]] + list[1..];
      if list[0] == v then rest else [list[0]] + rest
  }

  /** Removal by value works piecewise: the survivors of `a + b` are the
      survivors of `a` followed by the survivors of `b`, so the order of the
      kept entries is the order they had. */
  lemma {:induction false} RemoveAllAppend(a: seq<string>, b: seq<string>, v: string)
    ensures RemoveAll(a + b, v) == RemoveAll(a, v) + RemoveAll(b, v)
    decreases |a|
  {
    if |a| == 0 {
      assert a + b == b;
    } else {
      assert (a + b)[0] == a[0];
      assert (a + b)[1..] == a[1..] + b;
      RemoveAllAppend(a[1..], b, v);
    }
  }

  /** Removing a value that is absent changes nothing. */
  lemma {:induction false} RemoveAbsent(list: seq<string>, v: string)
    requires v !in list
    ensures RemoveAll(list, v) == list
    decreases |list|
  {
    if |list| > 0 {
      RemoveAbsent(list[1..], v);
      assert list == [list[0]] + list[1..];
    }
  }

  /** Removing a value from a list without duplicates drops exactly its one
      position. */
  lemma {:induction false} RemoveDistinct(list: seq<string>, i: nat)
    requires Distinct(list) && i < |list|
    ensures RemoveAll(list, list[i]) == list[..i] + list[i + 1..]
  {
    var v := list[i];
    assert list == list[..i] + [v] + list[i + 1..];
    assert v !in list[..i];
    assert v !in list[i + 1..] by {
      forall k | i + 1 <= k < |list| ensures list[k] != v {
      }
    }
    RemoveAllAppend(list[..i] + [v], list[i + 1..], v);
    RemoveAllAppend(list[..i], [v], v);
    RemoveAbsent(list[..i], v);
    RemoveAbsent(list[i + 1..], v);
    assert RemoveAll([v], v) == [];
  }

  lemma {:induction false} RemoveKeepsDistinct(list: seq<string>, v: string)
    requires Distinct(list)
    ensures Distinct(RemoveAll(list, v))
    decreases |list|
  {
    if |list| > 0 {
      RemoveKeepsDistinct(list[1..], v);
      var rest := RemoveAll(list[1..], v);
      assert list[0] !in list[1..];
      assert list[0] !in rest;
    }
  }

  /** Adding keeps an editor's list free of blanks and duplicates. */
  lemma AddKeepsTidy(list: seq<string>, buffer: string)
    requires Tidy(list)
    ensures Tidy(Add(list, buffer).list)
  {
  }

  /** Removing by value keeps an editor's list free of blanks and duplicates. */
  lemma RemoveKeepsTidy(list: seq<string>, v: string)
    requires Tidy(list)
    ensures Tidy(RemoveAll(list, v))
  {
    RemoveKeepsDistinct(list, v);
    var r := RemoveAll(list, v);
    forall i | 0 <= i < |r| ensures Text.Trim(r[i]) != "" {
      assert r[i] in list;
    }
  }

  /** Adding the same text twice has the effect of adding it once. */
  lemma AddTwice(list: seq<string>, buffer: string)
    ensures Add(Add(list, buffer).list, buffer).list == Add(list, buffer).list
  {
  }

  /** Removing what an add appended restores the list. */
  lemma RemoveUndoesAdd(list: seq<string>, buffer: string)
    requires Accepts(list, buffer)
    ensures RemoveAll(Add(list, buffer).list, Text.Trim(buffer)) == list
  {
    var t := Text.Trim(buffer);
    RemoveAllAppend(list, [t], t);
    RemoveAbsent(list, t);
    assert RemoveAll([t], t) == [];
  }

  /** `xs.filter((_, j) => j !== i)` with the position counted from `from`. */
  function KeepOthers<T>(xs: seq<T>, i: int, from: int): (r: seq<T>)
    ensures from <= i < from + |xs| ==> r == xs[..i - from] + xs[i - from + 1..]
    ensures !(from <= i < from + |xs|) ==> r == xs
    decreases |xs|
  {
    if |xs| == 0 then []
    else
      var rest := KeepOthers(xs[1..], i, from + 1);
      assert xs == [xs[0]] + xs[1..];
      if from == i then rest else [xs[0]] + rest
  }

  /** Remove by position: drops exactly the entry at `i` and keeps the others in
      order; a position outside the list changes nothing. */
  function RemoveAt<T>(xs: seq<T>, i: int): (r: seq<T>)
    ensures 0 <= i < |xs| ==> |r| == |xs| - 1
    ensures 0 <= i < |xs| ==> forall k :: 0 <= k < |r| ==> r[k] == if k < i then xs[k] else xs[k + 1]
    ensures !(0 <= i < |xs|) ==> r == xs
  {
    KeepOthers(xs, i, 0)
  }
}
