/** String helpers the editors share: the whitespace class behind
    `String.prototype.trim` and the regular-expression class `\s`, trimming,
    splitting on a separator, joining with a delimiter, and the comma-separated
    list parser of the skill editor together with its round trip. */
module Text {

  /** The characters ECMAScript counts as white space or line terminators, as a
      fixed set of code points; `trim` removes them and `\s` matches them. */
  predicate IsSpace(c: char) {
    || c == ' ' || c == '\t' || c == '\n' || c == '\r'
    || c == '\U{000B}' || c == '\U{000C}' || c == '\U{00A0}' || c == '\U{1680}'
    || ('\U{2000}' <= c <= '\U{200A}')
    || c == '\U{2028}' || c == '\U{2029}' || c == '\U{202F}' || c == '\U{205F}'
    || c == '\U{3000}' || c == '\U{FEFF}'
  }

  /** Line terminators: the characters the regular-expression `.` does not match. */
  predicate IsLineTerminator(c: char) {
    c == '\n' || c == '\r' || c == '\U{2028}' || c == '\U{2029}'
  }

  ghost predicate AllSpace(s: string) {
    forall k :: 0 <= k < |s| ==> IsSpace(s[k])
  }

  /** Neither end of `s` is white space. */
  predicate Trimmed(s: string) {
    |s| > 0 ==> !IsSpace(s[0]) && !IsSpace(s[|s| - 1])
  }

  /** An entry of a list that a comma-separated buffer can carry unchanged. */
  predicate ListEntry(s: string) {
    s != "" && Trimmed(s) && ',' !in s
  }

  /** The first index at or after `i` that is not white space, or `|s|`. */
  function SkipSpace(s: string, i: nat): (r: nat)
    requires i <= |s|
    ensures i <= r <= |s|
    ensures forall k :: i <= k < r ==> IsSpace(s[k])
    ensures r < |s| ==> !IsSpace(s[r])
    decreases |s| - i
  {
    if i == |s| || !IsSpace(s[i]) then i else SkipSpace(s, i + 1)
  }

  /** The end of `s[lo..j]` once its trailing white space is cut. */
  function BackSpace(s: string, lo: nat, j: nat): (r: nat)
    requires lo <= j <= |s|
    ensures lo <= r <= j
    ensures forall k :: r <= k < j ==> IsSpace(s[k])
    ensures r > lo ==> !IsSpace(s[r - 1])
    decreases j
  {
    if j == lo || !IsSpace(s[j - 1]) then j else BackSpace(s, lo, j - 1)
  }

  /** `String.prototype.trim`: `s` without its leading and trailing white space. */
  function Trim(s: string): (r: string)
    ensures Trimmed(r)
    ensures r == "" <==> AllSpace(s)
    ensures Trimmed(s) ==> r == s
  {
    var a := SkipSpace(s, 0);
    var b := BackSpace(s, a, |s|);
    assert a == b ==> AllSpace(s) by {
      if a == b {
        assert forall k :: 0 <= k < |s| ==> IsSpace(s[k]);
      }
    }
    assert Trimmed(s) && |s| > 0 ==> a == 0 && b == |s|;
    s[a..b]
  }

  /** What trimming removes is white space at the two ends: the result is a
      slice of `s` with only white space before and after it. */
  lemma TrimSlice(s: string) returns (i: nat)
    ensures i + |Trim(s)| <= |s| && Trim(s) == s[i..i + |Trim(s)|]
    ensures forall k :: 0 <= k < i ==> IsSpace(s[k])
    ensures forall k :: i + |Trim(s)| <= k < |s| ==> IsSpace(s[k])
  {
    i := SkipSpace(s, 0);
  }

  /** A character of the trimmed string occurs in the original. */
  lemma TrimKeeps(s: string, c: char)
    requires c in Trim(s)
    ensures c in s
  {
    var r := Trim(s);
    var i := TrimSlice(s);
    var k :| 0 <= k < |r| && r[k] == c;
    assert s[i + k] == c;
  }

  /** A character absent from `s` is absent from its trim. */
  lemma TrimKeepsOut(s: string, c: char)
    requires c !in s
    ensures c !in Trim(s)
  {
    if c in Trim(s) {
      TrimKeeps(s, c);
    }
  }

  /** Leading white space does not survive trimming. */
  lemma TrimSkipsSpace(c: char, s: string)
    requires IsSpace(c)
    ensures Trim([c] + s) == Trim(s)
  {
    var t := [c] + s;
    var a := SkipSpace(s, 0);
    var b := BackSpace(s, a, |s|);
    assert t[0] == c;
    assert SkipSpace(t, 0) == SkipSpace(t, 1);
    SkipShift(c, s, 0);
    BackShift(c, s, a, |s|);
    SliceShift(c, s, a, b);
  }

  /** A slice of `[c] + s` one position on is a slice of `s`. */
  lemma SliceShift(c: char, s: string, a: nat, b: nat)
    requires a <= b <= |s|
    ensures ([c] + s)[a + 1..b + 1] == s[a..b]
  {
  }

  /** Skipping white space in `[c] + s` from `i + 1` is skipping it in `s`
      from `i`, one position further on. */
  lemma {:induction false} SkipShift(c: char, s: string, i: nat)
    requires i <= |s|
    ensures SkipSpace([c] + s, i + 1) == SkipSpace(s, i) + 1
    decreases |s| - i
  {
    var t := [c] + s;
    if i < |s| {
      assert t[i + 1] == s[i];
      if IsSpace(s[i]) {
        SkipShift(c, s, i + 1);
      }
    }
  }

  /** Cutting trailing white space in `[c] + s` is cutting it in `s`, one
      position further on. */
  lemma {:induction false} BackShift(c: char, s: string, lo: nat, j: nat)
    requires lo <= j <= |s|
    ensures BackSpace([c] + s, lo + 1, j + 1) == BackSpace(s, lo, j) + 1
    decreases j
  {
    var t := [c] + s;
    if j > lo {
      assert t[j] == s[j - 1];
      if IsSpace(s[j - 1]) {
        BackShift(c, s, lo, j - 1);
      }
    }
  }

  /** `s.split(sep)`: the pieces between separators, in order; there is always
      at least one piece, and the empty string splits into one empty piece. */
  function Split(s: string, sep: char): (r: seq<string>)
    ensures |r| >= 1
    ensures forall i :: 0 <= i < |r| ==> sep !in r[i]
    ensures Join(r, [sep]) == s
    decreases |s|
  {
    if |s| == 0 then [""]
    else
      var rest := Split(s[1..], sep);
      if s[0] == sep then
        assert Join([""] + rest, [sep]) == [sep] + Join(rest, [sep]) by {
          assert ([""] + rest)[1..] == rest;
        }
        [""] + rest
      else
        var r := [[s[0]] + rest[0]] + rest[1..];
        assert Join(r, [sep]) == [s[0]] + Join(rest, [sep]) by {
          if |rest| > 1 {
            assert r[1..] == rest[1..];
          }
        }
        r
  }

  /** The combined length of a list of strings. */
  function TotalLength(xs: seq<string>): nat
    decreases |xs|
  {
    if |xs| == 0 then 0 else |xs[0]| + TotalLength(xs[1..])
  }

  /** `xs.join(delim)`: the entries in order with one delimiter between each
      neighbouring pair, so the result starts with the first entry and is as
      long as the entries plus one delimiter per gap. */
  function Join(xs: seq<string>, delim: string): (r: string)
    ensures |xs| == 0 ==> r == ""
    ensures |xs| > 0 ==> |r| == TotalLength(xs) + (|xs| - 1) * |delim|
    ensures |xs| > 0 ==> xs[0] <= r
    ensures |xs| > 1 ==> xs[0] + delim <= r
    decreases |xs|
  {
    if |xs| == 0 then ""
    else if |xs| == 1 then xs[0]
    else xs[0] + delim + Join(xs[1..], delim)
  }

  /** A separator-free prefix followed by a separator becomes its own piece. */
  lemma {:induction false} SplitAfterPiece(a: string, sep: char, b: string)
    requires sep !in a
    ensures Split(a + [sep] + b, sep) == [a] + Split(b, sep)
    decreases |a|
  {
    if |a| == 0 {
      assert a + [sep] + b == [sep] + b;
      assert ([sep] + b)[1..] == b;
    } else {
      assert (a + [sep] + b)[1..] == a[1..] + [sep] + b;
      SplitAfterPiece(a[1..], sep, b);
      assert [a[0]] + a[1..] == a;
    }
  }

  /** A separator-free string is a single piece. */
  lemma {:induction false} SplitWhole(a: string, sep: char)
    requires sep !in a
    ensures Split(a, sep) == [a]
    decreases |a|
  {
    if |a| > 0 {
      SplitWhole(a[1..], sep);
      assert [a[0]] + a[1..] == a;
    }
  }

  /** The pieces of a split, each trimmed, with the empty ones dropped. */
  function Clean(pieces: seq<string>): (r: seq<string>)
    ensures forall i :: 0 <= i < |r| ==> r[i] != "" && Trimmed(r[i])
    ensures |r| <= |pieces|
    ensures forall i :: 0 <= i < |pieces| && Trim(pieces[i]) != "" ==> Trim(pieces[i]) in r
    ensures forall x :: x in r ==> exists i :: 0 <= i < |pieces| && x == Trim(pieces[i])
    decreases |pieces|
  {
    if |pieces| == 0 then []
    else if Trim(pieces[0]) == "" then Clean(pieces[1..])
    else [Trim(pieces[0])] + Clean(pieces[1..])
  }

  lemma {:induction false} CleanAppend(a: seq<string>, b: seq<string>)
    ensures Clean(a + b) == Clean(a) + Clean(b)
    decreases |a|
  {
    if |a| == 0 {
      assert a + b == b;
    } else {
      assert (a + b)[0] == a[0];
      assert (a + b)[1..] == a[1..] + b;
      CleanAppend(a[1..], b);
      if Trim(a[0]) != "" {
        assert [Trim(a[0])] + Clean(a[1..]) + Clean(b) == [Trim(a[0])] + (Clean(a[1..]) + Clean(b));
      }
    }
  }

  /** The skill editor's parser: `value.split(",").map(trim).filter(Boolean)`. */
  function ParseList(value: string): (r: seq<string>)
    ensures forall i :: 0 <= i < |r| ==> ListEntry(r[i])
  {
    var pieces := Split(value, ',');
    var r := Clean(pieces);
    assert forall i :: 0 <= i < |r| ==> ',' !in r[i] by {
      CleanKeepsOut(pieces, ',');
    }
    r
  }

  lemma {:induction false} CleanKeepsOut(pieces: seq<string>, c: char)
    requires forall i :: 0 <= i < |pieces| ==> c !in pieces[i]
    ensures forall i :: 0 <= i < |Clean(pieces)| ==> c !in Clean(pieces)[i]
    decreases |pieces|
  {
    if |pieces| > 0 {
      var rest := pieces[1..];
      assert forall i :: 0 <= i < |rest| ==> rest[i] == pieces[i + 1];
      CleanKeepsOut(rest, c);
      var t := Trim(pieces[0]);
      TrimKeepsOut(pieces[0], c);
      if t != "" {
        var r := Clean(pieces);
        assert r == [t] + Clean(rest);
        forall i | 0 <= i < |r| ensures c !in r[i] {
          if i > 0 {
            assert r[i] == Clean(rest)[i - 1];
          }
        }
      }
    }
  }

  /** The buffer format of a list: its entries joined with ", ". */
  function Format(xs: seq<string>): (r: string)
    ensures |xs| == 0 ==> r == ""
    ensures |xs| > 0 ==> |r| == TotalLength(xs) + 2 * (|xs| - 1)
    ensures |xs| > 1 ==> xs[0] + ", " <= r
  {
    Join(xs, ", ")
  }

  /** An empty input parses to no entries. */
  lemma ParseEmpty()
    ensures ParseList("") == []
  {
    assert Split("", ',') == [""];
    assert Trim("") == "";
  }

  /** A space in front of the buffer does not change what it parses to. */
  lemma ParseSkipsSpace(s: string)
    ensures ParseList(" " + s) == ParseList(s)
  {
    var ps := Split(s, ',');
    var c := ' ';
    assert ([c] + s)[1..] == s;
    assert Split([c] + s, ',') == [[c] + ps[0]] + ps[1..];
    CleanAppend([[c] + ps[0]], ps[1..]);
    CleanAppend([ps[0]], ps[1..]);
    TrimSkipsSpace(c, ps[0]);
    assert [ps[0]] + ps[1..] == ps;
  }

  /** A lone entry parses to itself. */
  lemma ParseSingle(x: string)
    requires ListEntry(x)
    ensures ParseList(x) == [x]
  {
    SplitWhole(x, ',');
    assert [x][1..] == [];
  }

  /** One entry followed by ", " and more text parses to that entry followed
      by the parse of the text. */
  lemma ParseCons(x: string, rest: string)
    requires ListEntry(x)
    ensures ParseList(x + ", " + rest) == [x] + ParseList(rest)
  {
    var tail := Split(" " + rest, ',');
    assert x + ", " + rest == x + [','] + (" " + rest);
    SplitAfterPiece(x, ',', " " + rest);
    CleanAppend([x], tail);
    assert Clean([x]) == [x] by {
      assert [x][1..] == [];
    }
    ParseSkipsSpace(rest);
  }

  /** Parsing the formatted buffer gives the list back whenever every entry is
      non-empty, trimmed and free of commas. */
  lemma {:induction false} ParseFormat(xs: seq<string>)
    requires forall i :: 0 <= i < |xs| ==> ListEntry(xs[i])
    ensures ParseList(Format(xs)) == xs
    decreases |xs|
  {
    if |xs| == 0 {
      ParseEmpty();
    } else if |xs| == 1 {
      ParseSingle(xs[0]);
    } else {
      var rest := xs[1..];
      assert xs == [xs[0]] + rest;
      assert Format(xs) == xs[0] + ", " + Format(rest);
      ParseCons(xs[0], Format(rest));
      ParseFormat(rest);
    }
  }

}
