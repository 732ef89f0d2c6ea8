/**
 * The two string operations a comma-separated `branches` value goes through:
 * splitting on commas (Ruby's `String#split(',')`) and stripping the
 * whitespace around each piece (Ruby's `String#strip`).
 */
module Strings {

  /** The characters Ruby's `strip` removes: NUL, tab, line feed, vertical tab,
      form feed, carriage return and space. */
  predicate IsSpace(c: char) {
    c == '\0' || c == '\t' || c == '\n' || c == '\U{B}' || c == '\U{C}' || c == '\r' || c == ' '
  }

  predicate AllSpace(s: string) {
    forall i :: 0 <= i < |s| ==> IsSpace(s[i])
  }

  /** A string with no whitespace at either end. */
  predicate IsTrimmed(s: string) {
    s == [] || (!IsSpace(s[0]) && !IsSpace(s[|s| - 1]))
  }

  predicate NoComma(s: string) {
    forall i :: 0 <= i < |s| ==> s[i] != ','
  }

  /** The number of whitespace characters `s` starts with. */
  function LeadingSpace(s: string): (n: nat)
    ensures n <= |s|
    ensures n < |s| ==> !IsSpace(s[n])
  {
    if s != [] && IsSpace(s[0]) then 1 + LeadingSpace(s[1..]) else 0
  }

  /** The number of whitespace characters `s` ends with. */
  function TrailingSpace(s: string): (n: nat)
    ensures n <= |s|
    ensures n < |s| ==> !IsSpace(s[|s| - 1 - n])
  {
    if s != [] && IsSpace(s[|s| - 1]) then 1 + TrailingSpace(s[..|s| - 1]) else 0
  }

  /** What `LeadingSpace` counts is whitespace. */
  lemma {:induction false} LeadingSpaceIsSpace(s: string)
    ensures forall j :: 0 <= j < LeadingSpace(s) ==> IsSpace(s[j])
  {
    if s != [] && IsSpace(s[0]) {
      var rest := s[1..];
      LeadingSpaceIsSpace(rest);
      var n := LeadingSpace(s);
      assert n == LeadingSpace(rest) + 1;
      forall j | 1 <= j < n ensures IsSpace(s[j]) {
        assert s[j] == rest[j - 1];
      }
    }
  }

  /** What `TrailingSpace` counts is whitespace. */
  lemma {:induction false} TrailingSpaceIsSpace(s: string)
    ensures forall j :: |s| - TrailingSpace(s) <= j < |s| ==> IsSpace(s[j])
  {
    if s != [] && IsSpace(s[|s| - 1]) {
      var front := s[..|s| - 1];
      TrailingSpaceIsSpace(front);
      var n := TrailingSpace(s);
      assert n == TrailingSpace(front) + 1;
      forall j | |s| - n <= j < |s| - 1 ensures IsSpace(s[j]) {
        assert s[j] == front[j];
      }
    }
  }

  /** Ruby's `strip`: `s` without the whitespace at either end. */
  function Trim(s: string): (r: string)
    ensures IsTrimmed(r)
    ensures NoComma(s) ==> NoComma(r)
  {
    var i := LeadingSpace(s);
    var n := TrailingSpace(s[i..]);
    s[i..|s| - n]
  }

  /** The result of `strip` is the slice of `s` between its leading and its
      trailing whitespace. */
  lemma TrimIsSlice(s: string) returns (i: nat, k: nat)
    ensures i <= k <= |s|
    ensures Trim(s) == s[i..k]
    ensures AllSpace(s[..i]) && AllSpace(s[k..])
  {
    i := LeadingSpace(s);
    var t := s[i..];
    var n := TrailingSpace(t);
    k := |s| - n;
    LeadingSpaceIsSpace(s);
    TrailingSpaceIsSpace(t);
    forall j | k <= j < |s| ensures IsSpace(s[j]) {
      assert s[j] == t[j - i];
    }
  }

  /** What `strip` removes is whitespace only: the input is the result with
      whitespace in front of it and behind it. */
  lemma TrimRemovesOnlySpace(s: string)
    ensures exists a, b :: AllSpace(a) && AllSpace(b) && s == a + Trim(s) + b
  {
    var i, k := TrimIsSlice(s);
    ThreeSlices(s, i, k);
    assert AllSpace(s[..i]) && AllSpace(s[k..]) && s == s[..i] + Trim(s) + s[k..];
  }

  /** Cutting a string at two points and gluing the three pieces back. */
  lemma ThreeSlices(s: string, i: nat, k: nat)
    requires i <= k <= |s|
    ensures s == s[..i] + s[i..k] + s[k..]
  {
    assert s == s[..k] + s[k..];
    assert s[..k] == s[..i] + s[i..k];
  }

  lemma {:induction false} LeadingSpaceOfPadded(ws: string, s: string)
    requires AllSpace(ws)
    ensures LeadingSpace(ws + s) == |ws| + LeadingSpace(s)
  {
    if ws != [] {
      var t := ws + s;
      assert t[0] == ws[0];
      assert t[1..] == ws[1..] + s;
      LeadingSpaceOfPadded(ws[1..], s);
    } else {
      assert ws + s == s;
    }
  }

  lemma {:induction false} TrailingSpaceOfPadded(s: string, ws: string)
    requires AllSpace(ws)
    ensures TrailingSpace(s + ws) == |ws| + TrailingSpace(s)
  {
    if ws != [] {
      var t := s + ws;
      var front := ws[..|ws| - 1];
      assert t[|t| - 1] == ws[|ws| - 1];
      assert t[..|t| - 1] == s + front;
      TrailingSpaceOfPadded(s, front);
    } else {
      assert s + ws == s;
    }
  }

  /** Whitespace in front of a string is dropped by `strip`. */
  lemma TrimDropsLeadingSpace(ws: string, s: string)
    requires AllSpace(ws)
    ensures Trim(ws + s) == Trim(s)
  {
    LeadingSpaceOfPadded(ws, s);
    var t := s[LeadingSpace(s)..];
    assert (ws + s)[LeadingSpace(ws + s)..] == t;
  }

  /** Whitespace behind a name with nothing to strip is dropped by `strip`. */
  lemma TrimDropsTrailingSpace(x: string, b: string)
    requires AllSpace(b) && IsTrimmed(x)
    ensures Trim(x + b) == x
  {
    var s := x + b;
    if x == [] {
      assert s == b && AllSpace(s);
      LeadingSpaceOfPadded(s, []);
      assert s + [] == s;
    } else {
      assert s[0] == x[0];
      assert LeadingSpace(s) == 0;
      TrailingSpaceOfPadded(x, b);
      assert TrailingSpace(x) == 0 by {
        assert x[|x| - 1 - 0] == x[|x| - 1];
      }
      assert s[..|s| - |b|] == x;
    }
  }

  /** `strip` gives back exactly the name inside any whitespace padding; with
      `TrimRemovesOnlySpace` this fixes its result for every input. */
  lemma TrimOfPadded(a: string, x: string, b: string)
    requires AllSpace(a) && AllSpace(b) && IsTrimmed(x)
    ensures Trim(a + x + b) == x
  {
    var padded := x + b;
    assert a + x + b == a + padded;
    TrimDropsLeadingSpace(a, padded);
    TrimDropsTrailingSpace(x, b);
  }

  /** A comma-free name padded with whitespace is comma-free. */
  lemma NoCommaPadded(a: string, x: string, b: string)
    requires AllSpace(a) && AllSpace(b) && NoComma(x)
    ensures NoComma(a + x + b)
  {
    var s := a + x + b;
    forall k | 0 <= k < |s| ensures s[k] != ',' {
      if k < |a| {
        assert s[k] == a[k];
      } else if k < |a| + |x| {
        assert s[k] == x[k - |a|];
      } else {
        assert s[k] == b[k - |a| - |x|];
      }
    }
  }

  /** Ruby's `split(',')`, keeping every field: the pieces of `s` between commas. */
  function Split(s: string): (r: seq<string>)
    ensures |r| >= 1
    ensures forall i :: 0 <= i < |r| ==> NoComma(r[i])
  {
    if s == [] then [[]]
    else
      var rest := Split(s[1..]);
      if s[0] == ',' then [[]] + rest
      else [[s[0]] + rest[0]] + rest[1..]
  }

  /** The pieces of a list joined with `sep` between neighbours. */
  function Join(parts: seq<string>, sep: string): (r: string)
    ensures |parts| == 1 ==> r == parts[0]
  {
    if parts == [] then []
    else if |parts| == 1 then parts[0]
    else parts[0] + sep + Join(parts[1..], sep)
  }

  /** Splitting, then joining with a comma, gives back the original string. */
  lemma {:induction false} JoinSplit(s: string)
    ensures Join(Split(s), ",") == s
  {
    if s != [] {
      var rest := Split(s[1..]);
      JoinSplit(s[1..]);
      if s[0] == ',' {
        assert Split(s) == [[]] + rest;
        assert (Split(s))[1..] == rest;
      } else {
        JoinPrepend(s[0], rest, ",");
        assert s == [s[0]] + s[1..];
      }
    }
  }

  /** Putting a character in front of the first piece puts it in front of
      the joined text. */
  lemma JoinPrepend(c: char, parts: seq<string>, sep: string)
    requires |parts| >= 1
    ensures Join([[c] + parts[0]] + parts[1..], sep) == [c] + Join(parts, sep)
  {
    var t := [[c] + parts[0]] + parts[1..];
    if |parts| > 1 {
      assert t[1..] == parts[1..];
      assert [c] + parts[0] + sep + Join(parts[1..], sep) == [c] + (parts[0] + sep + Join(parts[1..], sep));
    }
  }

  /** A comma-free string is a single field. */
  lemma {:induction false} SplitNoComma(s: string)
    requires NoComma(s)
    ensures Split(s) == [s]
  {
    if s != [] {
      SplitNoComma(s[1..]);
      assert [s[0]] + s[1..] == s;
    }
  }

  /** A comma-free prefix followed by a comma becomes the first field. */
  lemma {:induction false} SplitAfterField(a: string, b: string)
    requires NoComma(a)
    ensures Split(a + "," + b) == [a] + Split(b)
  {
    if a == [] {
      assert a + "," + b == [','] + b;
      assert ([','] + b)[1..] == b;
    } else {
      var s := a + "," + b;
      assert s[1..] == a[1..] + "," + b;
      SplitAfterField(a[1..], b);
      assert [a[0]] + a[1..] == a;
    }
  }

  /** Splitting undoes joining with a comma when no piece contains a comma. */
  lemma {:induction false} SplitJoin(parts: seq<string>)
    requires |parts| >= 1
    requires forall i :: 0 <= i < |parts| ==> NoComma(parts[i])
    ensures Split(Join(parts, ",")) == parts
  {
    if |parts| == 1 {
      SplitNoComma(parts[0]);
    } else {
      SplitAfterField(parts[0], Join(parts[1..], ","));
      SplitJoin(parts[1..]);
    }
  }
}
