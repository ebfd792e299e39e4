/**
  The JavaScript string and array operations the bot relies on:
  `String.prototype.toLowerCase`, `toUpperCase`, `includes` and
  `Array.prototype.join` over strings. Case mapping is modelled on the
  ASCII letters only.
 */
module JsString {

  function LowerChar(c: char): char {
    if 'A' <= c <= 'Z' then (c as int + 32) as char else c
  }

  function UpperChar(c: char): char {
    if 'a' <= c <= 'z' then (c as int - 32) as char else c
  }

  /** `s.toLowerCase()` */
  function ToLower(s: string): string {
    seq(|s|, i requires 0 <= i < |s| => LowerChar(s[i]))
  }

  /** `s.toUpperCase()` */
  function ToUpper(s: string): string {
    seq(|s|, i requires 0 <= i < |s| => UpperChar(s[i]))
  }

  /** Upper-casing ignores a prior lower-casing: "Team", "TEAM" and "team" share one upper-cased form. */
  lemma UpperOfLower(s: string)
    ensures ToUpper(ToLower(s)) == ToUpper(s)
  {
    forall i | 0 <= i < |s|
      ensures ToUpper(ToLower(s))[i] == ToUpper(s)[i]
    {
      assert ToLower(s)[i] == LowerChar(s[i]);
    }
  }

  /** Two strings with the same lower-cased form have the same upper-cased form. */
  lemma SameLowerSameUpper(s: string, t: string)
    requires ToLower(s) == ToLower(t)
    ensures ToUpper(s) == ToUpper(t)
  {
    UpperOfLower(s);
    UpperOfLower(t);
  }

  predicate StartsWith(s: string, prefix: string) {
    |prefix| <= |s| && s[..|prefix|] == prefix
  }

  /** `s.includes(sub)`: `sub` occurs in `s` at some position. */
  predicate Includes(s: string, sub: string)
    decreases |s|
  {
    StartsWith(s, sub) || (|s| > 0 && Includes(s[1..], sub))
  }

  /** An occurrence of `sub` at any position `i` makes `s.includes(sub)` true. */
  lemma {:induction false} IncludesAt(s: string, sub: string, i: nat)
    requires i + |sub| <= |s| && s[i..i + |sub|] == sub
    ensures Includes(s, sub)
    decreases i
  {
    if i > 0 {
      assert s[1..][i - 1..i - 1 + |sub|] == s[i..i + |sub|];
      IncludesAt(s[1..], sub, i - 1);
    }
  }

  /** Conversely, `s.includes(sub)` means `sub` occurs at some position. */
  lemma {:induction false} IncludesHasPosition(s: string, sub: string) returns (i: nat)
    requires Includes(s, sub)
    ensures i + |sub| <= |s| && s[i..i + |sub|] == sub
    decreases |s|
  {
    if StartsWith(s, sub) {
      i := 0;
    } else {
      var j := IncludesHasPosition(s[1..], sub);
      assert s[1..][j..j + |sub|] == s[j + 1..j + 1 + |sub|];
      i := j + 1;
    }
  }

  /** A string shorter than `sub` cannot include it. */
  lemma {:induction false} ShorterExcludes(s: string, sub: string)
    requires |s| < |sub|
    ensures !Includes(s, sub)
    decreases |s|
  {
    if |s| > 0 {
      ShorterExcludes(s[1..], sub);
    }
  }

  /** `parts.join(sep)` */
  function Join(parts: seq<string>, sep: string): string
    decreases |parts|
  {
    if |parts| == 0 then ""
    else if |parts| == 1 then parts[0]
    else parts[0] + sep + Join(parts[1..], sep)
  }

  /** Where the `i`-th part starts in `Join(parts, sep)`: every earlier part and its separator come first. */
  function Offset(parts: seq<string>, sep: string, i: nat): nat
    requires i <= |parts|
  {
    if i == 0 then 0 else Offset(parts, sep, i - 1) + |parts[i - 1]| + |sep|
  }

  lemma {:induction false} OffsetTail(parts: seq<string>, sep: string, i: nat)
    requires 1 <= i <= |parts|
    ensures Offset(parts, sep, i) == |parts[0]| + |sep| + Offset(parts[1..], sep, i - 1)
  {
    if i > 1 {
      OffsetTail(parts, sep, i - 1);
    }
  }

  /** Slicing past a prefix `a` of `a + b` slices `b`. */
  lemma SliceAfter(a: string, b: string, x: nat, y: nat)
    requires x <= y <= |b|
    ensures (a + b)[|a| + x..|a| + y] == b[x..y]
  {
  }

  /** A joined string of two or more parts is the first part, a separator and the join of the rest. */
  lemma JoinCons(parts: seq<string>, sep: string)
    requires |parts| >= 2
    ensures Join(parts, sep) == (parts[0] + sep) + Join(parts[1..], sep)
  {
  }

  /** In `s == a + r`, a slice of `r` reappears `|a|` characters further on. */
  lemma SliceShift(s: string, a: string, r: string, x: nat, y: nat, t: string)
    requires s == a + r && x <= y <= |r| && r[x..y] == t
    ensures |a| + y <= |s| && s[|a| + x..|a| + y] == t
  {
    SliceAfter(a, r, x, y);
  }

  /** The first part of a join of two or more parts starts it. */
  lemma JoinFirst(parts: seq<string>, sep: string)
    requires |parts| > 1
    ensures |parts[0]| <= |Join(parts, sep)| && Join(parts, sep)[..|parts[0]|] == parts[0]
  {
    JoinCons(parts, sep);
    SliceBefore(parts[0] + sep, Join(parts[1..], sep), 0, |parts[0]|);
    SliceBefore(parts[0], sep, 0, |parts[0]|);
  }

  /** A slice of the join of `parts[1..]` reappears `|parts[0]| + |sep|` characters further on in the join of `parts`. */
  lemma JoinShift(parts: seq<string>, sep: string, x: nat, y: nat, t: string)
    requires |parts| > 1 && x <= y <= |Join(parts[1..], sep)| && Join(parts[1..], sep)[x..y] == t
    ensures |parts[0]| + |sep| + y <= |Join(parts, sep)|
    ensures Join(parts, sep)[|parts[0]| + |sep| + x..|parts[0]| + |sep| + y] == t
  {
    JoinCons(parts, sep);
    SliceShift(Join(parts, sep), parts[0] + sep, Join(parts[1..], sep), x, y, t);
  }

  /** Part `i` sits at `Offset(parts, sep, i)` in the joined string. */
  lemma {:induction false} JoinPart(parts: seq<string>, sep: string, i: nat)
    requires i < |parts|
    ensures Offset(parts, sep, i) + |parts[i]| <= |Join(parts, sep)|
    ensures Join(parts, sep)[Offset(parts, sep, i)..Offset(parts, sep, i) + |parts[i]|] == parts[i]
    decreases |parts|
  {
    if i > 0 {
      var rest := parts[1..];
      var o := Offset(rest, sep, i - 1);
      assert rest[i - 1] == parts[i];
      JoinPart(rest, sep, i - 1);
      OffsetTail(parts, sep, i);
      JoinShift(parts, sep, o, o + |parts[i]|, parts[i]);
    } else if |parts| > 1 {
      JoinFirst(parts, sep);
    }
  }

  /** A separator follows every part but the last. */
  lemma {:induction false} JoinSeparator(parts: seq<string>, sep: string, i: nat)
    requires i + 1 < |parts|
    ensures Offset(parts, sep, i + 1) <= |Join(parts, sep)|
    ensures Join(parts, sep)[Offset(parts, sep, i) + |parts[i]|..Offset(parts, sep, i + 1)] == sep
    decreases |parts|
  {
    if i > 0 {
      var rest := parts[1..];
      var o := Offset(rest, sep, i - 1) + |rest[i - 1]|;
      assert rest[i - 1] == parts[i];
      JoinSeparator(rest, sep, i - 1);
      OffsetTail(parts, sep, i);
      OffsetTail(parts, sep, i + 1);
      JoinShift(parts, sep, o, o + |sep|, sep);
    } else {
      JoinSeparatorFirst(parts, sep);
    }
  }

  /** In a join of two or more parts, the separator follows the first part. */
  lemma JoinSeparatorFirst(parts: seq<string>, sep: string)
    requires |parts| > 1
    ensures |parts[0]| + |sep| <= |Join(parts, sep)|
    ensures Join(parts, sep)[|parts[0]|..|parts[0]| + |sep|] == sep
  {
    JoinCons(parts, sep);
    SliceBefore(parts[0] + sep, Join(parts[1..], sep), |parts[0]|, |parts[0]| + |sep|);
    SliceAfter(parts[0], sep, 0, |sep|);
  }

  /** The last part ends the joined string. */
  lemma {:induction false} JoinLength(parts: seq<string>, sep: string)
    requires |parts| > 0
    ensures |Join(parts, sep)| == Offset(parts, sep, |parts| - 1) + |parts[|parts| - 1]|
    decreases |parts|
  {
    if |parts| > 1 {
      JoinCons(parts, sep);
      JoinLength(parts[1..], sep);
      OffsetTail(parts, sep, |parts| - 1);
    }
  }

  /** Slicing inside the prefix `a` of `a + b` slices `a`. */
  lemma SliceBefore(a: string, b: string, x: nat, y: nat)
    requires x <= y <= |a|
    ensures (a + b)[x..y] == a[x..y]
  {
  }

  /** Slicing `s == a + (b + c)` inside its middle part `b`. */
  lemma SliceMiddle(s: string, a: string, b: string, c: string, x: nat, y: nat)
    requires s == a + (b + c) && x <= y <= |b|
    ensures |a| + y <= |s| && s[|a| + x..|a| + y] == b[x..y]
  {
    SliceAfter(a, b + c, x, y);
    SliceBefore(b, c, x, y);
  }

  /** Appending the empty string changes nothing. */
  lemma AppendEmpty(s: string)
    ensures s + "" == s
  {
  }

  /** In `s == a + (b + c)`, `c` is what follows `b`. */
  lemma SliceLast(s: string, a: string, b: string, c: string)
    requires s == a + (b + c)
    ensures |s| == |a| + |b| + |c| && s[|a| + |b|..] == c
  {
    assert s[|a| + |b|..] == (b + c)[|b|..];
  }

  /** In `s == pre + (Join(parts, sep) + post)`, part `i` sits `Offset(parts, sep, i)` characters after `pre`. */
  lemma FramedPart(s: string, pre: string, parts: seq<string>, sep: string, post: string, i: nat)
    requires s == pre + (Join(parts, sep) + post) && i < |parts|
    ensures |pre| + Offset(parts, sep, i) + |parts[i]| <= |s|
    ensures s[|pre| + Offset(parts, sep, i)..|pre| + Offset(parts, sep, i) + |parts[i]|] == parts[i]
  {
    var o := Offset(parts, sep, i);
    JoinPart(parts, sep, i);
    SliceMiddle(s, pre, Join(parts, sep), post, o, o + |parts[i]|);
  }

  /** In `s == pre + (Join(parts, sep) + post)`, a separator follows every part but the last. */
  lemma FramedSeparator(s: string, pre: string, parts: seq<string>, sep: string, sepLength: nat, post: string, i: nat)
    requires s == pre + (Join(parts, sep) + post) && i + 1 < |parts| && sepLength == |sep|
    ensures |pre| + Offset(parts, sep, i) + |parts[i]| + sepLength <= |s|
    ensures s[|pre| + Offset(parts, sep, i) + |parts[i]|..|pre| + Offset(parts, sep, i) + |parts[i]| + sepLength] == sep
  {
    var o := Offset(parts, sep, i);
    var n := |parts[i]|;
    JoinSeparator(parts, sep, i);
    assert Offset(parts, sep, i + 1) == o + n + sepLength;
    SliceMiddle(s, pre, Join(parts, sep), post, o + n, o + n + sepLength);
  }

  /** In `s == pre + (Join(parts, sep) + post)`, `post` follows the last part. */
  lemma FramedEnd(s: string, pre: string, parts: seq<string>, sep: string, post: string)
    requires s == pre + (Join(parts, sep) + post) && |parts| > 0
    ensures |s| == |pre| + Offset(parts, sep, |parts| - 1) + |parts[|parts| - 1]| + |post|
    ensures s[|pre| + Offset(parts, sep, |parts| - 1) + |parts[|parts| - 1]|..] == post
  {
    JoinLength(parts, sep);
    SliceLast(s, pre, Join(parts, sep), post);
  }

  /** Parts appear in the joined string in their order in the sequence, without overlapping. */
  lemma {:induction false} OffsetOrdered(parts: seq<string>, sep: string, i: nat, k: nat)
    requires i < k <= |parts|
    ensures Offset(parts, sep, i) + |parts[i]| + |sep| <= Offset(parts, sep, k)
    decreases k
  {
    if k > i + 1 {
      OffsetOrdered(parts, sep, i, k - 1);
    }
  }
}
