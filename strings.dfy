/** The handful of JavaScript string operations the CLI relies on:
    `trim`, `startsWith`/`endsWith`, `indexOf`, `split`/`join`,
    ASCII `toLowerCase`, and the order `sort` uses by default, taken here
    over Dafny characters (code points) rather than UTF-16 code units. */
module Strings {

  /** The characters JavaScript's `String.prototype.trim` removes
      (WhiteSpace and LineTerminator of ECMA-262). */
  predicate IsSpace(c: char) {
    || c == ' ' || '\t' <= c <= '\r' || c == '\U{A0}' || c == '\U{1680}'
    || '\U{2000}' <= c <= '\U{200A}' || c == '\U{2028}' || c == '\U{2029}'
    || c == '\U{202F}' || c == '\U{205F}' || c == '\U{3000}' || c == '\U{FEFF}'
  }

  /** Neither end of `s` is whitespace. */
  predicate Trimmed(s: string) {
    |s| == 0 || (!IsSpace(s[0]) && !IsSpace(s[|s| - 1]))
  }

  predicate AllSpace(s: string) {
    forall k :: 0 <= k < |s| ==> IsSpace(s[k])
  }

  /** `s.trim()`: leading and trailing whitespace is removed, nothing else. */
  function Trim(s: string): (r: string)
    ensures |r| <= |s|
    ensures Trimmed(r)
    decreases |s|
  {
    if |s| > 0 && IsSpace(s[0]) then Trim(s[1..])
    else if |s| > 0 && IsSpace(s[|s| - 1]) then Trim(s[..|s| - 1])
    else s
  }

  lemma AllSpaceConcat(x: string, y: string)
    requires AllSpace(x) && AllSpace(y)
    ensures AllSpace(x + y)
  {
    forall k | 0 <= k < |x + y| ensures IsSpace((x + y)[k]) {
      if k >= |x| { assert (x + y)[k] == y[k - |x|]; }
    }
  }

  /** `s` splits into leading whitespace, its trimmed form, and trailing whitespace. */
  lemma {:induction false} TrimSplit(s: string) returns (lead: string, trail: string)
    ensures s == lead + Trim(s) + trail
    ensures AllSpace(lead) && AllSpace(trail)
    decreases |s|
  {
    if |s| > 0 && IsSpace(s[0]) {
      var l, t := TrimSplit(s[1..]);
      var m := Trim(s[1..]);
      assert Trim(s) == m;
      lead, trail := [s[0]] + l, t;
      assert AllSpace(lead) by { AllSpaceConcat([s[0]], l); }
      assert s == lead + Trim(s) + trail by {
        calc {
          s;
          [s[0]] + s[1..];
          [s[0]] + (l + m + t);
          ([s[0]] + l) + m + t;
        }
      }
    } else if |s| > 0 && IsSpace(s[|s| - 1]) {
      var l, t := TrimSplit(s[..|s| - 1]);
      var m := Trim(s[..|s| - 1]);
      assert Trim(s) == m;
      lead, trail := l, t + [s[|s| - 1]];
      assert AllSpace(trail) by { AllSpaceConcat(t, [s[|s| - 1]]); }
      assert s == lead + Trim(s) + trail by {
        calc {
          s;
          s[..|s| - 1] + [s[|s| - 1]];
          (l + m + t) + [s[|s| - 1]];
          l + m + (t + [s[|s| - 1]]);
        }
      }
    } else {
      lead, trail := [], [];
    }
  }

  /** Trimming changes nothing when neither end is whitespace. */
  lemma TrimOfTrimmed(s: string)
    requires Trimmed(s)
    ensures Trim(s) == s
  {
  }

  /** The trimmed form is empty exactly when the text is all whitespace. */
  lemma TrimBlank(s: string)
    ensures Trim(s) == [] <==> AllSpace(s)
  {
    var lead, trail := TrimSplit(s);
    if Trim(s) == [] {
      assert s == lead + trail;
      AllSpaceConcat(lead, trail);
    } else {
      assert s[|lead|] == Trim(s)[0];
    }
  }

  /** Padding a trimmed, non-blank string with whitespace is undone by `Trim`. */
  lemma {:induction false} TrimOfPadded(x: string, r: string, y: string)
    requires AllSpace(x) && AllSpace(y)
    requires Trimmed(r) && r != []
    ensures Trim(x + r + y) == r
    decreases |x| + |y|
  {
    var s := x + r + y;
    if |x| > 0 {
      assert s[0] == x[0];
      assert s[1..] == x[1..] + r + y;
      TrimOfPadded(x[1..], r, y);
    } else if |y| > 0 {
      assert s[0] == r[0];
      assert s[|s| - 1] == y[|y| - 1];
      assert s[..|s| - 1] == x + r + y[..|y| - 1];
      TrimOfPadded(x, r, y[..|y| - 1]);
    } else {
      assert s == r;
    }
  }

  lemma TrimPaddedBlank(p: string, s: string, q: string)
    requires AllSpace(p) && AllSpace(q) && AllSpace(s)
    ensures Trim(p + s + q) == []
  {
    AllSpaceConcat(p, s);
    AllSpaceConcat(p + s, q);
    TrimBlank(p + s + q);
  }

  lemma SeqAssoc5(a: string, b: string, c: string, d: string, e: string)
    ensures a + (b + c + d) + e == (a + b) + c + (d + e)
  {
  }

  /** Whitespace added around a string does not change its trimmed form. */
  lemma TrimPadded(p: string, s: string, q: string)
    requires AllSpace(p) && AllSpace(q)
    ensures Trim(p + s + q) == Trim(s)
  {
    var t := Trim(s);
    if t == [] {
      TrimBlank(s);
      TrimPaddedBlank(p, s, q);
    } else {
      var lead, trail := TrimSplit(s);
      AllSpaceConcat(p, lead);
      AllSpaceConcat(trail, q);
      calc {
        p + s + q;
        p + (lead + t + trail) + q;
        { SeqAssoc5(p, lead, t, trail, q); }
        (p + lead) + t + (trail + q);
      }
      TrimOfPadded(p + lead, t, trail + q);
    }
  }

  /** JavaScript truthiness of `s.trim()`. */
  predicate IsBlank(s: string) { Trim(s) == [] }

  lemma TrimIdempotent(s: string)
    ensures Trim(Trim(s)) == Trim(s)
  {
    TrimOfTrimmed(Trim(s));
  }

  predicate StartsWith(s: string, p: string) {
    |p| <= |s| && s[..|p|] == p
  }

  predicate EndsWith(s: string, p: string) {
    |p| <= |s| && s[|s| - |p|..] == p
  }

  /** `s.indexOf(c)`: the first index of `c`, or -1. */
  function IndexOf(s: string, c: char): (r: int)
    ensures r == -1 <==> c !in s
    ensures r != -1 ==> 0 <= r < |s| && s[r] == c && c !in s[..r]
  {
    if |s| == 0 then -1
    else if s[0] == c then 0
    else
      var k := IndexOf(s[1..], c);
      assert s[1..][..if k < 0 then 0 else k] == s[1..if k < 0 then 1 else k + 1];
      if k == -1 then -1 else k + 1
  }

  /** `parts.join(sep)`. */
  function Join(parts: seq<string>, sep: string): string {
    if |parts| == 0 then ""
    else if |parts| == 1 then parts[0]
    else parts[0] + sep + Join(parts[1..], sep)
  }

  /** `s.split(d)` for a one-character separator: always at least one piece,
      no piece holds the separator, and joining the pieces gives `s` back. */
  function Split(s: string, d: char): (r: seq<string>)
    ensures |r| >= 1
    ensures forall i :: 0 <= i < |r| ==> d !in r[i]
    ensures Join(r, [d]) == s
    decreases |s|
  {
    var i := IndexOf(s, d);
    if i == -1 then [s]
    else
      var rest := Split(s[i + 1..], d);
      assert s == s[..i] + [d] + s[i + 1..];
      var r := [s[..i]] + rest;
      assert r[0] == s[..i] && r[1..] == rest;
      assert Join(r, [d]) == s[..i] + [d] + Join(rest, [d]);
      r
  }

  /** Splitting is the inverse of joining pieces that hold no separator. */
  lemma {:induction false} SplitJoin(parts: seq<string>, d: char)
    requires |parts| >= 1
    requires forall i :: 0 <= i < |parts| ==> d !in parts[i]
    ensures Split(Join(parts, [d]), d) == parts
    decreases |parts|
  {
    var s := Join(parts, [d]);
    if |parts| == 1 {
      assert IndexOf(s, d) == -1;
    } else {
      var tail := Join(parts[1..], [d]);
      assert s == parts[0] + [d] + tail;
      assert s[..|parts[0]|] == parts[0];
      assert s[|parts[0]|] == d;
      assert IndexOf(s, d) == |parts[0]|;
      assert s[|parts[0]| + 1..] == tail;
      SplitJoin(parts[1..], d);
    }
  }

  lemma {:induction false} JoinSnoc(parts: seq<string>, x: string, sep: string)
    requires |parts| >= 1
    ensures Join(parts + [x], sep) == Join(parts, sep) + sep + x
    decreases |parts|
  {
    if |parts| == 1 {
      assert (parts + [x])[1..] == [x];
    } else {
      JoinSnoc(parts[1..], x, sep);
      assert (parts + [x])[1..] == parts[1..] + [x];
    }
  }

  /** `(a + d + b).split(d).pop()` is `b` when `b` holds no separator. */
  lemma LastPiece(a: string, b: string, d: char)
    requires d !in b
    ensures var r := Split(a + [d] + b, d); r[|r| - 1] == b
  {
    var pa := Split(a, d);
    JoinSnoc(pa, b, [d]);
    SplitJoin(pa + [b], d);
  }

  function ToLowerChar(c: char): (r: char)
    ensures 'A' <= c <= 'Z' ==> r as int == c as int + 32
    ensures !('A' <= c <= 'Z') ==> r == c
  {
    if 'A' <= c <= 'Z' then (c as int + 32) as char else c
  }

  /** `s.toLowerCase()` restricted to ASCII letters. */
  function ToLower(s: string): (r: string)
    ensures |r| == |s|
    ensures forall k :: 0 <= k < |s| ==> r[k] == ToLowerChar(s[k])
  {
    seq(|s|, k requires 0 <= k < |s| => ToLowerChar(s[k]))
  }

  /** Lowercasing changes only ASCII capitals, so it keeps a trimmed text trimmed. */
  lemma ToLowerKeepsTrimmed(s: string)
    requires Trimmed(s)
    ensures Trimmed(ToLower(s))
  {
  }

  lemma ToLowerIdempotent(s: string)
    ensures ToLower(ToLower(s)) == ToLower(s)
  {
  }

  /** The order `Array.prototype.sort` uses by default: lexicographic on
      characters. JavaScript compares UTF-16 code units; this compares code
      points, which agrees except between a character above U+FFFF and one
      in U+E000..U+FFFF. */
  predicate LexLe(a: string, b: string)
    decreases |a|
  {
    |a| == 0 || (|b| > 0 && (a[0] < b[0] || (a[0] == b[0] && LexLe(a[1..], b[1..]))))
  }

  lemma {:induction false} LexLeReflexive(a: string)
    ensures LexLe(a, a)
    decreases |a|
  {
    if |a| > 0 { LexLeReflexive(a[1..]); }
  }

  lemma {:induction false} LexLeTotal(a: string, b: string)
    ensures LexLe(a, b) || LexLe(b, a)
    decreases |a|
  {
    if |a| > 0 && |b| > 0 && a[0] == b[0] { LexLeTotal(a[1..], b[1..]); }
  }

  lemma {:induction false} LexLeAntisymmetric(a: string, b: string)
    requires LexLe(a, b) && LexLe(b, a)
    ensures a == b
    decreases |a|
  {
    if |a| > 0 {
      LexLeAntisymmetric(a[1..], b[1..]);
      assert a == [a[0]] + a[1..] && b == [b[0]] + b[1..];
    }
  }

  lemma {:induction false} LexLeTransitive(a: string, b: string, c: string)
    requires LexLe(a, b) && LexLe(b, c)
    ensures LexLe(a, c)
    decreases |a|
  {
    if |a| > 0 && a[0] == b[0] && b[0] == c[0] { LexLeTransitive(a[1..], b[1..], c[1..]); }
  }

  predicate Sorted(s: seq<string>) {
    forall i, j :: 0 <= i < j < |s| ==> LexLe(s[i], s[j])
  }

  function Insert(x: string, s: seq<string>): (r: seq<string>)
    requires Sorted(s)
    ensures Sorted(r)
    ensures multiset(r) == multiset(s) + multiset{x}
  {
    if s == [] then [x]
    else if LexLe(x, s[0]) then
      assert forall j :: 0 < j < |s| ==> LexLe(x, s[j]) by {
        forall j | 0 < j < |s| ensures LexLe(x, s[j]) { LexLeTransitive(x, s[0], s[j]); }
      }
      SortedCons(x, s);
      [x] + s
    else
      LexLeTotal(x, s[0]);
      assert s == [s[0]] + s[1..];
      var t := Insert(x, s[1..]);
      assert forall j :: 0 <= j < |t| ==> LexLe(s[0], t[j]) by {
        forall j | 0 <= j < |t| ensures LexLe(s[0], t[j]) {
          assert t[j] in multiset(t);
          if t[j] != x { assert t[j] in multiset(s[1..]); }
        }
      }
      SortedCons(s[0], t);
      assert multiset([s[0]] + t) == multiset{s[0]} + multiset(t);
      [s[0]] + t
  }

  /** A head no greater than any element of a sorted tail keeps it sorted. */
  lemma SortedCons(h: string, t: seq<string>)
    requires Sorted(t) && forall j :: 0 <= j < |t| ==> LexLe(h, t[j])
    ensures Sorted([h] + t)
  {
    var r := [h] + t;
    forall i, j | 0 <= i < j < |r| ensures LexLe(r[i], r[j]) {
      if i == 0 { assert r[j] == t[j - 1]; }
      else { assert r[i] == t[i - 1] && r[j] == t[j - 1]; }
    }
  }

  /** `names.sort()`: a sorted permutation of the input. */
  function Sort(s: seq<string>): (r: seq<string>)
    ensures Sorted(r)
    ensures multiset(r) == multiset(s)
  {
    if s == [] then []
    else
      assert s == [s[0]] + s[1..];
      Insert(s[0], Sort(s[1..]))
  }

  lemma SortedHeadLeast(s: seq<string>, x: string)
    requires Sorted(s) && x in s
    ensures LexLe(s[0], x)
  {
    var i :| 0 <= i < |s| && s[i] == x;
    if i == 0 { LexLeReflexive(x); }
  }

  lemma MultisetTail(a: seq<string>, b: seq<string>)
    requires a != [] && b != [] && a[0] == b[0]
    requires multiset(a) == multiset(b)
    ensures multiset(a[1..]) == multiset(b[1..])
  {
    assert a == [a[0]] + a[1..] && b == [b[0]] + b[1..];
    assert multiset(a) == multiset([a[0]]) + multiset(a[1..]);
    assert multiset(b) == multiset([b[0]]) + multiset(b[1..]);
    forall z ensures multiset(a[1..])[z] == multiset(b[1..])[z] {
      assert multiset(a)[z] == multiset([a[0]])[z] + multiset(a[1..])[z];
      assert multiset(b)[z] == multiset([b[0]])[z] + multiset(b[1..])[z];
    }
  }

  /** Two sorted arrangements of the same names are the same sequence. */
  lemma {:induction false} SortedUnique(a: seq<string>, b: seq<string>)
    requires Sorted(a) && Sorted(b)
    requires multiset(a) == multiset(b)
    ensures a == b
    decreases |a|
  {
    if a != [] {
      assert a[0] in multiset(b);
      assert b != [] && b[0] in multiset(a);
      SortedHeadLeast(b, a[0]);
      SortedHeadLeast(a, b[0]);
      LexLeAntisymmetric(a[0], b[0]);
      MultisetTail(a, b);
      SortedUnique(a[1..], b[1..]);
    } else {
      assert |b| == |multiset(b)| == 0;
    }
  }

  predicate Distinct(s: seq<string>) {
    forall i, j :: 0 <= i < j < |s| ==> s[i] != s[j]
  }

  lemma {:induction false} DistinctCount(s: seq<string>, x: string)
    requires Distinct(s)
    ensures multiset(s)[x] == if x in s then 1 else 0
    decreases |s|
  {
    if s != [] {
      assert s == [s[0]] + s[1..];
      assert Distinct(s[1..]) by {
        forall i, j | 0 <= i < j < |s[1..]| ensures s[1..][i] != s[1..][j] {
          assert s[1..][i] == s[i + 1] && s[1..][j] == s[j + 1];
        }
      }
      DistinctCount(s[1..], x);
      assert multiset(s) == multiset([s[0]]) + multiset(s[1..]);
      if x == s[0] {
        assert x !in s[1..] by {
          forall k | 0 <= k < |s[1..]| ensures s[1..][k] != x {
            assert s[1..][k] == s[k + 1];
          }
        }
      }
    }
  }

  /** Two listings of the same names without repeats are permutations of each other. */
  lemma DistinctSameElements(a: seq<string>, b: seq<string>)
    requires Distinct(a) && Distinct(b)
    requires forall x :: x in a <==> x in b
    ensures multiset(a) == multiset(b)
  {
    forall x ensures multiset(a)[x] == multiset(b)[x] {
      DistinctCount(a, x);
      DistinctCount(b, x);
    }
  }
}
