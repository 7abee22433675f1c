/**
 * String operations of the JavaScript runtime that the dashboard uses:
 * case mapping for search, `trim`, `startsWith`/`endsWith`/`includes`,
 * `join` and splitting into lines.
 *
 * Case mapping covers the letters of ASCII, Latin-1 and Latin Extended-A
 * (which holds the Czech letters such as č, ř, ž) that map to one letter;
 * other characters map to themselves.
 */
module Strings {

  /** Upper-case letters of Latin Extended-A whose lower-case form is the next code point. */
  predicate ExtendedUpper(c: char)
  {
    var n := c as int;
    (0x100 <= n <= 0x12F && n % 2 == 0) || (0x132 <= n <= 0x137 && n % 2 == 0)
    || (0x139 <= n <= 0x148 && n % 2 == 1) || (0x14A <= n <= 0x177 && n % 2 == 0)
    || (0x179 <= n <= 0x17E && n % 2 == 1)
  }

  /** Lower-case letters of Latin Extended-A whose upper-case form is the previous code point. */
  predicate ExtendedLower(c: char)
  {
    var n := c as int;
    (0x101 <= n <= 0x12F && n % 2 == 1) || (0x133 <= n <= 0x137 && n % 2 == 1)
    || (0x13A <= n <= 0x148 && n % 2 == 0) || (0x14B <= n <= 0x177 && n % 2 == 1)
    || (0x17A <= n <= 0x17E && n % 2 == 0)
  }

  /** `toLowerCase` on one character. */
  function LowerChar(c: char): char
  {
    if 'A' <= c <= 'Z' then (c as int + 32) as char
    else if '\U{00C0}' <= c <= '\U{00DE}' && c != '\U{00D7}' then (c as int + 32) as char
    else if ExtendedUpper(c) then (c as int + 1) as char
    else if c == '\U{0178}' then '\U{00FF}'
    else c
  }

  /** `toUpperCase` on one character. */
  function UpperChar(c: char): char
  {
    if 'a' <= c <= 'z' then (c as int - 32) as char
    else if '\U{00E0}' <= c <= '\U{00FE}' && c != '\U{00F7}' then (c as int - 32) as char
    else if ExtendedLower(c) then (c as int - 1) as char
    else if c == '\U{00FF}' then '\U{0178}'
    else c
  }

  function Lower(s: string): (r: string)
    ensures |r| == |s|
    ensures forall i :: 0 <= i < |s| ==> r[i] == LowerChar(s[i])
  {
    if s == [] then [] else [LowerChar(s[0])] + Lower(s[1..])
  }

  function Upper(s: string): (r: string)
    ensures |r| == |s|
    ensures forall i :: 0 <= i < |s| ==> r[i] == UpperChar(s[i])
  {
    if s == [] then [] else [UpperChar(s[0])] + Upper(s[1..])
  }

  /** `s.startsWith(p)`. */
  predicate StartsWith(s: string, p: string)
  {
    |p| <= |s| && s[..|p|] == p
  }

  /** `s.endsWith(p)`. */
  predicate EndsWith(s: string, p: string)
  {
    |p| <= |s| && s[|s| - |p|..] == p
  }

  /** `s.includes(sub)`: `sub` occurs in `s` at some position. */
  predicate Contains(s: string, sub: string)
    decreases |s|
  {
    StartsWith(s, sub) || (|s| > 0 && Contains(s[1..], sub))
  }

  lemma {:induction false} ContainsAt(s: string, sub: string, i: nat)
    requires i + |sub| <= |s| && s[i..i + |sub|] == sub
    ensures Contains(s, sub)
    decreases i
  {
    if i > 0 {
      assert s[1..][i - 1..i - 1 + |sub|] == s[i..i + |sub|];
      ContainsAt(s[1..], sub, i - 1);
    }
  }

  /** The white-space characters removed by `trim` and matched by `\s`. */
  predicate IsSpace(c: char)
  {
    c == ' ' || c == '\t' || c == '\n' || c == '\r' || c == '\U{000B}' || c == '\U{000C}'
    || c == '\U{00A0}' || c == '\U{1680}' || ('\U{2000}' <= c <= '\U{200A}')
    || c == '\U{2028}' || c == '\U{2029}' || c == '\U{202F}' || c == '\U{205F}'
    || c == '\U{3000}' || c == '\U{FEFF}'
  }

  function TrimStart(s: string): string
  {
    if s != [] && IsSpace(s[0]) then TrimStart(s[1..]) else s
  }

  function TrimEnd(s: string): string
  {
    if s != [] && IsSpace(s[|s| - 1]) then TrimEnd(s[..|s| - 1]) else s
  }

  /** Trimming the start drops exactly the leading white space. */
  lemma {:induction false} TrimStartShape(s: string)
    ensures |TrimStart(s)| <= |s| && TrimStart(s) == s[|s| - |TrimStart(s)|..]
    ensures TrimStart(s) != [] ==> !IsSpace(TrimStart(s)[0])
    ensures forall i :: 0 <= i < |s| - |TrimStart(s)| ==> IsSpace(s[i])
  {
    if s != [] && IsSpace(s[0]) {
      TrimStartShape(s[1..]);
      assert s[1..][|s| - 1 - |TrimStart(s)|..] == s[|s| - |TrimStart(s)|..];
      forall i | 1 <= i < |s| - |TrimStart(s)|
        ensures IsSpace(s[i])
      {
        assert s[i] == s[1..][i - 1];
      }
    }
  }

  /** Trimming the end drops exactly the trailing white space. */
  lemma {:induction false} TrimEndShape(s: string)
    ensures |TrimEnd(s)| <= |s| && TrimEnd(s) == s[..|TrimEnd(s)|]
    ensures TrimEnd(s) != [] ==> !IsSpace(TrimEnd(s)[|TrimEnd(s)| - 1])
    ensures forall i :: |TrimEnd(s)| <= i < |s| ==> IsSpace(s[i])
  {
    if s != [] && IsSpace(s[|s| - 1]) {
      var n := |s| - 1;
      TrimEndShape(s[..n]);
      assert s[..n][..|TrimEnd(s)|] == s[..|TrimEnd(s)|];
      forall i | |TrimEnd(s)| <= i < n
        ensures IsSpace(s[i])
      {
        assert s[i] == s[..n][i];
      }
    }
  }

  /** `s.trim()`. */
  function Trim(s: string): string
  {
    TrimEnd(TrimStart(s))
  }

  /** A trimmed text is empty exactly when the text is all white space, and otherwise starts and ends with non-space. */
  lemma TrimShape(s: string)
    ensures Trim(s) == [] <==> forall i :: 0 <= i < |s| ==> IsSpace(s[i])
    ensures Trim(s) != [] ==> !IsSpace(Trim(s)[0]) && !IsSpace(Trim(s)[|Trim(s)| - 1])
  {
    var t := TrimStart(s);
    var r := TrimEnd(t);
    TrimStartShape(s);
    TrimEndShape(t);
    assert r == [] ==> t == [];
    assert r != [] ==> !IsSpace(r[0]) by {
      if r != [] {
        assert t != [] && r[0] == t[0];
      }
    }
  }

  /** `parts.join(sep)`. */
  function Join(parts: seq<string>, sep: string): string
  {
    if |parts| == 0 then ""
    else if |parts| == 1 then parts[0]
    else parts[0] + sep + Join(parts[1..], sep)
  }

  /** Index of the first occurrence of `c`, if any (`indexOf` on one character). */
  function IndexOf(s: string, c: char): (r: int)
    ensures -1 <= r < |s|
    ensures r >= 0 ==> s[r] == c
  {
    if |s| == 0 then -1
    else if s[0] == c then 0
    else
      var k := IndexOf(s[1..], c);
      if k == -1 then -1 else k + 1
  }

  /** `IndexOf` finds nothing exactly when `c` does not occur. */
  lemma {:induction false} IndexOfAbsent(s: string, c: char)
    ensures IndexOf(s, c) == -1 <==> c !in s
  {
    if |s| > 0 && s[0] != c {
      IndexOfAbsent(s[1..], c);
      assert s == [s[0]] + s[1..];
    }
  }

  /** No occurrence of `c` precedes the one `IndexOf` finds. */
  lemma {:induction false} IndexOfFirst(s: string, c: char)
    ensures IndexOf(s, c) >= 0 ==> forall k :: 0 <= k < IndexOf(s, c) ==> s[k] != c
  {
    if s != [] && s[0] != c {
      IndexOfFirst(s[1..], c);
    }
  }

  /** `s.split(c)` for a one-character separator. */
  function Split(s: string, c: char): (r: seq<string>)
    ensures |r| >= 1
    decreases |s|
  {
    var k := IndexOf(s, c);
    if k == -1 then [s] else [s[..k]] + Split(s[k + 1..], c)
  }

  /** Splitting at a separator undoes joining with it. */
  lemma {:induction false} SplitJoin(parts: seq<string>, c: char)
    requires |parts| >= 1
    requires forall i :: 0 <= i < |parts| ==> c !in parts[i]
    ensures Split(Join(parts, [c]), c) == parts
  {
    if |parts| == 1 {
    } else {
      var s := Join(parts, [c]);
      var p := parts[0];
      assert s == p + [c] + Join(parts[1..], [c]);
      assert s[|p|] == c;
      assert c !in s[..|p|] by { assert s[..|p|] == p; }
      FirstSeparator(p, Join(parts[1..], [c]), c);
      assert s[|p| + 1..] == Join(parts[1..], [c]);
      SplitJoin(parts[1..], c);
    }
  }

  /** Splitting a concatenation at a separator between the halves. */
  lemma {:induction false} SplitAppend(a: string, b: string, c: char)
    ensures Split(a + [c] + b, c) == Split(a, c) + Split(b, c)
    decreases |a|
  {
    var k := IndexOf(a, c);
    if k == -1 {
      IndexOfAbsent(a, c);
      SplitAppendFirst(a, b, c);
    } else {
      var rest := a[k + 1..];
      SplitAppendLater(a, b, c);
      var x, y, z := [a[..k]], Split(rest, c), Split(b, c);
      assert Split(a, c) == x + y;
      SplitAppend(rest, b, c);
      var t := rest + [c] + b;
      assert Split(a + [c] + b, c) == x + Split(t, c);
      assert Split(t, c) == y + z;
      ConcatAssoc(x, y, z);
    }
  }

  lemma ConcatAssoc<T>(x: seq<T>, y: seq<T>, z: seq<T>)
    ensures x + (y + z) == (x + y) + z
  {
  }

  lemma SplitAppendFirst(a: string, b: string, c: char)
    requires c !in a
    ensures Split(a + [c] + b, c) == [a] + Split(b, c)
  {
    var s := a + [c] + b;
    FirstSeparator(a, b, c);
    assert s[..|a|] == a;
    assert s[|a| + 1..] == b;
  }

  lemma SplitAppendLater(a: string, b: string, c: char)
    requires IndexOf(a, c) >= 0
    ensures var k := IndexOf(a, c);
      Split(a + [c] + b, c) == [a[..k]] + Split(a[k + 1..] + [c] + b, c)
      && Split(a, c) == [a[..k]] + Split(a[k + 1..], c)
  {
    var s := a + [c] + b;
    var k := IndexOf(a, c);
    IndexOfExtend(a, [c] + b, c);
    assert s == a + ([c] + b);
    assert s[..k] == a[..k];
    assert s[k + 1..] == a[k + 1..] + [c] + b;
  }

  /** Appending text after a found character does not move its first occurrence. */
  lemma IndexOfExtend(a: string, t: string, c: char)
    requires IndexOf(a, c) >= 0
    ensures IndexOf(a + t, c) == IndexOf(a, c)
  {
    var k := IndexOf(a, c);
    var s := a + t;
    IndexOfFirst(a, c);
    IndexOfFirst(s, c);
    IndexOfAbsent(s, c);
    assert s[k] == c;
    assert forall j :: 0 <= j < k ==> s[j] == a[j];
  }

  /** The first separator in `a + [c] + x` is the one after `a` when `a` lacks it. */
  lemma FirstSeparator(a: string, x: string, c: char)
    requires c !in a
    ensures IndexOf(a + [c] + x, c) == |a|
  {
    var s := a + [c] + x;
    IndexOfFirst(s, c);
    IndexOfAbsent(s, c);
    assert s[..|a|] == a && s[|a|] == c;
    assert forall k :: 0 <= k < |a| ==> s[k] == a[k];
  }

  /** Two strings that both lack `c` are recovered from their `c`-separated concatenation. */
  lemma SeparatorSplit(a: string, x: string, b: string, y: string, c: char)
    requires c !in a && c !in b
    requires a + [c] + x == b + [c] + y
    ensures a == b && x == y
  {
    var s := a + [c] + x;
    FirstSeparator(a, x, c);
    FirstSeparator(b, y, c);
    assert a == s[..|a|] == b;
    assert x == s[|a| + 1..] == y;
  }

  /** A join of separator-free items contains the separator iff it has two items or more. */
  lemma {:induction false} JoinSeparator(xs: seq<string>, c: char)
    requires forall i :: 0 <= i < |xs| ==> c !in xs[i]
    ensures c in Join(xs, [c]) <==> |xs| >= 2
  {
    if |xs| >= 2 {
      var j := Join(xs, [c]);
      assert j == xs[0] + [c] + Join(xs[1..], [c]);
      assert j[|xs[0]|] == c;
    }
  }

  /** A join of non-empty items is empty iff there are no items. */
  lemma JoinEmpty(xs: seq<string>, c: char)
    requires forall i :: 0 <= i < |xs| ==> xs[i] != []
    ensures Join(xs, [c]) == [] <==> xs == []
  {
    if |xs| >= 2 {
      assert Join(xs, [c]) == xs[0] + [c] + Join(xs[1..], [c]);
    }
  }

  /** Joining non-empty, separator-free items is injective. */
  lemma {:induction false} JoinInjective(xs: seq<string>, ys: seq<string>, c: char)
    requires forall i :: 0 <= i < |xs| ==> xs[i] != [] && c !in xs[i]
    requires forall i :: 0 <= i < |ys| ==> ys[i] != [] && c !in ys[i]
    requires Join(xs, [c]) == Join(ys, [c])
    ensures xs == ys
  {
    JoinEmpty(xs, c);
    JoinEmpty(ys, c);
    JoinSeparator(xs, c);
    JoinSeparator(ys, c);
    if xs == [] {
    } else if |xs| == 1 {
    } else {
      SeparatorSplit(xs[0], Join(xs[1..], [c]), ys[0], Join(ys[1..], [c]), c);
      JoinInjective(xs[1..], ys[1..], c);
      assert xs == [xs[0]] + xs[1..];
      assert ys == [ys[0]] + ys[1..];
    }
  }

  /** Joining the pieces of a split with the separator gives back the text. */
  lemma {:induction false} JoinSplit(s: string, c: char)
    ensures Join(Split(s, c), [c]) == s
    decreases |s|
  {
    var k := IndexOf(s, c);
    if k >= 0 {
      var rest := s[k + 1..];
      var tail := Split(rest, c);
      SplitAt(s, c);
      JoinSplit(rest, c);
      JoinCons(s[..k], tail, [c]);
      assert s == s[..k] + [c] + rest;
    } else {
      assert Split(s, c) == [s];
    }
  }

  /** Splitting at the first separator. */
  lemma SplitAt(s: string, c: char)
    requires IndexOf(s, c) >= 0
    ensures Split(s, c) == [s[..IndexOf(s, c)]] + Split(s[IndexOf(s, c) + 1..], c)
  {
  }

  /** Joining an item in front of at least one more. */
  lemma JoinCons(x: string, tail: seq<string>, sep: string)
    requires |tail| >= 1
    ensures Join([x] + tail, sep) == x + sep + Join(tail, sep)
  {
    assert ([x] + tail)[1..] == tail;
  }

  /** Holding a one-character text is holding the character. */
  lemma {:induction false} ContainsChar(s: string, c: char)
    ensures Contains(s, [c]) <==> c in s
    decreases |s|
  {
    if s != [] {
      ContainsChar(s[1..], c);
      assert s == [s[0]] + s[1..];
      assert StartsWith(s, [c]) <==> s[0] == c;
    }
  }
}
