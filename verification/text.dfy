/**
 * The parts of Go's `strings` and `strconv` packages that the exporter
 * relies on, stated over `string` (a sequence of Unicode scalar values).
 */
module Text {

  /** Number of occurrences of `c` in `s`. */
  function Count(s: string, c: char): (n: nat)
    ensures n <= |s|
    ensures n == 0 <==> c !in s
  {
    if s == [] then 0 else (if s[0] == c then 1 else 0) + Count(s[1..], c)
  }

  /** Index of the first `c` in `s`; `s` must contain one. */
  function IndexOf(s: string, c: char): (i: nat)
    requires c in s
    ensures i < |s| && s[i] == c && c !in s[..i]
  {
    if s[0] == c then 0 else 1 + IndexOf(s[1..], c)
  }

  /** `strings.Join(parts, sep)`. */
  function Join(parts: seq<string>, sep: string): string
  {
    if |parts| == 0 then ""
    else if |parts| == 1 then parts[0]
    else parts[0] + sep + Join(parts[1..], sep)
  }

  /**
   * `strings.Split(s, string(c))`: the pieces of `s` between occurrences of
   * `c`. There is always one more piece than there are separators (so the
   * empty string gives one empty piece), no piece contains the separator,
   * and joining the pieces back with the separator gives `s`.
   */
  function Split(s: string, c: char): (parts: seq<string>)
    ensures |parts| == Count(s, c) + 1
    ensures forall i :: 0 <= i < |parts| ==> c !in parts[i]
    ensures Join(parts, [c]) == s
    decreases |s|
  {
    if c !in s then [s]
    else
      var i := IndexOf(s, c);
      CountSplitAt(s, c, i);
      var rest := Split(s[i + 1..], c);
      SplitStep(s, c, i, rest);
      [s[..i]] + rest
  }

  /** The piece before the first separator, followed by the split of the rest, splits `s`. */
  lemma SplitStep(s: string, c: char, i: nat, rest: seq<string>)
    requires i < |s| && s[i] == c && c !in s[..i]
    requires rest != [] && Join(rest, [c]) == s[i + 1..]
    requires forall k :: 0 <= k < |rest| ==> c !in rest[k]
    ensures forall k :: 0 <= k < |[s[..i]] + rest| ==> c !in ([s[..i]] + rest)[k]
    ensures Join([s[..i]] + rest, [c]) == s
  {
    JoinCons(s[..i], rest, [c]);
    assert s[..i + 1] == s[..i] + [c];
    assert s == s[..i + 1] + s[i + 1..];
  }

  lemma {:induction false} CountSplitAt(s: string, c: char, i: nat)
    requires i < |s| && s[i] == c && c !in s[..i]
    ensures Count(s, c) == 1 + Count(s[i + 1..], c)
  {
    if i > 0 {
      assert s[0] != c by { assert s[0] == s[..i][0]; }
      assert s[1..][i - 1..] == s[i..];
      assert s[1..][..i - 1] == s[..i][1..];
      CountSplitAt(s[1..], c, i - 1);
      assert s[1..][i..] == s[i + 1..];
    }
  }

  /** Splitting a piece that has no separator, followed by the separator, peels that piece off. */
  lemma {:induction false} SplitCons(head: string, c: char, rest: string)
    requires c !in head
    ensures Split(head + [c] + rest, c) == [head] + Split(rest, c)
  {
    var s := head + [c] + rest;
    assert s[|head|] == c;
    var i := IndexOf(s, c);
    assert s[..i] == head;
    assert s[i + 1..] == rest;
  }

  /** A separator followed by separator-free text ends the split with that text. */
  lemma SplitSnoc(init: string, c: char, last: string)
    requires c !in last
    ensures Split(init + [c] + last, c) == Split(init, c) + [last]
  {
    var parts := Split(init, c);
    JoinSnoc(parts, [c], last);
    SplitJoin(parts + [last], c);
  }

  /** Joining a first piece onto at least one more puts the separator between them. */
  lemma JoinCons(head: string, rest: seq<string>, sep: string)
    requires rest != []
    ensures Join([head] + rest, sep) == head + sep + Join(rest, sep)
  {
    assert ([head] + rest)[1..] == rest;
  }

  /** Joining one more piece appends the separator and that piece. */
  lemma {:induction false} JoinSnoc(parts: seq<string>, sep: string, last: string)
    requires parts != []
    ensures Join(parts + [last], sep) == Join(parts, sep) + sep + last
  {
    if |parts| > 1 {
      JoinSnoc(parts[1..], sep, last);
      assert (parts + [last])[1..] == parts[1..] + [last];
    }
  }

  /** Split and Join are inverse: splitting a join of separator-free pieces gives them back. */
  lemma {:induction false} SplitJoin(parts: seq<string>, c: char)
    requires |parts| >= 1
    requires forall i :: 0 <= i < |parts| ==> c !in parts[i]
    ensures Split(Join(parts, [c]), c) == parts
    decreases |parts|
  {
    if |parts| == 1 {
      assert Join(parts, [c]) == parts[0];
    } else {
      SplitJoin(parts[1..], c);
      assert Join(parts, [c]) == parts[0] + [c] + Join(parts[1..], [c]);
      SplitCons(parts[0], c, Join(parts[1..], [c]));
    }
  }

  /** A join with a non-empty separator is empty exactly when there is nothing to join but empty text. */
  lemma {:induction false} JoinEmpty(parts: seq<string>, sep: string)
    requires sep != ""
    ensures Join(parts, sep) == "" <==> parts == [] || (|parts| == 1 && parts[0] == "")
  {
    if |parts| >= 2 {
      assert |Join(parts, sep)| >= |sep|;
    }
  }

  /** Regrouping a path of six parts joined by `sep`. */
  lemma Regroup(a: string, b: string, c: string, d: string, e: string, f: string, sep: string)
    ensures (a + sep + (b + sep + c)) + d + sep + e + (sep + f)
         == a + sep + (b + sep + ((c + d) + sep + (e + sep + f)))
  {
    assert (a + sep + (b + sep + c)) + d + sep + e + (sep + f)
        == a + sep + b + sep + c + d + sep + e + sep + f;
  }

  /** A concatenation of four parts starts with the first. */
  lemma ConcatStart(a: string, b: string, c: string, d: string)
    ensures (a + b + c + d)[..|a|] == a
  {
    assert a + b + c + d == a + (b + c + d);
  }

  /** A concatenation of five parts starts with the first and ends with the last. */
  lemma ConcatEnds(a: string, b: string, c: string, d: string, e: string)
    ensures var s := a + b + c + d + e;
      s[..|a|] == a && s[|s| - |e|..] == e
  {
    assert a + b + c + d + e == a + (b + c + d + e);
  }

  /** `strings.TrimLeft`/`TrimLeftFunc`: drop the longest prefix whose characters satisfy `drop`. */
  function TrimLeft(s: string, drop: char -> bool): (r: string)
    ensures |r| <= |s| && r == s[|s| - |r|..]
    ensures forall i :: 0 <= i < |s| - |r| ==> drop(s[i])
    ensures r != "" ==> !drop(r[0])
  {
    if s != "" && drop(s[0]) then TrimLeft(s[1..], drop) else s
  }

  /** `strings.TrimRight`/`TrimRightFunc`: drop the longest suffix whose characters satisfy `drop`. */
  function TrimRight(s: string, drop: char -> bool): (r: string)
    ensures |r| <= |s| && r == s[..|r|]
    ensures forall i :: |r| <= i < |s| ==> drop(s[i])
    ensures r != "" ==> !drop(r[|r| - 1])
  {
    if s != "" && drop(s[|s| - 1]) then TrimRight(s[..|s| - 1], drop) else s
  }

  /** `strings.Trim`/`TrimFunc`: both ends. */
  function Trim(s: string, drop: char -> bool): string
  {
    TrimRight(TrimLeft(s, drop), drop)
  }

  /** Trimming leaves nothing exactly when every character is one to drop. */
  lemma TrimEmpty(s: string, drop: char -> bool)
    ensures Trim(s, drop) == "" <==> forall i :: 0 <= i < |s| ==> drop(s[i])
  {
    var l := TrimLeft(s, drop);
    if l != "" {
      assert !drop(s[|s| - |l|]);
    }
  }

  lemma TrimLeftPadded(pre: string, u: string, drop: char -> bool)
    requires forall i :: 0 <= i < |pre| ==> drop(pre[i])
    requires u != "" && !drop(u[0])
    ensures TrimLeft(pre + u, drop) == u
  {
    var s := pre + u;
    var l := TrimLeft(s, drop);
    assert s[|pre|] == u[0];
  }

  lemma TrimRightPadded(u: string, post: string, drop: char -> bool)
    requires forall i :: 0 <= i < |post| ==> drop(post[i])
    requires u != "" && !drop(u[|u| - 1])
    ensures TrimRight(u + post, drop) == u
  {
    var s := u + post;
    var r := TrimRight(s, drop);
    assert s[|u| - 1] == u[|u| - 1];
  }

  /**
   * Text that starts and ends with kept characters survives trimming of
   * any padding made only of dropped characters.
   */
  lemma TrimPadded(pre: string, t: string, post: string, drop: char -> bool)
    requires forall i :: 0 <= i < |pre| ==> drop(pre[i])
    requires forall i :: 0 <= i < |post| ==> drop(post[i])
    requires t != "" && !drop(t[0]) && !drop(t[|t| - 1])
    ensures Trim(pre + t + post, drop) == t
  {
    assert pre + t + post == pre + (t + post);
    TrimLeftPadded(pre, t + post, drop);
    TrimRightPadded(t, post, drop);
  }

  /**
   * Trimming keeps one stretch of `s`: it starts after the `lo` leading
   * characters to drop, and only characters to drop follow it.
   */
  lemma TrimWindow(s: string, drop: char -> bool, lo: nat)
    requires lo <= |s|
    requires forall i :: 0 <= i < lo ==> drop(s[i])
    requires lo == |s| || !drop(s[lo])
    ensures var t := Trim(s, drop);
      && lo + |t| <= |s| && t == s[lo..lo + |t|]
      && (forall i :: lo + |t| <= i < |s| ==> drop(s[i]))
      && (t != "" ==> !drop(t[|t| - 1]))
  {
    var l := TrimLeft(s, drop);
    var k := |s| - |l|;
    assert l != "" ==> l[0] == s[k];
    assert l == s[lo..];
  }

  /** The trimmed text is the stretch of `s` after the characters `TrimLeft` drops. */
  lemma TrimIndex(s: string, drop: char -> bool)
    ensures forall i :: 0 <= i < |Trim(s, drop)| ==> Trim(s, drop)[i] == s[|s| - |TrimLeft(s, drop)| + i]
  {
    var l := TrimLeft(s, drop);
    assert l == s[|s| - |l|..];
  }

  /** `s1` and `s2` have the same length and characters to drop at the same places. */
  ghost predicate SameShape(s1: string, s2: string, drop: char -> bool)
  {
    |s1| == |s2| && forall i :: 0 <= i < |s1| ==> (drop(s1[i]) <==> drop(s2[i]))
  }

  lemma {:induction false} TrimLeftShape(s1: string, s2: string, drop: char -> bool)
    requires SameShape(s1, s2, drop)
    ensures |TrimLeft(s1, drop)| == |TrimLeft(s2, drop)|
    decreases |s1|
  {
    if s1 != "" && drop(s1[0]) {
      TrimLeftShape(s1[1..], s2[1..], drop);
    }
  }

  lemma {:induction false} TrimRightShape(s1: string, s2: string, drop: char -> bool)
    requires SameShape(s1, s2, drop)
    ensures |TrimRight(s1, drop)| == |TrimRight(s2, drop)|
    decreases |s1|
  {
    if s1 != "" && drop(s1[|s1| - 1]) {
      TrimRightShape(s1[..|s1| - 1], s2[..|s2| - 1], drop);
    }
  }

  /** The same stretch of two texts of the same shape has the same shape. */
  lemma SameShapeSuffix(s1: string, s2: string, drop: char -> bool, k: nat)
    requires SameShape(s1, s2, drop) && k <= |s1|
    ensures SameShape(s1[k..], s2[k..], drop)
  {
    forall i | 0 <= i < |s1| - k ensures drop(s1[k..][i]) <==> drop(s2[k..][i]) {
      assert s1[k..][i] == s1[k + i] && s2[k..][i] == s2[k + i];
    }
  }

  /** Texts with characters to drop at the same places are trimmed at the same places. */
  lemma TrimShape(s1: string, s2: string, drop: char -> bool)
    requires SameShape(s1, s2, drop)
    ensures |TrimLeft(s1, drop)| == |TrimLeft(s2, drop)|
    ensures |Trim(s1, drop)| == |Trim(s2, drop)|
  {
    TrimLeftShape(s1, s2, drop);
    var l1, l2 := TrimLeft(s1, drop), TrimLeft(s2, drop);
    SameShapeSuffix(s1, s2, drop, |s1| - |l1|);
    TrimRightShape(l1, l2, drop);
  }

  /** Go's `unicode.IsSpace`, the predicate behind `strings.TrimSpace`. */
  predicate IsSpace(c: char)
  {
    c == '\t' || c == '\n' || c == '\U{000B}' || c == '\U{000C}' || c == '\r' || c == ' '
    || c == '\U{0085}' || c == '\U{00A0}' || c == '\U{1680}'
    || ('\U{2000}' <= c <= '\U{200A}')
    || c == '\U{2028}' || c == '\U{2029}' || c == '\U{202F}' || c == '\U{205F}' || c == '\U{3000}'
  }

  /** `strings.TrimSpace`. */
  function TrimSpace(s: string): string
  {
    Trim(s, IsSpace)
  }

  /** `strings.ReplaceAll(s, string(from), string(to))` for single characters. */
  function ReplaceAll(s: string, from: char, to: char): (r: string)
    ensures |r| == |s|
    ensures forall i :: 0 <= i < |s| ==> r[i] == (if s[i] == from then to else s[i])
  {
    if s == [] then [] else [if s[0] == from then to else s[0]] + ReplaceAll(s[1..], from, to)
  }

  /** Replacing a character that does not occur changes nothing. */
  lemma ReplaceAllAbsent(s: string, from: char, to: char)
    requires from !in s
    ensures ReplaceAll(s, from, to) == s
  {
  }

  predicate IsUpper(c: char)
  {
    'A' <= c <= 'Z'
  }

  /** The ASCII lower-case letter for an upper-case one; every other character is kept. */
  function Lower(c: char): (l: char)
    ensures !IsUpper(l)
    ensures !IsUpper(c) ==> l == c
    ensures IsUpper(c) ==> 'a' <= l <= 'z'
  {
    if IsUpper(c) then (c as int + 32) as char else c
  }

  /** `strings.ToLower`, restricted to the ASCII letters. */
  function ToLower(s: string): (r: string)
    ensures |r| == |s|
    ensures forall i :: 0 <= i < |s| ==> r[i] == Lower(s[i])
  {
    if s == [] then [] else [Lower(s[0])] + ToLower(s[1..])
  }

  function Digit(d: nat): (c: char)
    requires d < 10
    ensures '0' <= c <= '9'
  {
    ('0' as int + d) as char
  }

  /** Decimal digits of `n`, most significant first, without leading zeros. */
  function Decimal(n: nat): (r: string)
    ensures r != []
    ensures |r| == 1 <==> n < 10
  {
    if n < 10 then [Digit(n)] else Decimal(n / 10) + [Digit(n % 10)]
  }

  /** Decimal spellings are made of digits only. */
  lemma {:induction false} DecimalDigits(n: nat, i: nat)
    requires i < |Decimal(n)|
    ensures '0' <= Decimal(n)[i] <= '9'
  {
    if n >= 10 && i < |Decimal(n)| - 1 {
      assert Decimal(n)[i] == Decimal(n / 10)[i];
      DecimalDigits(n / 10, i);
    }
  }

  /** `strconv.Itoa`: an optional minus sign, then the decimal digits. */
  function Itoa(i: int): (r: string)
    ensures r != []
    ensures r[0] == '-' <==> i < 0
  {
    if i < 0 then "-" + Decimal(-i)
    else
      DecimalDigits(i, 0);
      Decimal(i)
  }

  lemma {:induction false} DecimalInjective(a: nat, b: nat)
    requires Decimal(a) == Decimal(b)
    ensures a == b
  {
    if a >= 10 && b >= 10 {
      var da, db := Decimal(a), Decimal(b);
      assert Digit(a % 10) == da[|da| - 1] == db[|db| - 1] == Digit(b % 10);
      assert Decimal(a / 10) == da[..|da| - 1] == db[..|db| - 1] == Decimal(b / 10);
      DecimalInjective(a / 10, b / 10);
    }
  }

  /** Different integers have different decimal spellings. */
  lemma ItoaInjective(a: int, b: int)
    requires Itoa(a) == Itoa(b)
    ensures a == b
  {
    if a < 0 && b < 0 {
      assert Decimal(-a) == Itoa(a)[1..] == Itoa(b)[1..] == Decimal(-b);
      DecimalInjective(-a, -b);
    } else if a >= 0 && b >= 0 {
      DecimalInjective(a, b);
    }
  }
}
