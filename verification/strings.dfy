/** The small part of Python's string library that the pager relies on,
    restricted to ASCII: case mapping, stripping, splitting on one
    character, and zero-padded decimal numbers. */
module Strings {

  function LowerChar(c: char): char
  {
    if 'A' <= c <= 'Z' then (c as int + 32) as char else c
  }

  function UpperChar(c: char): char
  {
    if 'a' <= c <= 'z' then (c as int - 32) as char else c
  }

  predicate IsLetter(c: char)
  {
    'a' <= c <= 'z' || 'A' <= c <= 'Z'
  }

  /** `str.lower` */
  function Lower(s: string): (r: string)
    ensures |r| == |s|
    ensures forall i :: 0 <= i < |s| ==> r[i] == LowerChar(s[i])
  {
    seq(|s|, i requires 0 <= i < |s| => LowerChar(s[i]))
  }

  /** `str.title`: a letter is upper-cased when it does not follow a letter,
      lower-cased when it does. */
  function TitleFrom(s: string, afterLetter: bool): (r: string)
    ensures |r| == |s|
    decreases |s|
  {
    if s == [] then []
    else
      [if afterLetter then LowerChar(s[0]) else UpperChar(s[0])]
      + TitleFrom(s[1..], IsLetter(s[0]))
  }

  function Title(s: string): string
  {
    TitleFrom(s, false)
  }

  /** The ASCII characters `str.strip()` removes. */
  predicate IsSpace(c: char)
  {
    c == ' ' || (9 <= c as int <= 13) || (28 <= c as int <= 31)
  }

  predicate IsQuote(c: char)
  {
    c == '\''
  }

  /** The first position at or after `i` that is not dropped. */
  function LeadFrom(s: string, drop: char -> bool, i: nat): (n: nat)
    requires i <= |s|
    ensures i <= n <= |s|
    ensures forall k :: i <= k < n ==> drop(s[k])
    ensures n < |s| ==> !drop(s[n])
    decreases |s| - i
  {
    if i < |s| && drop(s[i]) then LeadFrom(s, drop, i + 1) else i
  }

  /** The end of the text before `j` once dropped characters at the end
      are cut, never going below `lo`. */
  function TrailFrom(s: string, drop: char -> bool, lo: nat, j: nat): (e: nat)
    requires lo <= j <= |s|
    ensures lo <= e <= j
    ensures forall k :: e <= k < j ==> drop(s[k])
    ensures e > lo ==> !drop(s[e - 1])
    decreases j
  {
    if j > lo && drop(s[j - 1]) then TrailFrom(s, drop, lo, j - 1) else j
  }

  /** How many characters `str.lstrip(chars)` cuts off. */
  function Lead(s: string, drop: char -> bool): nat
  {
    LeadFrom(s, drop, 0)
  }

  /** `r` is the slice of `s` starting at `i` with only dropped characters
      cut off on either side. */
  predicate SliceBetweenDropped(s: string, drop: char -> bool, r: string, i: nat)
  {
    && i + |r| <= |s| && r == s[i..i + |r|]
    && (forall k :: 0 <= k < i ==> drop(s[k]))
    && (forall k :: i + |r| <= k < |s| ==> drop(s[k]))
  }

  /** `str.strip(chars)`: the result is a slice of `s` that neither starts
      nor ends with a dropped character, and everything cut off is dropped. */
  function StripBy(s: string, drop: char -> bool): (r: string)
    ensures SliceBetweenDropped(s, drop, r, Lead(s, drop))
    ensures r != [] ==> !drop(r[0]) && !drop(r[|r| - 1])
    ensures '\n' !in s ==> '\n' !in r
    ensures (forall k :: 0 <= k < |s| ==> !drop(s[k])) ==> r == s
  {
    var i := Lead(s, drop);
    var e := TrailFrom(s, drop, i, |s|);
    var r := s[i..e];
    assert forall k :: 0 <= k < |r| ==> r[k] == s[i + k];
    assert '\n' !in s ==> '\n' !in r by {
      if '\n' !in s {
        forall k | 0 <= k < |r| ensures r[k] != '\n' {
          assert s[i + k] in s;
        }
      }
    }
    r
  }

  /** Stripping adds no character. */
  lemma StripByAvoids(s: string, drop: char -> bool, c: char)
    requires c !in s
    ensures c !in StripBy(s, drop)
  {
    var r := StripBy(s, drop);
    var i := Lead(s, drop);
    forall k | 0 <= k < |r| ensures r[k] != c {
      assert r[k] == s[i + k];
    }
  }

  /** A text made only of `c` vanishes. */
  lemma {:induction false} RemoveCharAll(x: string, c: char)
    requires forall k :: 0 <= k < |x| ==> x[k] == c
    ensures RemoveChar(x, c) == []
    decreases |x|
  {
    if x != [] {
      assert forall k :: 0 <= k < |x| - 1 ==> x[1..][k] == x[k + 1];
      RemoveCharAll(x[1..], c);
    }
  }

  /** Stripping `c` from both ends first changes nothing once every `c`
      is removed. */
  lemma StripThenRemove(s: string, drop: char -> bool, c: char)
    requires forall x :: drop(x) <==> x == c
    ensures RemoveChar(StripBy(s, drop), c) == RemoveChar(s, c)
  {
    var q := StripBy(s, drop);
    var i := Lead(s, drop);
    var e := i + |q|;
    var (pre, post) := (s[..i], s[e..]);
    assert s == pre + q + post;
    assert forall k :: 0 <= k < |pre| ==> pre[k] == c by {
      forall k | 0 <= k < |pre| ensures pre[k] == c { assert pre[k] == s[k]; }
    }
    assert forall k :: 0 <= k < |post| ==> post[k] == c by {
      forall k | 0 <= k < |post| ensures post[k] == c { assert post[k] == s[e + k]; }
    }
    RemoveCharBetween(pre, q, post, c);
  }

  /** Only `c` around a text: removing `c` leaves what it leaves of the
      text. */
  lemma RemoveCharBetween(pre: string, q: string, post: string, c: char)
    requires forall k :: 0 <= k < |pre| ==> pre[k] == c
    requires forall k :: 0 <= k < |post| ==> post[k] == c
    ensures RemoveChar(pre + q + post, c) == RemoveChar(q, c)
  {
    RemoveCharAppend(pre + q, post, c);
    RemoveCharAppend(pre, q, c);
    RemoveCharAll(pre, c);
    RemoveCharAll(post, c);
    assert [] + RemoveChar(q, c) + [] == RemoveChar(q, c);
  }

  /** Removing a character introduces no other. */
  lemma RemoveCharAvoids(s: string, c: char, x: char)
    requires x !in s
    ensures x !in RemoveChar(s, c)
  {
    RemoveCharCounts(s, c);
    assert multiset(s)[x] == 0;
  }

  /** A text whose characters are all kept is unchanged by stripping. */
  lemma StripByKeeps(s: string, drop: char -> bool, c: char)
    requires forall x :: drop(x) ==> x == c
    requires c !in s
    ensures StripBy(s, drop) == s
  {
    forall k | 0 <= k < |s| ensures !drop(s[k]) {
      assert s[k] in s;
    }
  }

  /** Removing a character from between two texts without changing the
      separator. */
  lemma RemoveCharAround(a: string, d: char, b: string, c: char)
    requires d != c
    ensures RemoveChar(a + [d] + b, c) == RemoveChar(a, c) + [d] + RemoveChar(b, c)
  {
    RemoveCharAppend(a + [d], b, c);
    RemoveCharAppend(a, [d], c);
    RemoveCharCons(d, [], c);
    assert [d] + [] == [d];
  }

  function Strip(s: string): string
  {
    StripBy(s, IsSpace)
  }

  /** `str.replace(c, "")`; `RemoveCharCounts` and `RemoveCharAppend`
      state what it keeps. */
  function RemoveChar(s: string, c: char): string
    decreases |s|
  {
    if s == [] then []
    else (if s[0] == c then [] else [s[0]]) + RemoveChar(s[1..], c)
  }

  /** Every `c` is gone and every other character survives, as many times
      as before; a text without `c` is unchanged. */
  lemma {:induction false} RemoveCharCounts(s: string, c: char)
    ensures c !in RemoveChar(s, c)
    ensures multiset(RemoveChar(s, c)) == multiset(s)[c := 0]
    ensures c !in s ==> RemoveChar(s, c) == s
    decreases |s|
  {
    if s != [] {
      RemoveCharCounts(s[1..], c);
      assert s == [s[0]] + s[1..];
      assert multiset(s) == multiset([s[0]]) + multiset(s[1..]);
    }
  }

  /** Removing a character works piece by piece, so the surviving
      characters keep their order. */
  lemma {:induction false} RemoveCharAppend(a: string, b: string, c: char)
    ensures RemoveChar(a + b, c) == RemoveChar(a, c) + RemoveChar(b, c)
    decreases |a|
  {
    if a != [] {
      var h := if a[0] == c then [] else [a[0]];
      RemoveCharAppend(a[1..], b, c);
      RemoveCharCons(a[0], a[1..] + b, c);
      assert [a[0]] + (a[1..] + b) == a + b;
      assert h + (RemoveChar(a[1..], c) + RemoveChar(b, c)) == (h + RemoveChar(a[1..], c)) + RemoveChar(b, c);
    } else {
      assert a + b == b;
    }
  }

  lemma RemoveCharCons(x: char, s: string, c: char)
    ensures RemoveChar([x] + s, c) == (if x == c then [] else [x]) + RemoveChar(s, c)
  {
    assert ([x] + s)[0] == x;
    assert ([x] + s)[1..] == s;
  }

  /** `str.replace(a, b)` for single characters: each `a` becomes `b` in
      place, and nothing else changes. */
  function ReplaceChar(s: string, a: char, b: char): (r: string)
    ensures |r| == |s|
    ensures forall i :: 0 <= i < |s| ==> (s[i] == a ==> r[i] == b) && (s[i] != a ==> r[i] == s[i])
    ensures a != b ==> a !in r
    ensures a !in s ==> r == s
  {
    seq(|s|, i requires 0 <= i < |s| => if s[i] == a then b else s[i])
  }

  /** Replacing works piece by piece. */
  lemma ReplaceCharAppend(x: string, y: string, a: char, b: char)
    ensures ReplaceChar(x + y, a, b) == ReplaceChar(x, a, b) + ReplaceChar(y, a, b)
  {
  }

  /** Position of the first occurrence of `c`. */
  function IndexOf(s: string, c: char): (i: nat)
    requires c in s
    ensures i < |s| && s[i] == c && c !in s[..i]
  {
    if s[0] == c then 0
    else
      assert c in s[1..] by { assert s == [s[0]] + s[1..]; }
      var j := IndexOf(s[1..], c);
      assert s[..j + 1] == [s[0]] + s[1..][..j];
      j + 1
  }

  /** The text before the first `c`: `s.split(c)[0]`. */
  function Before(s: string, c: char): (r: string)
    ensures c !in r
    ensures |r| <= |s| && r == s[..|r|]
    ensures c in s ==> |r| < |s| && s[|r|] == c
    ensures c !in s ==> r == s
  {
    if c in s then s[..IndexOf(s, c)] else s
  }

  /** `s.split(sep)` */
  function Split(s: string, sep: char): (parts: seq<string>)
    ensures |parts| >= 1
    ensures forall i :: 0 <= i < |parts| ==> sep !in parts[i]
    decreases |s|
  {
    if sep !in s then [s]
    else
      var i := IndexOf(s, sep);
      [s[..i]] + Split(s[i + 1..], sep)
  }

  /** `sep.join(parts)` */
  function Join(parts: seq<string>, sep: char): string
  {
    if parts == [] then []
    else if |parts| == 1 then parts[0]
    else parts[0] + [sep] + Join(parts[1..], sep)
  }

  /** A character absent from the text is absent from every piece. */
  lemma {:induction false} SplitAvoids(s: string, sep: char, c: char)
    requires c !in s
    ensures forall i :: 0 <= i < |Split(s, sep)| ==> c !in Split(s, sep)[i]
    decreases |s|
  {
    if sep in s {
      var i := IndexOf(s, sep);
      assert forall x :: x in s[..i] ==> x in s;
      assert forall x :: x in s[i + 1..] ==> x in s;
      SplitAvoids(s[i + 1..], sep, c);
    }
  }

  /** Joining the pieces of a split restores the original text. */
  lemma {:induction false} JoinSplit(s: string, sep: char)
    ensures Join(Split(s, sep), sep) == s
    decreases |s|
  {
    if sep in s {
      var i := IndexOf(s, sep);
      var (head, tail) := (s[..i], s[i + 1..]);
      JoinSplit(tail, sep);
      assert Split(s, sep) == [head] + Split(tail, sep);
      JoinCons(head, Split(tail, sep), sep);
      assert s == head + [sep] + tail;
    }
  }

  /** Joining a piece in front of at least one more adds it and a
      separator. */
  lemma JoinCons(a: string, parts: seq<string>, sep: char)
    requires |parts| >= 1
    ensures Join([a] + parts, sep) == a + [sep] + Join(parts, sep)
  {
    assert ([a] + parts)[1..] == parts;
  }

  /** Splitting a separator-free piece followed by the separator peels
      that piece off. */
  lemma {:induction false} SplitCons(a: string, sep: char, t: string)
    requires sep !in a
    ensures Split(a + [sep] + t, sep) == [a] + Split(t, sep)
  {
    var s := a + [sep] + t;
    assert s[|a|] == sep;
    assert s[..|a|] == a;
    assert sep in s;
    var i := IndexOf(s, sep);
    assert forall k :: 0 <= k < |a| ==> s[k] == a[k] && s[k] != sep;
    assert i == |a|;
    assert s[i + 1..] == t;
  }

  /** Splitting at a separator between two texts splits each of them. */
  lemma {:induction false} SplitAppend(x: string, y: string, sep: char)
    ensures Split(x + [sep] + y, sep) == Split(x, sep) + Split(y, sep)
    decreases |x|
  {
    if sep !in x {
      SplitCons(x, sep, y);
    } else {
      var i := IndexOf(x, sep);
      var (x1, x2) := (x[..i], x[i + 1..]);
      var rest := x2 + [sep] + y;
      assert x == x1 + [sep] + x2;
      assert x + [sep] + y == x1 + [sep] + rest;
      SplitCons(x1, sep, x2);
      SplitAppend(x2, y, sep);
      SplitAppendStep(x1, Split(rest, sep), Split(x2, sep), Split(y, sep));
      SplitCons(x1, sep, rest);
    }
  }

  /** Putting one piece in front commutes with appending the pieces. */
  lemma SplitAppendStep(x1: string, r: seq<string>, p: seq<string>, q: seq<string>)
    requires r == p + q
    ensures [x1] + r == ([x1] + p) + q
  {
  }

  /** Splitting a join of separator-free pieces gives the pieces back. */
  lemma {:induction false} SplitJoin(parts: seq<string>, sep: char)
    requires |parts| >= 1
    requires forall i :: 0 <= i < |parts| ==> sep !in parts[i]
    ensures Split(Join(parts, sep), sep) == parts
    decreases |parts|
  {
    if |parts| > 1 {
      var rest := Join(parts[1..], sep);
      JoinCons(parts[0], parts[1..], sep);
      assert parts == [parts[0]] + parts[1..];
      SplitCons(parts[0], sep, rest);
      SplitJoin(parts[1..], sep);
    }
  }

  predicate IsDigit(c: char)
  {
    '0' <= c <= '9'
  }

  predicate AllDigits(s: string)
  {
    forall i :: 0 <= i < |s| ==> IsDigit(s[i])
  }

  function DigitChar(d: nat): (c: char)
    requires d < 10
    ensures IsDigit(c)
  {
    ('0' as int + d) as char
  }

  /** Decimal rendering without leading zeros: `str(n)`. */
  function NatToString(n: nat): (s: string)
    ensures |s| >= 1 && AllDigits(s)
    ensures n > 0 ==> s[0] != '0'
    decreases n
  {
    if n < 10 then [DigitChar(n)] else NatToString(n / 10) + [DigitChar(n % 10)]
  }

  /** The number a string of decimal digits denotes. */
  function DigitsValue(s: string): nat
    requires AllDigits(s)
    decreases |s|
  {
    if s == [] then 0
    else DigitsValue(s[..|s| - 1]) * 10 + (s[|s| - 1] as int - '0' as int)
  }

  lemma {:induction false} NatToStringRoundTrip(n: nat)
    ensures DigitsValue(NatToString(n)) == n
    decreases n
  {
    if n >= 10 {
      NatToStringRoundTrip(n / 10);
      var s := NatToString(n);
      assert s[..|s| - 1] == NatToString(n / 10);
    }
  }

  /** `"{:02}".format(n)`: the digits of `n`, padded with one zero to two
      digits below 10 and unpadded from 10 on. */
  function Pad2(n: nat): (s: string)
    ensures |s| >= 2 && AllDigits(s)
    ensures DigitsValue(s) == n
    ensures n < 10 ==> |s| == 2 && s[0] == '0'
    ensures n >= 10 ==> s[0] != '0'
  {
    NatToStringRoundTrip(n);
    if n < 10 then
      var s := "0" + NatToString(n);
      assert s[..|s| - 1] == "0";
      s
    else NatToString(n)
  }
}
