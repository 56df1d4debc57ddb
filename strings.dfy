/**
 * The handful of Python `str` operations the core relies on, written as
 * functions over `seq<char>` with the semantics CPython gives them:
 * `strip()`, `startswith`, `in`, `replace(p, '')`, `split(sep)`,
 * `sep.join(xs)`, slicing with an ellipsis, `str(int)`, `int(str)` and
 * the ASCII part of `lower()`.
 */
module Strings {
  import opened Wrappers

  // ---------------------------------------------------------------------
  // Whitespace and strip()
  // ---------------------------------------------------------------------

  /** The characters for which Python's `str.isspace()` holds; `strip()` removes exactly these. */
  predicate IsSpace(c: char) {
    || c == ' '
    || ('\t' <= c <= '\r')
    || ('\U{1C}' <= c <= '\U{1F}')
    || c == '\U{85}' || c == '\U{A0}' || c == '\U{1680}'
    || ('\U{2000}' <= c <= '\U{200A}')
    || c == '\U{2028}' || c == '\U{2029}' || c == '\U{202F}' || c == '\U{205F}' || c == '\U{3000}'
  }

  /** `s.lstrip()`: the suffix of `s` left after dropping leading whitespace. */
  function StripLeft(s: string): (r: string)
    ensures |r| <= |s| && r == s[|s| - |r|..]
    ensures r != [] ==> !IsSpace(r[0])
    ensures forall i {:trigger IsSpace(s[i])} :: 0 <= i < |s| - |r| ==> IsSpace(s[i])
  {
    if s != [] && IsSpace(s[0]) then
      var r := StripLeft(s[1..]);
      assert forall i :: 1 <= i < |s| ==> s[i] == s[1..][i - 1];
      r
    else s
  }

  /** `s.rstrip()`: the prefix of `s` left after dropping trailing whitespace. */
  function StripRight(s: string): (r: string)
    ensures |r| <= |s| && r == s[..|r|]
    ensures r != [] ==> !IsSpace(r[|r| - 1])
    ensures forall i {:trigger IsSpace(s[i])} :: |r| <= i < |s| ==> IsSpace(s[i])
  {
    if s != [] && IsSpace(s[|s| - 1]) then StripRight(s[..|s| - 1]) else s
  }

  /** Everything before index `i` and from index `j` on is whitespace. */
  predicate PaddedBy(s: string, i: int, j: int) {
    && 0 <= i <= j <= |s|
    && (forall k {:trigger IsSpace(s[k])} :: 0 <= k < i ==> IsSpace(s[k]))
    && (forall k {:trigger IsSpace(s[k])} :: j <= k < |s| ==> IsSpace(s[k]))
  }

  /** `s.strip()`: the slice of `s` left after dropping whitespace at both ends. */
  function Strip(s: string): (r: string)
    ensures |r| <= |s|
    ensures r != [] ==> !IsSpace(r[0]) && !IsSpace(r[|r| - 1])
    ensures r == [] <==> forall i {:trigger IsSpace(s[i])} :: 0 <= i < |s| ==> IsSpace(s[i])
  {
    StripRight(StripLeft(s))
  }

  /** What `strip()` leaves is a slice of `s` with only whitespace around it. */
  lemma StripSlice(s: string) returns (i: nat, j: nat)
    ensures PaddedBy(s, i, j) && Strip(s) == s[i..j]
  {
    var left := StripLeft(s);
    i, j := |s| - |left|, |s| - |left| + |Strip(s)|;
    PaddedAround(s, left, Strip(s));
  }

  /** A whitespace-free core `r` of a suffix `left` of `s`, both cut at whitespace, is a padded slice of `s`. */
  lemma PaddedAround(s: string, left: string, r: string)
    requires |left| <= |s| && left == s[|s| - |left|..]
    requires forall k {:trigger IsSpace(s[k])} :: 0 <= k < |s| - |left| ==> IsSpace(s[k])
    requires |r| <= |left| && r == left[..|r|]
    requires forall k {:trigger IsSpace(left[k])} :: |r| <= k < |left| ==> IsSpace(left[k])
    ensures PaddedBy(s, |s| - |left|, |s| - |left| + |r|)
    ensures r == s[|s| - |left|..|s| - |left| + |r|]
  {
    var i := |s| - |left|;
    forall k | i + |r| <= k < |s|
      ensures IsSpace(s[k])
    {
      assert s[k] == left[k - i];
    }
  }

  /** Whatever whitespace surrounds a slice with non-space ends, `strip()` gives exactly that slice. */
  lemma StripPadded(s: string, i: int, j: int)
    requires PaddedBy(s, i, j)
    requires i < j ==> !IsSpace(s[i]) && !IsSpace(s[j - 1])
    ensures Strip(s) == s[i..j]
  {
    if i < j {
      StripLeftAt(s, i);
      StripRightOfSuffix(s, i, j);
      StripOfParts(s, i, j);
    } else {
      assert forall k :: 0 <= k < |s| ==> IsSpace(s[k]);
      assert s[i..j] == [];
    }
  }

  lemma StripRightOfSuffix(s: string, i: int, j: int)
    requires 0 <= i < j <= |s| && !IsSpace(s[j - 1])
    requires forall k :: j <= k < |s| ==> IsSpace(s[k])
    ensures StripRight(s[i..]) == s[i..][..j - i]
  {
    var left := s[i..];
    forall k | j - i <= k < |left| ensures IsSpace(left[k]) {
      assert left[k] == s[i + k];
    }
    StripRightAt(left, j - i);
  }

  lemma StripOfParts(s: string, i: int, j: int)
    requires 0 <= i <= j <= |s|
    requires StripLeft(s) == s[i..] && StripRight(s[i..]) == s[i..][..j - i]
    ensures Strip(s) == s[i..j]
  {
    SliceOfSuffix(s, i, j);
  }

  lemma SliceOfSuffix(s: string, i: int, j: int)
    requires 0 <= i <= j <= |s|
    ensures s[i..][..j - i] == s[i..j]
  {
  }

  /** Leading whitespace up to a non-space character at `i` is what `lstrip()` drops. */
  lemma {:induction false} StripLeftAt(s: string, i: nat)
    requires i < |s| && !IsSpace(s[i])
    requires forall k :: 0 <= k < i ==> IsSpace(s[k])
    ensures StripLeft(s) == s[i..]
    decreases i
  {
    if i > 0 {
      var tail := s[1..];
      assert IsSpace(s[0]);
      assert tail[i - 1] == s[i];
      forall k | 0 <= k < i - 1 ensures IsSpace(tail[k]) {
        assert tail[k] == s[k + 1];
      }
      StripLeftAt(tail, i - 1);
      assert tail[i - 1..] == s[i..];
    }
  }

  /** Trailing whitespace after a non-space character at `n - 1` is what `rstrip()` drops. */
  lemma StripRightAt(t: string, n: nat)
    requires 0 < n <= |t| && !IsSpace(t[n - 1])
    requires forall k :: n <= k < |t| ==> IsSpace(t[k])
    ensures StripRight(t) == t[..n]
  {
    var right := StripRight(t);
    assert right != [] ==> right[|right| - 1] == t[|right| - 1];
    assert |right| >= n;
  }

  /** Python truthiness of `s.strip()`: the text holds something other than whitespace. */
  predicate IsBlank(s: string) {
    Strip(s) == []
  }

  lemma {:induction false} StripUnpadded(s: string)
    requires s != [] && !IsSpace(s[0]) && !IsSpace(s[|s| - 1])
    ensures Strip(s) == s
  {
    assert StripLeft(s) == s;
  }

  // ---------------------------------------------------------------------
  // Searching: startswith, endswith, `in`, find
  // ---------------------------------------------------------------------

  predicate StartsWith(s: string, p: string) {
    |p| <= |s| && s[..|p|] == p
  }

  predicate EndsWith(s: string, p: string) {
    |p| <= |s| && s[|s| - |p|..] == p
  }

  /** A concatenation starts with its first part and ends with its second. */
  lemma Concatenation(p: string, s: string)
    ensures StartsWith(p + s, p) && EndsWith(p + s, s)
  {
    assert (p + s)[..|p|] == p;
    assert (p + s)[|p|..] == s;
  }

  /** Text put in front of `s` keeps its suffix and extends its prefix. */
  lemma FramedByAppend(p: string, s: string, q: string, e: string)
    requires StartsWith(s, q) && EndsWith(s, e)
    ensures StartsWith(p + s, p + q) && EndsWith(p + s, e)
  {
    assert (p + s)[..|p + q|] == p + s[..|q|];
    assert (p + s)[|p + s| - |e|..] == s[|s| - |e|..];
  }

  /** A concatenation starts with its first part and the first character of its second. */
  lemma StartsWithFirstOf(p: string, s: string)
    requires s != []
    ensures StartsWith(p + s, p + [s[0]])
  {
    assert (p + s)[..|p| + 1] == p + [s[0]];
  }

  /** `p` occurs in `s` starting at index `i`. */
  predicate OccursAt(s: string, p: string, i: int) {
    0 <= i && i + |p| <= |s| && s[i..i + |p|] == p
  }

  /** A text put together from a head, a middle and a tail holds each where it was put. */
  lemma Layout(number: string, title: string, middle: string, tail: string)
    ensures var r := number + (title + middle + tail);
            && StartsWith(r, number + title)
            && OccursAt(r, middle, |number + title|)
            && EndsWith(r, tail)
            && |r| == |number + title| + |middle| + |tail|
  {
    var r := number + (title + middle + tail);
    assert r == (number + title) + middle + tail;
    assert r[..|number + title|] == number + title;
    assert r[|number + title|..|number + title| + |middle|] == middle;
    assert r[|r| - |tail|..] == tail;
  }

  /** `s.find(p)`, with `None` for Python's -1: the first index at which `p` occurs. */
  function IndexOf(s: string, p: string): (r: Option<nat>)
    ensures r.Some? ==> OccursAt(s, p, r.value)
    ensures r.Some? ==> forall j :: 0 <= j < r.value ==> !OccursAt(s, p, j)
    ensures r.None? ==> forall j :: !OccursAt(s, p, j)
    decreases |s|
  {
    if |s| < |p| then None
    else if s[..|p|] == p then Some(0)
    else
      OccursInTail(s, p);
      match IndexOf(s[1..], p)
      case None => None
      case Some(k) => Some(k + 1)
  }

  /** Past the first character, `p` occurs in `s` exactly where it occurs in `s[1..]`, one place later. */
  lemma OccursInTail(s: string, p: string)
    requires s != []
    ensures forall j :: 0 < j ==> (OccursAt(s, p, j) <==> OccursAt(s[1..], p, j - 1))
  {
    forall j | 0 < j
      ensures OccursAt(s, p, j) <==> OccursAt(s[1..], p, j - 1)
    {
      if j + |p| <= |s| {
        assert s[1..][j - 1..j - 1 + |p|] == s[j..j + |p|];
      }
    }
  }

  /** Python's `p in s`. */
  predicate Contains(s: string, p: string) {
    IndexOf(s, p).Some?
  }

  /** A match found within a prefix stays the first match whatever follows the prefix. */
  lemma IndexOfExtend(pre: string, rest: string, p: string)
    requires IndexOf(pre, p).Some?
    ensures IndexOf(pre + rest, p) == IndexOf(pre, p)
  {
    var i := IndexOf(pre, p).value;
    var s := pre + rest;
    assert s[i..i + |p|] == pre[i..i + |p|];
    assert OccursAt(s, p, i);
    forall j | 0 <= j < i ensures !OccursAt(s, p, j) {
      assert j + |p| <= |pre|;
      assert !OccursAt(pre, p, j);
      assert s[j..j + |p|] == pre[j..j + |p|];
    }
    FirstOccurrence(s, p, i);
  }

  /** An occurrence with none before it is what `find` returns. */
  lemma FirstOccurrence(s: string, p: string, i: nat)
    requires OccursAt(s, p, i)
    requires forall j :: 0 <= j < i ==> !OccursAt(s, p, j)
    ensures IndexOf(s, p) == Some(i)
  {
    var k := IndexOf(s, p);
    assert k.Some?;
    assert !(k.value < i);
    assert !(i < k.value);
  }

  /**
   * `p` occurs first at `i` when the last character of `p` appears nowhere
   * among the characters an earlier match would have to end on.
   */
  lemma FirstByLastChar(s: string, p: string, i: nat)
    requires p != [] && OccursAt(s, p, i)
    requires p[|p| - 1] !in s[|p| - 1..i + |p| - 1]
    ensures IndexOf(s, p) == Some(i)
  {
    var last := p[|p| - 1];
    forall j | 0 <= j < i ensures !OccursAt(s, p, j) {
      assert s[|p| - 1..i + |p| - 1][j] == s[j + |p| - 1];
      assert s[j + |p| - 1] != last;
      assert s[j..j + |p|][|p| - 1] == s[j + |p| - 1];
    }
    var k := IndexOf(s, p);
    assert k.Some? && k.value == i;
  }

  /** A one-character pattern occurs only where that character stands. */
  lemma OccursAtChar(s: string, c: char, i: int)
    ensures OccursAt(s, [c], i) <==> 0 <= i < |s| && s[i] == c
  {
    if 0 <= i < |s| {
      assert s[i..i + 1] == [s[i]];
    }
  }

  /** A pattern occurring in one part of a concatenation occurs in the whole. */
  lemma OccursInLeft(a: string, b: string, p: string, j: int)
    requires OccursAt(a + b, p, j) && j + |p| <= |a|
    ensures OccursAt(a, p, j)
  {
    assert (a + b)[j..j + |p|] == a[j..j + |p|];
  }

  // ---------------------------------------------------------------------
  // replace(p, '')
  // ---------------------------------------------------------------------

  /**
   * `s.replace(p, '')` for a non-empty `p`: Python scans left to right and
   * removes every non-overlapping occurrence of `p`.
   */
  function RemoveAll(s: string, p: string): (r: string)
    requires p != []
    ensures |r| <= |s|
    decreases |s|
  {
    if |s| < |p| then s
    else if s[..|p|] == p then RemoveAll(s[|p|..], p)
    else [s[0]] + RemoveAll(s[1..], p)
  }

  /** A leading part in which no occurrence of `p` starts survives `replace` untouched. */
  lemma {:induction false} RemoveAllKeep(a: string, rest: string, p: string)
    requires p != []
    requires forall j :: 0 <= j < |a| ==> !OccursAt(a + rest, p, j)
    ensures RemoveAll(a + rest, p) == a + RemoveAll(rest, p)
    decreases |a|
  {
    if a == [] {
      assert a + rest == rest;
    } else {
      var s := a + rest;
      var t := s[1..];
      assert t == a[1..] + rest;
      forall j | 0 <= j < |a| - 1 ensures !OccursAt(t, p, j) {
        assert !OccursAt(s, p, j + 1);
        if j + |p| <= |t| {
          assert t[j..j + |p|] == s[j + 1..j + 1 + |p|];
        }
      }
      RemoveAllKeep(a[1..], rest, p);
      assert !OccursAt(s, p, 0);
      if |s| >= |p| {
        assert s[..|p|] == s[0..|p|];
      }
      assert RemoveAll(s, p) == [s[0]] + RemoveAll(t, p);
      ConsAppend(a, RemoveAll(rest, p));
    }
  }

  /** Re-attaching the first character. */
  lemma ConsAppend(a: string, x: string)
    requires a != []
    ensures [a[0]] + (a[1..] + x) == a + x
  {
    assert a == [a[0]] + a[1..];
  }

  /** Removing a pattern that does not occur leaves the text unchanged. */
  lemma {:induction false} RemoveAllAbsent(s: string, p: string)
    requires p != [] && !Contains(s, p)
    ensures RemoveAll(s, p) == s
    decreases |s|
  {
    if |s| >= |p| {
      assert !OccursAt(s, p, 0);
      assert forall j :: OccursAt(s[1..], p, j) ==> OccursAt(s, p, j + 1);
      RemoveAllAbsent(s[1..], p);
    }
  }

  // ---------------------------------------------------------------------
  // split(sep) and sep.join(xs)
  // ---------------------------------------------------------------------

  /**
   * `s.split(c)` for a one-character separator: always one more piece than
   * there are separators, empty pieces included.
   */
  function Split(s: string, c: char): (r: seq<string>)
    ensures |r| >= 1
    ensures forall k :: 0 <= k < |r| ==> c !in r[k]
  {
    if s == [] then [""]
    else
      var rest := Split(s[1..], c);
      if s[0] == c then [""] + rest else [[s[0]] + rest[0]] + rest[1..]
  }

  /** Text without the separator splits into itself alone. */
  lemma {:induction false} SplitAbsent(s: string, c: char)
    requires c !in s
    ensures Split(s, c) == [s]
  {
    if s != [] {
      SplitAbsent(s[1..], c);
      assert [s[0]] + s[1..] == s;
    }
  }

  /** A first piece without the separator is glued to the first piece of what follows. */
  lemma {:induction false} SplitPrefix(a: string, rest: string, c: char)
    requires c !in a
    ensures Split(a + rest, c) == [a + Split(rest, c)[0]] + Split(rest, c)[1..]
  {
    var tail := Split(rest, c);
    if a == [] {
      assert a + rest == rest && a + tail[0] == tail[0];
      assert tail == [tail[0]] + tail[1..];
    } else {
      SplitPrefix(a[1..], rest, c);
      assert (a + rest)[0] == a[0] && a[0] != c;
      assert (a + rest)[1..] == a[1..] + rest;
      var r := Split(a[1..] + rest, c);
      assert r[0] == a[1..] + tail[0] && r[1..] == tail[1..];
      ConsAppend(a, tail[0]);
    }
  }

  /** Two separator-free pieces around one separator split back into those two pieces. */
  lemma SplitTwo(a: string, b: string, c: char)
    requires c !in a && c !in b
    ensures Split(a + [c] + b, c) == [a, b]
  {
    SplitAbsent(b, c);
    var t := [c] + b;
    assert t[0] == c && t[1..] == b;
    assert Split(t, c) == ["", b];
    SplitPrefix(a, t, c);
    assert a + [c] + b == a + t;
    assert a + "" == a;
  }

  /** `sep.join(xs)`. */
  function Join(sep: string, xs: seq<string>): string {
    if |xs| == 0 then ""
    else if |xs| == 1 then xs[0]
    else xs[0] + sep + Join(sep, xs[1..])
  }

  /** Joining with the separator undoes splitting on it. */
  lemma {:induction false} JoinSplit(s: string, c: char)
    ensures Join([c], Split(s, c)) == s
  {
    if s != [] {
      var rest := Split(s[1..], c);
      JoinSplit(s[1..], c);
      if s[0] == c {
        assert Split(s, c) == [""] + rest;
      } else {
        var r := Split(s, c);
        assert r == [[s[0]] + rest[0]] + rest[1..];
        if |rest| == 1 {
          assert Join([c], r) == [s[0]] + rest[0];
        } else {
          assert r[1..] == rest[1..];
          assert Join([c], r) == [s[0]] + rest[0] + [c] + Join([c], rest[1..]);
        }
      }
    }
  }

  /** The joined text starts with the first piece. */
  lemma {:induction false} JoinStartsWithFirst(sep: string, xs: seq<string>)
    requires xs != []
    ensures StartsWith(Join(sep, xs), xs[0])
  {
    if |xs| > 1 {
      assert Join(sep, xs) == xs[0] + (sep + Join(sep, xs[1..]));
    }
  }

  // ---------------------------------------------------------------------
  // Slicing with an ellipsis
  // ---------------------------------------------------------------------

  /**
   * `s[:n] + ('...' if len(s) > n else '')`: at most the first `n`
   * characters, and the three dots exactly when something was cut off.
   */
  function Truncate(s: string, n: nat): (r: string)
    ensures |s| <= n ==> r == s
    ensures |s| > n ==> |r| == n + 3 && r[..n] == s[..n] && r[n..] == "..."
    ensures |r| <= n + 3
  {
    if |s| > n then s[..n] + "..." else s
  }

  // ---------------------------------------------------------------------
  // lower()
  // ---------------------------------------------------------------------

  function LowerChar(c: char): char {
    if 'A' <= c <= 'Z' then (c as int - 'A' as int + 'a' as int) as char else c
  }

  /** The ASCII part of `s.lower()`. */
  function Lower(s: string): (r: string)
    ensures |r| == |s|
    ensures forall i :: 0 <= i < |s| ==> r[i] == LowerChar(s[i])
  {
    seq(|s|, i requires 0 <= i < |s| => LowerChar(s[i]))
  }

  // ---------------------------------------------------------------------
  // str(n) and int(s)
  // ---------------------------------------------------------------------

  predicate IsDigit(c: char) {
    '0' <= c <= '9'
  }

  function DigitChar(d: nat): char
    requires d < 10
  {
    ('0' as int + d) as char
  }

  /** The decimal digits of `n`, most significant first, without leading zeros. */
  function Digits(n: nat): (r: string)
    ensures r != []
    ensures forall i :: 0 <= i < |r| ==> IsDigit(r[i])
  {
    if n < 10 then [DigitChar(n)] else Digits(n / 10) + [DigitChar(n % 10)]
  }

  /** `str(n)` for a Python int. */
  function Decimal(n: int): (r: string)
    ensures r != [] && !IsSpace(r[0]) && !IsSpace(r[|r| - 1])
    ensures forall i :: 0 <= i < |r| ==> r[i] == '-' || IsDigit(r[i])
  {
    if n < 0 then "-" + Digits(-n) else Digits(n)
  }

  /** The value of one ASCII digit. */
  function DigitValue(c: char): nat
    requires IsDigit(c)
  {
    c as int - '0' as int
  }

  /**
   * The value of a base-10 integer literal as `int()` accepts it once the
   * whitespace is stripped: an optional sign, then digits with single
   * underscores between digits; `None` for anything else. Read from the
   * right, one digit at a time.
   */
  function Literal(t: string): (r: Option<int>)
    ensures r.Some? ==> t != [] && IsDigit(t[|t| - 1])
  {
    if t == [] || !IsDigit(t[|t| - 1]) then None
    else
      var d: int := DigitValue(t[|t| - 1]);
      var prefix := t[..|t| - 1];
      if prefix == [] then Some(d)
      else if prefix == "-" then Some(-d)
      else if prefix == "+" then Some(d)
      else
        var head := if prefix[|prefix| - 1] == '_' then prefix[..|prefix| - 1] else prefix;
        match Literal(head)
        case None => None
        case Some(v) => Some(if head[0] == '-' then v * 10 - d else v * 10 + d)
  }

  /** `int(s)` in base 10, with `None` for the ValueError. */
  function ParseInt(s: string): (r: Option<int>)
    ensures r.Some? ==> !IsBlank(s)
  {
    Literal(Strip(s))
  }

  // The grammar `int()` accepts, stated on its own.

  /** Digits with single underscores between them: it starts and ends with a digit, and every `_` is followed by a digit. */
  predicate DigitGroups(b: string) {
    && b != [] && IsDigit(b[0]) && IsDigit(b[|b| - 1])
    && (forall k :: 0 <= k < |b| ==> IsDigit(b[k]) || b[k] == '_')
    && (forall k :: 0 <= k < |b| - 1 ==> b[k] == '_' ==> IsDigit(b[k + 1]))
  }

  predicate IsSign(c: char) {
    c == '-' || c == '+'
  }

  /** A base-10 literal: an optional sign, then digit groups. */
  predicate IsLiteral(t: string) {
    if t != [] && IsSign(t[0]) then DigitGroups(t[1..]) else DigitGroups(t)
  }

  /** What `int()` accepts: a literal with only whitespace around it. */
  ghost predicate IsIntLiteral(s: string) {
    exists i, j :: PaddedBy(s, i, j) && IsLiteral(s[i..j])
  }

  /** One more digit at the end: what came before is empty, digit groups, or digit groups and one underscore. */
  lemma DigitGroupsSnoc(b: string, d: char)
    requires IsDigit(d)
    ensures DigitGroups(b + [d]) <==>
              b == [] || DigitGroups(b) || (b[|b| - 1] == '_' && DigitGroups(b[..|b| - 1]))
  {
    var c := b + [d];
    if b != [] {
      assert c[0] == b[0];
      forall k | 0 <= k < |b| ensures c[k] == b[k] {}
      if b[|b| - 1] == '_' {
        var a := b[..|b| - 1];
        if DigitGroups(c) {
          assert a != [] by {
            assert c[|b| - 1] == '_';
          }
          assert IsDigit(c[|b| - 2]);
          forall k | 0 <= k < |a| ensures a[k] == c[k] {}
        }
        if DigitGroups(a) {
          forall k | 0 <= k < |c| - 1 && c[k] == '_' ensures IsDigit(c[k + 1]) {
            if k < |a| - 1 {
              assert a[k] == c[k] && a[k + 1] == c[k + 1];
            }
          }
          assert DigitGroups(c);
        }
      }
    }
  }

  /** A literal's ends are a sign or digit and a digit, none of them whitespace. */
  lemma LiteralEnds(t: string)
    requires IsLiteral(t)
    ensures t != [] && !IsSpace(t[0]) && !IsSpace(t[|t| - 1])
  {
    if t != [] && IsSign(t[0]) {
      assert t[1..][|t| - 2] == t[|t| - 1];
    }
  }

  lemma SliceLiteralEnds(s: string, i: int, j: int)
    requires 0 <= i <= j <= |s| && IsLiteral(s[i..j])
    ensures i < j && !IsSpace(s[i]) && !IsSpace(s[j - 1])
  {
    var t := s[i..j];
    LiteralEnds(t);
    assert t[0] == s[i];
    assert t[|t| - 1] == s[j - 1];
  }

  /** `Literal` accepts exactly the literals of the grammar. */
  lemma {:induction false} LiteralGrammar(t: string)
    ensures Literal(t).Some? <==> IsLiteral(t)
    decreases |t|
  {
    if t == [] || !IsDigit(t[|t| - 1]) {
      if t != [] && IsSign(t[0]) {
        assert t[1..] == [] || t[1..][|t| - 2] == t[|t| - 1];
      }
    } else {
      var d := t[|t| - 1];
      var prefix := t[..|t| - 1];
      assert t == prefix + [d];
      if prefix == [] {
        assert DigitGroups(t);
      } else if prefix == "-" || prefix == "+" {
        assert t[1..] == [d];
        assert DigitGroups([d]);
      } else {
        var head := if prefix[|prefix| - 1] == '_' then prefix[..|prefix| - 1] else prefix;
        LiteralGrammar(head);
        if IsSign(t[0]) {
          var b := prefix[1..];
          assert t[1..] == b + [d];
          DigitGroupsSnoc(b, d);
          if head != [] {
            assert head[0] == t[0];
            assert head[1..] == (if prefix[|prefix| - 1] == '_' then b[..|b| - 1] else b);
          }
        } else {
          DigitGroupsSnoc(prefix, d);
          if head != [] {
            assert head[0] == t[0];
          }
        }
      }
    }
  }

  /** `int(s)` succeeds exactly when `s` is a literal with only whitespace around it. */
  lemma ParseIntGrammar(s: string)
    ensures ParseInt(s).Some? <==> IsIntLiteral(s)
  {
    if ParseInt(s).Some? {
      ParsedIsLiteral(s);
    }
    if IsIntLiteral(s) {
      LiteralParses(s);
    }
  }

  lemma ParsedIsLiteral(s: string)
    requires ParseInt(s).Some?
    ensures IsIntLiteral(s)
  {
    var t := Strip(s);
    LiteralGrammar(t);
    var i, j := StripSlice(s);
    assert IsLiteral(s[i..j]);
  }

  lemma LiteralParses(s: string)
    requires IsIntLiteral(s)
    ensures ParseInt(s).Some?
  {
    var i, j :| PaddedBy(s, i, j) && IsLiteral(s[i..j]);
    SliceLiteralEnds(s, i, j);
    StripPadded(s, i, j);
    LiteralGrammar(s[i..j]);
  }

  /** `int(s)` is the signed value of the stripped literal, underscores skipped. */
  lemma ParseIntValue(s: string)
    ensures ParseInt(s).Some? ==> ParseInt(s).value == SignedValue(Strip(s))
  {
    AcceptedValue(Strip(s));
  }

  /** The value of the digits of `b` read left to right in base 10, skipping underscores. */
  function Magnitude(b: string): nat {
    if b == [] then 0
    else if IsDigit(b[|b| - 1]) then Magnitude(b[..|b| - 1]) * 10 + DigitValue(b[|b| - 1])
    else Magnitude(b[..|b| - 1])
  }

  /** The value a literal denotes: its magnitude, negated after a `-`. */
  function SignedValue(t: string): int {
    if t != [] && IsSign(t[0]) then (if t[0] == '-' then -(Magnitude(t[1..]) as int) else Magnitude(t[1..]))
    else Magnitude(t)
  }

  /** `Literal` reads every literal of the grammar as the value it denotes, whatever its sign, leading zeros and underscores. */
  lemma LiteralValue(t: string)
    requires IsLiteral(t)
    ensures Literal(t) == Some(SignedValue(t))
  {
    LiteralGrammar(t);
    AcceptedValue(t);
  }

  /** Whatever `Literal` accepts, it reads as the value the text denotes. */
  lemma {:induction false} AcceptedValue(t: string)
    ensures Literal(t).Some? ==> Literal(t).value == SignedValue(t)
    decreases |t|
  {
    if t != [] && IsDigit(t[|t| - 1]) {
      var prefix := t[..|t| - 1];
      if prefix == [] || prefix == "-" || prefix == "+" {
        SingleDigitValue(t);
      } else {
        var head := if prefix[|prefix| - 1] == '_' then prefix[..|prefix| - 1] else prefix;
        AcceptedValue(head);
        LiteralSnoc(t, head);
        if Literal(head).Some? {
          SignedValueSnoc(t, head);
        }
      }
    }
  }

  /** A lone digit, signed or not, reads as its value. */
  lemma SingleDigitValue(t: string)
    requires t != [] && IsDigit(t[|t| - 1])
    requires var prefix := t[..|t| - 1]; prefix == [] || prefix == "-" || prefix == "+"
    ensures Literal(t) == Some(SignedValue(t))
  {
    var d := t[|t| - 1];
    var prefix := t[..|t| - 1];
    assert t == prefix + [d];
    assert [d][..0] == [];
    assert Magnitude([d]) == DigitValue(d);
    if prefix != [] {
      assert t[0] == prefix[0] && IsSign(t[0]);
      assert t[1..] == [d];
    }
  }

  /** `Literal` on a longer text: the reading of what precedes the last digit, times ten, plus or minus that digit. */
  lemma LiteralSnoc(t: string, head: string)
    requires |t| >= 2 && IsDigit(t[|t| - 1])
    requires var prefix := t[..|t| - 1];
             prefix != "-" && prefix != "+" &&
             head == (if prefix[|prefix| - 1] == '_' then prefix[..|prefix| - 1] else prefix)
    ensures Literal(t).Some? <==> Literal(head).Some?
    ensures Literal(head).Some? ==>
              && head != []
              && Literal(t).value == (if head[0] == '-' then Literal(head).value * 10 - DigitValue(t[|t| - 1])
                                     else Literal(head).value * 10 + DigitValue(t[|t| - 1]))
  {
  }

  /** One more digit multiplies the magnitude by ten and adds the digit. */
  lemma MagnitudeSnoc(b: string, d: char)
    requires IsDigit(d)
    ensures Magnitude(b + [d]) == Magnitude(b) * 10 + DigitValue(d)
  {
    assert (b + [d])[..|b|] == b;
  }

  /** The value of a text of two or more characters, from the value of what precedes its last digit. */
  lemma SignedValueSnoc(t: string, head: string)
    requires |t| >= 2 && IsDigit(t[|t| - 1])
    requires var prefix := t[..|t| - 1];
             prefix != "-" && prefix != "+" &&
             head == (if prefix[|prefix| - 1] == '_' then prefix[..|prefix| - 1] else prefix) &&
             head != []
    ensures SignedValue(t) == if head[0] == '-' then SignedValue(head) * 10 - DigitValue(t[|t| - 1])
                              else SignedValue(head) * 10 + DigitValue(t[|t| - 1])
  {
    var d := t[|t| - 1];
    var prefix := t[..|t| - 1];
    assert t == prefix + [d];
    assert head[0] == t[0];
    if IsSign(t[0]) {
      var b := prefix[1..];
      assert t[1..] == b + [d];
      MagnitudeSnoc(b, d);
      assert head[1..] == (if prefix[|prefix| - 1] == '_' then b[..|b| - 1] else b);
      assert Magnitude(head[1..]) == Magnitude(b);
    } else {
      MagnitudeSnoc(prefix, d);
      assert Magnitude(head) == Magnitude(prefix);
    }
  }


  /** A printed magnitude, with or without a minus sign, reads back as itself. */
  lemma {:induction false} LiteralOfDigits(n: nat, negative: bool)
    ensures Literal((if negative then "-" else "") + Digits(n)) == Some(if negative then -(n as int) else n)
  {
    var sign := if negative then "-" else "";
    var t := sign + Digits(n);
    if n >= 10 {
      LiteralOfDigits(n / 10, negative);
      var head := sign + Digits(n / 10);
      assert t == head + [DigitChar(n % 10)];
      assert t[..|t| - 1] == head;
      assert IsDigit(head[|head| - 1]);
      assert head[0] == '-' <==> negative by {
        if !negative { assert IsDigit(head[0]); }
      }
      NextDigitValue(head, n, negative);
    } else {
      assert t == sign + [DigitChar(n)];
      assert t[..|t| - 1] == sign;
      assert DigitValue(DigitChar(n)) == n;
    }
  }

  /** Appending the last digit of `n` to the reading of `n / 10` reads as `n`, with the sign kept. */
  lemma NextDigitValue(head: string, n: nat, negative: bool)
    requires n >= 10 && head != [] && IsDigit(head[|head| - 1])
    requires head[0] == '-' <==> negative
    requires Literal(head) == Some(if negative then -((n / 10) as int) else n / 10)
    ensures Literal(head + [DigitChar(n % 10)]) == Some(if negative then -(n as int) else n)
  {
    var t := head + [DigitChar(n % 10)];
    assert t[..|t| - 1] == head;
    LiteralSnoc(t, head);
    var q, d := n / 10, n % 10;
    assert DigitValue(DigitChar(d)) == d;
    assert q * 10 + d == n;
  }

  /** `int(str(n)) == n`: reading back a printed number gives the number. */
  lemma ParseDecimal(n: int)
    ensures ParseInt(Decimal(n)) == Some(n)
  {
    var m: nat := if n < 0 then -n else n;
    LiteralOfDigits(m, n < 0);
    assert Decimal(n) == (if n < 0 then "-" else "") + Digits(m);
    ParseUnpadded(Decimal(n));
  }

  /** Text with no whitespace at either end is read by `int()` as it stands. */
  lemma ParseUnpadded(s: string)
    requires s != [] && !IsSpace(s[0]) && !IsSpace(s[|s| - 1])
    ensures ParseInt(s) == Literal(s)
  {
    StripUnpadded(s);
  }

  /** Underscores are allowed only between digits: `1_0` reads as 10, `1__0`, `_1` and `1_` are errors. */
  lemma UnderscoreExamples()
    ensures Literal("1_0") == Some(10) && Literal("-1") == Some(-1)
    ensures Literal("1__0").None? && Literal("_1").None? && Literal("1_").None?
  {
    assert Literal("1") == Some(1);
    assert "-1"[..1] == "-";
    assert "1_0"[..2][..1] == "1";
    assert "1__0"[..3][..2] == "1_";
    assert "_1"[..1] == "_";
    assert "_1"[..1][..0] == [];
  }

  /** Different numbers print differently. */
  lemma DecimalInjective(a: int, b: int)
    requires Decimal(a) == Decimal(b)
    ensures a == b
  {
    ParseDecimal(a);
    ParseDecimal(b);
  }

  /** A character that cannot continue a printed number. */
  predicate EndsNumber(c: char) {
    c != '-' && !IsDigit(c)
  }

  /**
   * A number printed after a fixed prefix and followed by a character that
   * cannot continue it can be read back: `pre + str(a) + ra` and
   * `pre + str(b) + rb` are equal only if `a == b` and `ra == rb`.
   */
  lemma NumberThenDelimiter(pre: string, a: int, ra: string, b: int, rb: string)
    requires ra != [] && EndsNumber(ra[0]) && rb != [] && EndsNumber(rb[0])
    requires pre + Decimal(a) + ra == pre + Decimal(b) + rb
    ensures a == b && ra == rb
  {
    var s := pre + Decimal(a) + ra;
    var t := pre + Decimal(b) + rb;
    var da, db := Decimal(a), Decimal(b);
    assert forall k :: |pre| <= k < |pre| + |da| ==> s[k] == da[k - |pre|] && !EndsNumber(s[k]);
    assert EndsNumber(s[|pre| + |da|]);
    assert forall k :: |pre| <= k < |pre| + |db| ==> t[k] == db[k - |pre|] && !EndsNumber(t[k]);
    assert EndsNumber(t[|pre| + |db|]);
    assert |da| == |db|;
    assert da == s[|pre|..|pre| + |da|] == db;
    DecimalInjective(a, b);
    assert ra == s[|pre| + |da|..] == rb;
  }

  // ---------------------------------------------------------------------
  // split(sep)[1]
  // ---------------------------------------------------------------------

  /** `f` is `rest.split(sep)[0]`: a prefix of `rest` that ends at the first `sep` or at the end. */
  predicate IsFirstField(rest: string, sep: string, f: string) {
    && StartsWith(rest, f)
    && (|f| == |rest| || OccursAt(rest, sep, |f|))
    && forall k :: 0 <= k < |f| ==> !OccursAt(rest, sep, k)
  }

  /**
   * `s.split(sep)[1]`: the text between the first and the second
   * occurrence of `sep`, or from the first to the end; `None` where Python
   * raises IndexError because `sep` does not occur at all.
   */
  function SecondField(s: string, sep: string): (r: Option<string>)
    requires sep != []
    ensures r.None? <==> !Contains(s, sep)
    ensures r.Some? ==> !Contains(r.value, sep)
    ensures r.Some? ==> IsFirstField(s[IndexOf(s, sep).value + |sep|..], sep, r.value)
  {
    match IndexOf(s, sep)
    case None => None
    case Some(i) => Some(FieldFrom(s[i + |sep|..], sep))
  }

  /** `rest.split(sep)[0]`: the text of `rest` up to the first `sep`, or all of it. */
  function FieldFrom(rest: string, sep: string): (f: string)
    requires sep != []
    ensures !Contains(f, sep)
    ensures IsFirstField(rest, sep, f)
  {
    match IndexOf(rest, sep)
    case None => rest
    case Some(j) =>
      var f := rest[..j];
      forall k | OccursAt(f, sep, k) ensures OccursAt(rest, sep, k) && k < j {
        assert f[k..k + |sep|] == rest[k..k + |sep|];
      }
      f
  }

  /** When `sep` occurs first at `i` and never after it, the second field is everything after that first occurrence. */
  lemma SecondFieldIsRest(s: string, sep: string, i: nat)
    requires sep != [] && OccursAt(s, sep, i)
    requires forall j :: 0 <= j < i ==> !OccursAt(s, sep, j)
    requires !Contains(s[i + |sep|..], sep)
    ensures SecondField(s, sep) == Some(s[i + |sep|..])
  {
    var k := IndexOf(s, sep);
    assert k.Some?;
    assert k.value == i;
  }
}
