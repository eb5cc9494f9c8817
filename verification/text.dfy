/**
 * The string operations the analyzer relies on, each modelled on the Python
 * built-in it stands for: `str.count`, `str.split` and `str.join` with a
 * one-character argument, and `str(n)` for a non-negative integer.
 */
module Text {

  /** Number of occurrences of `c` in `s`: Python's `s.count(c)` for a one-character `c`. */
  function CountChar(s: string, c: char): (n: nat)
    ensures n == multiset(s)[c]
  {
    if s == [] then 0
    else
      assert s == [s[0]] + s[1..];
      (if s[0] == c then 1 else 0) + CountChar(s[1..], c)
  }

  lemma CountCharConcat(a: string, b: string, c: char)
    ensures CountChar(a + b, c) == CountChar(a, c) + CountChar(b, c)
  {
    assert multiset(a + b) == multiset(a) + multiset(b);
  }

  /** `sub` occurs in `s` starting at offset `i`. */
  predicate OccursAt(s: string, sub: string, i: nat) {
    i + |sub| <= |s| && s[i..i + |sub|] == sub
  }

  lemma OccursAfterPrefix(h: string, s: string, sub: string, i: nat)
    requires OccursAt(s, sub, i)
    ensures OccursAt(h + s, sub, |h| + i)
  {
    assert (h + s)[|h| + i..|h| + i + |sub|] == s[i..i + |sub|];
  }

  lemma OccursBeforeSuffix(s: string, sub: string, i: nat, t: string)
    requires OccursAt(s, sub, i)
    ensures OccursAt(s + t, sub, i)
  {
    assert (s + t)[i..i + |sub|] == s[i..i + |sub|];
  }

  lemma MiddleOccurs(a: string, b: string, c: string)
    ensures OccursAt(a + b + c, b, |a|)
  {
    assert (a + b + c)[|a|..|a| + |b|] == b;
  }

  /** The last line of `front + (intro + line + "\n")` is `line`. */
  lemma EndsWithLine(front: string, intro: string, line: string)
    ensures var s := front + (intro + line + "\n");
      |line| + 1 <= |s| && OccursAt(s, line, |s| - |line| - 1) && s[|s| - 1] == '\n'
  {
    var s := front + (intro + line + "\n");
    assert s[|s| - |line| - 1..|s| - 1] == line;
  }

  /** `sub` occurs somewhere in `s` (Python's `sub in s`). */
  ghost predicate Mentions(s: string, sub: string) {
    exists i: nat :: OccursAt(s, sub, i)
  }

  /**
   * Python's `s.split(sep)` for a one-character separator: the pieces between
   * consecutive separators, always at least one (`"".split(".") == [""]`).
   */
  function Split(s: string, sep: char): (parts: seq<string>)
    ensures |parts| == CountChar(s, sep) + 1
    ensures forall i :: 0 <= i < |parts| ==> sep !in parts[i]
  {
    if s == [] then [""]
    else
      var rest := Split(s[1..], sep);
      if s[0] == sep then [""] + rest
      else [[s[0]] + rest[0]] + rest[1..]
  }

  /** Python's `sep.join(parts)` for a one-character separator. */
  function Join(parts: seq<string>, sep: char): string
  {
    if |parts| == 0 then ""
    else if |parts| == 1 then parts[0]
    else parts[0] + [sep] + Join(parts[1..], sep)
  }

  lemma JoinCons(p: string, rest: seq<string>, sep: char)
    requires |rest| >= 1
    ensures Join([p] + rest, sep) == p + [sep] + Join(rest, sep)
  {
    assert ([p] + rest)[1..] == rest;
  }

  lemma JoinExtendFirst(x: char, rest: seq<string>, sep: char)
    requires |rest| >= 1
    ensures Join([[x] + rest[0]] + rest[1..], sep) == [x] + Join(rest, sep)
  {
    var parts := [[x] + rest[0]] + rest[1..];
    if |rest| > 1 {
      assert parts[1..] == rest[1..];
      assert Join(rest, sep) == rest[0] + [sep] + Join(rest[1..], sep);
    }
  }

  /** A character in none of the pieces, and not the separator, is not in their join. */
  lemma {:induction false} JoinWithout(parts: seq<string>, sep: char, c: char)
    requires c != sep
    requires forall k :: 0 <= k < |parts| ==> c !in parts[k]
    ensures c !in Join(parts, sep)
  {
    if |parts| > 1 {
      JoinWithout(parts[1..], sep, c);
    }
  }

  /** Joining the pieces of a split gives back the original text. */
  lemma {:induction false} JoinSplit(s: string, sep: char)
    ensures Join(Split(s, sep), sep) == s
  {
    if s != [] {
      var rest := Split(s[1..], sep);
      JoinSplit(s[1..], sep);
      assert s == [s[0]] + s[1..];
      if s[0] == sep {
        JoinCons("", rest, sep);
      } else {
        JoinExtendFirst(s[0], rest, sep);
      }
    }
  }

  lemma {:induction false} SplitNoSeparator(p: string, sep: char)
    requires sep !in p
    ensures Split(p, sep) == [p]
  {
    if p != [] {
      SplitNoSeparator(p[1..], sep);
      assert [p[0]] + p[1..] == p;
    }
  }

  lemma {:induction false} SplitAfterPiece(p: string, rest: string, sep: char)
    requires sep !in p
    ensures Split(p + [sep] + rest, sep) == [p] + Split(rest, sep)
  {
    var s := p + [sep] + rest;
    if p == [] {
      assert s[1..] == rest;
    } else {
      assert s[1..] == p[1..] + [sep] + rest;
      SplitAfterPiece(p[1..], rest, sep);
      assert [p[0]] + p[1..] == p;
    }
  }

  /** Splitting a join of separator-free pieces gives back exactly those pieces, in order. */
  lemma {:induction false} SplitJoin(parts: seq<string>, sep: char)
    requires |parts| >= 1
    requires forall i :: 0 <= i < |parts| ==> sep !in parts[i]
    ensures Split(Join(parts, sep), sep) == parts
  {
    if |parts| == 1 {
      SplitNoSeparator(parts[0], sep);
    } else {
      SplitJoin(parts[1..], sep);
      SplitAfterPiece(parts[0], Join(parts[1..], sep), sep);
      assert [parts[0]] + parts[1..] == parts;
    }
  }

  /** A join of two or more pieces ends with the separator followed by the last piece. */
  lemma {:induction false} JoinLast(parts: seq<string>, sep: char)
    requires |parts| >= 2
    ensures Join(parts, sep) == Join(parts[..|parts| - 1], sep) + [sep] + parts[|parts| - 1]
  {
    if |parts| > 2 {
      JoinLast(parts[1..], sep);
      assert parts[1..][..|parts| - 2] == parts[..|parts| - 1][1..];
    }
  }

  /** The pieces written one after another (Python's `"".join(parts)`, or repeated `+=`). */
  function Concat(parts: seq<string>): string
  {
    if parts == [] then "" else Concat(parts[..|parts| - 1]) + parts[|parts| - 1]
  }

  lemma AppendAssoc(a: string, b: string, c: string)
    ensures (a + b) + c == a + (b + c)
  {
  }

  lemma ConcatSnoc(xs: seq<string>, x: string)
    ensures Concat(xs + [x]) == Concat(xs) + x
  {
    assert (xs + [x])[..|xs|] == xs;
  }

  lemma {:induction false} ConcatAppend(xs: seq<string>, ys: seq<string>)
    ensures Concat(xs + ys) == Concat(xs) + Concat(ys)
    decreases |ys|
  {
    if ys == [] {
      assert xs + ys == xs;
    } else {
      var n := |ys| - 1;
      ConcatAppend(xs, ys[..n]);
      assert (xs + ys)[..|xs + ys| - 1] == xs + ys[..n];
    }
  }

  /** In a concatenation the i-th piece starts right after the pieces before it. */
  lemma ConcatPlacement(parts: seq<string>, i: nat)
    requires i < |parts|
    ensures OccursAt(Concat(parts), parts[i], |Concat(parts[..i])|)
  {
    assert parts == parts[..i + 1] + parts[i + 1..];
    ConcatAppend(parts[..i + 1], parts[i + 1..]);
    assert parts[..i + 1][..i] == parts[..i];
  }

  /** When `sep` occurs in `s`, the last piece of the split is the separator-free text after its last occurrence. */
  lemma LastPiece(s: string, sep: char)
    requires sep in s
    ensures var last := Split(s, sep)[CountChar(s, sep)];
      sep !in last && |last| < |s| && s[|s| - |last| - 1..] == [sep] + last
  {
    var parts := Split(s, sep);
    var n := CountChar(s, sep);
    assert multiset(s)[sep] > 0;
    JoinSplit(s, sep);
    JoinLast(parts, sep);
    var head := Join(parts[..n], sep);
    var tail := [sep] + parts[n];
    AppendAssoc(head, [sep], parts[n]);
    assert s == head + tail;
    assert s[|head|..] == tail;
  }

  /** At most one separator-free text follows a separator at the end of `s`. */
  lemma SuffixAfterLastUnique(s: string, sep: char, b: string, t: string)
    requires sep !in b && |b| < |s| && s[|s| - |b| - 1..] == [sep] + b
    requires sep !in t && |t| < |s| && s[|s| - |t| - 1..] == [sep] + t
    ensures b == t
  {
    assert |b| == |t|;
    assert b == ([sep] + b)[1..] == ([sep] + t)[1..] == t;
  }

  /** The decimal digit `d` as a character. */
  function DigitChar(d: nat): (c: char)
    requires d < 10
  {
    ('0' as int + d) as char
  }

  /** Python's `str(n)` for a non-negative integer: decimal digits, no leading zero. */
  function NatToString(n: nat): (s: string)
    ensures |s| >= 1
    ensures forall i :: 0 <= i < |s| ==> '0' <= s[i] <= '9'
    ensures s[0] == '0' ==> n == 0
  {
    if n < 10 then [DigitChar(n)] else NatToString(n / 10) + [DigitChar(n % 10)]
  }

  /** The value of a string of decimal digits (Python's `int(s)` on such a string). */
  function ParseNat(s: string): nat
    requires forall i :: 0 <= i < |s| ==> '0' <= s[i] <= '9'
  {
    if s == [] then 0
    else 10 * ParseNat(s[..|s| - 1]) + (s[|s| - 1] as int - '0' as int)
  }

  /** Rendering a count in decimal loses nothing: reading the digits back gives the count. */
  lemma {:induction false} ParseNatToString(n: nat)
    ensures ParseNat(NatToString(n)) == n
  {
    if n >= 10 {
      ParseNatToString(n / 10);
      var s := NatToString(n);
      assert s[..|s| - 1] == NatToString(n / 10);
    }
  }
}
