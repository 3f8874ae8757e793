/**
 * The handful of Python `str` builtins the analytics code relies on, restricted
 * to ASCII text: `isspace` (and the regular-expression class `\s`), `lower`,
 * `split()` without arguments, `strip(chars)`, `sep.join`, and the substring
 * test `p in s`.
 */
module PyText {

  /** ASCII whitespace as Python's `str.isspace` and `re`'s `\s` see it:
      tab, line feed, vertical tab, form feed, carriage return, the four
      information separators 0x1C-0x1F, and the space. */
  predicate IsSpace(c: char) {
    c == ' ' || ('\t' <= c <= '\r') || ('\U{1C}' <= c <= '\U{1F}')
  }

  predicate IsUpper(c: char) { 'A' <= c <= 'Z' }

  /** `str.lower` on one character; characters outside A-Z are unchanged. */
  function LowerChar(c: char): (d: char)
    ensures !IsUpper(d)
    ensures IsUpper(c) ==> d as int == c as int + 32
    ensures !IsUpper(c) ==> d == c
  {
    if IsUpper(c) then (c as int + 32) as char else c
  }

  /** `str.lower`. */
  function Lower(s: string): (r: string)
    ensures |r| == |s|
    ensures forall i :: 0 <= i < |s| ==> r[i] == LowerChar(s[i])
  {
    seq(|s|, i requires 0 <= i < |s| => LowerChar(s[i]))
  }

  /** `lower` works character by character, so it distributes over
      concatenation. */
  lemma LowerConcat(a: string, b: string)
    ensures Lower(a + b) == Lower(a) + Lower(b)
  {
    var l, r := Lower(a + b), Lower(a) + Lower(b);
    forall i | 0 <= i < |l| ensures l[i] == r[i] {
      if i < |a| {
        assert (a + b)[i] == a[i];
      } else {
        assert (a + b)[i] == b[i - |a|];
      }
    }
  }

  /** Lower-casing twice is lower-casing once, and a lower-cased string has no
      upper-case letters. */
  lemma LowerIdempotent(s: string)
    ensures Lower(Lower(s)) == Lower(s)
    ensures forall i :: 0 <= i < |s| ==> !IsUpper(Lower(s)[i])
  {
    LowerWithoutUpper(Lower(s));
  }

  /** Number of leading characters of `s` that satisfy (`space`) or fail
      (`!space`) `IsSpace`. */
  function RunLength(s: string, space: bool): (n: nat)
    ensures n <= |s|
  {
    if s == [] || IsSpace(s[0]) != space then 0 else 1 + RunLength(s[1..], space)
  }

  /** The run is maximal: every character in it has the property, the one
      after it does not. */
  lemma {:induction false} RunLengthFacts(s: string, space: bool)
    ensures forall i :: 0 <= i < RunLength(s, space) ==> IsSpace(s[i]) == space
    ensures RunLength(s, space) < |s| ==> IsSpace(s[RunLength(s, space)]) != space
  {
    if s != [] && IsSpace(s[0]) == space {
      RunLengthFacts(s[1..], space);
    }
  }

  /** `str.split()` with no separator: the maximal runs of non-whitespace
      characters, in order; leading, trailing and repeated whitespace
      produce no empty strings. */
  function Split(s: string): (ws: seq<string>)
    decreases |s|
  {
    var t := s[RunLength(s, true)..];
    if t == [] then []
    else
      var n := RunLength(t, false);
      [t[..n]] + Split(t[n..])
  }

  /** Every word `split()` returns is non-empty and free of whitespace. */
  lemma {:induction false} SplitWords(s: string)
    ensures forall k :: 0 <= k < |Split(s)| ==> Split(s)[k] != [] && forall i :: 0 <= i < |Split(s)[k]| ==> !IsSpace(Split(s)[k][i])
    decreases |s|
  {
    var t := s[RunLength(s, true)..];
    if t != [] {
      var n := RunLength(t, false);
      RunLengthFacts(s, true);
      RunLengthFacts(t, false);
      SplitWords(t[n..]);
    }
  }

  /** A word followed by a space splits with that word first. */
  lemma {:induction false} SplitFirstWord(w: string, rest: string)
    requires w != [] && forall i :: 0 <= i < |w| ==> !IsSpace(w[i])
    ensures Split(w + " " + rest) != [] && Split(w + " " + rest)[0] == w
  {
    var s := w + " " + rest;
    assert RunLength(s, true) == 0 by { assert s[0] == w[0]; }
    assert s[|w|] == ' ';
    RunLengthStops(s, |w|);
    assert s[..|w|] == w;
  }

  lemma {:induction false} RunLengthStops(s: string, k: nat)
    requires k < |s| && IsSpace(s[k])
    requires forall i :: 0 <= i < k ==> !IsSpace(s[i])
    ensures RunLength(s, false) == k
  {
    if k > 0 {
      RunLengthStops(s[1..], k - 1);
    }
  }

  /** A non-empty string without whitespace splits into itself. */
  lemma SplitOneWord(w: string)
    requires w != [] && forall i :: 0 <= i < |w| ==> !IsSpace(w[i])
    ensures Split(w) == [w]
  {
    assert RunLength(w, true) == 0;
    RunLengthWhole(w);
    assert w[|w|..] == [] && w[..|w|] == w;
  }

  lemma {:induction false} RunLengthWhole(s: string)
    requires forall i :: 0 <= i < |s| ==> !IsSpace(s[i])
    ensures RunLength(s, false) == |s|
  {
    if s != [] {
      RunLengthWhole(s[1..]);
    }
  }

  /** `"".split()` is empty. */
  lemma SplitEmpty()
    ensures Split("") == []
  {
    assert RunLength("", true) == 0;
  }

  /** Leading whitespace is skipped. */
  lemma SplitSpaceFirst(s: string)
    requires s != [] && IsSpace(s[0])
    ensures Split(s) == Split(s[1..])
  {
    assert s[RunLength(s, true)..] == s[1..][RunLength(s[1..], true)..];
  }

  /** A string that starts with a word splits into that word and the split
      of what follows it. */
  lemma SplitWordFirst(s: string)
    requires s != [] && !IsSpace(s[0])
    ensures var n := RunLength(s, false);
      Split(s) == [s[..n]] + Split(s[n..])
  {
    assert RunLength(s, true) == 0;
    assert s[0..] == s;
  }

  /** Splitting at a whitespace character: the words of `a + [c] + b` are
      those of `a` followed by those of `b`. */
  lemma SplitAtSpace(a: string, c: char, b: string)
    requires IsSpace(c)
    ensures Split(a + [c] + b) == Split(a) + Split(b)
  {
    var s := a + [c] + b;
    assert s[..|a|] == a && s[|a| + 1..] == b && s[|a|] == c;
    SplitAt(s, |a|);
  }

  /** The same, as positions: whitespace at `k` separates the words before
      it from the words after it. */
  lemma {:induction false} SplitAt(s: string, k: nat)
    requires k < |s| && IsSpace(s[k])
    ensures Split(s) == Split(s[..k]) + Split(s[k + 1..])
    decreases k
  {
    if IsSpace(s[0]) {
      if k == 0 {
        SplitSpaceAtZero(s);
      } else {
        assert s[1..][k - 1] == s[k];
        SplitAt(s[1..], k - 1);
        SplitSpaceThenAt(s, k);
      }
    } else {
      var n := FirstWordEnd(s, k);
      if n < k {
        assert s[n..][k - n] == s[k];
        SplitAt(s[n..], k - n);
        SplitWordThenAt(s, k, n);
      } else {
        SplitWordUpTo(s, k);
      }
    }
  }

  /** `SplitAt` at position 0. */
  lemma SplitSpaceAtZero(s: string)
    requires 0 < |s| && IsSpace(s[0])
    ensures Split(s) == Split(s[..0]) + Split(s[1..])
  {
    SplitSpaceFirst(s);
    assert s[..0] == [];
    SplitEmpty();
  }

  /** Where the first word of `s` ends, when `s` starts with a word and has
      whitespace at `k`. */
  lemma FirstWordEnd(s: string, k: nat) returns (n: nat)
    requires k < |s| && IsSpace(s[k]) && !IsSpace(s[0])
    ensures 0 < n <= k && IsSpace(s[n])
    ensures forall i :: 0 <= i < n ==> !IsSpace(s[i])
  {
    n := RunLength(s, false);
    RunLengthFacts(s, false);
  }

  /** The step of `SplitAt` when whitespace starts `s` and `k > 0`. */
  lemma SplitSpaceThenAt(s: string, k: nat)
    requires 0 < k < |s| && IsSpace(s[0])
    requires Split(s[1..]) == Split(s[1..][..k - 1]) + Split(s[1..][k..])
    ensures Split(s) == Split(s[..k]) + Split(s[k + 1..])
  {
    SplitSpaceFirst(s);
    SplitSpaceFirst(s[..k]);
    assert s[1..][..k - 1] == s[..k][1..] && s[1..][k..] == s[k + 1..];
  }

  /** The step of `SplitAt` when a word of `n` characters starts `s` and ends
      before `k`. */
  lemma SplitWordThenAt(s: string, k: nat, n: nat)
    requires 0 < n < k < |s| && IsSpace(s[n])
    requires forall i :: 0 <= i < n ==> !IsSpace(s[i])
    requires Split(s[n..]) == Split(s[n..][..k - n]) + Split(s[n..][k - n + 1..])
    ensures Split(s) == Split(s[..k]) + Split(s[k + 1..])
  {
    SplitWordAt(s, n);
    SplitWordWithin(s, k, n);
    assert s[n..][k - n + 1..] == s[k + 1..];
    Regroup(Split(s), Split(s[n..]), Split(s[..k]), Split(s[n..][..k - n]), Split(s[k + 1..]), s[..n]);
  }

  /** Regrouping two splits that share their first element. */
  lemma Regroup<T>(all: seq<T>, tail: seq<T>, left: seq<T>, mid: seq<T>, right: seq<T>, first: T)
    requires all == [first] + tail && left == [first] + mid && tail == mid + right
    ensures all == left + right
  {
  }

  /** The first word ends before `k`: it is also the first word of `s[..k]`. */
  lemma SplitWordWithin(s: string, k: nat, n: nat)
    requires 0 < n < k < |s| && IsSpace(s[n])
    requires forall i :: 0 <= i < n ==> !IsSpace(s[i])
    ensures Split(s[..k]) == [s[..n]] + Split(s[n..][..k - n])
  {
    var t := s[..k];
    assert t[n] == s[n] && forall i :: 0 <= i < n ==> t[i] == s[i];
    SplitWordAt(t, n);
    assert t[..n] == s[..n] && t[n..] == s[n..][..k - n];
  }

  /** The first word is all of `s[..k]` and whitespace at `k` follows it. */
  lemma SplitWordUpTo(s: string, k: nat)
    requires 0 < k < |s| && IsSpace(s[k])
    requires forall i :: 0 <= i < k ==> !IsSpace(s[i])
    ensures Split(s) == Split(s[..k]) + Split(s[k + 1..])
  {
    SplitWordAt(s, k);
    SplitOneWord(s[..k]);
    SplitSpaceFirst(s[k..]);
    assert s[k..][1..] == s[k + 1..];
  }

  /** A word of `n` characters followed by whitespace is split off. */
  lemma SplitWordAt(s: string, n: nat)
    requires 0 < n < |s| && IsSpace(s[n])
    requires forall i :: 0 <= i < n ==> !IsSpace(s[i])
    ensures Split(s) == [s[..n]] + Split(s[n..])
  {
    RunLengthStops(s, n);
    SplitWordFirst(s);
  }

  /** `p` is a prefix of `s`. */
  predicate IsPrefix(p: string, s: string) {
    |p| <= |s| && s[..|p|] == p
  }

  /** Python's substring test `p in s`. */
  predicate IsSubstring(p: string, s: string)
    decreases |s|
  {
    IsPrefix(p, s) || (s != [] && IsSubstring(p, s[1..]))
  }

  /** `p` occurs in `s` starting at offset `i`. */
  predicate OccursAt(p: string, s: string, i: int) {
    0 <= i <= |s| - |p| && s[i..i + |p|] == p
  }

  /** The substring test agrees with its positional meaning: `p` occurs at some
      offset of `s`. */
  lemma {:induction false} IsSubstringAt(p: string, s: string)
    ensures IsSubstring(p, s) <==> exists i :: OccursAt(p, s, i)
    decreases |s|
  {
    if IsPrefix(p, s) {
      assert OccursAt(p, s, 0);
    } else if s == [] {
    } else {
      IsSubstringAt(p, s[1..]);
      if exists i :: OccursAt(p, s, i) {
        var i :| OccursAt(p, s, i);
        assert i != 0;
        assert s[1..][i - 1..i - 1 + |p|] == s[i..i + |p|];
        assert OccursAt(p, s[1..], i - 1);
      }
      if exists j :: OccursAt(p, s[1..], j) {
        var j :| OccursAt(p, s[1..], j);
        assert s[j + 1..j + 1 + |p|] == s[1..][j..j + |p|];
        assert OccursAt(p, s, j + 1);
      }
    }
  }

  /** `sep.join(xs)`. */
  function Join(sep: string, xs: seq<string>): (r: string)
    decreases |xs|
  {
    if xs == [] then "" else if |xs| == 1 then xs[0] else xs[0] + sep + Join(sep, xs[1..])
  }

  /** The words of each string in turn. */
  function SplitEach(xs: seq<string>): seq<string>
    decreases |xs|
  {
    if xs == [] then [] else Split(xs[0]) + SplitEach(xs[1..])
  }

  /** `" ".join(xs).split()` is the words of each string in turn: joining
      with a space neither merges nor breaks words. */
  lemma {:induction false} SplitJoin(xs: seq<string>)
    ensures Split(Join(" ", xs)) == SplitEach(xs)
    decreases |xs|
  {
    if xs == [] {
      SplitEmpty();
    } else if |xs| == 1 {
      assert xs[1..] == [];
      assert Split(xs[0]) + [] == Split(xs[0]);
    } else {
      SplitJoin(xs[1..]);
      assert xs[0] + " " + Join(" ", xs[1..]) == xs[0] + [' '] + Join(" ", xs[1..]);
      SplitAtSpace(xs[0], ' ', Join(" ", xs[1..]));
    }
  }

  /** Splitting one more string adds its words at the end. */
  lemma {:induction false} SplitEachAppend(xs: seq<string>, x: string)
    ensures SplitEach(xs + [x]) == SplitEach(xs) + Split(x)
    decreases |xs|
  {
    if xs == [] {
      assert [x][1..] == [];
      assert Split(x) + [] == Split(x);
    } else {
      assert (xs + [x])[1..] == xs[1..] + [x];
      SplitEachAppend(xs[1..], x);
    }
  }

  /** `s.lstrip(chars)`. */
  function StripLeft(s: string, chars: set<char>): (r: string)
    ensures |r| <= |s| && r == s[|s| - |r|..]
    ensures r == [] || r[0] !in chars
    ensures forall i :: 0 <= i < |s| - |r| ==> s[i] in chars
  {
    if s != [] && s[0] in chars then StripLeft(s[1..], chars) else s
  }

  /** `s.rstrip(chars)`. */
  function StripRight(s: string, chars: set<char>): (r: string)
    ensures |r| <= |s| && r == s[..|r|]
    ensures r == [] || r[|r| - 1] !in chars
    ensures forall i :: |r| <= i < |s| ==> s[i] in chars
  {
    if s != [] && s[|s| - 1] in chars then StripRight(s[..|s| - 1], chars) else s
  }

  /** `s.strip(chars)`: remove every leading and trailing character in `chars`. */
  function Strip(s: string, chars: set<char>): string {
    StripRight(StripLeft(s, chars), chars)
  }

  /** Stripping a string made only of stripped characters leaves nothing. */
  lemma StripEverything(s: string, chars: set<char>)
    requires forall i :: 0 <= i < |s| ==> s[i] in chars
    ensures Strip(s, chars) == []
  {
    assert |StripLeft(s, chars)| == 0;
  }

  /** Lower-casing leaves a string without upper-case letters unchanged. */
  lemma LowerWithoutUpper(s: string)
    requires forall i :: 0 <= i < |s| ==> !IsUpper(s[i])
    ensures Lower(s) == s
  {
  }

  /** `a` is an order-preserving subsequence of `b`. */
  predicate IsSubsequence<T(==)>(a: seq<T>, b: seq<T>)
    decreases |b|
  {
    if a == [] then true
    else if b == [] then false
    else if a[0] == b[0] then IsSubsequence(a[1..], b[1..])
    else IsSubsequence(a, b[1..])
  }

  /** Every prefix of a subsequence is a subsequence. */
  lemma {:induction false} SubsequencePrefix<T>(a: seq<T>, b: seq<T>, k: nat)
    requires IsSubsequence(a, b) && k <= |a|
    ensures IsSubsequence(a[..k], b)
    decreases |b|
  {
    if k == 0 || a == [] {
    } else if a[0] == b[0] {
      SubsequencePrefix(a[1..], b[1..], k - 1);
      assert a[..k][1..] == a[1..][..k - 1];
    } else {
      SubsequencePrefix(a, b[1..], k);
    }
  }

  /** Appending an element on both sides keeps a subsequence. */
  lemma {:induction false} SubsequenceExtend<T>(a: seq<T>, b: seq<T>, x: T)
    requires IsSubsequence(a, b)
    ensures IsSubsequence(a + [x], b + [x])
    decreases |b|
  {
    if a == [] {
      SubsequenceOfSingleton(x, b);
      assert a + [x] == [x];
    } else if a[0] == b[0] {
      SubsequenceExtend(a[1..], b[1..], x);
      assert (a + [x])[1..] == a[1..] + [x];
      assert (b + [x])[1..] == b[1..] + [x];
    } else {
      SubsequenceExtend(a, b[1..], x);
      assert (b + [x])[1..] == b[1..] + [x];
    }
  }

  lemma {:induction false} SubsequenceOfSingleton<T>(x: T, b: seq<T>)
    ensures IsSubsequence([x], b + [x])
    decreases |b|
  {
    if b != [] && b[0] != x {
      SubsequenceOfSingleton(x, b[1..]);
      assert (b + [x])[1..] == b[1..] + [x];
    }
  }

  /** Appending an element on the right only keeps a subsequence. */
  lemma {:induction false} SubsequenceGrow<T>(a: seq<T>, b: seq<T>, x: T)
    requires IsSubsequence(a, b)
    ensures IsSubsequence(a, b + [x])
    decreases |b|
  {
    if a == [] {
    } else if a[0] == b[0] {
      SubsequenceGrow(a[1..], b[1..], x);
      assert (b + [x])[1..] == b[1..] + [x];
    } else {
      SubsequenceGrow(a, b[1..], x);
      assert (b + [x])[1..] == b[1..] + [x];
    }
  }
}
