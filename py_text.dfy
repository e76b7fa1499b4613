/**
 * The parts of Python's `str` that the pipeline relies on: whitespace as
 * `str.isspace`, `str.split()` with no separator, `' '.join`, `str.lower`
 * and the character filter that `re.sub(r'[^...]', '', s)` performs.
 */
module PyText {

  /**
   * Python's whitespace (`str.isspace`, the class `\s` of `re` on `str`
   * patterns, and the separators of `str.split()`).
   */
  predicate IsSpace(c: char) {
    var n := c as int;
    n == 0x20 || (0x09 <= n <= 0x0d) || (0x1c <= n <= 0x1f) || n == 0x85 || n == 0xa0
    || n == 0x1680 || (0x2000 <= n <= 0x200a) || n == 0x2028 || n == 0x2029
    || n == 0x202f || n == 0x205f || n == 0x3000
  }

  predicate NotSpace(c: char) {
    !IsSpace(c)
  }

  /** The class `[a-zA-Z]`. */
  predicate IsAsciiLetter(c: char) {
    ('a' <= c <= 'z') || ('A' <= c <= 'Z')
  }

  predicate IsLowerLetter(c: char) {
    'a' <= c <= 'z'
  }

  /** `str.lower` on one character; only ASCII capitals change (see `Lower`). */
  function LowerChar(c: char): (d: char)
    ensures IsAsciiLetter(c) ==> IsLowerLetter(d)
    ensures IsSpace(d) == IsSpace(c)
    ensures IsLowerLetter(c) ==> d == c
    ensures c == ' ' ==> d == ' '
  {
    if 'A' <= c <= 'Z' then (c as int - 'A' as int + 'a' as int) as char else c
  }

  /**
   * `str.lower`, modelled on ASCII: the pipeline applies it only to strings
   * made of ASCII letters and spaces.
   */
  function Lower(s: string): (r: string)
    ensures |r| == |s|
    ensures forall i :: 0 <= i < |s| ==> r[i] == LowerChar(s[i])
  {
    seq(|s|, i requires 0 <= i < |s| => LowerChar(s[i]))
  }

  /** The characters of `s` that satisfy `keep`, in order. */
  function Filter(s: string, keep: char -> bool): (r: string)
    ensures |r| <= |s|
    ensures forall i :: 0 <= i < |r| ==> keep(r[i])
  {
    if s == [] then []
    else (if keep(s[0]) then [s[0]] else []) + Filter(s[1..], keep)
  }

  /** A token of `str.split()`: non-empty and free of whitespace. */
  predicate IsWord(w: string) {
    |w| > 0 && forall i :: 0 <= i < |w| ==> !IsSpace(w[i])
  }

  /** Length of the longest whitespace-free prefix of `s`. */
  function WordLength(s: string): (n: nat)
    ensures n <= |s|
    ensures forall i :: 0 <= i < n ==> !IsSpace(s[i])
    ensures n < |s| ==> IsSpace(s[n])
  {
    if s == [] || IsSpace(s[0]) then 0 else 1 + WordLength(s[1..])
  }

  /** `s.split()`: the maximal whitespace-free runs of `s`, in order. */
  function Split(s: string): (words: seq<string>)
    ensures forall k :: 0 <= k < |words| ==> IsWord(words[k])
    decreases |s|
  {
    if s == [] then []
    else if IsSpace(s[0]) then Split(s[1..])
    else
      var n := WordLength(s);
      [s[..n]] + Split(s[n..])
  }

  /** `' '.join(words)`. */
  function Join(words: seq<string>): string {
    if words == [] then ""
    else if |words| == 1 then words[0]
    else words[0] + " " + Join(words[1..])
  }

  /** `''.join(words)`. */
  function Concat(words: seq<string>): string {
    if words == [] then "" else words[0] + Concat(words[1..])
  }

  function LowerAll(words: seq<string>): (r: seq<string>)
    ensures |r| == |words|
    ensures forall k :: 0 <= k < |words| ==> r[k] == Lower(words[k])
  {
    seq(|words|, k requires 0 <= k < |words| => Lower(words[k]))
  }

  // ----- Filter -----

  lemma {:induction false} FilterAppend(a: string, b: string, keep: char -> bool)
    ensures Filter(a + b, keep) == Filter(a, keep) + Filter(b, keep)
  {
    if a == [] {
      assert a + b == b;
    } else {
      assert (a + b)[0] == a[0];
      assert (a + b)[1..] == a[1..] + b;
      FilterAppend(a[1..], b, keep);
    }
  }

  lemma {:induction false} FilterKeepsAll(s: string, keep: char -> bool)
    requires forall i :: 0 <= i < |s| ==> keep(s[i])
    ensures Filter(s, keep) == s
  {
    if s != [] {
      FilterKeepsAll(s[1..], keep);
    }
  }

  lemma {:induction false} FilterEmpty(s: string, keep: char -> bool)
    ensures Filter(s, keep) == [] <==> forall i :: 0 <= i < |s| ==> !keep(s[i])
  {
    if s != [] {
      FilterEmpty(s[1..], keep);
      if Filter(s, keep) == [] {
        assert !keep(s[0]);
      }
    }
  }

  lemma {:induction false} FilterCongruent(s: string, p: char -> bool, q: char -> bool)
    requires forall i :: 0 <= i < |s| ==> p(s[i]) == q(s[i])
    ensures Filter(s, p) == Filter(s, q)
  {
    if s != [] {
      FilterCongruent(s[1..], p, q);
    }
  }

  /** Filtering twice is filtering once by the conjunction. */
  lemma {:induction false} FilterFilter(s: string, p: char -> bool, q: char -> bool, both: char -> bool)
    requires forall i :: 0 <= i < |s| ==> both(s[i]) == (p(s[i]) && q(s[i]))
    ensures Filter(Filter(s, p), q) == Filter(s, both)
  {
    if s != [] {
      FilterFilter(s[1..], p, q, both);
      var head := if p(s[0]) then [s[0]] else [];
      FilterAppend(head, Filter(s[1..], p), q);
      if p(s[0]) {
        assert Filter(head, q) == (if q(s[0]) then [s[0]] else []) + Filter([], q);
      }
    }
  }

  lemma LowerAppend(a: string, b: string)
    ensures Lower(a + b) == Lower(a) + Lower(b)
  {
  }

  /** Lowering does not change which characters are whitespace, so it commutes with dropping them. */
  lemma {:induction false} FilterLower(s: string)
    ensures Filter(Lower(s), NotSpace) == Lower(Filter(s, NotSpace))
  {
    if s != [] {
      FilterLower(s[1..]);
      assert Lower(s) == [LowerChar(s[0])] + Lower(s[1..]);
      assert Lower(s)[1..] == Lower(s[1..]);
      var head := if NotSpace(s[0]) then [s[0]] else [];
      LowerAppend(head, Filter(s[1..], NotSpace));
    }
  }

  // ----- Split -----

  lemma {:induction false} WordLengthOf(w: string, t: string)
    requires forall i :: 0 <= i < |w| ==> !IsSpace(w[i])
    requires t == [] || IsSpace(t[0])
    ensures WordLength(w + t) == |w|
  {
    if w == [] {
      assert w + t == t;
    } else {
      assert (w + t)[1..] == w[1..] + t;
      WordLengthOf(w[1..], t);
    }
  }

  /** A word followed by a separator (or nothing) is split off as the first token. */
  lemma SplitWordThen(w: string, t: string)
    requires IsWord(w)
    requires t == [] || IsSpace(t[0])
    ensures Split(w + t) == [w] + Split(t)
  {
    WordLengthOf(w, t);
    assert (w + t)[..|w|] == w;
    assert (w + t)[|w|..] == t;
  }

  /** Leading whitespace adds no token. */
  lemma {:induction false} SplitSpaces(sp: string, t: string)
    requires forall i :: 0 <= i < |sp| ==> IsSpace(sp[i])
    ensures Split(sp + t) == Split(t)
  {
    if sp == [] {
      assert sp + t == t;
    } else {
      var s := sp + t;
      assert s[0] == sp[0] && IsSpace(s[0]);
      assert s[1..] == sp[1..] + t;
      SplitSpaces(sp[1..], t);
    }
  }

  /** Every whitespace-free character of `s` is in some token, in order: the tokens concatenate to `s` without its whitespace. */
  lemma {:induction false} SplitConcat(s: string)
    ensures Concat(Split(s)) == Filter(s, NotSpace)
    decreases |s|
  {
    if s == [] {
    } else if IsSpace(s[0]) {
      SplitConcat(s[1..]);
    } else {
      var n := WordLength(s);
      var rest := Split(s[n..]);
      assert Split(s) == [s[..n]] + rest;
      assert ([s[..n]] + rest)[1..] == rest;
      SplitConcat(s[n..]);
      assert s == s[..n] + s[n..];
      FilterAppend(s[..n], s[n..], NotSpace);
      FilterKeepsAll(s[..n], NotSpace);
    }
  }

  /** `s.split()` is empty exactly when `s` is all whitespace (including `""`). */
  lemma SplitEmpty(s: string)
    ensures Split(s) == [] <==> forall i :: 0 <= i < |s| ==> IsSpace(s[i])
  {
    SplitConcat(s);
    FilterEmpty(s, NotSpace);
    var words := Split(s);
    if words != [] {
      assert IsWord(words[0]);
      assert Concat(words) == words[0] + Concat(words[1..]);
    }
  }

  /** A property of every character of `s` holds of every character of every token. */
  lemma {:induction false} SplitChars(s: string, p: char -> bool)
    requires forall i :: 0 <= i < |s| ==> p(s[i])
    ensures forall k, i :: 0 <= k < |Split(s)| && 0 <= i < |Split(s)[k]| ==> p(Split(s)[k][i])
    decreases |s|
  {
    if s == [] {
    } else if IsSpace(s[0]) {
      SplitChars(s[1..], p);
    } else {
      var n := WordLength(s);
      SplitChars(s[n..], p);
      var words := Split(s);
      assert words == [s[..n]] + Split(s[n..]);
      forall k, i | 0 <= k < |words| && 0 <= i < |words[k]| ensures p(words[k][i]) {
        if k > 0 {
          assert words[k] == Split(s[n..])[k - 1];
        }
      }
    }
  }

  // ----- Join -----

  /** Splitting a space-joined list of tokens gives the tokens back. */
  lemma {:induction false} SplitJoin(words: seq<string>)
    requires forall k :: 0 <= k < |words| ==> IsWord(words[k])
    ensures Split(Join(words)) == words
  {
    if words == [] {
    } else if |words| == 1 {
      SplitWordThen(words[0], "");
      assert words[0] + "" == words[0];
    } else {
      var rest := Join(words[1..]);
      SplitJoin(words[1..]);
      assert words[0] + " " + rest == words[0] + (" " + rest);
      SplitWordThen(words[0], " " + rest);
      assert (" " + rest)[1..] == rest;
      assert Split(" " + rest) == Split(rest);
      assert [words[0]] + words[1..] == words;
    }
  }

  /** Dropping the whitespace of a token, a space and a rest keeps the token and the rest's non-whitespace. */
  lemma FilterWordSpace(w: string, rest: string)
    requires IsWord(w)
    ensures Filter(w + " " + rest, NotSpace) == w + Filter(rest, NotSpace)
  {
    assert w + " " + rest == w + (" " + rest);
    FilterAppend(w, " " + rest, NotSpace);
    FilterAppend(" ", rest, NotSpace);
    FilterKeepsAll(w, NotSpace);
    assert Filter(" ", NotSpace) == [];
  }

  /** Dropping the whitespace of a space-joined list of tokens concatenates them. */
  lemma {:induction false} JoinConcat(words: seq<string>)
    requires forall k :: 0 <= k < |words| ==> IsWord(words[k])
    ensures Filter(Join(words), NotSpace) == Concat(words)
  {
    if words == [] {
    } else if |words| == 1 {
      FilterKeepsAll(words[0], NotSpace);
      assert Concat(words) == words[0] + Concat([]);
    } else {
      JoinConcat(words[1..]);
      FilterWordSpace(words[0], Join(words[1..]));
    }
  }

  lemma {:induction false} LowerJoin(words: seq<string>)
    ensures Lower(Join(words)) == Join(LowerAll(words))
  {
    if |words| > 1 {
      LowerJoin(words[1..]);
      assert LowerAll(words)[1..] == LowerAll(words[1..]);
      LowerAppend(words[0] + " ", Join(words[1..]));
      LowerAppend(words[0], " ");
    }
  }
}
