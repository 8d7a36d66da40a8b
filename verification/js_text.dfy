/**
 * The pieces of JavaScript string semantics the application relies on:
 * `String.prototype.trim`, the truthiness of a string, and
 * `String.prototype.replace` with a one-character string pattern
 * (which replaces only the first occurrence).
 */
module JsText {

  /** The WhiteSpace and LineTerminator code points of ECMAScript (sections 12.2
      and 12.3 of ECMA-262): exactly the characters `trim` removes and `Number()`
      skips around a numeral. */
  predicate IsWhitespace(c: char) {
    || c == '\t' || c == '\n' || c == '\U{000B}' || c == '\U{000C}' || c == '\r'
    || c == ' ' || c == '\U{00A0}' || c == '\U{1680}'
    || ('\U{2000}' <= c <= '\U{200A}')
    || c == '\U{2028}' || c == '\U{2029}' || c == '\U{202F}' || c == '\U{205F}'
    || c == '\U{3000}' || c == '\U{FEFF}'
  }

  predicate AllWhitespace(s: string) {
    forall k | 0 <= k < |s| :: IsWhitespace(s[k])
  }

  /** A string is truthy in JavaScript exactly when it is not empty. */
  predicate Truthy(s: string) {
    s != []
  }

  /** Drops leading whitespace: the result is the longest suffix of `s` that
      does not start with whitespace. */
  function TrimStart(s: string): (r: string)
    ensures |r| <= |s| && r == s[|s| - |r|..]
    ensures forall k | 0 <= k < |s| - |r| :: IsWhitespace(s[k])
    ensures r == [] || !IsWhitespace(r[0])
  {
    if |s| > 0 && IsWhitespace(s[0]) then TrimStart(s[1..]) else s
  }

  /** Drops trailing whitespace: the result is the longest prefix of `s` that
      does not end with whitespace. */
  function TrimEnd(s: string): (r: string)
    ensures |r| <= |s| && r == s[..|r|]
    ensures forall k | |r| <= k < |s| :: IsWhitespace(s[k])
    ensures r == [] || !IsWhitespace(r[|r| - 1])
  {
    if |s| > 0 && IsWhitespace(s[|s| - 1]) then TrimEnd(s[..|s| - 1]) else s
  }

  /** Number of leading whitespace characters of `s`. */
  function Lead(s: string): nat {
    |s| - |TrimStart(s)|
  }

  /** No whitespace at either end. */
  predicate Unpadded(r: string) {
    r == [] || (!IsWhitespace(r[0]) && !IsWhitespace(r[|r| - 1]))
  }

  /** `r` is what is left of `s` after removing whitespace from both ends,
      with `i` characters removed in front: the reference definition of `trim`. */
  predicate IsTrimOf(r: string, s: string, i: nat) {
    && i + |r| <= |s|
    && r == s[i..i + |r|]
    && AllWhitespace(s[..i])
    && AllWhitespace(s[i + |r|..])
    && Unpadded(r)
  }

  /** `s.trim()`. */
  function Trim(s: string): (r: string)
    ensures IsTrimOf(r, s, Lead(s))
    ensures r == [] <==> AllWhitespace(s)
  {
    TrimMeetsDefinition(s);
    TrimEmpty(s);
    TrimEnd(TrimStart(s))
  }

  /** Trimming the front and then the back meets the reference definition. */
  lemma TrimMeetsDefinition(s: string)
    ensures IsTrimOf(TrimEnd(TrimStart(s)), s, Lead(s))
  {
    var t := TrimStart(s);
    var r := TrimEnd(t);
    var i := Lead(s);
    PrefixOfSuffix(s, t, r);
    LeadingMargin(s);
    TrailingMargin(t);
    TrimIsUnpadded(s);
    IntroTrimOf(r, s, i, t);
  }

  lemma IntroTrimOf(r: string, s: string, i: nat, t: string)
    requires i + |r| <= |s| && r == s[i..i + |r|] && AllWhitespace(s[..i])
    requires |r| <= |t| && s[i + |r|..] == t[|r|..] && AllWhitespace(t[|r|..])
    requires Unpadded(r)
    ensures IsTrimOf(r, s, i)
  {
  }

  /** A prefix of a suffix is a slice. */
  lemma PrefixOfSuffix(s: string, t: string, r: string)
    requires |t| <= |s| && t == s[|s| - |t|..]
    requires |r| <= |t| && r == t[..|r|]
    ensures r == s[|s| - |t|..|s| - |t| + |r|]
    ensures s[|s| - |t| + |r|..] == t[|r|..]
  {
    SliceOfSuffix(s, |s| - |t|, |r|);
  }

  lemma SliceOfSuffix(s: string, i: nat, n: nat)
    requires i + n <= |s|
    ensures s[i..][..n] == s[i..i + n] && s[i..][n..] == s[i + n..]
  {
  }

  lemma TrimIsUnpadded(s: string)
    ensures Unpadded(TrimEnd(TrimStart(s)))
  {
    var t := TrimStart(s);
    var r := TrimEnd(t);
    if r != [] { assert r[0] == t[0]; }
  }

  lemma LeadingMargin(s: string)
    ensures AllWhitespace(s[..Lead(s)])
  {
    var m := s[..Lead(s)];
    forall k | 0 <= k < |m| ensures IsWhitespace(m[k]) {
      assert m[k] == s[k];
    }
  }

  lemma TrailingMargin(t: string)
    ensures AllWhitespace(t[|TrimEnd(t)|..])
  {
    var r := TrimEnd(t);
    var m := t[|r|..];
    forall k | 0 <= k < |m| ensures IsWhitespace(m[k]) {
      assert m[k] == t[|r| + k];
    }
  }

  lemma TrimEmpty(s: string)
    ensures TrimEnd(TrimStart(s)) == [] <==> AllWhitespace(s)
  {
    var t := TrimStart(s);
    if TrimEnd(t) == [] {
      assert t == [];
    }
  }

  /** The reference definition determines the trim: any slice of `s` with
      whitespace-only margins and no whitespace at its own ends is `Trim(s)`. */
  lemma TrimUnique(r: string, s: string, i: nat)
    requires IsTrimOf(r, s, i)
    ensures r == Trim(s)
  {
    TrimsAgree(r, i, Trim(s), Lead(s), s);
  }

  /** Two slices that both meet the reference definition are the same slice. */
  lemma TrimsAgree(r: string, i: nat, t: string, j: nat, s: string)
    requires IsTrimOf(r, s, i) && IsTrimOf(t, s, j)
    ensures r == t
  {
    if r == [] || t == [] {
      var m := if r == [] then i else j;
      forall k | 0 <= k < |s| ensures IsWhitespace(s[k]) {
        WhitespaceBefore(s, m, k);
        WhitespaceAfter(s, m, k);
      }
    } else {
      var e := i + |r|;
      var f := j + |t|;
      assert s[i] == r[0] && s[e - 1] == r[|r| - 1];
      assert s[j] == t[0] && s[f - 1] == t[|t| - 1];
      // both slices start at the first non-whitespace character ...
      WhitespaceBefore(s, j, i);
      WhitespaceBefore(s, i, j);
      // ... and end at the last one
      WhitespaceAfter(s, e, f - 1);
      WhitespaceAfter(s, f, e - 1);
    }
  }

  lemma WhitespaceBefore(s: string, m: nat, k: int)
    requires m <= |s| && AllWhitespace(s[..m])
    ensures 0 <= k < m ==> IsWhitespace(s[k])
  {
    if 0 <= k < m { assert s[..m][k] == s[k]; }
  }

  lemma WhitespaceAfter(s: string, m: nat, k: int)
    requires m <= |s| && AllWhitespace(s[m..])
    ensures m <= k < |s| ==> IsWhitespace(s[k])
  {
    if m <= k < |s| { assert s[m..][k - m] == s[k]; }
  }

  /** A string with no whitespace at either end is its own trim. */
  lemma TrimOfTrimmed(s: string)
    requires Unpadded(s)
    ensures Trim(s) == s
  {
  }

  /** Trimming is idempotent. */
  lemma TrimIdempotent(s: string)
    ensures Trim(Trim(s)) == Trim(s)
  {
    TrimOfTrimmed(Trim(s));
  }

  /** Whitespace in front of `s` does not survive `TrimStart`. */
  lemma {:induction false} TrimStartPadded(w: string, s: string)
    requires AllWhitespace(w)
    ensures TrimStart(w + s) == TrimStart(s)
    decreases |w|
  {
    if w != [] {
      assert (w + s)[1..] == w[1..] + s;
      TrimStartPadded(w[1..], s);
    } else {
      assert w + s == s;
    }
  }

  /** Whitespace after `s` does not survive `TrimEnd`. */
  lemma {:induction false} TrimEndPadded(s: string, w: string)
    requires AllWhitespace(w)
    ensures TrimEnd(s + w) == TrimEnd(s)
    decreases |w|
  {
    if w != [] {
      assert (s + w)[..|s + w| - 1] == s + w[..|w| - 1];
      TrimEndPadded(s, w[..|w| - 1]);
    } else {
      assert s + w == s;
    }
  }

  /** Trailing text that starts with a non-whitespace character is kept by
      `TrimStart` as a whole. */
  lemma {:induction false} TrimStartAppend(s: string, w: string)
    requires !AllWhitespace(s)
    ensures TrimStart(s + w) == TrimStart(s) + w
    decreases |s|
  {
    assert s != [];
    if IsWhitespace(s[0]) {
      assert (s + w)[1..] == s[1..] + w;
      assert !AllWhitespace(s[1..]) by {
        var k :| 0 <= k < |s| && !IsWhitespace(s[k]);
        assert s[1..][k - 1] == s[k];
      }
      TrimStartAppend(s[1..], w);
    }
  }

  /** Surrounding a string with whitespace does not change its trim. */
  lemma TrimPadded(w1: string, s: string, w2: string)
    requires AllWhitespace(w1) && AllWhitespace(w2)
    ensures Trim(w1 + s + w2) == Trim(s)
  {
    assert w1 + s + w2 == w1 + (s + w2);
    TrimStartPadded(w1, s + w2);
    if AllWhitespace(s) {
      assert AllWhitespace(s + w2) by {
        forall k | 0 <= k < |s + w2| ensures IsWhitespace((s + w2)[k]) {
          if k < |s| { assert (s + w2)[k] == s[k]; } else { assert (s + w2)[k] == w2[k - |s|]; }
        }
      }
    } else {
      TrimStartAppend(s, w2);
      TrimEndPadded(TrimStart(s), w2);
    }
  }

  /** Index of the first occurrence of `c` in `s`. */
  function IndexOf(s: string, c: char): (i: nat)
    requires c in s
    ensures i < |s| && s[i] == c && c !in s[..i]
  {
    if s[0] == c then 0 else
      var j := IndexOf(s[1..], c);
      assert s[..j + 1] == [s[0]] + s[1..][..j];
      j + 1
  }

  /** `s.replace(from, to)` with a one-character string pattern: only the first
      occurrence of `from` is replaced; with none, `s` is returned as is. The
      replacement must not contain `$`, which JavaScript reads as the start of
      a substitution pattern (`$&`, `$$`, ...) that is not modelled. */
  function ReplaceFirst(s: string, from: char, to: string): (r: string)
    requires '$' !in to
    ensures from !in s ==> r == s
    ensures from in s ==> r == s[..IndexOf(s, from)] + to + s[IndexOf(s, from) + 1..]
  {
    if s == [] then []
    else if s[0] == from then to + s[1..]
    else
      var rest := ReplaceFirst(s[1..], from, to);
      assert s == [s[0]] + s[1..];
      ReplaceFirstStep(s, from, to, rest);
      [s[0]] + rest
  }

  /** One step of ReplaceFirst past a character that is not `from`. */
  lemma ReplaceFirstStep(s: string, from: char, to: string, rest: string)
    requires s != [] && s[0] != from
    requires from in s[1..] ==> rest == s[1..][..IndexOf(s[1..], from)] + to + s[1..][IndexOf(s[1..], from) + 1..]
    ensures from in s ==> [s[0]] + rest == s[..IndexOf(s, from)] + to + s[IndexOf(s, from) + 1..]
  {
    if from in s {
      assert from in s[1..];
      var j := IndexOf(s[1..], from);
      assert IndexOf(s, from) == j + 1;
      assert s[..j + 1] == [s[0]] + s[1..][..j];
      assert s[j + 2..] == s[1..][j + 1..];
    }
  }
}
