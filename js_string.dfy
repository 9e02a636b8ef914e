/**
 The three ECMAScript string operations the chat component relies on:
 `String.prototype.trim`, `String.prototype.startsWith` and
 `String.prototype.split` with a one-character separator, on strings as
 sequences of characters.
 */
module JsString {

  /** ECMAScript WhiteSpace and LineTerminator code points: the set `trim` removes. */
  predicate IsWhitespace(c: char) {
    || c == '\t' || c == '\n' || c == '\U{000B}' || c == '\U{000C}' || c == '\r'
    || c == ' ' || c == '\U{00A0}' || c == '\U{1680}'
    || ('\U{2000}' <= c <= '\U{200A}')
    || c == '\U{2028}' || c == '\U{2029}' || c == '\U{202F}' || c == '\U{205F}'
    || c == '\U{3000}' || c == '\U{FEFF}'
  }

  predicate AllWhitespace(s: string) {
    forall i :: 0 <= i < |s| ==> IsWhitespace(s[i])
  }

  /** The number of whitespace characters that open `s`. */
  function LeadingWhitespace(s: string): (n: nat)
    ensures n <= |s|
    ensures AllWhitespace(s[..n])
    ensures n < |s| ==> !IsWhitespace(s[n])
  {
    if s == [] || !IsWhitespace(s[0]) then 0
    else
      var n := 1 + LeadingWhitespace(s[1..]);
      assert s[..n] == [s[0]] + s[1..][..n - 1];
      n
  }

  /** The number of whitespace characters that close `s`. */
  function TrailingWhitespace(s: string): (n: nat)
    ensures n <= |s|
    ensures AllWhitespace(s[|s| - n..])
    ensures n < |s| ==> !IsWhitespace(s[|s| - 1 - n])
  {
    if s == [] || !IsWhitespace(s[|s| - 1]) then 0
    else
      var init := s[..|s| - 1];
      var n := 1 + TrailingWhitespace(init);
      assert s[|s| - n..] == init[|init| - (n - 1)..] + [s[|s| - 1]];
      n
  }

  /**
   `s.trim()`: `s` without its leading and trailing whitespace. The result is
   a piece of `s` with only whitespace around it, it neither starts nor ends
   with whitespace, and it is empty exactly when `s` is all whitespace.
   */
  function Trim(s: string): (r: string)
    ensures |r| <= |s|
    ensures r == [] <==> AllWhitespace(s)
    ensures r != [] ==> !IsWhitespace(r[0]) && !IsWhitespace(r[|r| - 1])
  {
    var a := LeadingWhitespace(s);
    var t := s[a..];
    var r := t[..|t| - TrailingWhitespace(t)];
    TrimPieces(s, a, t, r);
    r
  }

  /** What `trim` removes is whitespace on both sides of the piece it keeps. */
  lemma TrimIsPiece(s: string)
    ensures exists a :: 0 <= a <= |s| - |Trim(s)| && s[a..a + |Trim(s)|] == Trim(s)
                        && AllWhitespace(s[..a]) && AllWhitespace(s[a + |Trim(s)|..])
  {
    var a := LeadingWhitespace(s);
    var t := s[a..];
    TrimPieces(s, a, t, Trim(s));
  }

  /** The facts `Trim`'s contract needs about the piece it cuts out. */
  lemma TrimPieces(s: string, a: nat, t: string, r: string)
    requires a == LeadingWhitespace(s) && t == s[a..]
    requires r == t[..|t| - TrailingWhitespace(t)]
    ensures s[a..a + |r|] == r && s[a + |r|..] == t[|t| - TrailingWhitespace(t)..]
    ensures r == [] <==> AllWhitespace(s)
    ensures r != [] ==> !IsWhitespace(r[0]) && !IsWhitespace(r[|r| - 1])
  {
    var b := TrailingWhitespace(t);
    assert s[a..a + |r|] == r && s[a + |r|..] == t[|t| - b..];
    if r == [] {
      assert a == |s| by { assert t[|t| - b..] == t; }
      assert AllWhitespace(s) by {
        forall i | 0 <= i < |s| ensures IsWhitespace(s[i]) {
          assert s[..a][i] == s[i];
        }
      }
    } else {
      assert r[0] == s[a];
      assert r[|r| - 1] == t[|t| - 1 - b];
      assert !AllWhitespace(s) by { assert s[a] == r[0]; }
    }
  }

  /** Whitespace in front of a string that opens with a non-whitespace character is what `LeadingWhitespace` counts. */
  lemma {:induction false} LeadingWhitespaceOf(p: string, rest: string)
    requires AllWhitespace(p)
    requires rest == [] || !IsWhitespace(rest[0])
    ensures LeadingWhitespace(p + rest) == |p|
    decreases |p|
  {
    if p != [] {
      assert (p + rest)[0] == p[0];
      assert (p + rest)[1..] == p[1..] + rest;
      LeadingWhitespaceOf(p[1..], rest);
    } else {
      assert p + rest == rest;
    }
  }

  /** A character that is not whitespace lies before the trailing whitespace. */
  lemma {:induction false} TrailingWhitespaceBelow(s: string, i: nat)
    requires i < |s| && !IsWhitespace(s[i])
    ensures i < |s| - TrailingWhitespace(s)
    decreases |s|
  {
    if IsWhitespace(s[|s| - 1]) {
      var init := s[..|s| - 1];
      assert i < |init| && init[i] == s[i];
      TrailingWhitespaceBelow(init, i);
    }
  }

  /** Whitespace behind a string that closes with a non-whitespace character is what `TrailingWhitespace` counts. */
  lemma {:induction false} TrailingWhitespaceOf(rest: string, q: string)
    requires AllWhitespace(q)
    requires rest == [] || !IsWhitespace(rest[|rest| - 1])
    ensures TrailingWhitespace(rest + q) == |q|
    decreases |q|
  {
    var s := rest + q;
    if q != [] {
      assert s[|s| - 1] == q[|q| - 1];
      assert s[..|s| - 1] == rest + q[..|q| - 1];
      TrailingWhitespaceOf(rest, q[..|q| - 1]);
    } else {
      assert s == rest;
    }
  }

  /**
   `Trim` is determined by its contract: whatever whitespace surrounds a
   string that neither starts nor ends with whitespace is exactly what `trim`
   removes.
   */
  lemma TrimCharacterization(p: string, m: string, q: string)
    requires AllWhitespace(p) && AllWhitespace(q)
    requires m == [] || (!IsWhitespace(m[0]) && !IsWhitespace(m[|m| - 1]))
    ensures Trim(p + m + q) == m
  {
    var s := p + m + q;
    if m == [] {
      assert AllWhitespace(s) by {
        forall i | 0 <= i < |s| ensures IsWhitespace(s[i]) {
          if i < |p| { assert s[i] == p[i]; } else { assert s[i] == q[i - |p|]; }
        }
      }
    } else {
      assert s == p + (m + q);
      assert (m + q)[0] == m[0];
      LeadingWhitespaceOf(p, m + q);
      assert s[|p|..] == m + q;
      TrailingWhitespaceOf(m, q);
      assert (m + q)[..|m|] == m;
    }
  }

  /** `s.startsWith(prefix)`. */
  predicate StartsWith(s: string, prefix: string) {
    |prefix| <= |s| && s[..|prefix|] == prefix
  }

  /** The index of the first `c` in `s`, or `|s|` when there is none. */
  function IndexOf(s: string, c: char): (k: nat)
    ensures k <= |s|
    ensures forall i :: 0 <= i < k ==> s[i] != c
    ensures k < |s| ==> s[k] == c
  {
    if s == [] || s[0] == c then 0 else 1 + IndexOf(s[1..], c)
  }

  /** The first `c` in `p + [c] + rest`, when `p` has none, is the one after `p`. */
  lemma {:induction false} IndexOfFirst(p: string, c: char, rest: string)
    requires c !in p
    ensures IndexOf(p + [c] + rest, c) == |p|
    decreases |p|
  {
    var s := p + [c] + rest;
    if p == [] {
      assert s[0] == c;
    } else {
      assert s[0] == p[0];
      assert s[1..] == p[1..] + [c] + rest;
      IndexOfFirst(p[1..], c, rest);
    }
  }

  /**
   `s.split(sep)` for a one-character separator: the pieces between the
   separators, in order, none containing `sep`; a string without `sep`
   (the empty string included) is one piece.
   */
  function Split(s: string, sep: char): (parts: seq<string>)
    ensures |parts| >= 1
    ensures forall i :: 0 <= i < |parts| ==> sep !in parts[i]
    decreases |s|
  {
    var k := IndexOf(s, sep);
    if k == |s| then [s] else [s[..k]] + Split(s[k + 1..], sep)
  }

  /** `parts.join(sep)`: the reference against which `Split` is proved. */
  function Join(parts: seq<string>, sep: char): string {
    if |parts| == 0 then ""
    else if |parts| == 1 then parts[0]
    else parts[0] + [sep] + Join(parts[1..], sep)
  }

  /** Splitting loses nothing: joining the pieces gives back the string. */
  lemma {:induction false} JoinSplit(s: string, sep: char)
    ensures Join(Split(s, sep), sep) == s
    decreases |s|
  {
    var k := IndexOf(s, sep);
    if k < |s| {
      var rest := Split(s[k + 1..], sep);
      JoinSplit(s[k + 1..], sep);
      assert Split(s, sep) == [s[..k]] + rest;
      assert ([s[..k]] + rest)[1..] == rest;
      assert s == s[..k] + [sep] + s[k + 1..];
    }
  }

  /** Splitting a join of separator-free pieces gives back the pieces. */
  lemma {:induction false} SplitJoin(parts: seq<string>, sep: char)
    requires |parts| >= 1
    requires forall i :: 0 <= i < |parts| ==> sep !in parts[i]
    ensures Split(Join(parts, sep), sep) == parts
    decreases |parts|
  {
    var s := Join(parts, sep);
    var p := parts[0];
    if |parts| == 1 {
    } else {
      var rest := Join(parts[1..], sep);
      assert s == p + [sep] + rest;
      IndexOfFirst(p, sep, rest);
      var k := |p|;
      assert s[..k] == p;
      assert s[k + 1..] == rest;
      SplitJoin(parts[1..], sep);
      assert parts == [p] + parts[1..];
    }
  }
}
