/**
 * The JavaScript string built-ins the two route handlers call: `trim`,
 * `replace` with a string pattern (first occurrence only), `replace` with a
 * global regular expression of the form /<literal>\s*\/g, `substring(0, n)`,
 * `Array.prototype.join` on one character, and the decimal rendering of a
 * status code in a template literal. `IndexOf` is the search a string-pattern
 * `replace` performs; `Split` is called by neither route and serves as the
 * inverse that states the round trip of `join`.
 *
 * Strings are sequences of Unicode scalar values; JavaScript counts UTF-16
 * code units, which differs only for characters outside the Basic
 * Multilingual Plane (none of which is whitespace or a backtick).
 */
module JsStrings {
  import opened Options

  // ---------------------------------------------------------------------
  // Whitespace and trimming
  // ---------------------------------------------------------------------

  /** ECMAScript WhiteSpace and LineTerminator code points: exactly what
    * `String.prototype.trim` removes and what the regular-expression class
    * `\s` matches. */
  predicate IsWhitespace(c: char) {
    || c == '\t' || c == '\n' || c == '\U{000B}' || c == '\U{000C}' || c == '\r'
    || c == ' ' || c == '\U{00A0}' || c == '\U{1680}'
    || ('\U{2000}' <= c <= '\U{200A}')
    || c == '\U{2028}' || c == '\U{2029}' || c == '\U{202F}' || c == '\U{205F}'
    || c == '\U{3000}' || c == '\U{FEFF}'
  }

  predicate AllWhitespace(s: string) {
    forall i :: 0 <= i < |s| ==> IsWhitespace(s[i])
  }

  /** Neither starts nor ends with whitespace: what `trim` produces. */
  predicate Trimmed(s: string) {
    s == [] || (!IsWhitespace(s[0]) && !IsWhitespace(s[|s| - 1]))
  }

  /** The leading-whitespace removal of `trim`; also what the greedy `\s*`
    * after a matched literal consumes. */
  function TrimStart(s: string): (r: string)
    ensures |r| <= |s|
  {
    if s != [] && IsWhitespace(s[0]) then TrimStart(s[1..]) else s
  }

  /** `TrimStart(s)` is the suffix of `s` left after its longest
    * all-whitespace prefix. */
  lemma {:induction false} TrimStartShape(s: string)
    ensures var r := TrimStart(s);
      && |r| <= |s| && r == s[|s| - |r|..]
      && AllWhitespace(s[..|s| - |r|])
      && (r == [] || !IsWhitespace(r[0]))
  {
    if s != [] && IsWhitespace(s[0]) {
      TrimStartShape(s[1..]);
      var r := TrimStart(s);
      assert s[1..][|s| - 1 - |r|..] == s[|s| - |r|..];
      assert forall i :: 1 <= i < |s| - |r| ==> s[i] == s[1..][..|s| - 1 - |r|][i - 1];
    }
  }

  /** The trailing-whitespace removal of `trim`. */
  function TrimEnd(s: string): (r: string)
    ensures |r| <= |s|
  {
    if s != [] && IsWhitespace(s[|s| - 1]) then TrimEnd(s[..|s| - 1]) else s
  }

  /** `TrimEnd(s)` is the prefix of `s` left before its longest
    * all-whitespace suffix. */
  lemma {:induction false} TrimEndShape(s: string)
    ensures var r := TrimEnd(s);
      && |r| <= |s| && r == s[..|r|]
      && AllWhitespace(s[|r|..])
      && (r == [] || !IsWhitespace(r[|r| - 1]))
  {
    if s != [] && IsWhitespace(s[|s| - 1]) {
      var s' := s[..|s| - 1];
      TrimEndShape(s');
      var r := TrimEnd(s);
      assert s'[..|r|] == s[..|r|];
      assert forall i :: |r| <= i < |s| - 1 ==> s[i] == s'[|r|..][i - |r|];
    }
  }

  /** `String.prototype.trim`. */
  function Trim(s: string): (r: string)
    ensures Trimmed(r)
    ensures |r| <= |s|
  {
    TrimStartShape(s);
    TrimEndShape(TrimStart(s));
    TrimEnd(TrimStart(s))
  }

  lemma {:induction false} TrimStartPadded(w: string, t: string)
    requires AllWhitespace(w)
    requires t == [] || !IsWhitespace(t[0])
    ensures TrimStart(w + t) == t
  {
    if w != [] {
      assert (w + t)[1..] == w[1..] + t;
      TrimStartPadded(w[1..], t);
    }
  }

  lemma {:induction false} TrimEndPadded(t: string, w: string)
    requires AllWhitespace(w)
    requires t == [] || !IsWhitespace(t[|t| - 1])
    ensures TrimEnd(t + w) == t
  {
    if w != [] {
      assert (t + w)[..|t + w| - 1] == t + w[..|w| - 1];
      TrimEndPadded(t, w[..|w| - 1]);
    }
  }

  /** `trim` removes exactly the whitespace padding around a trimmed core:
    * `Trim(s)` is the unique trimmed `b` with `s == w1 + b + w2`. */
  lemma TrimPadded(w1: string, b: string, w2: string)
    requires AllWhitespace(w1) && AllWhitespace(w2) && Trimmed(b)
    ensures Trim(w1 + b + w2) == b
  {
    if b == [] {
      assert w1 + b + w2 == (w1 + w2) + [];
      TrimStartPadded(w1 + w2, []);
    } else {
      assert w1 + b + w2 == w1 + (b + w2);
      TrimStartPadded(w1, b + w2);
      TrimEndPadded(b, w2);
    }
  }

  /** Trailing whitespace after a trimmed string is all `trim` removes. */
  lemma TrimTrailing(b: string, w: string)
    requires Trimmed(b) && AllWhitespace(w)
    ensures Trim(b + w) == b
  {
    assert [] + b + w == b + w;
    TrimPadded([], b, w);
  }

  /** An already trimmed string is left alone, so `trim` is idempotent. */
  lemma TrimOfTrimmed(s: string)
    requires Trimmed(s)
    ensures Trim(s) == s
  {
    assert [] + s + [] == s;
    TrimPadded([], s, []);
  }

  lemma TrimIdempotent(s: string)
    ensures Trim(Trim(s)) == Trim(s)
  {
    TrimOfTrimmed(Trim(s));
  }

  /** Whitespace-only text trims to the empty string. */
  lemma TrimAllWhitespace(w: string)
    requires AllWhitespace(w)
    ensures Trim(w) == ""
  {
    assert w + [] + [] == w;
    TrimPadded(w, [], []);
  }

  // ---------------------------------------------------------------------
  // Occurrences of a literal
  // ---------------------------------------------------------------------

  predicate StartsWith(s: string, p: string) {
    |p| <= |s| && s[..|p|] == p
  }

  /** `s.includes(p)`. */
  predicate Contains(s: string, p: string)
    decreases |s|
  {
    StartsWith(s, p) || (s != [] && Contains(s[1..], p))
  }

  lemma {:induction false} ContainsAt(s: string, p: string, i: nat)
    requires i <= |s| && StartsWith(s[i..], p)
    ensures Contains(s, p)
  {
    if i > 0 {
      assert s[1..][i - 1..] == s[i..];
      ContainsAt(s[1..], p, i - 1);
    }
  }

  lemma {:induction false} ShorterNotContained(s: string, p: string)
    requires |s| < |p|
    ensures !Contains(s, p)
    decreases |s|
  {
    if s != [] {
      ShorterNotContained(s[1..], p);
    }
  }

  /** A string without `p` has no part with `p` in it. */
  lemma {:induction false} NotContainsPrefix(s: string, p: string, k: nat)
    requires k <= |s| && !Contains(s, p)
    ensures !Contains(s[..k], p)
    decreases |s|
  {
    if s != [] && k > 0 {
      assert !StartsWith(s, p);
      assert s[..k][1..] == s[1..][..k - 1];
      NotContainsPrefix(s[1..], p, k - 1);
    }
  }

  lemma {:induction false} NotContainsSuffix(s: string, p: string, k: nat)
    requires k <= |s| && !Contains(s, p)
    ensures !Contains(s[k..], p)
    decreases k
  {
    if k > 0 {
      assert s[1..][k - 1..] == s[k..];
      NotContainsSuffix(s[1..], p, k - 1);
    }
  }

  /** `trim` cannot create an occurrence: it only cuts off both ends. */
  lemma TrimKeepsAbsence(s: string, p: string)
    requires !Contains(s, p)
    ensures !Contains(Trim(s), p)
  {
    var t := TrimStart(s);
    TrimStartShape(s);
    TrimEndShape(t);
    NotContainsSuffix(s, p, |s| - |t|);
    NotContainsPrefix(t, p, |TrimEnd(t)|);
  }

  /** A string without a backtick contains no literal that has one. */
  lemma {:induction false} NoBacktickNoOccurrence(s: string, p: string)
    requires '`' !in s && '`' in p
    ensures !Contains(s, p)
    decreases |s|
  {
    if s != [] {
      NoBacktickNoOccurrence(s[1..], p);
    }
  }

  /** `s.indexOf(p)`, with `None` for JavaScript's -1: the first position at
    * which `p` occurs. */
  function IndexOf(s: string, p: string): (r: Option<nat>)
    ensures r.None? <==> !Contains(s, p)
    ensures r.Some? ==> r.value + |p| <= |s| && StartsWith(s[r.value..], p)
    ensures r.Some? ==> forall j :: 0 <= j < r.value ==> !StartsWith(s[j..], p)
    decreases |s|
  {
    if StartsWith(s, p) then Some(0)
    else if s == [] then None
    else
      match IndexOf(s[1..], p)
      case None => None
      case Some(i) =>
        assert forall j :: 1 <= j <= i ==> s[1..][j - 1..] == s[j..];
        assert s[1..][i..] == s[i + 1..];
        Some(i + 1)
  }

  /** `s.replace(p, '')` with a string pattern: only the first occurrence of
    * `p` is removed; without one, `s` is returned as it is. */
  function ReplaceFirst(s: string, p: string): (r: string)
    ensures IndexOf(s, p).None? ==> r == s
    ensures IndexOf(s, p).Some? ==> |r| == |s| - |p|
  {
    match IndexOf(s, p)
    case None => s
    case Some(i) => s[..i] + s[i + |p|..]
  }

  /** Putting `p` back where its first occurrence was removed gives `s`
    * again, so the result is `|p|` shorter. */
  lemma ReplaceFirstRoundTrip(s: string, p: string)
    requires IndexOf(s, p).Some?
    ensures var i := IndexOf(s, p).value;
      var r := ReplaceFirst(s, p);
      i <= |r| && r[..i] + p + r[i..] == s && |r| == |s| - |p|
  {
    var i := IndexOf(s, p).value;
    assert ReplaceFirst(s, p) == s[..i] + s[i + |p|..];
    assert s[i..i + |p|] == s[i..][..|p|] == p;
    SpliceRestored(s, i, i + |p|);
  }

  /** Cutting `s[i..k]` out of `s` and putting it back restores `s`. */
  lemma SpliceRestored(s: string, i: nat, k: nat)
    requires i <= k <= |s|
    ensures var r := s[..i] + s[k..]; i <= |r| && r[..i] + s[i..k] + r[i..] == s
  {
    var r := s[..i] + s[k..];
    assert r[..i] == s[..i] && r[i..] == s[k..];
    assert s == s[..i] + s[i..k] + s[k..];
  }

  /** No position of `s` starts an occurrence of `p`: `p` does not occur. */
  lemma {:induction false} NoStartNotContained(s: string, p: string)
    requires forall i :: 0 <= i <= |s| ==> !StartsWith(s[i..], p)
    ensures !Contains(s, p)
    decreases |s|
  {
    assert s[0..] == s;
    if s != [] {
      forall i | 0 <= i <= |s[1..]|
        ensures !StartsWith(s[1..][i..], p)
      {
        assert s[1..][i..] == s[i + 1..];
      }
      NoStartNotContained(s[1..], p);
    }
  }

  /** A text that starts with `p` loses exactly that leading copy. */
  lemma LeadingMarkerRemoved(p: string, t: string)
    requires p != []
    ensures ReplaceFirst(p + t, p) == t
  {
    assert (p + t)[0..][..|p|] == p;
    assert IndexOf(p + t, p) == Some(0);
    assert (p + t)[|p|..] == t;
  }

  /** When `p` does not start anywhere in the text before it, the first
    * occurrence removed is this one. */
  lemma ReplaceFirstAfter(a: string, p: string, t: string)
    requires forall j :: 0 <= j < |a| ==> !StartsWith((a + p + t)[j..], p)
    ensures ReplaceFirst(a + p + t, p) == a + t
  {
    var s := a + p + t;
    assert s[|a|..][..|p|] == p;
    ContainsAt(s, p, |a|);
    var i := IndexOf(s, p).value;
    assert i == |a|;
    var r := ReplaceFirst(s, p);
    ReplaceFirstRoundTrip(s, p);
    assert r[..i] == a;
    assert r[i..] == t;
    assert r == r[..i] + r[i..];
  }

  /** A marker that starts with a backtick, after backtick-free text: its
    * first occurrence is the one right after that text. */
  lemma FenceAfterPlainText(a: string, p: string, t: string)
    requires '`' !in a && p != [] && p[0] == '`'
    ensures ReplaceFirst(a + p + t, p) == a + t
  {
    forall j | 0 <= j < |a|
      ensures !StartsWith((a + p + t)[j..], p)
    {
      assert (a + p + t)[j..][0] == a[j];
    }
    ReplaceFirstAfter(a, p, t);
  }

  /** `s.replace(/<lit>\s*\/g, '')`: scanning left to right, every match of
    * the literal `lit` together with the whitespace run after it (greedy
    * `\s*`) is removed, and the scan resumes after the match. */
  function StripAllWithWhitespace(s: string, lit: string): (r: string)
    requires lit != []
    ensures |r| <= |s|
    decreases |s|
  {
    if StartsWith(s, lit) then StripAllWithWhitespace(TrimStart(s[|lit|..]), lit)
    else if s == [] then []
    else [s[0]] + StripAllWithWhitespace(s[1..], lit)
  }

  /** A global replace whose literal never occurs changes nothing. */
  lemma {:induction false} StripAllAbsent(s: string, lit: string)
    requires lit != [] && !Contains(s, lit)
    ensures StripAllWithWhitespace(s, lit) == s
    decreases |s|
  {
    if s != [] {
      StripAllAbsent(s[1..], lit);
    }
  }

  /** `s.substring(0, n)`. */
  function Substring0(s: string, n: nat): (r: string)
    ensures |r| == if n < |s| then n else |s|
    ensures StartsWith(s, r)
  {
    if n < |s| then s[..n] else s
  }

  // ---------------------------------------------------------------------
  // Lines: join and split
  // ---------------------------------------------------------------------

  /** `lines.join(sep)`; the empty array joins to "". */
  function Join(lines: seq<string>, sep: string): (r: string)
    ensures |lines| >= 1 ==> StartsWith(r, lines[0])
  {
    if |lines| == 0 then ""
    else if |lines| == 1 then lines[0]
    else lines[0] + sep + Join(lines[1..], sep)
  }

  /** `s.split(c)` for a one-character separator: the pieces between the
    * occurrences of `c`, of which there is always at least one. */
  function Split(s: string, c: char): (r: seq<string>)
    ensures |r| >= 1
    ensures forall k :: 0 <= k < |r| ==> c !in r[k]
    decreases |s|
  {
    if s == [] then [""]
    else if s[0] == c then [""] + Split(s[1..], c)
    else
      var rest := Split(s[1..], c);
      [[s[0]] + rest[0]] + rest[1..]
  }

  lemma {:induction false} SplitAfterChunk(a: string, t: string, c: char)
    requires c !in a
    ensures Split(a + t, c) == [a + Split(t, c)[0]] + Split(t, c)[1..]
    decreases |a|
  {
    if a != [] {
      assert (a + t)[0] == a[0] && (a + t)[1..] == a[1..] + t;
      SplitAfterChunk(a[1..], t, c);
      assert [a[0]] + (a[1..] + Split(t, c)[0]) == a + Split(t, c)[0];
    } else {
      assert a + t == t;
      assert a + Split(t, c)[0] == Split(t, c)[0];
      assert [Split(t, c)[0]] + Split(t, c)[1..] == Split(t, c);
    }
  }

  /** Splitting at the separator undoes joining with it, provided no line
    * holds the separator: every line comes back, in order. */
  lemma {:induction false} SplitJoin(lines: seq<string>, c: char)
    requires |lines| >= 1
    requires forall k :: 0 <= k < |lines| ==> c !in lines[k]
    ensures Split(Join(lines, [c]), c) == lines
  {
    if |lines| == 1 {
      SplitAfterChunk(lines[0], "", c);
      assert lines[0] + "" == lines[0];
      assert Split("", c) == [""];
      assert lines == [lines[0]];
    } else {
      var rest := Join(lines[1..], [c]);
      SplitJoin(lines[1..], c);
      assert lines[0] + [c] + rest == lines[0] + ([c] + rest);
      assert ([c] + rest)[1..] == rest;
      assert Split([c] + rest, c) == [""] + Split(rest, c);
      SplitAfterChunk(lines[0], [c] + rest, c);
      assert lines[0] + "" == lines[0];
      assert lines == [lines[0]] + lines[1..];
    }
  }

  /** Lines free of `c`, followed by more lines free of `c`. */
  lemma NoneHolds(a: seq<string>, b: seq<string>, c: char)
    requires forall k :: 0 <= k < |a| ==> c !in a[k]
    requires forall k :: 0 <= k < |b| ==> c !in b[k]
    ensures forall k :: 0 <= k < |a + b| ==> c !in (a + b)[k]
  {
  }

  /** Joining five lines puts the separator between each neighbouring pair. */
  lemma JoinFive(a: string, b: string, c: string, d: string, e: string, sep: string)
    ensures Join([a, b, c, d, e], sep) == a + sep + b + sep + c + sep + d + sep + e
  {
    assert Join([e], sep) == e;
    assert [d, e][1..] == [e];
    assert Join([d, e], sep) == d + sep + e;
    assert [c, d, e][1..] == [d, e];
    assert Join([c, d, e], sep) == c + sep + (d + sep + e);
    assert [b, c, d, e][1..] == [c, d, e];
    assert Join([b, c, d, e], sep) == b + sep + (c + sep + (d + sep + e));
    assert [a, b, c, d, e][1..] == [b, c, d, e];
  }

  lemma {:induction false} JoinAppend(a: seq<string>, b: seq<string>, sep: string)
    requires |a| >= 1 && |b| >= 1
    ensures Join(a + b, sep) == Join(a, sep) + sep + Join(b, sep)
  {
    if |a| == 1 {
      assert (a + b)[1..] == b;
    } else {
      assert (a + b)[1..] == a[1..] + b;
      JoinAppend(a[1..], b, sep);
    }
  }

  // ---------------------------------------------------------------------
  // Regrouping concatenations (stated on variables, where they are cheap,
  // for use on concatenations that hold literals)
  // ---------------------------------------------------------------------

  lemma Regroup3(a: string, b: string, c: string)
    ensures a + b + c == a + (b + c)
  {
  }

  lemma Regroup5(a: string, b: string, c: string, d: string, e: string)
    ensures a + b + c + d + e == a + (b + c + d + e)
  {
  }

  lemma Regroup7(a: string, b: string, c: string, d: string, e: string, f: string, g: string)
    ensures a + b + c + d + e + f + g == a + (b + c + (d + e + f + g))
  {
  }

  lemma Surrounded(w1: string, a: string, b: string, c: string, d: string, e: string, w2: string)
    ensures w1 + a + b + c + d + e + w2 == w1 + (a + b + c + d + e) + w2
  {
  }

  lemma Unpadded(a: string, b: string, c: string, d: string, e: string)
    ensures "" + a + b + c + d + e + "" == a + b + c + d + e
  {
  }

  // ---------------------------------------------------------------------
  // Decimal rendering of a number in a template literal
  // ---------------------------------------------------------------------

  function DigitChar(d: nat): char
    requires d < 10
  {
    "0123456789"[d]
  }

  function DigitValue(c: char): (d: nat)
    ensures d < 10
    ensures '0' <= c <= '9' ==> DigitChar(d) == c
  {
    if '0' <= c <= '9' then (c as int - '0' as int) as nat else 0
  }

  /** `${n}` for a non-negative integer: its decimal digits, no leading zero. */
  function DecimalString(n: nat): (r: string)
    ensures |r| >= 1
    ensures forall i :: 0 <= i < |r| ==> '0' <= r[i] <= '9'
    ensures r[0] == '0' ==> n == 0
    decreases n
  {
    if n < 10 then [DigitChar(n)] else DecimalString(n / 10) + [DigitChar(n % 10)]
  }

  /** The value of a string of decimal digits. */
  function DecimalValue(s: string): nat
  {
    if s == [] then 0 else DecimalValue(s[..|s| - 1]) * 10 + DigitValue(s[|s| - 1])
  }

  /** The rendered digits read back as the number they came from. */
  lemma {:induction false} DecimalRoundTrip(n: nat)
    ensures DecimalValue(DecimalString(n)) == n
    decreases n
  {
    var s := DecimalString(n);
    if n < 10 {
      assert s[..|s| - 1] == [];
      assert DigitValue(DigitChar(n)) == n;
    } else {
      DecimalRoundTrip(n / 10);
      assert s[..|s| - 1] == DecimalString(n / 10);
      assert DigitValue(s[|s| - 1]) == n % 10;
      assert (n / 10) * 10 + n % 10 == n;
    }
  }
}
