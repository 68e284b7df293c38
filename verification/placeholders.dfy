/**
 * Named placeholders in a statement and their rewriting into positional ones.
 *
 * A named placeholder is what the pattern `/(@\w*\b)/g` matches: an `@`
 * followed by a maximal, non-empty run of word characters `[A-Za-z0-9_]`.
 * (With an empty run the `\b` after the `@` would need a word character next,
 * which the greedy `\w*` would already have taken, so an `@` that is not
 * followed by a word character never matches.) The i-th placeholder,
 * counting from 1 in order of appearance, becomes `$i`.
 */
module Placeholders {
  import opened Wrappers

  predicate IsWordChar(c: char) {
    ('A' <= c <= 'Z') || ('a' <= c <= 'z') || ('0' <= c <= '9') || c == '_'
  }

  predicate IsDigit(c: char) {
    '0' <= c <= '9'
  }

  /** A named placeholder starts at position `q` of `s`. */
  predicate TokenStart(s: string, q: int) {
    0 <= q && q + 1 < |s| && s[q] == '@' && IsWordChar(s[q + 1])
  }

  /** `s` holds no named placeholder anywhere. */
  predicate NoPlaceholder(s: string) {
    forall q :: 0 <= q < |s| ==> !TokenStart(s, q)
  }

  /** The text of one named placeholder: `@` and then word characters only. */
  predicate IsToken(t: string) {
    |t| >= 2 && t[0] == '@' && forall k :: 1 <= k < |t| ==> IsWordChar(t[k])
  }

  /** The positions where named placeholders start, from `from` on. */
  function TokenStarts(s: string, from: nat): set<nat> {
    set q: nat | from <= q < |s| && TokenStart(s, q)
  }

  // ---------------------------------------------------------------------------
  // Scanning, as the global regex match does it
  // ---------------------------------------------------------------------------

  /** The first position at or after `from` where a placeholder starts, or `|s|` if there is none. */
  function FindToken(s: string, from: nat): (r: nat)
    requires from <= |s|
    ensures from <= r <= |s|
    ensures r < |s| ==> TokenStart(s, r)
    ensures forall q :: from <= q < r ==> !TokenStart(s, q)
    decreases |s| - from
  {
    if from == |s| then |s|
    else if TokenStart(s, from) then from
    else FindToken(s, from + 1)
  }

  /** The end of the maximal run of word characters that begins at `j`. */
  function WordEnd(s: string, j: nat): (r: nat)
    requires j <= |s|
    ensures j <= r <= |s|
    ensures forall q :: j <= q < r ==> IsWordChar(s[q])
    ensures r < |s| ==> !IsWordChar(s[r])
    decreases |s| - j
  {
    if j < |s| && IsWordChar(s[j]) then WordEnd(s, j + 1) else j
  }

  /** The end of the placeholder that starts at `start`; it is at least two characters long. */
  function TokenEnd(s: string, start: nat): (r: nat)
    requires TokenStart(s, start)
    ensures start + 2 <= r <= |s|
  {
    WordEnd(s, start + 1)
  }

  /** The texts `statement.match(/(@\w*\b)/g)` yields for the part of `s` from `from` on, in order. */
  function Tokens(s: string, from: nat): (r: seq<string>)
    requires from <= |s|
    ensures forall i :: 0 <= i < |r| ==> IsToken(r[i])
    decreases |s| - from
  {
    var start := FindToken(s, from);
    if start == |s| then []
    else
      var end := TokenEnd(s, start);
      [s[start..end]] + Tokens(s, end)
  }

  /** The text between the placeholders of `s` from `from` on: before the first, between each two, after the last. */
  function Gaps(s: string, from: nat): (r: seq<string>)
    requires from <= |s|
    ensures |r| == |Tokens(s, from)| + 1
    ensures forall i :: 0 <= i < |r| ==> NoPlaceholder(r[i])
    decreases |s| - from
  {
    var start := FindToken(s, from);
    GapHasNoPlaceholder(s, from, start);
    if start == |s| then [s[from..start]]
    else [s[from..start]] + Gaps(s, TokenEnd(s, start))
  }

  /** `gaps[0] + fills[0] + gaps[1] + ... + fills[n-1] + gaps[n]`. */
  function Weave(gaps: seq<string>, fills: seq<string>): string
    requires |gaps| == |fills| + 1
    decreases |fills|
  {
    if |fills| == 0 then gaps[0] else gaps[0] + fills[0] + Weave(gaps[1..], fills[1..])
  }

  // ---------------------------------------------------------------------------
  // Positional placeholders
  // ---------------------------------------------------------------------------

  function DigitChar(d: nat): char
    requires d < 10
  {
    (('0' as int) + d) as char
  }

  /** The decimal text of `n` that `'$' + n` produces: no sign, no leading zeros. */
  function DecimalString(n: nat): (r: string)
    ensures |r| >= 1
    ensures forall i :: 0 <= i < |r| ==> IsDigit(r[i])
    ensures r[0] == '0' ==> n == 0
  {
    if n < 10 then [DigitChar(n)] else DecimalString(n / 10) + [DigitChar(n % 10)]
  }

  /** Reads a string of decimal digits back as a number. */
  function DecimalValue(r: string): nat {
    if |r| == 0 then 0
    else
      var d := (r[|r| - 1] as int) - ('0' as int);
      DecimalValue(r[..|r| - 1]) * 10 + (if 0 <= d then d else 0)
  }

  /** The positional placeholder `$k`. */
  function Placeholder(k: nat): string {
    "$" + DecimalString(k)
  }

  /** `$first`, `$first+1`, ..., `n` of them. */
  function PlaceholderRun(first: nat, n: nat): (r: seq<string>)
    ensures |r| == n
  {
    seq(n, i requires 0 <= i < n => Placeholder(first + i))
  }

  /** The statement with its i-th named placeholder replaced by `$i` and every other character kept. */
  function Rewrite(s: string): string {
    Weave(Gaps(s, 0), PlaceholderRun(1, |Tokens(s, 0)|))
  }

  // ---------------------------------------------------------------------------
  // First-occurrence replacement, as `String.prototype.replace` with a string pattern
  // ---------------------------------------------------------------------------

  predicate OccursAt(s: string, pat: string, q: int) {
    0 <= q && q + |pat| <= |s| && s[q..q + |pat|] == pat
  }

  /** The first position at or after `from` where `pat` occurs in `s`. */
  function IndexOf(s: string, pat: string, from: nat): (r: Option<nat>)
    ensures r.Some? ==> from <= r.value && OccursAt(s, pat, r.value)
    ensures forall q :: from <= q && (r.None? || q < r.value) ==> !OccursAt(s, pat, q)
    decreases |s| - from
  {
    if from + |pat| > |s| then None
    else if s[from..from + |pat|] == pat then Some(from)
    else IndexOf(s, pat, from + 1)
  }

  /**
   * `s.replace(pat, rep)` with a string pattern: only the first occurrence of
   * `pat` is replaced. The replacement `$k` is inserted literally, since a
   * string pattern has no capture groups for `$k` to refer to.
   */
  function ReplaceFirst(s: string, pat: string, rep: string): (r: string)
    ensures IndexOf(s, pat, 0).None? ==> r == s
  {
    match IndexOf(s, pat, 0)
    case None => s
    case Some(i) => s[..i] + rep + s[i + |pat|..]
  }

  // ---------------------------------------------------------------------------
  // Lemmas
  // ---------------------------------------------------------------------------

  /** The text between `from` and the next placeholder start holds no placeholder. */
  lemma GapHasNoPlaceholder(s: string, from: nat, start: nat)
    requires from <= start <= |s|
    requires forall q :: from <= q < start ==> !TokenStart(s, q)
    ensures NoPlaceholder(s[from..start])
  {
    var g := s[from..start];
    forall q | 0 <= q < |g| ensures !TokenStart(g, q) {
      assert TokenStart(g, q) ==> TokenStart(s, from + q);
    }
  }

  /** Joining two placeholder-free texts creates no placeholder unless an `@` meets a word character. */
  lemma ConcatNoPlaceholder(a: string, b: string)
    requires NoPlaceholder(a) && NoPlaceholder(b)
    requires |a| > 0 && |b| > 0 && a[|a| - 1] == '@' ==> !IsWordChar(b[0])
    ensures NoPlaceholder(a + b)
  {
    var ab := a + b;
    forall q | 0 <= q < |ab| ensures !TokenStart(ab, q) {
      if q + 1 < |a| {
        assert TokenStart(ab, q) == TokenStart(a, q);
      } else if q + 1 == |a| {
        assert ab[q] == a[q];
        assert |b| > 0 ==> ab[q + 1] == b[0];
      } else {
        assert TokenStart(ab, q) == TokenStart(b, q - |a|);
      }
    }
  }

  /** `$k` holds no `@`, starts with a non-word character and ends with a digit. */
  lemma PlaceholderShape(k: nat)
    ensures NoPlaceholder(Placeholder(k))
    ensures |Placeholder(k)| >= 2 && Placeholder(k)[0] == '$'
    ensures IsDigit(Placeholder(k)[|Placeholder(k)| - 1])
  {
    var p := Placeholder(k);
    forall q | 0 <= q < |p| ensures !TokenStart(p, q) {
      assert p[q] == '$' || IsDigit(p[q]);
    }
  }

  /** `$k` names slot `k`: its digits read back as `k`. */
  lemma {:induction false} DecimalRoundTrip(n: nat)
    ensures DecimalValue(DecimalString(n)) == n
  {
    var r := DecimalString(n);
    if n < 10 {
      assert r[..0] == [];
    } else {
      DecimalRoundTrip(n / 10);
      assert r[..|r| - 1] == DecimalString(n / 10);
    }
  }

  /** Distinct slots get distinct placeholders. */
  lemma PlaceholderInjective(j: nat, k: nat)
    requires Placeholder(j) == Placeholder(k)
    ensures j == k
  {
    assert DecimalString(j) == Placeholder(j)[1..];
    assert DecimalString(k) == Placeholder(k)[1..];
    DecimalRoundTrip(j);
    DecimalRoundTrip(k);
  }

  /** An occurrence of a pattern of two or more characters begins with its first two. */
  lemma OccursAtHead(s: string, pat: string, q: int)
    requires |pat| >= 2
    ensures OccursAt(s, pat, q) ==> q + 1 < |s| && s[q] == pat[0] && s[q + 1] == pat[1]
  {
    if OccursAt(s, pat, q) {
      assert s[q..q + |pat|][0] == s[q] && s[q..q + |pat|][1] == s[q + 1];
    }
  }

  /**
   * When no placeholder starts before a token in the current text, replacing the
   * token's text by first occurrence replaces that very token.
   */
  lemma ReplaceFirstToken(prefix: string, tok: string, rest: string, rep: string)
    requires NoPlaceholder(prefix)
    requires IsToken(tok)
    ensures ReplaceFirst(prefix + tok + rest, tok, rep) == prefix + rep + rest
  {
    var s := prefix + tok + rest;
    var p := |prefix|;
    assert s[p..p + |tok|] == tok;
    assert OccursAt(s, tok, p);
    forall q | 0 <= q < p ensures !OccursAt(s, tok, q) {
      OccursAtHead(s, tok, q);
      if q + 1 < p {
        assert !TokenStart(prefix, q);
        assert s[q] == prefix[q] && s[q + 1] == prefix[q + 1];
      } else {
        assert s[q + 1] == tok[0];
      }
    }
    var i := IndexOf(s, tok, 0);
    assert i == Some(p);
    assert s[..p] == prefix;
    assert s[p + |tok|..] == rest;
  }

  lemma WeaveCons(g: string, gs: seq<string>, f: string, fs: seq<string>)
    requires |gs| == |fs| + 1
    ensures Weave([g] + gs, [f] + fs) == g + f + Weave(gs, fs)
  {
    assert ([g] + gs)[1..] == gs;
    assert ([f] + fs)[1..] == fs;
  }

  /** A suffix cut at two points is the concatenation of its three pieces. */
  lemma Split3(s: string, i: nat, j: nat, k: nat)
    requires i <= j <= k <= |s|
    ensures s[i..] == s[i..j] + s[j..k] + s[k..]
  {
    var r := s[i..j] + s[j..k] + s[k..];
    assert |r| == |s| - i;
    assert forall q :: 0 <= q < |r| ==> r[q] == s[i + q];
  }

  /** Unfolding the scan once, at a position where a placeholder follows. */
  lemma ScanStep(s: string, from: nat)
    requires from <= |s| && |Tokens(s, from)| > 0
    ensures FindToken(s, from) < |s|
    ensures var start := FindToken(s, from);
      var end := TokenEnd(s, start);
      && Tokens(s, from) == [s[start..end]] + Tokens(s, end)
      && Gaps(s, from) == [s[from..start]] + Gaps(s, end)
      && s[from..] == s[from..start] + s[start..end] + s[end..]
      && NoPlaceholder(s[from..start])
      && IsToken(s[start..end])
  {
    var start := FindToken(s, from);
    var end := TokenEnd(s, start);
    GapHasNoPlaceholder(s, from, start);
    assert Tokens(s, from) == [s[start..end]] + Tokens(s, end);
    assert Gaps(s, from) == [s[from..start]] + Gaps(s, end);
    Split3(s, from, start, end);
  }

  /** Past the last placeholder, the one remaining gap is the rest of the text. */
  lemma ScanDone(s: string, from: nat)
    requires from <= |s| && Tokens(s, from) == []
    ensures FindToken(s, from) == |s|
    ensures Gaps(s, from) == [s[from..]]
  {
    assert s[from..|s|] == s[from..];
  }

  /** The text from `from` on is its gaps and tokens, woven back together. */
  lemma {:induction false} SplitRoundTrip(s: string, from: nat)
    requires from <= |s|
    ensures Weave(Gaps(s, from), Tokens(s, from)) == s[from..]
    decreases |s| - from
  {
    var start := FindToken(s, from);
    if start < |s| {
      var end := TokenEnd(s, start);
      SplitRoundTrip(s, end);
      WeaveCons(s[from..start], Gaps(s, end), s[start..end], Tokens(s, end));
      Split3(s, from, start, end);
    }
  }

  /** Weaving placeholder-free gaps with positional placeholders leaves no named placeholder. */
  lemma {:induction false} WeaveNoPlaceholder(gaps: seq<string>, first: nat, n: nat)
    requires |gaps| == n + 1
    requires forall i :: 0 <= i < |gaps| ==> NoPlaceholder(gaps[i])
    ensures NoPlaceholder(Weave(gaps, PlaceholderRun(first, n)))
    decreases n
  {
    var fills := PlaceholderRun(first, n);
    if n > 0 {
      WeaveNoPlaceholder(gaps[1..], first + 1, n - 1);
      assert fills[1..] == PlaceholderRun(first + 1, n - 1);
      PlaceholderShape(first);
      ConcatNoPlaceholder(gaps[0], fills[0]);
      ConcatNoPlaceholder(gaps[0] + fills[0], Weave(gaps[1..], fills[1..]));
    }
  }

  /** The rewritten statement holds no `@word` token. */
  lemma RewriteHasNoPlaceholder(s: string)
    ensures NoPlaceholder(Rewrite(s))
  {
    WeaveNoPlaceholder(Gaps(s, 0), 1, |Tokens(s, 0)|);
  }

  /** A statement has no tokens exactly when it holds no named placeholder, and then rewriting keeps it. */
  lemma NoTokensIff(s: string)
    ensures Tokens(s, 0) == [] <==> NoPlaceholder(s)
    ensures NoPlaceholder(s) ==> Rewrite(s) == s
  {
    if Tokens(s, 0) == [] {
      assert FindToken(s, 0) == |s|;
    }
    if NoPlaceholder(s) {
      assert FindToken(s, 0) == |s|;
      ScanDone(s, 0);
    }
  }

  /** The placeholder starts from `from` on are the next one and those after its end. */
  lemma StartsSplit(s: string, from: nat, start: nat, end: nat)
    requires from <= |s| && start == FindToken(s, from) < |s| && end == TokenEnd(s, start)
    ensures TokenStarts(s, from) == {start} + TokenStarts(s, end)
    ensures start !in TokenStarts(s, end)
  {
    forall q: nat | start < q < end ensures !TokenStart(s, q) {
      assert IsWordChar(s[q]);
    }
  }

  /** Every `@word` position of the text yields exactly one token: the slot count is the number of placeholder starts. */
  lemma {:induction false} TokenCount(s: string, from: nat)
    requires from <= |s|
    ensures |Tokens(s, from)| == |TokenStarts(s, from)|
    decreases |s| - from
  {
    var start := FindToken(s, from);
    if start == |s| {
      assert TokenStarts(s, from) == {};
    } else {
      var end := TokenEnd(s, start);
      TokenCount(s, end);
      StartsSplit(s, from, start, end);
    }
  }

  /** Every gap after a token that is not empty starts with a non-word character, so it cannot lengthen that token. */
  predicate Separated(gaps: seq<string>) {
    forall i :: 1 <= i < |gaps| && |gaps[i]| > 0 ==> !IsWordChar(gaps[i][0])
  }

  /** What follows a token in a weave of separated gaps and tokens starts with a non-word character. */
  lemma AfterToken(gaps: seq<string>, toks: seq<string>)
    requires |gaps| == |toks| + 1 && |toks| > 0
    requires forall i :: 0 <= i < |toks| ==> IsToken(toks[i])
    requires Separated(gaps)
    ensures var r := Weave(gaps[1..], toks[1..]);
      |r| > 0 ==> !IsWordChar(r[0])
  {
    var g := gaps[1];
    var r := Weave(gaps[1..], toks[1..]);
    if |toks| > 1 {
      assert r == g + toks[1] + Weave(gaps[2..], toks[2..]);
      if |g| == 0 {
        assert r[0] == toks[1][0] == '@';
      } else {
        assert r[0] == g[0];
      }
    }
  }

  /** Dropping the first gap and token keeps the pieces well formed, and the weave is the first two pieces and the rest. */
  lemma TailPieces(gaps: seq<string>, toks: seq<string>)
    requires |gaps| == |toks| + 1 && |toks| > 0
    requires forall i :: 0 <= i < |gaps| ==> NoPlaceholder(gaps[i])
    requires forall i :: 0 <= i < |toks| ==> IsToken(toks[i])
    requires Separated(gaps)
    ensures NoPlaceholder(gaps[0]) && IsToken(toks[0])
    ensures forall i :: 0 <= i < |gaps| - 1 ==> NoPlaceholder(gaps[1..][i])
    ensures forall i :: 0 <= i < |toks| - 1 ==> IsToken(toks[1..][i])
    ensures Separated(gaps[1..])
    ensures Weave(gaps, toks) == gaps[0] + toks[0] + Weave(gaps[1..], toks[1..])
  {
    var gs := gaps[1..];
    forall i | 1 <= i < |gs| && |gs[i]| > 0 ensures !IsWordChar(gs[i][0]) {
      assert gs[i] == gaps[i + 1];
    }
  }

  /** A text with no placeholder from `from` on holds no more tokens, and the rest is one gap. */
  lemma ScanNoPlaceholder(s: string, from: nat)
    requires from <= |s| && NoPlaceholder(s[from..])
    ensures Tokens(s, from) == [] && Gaps(s, from) == [s[from..]]
  {
    var u := s[from..];
    forall q | from <= q < |s| ensures !TokenStart(s, q) {
      assert !TokenStart(u, q - from);
      assert s[q] == u[q - from];
      assert q + 1 < |s| ==> s[q + 1] == u[q + 1 - from];
    }
    assert FindToken(s, from) == |s|;
    assert s[from..|s|] == s[from..];
  }

  /**
   * A placeholder-free gap, then a token, then text starting with a non-word
   * character: the scan matches that token. The gap may hold `@` characters,
   * as in the operators `@>`, `<@` and `@@`; an `@` at its very end is followed
   * by the token's own `@`, which is no word character.
   */
  lemma ScanGapToken(s: string, from: nat, g: string, tok: string, rest: string)
    requires from <= |s| && s[from..] == g + tok + rest
    requires NoPlaceholder(g) && IsToken(tok)
    requires |rest| > 0 ==> !IsWordChar(rest[0])
    ensures var k := from + |g|;
      var e := k + |tok|;
      && e <= |s|
      && FindToken(s, from) == k && TokenEnd(s, k) == e
      && s[from..k] == g && s[k..e] == tok && s[e..] == rest
  {
    var k := from + |g|;
    var e := k + |tok|;
    var u := s[from..];
    assert |u| == |g| + |tok| + |rest|;
    assert u[..|g|] == g && u[|g|..|g| + |tok|] == tok && u[|g| + |tok|..] == rest;
    assert s[from..k] == u[..|g|];
    assert s[k..e] == u[|g|..|g| + |tok|];
    assert s[e..] == u[|g| + |tok|..];
    forall q | from <= q < k ensures !TokenStart(s, q) {
      assert s[q] == g[q - from];
      if q + 1 < k {
        assert !TokenStart(g, q - from);
        assert s[q + 1] == g[q + 1 - from];
      } else {
        assert s[q + 1] == tok[0];
      }
    }
    assert s[k] == tok[0] && s[k + 1] == tok[1] && IsWordChar(tok[1]);
    assert TokenStart(s, k);
    assert FindToken(s, from) == k;
    assert forall j :: k + 1 <= j < e ==> s[j] == tok[j - k];
    assert e < |s| ==> s[e] == rest[0];
    assert WordEnd(s, k + 1) == e;
  }

  /** The scan unfolded once at a known placeholder. */
  lemma ScanCons(s: string, from: nat, k: nat, e: nat)
    requires from <= |s| && FindToken(s, from) == k < |s|
    requires TokenEnd(s, k) == e
    ensures Tokens(s, from) == [s[k..e]] + Tokens(s, e)
    ensures Gaps(s, from) == [s[from..k]] + Gaps(s, e)
  {
  }

  /** One gap and one token read off the front of the text. */
  lemma ScanPiece(s: string, from: nat, g: string, tok: string, rest: string, e: nat)
    requires from <= |s| && s[from..] == g + tok + rest
    requires NoPlaceholder(g) && IsToken(tok)
    requires |rest| > 0 ==> !IsWordChar(rest[0])
    requires e == from + |g| + |tok|
    ensures e <= |s| && s[e..] == rest
    ensures Tokens(s, from) == [tok] + Tokens(s, e)
    ensures Gaps(s, from) == [g] + Gaps(s, e)
  {
    ScanGapToken(s, from, g, tok, rest);
    var k := from + |g|;
    assert FindToken(s, from) == k < |s| && TokenEnd(s, k) == e;
    assert s[from..k] == g && s[k..e] == tok;
    ScanCons(s, from, k, e);
  }

  /** The last gap of a weave is the rest of the text. */
  lemma ScanWeaveEnd(s: string, from: nat, gaps: seq<string>)
    requires |gaps| == 1 && from <= |s| && s[from..] == Weave(gaps, [])
    requires NoPlaceholder(gaps[0])
    ensures Tokens(s, from) == [] && Gaps(s, from) == gaps
  {
    ScanNoPlaceholder(s, from);
    assert gaps == [gaps[0]];
  }

  /** The first gap and token of a weave are the first the scan reads. */
  lemma ScanWeaveFront(s: string, from: nat, gaps: seq<string>, toks: seq<string>, e: nat)
    requires |gaps| == |toks| + 1 && |toks| > 0
    requires from <= |s| && s[from..] == gaps[0] + toks[0] + Weave(gaps[1..], toks[1..])
    requires NoPlaceholder(gaps[0]) && forall i :: 0 <= i < |toks| ==> IsToken(toks[i])
    requires Separated(gaps)
    requires e == from + |gaps[0]| + |toks[0]|
    ensures e <= |s| && s[e..] == Weave(gaps[1..], toks[1..])
    ensures Tokens(s, from) == [toks[0]] + Tokens(s, e)
    ensures Gaps(s, from) == [gaps[0]] + Gaps(s, e)
  {
    AfterToken(gaps, toks);
    ScanPiece(s, from, gaps[0], toks[0], Weave(gaps[1..], toks[1..]), e);
  }

  /**
   * The converse of `SplitRoundTrip`: a text assembled from placeholder-free
   * gaps and tokens, each later gap starting with a non-word character, is
   * matched back into exactly those tokens, with exactly those gaps between them.
   */
  lemma {:induction false} ScanWeave(s: string, from: nat, gaps: seq<string>, toks: seq<string>)
    requires |gaps| == |toks| + 1
    requires from <= |s| && s[from..] == Weave(gaps, toks)
    requires forall i :: 0 <= i < |gaps| ==> NoPlaceholder(gaps[i])
    requires forall i :: 0 <= i < |toks| ==> IsToken(toks[i])
    requires Separated(gaps)
    ensures Tokens(s, from) == toks
    ensures Gaps(s, from) == gaps
    decreases |toks|
  {
    if |toks| == 0 {
      ScanWeaveEnd(s, from, gaps);
    } else {
      var e := from + |gaps[0]| + |toks[0]|;
      TailPieces(gaps, toks);
      ScanWeaveFront(s, from, gaps, toks, e);
      ScanWeave(s, e, gaps[1..], toks[1..]);
      assert toks == [toks[0]] + toks[1..];
      assert gaps == [gaps[0]] + gaps[1..];
    }
  }

  /** Each token's word run is maximal: every gap after a token that is not empty starts with a non-word character. */
  lemma {:induction false} GapsSeparated(s: string, from: nat)
    requires from <= |s|
    ensures Separated(Gaps(s, from))
    decreases |s| - from
  {
    var start := FindToken(s, from);
    if start < |s| {
      var end := TokenEnd(s, start);
      GapsSeparated(s, end);
      var rest := Gaps(s, end);
      assert Gaps(s, from) == [s[from..start]] + rest;
      assert rest[0] == s[end..FindToken(s, end)];
      assert |rest[0]| > 0 ==> rest[0][0] == s[end] && !IsWordChar(s[end]);
    }
  }

  /**
   * The split is unique: the tokens and gaps of `s` are exactly the pieces
   * that weave back into `s`, with no placeholder inside a gap, every token
   * an `@` and word characters, and no gap after a token starting with a
   * word character.
   */
  lemma SplitUnique(s: string, gaps: seq<string>, toks: seq<string>)
    ensures (Tokens(s, 0) == toks && Gaps(s, 0) == gaps) <==>
      && |gaps| == |toks| + 1
      && Weave(gaps, toks) == s
      && (forall i :: 0 <= i < |gaps| ==> NoPlaceholder(gaps[i]))
      && (forall i :: 0 <= i < |toks| ==> IsToken(toks[i]))
      && Separated(gaps)
  {
    assert s[0..] == s;
    if Tokens(s, 0) == toks && Gaps(s, 0) == gaps {
      SplitRoundTrip(s, 0);
      GapsSeparated(s, 0);
    }
    if && |gaps| == |toks| + 1 && Weave(gaps, toks) == s
       && (forall i :: 0 <= i < |gaps| ==> NoPlaceholder(gaps[i]))
       && (forall i :: 0 <= i < |toks| ==> IsToken(toks[i]))
       && Separated(gaps)
    {
      ScanWeave(s, 0, gaps, toks);
    }
  }
}
