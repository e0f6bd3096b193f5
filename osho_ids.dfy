/**
 * The one-off rewrite of the Osho meanings table: every single-quoted token
 * made of capital letters and underscores that ends in `_OSHO` is replaced by
 * the same token lower-cased with underscores turned into hyphens, which is
 * the id normalisation the interpretation lookup applies. The scan is the one
 * a global regular-expression replace performs: left to right, resuming after
 * the end of each match.
 */
module OshoIds {
  import opened Text
  import CardInterpretation

  /** The characters of the class `[A-Z_]`. */
  predicate IsIdChar(c: char) { IsAsciiUpper(c) || c == '_' }

  /** The length of the longest run of `[A-Z_]` characters starting at `i`. */
  function RunLen(s: string, i: nat): (n: nat)
    requires i <= |s|
    ensures i + n <= |s|
    decreases |s| - i
  {
    if i == |s| || !IsIdChar(s[i]) then 0 else 1 + RunLen(s, i + 1)
  }

  /** A character inside the run is in `[A-Z_]`. */
  lemma {:induction false} RunLenAt(s: string, i: nat, k: nat)
    requires i <= |s| && i <= k < i + RunLen(s, i)
    ensures IsIdChar(s[k])
    decreases k - i
  {
    if i < k {
      RunLenAt(s, i + 1, k);
    }
  }

  /** The run is made of `[A-Z_]` characters and is followed by another character or the end. */
  lemma {:induction false} RunLenMaximal(s: string, i: nat)
    requires i <= |s|
    ensures forall k :: i <= k < i + RunLen(s, i) ==> IsIdChar(s[k])
    ensures i + RunLen(s, i) < |s| ==> !IsIdChar(s[i + RunLen(s, i)])
    decreases |s| - i
  {
    if i < |s| && IsIdChar(s[i]) {
      RunLenMaximal(s, i + 1);
    }
  }

  /**
   * The regular expression matches at `i` with a group of length `m`: a quote,
   * `m` characters of `[A-Z_]` of which the last five are `_OSHO` and at least
   * one precedes them, and a closing quote.
   */
  predicate TokenAt(s: string, i: nat, m: nat)
  {
    6 <= m && i + m + 1 < |s| && s[i] == '\'' && s[i + m + 1] == '\''
    && (forall k :: i + 1 <= k <= i + m ==> IsIdChar(s[k]))
    && EndsOsho(s, i + m + 1)
  }

  /** The five characters before position `e` spell `_OSHO`. */
  predicate EndsOsho(s: string, e: nat)
  {
    5 <= e <= |s| && s[e - 5] == '_' && s[e - 4] == 'O' && s[e - 3] == 'S' && s[e - 2] == 'H'
    && s[e - 1] == 'O'
  }

  /**
   * The match test the rewrite uses: since the quote is not in `[A-Z_]`, the
   * only group the expression can take is the whole run after the quote.
   */
  predicate MatchAt(s: string, i: nat)
    requires i < |s|
  {
    && s[i] == '\''
    && (var n := RunLen(s, i + 1);
        6 <= n && i + n + 1 < |s| && s[i + n + 1] == '\'' && EndsOsho(s, i + n + 1))
  }

  /** The match test agrees with the regular expression, and its group is unique. */
  lemma MatchAtIff(s: string, i: nat)
    requires i < |s|
    ensures MatchAt(s, i) <==> exists m :: TokenAt(s, i, m)
    ensures forall m :: TokenAt(s, i, m) ==> m == RunLen(s, i + 1)
  {
    RunLenMaximal(s, i + 1);
    forall m | TokenAt(s, i, m) ensures m == RunLen(s, i + 1) {
      var n := RunLen(s, i + 1);
      assert i + 1 + n < |s| ==> !IsIdChar(s[i + 1 + n]);
      assert n >= m;
      assert !IsIdChar(s[i + m + 1]);
      assert n <= m;
    }
    if MatchAt(s, i) {
      assert TokenAt(s, i, RunLen(s, i + 1));
    }
  }

  /** One character of the replacement: `toLowerCase`, then `_` to `-`. */
  function ConvertChar(c: char): char
  {
    if c == '_' then '-' else LowerChar(c)
  }

  /** The replacement of a matched group, character by character. */
  function Convert(token: string): (r: string)
    ensures |r| == |token|
  {
    if |token| == 0 then "" else [ConvertChar(token[0])] + Convert(token[1..])
  }

  lemma {:induction false} ConvertAt(token: string, k: nat)
    requires k < |token|
    ensures Convert(token)[k] == ConvertChar(token[k])
  {
    if k > 0 {
      ConvertAt(token[1..], k - 1);
    }
  }

  /** The replacement is the id normalisation the interpretation lookup applies. */
  lemma ConvertIsNormalizeId(token: string)
    ensures Convert(token) == CardInterpretation.NormalizeId(token)
  {
    var c := Convert(token);
    var d := CardInterpretation.NormalizeId(token);
    forall k | 0 <= k < |token| ensures c[k] == d[k] {
      ConvertAt(token, k);
    }
  }

  /** Where the scan resumes after looking at position `i`: past the match, or at the next character. */
  function Next(s: string, i: nat): (j: nat)
    requires i < |s|
    ensures i < j <= |s|
  {
    if MatchAt(s, i) then i + RunLen(s, i + 1) + 2 else i + 1
  }

  /** What the scan emits at position `i`: the quoted converted group, or the character itself. */
  function Piece(s: string, i: nat): (p: string)
    requires i < |s|
    ensures |p| == Next(s, i) - i
  {
    if MatchAt(s, i) then ['\''] + Convert(s[i + 1..i + RunLen(s, i + 1) + 1]) + ['\''] else [s[i]]
  }

  /** The rewrite of `s` from position `i` on. */
  function RewriteFrom(s: string, i: nat): (r: string)
    requires i <= |s|
    ensures |r| == |s| - i
    decreases |s| - i
  {
    if i == |s| then "" else Piece(s, i) + RewriteFrom(s, Next(s, i))
  }

  /** The whole rewrite; each replacement is as long as its match, so the length is kept. */
  function Rewrite(s: string): (r: string)
    ensures |r| == |s|
  {
    RewriteFrom(s, 0)
  }

  /** Position `k` lies in the group of a match that the scan from `i` takes. */
  ghost predicate InMatchFrom(s: string, i: nat, k: nat)
  {
    exists j :: i <= j < k < |s| && MatchAt(s, j) && k <= j + RunLen(s, j + 1)
  }

  /**
   * The rewrite `r` of `s` from `i` keeps the character at `k`, or the
   * character is in the group of a match and is converted.
   */
  ghost predicate KeptOrConverted(s: string, i: nat, r: string, k: nat)
    requires i <= k < |s| && |r| == |s| - i
  {
    r[k - i] == s[k] || (IsIdChar(s[k]) && r[k - i] == ConvertChar(s[k]) && InMatchFrom(s, i, k))
  }

  /** Within one emitted piece: the quotes and unmatched characters are kept, the group converted. */
  lemma PieceAt(s: string, i: nat, k: nat)
    requires i < |s| && i <= k < Next(s, i)
    ensures Piece(s, i)[k - i] == s[k]
      || (IsIdChar(s[k]) && Piece(s, i)[k - i] == ConvertChar(s[k])
          && MatchAt(s, i) && i < k <= i + RunLen(s, i + 1))
  {
    if MatchAt(s, i) && i < k <= i + RunLen(s, i + 1) {
      PieceInGroup(s, i, k);
    }
  }

  lemma PieceInGroup(s: string, i: nat, k: nat)
    requires i < |s| && MatchAt(s, i) && i < k <= i + RunLen(s, i + 1)
    ensures IsIdChar(s[k]) && Piece(s, i)[k - i] == ConvertChar(s[k])
  {
    var g := s[i + 1..i + RunLen(s, i + 1) + 1];
    assert IsIdChar(s[k]) by {
      RunLenAt(s, i + 1, k);
    }
    assert Piece(s, i)[k - i] == Convert(g)[k - i - 1] by {
      assert Piece(s, i) == ['\''] + Convert(g) + ['\''];
    }
    assert Convert(g)[k - i - 1] == ConvertChar(s[k]) by {
      ConvertAt(g, k - i - 1);
    }
  }

  /**
   * Character by character, the rewrite either keeps the input or, inside
   * the group of a match, lower-cases a capital letter and turns `_` into `-`.
   */
  lemma {:induction false} RewriteFromAt(s: string, i: nat, k: nat)
    requires i <= k < |s|
    ensures KeptOrConverted(s, i, RewriteFrom(s, i), k)
    decreases |s| - i
  {
    var j := Next(s, i);
    var r := RewriteFrom(s, i);
    assert r == Piece(s, i) + RewriteFrom(s, j);
    if k < j {
      PieceAt(s, i, k);
      assert r[k - i] == Piece(s, i)[k - i];
    } else {
      RewriteFromAt(s, j, k);
      assert r[k - i] == RewriteFrom(s, j)[k - j];
      if r[k - i] != s[k] {
        var w :| j <= w < k < |s| && MatchAt(s, w) && k <= w + RunLen(s, w + 1);
      }
    }
  }

  /**
   * Only the groups of matched tokens change: every other character,
   * the quotes included, is kept.
   */
  lemma RewritePointwise(s: string)
    ensures forall k :: 0 <= k < |s| ==>
      Rewrite(s)[k] == s[k]
      || (IsIdChar(s[k]) && Rewrite(s)[k] == ConvertChar(s[k]) && InMatchFrom(s, 0, k))
  {
    forall k | 0 <= k < |s|
      ensures Rewrite(s)[k] == s[k]
        || (IsIdChar(s[k]) && Rewrite(s)[k] == ConvertChar(s[k]) && InMatchFrom(s, 0, k))
    {
      RewriteFromAt(s, 0, k);
    }
  }

  /** Text in which the expression matches nowhere is left as it is. */
  lemma {:induction false} NoMatchIdentity(s: string, i: nat)
    requires i <= |s|
    requires forall k :: i <= k < |s| ==> !MatchAt(s, k)
    ensures RewriteFrom(s, i) == s[i..]
    decreases |s| - i
  {
    if i < |s| {
      assert RewriteFrom(s, i + 1) == s[i + 1..] by {
        NoMatchIdentity(s, i + 1);
      }
      assert RewriteFrom(s, i) == [s[i]] + RewriteFrom(s, i + 1) by {
        assert !MatchAt(s, i);
      }
      assert s[i..] == [s[i]] + s[i + 1..];
    }
  }

  /**
   * A matched group converts to an id with no capital letter and no `_`
   * that ends in `-osho` (the normalised form the lookup searches for).
   */
  lemma ConvertedShape(token: string)
    requires |token| >= 6
    requires forall k :: 0 <= k < |token| ==> IsIdChar(token[k])
    requires EndsOsho(token, |token|)
    ensures forall k :: 0 <= k < |token| ==>
      !IsAsciiUpper(Convert(token)[k]) && Convert(token)[k] != '_'
    ensures Convert(token)[|token| - 5..] == "-osho"
    ensures CardInterpretation.NormalizeId(Convert(token)) == Convert(token)
  {
    var c := Convert(token);
    var n := |token|;
    forall k | 0 <= k < n ensures !IsAsciiUpper(c[k]) && c[k] != '_' {
      ConvertAt(token, k);
    }
    assert c[n - 5..] == "-osho" by {
      ConvertAt(token, n - 5);
      ConvertAt(token, n - 4);
      ConvertAt(token, n - 3);
      ConvertAt(token, n - 2);
      ConvertAt(token, n - 1);
    }
    assert CardInterpretation.NormalizeId(c) == c by {
      ConvertIsNormalizeId(token);
      CardInterpretation.NormalizeIdempotent(token);
    }
  }

  /** A quoted token of at least six `[A-Z_]` characters ending in `_OSHO` starting at `i`. */
  predicate QuotedToken(s: string, i: nat, n: nat)
  {
    6 <= n && i + n + 1 < |s| && s[i] == '\'' && s[i + n + 1] == '\''
    && (forall k :: i + 1 <= k <= i + n ==> IsIdChar(s[k]))
    && EndsOsho(s, i + n + 1)
  }

  /** At a quoted token the scan matches, emits the converted group and resumes after the closing quote. */
  lemma QuotedTokenStep(s: string, i: nat, n: nat)
    requires QuotedToken(s, i, n)
    ensures MatchAt(s, i) && RunLen(s, i + 1) == n
    ensures RewriteFrom(s, i) == ['\''] + Convert(s[i + 1..i + n + 1]) + ['\''] + RewriteFrom(s, i + n + 2)
  {
    RunLenAll(s, i + 1, i + n + 1);
    assert MatchAt(s, i);
  }

  /** Text without any `[A-Z_]` character is left as it is. */
  lemma NoIdCharIdentity(s: string)
    requires forall k :: 0 <= k < |s| ==> !IsIdChar(s[k])
    ensures Rewrite(s) == s
  {
    forall k | 0 <= k < |s| ensures !MatchAt(s, k) {
      assert RunLen(s, k + 1) == 0 by {
        if k + 1 < |s| {
          assert !IsIdChar(s[k + 1]);
        }
      }
    }
    NoMatchIdentity(s, 0);
    assert s[0..] == s;
  }

  /** No character of a converted group is in `[A-Z_]`. */
  lemma ConvertedNoIdChar(token: string, k: nat)
    requires k < |token|
    ensures !IsIdChar(Convert(token)[k])
  {
    ConvertAt(token, k);
  }

  /**
   * Text that is one quoted token is rewritten to the quoted converted id,
   * and a second pass over that changes nothing.
   */
  lemma SingleTokenStable(s: string)
    requires |s| >= 2 && QuotedToken(s, 0, |s| - 2)
    ensures Rewrite(s) == ['\''] + Convert(s[1..|s| - 1]) + ['\'']
    ensures Rewrite(Rewrite(s)) == Rewrite(s)
  {
    QuotedTokenStep(s, 0, |s| - 2);
    var g := s[1..|s| - 1];
    var r := Rewrite(s);
    assert r == ['\''] + Convert(g) + ['\''];
    forall k | 0 <= k < |r| ensures !IsIdChar(r[k]) {
      if 1 <= k < |r| - 1 {
        assert r[k] == Convert(g)[k - 1];
        ConvertedNoIdChar(g, k - 1);
      }
    }
    NoIdCharIdentity(r);
  }

  lemma {:induction false} RunLenAll(s: string, i: nat, j: nat)
    requires i <= j <= |s|
    requires forall k :: i <= k < j ==> IsIdChar(s[k])
    requires j == |s| || !IsIdChar(s[j])
    ensures RunLen(s, i) == j - i
    decreases j - i
  {
    if i < j {
      RunLenAll(s, i + 1, j);
    }
  }

  /**
   * Two ids separated by one shared quote, as in `'A_OSHO'B_OSHO'`: the
   * first pass takes that quote as the closing one of the first match and
   * leaves the second id as it was, and a second pass then rewrites it. The
   * rewrite is therefore not idempotent.
   */
  lemma SharedQuoteNotIdempotent(s: string, n: nat, m: nat)
    requires |s| == n + m + 3 && QuotedToken(s, 0, n) && QuotedToken(s, n + 1, m)
    ensures Rewrite(s)[n + 2..] == s[n + 2..]
    ensures Rewrite(Rewrite(s)) != Rewrite(s)
  {
    var t := Rewrite(s);
    forall k | 0 <= k < |s|
      ensures 1 <= k <= n ==> !IsIdChar(t[k])
      ensures n + 2 <= k ==> t[k] == s[k]
      ensures k == 0 || k == n + 1 ==> t[k] == '\''
    {
      FirstPassAt(s, n, m, k);
    }
    assert QuotedToken(t, n + 1, m);
    SharedQuoteSecondPass(t, n, m);
  }

  /** The first pass character by character: the first group converted, the rest kept. */
  lemma FirstPassAt(s: string, n: nat, m: nat, k: nat)
    requires |s| == n + m + 3 && QuotedToken(s, 0, n) && QuotedToken(s, n + 1, m) && k < |s|
    ensures 1 <= k <= n ==> !IsIdChar(Rewrite(s)[k])
    ensures n + 2 <= k ==> Rewrite(s)[k] == s[k]
    ensures k == 0 || k == n + 1 ==> Rewrite(s)[k] == '\''
  {
    SharedQuoteFirstPass(s, n, m);
    var g := s[1..n + 1];
    if 1 <= k <= n {
      assert Rewrite(s)[k] == Convert(g)[k - 1];
      ConvertedNoIdChar(g, k - 1);
    }
  }

  /** The first pass converts the first id and then finds no further match. */
  lemma SharedQuoteFirstPass(s: string, n: nat, m: nat)
    requires |s| == n + m + 3 && QuotedToken(s, 0, n) && QuotedToken(s, n + 1, m)
    ensures Rewrite(s) == ['\''] + Convert(s[1..n + 1]) + ['\''] + s[n + 2..]
  {
    QuotedTokenFirst(s, n);
    RunThenLastQuote(s, n + 2, m);
  }

  lemma QuotedTokenFirst(s: string, n: nat)
    requires QuotedToken(s, 0, n)
    ensures Rewrite(s) == ['\''] + Convert(s[1..n + 1]) + ['\''] + RewriteFrom(s, n + 2)
  {
    RunLenAll(s, 1, n + 1);
    assert MatchAt(s, 0);
  }

  /** After the opening quote of a token that closes the text no match starts, so the scan copies it. */
  lemma RunThenLastQuote(s: string, i: nat, m: nat)
    requires 1 <= i && QuotedToken(s, i - 1, m) && |s| == i + m + 1
    ensures RewriteFrom(s, i) == s[i..]
  {
    forall k | i <= k < |s| ensures !MatchAt(s, k) {
      if k == |s| - 1 {
        assert RunLen(s, k + 1) == 0;
      } else {
        assert IsIdChar(s[k]);
      }
    }
    NoMatchIdentity(s, i);
  }

  /** On the once-rewritten text the scan copies up to the shared quote and converts the second id there. */
  lemma SharedQuoteSecondPass(t: string, n: nat, m: nat)
    requires 6 <= n && |t| == n + m + 3
    requires t[0] == '\''
    requires forall k :: 1 <= k <= n ==> !IsIdChar(t[k])
    requires QuotedToken(t, n + 1, m)
    ensures Rewrite(t) != t
  {
    var i := n + 1;
    var g := t[i + 1..i + m + 1];
    var q := ['\''] + Convert(g) + ['\''] + RewriteFrom(t, i + m + 2);
    assert RewriteFrom(t, 0) == t[0..i] + RewriteFrom(t, i) by {
      QuoteThenNoRun(t, n);
    }
    QuotedTokenStep(t, i, m);
    assert Rewrite(t)[i + 1] == q[1];
    assert q[1] != t[i + 1] by {
      assert q[1] == Convert(g)[0];
      ConvertAt(g, 0);
      assert IsIdChar(g[0]);
    }
    assert Rewrite(t)[i + 1] != t[i + 1];
  }

  /** Before a stretch of characters outside `[A-Z_]` no match can start, so the scan copies up to it. */
  lemma QuoteThenNoRun(t: string, n: nat)
    requires n + 1 < |t|
    requires forall k :: 1 <= k <= n + 1 ==> !IsIdChar(t[k])
    ensures RewriteFrom(t, 0) == t[0..n + 1] + RewriteFrom(t, n + 1)
  {
    forall k | 0 <= k < n + 1 ensures !MatchAt(t, k) {
      assert RunLen(t, k + 1) == 0 by {
        assert !IsIdChar(t[k + 1]);
      }
    }
    SkipPrefix(t, 0, n + 1);
  }

  /** Where the scan finds no match before `j`, it copies the text up to `j`. */
  lemma {:induction false} SkipPrefix(s: string, i: nat, j: nat)
    requires i <= j <= |s|
    requires forall k :: i <= k < j ==> !MatchAt(s, k)
    ensures RewriteFrom(s, i) == s[i..j] + RewriteFrom(s, j)
    decreases j - i
  {
    if i < j {
      assert RewriteFrom(s, i + 1) == s[i + 1..j] + RewriteFrom(s, j) by {
        SkipPrefix(s, i + 1, j);
      }
      assert RewriteFrom(s, i) == [s[i]] + RewriteFrom(s, i + 1) by {
        assert !MatchAt(s, i);
      }
      assert s[i..j] == [s[i]] + s[i + 1..j];
    }
  }
}
