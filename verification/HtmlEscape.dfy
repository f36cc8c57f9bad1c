/**
 The attribute escaper of the recovery e-mails: five replacements run one after the
 other over the whole string, the ampersand first.
 */
module HtmlEscape {
  /** Every occurrence of c replaced by the string w, left to right, without looking at the replacements again. */
  function ReplaceAll(s: string, c: char, w: string): string {
    if s == [] then [] else (if s[0] == c then w else [s[0]]) + ReplaceAll(s[1..], c, w)
  }

  const AMP := "&amp;"
  const LT := "&lt;"
  const GT := "&gt;"
  const QUOT := "&quot;"
  const APOS := "&#39;"

  function HtmlAttrEscape(s: string): string {
    Passes(s, AMP, LT, GT, QUOT, APOS)
  }

  /** The passes in order, over any five replacement texts. */
  function Passes(s: string, amp: string, lt: string, gt: string, quot: string, apos: string): string {
    LaterPasses(ReplaceAll(s, '&', amp), lt, gt, quot, apos)
  }

  function LaterPasses(s: string, lt: string, gt: string, quot: string, apos: string): string {
    var r := ReplaceAll(s, '<', lt);
    var r := ReplaceAll(r, '>', gt);
    var r := ReplaceAll(r, '"', quot);
    ReplaceAll(r, '\'', apos)
  }

  /** The reference: each character on its own. */
  function EscapeChar(c: char): string {
    Choose(c, AMP, LT, GT, QUOT, APOS)
  }

  function EscapeEach(s: string): string {
    if s == [] then [] else EscapeChar(s[0]) + EscapeEach(s[1..])
  }

  lemma {:induction false} ReplaceAllConcat(a: string, b: string, c: char, w: string)
    ensures ReplaceAll(a + b, c, w) == ReplaceAll(a, c, w) + ReplaceAll(b, c, w)
  {
    if a == [] {
      assert a + b == b;
    } else {
      ReplaceAllConcat(a[1..], b, c, w);
      assert (a + b)[1..] == a[1..] + b;
      var head, x, y := if a[0] == c then w else [a[0]], ReplaceAll(a[1..], c, w), ReplaceAll(b, c, w);
      assert head + (x + y) == (head + x) + y;
    }
  }

  /** A string without c is not touched. */
  lemma {:induction false} ReplaceAllAbsent(s: string, c: char, w: string)
    requires c !in s
    ensures ReplaceAll(s, c, w) == s
  {
    if s != [] {
      ReplaceAllAbsent(s[1..], c, w);
    }
  }

  lemma ReplaceOne(c: char, d: char, w: string)
    ensures ReplaceAll([c], d, w) == if c == d then w else [c]
  {
    assert [c][1..] == [];
  }

  lemma PassesConcat(a: string, b: string, amp: string, lt: string, gt: string, quot: string, apos: string)
    ensures Passes(a + b, amp, lt, gt, quot, apos) == Passes(a, amp, lt, gt, quot, apos) + Passes(b, amp, lt, gt, quot, apos)
  {
    ReplaceAllConcat(a, b, '&', amp);
    var x, y := ReplaceAll(a, '&', amp), ReplaceAll(b, '&', amp);
    ReplaceAllConcat(x, y, '<', lt);
    x, y := ReplaceAll(x, '<', lt), ReplaceAll(y, '<', lt);
    ReplaceAllConcat(x, y, '>', gt);
    x, y := ReplaceAll(x, '>', gt), ReplaceAll(y, '>', gt);
    ReplaceAllConcat(x, y, '"', quot);
    ReplaceAllConcat(ReplaceAll(x, '"', quot), ReplaceAll(y, '"', quot), '\'', apos);
  }

  predicate Safe(s: string) {
    '<' !in s && '>' !in s && '"' !in s && '\'' !in s
  }

  /** The later passes leave a replacement alone: it has none of their characters. */
  lemma LaterPassesSkip(w: string, lt: string, gt: string, quot: string, apos: string)
    requires Safe(w)
    ensures LaterPasses(w, lt, gt, quot, apos) == w
  {
    ReplaceAllAbsent(w, '<', lt);
    ReplaceAllAbsent(w, '>', gt);
    ReplaceAllAbsent(w, '"', quot);
    ReplaceAllAbsent(w, '\'', apos);
  }

  function Choose(c: char, amp: string, lt: string, gt: string, quot: string, apos: string): string {
    match c
    case '&' => amp
    case '<' => lt
    case '>' => gt
    case '"' => quot
    case '\'' => apos
    case _ => [c]
  }

  lemma PassesOne(c: char, amp: string, lt: string, gt: string, quot: string, apos: string)
    requires Safe(amp) && Safe(lt) && Safe(gt) && Safe(quot)
    ensures Passes([c], amp, lt, gt, quot, apos) == Choose(c, amp, lt, gt, quot, apos)
  {
    ReplaceOne(c, '&', amp);
    if c == '&' {
      LaterPassesSkip(amp, lt, gt, quot, apos);
    } else {
      ReplaceOne(c, '<', lt);
      ReplaceOne(c, '>', gt);
      ReplaceOne(c, '"', quot);
      ReplaceOne(c, '\'', apos);
      ReplaceAllAbsent(lt, '>', gt);
      ReplaceAllAbsent(lt, '"', quot);
      ReplaceAllAbsent(lt, '\'', apos);
      ReplaceAllAbsent(gt, '"', quot);
      ReplaceAllAbsent(gt, '\'', apos);
      ReplaceAllAbsent(quot, '\'', apos);
    }
  }

  /** The five passes together act on each character once: no pass rewrites what another one wrote. */
  lemma {:induction false} FivePassesAreOne(s: string)
    ensures HtmlAttrEscape(s) == EscapeEach(s)
  {
    if s != [] {
      FivePassesAreOne(s[1..]);
      PassesOne(s[0], AMP, LT, GT, QUOT, APOS);
      PassesConcat([s[0]], s[1..], AMP, LT, GT, QUOT, APOS);
      assert [s[0]] + s[1..] == s;
    }
  }

  lemma {:induction false} EachIsSafe(s: string)
    ensures Safe(EscapeEach(s))
  {
    if s != [] {
      EachIsSafe(s[1..]);
    }
  }

  /** A browser's reading of the five entities; any other text stands for itself. */
  function Decode(s: string): string {
    if s == [] then []
    else if AMP <= s then ['&'] + Decode(s[5..])
    else if LT <= s then ['<'] + Decode(s[4..])
    else if GT <= s then ['>'] + Decode(s[4..])
    else if QUOT <= s then ['"'] + Decode(s[6..])
    else if APOS <= s then ['\''] + Decode(s[5..])
    else [s[0]] + Decode(s[1..])
  }

  lemma DecodeStep(c: char, rest: string)
    ensures Decode(EscapeChar(c) + rest) == [c] + Decode(rest)
  {
    var s := EscapeChar(c) + rest;
    assert s[|EscapeChar(c)|..] == rest;
    if c != '&' && c != '<' && c != '>' && c != '"' && c != '\'' {
      assert s[0] != '&';
    } else {
      assert s[1] == EscapeChar(c)[1] && s[2] == EscapeChar(c)[2];
    }
  }

  lemma {:induction false} DecodeEach(s: string)
    ensures Decode(EscapeEach(s)) == s
  {
    if s != [] {
      DecodeEach(s[1..]);
      DecodeStep(s[0], EscapeEach(s[1..]));
    }
  }

  /** For every string: no raw angle bracket or quote comes out, and decoding gives the string back. */
  lemma EscapeRoundTrip(s: string)
    ensures Safe(HtmlAttrEscape(s)) && Decode(HtmlAttrEscape(s)) == s
  {
    FivePassesAreOne(s);
    EachIsSafe(s);
    DecodeEach(s);
  }

  /** Two strings with the same escaped form are the same string. */
  lemma EscapeIsInjective(s: string, t: string)
    requires HtmlAttrEscape(s) == HtmlAttrEscape(t)
    ensures s == t
  {
    EscapeRoundTrip(s);
    EscapeRoundTrip(t);
  }
}
