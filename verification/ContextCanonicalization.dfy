/** Byte-wise order of strings, and sorting a set of strings by it. */
module StringOrder {
  predicate Less(a: string, b: string) {
    if b == [] then false
    else if a == [] then true
    else a[0] < b[0] || (a[0] == b[0] && Less(a[1..], b[1..]))
  }

  lemma {:induction false} LessTrans(a: string, b: string, c: string)
    requires Less(a, b) && Less(b, c)
    ensures Less(a, c)
    decreases |a|
  {
    if a != [] && a[0] == b[0] == c[0] {
      LessTrans(a[1..], b[1..], c[1..]);
    }
  }

  lemma {:induction false} LessTotal(a: string, b: string)
    ensures a == b || Less(a, b) || Less(b, a)
    ensures !Less(a, a)
    decreases |a|
  {
    if a != [] {
      LessTotal(a[1..], if b == [] then [] else b[1..]);
      if b != [] && a[0] == b[0] && a[1..] == b[1..] {
        assert a == [a[0]] + a[1..] && b == [b[0]] + b[1..];
      }
    }
  }

  /** a and b agree up to i, and there a has the smaller character. */
  predicate DiffersAt(a: string, b: string, i: nat) {
    i < |a| && i < |b| && a[..i] == b[..i] && a[i] < b[i]
  }

  /** The order is decided by the first difference; a proper prefix comes first. */
  lemma {:induction false} LessIff(a: string, b: string)
    ensures Less(a, b) <==> a < b || exists i: nat :: DiffersAt(a, b, i)
    decreases |a|
  {
    if a != [] && b != [] && a[0] == b[0] {
      LessIff(a[1..], b[1..]);
      assert a < b <==> a[1..] < b[1..];
      forall i: nat ensures DiffersAt(a[1..], b[1..], i) <==> DiffersAt(a, b, i + 1) {
        DiffersLater(a, b, i);
      }
      assert forall i: nat | DiffersAt(a, b, i) :: i > 0 && DiffersAt(a[1..], b[1..], i - 1);
    } else if a != [] && b != [] && a[0] < b[0] {
      assert DiffersAt(a, b, 0);
    }
  }

  lemma DiffersLater(a: string, b: string, i: nat)
    requires a != [] && b != [] && a[0] == b[0]
    ensures DiffersAt(a[1..], b[1..], i) <==> DiffersAt(a, b, i + 1)
  {
    if i + 1 < |a| && i + 1 < |b| {
      assert a[..i + 1] == [a[0]] + a[1..][..i] && b[..i + 1] == [b[0]] + b[1..][..i];
      assert a[..i + 1][1..] == a[1..][..i] && b[..i + 1][1..] == b[1..][..i];
    }
  }

  predicate IsLeast(s: set<string>, m: string) {
    m in s && forall x | x in s :: x == m || Less(m, x)
  }

  method LeastOf(s: set<string>) returns (m: string)
    requires s != {}
    ensures IsLeast(s, m)
  {
    m :| m in s;
    var rest := s - {m};
    while rest != {}
      invariant rest <= s && m in s - rest
      invariant forall x | x in s - rest :: x == m || Less(m, x)
      decreases |rest|
    {
      var x :| x in rest;
      LessTotal(x, m);
      if Less(x, m) {
        forall y | y in s - rest && y != m ensures Less(x, y) {
          LessTrans(x, m, y);
        }
        m := x;
      }
      rest := rest - {x};
    }
  }

  predicate Ascending(r: seq<string>) {
    forall i, j | 0 <= i < j < |r| :: Less(r[i], r[j])
  }

  /** The elements of s in ascending order, each once. */
  method Sorted(s: set<string>) returns (r: seq<string>)
    ensures Ascending(r) && |r| == |s| && forall x :: x in r <==> x in s
  {
    r := [];
    var rest := s;
    while rest != {}
      invariant rest <= s && |r| == |s| - |rest|
      invariant forall x :: x in r <==> x in s - rest
      invariant Ascending(r) && forall i, x | 0 <= i < |r| && x in rest :: Less(r[i], x)
      decreases |rest|
    {
      var m := LeastOf(rest);
      r := r + [m];
      rest := rest - {m};
    }
  }
}

/**
 The canonical form of request-context keys and values. A string is a sequence of code
 points, and the Unicode tables of the runtime are parameters.
 */
module ContextText {
  const MAX_KEY_LEN: nat := 32
  const MAX_VALUE_LEN: nat := 256

  /** The runtime's tables: white space, lower case, printable characters, and encoded lengths in bytes. */
  datatype Unicode = Unicode(isSpace: char -> bool, lower: char -> char, printable: char -> bool, width: char -> nat)

  function TrimSpace(s: string, isSpace: char -> bool): string {
    if s == [] then []
    else if isSpace(s[0]) then TrimSpace(s[1..], isSpace)
    else if isSpace(s[|s| - 1]) then TrimSpace(s[..|s| - 1], isSpace)
    else s
  }

  /** Only white space is taken away, at the two ends, and none is left there. */
  lemma {:induction false} TrimSpaceTrims(s: string, isSpace: char -> bool) returns (i: nat, j: nat)
    ensures i <= j <= |s| && TrimSpace(s, isSpace) == s[i..j]
    ensures forall k | 0 <= k < i || j <= k < |s| :: isSpace(s[k])
    ensures i < j ==> !isSpace(s[i]) && !isSpace(s[j - 1])
    decreases |s|
  {
    i, j := 0, |s|;
    if s != [] && isSpace(s[0]) {
      var rest := s[1..];
      i, j := TrimSpaceTrims(rest, isSpace);
      assert forall k | 1 <= k < |s| :: s[k] == rest[k - 1];
      i, j := i + 1, j + 1;
    } else if s != [] && isSpace(s[|s| - 1]) {
      i, j := TrimSpaceTrims(s[..|s| - 1], isSpace);
    }
  }

  function Lower(s: string, lower: char -> char): (r: string)
    ensures |r| == |s| && forall i | 0 <= i < |s| :: r[i] == lower(s[i])
  {
    seq(|s|, i requires 0 <= i < |s| => lower(s[i]))
  }

  function Fold(u: Unicode, s: string): string {
    Lower(TrimSpace(s, u.isSpace), u.lower)
  }

  predicate AlphaNumeric(c: char) {
    'a' <= c <= 'z' || '0' <= c <= '9'
  }

  predicate EndsWord(s: string) {
    s != [] && s[|s| - 1] != '_'
  }

  /** Each run of other characters becomes one underscore; none leads. */
  function Collapse(s: string): string {
    if s == [] then []
    else
      var before, c := Collapse(s[..|s| - 1]), s[|s| - 1];
      if AlphaNumeric(c) then before + [c] else if EndsWord(before) then before + ['_'] else before
  }

  function TrimRight(s: string): string {
    if s != [] && s[|s| - 1] == '_' then TrimRight(s[..|s| - 1]) else s
  }

  function Cap(s: string, n: nat): string {
    if |s| <= n then s else s[..n]
  }

  /** The reference: collapse everything, cut to 32, trim. */
  function Canonical(s: string): string {
    TrimRight(Cap(Collapse(s), MAX_KEY_LEN))
  }

  /** Words over a-z and 0-9 joined by single underscores, 32 characters at most; possibly empty. */
  predicate IsCanonical(s: string) {
    && |s| <= MAX_KEY_LEN && Joined(s)
    && (s != [] ==> s[|s| - 1] != '_')
  }

  /** As above but for a trailing underscore and the length. */
  predicate Joined(s: string) {
    && (forall i | 0 <= i < |s| :: AlphaNumeric(s[i]) || s[i] == '_')
    && (s != [] ==> s[0] != '_')
    && (forall i | 1 <= i < |s| :: s[i - 1] == '_' ==> s[i] != '_')
  }

  lemma {:induction false} CollapseIsJoined(s: string)
    ensures Joined(Collapse(s))
  {
    if s != [] {
      CollapseIsJoined(s[..|s| - 1]);
    }
  }

  lemma {:induction false} CollapseFixes(s: string)
    requires Joined(s)
    ensures Collapse(s) == s
  {
    if s != [] {
      CollapseFixes(s[..|s| - 1]);
      assert s == s[..|s| - 1] + [s[|s| - 1]];
      if |s| > 1 {
        assert s[|s| - 2] == '_' ==> s[|s| - 1] != '_';
      }
    }
  }

  lemma {:induction false} TrimRightJoined(s: string)
    requires Joined(s)
    ensures Joined(TrimRight(s)) && |TrimRight(s)| <= |s| && (TrimRight(s) != [] ==> EndsWord(TrimRight(s)))
  {
    if s != [] && s[|s| - 1] == '_' {
      TrimRightJoined(s[..|s| - 1]);
    }
  }

  /** Every key comes out canonical, and the canonical strings are exactly the ones that stay as they are. */
  lemma CanonicalIsIdempotent(s: string)
    ensures IsCanonical(Canonical(s))
    ensures Canonical(Canonical(s)) == Canonical(s)
    ensures Canonical(s) == s <==> IsCanonical(s)
  {
    CanonicalShape(s);
    CanonicalFixes(Canonical(s));
    if IsCanonical(s) {
      CanonicalFixes(s);
    }
  }

  lemma CanonicalShape(s: string)
    ensures IsCanonical(Canonical(s))
  {
    CollapseIsJoined(s);
    assert Joined(Cap(Collapse(s), MAX_KEY_LEN));
    TrimRightJoined(Cap(Collapse(s), MAX_KEY_LEN));
  }

  lemma CanonicalFixes(s: string)
    requires IsCanonical(s)
    ensures Canonical(s) == s
  {
    CollapseFixes(s);
  }

  // The words of a key: its maximal runs of letters and digits.

  predicate EndsInWord(s: string) {
    s != [] && AlphaNumeric(s[|s| - 1])
  }

  function Words(s: string): seq<string> {
    if s == [] then []
    else
      var before, c := s[..|s| - 1], s[|s| - 1];
      var ws := Words(before);
      if !AlphaNumeric(c) then ws
      else if EndsInWord(before) && ws != [] then ws[..|ws| - 1] + [ws[|ws| - 1] + [c]]
      else ws + [[c]]
  }

  predicate IsWord(w: string) {
    w != [] && forall i | 0 <= i < |w| :: AlphaNumeric(w[i])
  }

  /** Words are made of letters and digits, and none is empty. */
  lemma {:induction false} WordsAreWords(s: string)
    ensures forall w | w in Words(s) :: IsWord(w)
    ensures EndsInWord(s) ==> Words(s) != []
  {
    if s != [] {
      var before, c := s[..|s| - 1], s[|s| - 1];
      WordsAreWords(before);
      var ws := Words(before);
      if AlphaNumeric(c) && ws != [] {
        assert ws[|ws| - 1] in ws && IsWord(ws[|ws| - 1] + [c]);
      }
      forall w | w in Words(s) ensures IsWord(w) {
        assert w in ws || w == [c] || (ws != [] && w == ws[|ws| - 1] + [c]);
      }
    }
  }

  /** The words with an underscore between every two. */
  function Join(ws: seq<string>): string
    decreases |ws|, 0
  {
    if ws == [] then [] else Stem(ws[..|ws| - 1]) + ws[|ws| - 1]
  }

  /** The words with an underscore after each. */
  function Stem(ws: seq<string>): string
    decreases |ws|, 1
  {
    if ws == [] then [] else Join(ws) + ['_']
  }

  lemma JoinAppend(ws: seq<string>, w: string)
    ensures Join(ws + [w]) == Stem(ws) + w
  {
    assert (ws + [w])[..|ws|] == ws;
  }

  lemma JoinExtend(ws: seq<string>, c: char)
    requires ws != []
    ensures Join(ws[..|ws| - 1] + [ws[|ws| - 1] + [c]]) == Join(ws) + [c]
  {
    var stem, last := Stem(ws[..|ws| - 1]), ws[|ws| - 1];
    JoinAppend(ws[..|ws| - 1], last + [c]);
    assert stem + (last + [c]) == (stem + last) + [c];
  }

  lemma JoinEndsInWord(ws: seq<string>)
    requires ws != [] && IsWord(ws[|ws| - 1])
    ensures EndsInWord(Join(ws))
  {}

  /** The collapsed key is its words joined by underscores, with one more when something follows the last word. */
  lemma {:induction false} CollapseJoinsWords(s: string)
    ensures Collapse(s) == if EndsInWord(s) then Join(Words(s)) else Stem(Words(s))
  {
    if s != [] {
      var before, c := s[..|s| - 1], s[|s| - 1];
      CollapseJoinsWords(before);
      var ws := Words(before);
      WordsAreWords(before);
      if ws != [] {
        JoinEndsInWord(ws);
      }
      if AlphaNumeric(c) {
        if EndsInWord(before) {
          JoinExtend(ws, c);
        } else {
          JoinAppend(ws, [c]);
        }
      }
    }
  }

  lemma {:induction false} TrimRightKeeps(s: string)
    requires s == [] || EndsInWord(s)
    ensures TrimRight(s) == s && TrimRight(s + ['_']) == s
  {
    assert (s + ['_'])[..|s|] == s;
  }

  lemma WordsAppend(s: string, c: char)
    ensures var ws := Words(s);
            Words(s + [c]) == if !AlphaNumeric(c) then ws
                              else if EndsInWord(s) && ws != [] then ws[..|ws| - 1] + [ws[|ws| - 1] + [c]]
                              else ws + [[c]]
  {
    assert (s + [c])[..|s|] == s;
  }

  lemma {:induction false} CollapseEndsInWord(s: string)
    ensures EndsInWord(Collapse(s)) <==> EndsInWord(s)
  {
    if s != [] {
      CollapseEndsInWord(s[..|s| - 1]);
      CollapseIsJoined(s[..|s| - 1]);
    }
  }

  lemma {:induction false} CollapseKeepsWords(s: string)
    ensures Words(Collapse(s)) == Words(s)
  {
    if s != [] {
      var before, c := s[..|s| - 1], s[|s| - 1];
      CollapseKeepsWords(before);
      CollapseEndsInWord(before);
      if AlphaNumeric(c) {
        WordsAppend(Collapse(before), c);
      } else {
        WordsAppend(Collapse(before), '_');
      }
    }
  }

  lemma JoinedKey(s: string)
    ensures var joined := Join(Words(s));
            && (joined == [] || EndsInWord(joined)) && (Collapse(s) == joined || Collapse(s) == joined + ['_'])
  {
    CollapseJoinsWords(s);
    WordsAreWords(s);
    if Words(s) != [] {
      JoinEndsInWord(Words(s));
    }
  }

  /**
   The letters and digits of a key come out in order, and two neighbours are parted by an
   underscore exactly when the key parts them: the canonical form is the key's words joined
   by single underscores, cut to 32 characters, without an underscore at the cut.
   */
  lemma CanonicalJoinsWords(s: string)
    ensures Canonical(s) == TrimRight(Cap(Join(Words(s)), MAX_KEY_LEN))
  {
    var joined := Join(Words(s));
    JoinedKey(s);
    TrimRightKeeps(joined);
    if |joined| >= MAX_KEY_LEN {
      assert Cap(Collapse(s), MAX_KEY_LEN) == joined[..MAX_KEY_LEN] == Cap(joined, MAX_KEY_LEN);
    }
  }

  /** A key that needs no cut keeps all its words. */
  lemma ShortKeyKeepsWords(s: string)
    requires |Join(Words(s))| <= MAX_KEY_LEN
    ensures Canonical(s) == Join(Words(s)) && Words(Canonical(s)) == Words(s)
  {
    var joined := Join(Words(s));
    JoinedKey(s);
    TrimRightKeeps(joined);
    CanonicalJoinsWords(s);
    CollapseKeepsWords(s);
    WordsAppend(joined, '_');
  }

  /** The tables leave the characters of canonical keys alone. */
  predicate PlainTables(u: Unicode) {
    forall c: char | AlphaNumeric(c) || c == '_' :: !u.isSpace(c) && u.lower(c) == c
  }

  /** Canonicalizing a key that has already been canonicalized changes nothing. */
  lemma KeyIsIdempotent(u: Unicode, k: string)
    requires PlainTables(u)
    ensures var c := Canonical(Fold(u, k)); Fold(u, c) == c && Canonical(Fold(u, c)) == c
  {
    CanonicalIsIdempotent(Fold(u, k));
  }

  lemma {:induction false} CollapseGrows(s: string, i: nat)
    requires i <= |s|
    ensures Collapse(s[..i]) <= Collapse(s)
    decreases |s| - i
  {
    if i < |s| {
      assert s[..i + 1][..i] == s[..i];
      CollapseGrows(s, i + 1);
    } else {
      assert s[..i] == s;
    }
  }

  method TrimUnderscores(s: string) returns (r: string)
    ensures r == TrimRight(s)
  {
    r := s;
    while r != [] && r[|r| - 1] == '_'
      invariant TrimRight(r) == TrimRight(s)
      decreases |r|
    {
      r := r[..|r| - 1];
    }
  }

  /** The builder's loop, which stops at 32 characters instead of collapsing the rest of the key. */
  method BuildKey(folded: string) returns (b: string)
    ensures b == Cap(Collapse(folded), MAX_KEY_LEN)
  {
    var lastUnderscore, i := true, 0;
    b := [];
    while i < |folded|
      invariant i <= |folded| && b == Collapse(folded[..i]) && lastUnderscore == !EndsWord(b)
      invariant |b| < MAX_KEY_LEN
    {
      assert folded[..i + 1][..i] == folded[..i];
      if AlphaNumeric(folded[i]) {
        b := b + [folded[i]];
        lastUnderscore := false;
      } else if !lastUnderscore {
        b := b + ['_'];
        lastUnderscore := true;
      }
      i := i + 1;
      if |b| >= MAX_KEY_LEN {
        break;
      }
    }
    CollapseGrows(folded, i);
    if i == |folded| {
      assert folded[..i] == folded;
    }
  }

  method CanonicalContextKey(u: Unicode, k: string) returns (r: string)
    ensures r == Canonical(Fold(u, k))
  {
    var b := BuildKey(Fold(u, k));
    var out := TrimUnderscores(b);
    TrimRightShorter(b);
    TrimRightAgain(b);
    r := TrimUnderscores(Cap(out, MAX_KEY_LEN));
  }

  lemma {:induction false} TrimRightShorter(s: string)
    ensures |TrimRight(s)| <= |s|
  {
    if s != [] && s[|s| - 1] == '_' {
      TrimRightShorter(s[..|s| - 1]);
    }
  }

  lemma {:induction false} TrimRightAgain(s: string)
    ensures TrimRight(TrimRight(s)) == TrimRight(s)
  {
    if s != [] && s[|s| - 1] == '_' {
      TrimRightAgain(s[..|s| - 1]);
    }
  }

  // ---------------------------------------------------------------------- values

  function Printable(s: string, printable: char -> bool): string {
    if s == [] then [] else if printable(s[0]) then [s[0]] + Printable(s[1..], printable) else Printable(s[1..], printable)
  }

  function Width(s: string, width: char -> nat): nat {
    if s == [] then 0 else width(s[0]) + Width(s[1..], width)
  }

  /** The longest prefix of at most budget bytes. */
  function TakeWidth(s: string, width: char -> nat, budget: nat): string {
    if s == [] || width(s[0]) > budget then [] else [s[0]] + TakeWidth(s[1..], width, budget - width(s[0]))
  }

  function Sanitized(s: string, printable: char -> bool, width: char -> nat): string {
    TakeWidth(Printable(s, printable), width, MAX_VALUE_LEN)
  }

  lemma {:induction false} TakeWidthIsLongest(s: string, width: char -> nat, budget: nat)
    ensures var r := TakeWidth(s, width, budget);
            && r <= s && Width(r, width) <= budget
            && (|r| < |s| ==> Width(r, width) + width(s[|r|]) > budget)
    decreases |s|
  {
    if s != [] && width(s[0]) <= budget {
      TakeWidthIsLongest(s[1..], width, budget - width(s[0]));
      var r := TakeWidth(s[1..], width, budget - width(s[0]));
      assert ([s[0]] + r)[1..] == r;
    }
  }

  lemma {:induction false} PrintableIsPrintable(s: string, printable: char -> bool)
    ensures forall i | 0 <= i < |Printable(s, printable)| :: printable(Printable(s, printable)[i])
  {
    if s != [] {
      PrintableIsPrintable(s[1..], printable);
    }
  }

  /** Exactly the printable characters stay, in order: the text is filtered piece by piece. */
  lemma {:induction false} PrintableFilters(s: string, t: string, printable: char -> bool, c: char)
    ensures Printable(s + t, printable) == Printable(s, printable) + Printable(t, printable)
    ensures Printable([c], printable) == if printable(c) then [c] else []
  {
    assert [c][1..] == [];
    if s == [] {
      assert s + t == t;
    } else {
      PrintableFilters(s[1..], t, printable, c);
      assert (s + t)[1..] == s[1..] + t;
    }
  }

  /** A stored value is printable, fits in 256 bytes, and is the longest such prefix of the printable text. */
  lemma SanitizedIsBounded(s: string, printable: char -> bool, width: char -> nat)
    ensures var r, all := Sanitized(s, printable, width), Printable(s, printable);
            && r <= all && Width(r, width) <= MAX_VALUE_LEN
            && (|r| < |all| ==> Width(r, width) + width(all[|r|]) > MAX_VALUE_LEN)
            && forall i | 0 <= i < |r| :: printable(r[i])
  {
    TakeWidthIsLongest(Printable(s, printable), width, MAX_VALUE_LEN);
    PrintableIsPrintable(s, printable);
  }

  lemma {:induction false} WidthAppend(s: string, c: char, width: char -> nat)
    ensures Width(s + [c], width) == Width(s, width) + width(c)
  {
    if s == [] {
      assert [c][1..] == [];
    } else {
      WidthAppend(s[1..], c, width);
      assert (s + [c])[1..] == s[1..] + [c];
    }
  }

  method SanitizeContextValue(s: string, printable: char -> bool, width: char -> nat) returns (b: string)
    ensures b == Sanitized(s, printable, width)
  {
    b := [];
    var i := 0;
    assert s[0..] == s;
    while i < |s|
      invariant i <= |s| && Width(b, width) <= MAX_VALUE_LEN
      invariant b + TakeWidth(Printable(s[i..], printable), width, MAX_VALUE_LEN - Width(b, width)) == Sanitized(s, printable, width)
    {
      assert s[i..][1..] == s[i + 1..];
      if printable(s[i]) {
        if Width(b, width) + width(s[i]) > MAX_VALUE_LEN {
          assert Printable(s[i..], printable)[0] == s[i];
          return;
        }
        assert Printable(s[i..], printable)[1..] == Printable(s[i + 1..], printable);
        WidthAppend(b, s[i], width);
        b := b + [s[i]];
      }
      i := i + 1;
    }
  }
}

/** Filtering the context map of a decide request against the allowlist. */
module ContextCanonicalization {
  import opened Wrappers
  import opened StringOrder
  import opened ContextText

  const MAX_KEYS: nat := 10

  datatype Value = Str(text: string) | NonString

  // ------------------------------------------------------------------- allowlist

  function Dashed(s: string): (r: string)
    ensures |r| == |s| && forall i | 0 <= i < |s| :: r[i] == if s[i] == '_' then '-' else s[i]
  {
    seq(|s|, i requires 0 <= i < |s| => if s[i] == '_' then '-' else s[i])
  }

  function ForMatch(u: Unicode, s: string): string {
    Dashed(Fold(u, s))
  }

  predicate EntryMatches(key: string, entry: string) {
    if entry == [] then false
    else if entry[|entry| - 1] == '*' then entry[..|entry| - 1] <= key
    else key == entry
  }

  /** An entry that ends in a star stands for every key with that beginning, any other for itself; an empty one for none. */
  lemma EntryMatchesIff(key: string, entry: string)
    ensures EntryMatches(key, entry + "*") <==> exists rest :: key == entry + rest
    ensures entry != [] && entry[|entry| - 1] != '*' ==> (EntryMatches(key, entry) <==> key == entry)
    ensures !EntryMatches(key, "")
  {
    assert (entry + "*")[..|entry|] == entry;
    if entry <= key {
      assert key == entry + key[|entry|..];
    }
  }

  predicate Allowed(u: Unicode, key: string, allowlist: seq<string>) {
    ForMatch(u, key) != "" && exists e | e in allowlist :: EntryMatches(ForMatch(u, key), ForMatch(u, e))
  }

  method MatchContextAllowlist(u: Unicode, key: string, allowlist: seq<string>) returns (ok: bool)
    ensures ok == Allowed(u, key, allowlist)
  {
    var nk := ForMatch(u, key);
    if nk == "" {
      return false;
    }
    for i := 0 to |allowlist|
      invariant forall j | 0 <= j < i :: !EntryMatches(nk, ForMatch(u, allowlist[j]))
    {
      var ne := ForMatch(u, allowlist[i]);
      if ne == "" {
        continue;
      }
      if ne[|ne| - 1] == '*' {
        if ne[..|ne| - 1] <= nk {
          assert EntryMatches(nk, ForMatch(u, allowlist[i]));
          return true;
        }
        continue;
      }
      if nk == ne {
        assert EntryMatches(nk, ForMatch(u, allowlist[i]));
        return true;
      }
    }
    return false;
  }

  // -------------------------------------------------------------- specification

  /** Raw key k survives: it carries a string, is allowed, and leaves something alphanumeric. */
  predicate Survives(u: Unicode, raw: map<string, Value>, allowlist: seq<string>, k: string) {
    k in raw && raw[k].Str? && Allowed(u, k, allowlist) && Canonical(Fold(u, k)) != ""
  }

  /** The raw keys that survive as canonical key c. */
  function Sources(u: Unicode, raw: map<string, Value>, allowlist: seq<string>, c: string): set<string> {
    set k | k in raw && Survives(u, raw, allowlist, k) && Canonical(Fold(u, k)) == c
  }

  function Survivors(u: Unicode, raw: map<string, Value>, allowlist: seq<string>): set<string> {
    set k | k in raw && Survives(u, raw, allowlist, k) :: Canonical(Fold(u, k))
  }

  /** c maps to the sanitized value of the least raw key that survives as c. */
  ghost predicate Holds(u: Unicode, raw: map<string, Value>, allowlist: seq<string>, c: string, value: string) {
    exists k :: IsLeast(Sources(u, raw, allowlist, c), k) && raw[k].Str? && value == Sanitized(raw[k].text, u.printable, u.width)
  }

  // -------------------------------------------------------------------- the code

  type Entry = Option<(string, string)>

  /** What becomes of one raw key: its canonical key and value if it survives, nothing otherwise. */
  predicate IsEntry(u: Unicode, raw: map<string, Value>, allowlist: seq<string>, k: string, r: Entry) {
    && (r.Some? <==> Survives(u, raw, allowlist, k))
    && (r.Some? ==> r.value == (Canonical(Fold(u, k)), Sanitized(raw[k].text, u.printable, u.width)))
  }

  method CanonicalEntry(u: Unicode, raw: map<string, Value>, allowlist: seq<string>, k: string) returns (r: Entry)
    requires k in raw
    ensures IsEntry(u, raw, allowlist, k, r)
  {
    if raw[k].NonString? {
      return None;
    }
    var allowed := MatchContextAllowlist(u, k, allowlist);
    if !allowed {
      return None;
    }
    var ck := CanonicalContextKey(u, k);
    if ck == "" {
      return None;
    }
    var value := SanitizeContextValue(raw[k].text, u.printable, u.width);
    return Some((ck, value));
  }

  /** Entry j is the first one for key c. */
  predicate FirstFor(entries: seq<Entry>, c: string, j: nat) {
    && j < |entries| && entries[j].Some? && entries[j].value.0 == c
    && forall i | 0 <= i < j && entries[i].Some? :: entries[i].value.0 != c
  }

  ghost predicate WinsFor(entries: seq<Entry>, c: string, value: string) {
    exists j: nat :: FirstFor(entries, c, j) && entries[j].value.1 == value
  }

  /** kept maps the key of every entry to the value of the first entry for it. */
  ghost predicate FirstWins(entries: seq<Entry>, kept: map<string, string>) {
    && (forall i | 0 <= i < |entries| && entries[i].Some? :: entries[i].value.0 in kept)
    && (forall c {:trigger WinsFor(entries, c, kept[c])} | c in kept :: WinsFor(entries, c, kept[c]))
  }

  lemma WinsForMore(entries: seq<Entry>, r: Entry, c: string, value: string)
    requires WinsFor(entries, c, value)
    ensures WinsFor(entries + [r], c, value)
  {
    var j: nat :| FirstFor(entries, c, j) && entries[j].value.1 == value;
    assert FirstFor(entries + [r], c, j);
  }

  lemma FirstWinsStep(entries: seq<Entry>, kept: map<string, string>, r: Entry)
    requires FirstWins(entries, kept)
    ensures FirstWins(entries + [r], if r.Some? && r.value.0 !in kept then kept[r.value.0 := r.value.1] else kept)
  {
    var entries' := entries + [r];
    var kept' := if r.Some? && r.value.0 !in kept then kept[r.value.0 := r.value.1] else kept;
    forall c | c in kept' ensures WinsFor(entries', c, kept'[c]) {
      if c in kept {
        assert WinsFor(entries, c, kept[c]);
        WinsForMore(entries, r, c, kept[c]);
      } else {
        assert FirstFor(entries', c, |entries|);
      }
    }
  }

  predicate AreEntries(u: Unicode, raw: map<string, Value>, allowlist: seq<string>, rawKeys: seq<string>, entries: seq<Entry>) {
    |entries| <= |rawKeys| && forall j {:trigger entries[j]} | 0 <= j < |entries| :: IsEntry(u, raw, allowlist, rawKeys[j], entries[j])
  }

  method SanitizeAll(u: Unicode, raw: map<string, Value>, allowlist: seq<string>) returns (kept: map<string, string>)
    ensures kept.Keys == Survivors(u, raw, allowlist)
    ensures forall c | c in kept :: Holds(u, raw, allowlist, c, kept[c])
  {
    kept := map[];
    var rawKeys := Sorted(raw.Keys);
    ghost var entries: seq<Entry> := [];
    for i := 0 to |rawKeys|
      invariant |entries| == i && FirstWins(entries, kept) && AreEntries(u, raw, allowlist, rawKeys, entries)
    {
      var r := CanonicalEntry(u, raw, allowlist, rawKeys[i]);
      FirstWinsStep(entries, kept, r);
      entries := entries + [r];
      if r.Some? && r.value.0 !in kept {
        kept := kept[r.value.0 := r.value.1];
      }
    }
    KeptKeys(u, raw, allowlist, rawKeys, entries, kept);
    forall c | c in kept ensures Holds(u, raw, allowlist, c, kept[c]) {
      KeptHolds(u, raw, allowlist, rawKeys, entries, kept, c);
    }
  }

  lemma KeptKeys(u: Unicode, raw: map<string, Value>, allowlist: seq<string>, rawKeys: seq<string>, entries: seq<Entry>, kept: map<string, string>)
    requires forall x :: x in rawKeys <==> x in raw.Keys
    requires |entries| == |rawKeys| && FirstWins(entries, kept) && AreEntries(u, raw, allowlist, rawKeys, entries)
    ensures kept.Keys == Survivors(u, raw, allowlist)
  {
    forall c | c in Survivors(u, raw, allowlist) ensures c in kept {
      var k :| k in raw && Survives(u, raw, allowlist, k) && Canonical(Fold(u, k)) == c;
      var i :| 0 <= i < |rawKeys| && rawKeys[i] == k;
      assert IsEntry(u, raw, allowlist, rawKeys[i], entries[i]);
    }
    forall c | c in kept ensures c in Survivors(u, raw, allowlist) {
      assert WinsFor(entries, c, kept[c]);
      var j: nat :| FirstFor(entries, c, j);
      assert IsEntry(u, raw, allowlist, rawKeys[j], entries[j]) && rawKeys[j] in rawKeys;
    }
  }

  lemma KeptHolds(u: Unicode, raw: map<string, Value>, allowlist: seq<string>, rawKeys: seq<string>, entries: seq<Entry>, kept: map<string, string>, c: string)
    requires Ascending(rawKeys) && (forall x :: x in rawKeys <==> x in raw.Keys)
    requires |entries| == |rawKeys| && FirstWins(entries, kept) && AreEntries(u, raw, allowlist, rawKeys, entries)
    requires c in kept
    ensures Holds(u, raw, allowlist, c, kept[c])
  {
    assert WinsFor(entries, c, kept[c]);
    var j: nat :| FirstFor(entries, c, j) && entries[j].value.1 == kept[c];
    assert IsEntry(u, raw, allowlist, rawKeys[j], entries[j]);
    forall i | 0 <= i < j ensures !(Survives(u, raw, allowlist, rawKeys[i]) && Canonical(Fold(u, rawKeys[i])) == c) {
      assert IsEntry(u, raw, allowlist, rawKeys[i], entries[i]);
    }
    FirstIsLeast(u, raw, allowlist, rawKeys, j);
  }

  /** In sorted order, the first raw key that survives as c is the least one. */
  lemma FirstIsLeast(u: Unicode, raw: map<string, Value>, allowlist: seq<string>, rawKeys: seq<string>, i: nat)
    requires i < |rawKeys| && Ascending(rawKeys) && (forall x :: x in rawKeys <==> x in raw.Keys)
    requires Survives(u, raw, allowlist, rawKeys[i])
    requires forall j | 0 <= j < i :: !(Survives(u, raw, allowlist, rawKeys[j]) && Canonical(Fold(u, rawKeys[j])) == Canonical(Fold(u, rawKeys[i])))
    ensures IsLeast(Sources(u, raw, allowlist, Canonical(Fold(u, rawKeys[i]))), rawKeys[i])
  {
    forall x | x in Sources(u, raw, allowlist, Canonical(Fold(u, rawKeys[i]))) ensures x == rawKeys[i] || Less(rawKeys[i], x) {
      var j :| 0 <= j < |rawKeys| && rawKeys[j] == x;
    }
  }

  lemma InPrefix(keys: seq<string>, n: nat)
    requires n <= |keys|
    ensures forall j | 0 <= j < n :: keys[j] in keys[..n]
  {
    forall j | 0 <= j < n ensures keys[j] in keys[..n] {
      assert keys[..n][j] == keys[j];
    }
  }

  predicate Below(kept: set<string>, all: set<string>) {
    kept <= all && forall c, d | c in kept && d in all && d !in kept :: Less(c, d)
  }

  lemma TakesLeast(keys: seq<string>, n: nat, kept: set<string>, all: set<string>)
    requires n <= |keys| && Ascending(keys)
    requires (forall x :: x in all <==> x in keys) && (forall x | x in kept :: x in keys[..n]) && (forall i | 0 <= i < n :: keys[i] in kept)
    ensures Below(kept, all)
  {
    InPrefix(keys, n);
    forall c, d | c in kept && d in all && d !in kept ensures Less(c, d) {
      var i :| 0 <= i < n && keys[..n][i] == c;
      var j :| 0 <= j < |keys| && keys[j] == d;
    }
  }

  lemma NextIsNew(keys: seq<string>, i: nat)
    requires i < |keys| && Ascending(keys)
    ensures keys[i] !in keys[..i] && keys[..i + 1] == keys[..i] + [keys[i]]
  {
    forall j | 0 <= j < i ensures keys[j] != keys[i] {
      LessTotal(keys[i], keys[j]);
    }
  }

  /** kept holds the entries of all at the first n keys. */
  predicate Takes(all: map<string, string>, keys: seq<string>, n: nat, kept: map<string, string>)
    requires n <= |keys|
  {
    && |kept| == n && (forall c | c in kept :: c in keys[..n] && c in all && kept[c] == all[c])
    && forall i | 0 <= i < n :: keys[i] in kept
  }

  lemma TakesNext(all: map<string, string>, keys: seq<string>, n: nat, kept: map<string, string>)
    requires n < |keys| && Ascending(keys) && keys[n] in all && Takes(all, keys, n, kept)
    ensures Takes(all, keys, n + 1, kept[keys[n] := all[keys[n]]])
  {
    NextIsNew(keys, n);
  }

  /** The entries with the n least keys. */
  method FirstKeys(all: map<string, string>, n: nat) returns (kept: map<string, string>)
    requires n <= |all|
    ensures |kept| == n && Below(kept.Keys, all.Keys)
    ensures forall c | c in kept :: c in all && kept[c] == all[c]
  {
    var keys := Sorted(all.Keys);
    kept := map[];
    for i := 0 to n
      invariant Takes(all, keys, i, kept)
    {
      assert keys[i] in all.Keys;
      TakesNext(all, keys, i, kept);
      kept := kept[keys[i] := all[keys[i]]];
    }
    TakesLeast(keys, n, kept.Keys, all.Keys);
  }

  lemma SurvivorsAreCanonical(u: Unicode, raw: map<string, Value>, allowlist: seq<string>, c: string)
    requires c in Survivors(u, raw, allowlist)
    ensures IsCanonical(c) && c != ""
  {
    var k :| k in raw && Survives(u, raw, allowlist, k) && Canonical(Fold(u, k)) == c;
    CanonicalShape(Fold(u, k));
  }

  /**
   The kept map: the ten least canonical keys, each with the sanitized value of the
   least raw key behind it, and flagged truncated exactly when more than ten survived.
   */
  method CanonicalizeRequestContext(u: Unicode, raw: map<string, Value>, allowlist: seq<string>)
    returns (kept: map<string, string>, truncated: bool)
    ensures Below(kept.Keys, Survivors(u, raw, allowlist))
    ensures truncated <==> |Survivors(u, raw, allowlist)| > MAX_KEYS
    ensures |kept| == if truncated then MAX_KEYS else |Survivors(u, raw, allowlist)|
    ensures forall c | c in kept :: Holds(u, raw, allowlist, c, kept[c])
  {
    var all := SanitizeAll(u, raw, allowlist);
    assert |all| == |all.Keys|;
    if |all| <= MAX_KEYS {
      return all, false;
    }
    kept := FirstKeys(all, MAX_KEYS);
    truncated := true;
  }
}
