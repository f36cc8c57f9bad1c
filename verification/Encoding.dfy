/** Small shared datatypes. */
module Wrappers {
  datatype Option<+T> = None | Some(value: T)
}

/** The decimal text that strconv.Itoa / FormatInt produce, and its inverse. */
module Decimal {
  import opened Wrappers

  predicate IsDigit(c: char) {
    '0' <= c <= '9'
  }

  predicate AllDigits(s: string) {
    forall i | 0 <= i < |s| :: IsDigit(s[i])
  }

  function FormatNat(n: nat): (s: string)
    ensures |s| > 0 && AllDigits(s)
  {
    if n < 10 then ['0' + n as char] else FormatNat(n / 10) + ['0' + (n % 10) as char]
  }

  function ParseNat(s: string): nat
    requires AllDigits(s)
  {
    if s == [] then 0 else 10 * ParseNat(s[..|s| - 1]) + (s[|s| - 1] - '0') as nat
  }

  lemma {:induction false} ParseFormatNat(n: nat)
    ensures ParseNat(FormatNat(n)) == n
  {
    var s := FormatNat(n);
    if n < 10 {
      assert s[..|s| - 1] == [];
    } else {
      ParseFormatNat(n / 10);
      assert s[..|s| - 1] == FormatNat(n / 10);
    }
  }

  function FormatInt(n: int): string {
    if n < 0 then "-" + FormatNat(-n) else FormatNat(n)
  }

  /** Decimal numbers are written without leading zeros, and with a sign exactly when they are negative. */
  lemma {:induction false} DecimalIsPlain(n: nat, i: int)
    ensures FormatNat(n)[0] == '0' <==> n == 0
    ensures FormatInt(i)[0] == '-' <==> i < 0
  {
    if n >= 10 {
      DecimalIsPlain(n / 10, i);
    }
  }

  function ParseInt(s: string): Option<int> {
    if s != [] && AllDigits(s) then Some(ParseNat(s))
    else if |s| > 1 && s[0] == '-' && AllDigits(s[1..]) then Some(0 - ParseNat(s[1..]))
    else None
  }

  lemma ParseFormatInt(n: int)
    ensures ParseInt(FormatInt(n)) == Some(n)
  {
    if n < 0 {
      ParseFormatNat(-n);
      var s := FormatInt(n);
      assert s[1..] == FormatNat(-n);
      assert !IsDigit(s[0]);
    } else {
      ParseFormatNat(n);
    }
  }

  function FormatBool(b: bool): string {
    if b then "true" else "false"
  }

  function ParseBool(s: string): Option<bool> {
    if s == "true" then Some(true) else if s == "false" then Some(false) else None
  }

  /** The length of the longest prefix of digits. */
  function DigitRun(s: string): (n: nat)
    ensures n <= |s| && AllDigits(s[..n])
    ensures n < |s| ==> !IsDigit(s[n])
  {
    if s == [] || !IsDigit(s[0]) then 0 else 1 + DigitRun(s[1..])
  }

  lemma {:induction false} DigitRunIs(s: string, n: nat)
    requires n < |s| && AllDigits(s[..n]) && !IsDigit(s[n])
    ensures DigitRun(s) == n
  {
    if n > 0 {
      assert s[0] == s[..n][0] && s[1..][..n - 1] == s[..n][1..];
      DigitRunIs(s[1..], n - 1);
    }
  }

  /** Reads "<digits>:" and returns the number and the rest of the text. */
  function ParsePrefix(s: string): Option<(nat, string)> {
    var k := DigitRun(s);
    if 0 < k < |s| && s[k] == ':' then Some((ParseNat(s[..k]), s[k + 1..])) else None
  }

  lemma ParsePrefixOfFormat(n: nat, rest: string)
    ensures ParsePrefix(FormatNat(n) + ":" + rest) == Some((n, rest))
  {
    var d := FormatNat(n);
    var s := d + ":" + rest;
    var k := DigitRun(s);
    DigitRunIs(s, |d|);
    assert s[..k] == d && s[k + 1..] == rest;
    ParseFormatNat(n);
  }
}

/**
 The digest pre-image of a decision record: length-prefixed fields in a fixed
 order. A Go string is a sequence of bytes, written here as a sequence of
 characters of which only the codes 0 to 255 occur in the program; nothing below
 depends on that bound.
 */
module DigestEncoding {
  import opened Wrappers
  import opened Decimal

  const FIELD_SEP: char := '\U{1E}'
  const UNIT_SEP: char := '\U{1F}'

  /** One digested field: a scalar, or a list whose items are joined by UNIT_SEP. */
  datatype Field = Scalar(name: string, value: string) | Items(name: string, items: seq<string>)

  /** strings.Join(items, unitSep) */
  function Join(items: seq<string>): string {
    if items == [] then ""
    else if |items| == 1 then items[0]
    else items[0] + [UNIT_SEP] + Join(items[1..])
  }

  function EncodeField(f: Field): string {
    match f
    case Scalar(name, v) => name + ":" + FormatNat(|v|) + ":" + v + [FIELD_SEP]
    case Items(name, items) =>
      name + "#" + FormatNat(|items|) + ":" + FormatNat(|Join(items)|) + ":" + Join(items) + [FIELD_SEP]
  }

  function EncodeFields(fs: seq<Field>): string {
    if fs == [] then "" else EncodeField(fs[0]) + EncodeFields(fs[1..])
  }

  // ---------------------------------------------------------------- parsing

  /** What the byte stream pins down about a field: a list only as a count and a joined text. */
  datatype Raw = RawScalar(value: string) | RawItems(count: nat, joined: string)

  datatype Shape = Shape(name: string, isList: bool)

  function ShapeOf(f: Field): Shape {
    Shape(f.name, f.Items?)
  }

  function RawOf(f: Field): Raw {
    match f
    case Scalar(_, v) => RawScalar(v)
    case Items(_, items) => RawItems(|items|, Join(items))
  }

  function ShapesOf(fs: seq<Field>): (r: seq<Shape>) {
    seq(|fs|, i requires 0 <= i < |fs| => ShapeOf(fs[i]))
  }

  function RawsOf(fs: seq<Field>): (r: seq<Raw>) {
    seq(|fs|, i requires 0 <= i < |fs| => RawOf(fs[i]))
  }

  /** Reads "<len>:<value>" + FIELD_SEP. */
  function ParseValue(s: string): Option<(string, string)> {
    match ParsePrefix(s)
    case None => None
    case Some((n, t)) =>
      if n < |t| && t[n] == FIELD_SEP then Some((t[..n], t[n + 1..])) else None
  }

  function ParseField(shape: Shape, s: string): Option<(Raw, string)> {
    var head := shape.name + (if shape.isList then "#" else ":");
    if !(head <= s) then None
    else if !shape.isList then
      match ParseValue(s[|head|..])
      case None => None
      case Some((v, rest)) => Some((RawScalar(v), rest))
    else
      match ParsePrefix(s[|head|..])
      case None => None
      case Some((count, t)) =>
        match ParseValue(t)
        case None => None
        case Some((v, rest)) => Some((RawItems(count, v), rest))
  }

  function ParseRaws(shapes: seq<Shape>, s: string): Option<seq<Raw>> {
    if shapes == [] then (if s == "" then Some([]) else None)
    else
      match ParseField(shapes[0], s)
      case None => None
      case Some((raw, rest)) =>
        match ParseRaws(shapes[1..], rest)
        case None => None
        case Some(raws) => Some([raw] + raws)
  }

  lemma ValueAssociates(d: string, v: string, rest: string)
    ensures d + ":" + v + [FIELD_SEP] + rest == d + ":" + (v + [FIELD_SEP] + rest)
  {}

  lemma ParseValueOfFormat(v: string, rest: string)
    ensures ParseValue(FormatNat(|v|) + ":" + v + [FIELD_SEP] + rest) == Some((v, rest))
  {
    var t := v + [FIELD_SEP] + rest;
    ValueAssociates(FormatNat(|v|), v, rest);
    ParsePrefixOfFormat(|v|, t);
    assert t[..|v|] == v && t[|v| + 1..] == rest;
  }

  lemma DropHead(head: string, tail: string)
    ensures head <= head + tail && (head + tail)[|head|..] == tail
  {}

  lemma ScalarAssociates(name: string, d: string, v: string, rest: string)
    ensures name + ":" + d + ":" + v + [FIELD_SEP] + rest == (name + ":") + (d + ":" + v + [FIELD_SEP] + rest)
  {}

  lemma ItemsAssociate(name: string, dc: string, dj: string, joined: string, rest: string)
    ensures name + "#" + dc + ":" + dj + ":" + joined + [FIELD_SEP] + rest
            == (name + "#") + (dc + ":" + (dj + ":" + joined + [FIELD_SEP] + rest))
  {}

  lemma ParseScalarOfEncode(name: string, v: string, rest: string)
    ensures ParseField(Shape(name, false), EncodeField(Scalar(name, v)) + rest) == Some((RawScalar(v), rest))
  {
    ScalarAssociates(name, FormatNat(|v|), v, rest);
    DropHead(name + ":", FormatNat(|v|) + ":" + v + [FIELD_SEP] + rest);
    ParseValueOfFormat(v, rest);
  }

  lemma ParseItemsOfEncode(name: string, count: nat, joined: string, rest: string)
    ensures ParseField(Shape(name, true), name + "#" + FormatNat(count) + ":" + FormatNat(|joined|) + ":" + joined + [FIELD_SEP] + rest)
            == Some((RawItems(count, joined), rest))
  {
    var tail := FormatNat(|joined|) + ":" + joined + [FIELD_SEP] + rest;
    ItemsAssociate(name, FormatNat(count), FormatNat(|joined|), joined, rest);
    DropHead(name + "#", FormatNat(count) + ":" + tail);
    ParsePrefixOfFormat(count, tail);
    ParseValueOfFormat(joined, rest);
  }

  lemma ParseFieldOfEncode(f: Field, rest: string)
    ensures ParseField(ShapeOf(f), EncodeField(f) + rest) == Some((RawOf(f), rest))
  {
    match f
    case Scalar(name, v) => ParseScalarOfEncode(name, v, rest);
    case Items(name, items) => ParseItemsOfEncode(name, |items|, Join(items), rest);
  }

  lemma ParseRawsStep(shapes: seq<Shape>, s: string, raw: Raw, rest: string, raws: seq<Raw>)
    requires shapes != [] && ParseField(shapes[0], s) == Some((raw, rest))
    requires ParseRaws(shapes[1..], rest) == Some(raws)
    ensures ParseRaws(shapes, s) == Some([raw] + raws)
  {}

  lemma ShapesAndRawsStep(fs: seq<Field>)
    requires fs != []
    ensures ShapesOf(fs)[0] == ShapeOf(fs[0]) && ShapesOf(fs)[1..] == ShapesOf(fs[1..])
    ensures RawsOf(fs) == [RawOf(fs[0])] + RawsOf(fs[1..])
  {}

  /** Every scalar, and the count and joined text of every list, is recovered. */
  lemma {:induction false} ParseRawsOfEncode(fs: seq<Field>, shapes: seq<Shape>, raws: seq<Raw>, s: string)
    requires shapes == ShapesOf(fs) && raws == RawsOf(fs) && s == EncodeFields(fs)
    ensures ParseRaws(shapes, s) == Some(raws)
  {
    if fs != [] {
      var rest := EncodeFields(fs[1..]);
      ShapesAndRawsStep(fs);
      ParseFieldOfEncode(fs[0], rest);
      ParseRawsOfEncode(fs[1..], shapes[1..], raws[1..], rest);
      ParseRawsStep(shapes, s, RawOf(fs[0]), rest, raws[1..]);
    }
  }

  // ------------------------------------------------------- lists and UNIT_SEP

  /** A list whose joined form determines it: no item of a longer list holds the separator. */
  predicate Clean(items: seq<string>) {
    |items| <= 1 || forall i | 0 <= i < |items| :: SepFree(items[i])
  }

  predicate SepFree(s: string) {
    UNIT_SEP !in s
  }

  /** Cuts at every separator. */
  function SplitAll(s: string): (r: seq<string>)
    ensures r != []
  {
    if s == "" then [""]
    else
      var r := SplitAll(s[1..]);
      if s[0] == UNIT_SEP then [""] + r else [[s[0]] + r[0]] + r[1..]
  }

  /** The items of a list of the given count, read from its joined text. */
  function Split(joined: string, count: nat): seq<string> {
    if count == 0 then [] else if count == 1 then [joined] else SplitAll(joined)
  }

  lemma {:induction false} SplitAllFree(a: string)
    requires SepFree(a)
    ensures SplitAll(a) == [a]
  {
    if a != "" {
      SplitAllFree(a[1..]);
      assert a == [a[0]] + a[1..];
    }
  }

  lemma {:induction false} SplitAllStep(a: string, t: string)
    requires SepFree(a)
    ensures SplitAll(a + [UNIT_SEP] + t) == [a] + SplitAll(t)
  {
    var s := a + [UNIT_SEP] + t;
    if a == "" {
      assert s[1..] == t;
    } else {
      SplitAllStep(a[1..], t);
      assert s[1..] == a[1..] + [UNIT_SEP] + t;
      assert a == [a[0]] + a[1..];
    }
  }

  lemma JoinStep(a: string, tail: seq<string>)
    requires tail != []
    ensures Join([a] + tail) == a + [UNIT_SEP] + Join(tail)
  {
    assert ([a] + tail)[1..] == tail;
  }

  lemma {:induction false} SplitAllJoin(items: seq<string>)
    requires items != [] && forall i | 0 <= i < |items| :: SepFree(items[i])
    ensures SplitAll(Join(items)) == items
  {
    var a, tail := items[0], items[1..];
    assert items == [a] + tail;
    if tail == [] {
      SplitAllFree(a);
    } else {
      SplitAllJoin(tail);
      JoinStep(a, tail);
      SplitAllStep(a, Join(tail));
    }
  }

  lemma SplitJoin(items: seq<string>)
    requires Clean(items)
    ensures Split(Join(items), |items|) == items
  {
    if |items| > 1 {
      SplitAllJoin(items);
    }
  }

  function Seps(s: string): nat {
    if s == [] then 0 else (if s[0] == UNIT_SEP then 1 else 0) + Seps(s[1..])
  }

  lemma {:induction false} SepsConcat(a: string, b: string)
    ensures Seps(a + b) == Seps(a) + Seps(b)
  {
    if a == [] {
      assert a + b == b;
    } else {
      assert (a + b)[1..] == a[1..] + b;
      SepsConcat(a[1..], b);
    }
  }

  lemma {:induction false} SepsZero(s: string)
    ensures Seps(s) == 0 <==> SepFree(s)
  {
    if s != [] {
      SepsZero(s[1..]);
      assert s == [s[0]] + s[1..];
    }
  }

  /** A joined list holds at least |items| - 1 separators, and no more exactly when no item holds one. */
  lemma {:induction false} JoinSeps(items: seq<string>)
    requires items != []
    ensures Seps(Join(items)) >= |items| - 1
    ensures Seps(Join(items)) == |items| - 1 <==> forall i | 0 <= i < |items| :: SepFree(items[i])
  {
    SepsZero(items[0]);
    if |items| > 1 {
      JoinSeps(items[1..]);
      SepsConcat(items[0] + [UNIT_SEP], Join(items[1..]));
      SepsConcat(items[0], [UNIT_SEP]);
      assert Seps([UNIT_SEP]) == 1;
      assert items == [items[0]] + items[1..];
    }
  }

  /** A clean list is the only list with its count and joined text. */
  lemma CleanListIsDetermined(items: seq<string>, other: seq<string>)
    requires Clean(items) && |other| == |items| && Join(other) == Join(items)
    ensures other == items
  {
    if |items| > 1 {
      JoinSeps(items);
      JoinSeps(other);
      SplitJoin(items);
      SplitJoin(other);
    }
  }

  lemma {:induction false} JoinConcat(a: seq<string>, b: seq<string>)
    requires a != [] && b != []
    ensures Join(a + b) == Join(a) + [UNIT_SEP] + Join(b)
  {
    if |a| == 1 {
      assert (a + b)[1..] == b;
    } else {
      assert (a + b)[1..] == a[1..] + b;
      JoinConcat(a[1..], b);
      assert (a + b)[0] == a[0];
    }
  }

  /** Two neighbouring items enter the joined text only through x + UNIT_SEP + y. */
  lemma JoinNeighbours(pre: seq<string>, x: string, y: string, x': string, y': string, post: seq<string>)
    requires x + [UNIT_SEP] + y == x' + [UNIT_SEP] + y'
    ensures Join(pre + [x, y] + post) == Join(pre + [x', y'] + post)
  {
    JoinConcat([x], [y]);
    JoinConcat([x'], [y']);
    assert [x, y] == [x] + [y] && [x', y'] == [x'] + [y'];
    if pre != [] {
      JoinConcat(pre, [x, y]);
      JoinConcat(pre, [x', y']);
    } else {
      assert pre + [x, y] == [x, y] && pre + [x', y'] == [x', y'];
    }
    if post != [] {
      JoinConcat(pre + [x, y], post);
      JoinConcat(pre + [x', y'], post);
    } else {
      assert pre + [x, y] + post == pre + [x, y] && pre + [x', y'] + post == pre + [x', y'];
    }
  }

  /** Every list that is not clean shares its count and joined text with a different list. */
  lemma AmbiguousListHasTwin(items: seq<string>) returns (other: seq<string>)
    requires !Clean(items)
    ensures other != items && |other| == |items| && Join(other) == Join(items)
  {
    var i :| 0 <= i < |items| && !SepFree(items[i]);
    var p :| 0 <= p < |items[i]| && items[i][p] == UNIT_SEP;
    var left, right := items[i][..p], items[i][p + 1..];
    assert items[i] == left + [UNIT_SEP] + right;
    // The separator moves across the border with a neighbour.
    var k := if i == 0 then 0 else i - 1;
    var x, y := items[k], items[k + 1];
    var x' := if i == 0 then left else x + [UNIT_SEP] + left;
    var y' := if i == 0 then right + [UNIT_SEP] + y else right;
    assert x + [UNIT_SEP] + y == x' + [UNIT_SEP] + y';
    var pre, post := items[..k], items[k + 2..];
    other := pre + [x', y'] + post;
    assert items == pre + [x, y] + post;
    assert |x'| != |x| && other[k] == x';
    JoinNeighbours(pre, x, y, x', y', post);
  }
}
