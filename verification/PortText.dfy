/** Port unions as text: parsing a comma-separated list, and printing one. */
module PortText {
  import opened Basics
  import opened PortUnions

  // ---- Numbers ----

  predicate IsDigit(c: char) {
    '0' <= c <= '9'
  }

  function DigitOf(n: nat): (c: char)
    requires n < 10
    ensures IsDigit(c) && Value([c]) == n
  {
    ('0' as int + n) as char
  }

  function Digits(n: nat): (s: string)
    ensures s != ""
  {
    if n < 10 then [DigitOf(n)] else Digits(n / 10) + [DigitOf(n % 10)]
  }

  function Value(s: string): nat
    requires forall c :: c in s ==> IsDigit(c)
  {
    if s == "" then 0
    else
      var front, last := s[..|s| - 1], s[|s| - 1];
      assert last in s && IsDigit(last) && forall c :: c in front ==> c in s;
      10 * Value(front) + (last as int - '0' as int)
  }

  /** The library's reading of an unsigned decimal number of at most 16 bits. */
  function ParseUint16(s: string): Option<port> {
    if s == "" || exists c :: c in s && !IsDigit(c) then None
    else if Value(s) > 0xFFFF then None
    else Some(Value(s))
  }

  lemma {:induction false} DigitsAreRead(n: nat)
    ensures forall c :: c in Digits(n) ==> IsDigit(c)
    ensures Value(Digits(n)) == n
  {
    if n >= 10 {
      DigitsAreRead(n / 10);
      var front, last := Digits(n / 10), DigitOf(n % 10);
      assert Digits(n) == front + [last];
      assert Digits(n)[..|Digits(n)| - 1] == front;
      assert [last][..0] == "";
    }
  }

  lemma PortIsRead(p: port)
    ensures ParseUint16(Digits(p)) == Some(p)
    ensures ',' !in Digits(p) && '-' !in Digits(p)
  {
    DigitsAreRead(p);
  }

  // ---- Splitting and joining ----

  function IndexOf(s: string, sep: char): (k: nat)
    requires sep in s
    ensures k < |s| && s[k] == sep && sep !in s[..k]
  {
    if s[0] == sep then 0
    else
      var k := 1 + IndexOf(s[1..], sep);
      assert s[..k] == [s[0]] + s[1..][..k - 1];
      k
  }

  function Split(s: string, sep: char): (parts: seq<string>)
    ensures parts != []
    decreases |s|
  {
    if sep !in s then [s] else [s[..IndexOf(s, sep)]] + Split(s[IndexOf(s, sep) + 1..], sep)
  }

  function Join(parts: seq<string>, sep: char): string {
    if parts == [] then ""
    else if |parts| == 1 then parts[0]
    else parts[0] + [sep] + Join(parts[1..], sep)
  }

  lemma {:induction false} IndexOfFirst(a: string, sep: char, b: string)
    requires sep !in a
    ensures sep in a + [sep] + b && IndexOf(a + [sep] + b, sep) == |a|
  {
    var s := a + [sep] + b;
    assert s[|a|] == sep;
    if a != "" {
      assert s[0] == a[0] && a[0] in a;
      assert s[1..] == a[1..] + [sep] + b;
      IndexOfFirst(a[1..], sep, b);
    }
  }

  lemma {:induction false} SplitJoin(parts: seq<string>, sep: char)
    requires parts != [] && forall p :: p in parts ==> sep !in p
    ensures Split(Join(parts, sep), sep) == parts
    decreases parts
  {
    assert parts[0] in parts;
    if |parts| > 1 {
      SplitJoin(parts[1..], sep);
      var s := Join(parts, sep);
      IndexOfFirst(parts[0], sep, Join(parts[1..], sep));
      assert s[..|parts[0]|] == parts[0] && s[|parts[0]| + 1..] == Join(parts[1..], sep);
    }
  }

  // ---- Parsing ----

  /** One number, or two with a dash between them in either order. */
  function ParseRange(s: string): Option<PortRange> {
    if '-' in s then
      var ends := Split(s, '-');
      if |ends| != 2 then None
      else
        match (ParseUint16(ends[0]), ParseUint16(ends[1]))
        case (Some(a), Some(b)) => Some(PortRange(Min(a, b), Max(a, b)))
        case _ => None
    else
      match ParseUint16(s)
      case Some(p) => Some(PortRange(p, p))
      case None => None
  }

  function ParseRanges(parts: seq<string>): Option<PortUnion> {
    if parts == [] then Some([])
    else
      match (ParseRanges(parts[..|parts| - 1]), ParseRange(parts[|parts| - 1]))
      case (Some(before), Some(r)) => Some(before + [r])
      case _ => None
  }

  /** The ranges a text lists, before they are normalised. */
  function Listed(s: string): Option<PortUnion> {
    if s == "all" || s == "*" then Some([PortRange(0, 0xFFFF)]) else ParseRanges(Split(s, ','))
  }

  lemma {:induction false} ParsedRangesAreProper(parts: seq<string>)
    ensures ParseRanges(parts).Some? ==> Proper(ParseRanges(parts).value) && |ParseRanges(parts).value| == |parts|
  {
    if parts == [] {
    } else {
      ParsedRangesAreProper(parts[..|parts| - 1]);
    }
  }

  lemma {:induction false} OneBadRangeIsEnough(parts: seq<string>, i: nat)
    requires i < |parts| && ParseRange(parts[i]) == None
    ensures ParseRanges(parts) == None
  {
    if i < |parts| - 1 {
      OneBadRangeIsEnough(parts[..|parts| - 1], i);
    }
  }

  method ParseOne(s: string) returns (r: Option<PortRange>)
    ensures r == ParseRange(s)
  {
    if '-' in s {
      var ends := Split(s, '-');
      if |ends| != 2 {
        return None;
      }
      var a := ParseUint16(ends[0]);
      if a == None {
        return None;
      }
      var b := ParseUint16(ends[1]);
      if b == None {
        return None;
      }
      var start, end := a.value, b.value;
      if start > end {
        start, end := end, start;
      }
      return Some(PortRange(start, end));
    }
    var p := ParseUint16(s);
    if p == None {
      return None;
    }
    return Some(PortRange(p.value, p.value));
  }

  /** What parsing `s` returns: the normal form of the listed ranges, or nothing if one of them is not valid. */
  ghost predicate Parses(s: string, r: Option<PortUnion>) {
    (r.Some? <==> Listed(s).Some?) && (r.Some? ==> IsNormalFormOf(r.value, Listed(s).value))
  }

  method ParsePortUnion(s: string) returns (r: Option<PortUnion>)
    ensures Parses(s, r)
  {
    if s == "all" || s == "*" {
      return Some([PortRange(0, 0xFFFF)]);
    }
    var portStrs := Split(s, ',');
    var result: PortUnion := [];
    for i := 0 to |portStrs|
      invariant ParseRanges(portStrs[..i]) == Some(result)
    {
      assert portStrs[..i + 1][..i] == portStrs[..i];
      var one := ParseOne(portStrs[i]);
      if one == None {
        OneBadRangeIsEnough(portStrs, i);
        return None;
      }
      result := result + [one.value];
    }
    assert portStrs[..|portStrs|] == portStrs;
    ParsedRangesAreProper(portStrs);
    var slice := new PortRange[|result|](i requires 0 <= i < |result| => result[i]);
    assert slice[..] == result;
    var normalized := Normalize(slice);
    return Some(normalized);
  }

  // ---- Printing ----

  function RangeText(r: PortRange): string {
    if r.start == r.end then Digits(r.start) else Digits(r.start) + "-" + Digits(r.end)
  }

  function RangeTexts(u: PortUnion): (parts: seq<string>)
    ensures |parts| == |u| && forall i :: 0 <= i < |u| ==> parts[i] == RangeText(u[i])
  {
    if u == [] then [] else RangeTexts(u[..|u| - 1]) + [RangeText(u[|u| - 1])]
  }

  function Text(u: PortUnion): string {
    Join(RangeTexts(u), ',')
  }

  method FormatPortUnion(u: PortUnion) returns (s: string)
    ensures s == Text(u)
  {
    var parts: seq<string> := [];
    for i := 0 to |u|
      invariant parts == RangeTexts(u[..i])
    {
      assert u[..i + 1][..i] == u[..i];
      if u[i].start == u[i].end {
        parts := parts + [Digits(u[i].start)];
      } else {
        parts := parts + [Digits(u[i].start) + "-" + Digits(u[i].end)];
      }
    }
    assert u[..|u|] == u;
    return Join(parts, ',');
  }

  // ---- Printing and parsing ----

  /** The range with its ends in order. */
  function InOrder(r: PortRange): PortRange {
    PortRange(Min(r.start, r.end), Max(r.start, r.end))
  }

  function AllInOrder(u: PortUnion): (v: PortUnion)
    ensures |v| == |u| && forall i :: 0 <= i < |u| ==> v[i] == InOrder(u[i])
  {
    if u == [] then [] else AllInOrder(u[..|u| - 1]) + [InOrder(u[|u| - 1])]
  }

  lemma RangeTextIsParsed(r: PortRange)
    ensures ParseRange(RangeText(r)) == Some(InOrder(r))
    ensures ',' !in RangeText(r) && RangeText(r) != ""
    ensures RangeText(r)[0] != '*' && RangeText(r)[0] != 'a'
  {
    PortIsRead(r.start);
    PortIsRead(r.end);
    DigitsAreRead(r.start);
    assert Digits(r.start)[0] in Digits(r.start);
    hide Digits, ParseUint16;
    if r.start != r.end {
      SplitJoin([Digits(r.start), Digits(r.end)], '-');
      assert Join([Digits(r.start), Digits(r.end)], '-') == RangeText(r);
      assert RangeText(r)[|Digits(r.start)|] == '-';
    }
  }

  lemma {:induction false} RangeTextsAreParsed(u: PortUnion)
    ensures ParseRanges(RangeTexts(u)) == Some(AllInOrder(u))
  {
    if u == [] {
    } else {
      var front := u[..|u| - 1];
      RangeTextsAreParsed(front);
      RangeTextIsParsed(u[|u| - 1]);
      assert RangeTexts(u)[..|u| - 1] == RangeTexts(front);
    }
  }

  lemma TextIsListed(u: PortUnion)
    requires u != []
    ensures Listed(Text(u)) == Some(AllInOrder(u))
  {
    var parts := RangeTexts(u);
    forall p | p in parts ensures ',' !in p {
      var i :| 0 <= i < |u| && parts[i] == p;
      RangeTextIsParsed(u[i]);
    }
    RangeTextIsParsed(u[0]);
    SplitJoin(parts, ',');
    RangeTextsAreParsed(u);
    assert Text(u)[0] == parts[0][0];
  }

  /** Parsing is a function of the text. */
  lemma ParsingIsDetermined(s: string, a: Option<PortUnion>, b: Option<PortUnion>)
    requires Parses(s, a) && Parses(s, b)
    ensures a == b
  {
    if a.Some? {
      NormalFormIsUnique(a.value, b.value);
    }
  }

  /** Printing and parsing gives a union back exactly when it is normal and not empty. */
  lemma TextRoundTrip(u: PortUnion, r: Option<PortUnion>)
    requires Parses(Text(u), r)
    ensures r == Some(u) <==> u != [] && Proper(u) && Normal(u)
  {
    if u == [] {
      assert Split("", ',') == [""];
      assert ParseRanges([""]) == None by {
        assert [""][..0] == [];
      }
    } else {
      TextIsListed(u);
      if Proper(u) && Normal(u) {
        assert forall i :: 0 <= i < |u| ==> u[i] in u;
        assert AllInOrder(u) == u;
        NormalFormIsUnique(r.value, u);
      }
    }
  }
}
