/** Query strings: printing a table of values and reading it back. */
module UrlQuery {
  import opened Basics
  import opened UrlEscape

  type Values = map<bytes, seq<bytes>>

  type Pair = (bytes, bytes)

  // ---- Cutting ----

  /** The position of the first separator, or the length. */
  function CutAt(s: bytes, sep: byte): (k: nat)
    ensures k <= |s| && sep !in s[..k] && (k < |s| ==> s[k] == sep)
  {
    if s == [] || s[0] == sep then 0
    else
      var k := 1 + CutAt(s[1..], sep);
      assert s[..k] == [s[0]] + s[1..][..k - 1];
      k
  }

  function Before(s: bytes, sep: byte): bytes { s[..CutAt(s, sep)] }

  function After(s: bytes, sep: byte): (t: bytes)
    ensures s != [] ==> |t| < |s|
  {
    if CutAt(s, sep) < |s| then s[CutAt(s, sep) + 1..] else []
  }

  lemma {:induction false} CutAtIs(s: bytes, sep: byte, n: nat)
    requires n <= |s| && sep !in s[..n] && (n < |s| ==> s[n] == sep)
    ensures CutAt(s, sep) == n
  {
    if n == 0 {
    } else {
      assert s[0] in s[..n];
      forall c | c in s[1..][..n - 1] ensures c in s[..n] {}
      CutAtIs(s[1..], sep, n - 1);
    }
  }

  /** A separator that does not occur in `a` is found right after it. */
  lemma CutJoin(a: bytes, sep: byte, b: bytes)
    requires sep !in a
    ensures Before(a + [sep] + b, sep) == a && After(a + [sep] + b, sep) == b
  {
    assert (a + [sep] + b)[..|a|] == a;
    CutAtIs(a + [sep] + b, sep, |a|);
  }

  lemma CutWhole(a: bytes, sep: byte)
    requires sep !in a
    ensures Before(a, sep) == a && After(a, sep) == []
  {
    assert a[..|a|] == a;
    CutAtIs(a, sep, |a|);
  }

  // ---- Reading ----

  function Get(m: Values, k: bytes): seq<bytes> {
    if k in m then m[k] else []
  }

  function Add(m: Values, k: bytes, v: bytes): Values {
    m[k := Get(m, k) + [v]]
  }

  /** What one setting contributes: nothing, an error, or a key and a value. */
  datatype Reading = Skip | Bad(error: Error) | Entry(key: bytes, value: bytes)

  function ReadSetting(setting: bytes): Reading {
    if SEMICOLON in setting then Bad(SemicolonError)
    else if setting == [] then Skip
    else
      match Unescaped(Before(setting, EQUALS), QueryComponent)
      case Err(e) => Bad(e)
      case Ok(key) =>
        match Unescaped(After(setting, EQUALS), QueryComponent)
        case Err(e) => Bad(e)
        case Ok(value) => Entry(key, value)
  }

  /** The error to be reported so far. A semicolon replaces an error found earlier; other errors do not. */
  function Noted(err: Option<Error>, e: Error): Option<Error> {
    if e == SemicolonError || err == None then Some(e) else err
  }

  function Parsed(m: Values, err: Option<Error>, query: bytes): (Values, Option<Error>)
    decreases |query|
  {
    if query == [] then (m, err)
    else
      var rest := After(query, AMPERSAND);
      match ReadSetting(Before(query, AMPERSAND))
      case Skip => Parsed(m, err, rest)
      case Bad(e) => Parsed(m, Noted(err, e), rest)
      case Entry(k, v) => Parsed(Add(m, k, v), err, rest)
  }

  method Cut(s: bytes, sep: byte) returns (before: bytes, after: bytes)
    ensures before == Before(s, sep) && after == After(s, sep)
  {
    var i := 0;
    while i < |s| && s[i] != sep
      invariant 0 <= i <= |s|
      invariant CutAt(s, sep) == i + CutAt(s[i..], sep)
    {
      assert s[i..][1..] == s[i + 1..];
      i := i + 1;
    }
    return s[..i], if i < |s| then s[i + 1..] else [];
  }

  method ParseQuery(text: bytes) returns (m: Values, err: Option<Error>)
    ensures (m, err) == Parsed(map[], None, text)
  {
    m, err := map[], None;
    var query := text;
    while query != []
      invariant Parsed(m, err, query) == Parsed(map[], None, text)
      decreases |query|
    {
      hide Unescaped, CutAt, Before, After;
      var setting;
      setting, query := Cut(query, AMPERSAND);
      if SEMICOLON in setting {
        err := Some(SemicolonError);
        continue;
      }
      if setting == [] {
        continue;
      }
      var key, value := Cut(setting, EQUALS);
      UnescapingNeverBlamesSemicolons(key);
      UnescapingNeverBlamesSemicolons(value);
      var k := Unescape(key, QueryComponent);
      if k.Err? {
        if err == None {
          err := Some(k.error);
        }
        continue;
      }
      var v := Unescape(value, QueryComponent);
      if v.Err? {
        if err == None {
          err := Some(v.error);
        }
        continue;
      }
      m := Add(m, k.value, v.value);
    }
  }

  // ---- Which error is reported ----

  /** The settings of a query. */
  function Settings(query: bytes): seq<bytes>
    decreases |query|
  {
    if query == [] then [] else [Before(query, AMPERSAND)] + Settings(After(query, AMPERSAND))
  }

  function FirstBad(settings: seq<bytes>): Option<Error> {
    if settings == [] then None
    else if ReadSetting(settings[0]).Bad? then Some(ReadSetting(settings[0]).error)
    else FirstBad(settings[1..])
  }

  predicate AnySemicolon(settings: seq<bytes>) {
    exists s :: s in settings && SEMICOLON in s
  }

  lemma UnescapingNeverBlamesSemicolons(s: bytes)
    ensures Unescaped(s, QueryComponent) != Err(SemicolonError)
    decreases |s|
  {
    hide IsEscape;
    if s != [] {
      UnescapingNeverBlamesSemicolons(s[FrontLength(s)..]);
    }
  }

  /** The reported error is the semicolon error if any setting holds one, and the first error otherwise. */
  lemma {:induction false} ReportedError(m: Values, err: Option<Error>, query: bytes)
    ensures Parsed(m, err, query).1 ==
            if AnySemicolon(Settings(query)) then Some(SemicolonError)
            else if err.Some? then err
            else FirstBad(Settings(query))
    decreases |query|
  {
    hide Unescaped, CutAt, Before, After;
    if query != [] {
      var setting, rest := Before(query, AMPERSAND), After(query, AMPERSAND);
      assert Settings(query)[1..] == Settings(rest);
      assert forall s :: s in Settings(query) <==> s == setting || s in Settings(rest);
      UnescapingNeverBlamesSemicolons(Before(setting, EQUALS));
      UnescapingNeverBlamesSemicolons(After(setting, EQUALS));
      match ReadSetting(setting)
      case Skip => ReportedError(m, err, rest);
      case Bad(e) => ReportedError(m, Noted(err, e), rest);
      case Entry(k, v) => ReportedError(Add(m, k, v), err, rest);
    }
  }

  /** The documentation promises the first error. That is what is reported exactly when no setting holds a
      semicolon, or the first bad setting is one that does. */
  lemma FirstErrorIsReportedIff(query: bytes)
    ensures Parsed(map[], None, query).1 == FirstBad(Settings(query)) <==>
            (AnySemicolon(Settings(query)) ==> FirstBad(Settings(query)) == Some(SemicolonError))
  {
    ReportedError(map[], None, query);
  }

  /** In "%&;" the broken escape comes first, and the semicolon is reported. */
  lemma LaterSemicolonHidesFirstError()
    ensures var query := [PERCENT, AMPERSAND, SEMICOLON];
            && FirstBad(Settings(query)) == Some(EscapeError([PERCENT]))
            && Parsed(map[], None, query).1 == Some(SemicolonError)
  {
    var query := [PERCENT, AMPERSAND, SEMICOLON];
    CutJoin([PERCENT], AMPERSAND, [SEMICOLON]);
    assert [PERCENT] + [AMPERSAND] + [SEMICOLON] == query;
    CutWhole([SEMICOLON], AMPERSAND);
    CutWhole([PERCENT], EQUALS);
    hide CutAt, Before, After;
    assert Settings([SEMICOLON]) == [[SEMICOLON]];
    assert Settings(query) == [[PERCENT], [SEMICOLON]];
    assert SEMICOLON !in [PERCENT] && [PERCENT] != [];
    assert FirstError([PERCENT], QueryComponent) == Some(EscapeError([PERCENT][..1]));
    assert [PERCENT][..1] == [PERCENT];
    assert ReadSetting([PERCENT]) == Bad(EscapeError([PERCENT]));
    assert SEMICOLON in [SEMICOLON];
    assert [SEMICOLON] in Settings(query);
    ReportedError(map[], None, query);
  }

  // ---- Printing ----

  /** One setting. */
  function Printed(p: Pair): bytes {
    Escaped(p.0, QueryComponent) + [EQUALS] + Escaped(p.1, QueryComponent)
  }

  function Joined(ps: seq<Pair>): bytes {
    if ps == [] then []
    else if |ps| == 1 then Printed(ps[0])
    else Printed(ps[0]) + [AMPERSAND] + Joined(ps[1..])
  }

  lemma {:induction false} JoinedOneMore(ps: seq<Pair>, p: Pair)
    ensures Joined(ps + [p]) == if ps == [] then Printed(p) else Joined(ps) + [AMPERSAND] + Printed(p)

  {
    hide Printed;
    if |ps| == 0 {
      assert ps + [p] == [p];
    } else {
      JoinedOneMore(ps[1..], p);
      assert (ps + [p])[1..] == ps[1..] + [p];
      if |ps| > 1 {
        AppendAssoc(Printed(ps[0]) + [AMPERSAND], Joined(ps[1..]), [AMPERSAND] + Printed(p));
        AppendAssoc(Joined(ps[1..]), [AMPERSAND], Printed(p));
        AppendAssoc(Joined(ps), [AMPERSAND], Printed(p));
      }
    }
  }

  // ---- Reading back what was printed ----

  function AddAll(m: Values, ps: seq<Pair>): Values
    decreases ps
  {
    if ps == [] then m else AddAll(Add(m, ps[0].0, ps[0].1), ps[1..])
  }

  lemma PrintedIsRead(p: Pair)
    ensures AMPERSAND !in Printed(p)
    ensures ReadSetting(Printed(p)) == Entry(p.0, p.1)
  {
    hide Escaped, Unescaped, CutAt, Before, After;
    EscapedHasNoSeparators(p.0);
    EscapedHasNoSeparators(p.1);
    CutJoin(Escaped(p.0, QueryComponent), EQUALS, Escaped(p.1, QueryComponent));
    QueryRoundTrip(p.0);
    QueryRoundTrip(p.1);
  }

  lemma JoinedIsNotEmpty(ps: seq<Pair>)
    ensures ps != [] ==> Joined(ps) != []
  {
  }

  /** Reading a printed list of pairs adds exactly these pairs, in order and without an error. */
  lemma {:induction false} JoinedIsRead(m: Values, ps: seq<Pair>)
    ensures Parsed(m, None, Joined(ps)) == (AddAll(m, ps), None)
    decreases ps
  {
    if ps == [] {
    } else {
      var p, rest := ps[0], ps[1..];
      PrintedIsRead(p);
      JoinedIsNotEmpty(ps);
      if rest == [] {
        CutWhole(Printed(p), AMPERSAND);
      } else {
        CutJoin(Printed(p), AMPERSAND, Joined(rest));
      }
      hide Printed, ReadSetting, CutAt, Before, After;
      JoinedIsRead(Add(m, p.0, p.1), rest);
      assert Before(Joined(ps), AMPERSAND) == Printed(p);
      assert After(Joined(ps), AMPERSAND) == Joined(rest);
    }
  }

  // ---- The pairs of a table ----

  function PairsOfKey(k: bytes, vs: seq<bytes>): (ps: seq<Pair>)
    ensures |ps| == |vs|
  {
    if vs == [] then [] else PairsOfKey(k, vs[..|vs| - 1]) + [(k, vs[|vs| - 1])]
  }

  function PairsOf(v: Values, keys: seq<bytes>): seq<Pair>
    requires forall k :: k in keys ==> k in v
  {
    if keys == [] then []
    else
      var k := keys[|keys| - 1];
      PairsOf(v, keys[..|keys| - 1]) + PairsOfKey(k, v[k])
  }

  lemma {:induction false} AddAllConcat(m: Values, a: seq<Pair>, b: seq<Pair>)
    ensures AddAll(m, a + b) == AddAll(AddAll(m, a), b)
    decreases a
  {
    if a == [] {
      assert a + b == b;
    } else {
      assert (a + b)[1..] == a[1..] + b;
      AddAllConcat(Add(m, a[0].0, a[0].1), a[1..], b);
    }
  }

  lemma {:induction false} AddKey(m: Values, k: bytes, vs: seq<bytes>)
    requires k !in m
    ensures AddAll(m, PairsOfKey(k, vs)) == if vs == [] then m else m[k := vs]
  {
    if vs == [] {
    } else {
      var before, last := vs[..|vs| - 1], vs[|vs| - 1];
      AddKey(m, k, before);
      AddAllConcat(m, PairsOfKey(k, before), [(k, last)]);
      var b := AddAll(m, PairsOfKey(k, before));
      assert AddAll(b, [(k, last)]) == AddAll(Add(b, k, last), []);
      assert before + [last] == vs;
    }
  }

  /** The entries under the given keys that hold at least one value. */
  function NonEmpty(v: Values, keys: set<bytes>): Values {
    map k | k in v && k in keys && v[k] != [] :: v[k]
  }

  predicate NoDuplicates(keys: seq<bytes>) {
    forall i, j :: 0 <= i < j < |keys| ==> keys[i] != keys[j]
  }

  lemma {:induction false} AddTable(v: Values, keys: seq<bytes>)
    requires forall k :: k in keys ==> k in v
    requires NoDuplicates(keys)
    ensures AddAll(map[], PairsOf(v, keys)) == NonEmpty(v, set k | k in keys)
  {
    if keys == [] {
    } else {
      var before, k := keys[..|keys| - 1], keys[|keys| - 1];
      assert forall x :: x in keys <==> x == k || x in before;
      assert k !in before;
      AddTable(v, before);
      AddAllConcat(map[], PairsOf(v, before), PairsOfKey(k, v[k]));
      AddKey(NonEmpty(v, set x | x in before), k, v[k]);
    }
  }

  // ---- Sorting the keys ----

  predicate Less(a: bytes, b: bytes) {
    b != [] && (a == [] || a[0] < b[0] || (a[0] == b[0] && Less(a[1..], b[1..])))
  }

  lemma {:induction false} LessIsTransitive(a: bytes, b: bytes, c: bytes)
    requires Less(a, b) && Less(b, c)
    ensures Less(a, c)
  {
    if a != [] && a[0] == b[0] == c[0] {
      LessIsTransitive(a[1..], b[1..], c[1..]);
    }
  }

  lemma {:induction false} LessIsTotal(a: bytes, b: bytes)
    ensures a == b || Less(a, b) || Less(b, a)
  {
    if a != [] && b != [] && a[0] == b[0] {
      LessIsTotal(a[1..], b[1..]);
      assert a == [a[0]] + a[1..] && b == [b[0]] + b[1..];
    }
  }

  lemma {:induction false} LessIsStrict(a: bytes)
    ensures !Less(a, a)
  {
    if a == [] {
    } else {
      LessIsStrict(a[1..]);
    }
  }

  ghost predicate Increasing(keys: seq<bytes>) {
    forall i, j :: 0 <= i < j < |keys| ==> Less(keys[i], keys[j])
  }

  /** The keys of a table, in increasing order. */
  ghost predicate Lists(keys: seq<bytes>, domain: set<bytes>) {
    Increasing(keys) && (set k | k in keys) == domain
  }

  lemma IncreasingHasNoDuplicates(keys: seq<bytes>)
    requires Increasing(keys)
    ensures NoDuplicates(keys)
  {
    forall i, j | 0 <= i < j < |keys|
      ensures keys[i] != keys[j]
    {
      LessIsStrict(keys[i]);
    }
  }

  method InsertKey(keys: seq<bytes>, k: bytes) returns (longer: seq<bytes>)
    requires Increasing(keys) && k !in keys
    ensures Increasing(longer)
    ensures forall x :: x in longer <==> x == k || x in keys
  {
    var i := |keys|;
    while i > 0 && Less(k, keys[i - 1])
      invariant 0 <= i <= |keys|
      invariant i < |keys| ==> Less(k, keys[i])
    {
      i := i - 1;
    }
    if i > 0 {
      LessIsTotal(k, keys[i - 1]);
    }
    longer := keys[..i] + [k] + keys[i..];
    IncreasingWith(keys, i, k);
    assert keys[..i] + keys[i..] == keys;
  }

  lemma IncreasingWith(keys: seq<bytes>, n: nat, k: bytes)
    requires Increasing(keys) && n <= |keys|
    requires n > 0 ==> Less(keys[n - 1], k)
    requires n < |keys| ==> Less(k, keys[n])
    ensures Increasing(keys[..n] + [k] + keys[n..])
  {
    hide Less;
    var longer := keys[..n] + [k] + keys[n..];
    forall i | 0 <= i < n - 1 ensures Less(keys[i], k) { LessIsTransitive(keys[i], keys[n - 1], k); }
    forall j | n < j < |keys| ensures Less(k, keys[j]) { LessIsTransitive(k, keys[n], keys[j]); }
    forall i, j | 0 <= i < j < |longer|
      ensures Less(longer[i], longer[j])
    {
      assert longer[i] == if i < n then keys[i] else if i == n then k else keys[i - 1];
      assert longer[j] == if j < n then keys[j] else if j == n then k else keys[j - 1];
    }
  }

  method SortedKeys(v: Values) returns (keys: seq<bytes>)
    ensures Lists(keys, v.Keys)
  {
    keys := [];
    var left := v.Keys;
    while left != {}
      invariant left <= v.Keys
      invariant Increasing(keys)
      invariant forall x :: x in keys <==> x in v.Keys && x !in left
      decreases |left|
    {
      var k :| k in left;
      left := left - {k};
      keys := InsertKey(keys, k);
    }
  }

  // ---- Encode and its inverse ----

  method EncodeKey(k: bytes, vs: seq<bytes>, done: bytes, ghost ps: seq<Pair>) returns (text: bytes)
    requires done == Joined(ps)
    ensures text == Joined(ps + PairsOfKey(k, vs))
  {
    text := done;
    var keyEscaped := Escape(k, QueryComponent);
    assert ps + PairsOfKey(k, []) == ps;
    for i := 0 to |vs|
      invariant text == Joined(ps + PairsOfKey(k, vs[..i]))
    {
      ghost var before := ps + PairsOfKey(k, vs[..i]);
      JoinedOneMore(before, (k, vs[i]));
      JoinedIsNotEmpty(before);
      hide Joined, Escaped;
      assert vs[..i + 1][..i] == vs[..i];
      AppendAssoc(ps, PairsOfKey(k, vs[..i]), [(k, vs[i])]);
      if |text| > 0 {
        text := text + [AMPERSAND];
      }
      var valueEscaped := Escape(vs[i], QueryComponent);
      text := text + (keyEscaped + [EQUALS] + valueEscaped);
    }
    assert vs[..|vs|] == vs;
  }

  /** Reading what was printed gives the table without the keys that hold no value, and no error. */
  lemma ReadBack(v: Values, keys: seq<bytes>)
    requires Lists(keys, v.Keys)
    ensures Parsed(map[], None, Joined(PairsOf(v, keys))) == (NonEmpty(v, v.Keys), None)
  {
    IncreasingHasNoDuplicates(keys);
    JoinedIsRead(map[], PairsOf(v, keys));
    AddTable(v, keys);
  }

  /** The settings of all values, key by key in increasing order, joined by ampersands. Reading the text gives the
      table back, without the keys that hold no value. */
  method Encode(v: Values) returns (text: bytes)
    ensures exists keys :: Lists(keys, v.Keys) && text == Joined(PairsOf(v, keys))
    ensures Parsed(map[], None, text) == (NonEmpty(v, v.Keys), None)
  {
    text := [];
    assert text == Joined([]);
    var keys := SortedKeys(v);
    ReadBack(v, keys);
    hide Less, Joined, Parsed;
    for i := 0 to |keys|
      invariant forall k :: k in keys[..i] ==> k in v
      invariant text == Joined(PairsOf(v, keys[..i]))
    {
      text := EncodeKey(keys[i], v[keys[i]], text, PairsOf(v, keys[..i]));
      assert keys[..i + 1][..i] == keys[..i];
    }
    assert keys[..|keys|] == keys;
  }

  /** A table survives printing and reading exactly when every key holds at least one value. */
  lemma TableRoundTrip(v: Values, keys: seq<bytes>)
    requires Lists(keys, v.Keys)
    ensures Parsed(map[], None, Joined(PairsOf(v, keys))) == (v, None) <==> forall k :: k in v ==> v[k] != []
  {
    ReadBack(v, keys);
    var w := NonEmpty(v, v.Keys);
    if forall k :: k in v ==> v[k] != [] {
      assert w == v;
    } else {
      var k :| k in v && v[k] == [];
      assert k !in w;
    }
  }

  lemma NonEmptyHasMember(s: seq<bytes>)
    ensures s == [] || exists k :: k in s
  {
    if s != [] {
      assert s[0] in s;
    }
  }

  /** The printed text is determined by the table: there is only one increasing list of its keys. */
  lemma {:induction false} OneOrder(a: seq<bytes>, b: seq<bytes>)
    requires Increasing(a) && Increasing(b)
    requires forall k :: k in a <==> k in b
    ensures a == b
  {
    NonEmptyHasMember(a);
    NonEmptyHasMember(b);
    if a != [] && b != [] {
      var x, y := a[|a| - 1], b[|b| - 1];
      assert x in b && y in a;
      var i :| 0 <= i < |b| && b[i] == x;
      var j :| 0 <= j < |a| && a[j] == y;
      if i < |b| - 1 && j < |a| - 1 {
        LessIsTransitive(x, y, x);
        LessIsStrict(x);
      }
      assert x == y;
      var a', b' := a[..|a| - 1], b[..|b| - 1];
      IncreasingHasNoDuplicates(a);
      IncreasingHasNoDuplicates(b);
      assert forall k :: k in a <==> k == x || k in a';
      assert forall k :: k in b <==> k == x || k in b';
      assert x !in a' && x !in b';
      OneOrder(a', b');
      assert a == a' + [x] && b == b' + [x];
    }
  }
}
