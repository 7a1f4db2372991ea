/** The domain-category matcher: an index built once, against trying every entry of the category. */
module Geosite {
  import opened Basics

  datatype DomainType = Plain | Regex | Root | Full | Unknown

  /** A compiled regular expression is any predicate on names; entries of the other types have none. */
  datatype Domain = Domain(kind: DomainType, value: string, regex: Option<string -> bool>, attrs: map<string, bool>)

  // ---- One entry ----

  /** An entry must carry every wanted attribute. */
  predicate AttrsAllow(wanted: seq<string>, d: Domain) {
    wanted == [] || (|d.attrs| != 0 && forall a :: a in wanted ==> a in d.attrs && d.attrs[a])
  }

  predicate Contains(s: string, part: string) {
    exists i :: 0 <= i <= |s| && part <= s[i..]
  }

  /** The value itself, or the value after a label boundary. */
  predicate IsUnderRoot(name: string, value: string) {
    name == value
    || (|name| > |value| && name[|name| - |value| - 1] == '.' && name[|name| - |value|..] == value)
  }

  predicate KindMatches(d: Domain, name: string) {
    match d.kind
    case Plain => Contains(name, d.value)
    case Regex => d.regex.Some? && d.regex.value(name)
    case Full => name == d.value
    case Root => IsUnderRoot(name, d.value)
    case Unknown => false
  }

  predicate MatchDomain(wanted: seq<string>, d: Domain, name: string) {
    AttrsAllow(wanted, d) && KindMatches(d, name)
  }

  /** The plain scan over a category. */
  ghost predicate AnyMatches(wanted: seq<string>, domains: seq<Domain>, name: string) {
    exists d :: d in domains && MatchDomain(wanted, d, name)
  }

  // ---- The index ----

  predicate IsResidual(kind: DomainType) {
    kind == Plain || kind == Regex
  }

  /** The index says of a name exactly what the entries it was built from say. */
  ghost predicate Indexes(full: set<string>, root: set<string>, residual: seq<Domain>,
                          wanted: seq<string>, domains: seq<Domain>) {
    && (forall v :: v in full <==> exists d :: d in domains && AttrsAllow(wanted, d) && d.kind == Full && d.value == v)
    && (forall v :: v in root <==> exists d :: d in domains && AttrsAllow(wanted, d) && d.kind == Root && d.value == v)
    && (forall d :: d in residual <==> d in domains && AttrsAllow(wanted, d) && IsResidual(d.kind))
  }

  /** Looking up the name and what follows each of its dots. */
  ghost predicate ProbesRoot(root: set<string>, name: string) {
    name in root || exists i :: 0 <= i < |name| && name[i] == '.' && name[i + 1..] in root
  }

  /** Every label boundary is a dot of the name, so the probes find exactly the roots the name is under. */
  lemma ProbesAreSuffixes(root: set<string>, name: string)
    ensures ProbesRoot(root, name) <==> exists v :: v in root && IsUnderRoot(name, v)
  {
    if i :| 0 <= i < |name| && name[i] == '.' && name[i + 1..] in root {
      assert IsUnderRoot(name, name[i + 1..]);
    }
    if name in root {
      assert IsUnderRoot(name, name);
    }
    if v :| v in root && IsUnderRoot(name, v) && name != v {
      var i := |name| - |v| - 1;
      assert name[i] == '.' && name[i + 1..] in root;
    }
  }

  ghost predicate IndexMatches(full: set<string>, root: set<string>, residual: seq<Domain>,
                               wanted: seq<string>, name: string) {
    name in full || ProbesRoot(root, name) || AnyMatches(wanted, residual, name)
  }

  /** For every name, the index answers as trying every entry would. */
  lemma IndexIsScan(full: set<string>, root: set<string>, residual: seq<Domain>, wanted: seq<string>,
                    domains: seq<Domain>, name: string)
    requires Indexes(full, root, residual, wanted, domains)
    ensures IndexMatches(full, root, residual, wanted, name) <==> AnyMatches(wanted, domains, name)
  {
    hide AttrsAllow, Contains, IsUnderRoot, ProbesRoot;
    ProbesAreSuffixes(root, name);
    if d :| d in domains && MatchDomain(wanted, d, name) {
      match d.kind
      case Full => assert d.value in full;
      case Root => assert d.value in root;
      case Plain => assert d in residual;
      case Regex => assert d in residual;
    }
    if d :| d in residual && MatchDomain(wanted, d, name) {
      assert d in domains;
    }
    if v :| v in root && IsUnderRoot(name, v) {
      var d :| d in domains && AttrsAllow(wanted, d) && d.kind == Root && d.value == v;
      assert MatchDomain(wanted, d, name);
    }
    if name in full {
      var d :| d in domains && AttrsAllow(wanted, d) && d.kind == Full && d.value == name;
      assert MatchDomain(wanted, d, name);
    }
  }

  lemma IndexOneMore(full: set<string>, root: set<string>, residual: seq<Domain>, wanted: seq<string>,
                     domains: seq<Domain>, d: Domain)
    requires Indexes(full, root, residual, wanted, domains)
    ensures Indexes(if AttrsAllow(wanted, d) && d.kind == Full then full + {d.value} else full,
                    if AttrsAllow(wanted, d) && d.kind == Root then root + {d.value} else root,
                    if AttrsAllow(wanted, d) && IsResidual(d.kind) then residual + [d] else residual,
                    wanted, domains + [d])
  {
    hide AttrsAllow;
    forall x ensures x in domains + [d] <==> x in domains || x == d {}
    forall x ensures x in residual + [d] <==> x in residual || x == d {}
  }

  class GeositeMatcher {
    const attrs: seq<string>
    /** The entries, given up once they are indexed. */
    var domains: seq<Domain>
    var indexed: bool
    var full: set<string>
    var root: set<string>
    var residual: seq<Domain>
    /** The entries the matcher was made from. */
    ghost const entries: seq<Domain>

    ghost predicate Valid()
      reads this
    {
      if indexed then Indexes(full, root, residual, attrs, entries) else domains == entries
    }

    constructor (domains: seq<Domain>, attrs: seq<string>)
      ensures Valid() && entries == domains && this.attrs == attrs && !indexed
    {
      this.domains, this.attrs, entries := domains, attrs, domains;
      indexed, full, root, residual := false, {}, {}, [];
    }

    method BuildIndex()
      requires Valid() && !indexed
      modifies this
      ensures Valid() && indexed && domains == []
    {
      hide AttrsAllow, Indexes;
      var f: set<string>, r: set<string>, rest: seq<Domain> := {}, {}, [];
      NothingIndexed(attrs);
      for i := 0 to |domains|
        invariant domains == entries
        invariant Indexes(f, r, rest, attrs, entries[..i])
      {
        var d := domains[i];
        IndexOneMore(f, r, rest, attrs, entries[..i], d);
        assert entries[..i] + [d] == entries[..i + 1];
        if !AttrsAllow(attrs, d) {
          continue;
        }
        match d.kind
        case Full => f := f + {d.value};
        case Root => r := r + {d.value};
        case Plain | Regex => rest := rest + [d];
        case Unknown =>
      }
      assert entries[..|entries|] == entries;
      full, root, residual := f, r, rest;
      domains, indexed := [], true;
    }

    /** The answer of the plain scan over the entries, on the first call and on every later one. */
    method Match(name: string) returns (matched: bool)
      requires Valid()
      modifies this
      ensures Valid() && indexed
      ensures old(indexed) ==> full == old(full) && root == old(root) && residual == old(residual)
      ensures matched == AnyMatches(attrs, entries, name)
    {
      if !indexed {
        BuildIndex();
      }
      IndexIsScan(full, root, residual, attrs, entries, name);
      hide MatchDomain, Indexes;
      if name in full {
        return true;
      }
      if root != {} {
        if name in root {
          return true;
        }
        for i := 0 to |name|
          invariant forall k :: 0 <= k < i && name[k] == '.' ==> name[k + 1..] !in root
        {
          if name[i] == '.' && name[i + 1..] in root {
            return true;
          }
        }
      }
      assert !ProbesRoot(root, name);
      for i := 0 to |residual|
        invariant forall k :: 0 <= k < i ==> !MatchDomain(attrs, residual[k], name)
      {
        if MatchDomain(attrs, residual[i], name) {
          assert residual[i] in residual;
          return true;
        }
      }
      return false;
    }
  }

  lemma NothingIndexed(wanted: seq<string>)
    ensures Indexes({}, {}, [], wanted, [])
  {
  }

  // ---- Attributes ----

  /** The entries that carry every one of the attributes. */
  ghost predicate Carries(d: Domain, wanted: seq<string>) {
    forall i | 0 <= i < |wanted| :: wanted[i] in d.attrs.Keys && d.attrs[wanted[i]]
  }

  /** A name matches with wanted attributes exactly when an entry that carries all of them matches without. */
  lemma AllAttributesAreNeeded(wanted: seq<string>, domains: seq<Domain>, name: string)
    ensures AnyMatches(wanted, domains, name) <==>
            exists d :: d in domains && Carries(d, wanted) && MatchDomain([], d, name)
  {
    forall d | d in domains ensures AttrsAllow(wanted, d) <==> Carries(d, wanted) {
      AllowedCarries(wanted, d);
    }
    hide KindMatches, AttrsAllow, Carries;
    assert forall d :: AttrsAllow([], d) by {
      forall d ensures AttrsAllow([], d) {
        AllowedCarries([], d);
        NoneNeeded(d);
      }
    }
    if d :| d in domains && MatchDomain(wanted, d, name) {
      assert Carries(d, wanted) && MatchDomain([], d, name);
    }
    if d :| d in domains && Carries(d, wanted) && MatchDomain([], d, name) {
      assert MatchDomain(wanted, d, name);
    }
  }

  lemma NoneNeeded(d: Domain)
    ensures Carries(d, [])
  {
  }

  lemma AllowedCarries(wanted: seq<string>, d: Domain)
    ensures AttrsAllow(wanted, d) <==> Carries(d, wanted)
  {
    if wanted != [] && Carries(d, wanted) {
      assert wanted[0] in d.attrs.Keys;
      assert forall a | a in wanted :: exists i :: 0 <= i < |wanted| && wanted[i] == a;
    }
  }

  /** A plain entry matches the names in which its value occurs. */
  lemma ContainsMeansOccurs(s: string, part: string)
    ensures Contains(s, part) <==> exists a: string, b: string :: s == a + part + b
  {
    if i :| 0 <= i <= |s| && part <= s[i..] {
      assert s == s[..i] + part + s[i + |part|..];
    }
    if a: string, b: string :| s == a + part + b {
      assert part <= s[|a|..];
    }
  }
}
