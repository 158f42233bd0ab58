/** Mapping a planner's (provider, model) onto a catalog entry
    (src/agent_augury/planner.py:144-173). */
module ResolveModel {
  import opened Tables
  import opened PyText

  /** A registered provider and the model ids listed under it. */
  datatype Provider = Provider(name: string, models: set<string>)

  /** Providers in the catalog's own order. */
  type Catalog = seq<Provider>

  datatype Candidate = Candidate(hint: Option<string>, path: string)

  /** `path.startswith(prefix)`. */
  predicate StartsWith(path: string, prefix: string) {
    |prefix| <= |path| && path[..|prefix|] == prefix
  }

  /** The first provider whose name and a slash start the path. */
  function PrefixOf(path: string, catalog: Catalog): (r: Option<string>)
    ensures r.Some? ==> StartsWith(path, r.value + "/")
    ensures r.Some? ==> exists i :: 0 <= i < |catalog| && catalog[i].name == r.value
  {
    if catalog == [] then None
    else if StartsWith(path, catalog[0].name + "/") then Some(catalog[0].name)
    else
      var r := PrefixOf(path, catalog[1..]);
      assert r.Some? ==> exists i :: 0 <= i < |catalog[1..]| && catalog[1..][i].name == r.value;
      assert forall i :: 0 <= i < |catalog[1..]| ==> catalog[1..][i] == catalog[i + 1];
      r
  }

  /** `hint or prefix`. */
  function Keep(hint: Option<string>, prefix: string): string {
    if hint.Some? && hint.value != "" then hint.value else prefix
  }

  /** The candidates of one path: itself, then with one known provider after another peeled off. */
  function Peel(hint: Option<string>, path: string, catalog: Catalog): (r: seq<Candidate>)
    ensures r != [] && r[0] == Candidate(hint, path)
    decreases |path|
  {
    match PrefixOf(path, catalog)
    case None => [Candidate(hint, path)]
    case Some(n) => [Candidate(hint, path)] + Peel(Some(Keep(hint, n)), path[|n| + 1..], catalog)
  }

  function Candidates(p: string, m: string, catalog: Catalog): seq<Candidate> {
    Peel(None, if p != "" then p + "/" + m else m, catalog) + Peel(None, m, catalog)
  }

  predicate Lists(catalog: Catalog, name: string, model: string) {
    exists i :: 0 <= i < |catalog| && catalog[i].name == name && model in catalog[i].models
  }

  predicate Hits(catalog: Catalog, c: Candidate) {
    c.hint.Some? && Lists(catalog, c.hint.value, c.path)
  }

  function FirstHit(cs: seq<Candidate>, catalog: Catalog): Option<(string, string)> {
    if cs == [] then None
    else if Hits(catalog, cs[0]) then Some((cs[0].hint.value, cs[0].path))
    else FirstHit(cs[1..], catalog)
  }

  function Owners(catalog: Catalog, path: string): seq<string> {
    if catalog == [] then []
    else (if path in catalog[0].models then [catalog[0].name] else []) + Owners(catalog[1..], path)
  }

  function FirstOwned(cs: seq<Candidate>, catalog: Catalog): Option<(string, string)> {
    if cs == [] then None
    else if |Owners(catalog, cs[0].path)| == 1 then Some((Owners(catalog, cs[0].path)[0], cs[0].path))
    else FirstOwned(cs[1..], catalog)
  }

  /** What the two passes over a candidate list answer. */
  function Choose(cs: seq<Candidate>, catalog: Catalog): Option<(string, string)> {
    match FirstHit(cs, catalog)
    case Some(hit) => Some(hit)
    case None => FirstOwned(cs, catalog)
  }

  function Resolve(provider: string, model: string, catalog: Catalog): Option<(string, string)> {
    Choose(Candidates(Cleaned(provider), Cleaned(model), catalog), catalog)
  }

  /** `str(x or "").strip().strip("/")`. */
  function Cleaned(x: string): string {
    StripChar(Strip(x), '/')
  }

  // ---- Every answer is listed ------------------------------------------------------------------

  lemma {:induction false} OwnersListed(catalog: Catalog, path: string, k: nat)
    requires k < |Owners(catalog, path)|
    ensures Lists(catalog, Owners(catalog, path)[k], path)
  {
    var here := if path in catalog[0].models then [catalog[0].name] else [];
    if k >= |here| {
      OwnersListed(catalog[1..], path, k - |here|);
      var i :| 0 <= i < |catalog[1..]| && catalog[1..][i].name == Owners(catalog, path)[k]
          && path in catalog[1..][i].models;
      assert catalog[i + 1] == catalog[1..][i];
    }
  }

  lemma {:induction false} FirstHitListed(cs: seq<Candidate>, catalog: Catalog)
    ensures FirstHit(cs, catalog).Some? ==> Lists(catalog, FirstHit(cs, catalog).value.0, FirstHit(cs, catalog).value.1)
  {
    if cs != [] && !Hits(catalog, cs[0]) { FirstHitListed(cs[1..], catalog); }
  }

  lemma {:induction false} FirstOwnedListed(cs: seq<Candidate>, catalog: Catalog)
    ensures FirstOwned(cs, catalog).Some?
            ==> Lists(catalog, FirstOwned(cs, catalog).value.0, FirstOwned(cs, catalog).value.1)
  {
    if cs != [] {
      if |Owners(catalog, cs[0].path)| == 1 { OwnersListed(catalog, cs[0].path, 0); }
      else { FirstOwnedListed(cs[1..], catalog); }
    }
  }

  /** Whatever the planner wrote, an answer names a model listed under that very provider. */
  lemma EveryAnswerIsListed(provider: string, model: string, catalog: Catalog)
    ensures var r := Resolve(provider, model, catalog); r.Some? ==> Lists(catalog, r.value.0, r.value.1)
  {
    var cs := Candidates(Cleaned(provider), Cleaned(model), catalog);
    FirstHitListed(cs, catalog);
    FirstOwnedListed(cs, catalog);
  }

  // ---- Mis-splits --------------------------------------------------------------------------------

  /** Provider names are non-empty and free of slashes. */
  ghost predicate PlainNames(catalog: Catalog) {
    forall i :: 0 <= i < |catalog| ==> catalog[i].name != "" && '/' !in catalog[i].name
  }

  lemma HeadIsNotSlash(n: string)
    requires '/' !in n
    ensures n != "" ==> n[0] != '/'
  {}

  lemma {:induction false} SameHead(n: string, p: string, rest: string)
    requires '/' !in n && '/' !in p && StartsWith(p + "/" + rest, n + "/")
    ensures n == p
    decreases |n|
  {
    var path := p + "/" + rest;
    assert path[0] == (n + "/")[0];
    HeadIsNotSlash(n);
    HeadIsNotSlash(p);
    if n != "" && p != "" {
      assert (p[1..] + "/" + rest) == path[1..] && n[1..] + "/" == (n + "/")[1..];
      assert path[1..][..|n|] == path[..|n| + 1][1..];
      SameHead(n[1..], p[1..], rest);
      assert n == [n[0]] + n[1..] && p == [p[0]] + p[1..];
    }
  }

  lemma StartsItself(p: string, rest: string)
    ensures StartsWith(p + "/" + rest, p + "/") && (p + "/" + rest)[|p| + 1..] == rest
  {}

  /** The only known provider a path can start with is the part before its first slash. */
  lemma {:induction false} PrefixIsUnique(p: string, rest: string, catalog: Catalog)
    requires PlainNames(catalog) && '/' !in p
    requires exists i :: 0 <= i < |catalog| && catalog[i].name == p
    ensures PrefixOf(p + "/" + rest, catalog) == Some(p)
  {
    var i :| 0 <= i < |catalog| && catalog[i].name == p;
    StartsItself(p, rest);
    if catalog[0].name != p {
      if StartsWith(p + "/" + rest, catalog[0].name + "/") { SameHead(catalog[0].name, p, rest); }
      assert catalog[1..][i - 1] == catalog[i];
      PrefixIsUnique(p, rest, catalog[1..]);
    }
  }

  /** The first three candidates of p/rest. */
  lemma PeelOnce(hint: Option<string>, p: string, rest: string, catalog: Catalog)
    requires PrefixOf(p + "/" + rest, catalog) == Some(p) && p != ""
    ensures var cs := Peel(hint, p + "/" + rest, catalog);
            && |cs| >= 2 && cs[0] == Candidate(hint, p + "/" + rest)
            && cs[1..] == Peel(Some(Keep(hint, p)), rest, catalog)
  {
    StartsItself(p, rest);
  }

  lemma {:induction false} FirstHitIn(cs: seq<Candidate>, k: nat, catalog: Catalog)
    requires k < |cs| && Hits(catalog, cs[k]) && (forall j :: 0 <= j < k ==> !Hits(catalog, cs[j]))
    ensures FirstHit(cs, catalog) == Some((cs[k].hint.value, cs[k].path))
  {
    if k > 0 { FirstHitIn(cs[1..], k - 1, catalog); }
  }

  /** The first two candidates of p/m are the whole path without a hint, then (p, m). */
  lemma ListedPathHits(p: string, m: string, catalog: Catalog)
    requires PlainNames(catalog) && Lists(catalog, p, m)
    ensures FirstHit(Peel(None, p + "/" + m, catalog), catalog) == Some((p, m))
  {
    var owner :| 0 <= owner < |catalog| && catalog[owner].name == p && m in catalog[owner].models;
    PrefixIsUnique(p, m, catalog);
    PeelOnce(None, p, m, catalog);
    var cs := Peel(None, p + "/" + m, catalog);
    assert cs[1] == cs[1..][0] == Candidate(Some(p), m);
    FirstHitIn(cs, 1, catalog);
  }

  lemma {:induction false} FirstHitOf(first: seq<Candidate>, rest: seq<Candidate>, catalog: Catalog)
    ensures FirstHit(first + rest, catalog)
            == if FirstHit(first, catalog).Some? then FirstHit(first, catalog) else FirstHit(rest, catalog)
  {
    if first == [] {
      assert first + rest == rest;
    } else {
      assert (first + rest)[0] == first[0] && (first + rest)[1..] == first[1..] + rest;
      FirstHitOf(first[1..], rest, catalog);
    }
  }

  lemma ListedPathWins(p: string, m: string, rest: seq<Candidate>, catalog: Catalog)
    requires PlainNames(catalog) && Lists(catalog, p, m)
    ensures Choose(Peel(None, p + "/" + m, catalog) + rest, catalog) == Some((p, m))
  {
    ListedPathHits(p, m, catalog);
    FirstHitOf(Peel(None, p + "/" + m, catalog), rest, catalog);
  }

  /** A slash of p/m lies at or after the end of p. */
  lemma CutAfterProvider(p: string, m: string, full: string, cut: nat)
    requires '/' !in p && full == p + "/" + m && cut < |full| && full[cut] == '/'
    ensures cut >= |p| && full[..cut] + "/" + full[cut + 1..] == full
  {
    assert forall i :: 0 <= i < |p| ==> p[i] in p && full[i] == p[i];
  }

  /** However a listed `p/m` is cut in two at a slash, as long as stripping leaves both pieces
      alone, it resolves to exactly (p, m). */
  lemma MisSplitRecovered(p: string, m: string, cut: nat, catalog: Catalog)
    requires PlainNames(catalog) && Lists(catalog, p, m)
    requires var full := p + "/" + m; cut < |full| && full[cut] == '/'
    requires var full := p + "/" + m; Cleaned(full[..cut]) == full[..cut] && Cleaned(full[cut + 1..]) == full[cut + 1..]
    ensures var full := p + "/" + m; Resolve(full[..cut], full[cut + 1..], catalog) == Some((p, m))
  {
    var full := p + "/" + m;
    var owner :| 0 <= owner < |catalog| && catalog[owner].name == p && m in catalog[owner].models;
    CutAfterProvider(p, m, full, cut);
    var a, b := full[..cut], full[cut + 1..];
    ListedPathWins(p, m, Peel(None, b, catalog), catalog);
    ResolveIs(a, b, a, b, catalog);
  }

  lemma ResolveIs(provider: string, model: string, a: string, b: string, catalog: Catalog)
    requires Cleaned(provider) == a && Cleaned(model) == b
    ensures Resolve(provider, model, catalog)
         == Choose(Peel(None, if a != "" then a + "/" + b else b, catalog) + Peel(None, b, catalog), catalog)
  {}

  lemma HeadDecides(a: string, rest: string, n: string)
    requires '/' !in n
    ensures StartsWith(a + "/" + rest, n + "/") <==> StartsWith(a + "/", n + "/")
  {
    var path := a + "/" + rest;
    if |n| > |a| {
      assert path[|a|] == '/' && (n + "/")[|a|] == n[|a|] && n[|a|] in n;
      assert |n| < |path| ==> path[..|n| + 1][|a|] == path[|a|];
    } else {
      assert path[..|n| + 1] == (a + "/")[..|n| + 1];
    }
  }

  /** The registered provider that a path starts with is that of its first part. */
  lemma {:induction false} PrefixOfHead(a: string, rest: string, catalog: Catalog)
    requires PlainNames(catalog)
    ensures PrefixOf(a + "/" + rest, catalog) == PrefixOf(a + "/", catalog)
  {
    if catalog != [] {
      HeadDecides(a, rest, catalog[0].name);
      assert forall i :: 0 <= i < |catalog[1..]| ==> catalog[1..][i] == catalog[i + 1];
      PrefixOfHead(a, rest, catalog[1..]);
    }
  }

  /** The first id listed under n among a path and what is left when known providers are dropped
      from its front, one after the other. */
  function FirstListed(n: string, path: string, catalog: Catalog): Option<string>
    decreases |path|
  {
    if Lists(catalog, n, path) then Some(path)
    else match PrefixOf(path, catalog)
      case None => None
      case Some(q) => FirstListed(n, path[|q| + 1..], catalog)
  }

  /** Once a provider is found it stays the hint. */
  lemma {:induction false} HintStays(n: string, path: string, catalog: Catalog)
    requires n != ""
    ensures FirstHit(Peel(Some(n), path, catalog), catalog)
            == match FirstListed(n, path, catalog) case Some(x) => Some((n, x)) case None => None
    decreases |path|
  {
    var cs := Peel(Some(n), path, catalog);
    var prefix := PrefixOf(path, catalog);
    if !Lists(catalog, n, path) && prefix.Some? {
      var left := path[|prefix.value| + 1..];
      assert cs[1..] == Peel(Some(n), left, catalog);
      HintStays(n, left, catalog);
    }
  }

  /** What the candidates of a path hit that starts with a registered provider. */
  lemma PrefixedHits(path: string, n: string, catalog: Catalog)
    requires PrefixOf(path, catalog) == Some(n) && n != ""
    ensures |n| < |path| && FirstHit(Peel(None, path, catalog), catalog)
            == match FirstListed(n, path[|n| + 1..], catalog) case Some(x) => Some((n, x)) case None => None
  {
    PeelFirst(path, n, catalog);
    hide PrefixOf, Peel, FirstHit, FirstListed;
    var left := path[|n| + 1..];
    HintStays(n, left, catalog);
    NoHintNoHit(path, Peel(Some(n), left, catalog), catalog);
  }

  lemma PeelFirst(path: string, n: string, catalog: Catalog)
    requires PrefixOf(path, catalog) == Some(n)
    ensures |n| < |path|
    ensures Peel(None, path, catalog) == [Candidate(None, path)] + Peel(Some(n), path[|n| + 1..], catalog)
  {}

  lemma NoHintNoHit(path: string, cs: seq<Candidate>, catalog: Catalog)
    ensures FirstHit([Candidate(None, path)] + cs, catalog) == FirstHit(cs, catalog)
  {
    assert ([Candidate(None, path)] + cs)[1..] == cs;
  }

  lemma RegisteredIsPlain(a: string, n: string, catalog: Catalog)
    requires PlainNames(catalog) && PrefixOf(a + "/", catalog) == Some(n)
    ensures n != "" && |n| <= |a|
  {
    var i :| 0 <= i < |catalog| && catalog[i].name == n;
  }

  /** The whole path p/m written as the model, beside any provider, resolves to (p, m) exactly when
      the first part of the provider is not registered, or lists nothing that is left when known
      providers are dropped from the front, or lists m first and is p itself. */
  lemma WholePathAsModelIff(p: string, m: string, provider: string, model: string, catalog: Catalog)
    requires PlainNames(catalog) && Lists(catalog, p, m) && Cleaned(model) == p + "/" + m
    ensures var a := Cleaned(provider);
            Resolve(provider, model, catalog) == Some((p, m)) <==>
              match PrefixOf(a + "/", catalog)
              case None => true
              case Some(n) =>
                |n| <= |a| && var first := FirstListed(n, (a + "/" + (p + "/" + m))[|n| + 1..], catalog);
                first == None || (n == p && first == Some(m))
  {
    var a, full := Cleaned(provider), p + "/" + m;
    ResolveIs(provider, model, a, full, catalog);
    ListedPathHits(p, m, catalog);
    var both := Peel(None, if a != "" then a + "/" + full else full, catalog);
    FirstHitOf(both, Peel(None, full, catalog), catalog);
    var prefix := PrefixOf(a + "/", catalog);
    if prefix.Some? {
      RegisteredIsPlain(a, prefix.value, catalog);
      PrefixOfHead(a, full, catalog);
      PrefixedHits(a + "/" + full, prefix.value, catalog);
    } else if a != "" {
      PrefixOfHead(a, full, catalog);
      assert both == [Candidate(None, a + "/" + full)];
    }
  }

  /** A provider repeated in front of its own model is dropped, exactly unless the doubled id is
      itself listed. */
  lemma DoubledProviderRecoveredIff(p: string, m: string, provider: string, model: string, catalog: Catalog)
    requires PlainNames(catalog) && Lists(catalog, p, m)
    requires Cleaned(provider) == p && Cleaned(model) == p + "/" + m
    ensures Resolve(provider, model, catalog) == Some((p, m)) <==> !Lists(catalog, p, p + "/" + m)
  {
    var owner :| 0 <= owner < |catalog| && catalog[owner].name == p && m in catalog[owner].models;
    var full := p + "/" + m;
    PrefixIsUnique(p, full, catalog);
    PrefixOfHead(p, full, catalog);
    PrefixIsUnique(p, m, catalog);
    StartsItself(p, full);
    StartsItself(p, m);
    WholePathAsModelIff(p, m, provider, model, catalog);
    assert |full| > |m|;
  }

  // ---- Which candidate answers -----------------------------------------------------------------------

  /** The provider found in front of a path is the first of the catalog whose name and a slash are there. */
  lemma {:induction false} PrefixIsFirst(path: string, catalog: Catalog) returns (i: nat)
    ensures PrefixOf(path, catalog) == None ==>
              i == |catalog| && forall j :: 0 <= j < |catalog| ==> !(catalog[j].name + "/" <= path)
    ensures PrefixOf(path, catalog) != None ==>
              && i < |catalog| && PrefixOf(path, catalog) == Some(catalog[i].name) && catalog[i].name + "/" <= path
              && forall j :: 0 <= j < i ==> !(catalog[j].name + "/" <= path)
  {
    i := 0;
    if catalog != [] && !StartsWith(path, catalog[0].name + "/") {
      i := PrefixIsFirst(path, catalog[1..]);
      i := i + 1;
      assert forall j :: 0 < j < |catalog| ==> catalog[j] == catalog[1..][j - 1];
    }
  }

  /** From one candidate to the next one known provider is dropped, the first time as the hint, and the
      last candidate has none in front. */
  lemma {:induction false} PeelLaw(hint: Option<string>, path: string, catalog: Catalog, k: nat)
    requires k < |Peel(hint, path, catalog)|
    ensures var cs := Peel(hint, path, catalog);
            && cs[0] == Candidate(hint, path)
            && (k + 1 == |cs| <==> PrefixOf(cs[k].path, catalog) == None)
            && (k + 1 < |cs| ==>
                  var n := PrefixOf(cs[k].path, catalog).value;
                  && n + "/" + cs[k + 1].path == cs[k].path
                  && cs[k + 1].hint == Some(if cs[k].hint == None || cs[k].hint.value == "" then n
                                            else cs[k].hint.value))
    decreases k
  {
    var prefix := PrefixOf(path, catalog);
    if prefix.Some? {
      var n, cs := prefix.value, Peel(hint, path, catalog);
      var more := Peel(Some(Keep(hint, n)), path[|n| + 1..], catalog);
      assert cs == [Candidate(hint, path)] + more;
      assert n + "/" + path[|n| + 1..] == path by { assert path == path[..|n| + 1] + path[|n| + 1..]; }
      if k > 0 { PeelLaw(Some(Keep(hint, n)), path[|n| + 1..], catalog, k - 1); }
    }
  }

  /** The model is listed under the provider that the candidate hints at. */
  ghost predicate Fits(c: Candidate, catalog: Catalog) {
    exists i :: 0 <= i < |catalog| && c.hint == Some(catalog[i].name) && c.path in catalog[i].models
  }

  /** The model is listed under provider i and under no other. */
  ghost predicate OnlyOwner(catalog: Catalog, path: string, i: nat) {
    && i < |catalog| && path in catalog[i].models
    && forall j :: 0 <= j < |catalog| && path in catalog[j].models ==> j == i
  }

  lemma {:induction false} OwnersNone(catalog: Catalog, path: string)
    ensures Owners(catalog, path) == [] <==> forall j :: 0 <= j < |catalog| ==> path !in catalog[j].models
  {
    if catalog != [] {
      OwnersNone(catalog[1..], path);
      assert forall j :: 0 < j < |catalog| ==> catalog[j] == catalog[1..][j - 1];
    }
  }

  lemma {:induction false} OwnersOne(catalog: Catalog, path: string) returns (i: nat)
    ensures |Owners(catalog, path)| == 1 ==> OnlyOwner(catalog, path, i) && Owners(catalog, path)[0] == catalog[i].name
    ensures forall k :: OnlyOwner(catalog, path, k) ==> |Owners(catalog, path)| == 1
  {
    i := 0;
    if catalog != [] {
      var rest := catalog[1..];
      assert forall j :: 0 < j < |catalog| ==> catalog[j] == rest[j - 1];
      assert forall j :: 0 <= j < |rest| ==> catalog[j + 1] == rest[j];
      OwnersNone(rest, path);
      if path !in catalog[0].models {
        i := OwnersOne(rest, path);
        i := i + 1;
        forall k: nat | OnlyOwner(catalog, path, k) ensures |Owners(catalog, path)| == 1 {
          assert OnlyOwner(rest, path, k - 1);
        }
      }
    }
  }

  /** The first candidate that fits answers; if none fits, the first one whose model is listed under
      exactly one provider, with that provider; and if there is none, nothing does. */
  lemma ResolveLaw(provider: string, model: string, catalog: Catalog) returns (k: nat, i: nat)
    ensures var cs, r := Candidates(Cleaned(provider), Cleaned(model), catalog), Resolve(provider, model, catalog);
            if exists j :: 0 <= j < |cs| && Fits(cs[j], catalog) then
              && k < |cs| && Fits(cs[k], catalog) && (forall j :: 0 <= j < k ==> !Fits(cs[j], catalog))
              && r == Some((cs[k].hint.value, cs[k].path))
            else if exists j, o :: 0 <= j < |cs| && OnlyOwner(catalog, cs[j].path, o) then
              && k < |cs| && OnlyOwner(catalog, cs[k].path, i) && r == Some((catalog[i].name, cs[k].path))
              && (forall j, o :: 0 <= j < k ==> !OnlyOwner(catalog, cs[j].path, o))
            else r == None
  {
    hide Candidates, Cleaned, Fits, OnlyOwner, Hits, Owners;
    var cs := Candidates(Cleaned(provider), Cleaned(model), catalog);
    k := FirstHitLaw(cs, catalog);
    i := 0;
    if FirstHit(cs, catalog) == None { k, i := FirstOwnedLaw(cs, catalog); }
  }

  lemma {:induction false} FirstHitLaw(cs: seq<Candidate>, catalog: Catalog) returns (k: nat)
    ensures FirstHit(cs, catalog) == None <==> forall j :: 0 <= j < |cs| ==> !Fits(cs[j], catalog)
    ensures FirstHit(cs, catalog) != None ==>
              && k < |cs| && Fits(cs[k], catalog) && (forall j :: 0 <= j < k ==> !Fits(cs[j], catalog))
              && FirstHit(cs, catalog) == Some((cs[k].hint.value, cs[k].path))
  {
    k := 0;
    if cs != [] {
      FitsIsHit(cs[0], catalog);
      if !Fits(cs[0], catalog) {
        hide Fits, Hits;
        k := FirstHitLaw(cs[1..], catalog);
        k := k + 1;
        assert forall j :: 0 < j < |cs| ==> cs[j] == cs[1..][j - 1];
        assert forall j :: 0 <= j < |cs[1..]| ==> cs[j + 1] == cs[1..][j];
      }
    }
  }

  lemma FitsIsHit(c: Candidate, catalog: Catalog)
    ensures Fits(c, catalog) <==> Hits(catalog, c)
  {}

  lemma {:induction false} FirstOwnedLaw(cs: seq<Candidate>, catalog: Catalog) returns (k: nat, i: nat)
    ensures FirstOwned(cs, catalog) == None <==> forall j, o :: 0 <= j < |cs| ==> !OnlyOwner(catalog, cs[j].path, o)
    ensures FirstOwned(cs, catalog) != None ==>
              && k < |cs| && OnlyOwner(catalog, cs[k].path, i)
              && (forall j, o :: 0 <= j < k ==> !OnlyOwner(catalog, cs[j].path, o))
              && FirstOwned(cs, catalog) == Some((catalog[i].name, cs[k].path))
  {
    hide OnlyOwner, Owners;
    k, i := 0, 0;
    if cs != [] {
      i := OwnersOne(catalog, cs[0].path);
      if |Owners(catalog, cs[0].path)| != 1 {
        k, i := FirstOwnedLaw(cs[1..], catalog);
        k := k + 1;
        assert forall j :: 0 < j < |cs| ==> cs[j] == cs[1..][j - 1];
        assert forall j :: 0 <= j < |cs[1..]| ==> cs[j + 1] == cs[1..][j];
      }
    }
  }

  // ---- The loops in place ---------------------------------------------------------------------------

  method FindPrefix(path: string, catalog: Catalog) returns (prefix: Option<string>)
    ensures prefix == PrefixOf(path, catalog)
  {
    var i := 0;
    while i < |catalog|
      invariant 0 <= i <= |catalog|
      invariant PrefixOf(path, catalog) == PrefixOf(path, catalog[i..])
    {
      if StartsWith(path, catalog[i].name + "/") { return Some(catalog[i].name); }
      assert catalog[i..][1..] == catalog[i + 1..];
      i := i + 1;
    }
    return None;
  }

  lemma Regroup(a: seq<Candidate>, b: seq<Candidate>, c: seq<Candidate>)
    ensures (a + b) + c == a + (b + c)
  {}

  method Collect(start: string, catalog: Catalog) returns (candidates: seq<Candidate>)
    ensures candidates == Peel(None, start, catalog)
  {
    candidates := [];
    var hint: Option<string>, path := None, start;
    while true
      invariant Peel(None, start, catalog) == candidates + Peel(hint, path, catalog)
      decreases |path|
    {
      ghost var seen := candidates;
      candidates := candidates + [Candidate(hint, path)];
      var prefix := FindPrefix(path, catalog);
      if prefix.None? { return; }
      ghost var here := [Candidate(hint, path)];
      hint, path := Some(Keep(hint, prefix.value)), path[|prefix.value| + 1..];
      Regroup(seen, here, Peel(hint, path, catalog));
    }
  }

  method ResolveModel(provider: string, model: string, catalog: Catalog) returns (answer: Option<(string, string)>)
    ensures answer == Resolve(provider, model, catalog)
  {
    hide Owners, Cleaned, Lists, Peel;
    var p, m := Cleaned(provider), Cleaned(model);
    var both := Collect(if p != "" then p + "/" + m else m, catalog);
    var alone := Collect(m, catalog);
    var candidates := both + alone;
    var i := 0;
    while i < |candidates|
      invariant 0 <= i <= |candidates|
      invariant FirstHit(candidates, catalog) == FirstHit(candidates[i..], catalog)
    {
      if Hits(catalog, candidates[i]) { return Some((candidates[i].hint.value, candidates[i].path)); }
      assert candidates[i..][1..] == candidates[i + 1..];
      i := i + 1;
    }
    i := 0;
    while i < |candidates|
      invariant 0 <= i <= |candidates|
      invariant FirstOwned(candidates, catalog) == FirstOwned(candidates[i..], catalog)
    {
      var owners := Owners(catalog, candidates[i].path);
      if |owners| == 1 { return Some((owners[0], candidates[i].path)); }
      assert candidates[i..][1..] == candidates[i + 1..];
      i := i + 1;
    }
    return None;
  }
}
