/**
 The check of a diamond proxy's public description: facets with their selectors, the map
 from selector to facet, the implementation addresses and the outcome's root targets.
 */
module Diamond {
  import opened Prelude

  const MAX_FACETS: nat := 256
  const MAX_SELECTORS: nat := 16_384

  datatype Role = FacetRole | ImmutableRole | OtherRole

  datatype Target = Target(address: string, role: Role, codeExists: bool, codeHash: Option<string>, selectors: seq<string>)

  /** `wellTyped` stands for the checks that every enumeration holds one of its values. */
  datatype Detection = Detection(
    wellTyped: bool, complete: bool, truncated: bool, hasReason: bool, cutPresent: bool, cutFacet: Option<string>,
    facets: seq<Target>, routes: map<string, string>, implementations: seq<string>)

  function LowerChar(c: char): char {
    if 'A' <= c <= 'Z' then (c as int + 32) as char else c
  }

  /** Lower case of an ASCII text; texts that agree under it are equal ignoring case. */
  function Lower(s: string): string {
    seq(|s|, i requires 0 <= i < |s| => LowerChar(s[i]))
  }

  predicate HexChar(c: char) {
    '0' <= c <= '9' || 'a' <= c <= 'f' || 'A' <= c <= 'F'
  }

  predicate ValidSelector(s: string) {
    |s| == 10 && s[..2] == "0x" && forall i | 2 <= i < 10 :: HexChar(s[i])
  }

  const CUT_SELECTOR: string := "0x1f931c1c"

  // ----- lists without repetition

  ghost predicate NoDup<T>(s: seq<T>) {
    forall i, j | 0 <= i < j < |s| :: s[i] != s[j]
  }

  lemma {:induction false} NoDupSize<T>(s: seq<T>)
    requires NoDup(s)
    ensures |Elements(s)| == |s|
  {
    if s != [] {
      var n := |s| - 1;
      NoDupSize(s[..n]);
      assert Elements(s) == Elements(s[..n]) + {s[n]};
      assert s[n] !in Elements(s[..n]);
    } else {
      assert Elements(s) == {};
    }
  }

  /** Two lists of one length without repetition, one inside the other, have the same elements. */
  lemma {:induction false} Pigeons<T>(a: seq<T>, b: seq<T>)
    requires NoDup(a) && NoDup(b) && |a| == |b|
    requires forall i | 0 <= i < |b| :: b[i] in a
    ensures Elements(a) == Elements(b)
  {
    NoDupSize(a);
    NoDupSize(b);
    assert Elements(b) <= Elements(a);
    SubsetOfSize(Elements(b), Elements(a));
  }

  lemma {:induction false} SubsetOfSize<T>(x: set<T>, y: set<T>)
    requires x <= y && |x| == |y|
    ensures x == y
  {
    assert |y - x| == |y| - |x|;
    assert y == x + (y - x);
  }

  // ----- comparing root targets with facets

  function Keys(ss: seq<string>): seq<string> {
    seq(|ss|, i requires 0 <= i < |ss| => Lower(ss[i]))
  }

  function Addresses(ts: seq<Target>): seq<string> {
    seq(|ts|, i requires 0 <= i < |ts| => Lower(ts[i].address))
  }

  ghost predicate SelectorsMatch(left: seq<string>, right: seq<string>) {
    |left| == |right| && NoDup(Keys(left)) && forall k | 0 <= k < |right| :: Keys(right)[k] in Keys(left)
  }

  method SamePublicSelectorSet(left: seq<string>, right: seq<string>) returns (ok: bool)
    ensures ok <==> SelectorsMatch(left, right)
  {
    hide Lower;
    if |left| != |right| {
      return false;
    }
    var seen: set<string>, i := {}, 0;
    while i < |left|
      invariant 0 <= i <= |left| && seen == Elements(Keys(left)[..i]) && NoDup(Keys(left)[..i])
    {
      var key := Lower(left[i]);
      assert key == Keys(left)[i] && Keys(left)[..i + 1] == Keys(left)[..i] + [key];
      if key in seen {
        assert key in Keys(left)[..i];
        return false;
      }
      seen := seen + {key};
      i := i + 1;
    }
    assert Keys(left)[..|left|] == Keys(left);
    var k := 0;
    while k < |right|
      invariant 0 <= k <= |right| && forall m | 0 <= m < k :: Keys(right)[m] in Keys(left)
    {
      assert Lower(right[k]) == Keys(right)[k];
      if Lower(right[k]) !in seen {
        return false;
      }
      k := k + 1;
    }
    ok := true;
  }

  predicate SameHash(a: Option<string>, b: Option<string>) {
    (a.None? && b.None?) || (a.Some? && b.Some? && Lower(a.value) == Lower(b.value))
  }

  ghost predicate Same(t: Target, f: Target) {
    t.role == f.role && t.codeExists == f.codeExists && SameHash(t.codeHash, f.codeHash) && SelectorsMatch(t.selectors, f.selectors)
  }

  /** Some target has this facet's address and agrees with it. */
  ghost predicate Matched(targets: seq<Target>, f: Target) {
    exists i | 0 <= i < |targets| :: Lower(targets[i].address) == Lower(f.address) && Same(targets[i], f)
  }

  ghost predicate TargetsMatch(targets: seq<Target>, facets: seq<Target>) {
    && |targets| == |facets| && NoDup(Addresses(targets))
    && forall k | 0 <= k < |facets| :: Matched(targets, facets[k])
  }

  /** The map from address to target that the comparison builds. */
  ghost predicate Indexes(m: map<string, Target>, ts: seq<Target>) {
    && (forall i | 0 <= i < |ts| :: Lower(ts[i].address) in m && m[Lower(ts[i].address)] == ts[i])
    && (forall a | a in m :: exists i | 0 <= i < |ts| :: a == Lower(ts[i].address))
  }

  lemma {:induction false} IndexExtends(m: map<string, Target>, ts: seq<Target>, t: Target)
    requires Indexes(m, ts) && NoDup(Addresses(ts))
    ensures Lower(t.address) in m <==> !NoDup(Addresses(ts + [t]))
    ensures Lower(t.address) !in m ==> Indexes(m[Lower(t.address) := t], ts + [t])
  {
    hide Lower;
    var all := ts + [t];
    assert Addresses(all) == Addresses(ts) + [Lower(t.address)];
    if Lower(t.address) in m {
      var i :| 0 <= i < |ts| && Lower(t.address) == Lower(ts[i].address);
      assert Addresses(all)[i] == Addresses(all)[|ts|];
    } else {
      var n := m[Lower(t.address) := t];
      forall i | 0 <= i < |all| ensures Lower(all[i].address) in n && n[Lower(all[i].address)] == all[i] {
        if i < |ts| {
          assert all[i] == ts[i] && Lower(ts[i].address) in m;
        }
      }
      forall a | a in n ensures exists i | 0 <= i < |all| :: a == Lower(all[i].address) {
        if a == Lower(t.address) {
          assert all[|ts|] == t;
        } else {
          var i :| 0 <= i < |ts| && a == Lower(ts[i].address);
          assert all[i] == ts[i];
        }
      }
      forall i, j | 0 <= i < j < |all| ensures Addresses(all)[i] != Addresses(all)[j] {
        if j == |ts| {
          assert Lower(ts[i].address) in m;
        } else {
          assert Addresses(ts)[i] != Addresses(ts)[j];
        }
      }
    }
  }

  lemma {:induction false} DupStays(ts: seq<Target>, i: nat)
    requires i <= |ts| && !NoDup(Addresses(ts[..i]))
    ensures !NoDup(Addresses(ts))
  {
    hide Lower;
    var a, b :| 0 <= a < b < i && Addresses(ts[..i])[a] == Addresses(ts[..i])[b];
    assert Addresses(ts)[a] == Addresses(ts)[b];
  }

  /** The address map decides whether a facet is matched. */
  lemma {:induction false} MatchedByMap(m: map<string, Target>, ts: seq<Target>, f: Target)
    requires Indexes(m, ts)
    ensures Matched(ts, f) <==> Lower(f.address) in m && Same(m[Lower(f.address)], f)
  {
    hide Lower, Same;
    if Lower(f.address) in m {
      var i :| 0 <= i < |ts| && Lower(f.address) == Lower(ts[i].address);
      assert m[Lower(ts[i].address)] == ts[i];
    }
  }

  method SamePublicProxyTargetSet(left: seq<Target>, right: seq<Target>) returns (ok: bool)
    ensures ok <==> TargetsMatch(left, right)
  {
    hide Lower, Indexes, Matched, Same;
    if |left| != |right| {
      return false;
    }
    var byAddress: map<string, Target>, i := map[], 0;
    assert Indexes(byAddress, left[..0]) by { NothingIndexed(left); }
    while i < |left|
      invariant 0 <= i <= |left| && Indexes(byAddress, left[..i]) && NoDup(Addresses(left[..i]))
    {
      assert left[..i] + [left[i]] == left[..i + 1];
      IndexExtends(byAddress, left[..i], left[i]);
      var key := Lower(left[i].address);
      if key in byAddress {
        DupStays(left, i + 1);
        return false;
      }
      byAddress := byAddress[key := left[i]];
      i := i + 1;
    }
    assert left[..|left|] == left;
    var k := 0;
    while k < |right|
      invariant 0 <= k <= |right| && forall m | 0 <= m < k :: Matched(left, right[m])
    {
      MatchedByMap(byAddress, left, right[k]);
      var agrees := false;
      if Lower(right[k].address) in byAddress {
        agrees := Agree(byAddress[Lower(right[k].address)], right[k]);
      }
      if !agrees {
        return false;
      }
      k := k + 1;
    }
    ok := true;
  }

  method Agree(t: Target, f: Target) returns (ok: bool)
    ensures ok <==> Same(t, f)
  {
    if t.role != f.role || t.codeExists != f.codeExists || !SameHash(t.codeHash, f.codeHash) {
      return false;
    }
    ok := SamePublicSelectorSet(t.selectors, f.selectors);
  }

  lemma {:induction false} NothingIndexed(ts: seq<Target>)
    ensures Indexes(map[], ts[..0]) && NoDup(Addresses(ts[..0]))
  {
  }

  // ----- facets and their selectors

  predicate RoleOk(f: Target, proxy: string, confirmed: bool) {
    && (f.role.FacetRole? || f.role.ImmutableRole?)
    && (f.role.ImmutableRole? ==> f.address == proxy && f.codeExists)
    && (f.role.FacetRole? ==> f.address != proxy)
    && f.selectors != []
    && (confirmed && f.role.FacetRole? ==> f.codeExists && f.codeHash.Some?)
  }

  /** A selector with the facet that lists it, both in lower case. */
  datatype Route = Route(selector: string, facet: string)

  function RoutesOf(f: Target): seq<Route> {
    seq(|f.selectors|, j requires 0 <= j < |f.selectors| => Route(Lower(f.selectors[j]), Lower(f.address)))
  }

  /** All routes that the facets list, in order. */
  function Listing(facets: seq<Target>): seq<Route> {
    if facets == [] then [] else Listing(facets[..|facets| - 1]) + RoutesOf(facets[|facets| - 1])
  }

  predicate Mapped(routes: map<string, string>, r: Route) {
    ValidSelector(r.selector) && r.selector in routes && Lower(routes[r.selector]) == r.facet
  }

  ghost predicate AllMapped(routes: map<string, string>, rs: seq<Route>) {
    forall n | 0 <= n < |rs| :: Mapped(routes, rs[n])
  }

  ghost predicate OneFacetEach(rs: seq<Route>) {
    forall i, j | 0 <= i < j < |rs| :: rs[i].selector != rs[j].selector
  }

  ghost predicate FacetsOk(d: Detection, proxy: string, confirmed: bool) {
    && (forall i | 0 <= i < |d.facets| :: RoleOk(d.facets[i], proxy, confirmed))
    && NoDup(Addresses(d.facets))
    && AllMapped(d.routes, Listing(d.facets))
    && OneFacetEach(Listing(d.facets))
  }

  /** The selector map that the pass builds. */
  ghost predicate Records(m: map<string, string>, rs: seq<Route>) {
    && (forall n | 0 <= n < |rs| :: rs[n].selector in m && m[rs[n].selector] == rs[n].facet)
    && (forall s | s in m :: exists n | 0 <= n < |rs| :: rs[n].selector == s)
  }

  lemma {:induction false} RecordExtends(m: map<string, string>, rs: seq<Route>, r: Route)
    requires Records(m, rs) && OneFacetEach(rs)
    ensures r.selector in m <==> !OneFacetEach(rs + [r])
    ensures r.selector !in m ==> Records(m[r.selector := r.facet], rs + [r])
  {
    var all := rs + [r];
    if r.selector in m {
      var n :| 0 <= n < |rs| && rs[n].selector == r.selector;
      assert all[n].selector == all[|rs|].selector;
    } else {
      var q := m[r.selector := r.facet];
      forall s | s in q ensures exists n | 0 <= n < |all| :: all[n].selector == s {
        if s == r.selector {
          assert all[|rs|].selector == s;
        } else {
          var n :| 0 <= n < |rs| && rs[n].selector == s;
          assert all[n].selector == s;
        }
      }
    }
  }

  lemma {:induction false} ListingPrefix(facets: seq<Target>, i: nat)
    requires i <= |facets|
    ensures Listing(facets[..i]) <= Listing(facets)
    decreases |facets| - i
  {
    if i < |facets| {
      ListingPrefix(facets, i + 1);
      assert facets[..i + 1][..i] == facets[..i];
    } else {
      assert facets[..i] == facets;
    }
  }

  /** A flaw in a prefix of the listing is a flaw of the listing. */
  lemma {:induction false} PrefixFlaw(d: Detection, i: nat, j: nat, proxy: string, confirmed: bool)
    requires i < |d.facets| && j <= |d.facets[i].selectors|
    requires FacetsOk(d, proxy, confirmed)
    ensures var rs := Listing(d.facets[..i]) + RoutesOf(d.facets[i])[..j];
            OneFacetEach(rs) && AllMapped(d.routes, rs)
  {
    hide Mapped, Lower;
    ListingPrefix(d.facets, i + 1);
    assert d.facets[..i + 1][..i] == d.facets[..i];
    var all := Listing(d.facets);
    var rs := Listing(d.facets[..i]) + RoutesOf(d.facets[i])[..j];
    assert Listing(d.facets[..i + 1]) == Listing(d.facets[..i]) + RoutesOf(d.facets[i]);
    assert forall n | 0 <= n < |rs| :: rs[n] == all[n];
  }

  lemma {:induction false} NextIsFine(d: Detection, i: nat, j: nat, proxy: string, confirmed: bool)
    requires i < |d.facets| && j < |d.facets[i].selectors| && FacetsOk(d, proxy, confirmed)
    ensures var r := Route(Lower(d.facets[i].selectors[j]), Lower(d.facets[i].address));
            OneFacetEach(Listing(d.facets[..i]) + RoutesOf(d.facets[i])[..j] + [r]) && Mapped(d.routes, r)
  {
    hide Mapped, Lower, FacetsOk, Listing;
    PrefixFlaw(d, i, j + 1, proxy, confirmed);
    var rs := Listing(d.facets[..i]) + RoutesOf(d.facets[i])[..j + 1];
    var r := RoutesOf(d.facets[i])[j];
    assert Listing(d.facets[..i]) + RoutesOf(d.facets[i])[..j] + [r] == rs;
    assert rs[|rs| - 1] == r;
  }

  /** The selectors of one facet against the map and the routes seen so far. */
  method CheckSelectors(d: Detection, i: nat, seen: map<string, string>, ghost proxy: string, ghost confirmed: bool)
    returns (ok: bool, after: map<string, string>)
    requires i < |d.facets| && Records(seen, Listing(d.facets[..i])) && OneFacetEach(Listing(d.facets[..i]))
    requires AllMapped(d.routes, Listing(d.facets[..i]))
    ensures ok ==>
              && Records(after, Listing(d.facets[..i + 1])) && OneFacetEach(Listing(d.facets[..i + 1]))
              && AllMapped(d.routes, Listing(d.facets[..i + 1]))
    ensures !ok ==> !FacetsOk(d, proxy, confirmed)
  {
    hide Lower, ValidSelector, Records, OneFacetEach, FacetsOk, Listing;
    var f := d.facets[i];
    var key := Lower(f.address);
    ghost var base := Listing(d.facets[..i]);
    after := seen;
    var j := 0;
    assert base + RoutesOf(f)[..0] == base;
    while j < |f.selectors|
      invariant 0 <= j <= |f.selectors|
      invariant Records(after, base + RoutesOf(f)[..j]) && OneFacetEach(base + RoutesOf(f)[..j])
      invariant AllMapped(d.routes, base + RoutesOf(f)[..j])
    {
      var selector := Lower(f.selectors[j]);
      ghost var r := Route(selector, key);
      ghost var rs := base + RoutesOf(f)[..j];
      assert base + RoutesOf(f)[..j + 1] == rs + [r];
      RecordExtends(after, rs, r);
      if !ValidSelector(selector) || selector in after || selector !in d.routes || Lower(d.routes[selector]) != key {
        if FacetsOk(d, proxy, confirmed) {
          NextIsFine(d, i, j, proxy, confirmed);
        }
        return false, after;
      }
      after := after[selector := key];
      j := j + 1;
    }
    assert RoutesOf(f)[..|f.selectors|] == RoutesOf(f);
    ListingStep(d.facets, i);
    ok := true;
  }

  lemma {:induction false} ListingStep(facets: seq<Target>, i: nat)
    requires i < |facets|
    ensures Listing(facets[..i + 1]) == Listing(facets[..i]) + RoutesOf(facets[i])
  {
    hide RoutesOf;
    assert facets[..i + 1][..i] == facets[..i];
  }

  ghost predicate ExternalKey(facets: seq<Target>, a: string) {
    exists i | 0 <= i < |facets| :: facets[i].role.FacetRole? && Lower(facets[i].address) == a
  }

  lemma {:induction false} ExternalStep(facets: seq<Target>, i: nat, a: string)
    requires i < |facets|
    ensures ExternalKey(facets[..i + 1], a) <==>
            ExternalKey(facets[..i], a) || (facets[i].role.FacetRole? && Lower(facets[i].address) == a)
  {
    hide Lower;
    if ExternalKey(facets[..i + 1], a) {
      var k :| 0 <= k < |facets[..i + 1]| && facets[..i + 1][k].role.FacetRole? && Lower(facets[..i + 1][k].address) == a;
      if k < i {
        assert facets[..i][k] == facets[k];
      }
    }
    if ExternalKey(facets[..i], a) {
      var k :| 0 <= k < |facets[..i]| && facets[..i][k].role.FacetRole? && Lower(facets[..i][k].address) == a;
      assert facets[..i + 1][k] == facets[k];
    }
    if facets[i].role.FacetRole? && Lower(facets[i].address) == a {
      assert facets[..i + 1][i] == facets[i];
    }
  }

  method CheckFacets(d: Detection, proxy: string, confirmed: bool)
    returns (ok: bool, facets: map<string, Target>, selectors: map<string, string>, external: set<string>)
    ensures ok <==> FacetsOk(d, proxy, confirmed)
    ensures ok ==> Indexes(facets, d.facets) && Records(selectors, Listing(d.facets))
    ensures ok ==> forall a :: a in external <==> ExternalKey(d.facets, a)
  {
    hide Lower, Indexes, Records, OneFacetEach, Listing, RoleOk, Mapped, ExternalKey;
    facets, selectors, external := map[], map[], {};
    var i := 0;
    NothingListed(d.facets);
    while i < |d.facets|
      invariant 0 <= i <= |d.facets|
      invariant forall k | 0 <= k < i :: RoleOk(d.facets[k], proxy, confirmed)
      invariant Indexes(facets, d.facets[..i]) && NoDup(Addresses(d.facets[..i]))
      invariant Records(selectors, Listing(d.facets[..i])) && OneFacetEach(Listing(d.facets[..i]))
      invariant AllMapped(d.routes, Listing(d.facets[..i]))
      invariant forall a :: a in external <==> ExternalKey(d.facets[..i], a)
    {
      var f := d.facets[i];
      if !RoleOk(f, proxy, confirmed) {
        return false, facets, selectors, external;
      }
      assert d.facets[..i] + [f] == d.facets[..i + 1];
      IndexExtends(facets, d.facets[..i], f);
      var key := Lower(f.address);
      if key in facets {
        DupStays(d.facets, i + 1);
        return false, facets, selectors, external;
      }
      var fine, more := CheckSelectors(d, i, selectors, proxy, confirmed);
      if !fine {
        return false, facets, selectors, external;
      }
      forall a ensures ExternalKey(d.facets[..i + 1], a) <==> ExternalKey(d.facets[..i], a) || (f.role.FacetRole? && key == a) {
        ExternalStep(d.facets, i, a);
      }
      facets, selectors := facets[key := f], more;
      if f.role.FacetRole? {
        external := external + {key};
      }
      i := i + 1;
    }
    assert d.facets[..|d.facets|] == d.facets;
    ok := true;
  }

  lemma {:induction false} NothingListed(facets: seq<Target>)
    ensures Indexes(map[], facets[..0]) && NoDup(Addresses(facets[..0]))
    ensures Records(map[], Listing(facets[..0])) && OneFacetEach(Listing(facets[..0])) && Listing(facets[..0]) == []
    ensures forall a :: !ExternalKey(facets[..0], a)
  {
  }

  // ----- the map and the implementation addresses

  ghost predicate Lists(rs: seq<Route>, r: Route) {
    exists n | 0 <= n < |rs| :: rs[n] == r
  }

  ghost predicate Unlisted(rs: seq<Route>, selector: string) {
    forall n | 0 <= n < |rs| :: rs[n].selector != selector
  }

  /** An entry of the map that the facets list; or one that they do not list, without a facet. */
  ghost predicate RouteAccepted(d: Detection, s: string)
    requires s in d.routes
  {
    && ValidSelector(s)
    && (Lists(Listing(d.facets), Route(Lower(s), Lower(d.routes[s]))) ||
        (Unlisted(Listing(d.facets), Lower(s)) && Lower(d.routes[s]) == ""))
  }

  lemma {:induction false} RouteByMap(m: map<string, string>, rs: seq<Route>, r: Route)
    requires Records(m, rs) && OneFacetEach(rs)
    ensures (Lists(rs, r) || (Unlisted(rs, r.selector) && r.facet == "")) <==>
            (if r.selector in m then m[r.selector] else "") == r.facet
  {
    if r.selector in m {
      var n :| 0 <= n < |rs| && rs[n].selector == r.selector;
      assert rs[n] == Route(r.selector, m[r.selector]);
    }
  }

  method CheckRoutes(d: Detection, selectors: map<string, string>) returns (ok: bool)
    requires Records(selectors, Listing(d.facets)) && OneFacetEach(Listing(d.facets))
    ensures ok <==> forall s | s in d.routes :: RouteAccepted(d, s)
  {
    hide Lower, ValidSelector, Records, OneFacetEach, Listing, Lists, Unlisted;
    var rest := d.routes.Keys;
    while rest != {}
      invariant rest <= d.routes.Keys && forall s | s in d.routes && s !in rest :: RouteAccepted(d, s)
      decreases |rest|
    {
      var s :| s in rest;
      var key := Lower(s);
      RouteByMap(selectors, Listing(d.facets), Route(key, Lower(d.routes[s])));
      if !ValidSelector(s) || (if key in selectors then selectors[key] else "") != Lower(d.routes[s]) {
        return false;
      }
      rest := rest - {s};
    }
    ok := true;
  }

  /** The implementation addresses are exactly the external facets, without repetition. */
  ghost predicate ImplementationsOk(d: Detection) {
    && NoDup(Keys(d.implementations))
    && forall a :: a in Keys(d.implementations) <==> ExternalKey(d.facets, a)
  }

  method CheckImplementations(d: Detection, facets: map<string, Target>, external: set<string>) returns (ok: bool)
    requires Indexes(facets, d.facets) && forall a :: a in external <==> ExternalKey(d.facets, a)
    requires NoDup(Addresses(d.facets))
    ensures ok <==> ImplementationsOk(d)
  {
    hide Lower, Indexes, ExternalKey;
    var keys := Keys(d.implementations);
    var seen: set<string>, i := {}, 0;
    while i < |d.implementations|
      invariant 0 <= i <= |d.implementations|
      invariant seen == Elements(keys[..i]) && NoDup(keys[..i]) && seen <= external
    {
      var key := Lower(d.implementations[i]);
      assert key == keys[i] && keys[..i + 1] == keys[..i] + [key];
      ExternalByMap(facets, d.facets, key);
      if key !in facets || !facets[key].role.FacetRole? {
        assert key in keys;
        return false;
      }
      if key in seen {
        assert key in keys[..i];
        return false;
      }
      seen := seen + {key};
      i := i + 1;
    }
    assert keys[..|keys|] == keys && seen == Elements(keys);
    assert ImplementationsOk(d) ==> seen == external;
    if |seen| != |external| || !(external <= seen) {
      return false;
    }
    assert seen == external;
    ok := true;
  }

  lemma {:induction false} ExternalByMap(m: map<string, Target>, facets: seq<Target>, a: string)
    requires Indexes(m, facets)
    ensures ExternalKey(facets, a) <==> a in m && m[a].role.FacetRole?
  {
    hide Lower;
    if a in m {
      var i :| 0 <= i < |facets| && a == Lower(facets[i].address);
      assert m[Lower(facets[i].address)] == facets[i];
    }
    if ExternalKey(facets, a) {
      var i :| 0 <= i < |facets| && facets[i].role.FacetRole? && Lower(facets[i].address) == a;
      assert m[Lower(facets[i].address)] == facets[i];
    }
  }

  // ----- the whole check

  /** The checks that look at no list entry. */
  predicate HeadOk(d: Detection) {
    && d.wellTyped && |d.facets| <= MAX_FACETS && |d.routes| <= MAX_SELECTORS && |d.implementations| <= MAX_FACETS
    && d.truncated == d.hasReason && !(d.complete && d.truncated)
    && d.cutPresent == d.cutFacet.Some?
    && (d.complete ==> d.facets != [] && d.routes != map[])
  }

  predicate CutOk(d: Detection) {
    d.cutPresent && d.cutFacet.Some? ==> CUT_SELECTOR in d.routes && Lower(d.routes[CUT_SELECTOR]) == Lower(d.cutFacet.value)
  }

  ghost predicate Accepted(d: Detection, targets: seq<Target>, proxy: string, confirmed: bool) {
    && HeadOk(d) && TargetsMatch(targets, d.facets) && FacetsOk(d, proxy, confirmed)
    && (forall s | s in d.routes :: RouteAccepted(d, s))
    && ImplementationsOk(d) && CutOk(d)
  }

  method ValidatePublicDiamond(d: Detection, targets: seq<Target>, proxy: string, confirmed: bool) returns (ok: bool)
    ensures ok <==> Accepted(d, targets, proxy, confirmed)
  {
    hide TargetsMatch, FacetsOk, RouteAccepted, ImplementationsOk, Records, Indexes, OneFacetEach, ExternalKey, HeadOk, CutOk;
    if !HeadOk(d) {
      return false;
    }
    var same := SamePublicProxyTargetSet(targets, d.facets);
    if !same {
      return false;
    }
    var fine, facets, selectors, external := CheckFacets(d, proxy, confirmed);
    if !fine {
      return false;
    }
    FacetFacts(d, proxy, confirmed);
    var routed := CheckRoutes(d, selectors);
    if !routed {
      return false;
    }
    var implemented := CheckImplementations(d, facets, external);
    if !implemented {
      return false;
    }
    ok := CutOk(d);
  }

  lemma {:induction false} FacetFacts(d: Detection, proxy: string, confirmed: bool)
    requires FacetsOk(d, proxy, confirmed)
    ensures NoDup(Addresses(d.facets)) && OneFacetEach(Listing(d.facets)) && AllMapped(d.routes, Listing(d.facets))
  {
  }

  // ----- what acceptance means

  /** Position of selector `j` of facet `i` in the listing. */
  function Offset(facets: seq<Target>, i: nat): nat
    requires i <= |facets|
  {
    if i == 0 then 0 else Offset(facets, i - 1) + |facets[i - 1].selectors|
  }

  lemma {:induction false} OffsetPrefix(facets: seq<Target>, n: nat, i: nat)
    requires i <= n <= |facets|
    ensures Offset(facets[..n], i) == Offset(facets, i)
  {
    if i > 0 {
      OffsetPrefix(facets, n, i - 1);
    }
  }

  lemma {:induction false} OffsetGrows(facets: seq<Target>, i: nat, k: nat)
    requires i < k <= |facets|
    ensures Offset(facets, i) + |facets[i].selectors| <= Offset(facets, k)
  {
    if i < k - 1 {
      OffsetGrows(facets, i, k - 1);
    }
  }

  lemma {:induction false} ListedAt(facets: seq<Target>, i: nat, j: nat)
    requires i < |facets| && j < |facets[i].selectors|
    ensures |Listing(facets)| == Offset(facets, |facets|) && Offset(facets, i) + j < |Listing(facets)|
    ensures Listing(facets)[Offset(facets, i) + j] == Route(Lower(facets[i].selectors[j]), Lower(facets[i].address))
  {
    hide Lower;
    var n := |facets| - 1;
    ListingSize(facets);
    ListingSize(facets[..n]);
    OffsetPrefix(facets, n, n);
    OffsetGrows(facets, i, |facets|);
    if i < n {
      ListedAt(facets[..n], i, j);
      OffsetPrefix(facets, n, i);
    }
  }

  lemma {:induction false} ListingSize(facets: seq<Target>)
    ensures |Listing(facets)| == Offset(facets, |facets|)
  {
    hide Lower;
    if facets != [] {
      var n := |facets| - 1;
      ListingSize(facets[..n]);
      OffsetPrefix(facets, n, n);
    }
  }

  /** A selector is listed once, by one facet. */
  lemma {:induction false} ListedOnce(d: Detection, targets: seq<Target>, proxy: string, confirmed: bool, i: nat, j: nat, k: nat, l: nat)
    requires Accepted(d, targets, proxy, confirmed)
    requires i < |d.facets| && j < |d.facets[i].selectors| && k < |d.facets| && l < |d.facets[k].selectors|
    requires Lower(d.facets[i].selectors[j]) == Lower(d.facets[k].selectors[l])
    ensures i == k && j == l
  {
    hide Lower, Listing, TargetsMatch, RouteAccepted, ImplementationsOk, HeadOk, CutOk;
    ListedAt(d.facets, i, j);
    ListedAt(d.facets, k, l);
    if i < k {
      OffsetGrows(d.facets, i, k);
    } else if k < i {
      OffsetGrows(d.facets, k, i);
    }
  }

  /** The map is the relation that the facets list, ignoring case. */
  ghost predicate MapIsListing(d: Detection) {
    && (forall s | s in d.routes :: Lists(Listing(d.facets), Route(Lower(s), Lower(d.routes[s]))))
    && (forall n | 0 <= n < |Listing(d.facets)| :: Mapped(d.routes, Listing(d.facets)[n]))
  }

  lemma {:induction false} LowerEmpty(s: string)
    ensures Lower(s) == "" <==> s == ""
  {
    assert |Lower(s)| == |s|;
  }

  lemma {:induction false} FacetOfRoute(facets: seq<Target>, n: nat) returns (i: nat)
    requires n < |Listing(facets)|
    ensures i < |facets| && Listing(facets)[n].facet == Lower(facets[i].address)
  {
    hide Lower;
    var m := |facets| - 1;
    if n < |Listing(facets[..m])| {
      i := FacetOfRoute(facets[..m], n);
    } else {
      i := m;
    }
  }

  /**
   For facets with addresses, an accepted map is the listed relation exactly when none of its
   values is empty: an entry without a facet passes when its selector is not listed.
   */
  lemma {:induction false} AcceptedMap(d: Detection, targets: seq<Target>, proxy: string, confirmed: bool)
    requires Accepted(d, targets, proxy, confirmed) && forall i | 0 <= i < |d.facets| :: d.facets[i].address != ""
    ensures MapIsListing(d) <==> forall s | s in d.routes :: d.routes[s] != ""
  {
    hide Lower, Listing, TargetsMatch, ImplementationsOk, HeadOk, CutOk, Mapped;
    var rs := Listing(d.facets);
    forall n | 0 <= n < |rs| ensures rs[n].facet != "" {
      var i := FacetOfRoute(d.facets, n);
      LowerEmpty(d.facets[i].address);
    }
    forall s | s in d.routes ensures Lists(rs, Route(Lower(s), Lower(d.routes[s]))) <==> d.routes[s] != "" {
      assert RouteAccepted(d, s);
      LowerEmpty(d.routes[s]);
    }
  }

  /** Any accepted description stays accepted when an unlisted selector is mapped to no facet. */
  lemma {:induction false} EmptyRouteIsAccepted(d: Detection, targets: seq<Target>, proxy: string, confirmed: bool, s: string)
    requires Accepted(d, targets, proxy, confirmed) && |d.routes| < MAX_SELECTORS
    requires ValidSelector(s) && s !in d.routes && Unlisted(Listing(d.facets), Lower(s)) && s != CUT_SELECTOR
    ensures Accepted(d.(routes := d.routes[s := ""]), targets, proxy, confirmed)
  {
    hide Lower, Listing, TargetsMatch, ValidSelector;
    var e := d.(routes := d.routes[s := ""]);
    LowerEmpty("");
    forall t | t in e.routes ensures RouteAccepted(e, t) {
      if t != s {
        assert RouteAccepted(d, t);
      }
    }
    assert AllMapped(e.routes, Listing(e.facets)) by {
      forall n | 0 <= n < |Listing(e.facets)| ensures Mapped(e.routes, Listing(e.facets)[n]) {
        assert Mapped(d.routes, Listing(d.facets)[n]);
      }
    }
  }

  /** Root targets and facets are the same map by address, although only one side is checked for repetition. */
  lemma {:induction false} TargetsAreFacets(d: Detection, targets: seq<Target>, proxy: string, confirmed: bool)
    requires Accepted(d, targets, proxy, confirmed)
    ensures Elements(Addresses(targets)) == Elements(Addresses(d.facets))
    ensures forall i, k | 0 <= i < |targets| && 0 <= k < |d.facets| && Lower(targets[i].address) == Lower(d.facets[k].address) ::
              && Same(targets[i], d.facets[k])
              && targets[i].role == d.facets[k].role && targets[i].codeExists == d.facets[k].codeExists
              && (targets[i].codeHash.Some? <==> d.facets[k].codeHash.Some?)
              && (targets[i].codeHash.Some? ==> Lower(targets[i].codeHash.value) == Lower(d.facets[k].codeHash.value))
              && Elements(Keys(targets[i].selectors)) == Elements(Keys(d.facets[k].selectors))
  {
    hide Lower, Listing, ImplementationsOk, HeadOk, CutOk, RouteAccepted, Same;
    forall k | 0 <= k < |d.facets| ensures Addresses(d.facets)[k] in Addresses(targets) {
      assert Matched(targets, d.facets[k]);
      var i :| 0 <= i < |targets| && Lower(targets[i].address) == Lower(d.facets[k].address) && Same(targets[i], d.facets[k]);
      assert Addresses(targets)[i] == Addresses(d.facets)[k];
    }
    Pigeons(Addresses(targets), Addresses(d.facets));
    forall i, k | 0 <= i < |targets| && 0 <= k < |d.facets| && Lower(targets[i].address) == Lower(d.facets[k].address)
      ensures Same(targets[i], d.facets[k])
      ensures targets[i].role == d.facets[k].role && targets[i].codeExists == d.facets[k].codeExists
      ensures targets[i].codeHash.Some? <==> d.facets[k].codeHash.Some?
      ensures targets[i].codeHash.Some? ==> Lower(targets[i].codeHash.value) == Lower(d.facets[k].codeHash.value)
      ensures Elements(Keys(targets[i].selectors)) == Elements(Keys(d.facets[k].selectors))
    {
      assert Matched(targets, d.facets[k]);
      var m :| 0 <= m < |targets| && Lower(targets[m].address) == Lower(d.facets[k].address) && Same(targets[m], d.facets[k]);
      assert Addresses(targets)[m] == Addresses(targets)[i];
      assert m == i;
      FacetSelectorsDiffer(d, targets, proxy, confirmed, k);
      SameSelectors(targets[i], d.facets[k]);
    }
  }

  lemma {:induction false} SameSelectors(t: Target, f: Target)
    requires Same(t, f) && NoDup(Keys(f.selectors))
    ensures t.role == f.role && t.codeExists == f.codeExists && (t.codeHash.Some? <==> f.codeHash.Some?)
    ensures t.codeHash.Some? ==> Lower(t.codeHash.value) == Lower(f.codeHash.value)
    ensures Elements(Keys(t.selectors)) == Elements(Keys(f.selectors))
  {
    hide Lower;
    Pigeons(Keys(t.selectors), Keys(f.selectors));
  }

  lemma {:induction false} FacetSelectorsDiffer(d: Detection, targets: seq<Target>, proxy: string, confirmed: bool, k: nat)
    requires Accepted(d, targets, proxy, confirmed) && k < |d.facets|
    ensures NoDup(Keys(d.facets[k].selectors))
  {
    hide Lower, Accepted;
    var ss := d.facets[k].selectors;
    forall i, j | 0 <= i < j < |ss| ensures Keys(ss)[i] != Keys(ss)[j] {
      if Lower(ss[i]) == Lower(ss[j]) {
        ListedOnce(d, targets, proxy, confirmed, k, i, k, j);
      }
    }
  }
}
