/**
 What an accepted description of a diamond proxy says of the proxy, and that descriptions built
 from well-formed facets are accepted.
 */
module DiamondMeaning {
  import opened Prelude
  import opened Diamond
  import TraceCache

  /** A selector is four bytes in hexadecimal. */
  lemma {:induction false} SelectorIsFourBytes(s: string)
    ensures ValidSelector(s) <==> TraceCache.DecodeFixedHex(s, 4).Some?
  {
    assert |s| >= 2 ==> ("0x" <= s <==> s[..2] == "0x");
    if |s| == 10 && "0x" <= s {
      HexIsHex(s[2..]);
      assert forall i | 2 <= i < 10 :: s[i] == s[2..][i - 2];
      assert forall i | 0 <= i < 8 :: s[2..][i] == s[i + 2];
    }
  }

  lemma {:induction false} HexIsHex(s: string)
    requires |s| % 2 == 0
    ensures TraceCache.HexDecode(s).Some? <==> forall i | 0 <= i < |s| :: HexChar(s[i])
  {
    if s != [] {
      HexIsHex(s[2..]);
      assert forall i | 2 <= i < |s| :: s[i] == s[2..][i - 2];
      assert forall i | 0 <= i < |s| - 2 :: s[2..][i] == s[i + 2];
    }
  }

  /** Folding case twice is folding it once, keeps lengths, and joins exactly the letters that differ in case. */
  lemma {:induction false} LowerFolds(s: string)
    ensures Lower(Lower(s)) == Lower(s) && |Lower(s)| == |s|
    ensures Lower("0xABCDEF") == "0xabcdef"
    ensures (forall i | 0 <= i < |s| :: !('A' <= s[i] <= 'Z')) ==> Lower(s) == s
  {
    assert Lower("0xABCDEF") == "0xabcdef";
  }

  /**
   In an accepted description the immutable facets are exactly those at the proxy's own address,
   have code, and confirmed facets elsewhere have code and its hash; the sizes are bounded.
   */
  lemma {:induction false} AcceptedRoles(d: Detection, targets: seq<Target>, proxy: string, confirmed: bool, i: nat)
    requires Accepted(d, targets, proxy, confirmed) && i < |d.facets|
    ensures d.facets[i].role.ImmutableRole? <==> d.facets[i].address == proxy
    ensures d.facets[i].address != proxy ==> d.facets[i].role.FacetRole? && ExternalKey(d.facets, Lower(d.facets[i].address))
    ensures d.facets[i].address == proxy ==> d.facets[i].codeExists
    ensures confirmed && d.facets[i].address != proxy ==> d.facets[i].codeExists && d.facets[i].codeHash.Some?
    ensures d.facets[i].selectors != [] && |d.facets| <= 256 && |d.routes| <= 16384 && |d.implementations| <= 256
  {
    hide Lower, TargetsMatch, RouteAccepted, ImplementationsOk, Listing, CutOk;
    assert RoleOk(d.facets[i], proxy, confirmed);
  }

  /** A complete description is not truncated and has facets; a truncated one gives a reason. */
  lemma {:induction false} CompleteIsWhole(d: Detection, targets: seq<Target>, proxy: string, confirmed: bool)
    requires Accepted(d, targets, proxy, confirmed)
    ensures d.complete ==> !d.truncated && !d.hasReason && d.facets != [] && d.routes != map[]
    ensures d.truncated <==> d.hasReason
    ensures d.cutPresent <==> d.cutFacet.Some?
  {
    hide Lower, TargetsMatch, RouteAccepted, ImplementationsOk, FacetsOk, CutOk;
  }

  /** The standard cut function, if present, is listed by the facet it names. */
  lemma {:induction false} CutIsListed(d: Detection, targets: seq<Target>, proxy: string, confirmed: bool)
    requires Accepted(d, targets, proxy, confirmed) && d.cutPresent && d.cutFacet.Some? && d.cutFacet.value != ""
    ensures Lists(Listing(d.facets), Route("0x1f931c1c", Lower(d.cutFacet.value)))
  {
    hide TargetsMatch, ImplementationsOk, FacetsOk, HeadOk, Listing, Lists, Unlisted, Lower;
    LowerEmpty(d.cutFacet.value);
    assert RouteAccepted(d, CUT_SELECTOR);
    assert Lower(CUT_SELECTOR) == "0x1f931c1c" by { LowerFolds(CUT_SELECTOR); }
  }

  // ----- well-formed facets

  /** The map that the routes make. */
  function MapOf(rs: seq<Route>): map<string, string> {
    if rs == [] then map[] else MapOf(rs[..|rs| - 1])[rs[|rs| - 1].selector := rs[|rs| - 1].facet]
  }

  lemma {:induction false} MapHolds(rs: seq<Route>)
    requires OneFacetEach(rs)
    ensures Records(MapOf(rs), rs) && |MapOf(rs)| <= |rs|
  {
    hide Records;
    if rs == [] {
      NoRecords();
    } else {
      var n := |rs| - 1;
      var init, last := rs[..n], rs[n];
      assert rs == init + [last];
      MapHolds(init);
      RecordExtends(MapOf(init), init, last);
    }
  }

  lemma {:induction false} NoRecords()
    ensures Records(map[], [])
  {
  }

  /** The addresses of the facets outside the proxy, in order. */
  function Outside(facets: seq<Target>): seq<string> {
    if facets == [] then []
    else Outside(facets[..|facets| - 1])
         + if facets[|facets| - 1].role.FacetRole? then [facets[|facets| - 1].address] else []
  }

  lemma {:induction false} OneKey(a: string)
    ensures Keys([a]) == [Lower(a)] && Keys([]) == []
  {
  }

  lemma {:induction false} OutsideIs(facets: seq<Target>, a: string)
    ensures a in Keys(Outside(facets)) <==> ExternalKey(facets, a)
    ensures |Outside(facets)| <= |facets|
  {
    hide Lower;
    if facets != [] {
      var n := |facets| - 1;
      OutsideIs(facets[..n], a);
      ExternalStep(facets, n, a);
      assert facets[..n + 1] == facets;
      var more := if facets[n].role.FacetRole? then [facets[n].address] else [];
      assert Outside(facets) == Outside(facets[..n]) + more;
      assert Keys(Outside(facets)) == Keys(Outside(facets[..n])) + Keys(more);
      OneKey(facets[n].address);
    }
  }

  lemma {:induction false} OutsideOnce(facets: seq<Target>)
    requires NoDup(Addresses(facets))
    ensures NoDup(Keys(Outside(facets)))
  {
    hide Lower;
    if facets == [] {
      OneKey("");
    } else {
      var n := |facets| - 1;
      var init, last := facets[..n], facets[n];
      assert forall i, j | 0 <= i < j < n :: Addresses(init)[i] == Addresses(facets)[i] && Addresses(init)[j] == Addresses(facets)[j];
      OutsideOnce(init);
      if last.role.FacetRole? {
        var key := Lower(last.address);
        OutsideIs(init, key);
        assert forall k | 0 <= k < n :: Addresses(facets)[k] != Addresses(facets)[n];
        assert forall k | 0 <= k < n :: Lower(init[k].address) == Addresses(facets)[k];
        assert Keys(Outside(facets)) == Keys(Outside(init)) + [key];
        assert key !in Keys(Outside(init));
      } else {
        assert Outside(facets) == Outside(init) + [] == Outside(init);
      }
    }
  }

  /** The complete description of these facets. */
  function Built(facets: seq<Target>): Detection {
    Detection(true, true, false, false, false, None, facets, MapOf(Listing(facets)), Outside(facets))
  }

  lemma {:induction false} MatchesItself(facets: seq<Target>)
    requires NoDup(Addresses(facets)) && OneFacetEach(Listing(facets))
    ensures TargetsMatch(facets, facets)
  {
    hide Lower, Listing;
    forall k | 0 <= k < |facets| ensures Matched(facets, facets[k]) {
      forall i, j | 0 <= i < j < |facets[k].selectors| ensures Keys(facets[k].selectors)[i] != Keys(facets[k].selectors)[j] {
        ListedAt(facets, k, i);
        ListedAt(facets, k, j);
      }
      assert SelectorsMatch(facets[k].selectors, facets[k].selectors);
      assert Same(facets[k], facets[k]);
    }
  }

  lemma {:induction false} RouteFolds(facets: seq<Target>, n: nat)
    requires n < |Listing(facets)|
    ensures Lower(Listing(facets)[n].selector) == Listing(facets)[n].selector && Lower(Listing(facets)[n].facet) == Listing(facets)[n].facet
  {
    hide Lower;
    var m := |facets| - 1;
    if n < |Listing(facets[..m])| {
      RouteFolds(facets[..m], n);
    } else {
      var j := n - |Listing(facets[..m])|;
      LowerFolds(facets[m].selectors[j]);
      LowerFolds(facets[m].address);
    }
  }

  lemma {:induction false} BuiltRoutes(facets: seq<Target>)
    requires OneFacetEach(Listing(facets)) && forall n | 0 <= n < |Listing(facets)| :: ValidSelector(Listing(facets)[n].selector)
    ensures AllMapped(Built(facets).routes, Listing(facets))
    ensures forall s | s in Built(facets).routes :: RouteAccepted(Built(facets), s)
    ensures |Built(facets).routes| <= |Listing(facets)|
    ensures Listing(facets) != [] ==> Built(facets).routes != map[]
  {
    hide Lower, Listing, MapOf, Outside, ValidSelector, OneFacetEach;
    var d, rs := Built(facets), Listing(facets);
    MapHolds(rs);
    forall n | 0 <= n < |rs| ensures Mapped(d.routes, rs[n]) {
      RouteFolds(facets, n);
    }
    forall s | s in d.routes ensures RouteAccepted(d, s) {
      var n :| 0 <= n < |rs| && rs[n].selector == s;
      RouteFolds(facets, n);
      assert rs[n] == Route(Lower(s), Lower(d.routes[s]));
    }
    if rs != [] {
      assert rs[0].selector in d.routes;
    }
  }

  lemma {:induction false} BuiltImplementations(facets: seq<Target>)
    requires NoDup(Addresses(facets))
    ensures ImplementationsOk(Built(facets)) && |Built(facets).implementations| <= |facets|
  {
    hide Lower, Listing, MapOf, Outside, ExternalKey, NoDup;
    OutsideOnce(facets);
    forall a ensures a in Keys(Outside(facets)) <==> ExternalKey(facets, a) {
      OutsideIs(facets, a);
    }
    OutsideIs(facets, "");
  }

  /**
   Facets with proper roles, different addresses and valid selectors, none listed twice, make a
   description that is accepted: its map is the list, its implementations the facets outside.
   */
  lemma {:induction false} BuiltIsAccepted(facets: seq<Target>, proxy: string, confirmed: bool)
    requires 1 <= |facets| <= 256 && |Listing(facets)| <= 16384
    requires forall i | 0 <= i < |facets| :: RoleOk(facets[i], proxy, confirmed)
    requires NoDup(Addresses(facets)) && OneFacetEach(Listing(facets))
    requires forall n | 0 <= n < |Listing(facets)| :: ValidSelector(Listing(facets)[n].selector)
    ensures Accepted(Built(facets), facets, proxy, confirmed)
  {
    hide Lower, Listing, MapOf, RoleOk, TargetsMatch, Outside, ExternalKey, ValidSelector, NoDup, OneFacetEach;
    hide ImplementationsOk, AllMapped, RouteAccepted;
    MatchesItself(facets);
    FirstListed(facets, proxy, confirmed);
    BuiltRoutes(facets);
    BuiltImplementations(facets);
  }

  lemma {:induction false} FirstListed(facets: seq<Target>, proxy: string, confirmed: bool)
    requires facets != [] && RoleOk(facets[0], proxy, confirmed)
    ensures Listing(facets) != []
  {
    ListedAt(facets, 0, 0);
  }
}
