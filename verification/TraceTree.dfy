/**
 The call tree of a transaction, read from unordered rows: frames are sorted by path and
 checked in one pass.
 */
module TraceTree {
  import opened Prelude
  import opened Lexicographic
  import opened TracePath

  /** A scanned row: `node` carries whatever else the frame holds. */
  datatype Scanned<T> = Scanned(path: Path, depth: nat, pathText: string, parentText: Option<string>, node: T)

  /** What scanning guarantees: the path is the parsed text. */
  predicate FromText<T>(f: Scanned<T>) {
    Parse(f.pathText) == Some(f.path)
  }

  function Parent(p: Path): Path
    requires p != []
  {
    p[..|p| - 1]
  }

  // ----- what a tree is

  /** Depth and parent text fit the path. */
  predicate WellPlaced<T>(f: Scanned<T>) {
    && f.depth == |f.path|
    && f.parentText == (if f.path == [] then None else Some(Print(Parent(f.path))))
  }

  /** Some frame has path `p`. */
  ghost predicate Has<T(!new)>(frames: multiset<Scanned<T>>, p: Path) {
    exists g | g in frames :: g.path == p
  }

  ghost predicate HasAt<T>(fs: seq<Scanned<T>>, p: Path) {
    exists j | 0 <= j < |fs| :: fs[j].path == p
  }

  /** Each path once, every parent present, and a root. Stated on the bag of frames. */
  ghost predicate IsTree<T(!new)>(frames: multiset<Scanned<T>>) {
    && (forall f | f in frames :: WellPlaced(f))
    && (forall f | f in frames :: frames[f] == 1)
    && (forall f, g | f in frames && g in frames && f.path == g.path :: f == g)
    && (forall f | f in frames && f.path != [] :: Has(frames, Parent(f.path)))
    && Has(frames, [])
  }

  /** The same on a list, by position. */
  ghost predicate IsTreeList<T>(fs: seq<Scanned<T>>) {
    && (forall i | 0 <= i < |fs| :: WellPlaced(fs[i]))
    && (forall i, j | 0 <= i < j < |fs| :: fs[i].path != fs[j].path)
    && (forall i | 0 <= i < |fs| && fs[i].path != [] :: HasAt(fs, Parent(fs[i].path)))
    && HasAt(fs, [])
  }

  lemma {:induction false} CountTwice<T>(fs: seq<Scanned<T>>, i: nat, j: nat)
    requires i < j < |fs| && fs[i] == fs[j]
    ensures multiset(fs)[fs[i]] >= 2
  {
    assert fs == fs[..j] + [fs[j]] + fs[j + 1..];
    assert fs[..j][i] == fs[i];
  }

  lemma {:induction false} CountOnce<T>(fs: seq<Scanned<T>>, f: Scanned<T>)
    requires f in fs && forall i, j | 0 <= i < j < |fs| :: fs[i] != fs[j]
    ensures multiset(fs)[f] == 1
  {
    var n := |fs| - 1;
    assert fs == fs[..n] + [fs[n]];
    if f == fs[n] {
      assert f !in fs[..n];
    } else {
      CountOnce(fs[..n], f);
    }
  }

  lemma {:induction false} HasByPosition<T(!new)>(fs: seq<Scanned<T>>, p: Path)
    ensures Has(multiset(fs), p) <==> HasAt(fs, p)
  {
    if Has(multiset(fs), p) {
      var g :| g in multiset(fs) && g.path == p;
      assert g in fs;
    }
    if HasAt(fs, p) {
      var j :| 0 <= j < |fs| && fs[j].path == p;
      assert fs[j] in multiset(fs);
    }
  }

  lemma {:induction false} TreeToList<T(!new)>(fs: seq<Scanned<T>>)
    requires IsTree(multiset(fs))
    ensures IsTreeList(fs)
  {
    hide WellPlaced, Has, HasAt, Parent;
    var bag := multiset(fs);
    assert forall i | 0 <= i < |fs| :: fs[i] in bag;
    forall i, j | 0 <= i < j < |fs| ensures fs[i].path != fs[j].path {
      if fs[i].path == fs[j].path {
        CountTwice(fs, i, j);
      }
    }
    forall i | 0 <= i < |fs| && fs[i].path != [] ensures HasAt(fs, Parent(fs[i].path)) {
      HasByPosition(fs, Parent(fs[i].path));
    }
    HasByPosition(fs, []);
  }

  lemma {:induction false} ListToTree<T(!new)>(fs: seq<Scanned<T>>)
    requires IsTreeList(fs)
    ensures IsTree(multiset(fs))
  {
    hide WellPlaced, Has, HasAt, Parent;
    var bag := multiset(fs);
    assert forall f | f in bag :: f in fs;
    forall f | f in bag ensures bag[f] == 1 {
      CountOnce(fs, f);
    }
    forall f | f in bag && f.path != [] ensures Has(bag, Parent(f.path)) {
      HasByPosition(fs, Parent(f.path));
    }
    HasByPosition(fs, []);
  }

  lemma {:induction false} TreeByPosition<T(!new)>(fs: seq<Scanned<T>>)
    ensures IsTree(multiset(fs)) <==> IsTreeList(fs)
  {
    hide IsTree, IsTreeList;
    if IsTree(multiset(fs)) {
      TreeToList(fs);
    }
    if IsTreeList(fs) {
      ListToTree(fs);
    }
  }

  // ----- sorting

  predicate Sorted<T>(fs: seq<Scanned<T>>) {
    forall i, j | 0 <= i < j < |fs| :: !Less(fs[j].path, fs[i].path)
  }

  lemma {:induction false} NotLessTransitive(a: Path, b: Path, c: Path)
    requires !Less(b, a) && !Less(c, b)
    ensures !Less(c, a)
  {
    if Less(c, a) {
      LessTotal(a, b);
      if a == b {
        assert false;
      } else {
        LessTransitive(c, a, b);
      }
    }
  }

  method InsertFrame<T>(fs: seq<Scanned<T>>, f: Scanned<T>) returns (r: seq<Scanned<T>>)
    requires Sorted(fs)
    ensures Sorted(r) && multiset(r) == multiset(fs) + multiset{f}
  {
    hide Less;
    var k := |fs|;
    while k > 0 && Less(f.path, fs[k - 1].path)
      invariant 0 <= k <= |fs|
      invariant forall i | k <= i < |fs| :: Less(f.path, fs[i].path)
    {
      k := k - 1;
    }
    r := fs[..k] + [f] + fs[k..];
    forall i | k <= i < |fs| ensures !Less(fs[i].path, f.path) {
      if Less(fs[i].path, f.path) {
        LessTransitive(f.path, fs[i].path, f.path);
        LessIrreflexive(f.path);
      }
    }
    forall i | 0 <= i < k ensures !Less(f.path, fs[i].path) {
      if i < k - 1 {
        NotLessTransitive(fs[i].path, fs[k - 1].path, f.path);
      }
    }
    InsertSorted(fs, k, f);
    InsertBag(fs, k, f);
  }

  lemma {:induction false} InsertSorted<T>(fs: seq<Scanned<T>>, k: nat, f: Scanned<T>)
    requires Sorted(fs) && k <= |fs|
    requires forall i | 0 <= i < k :: !Less(f.path, fs[i].path)
    requires forall i | k <= i < |fs| :: !Less(fs[i].path, f.path)
    ensures Sorted(fs[..k] + [f] + fs[k..])
  {
    hide Less;
    var r := fs[..k] + [f] + fs[k..];
    forall i, j | 0 <= i < j < |r| ensures !Less(r[j].path, r[i].path) {
      var a := if i < k then i else i - 1;
      var b := if j < k then j else j - 1;
      assert i != k ==> r[i] == fs[a];
      assert j != k ==> r[j] == fs[b];
      assert i != k && j != k ==> !Less(fs[b].path, fs[a].path);
    }
  }

  lemma {:induction false} InsertBag<T>(fs: seq<Scanned<T>>, k: nat, f: Scanned<T>)
    requires k <= |fs|
    ensures multiset(fs[..k] + [f] + fs[k..]) == multiset(fs) + multiset{f}
  {
    assert fs == fs[..k] + fs[k..];
  }

  /** Stands for the library sort: some permutation in path order. */
  method SortFrames<T>(fs: seq<Scanned<T>>) returns (r: seq<Scanned<T>>)
    ensures Sorted(r) && multiset(r) == multiset(fs)
  {
    r := [];
    var i := 0;
    while i < |fs|
      invariant 0 <= i <= |fs| && Sorted(r) && multiset(r) == multiset(fs[..i])
    {
      assert fs[..i + 1] == fs[..i] + [fs[i]];
      r := InsertFrame(r, fs[i]);
      i := i + 1;
    }
    assert fs[..i] == fs;
  }

  // ----- the single pass

  function Texts<T>(fs: seq<Scanned<T>>): set<string> {
    set i | 0 <= i < |fs| :: fs[i].pathText
  }

  /** A parent that occurs anywhere occurs earlier. */
  lemma {:induction false} ParentIsEarlier<T>(fs: seq<Scanned<T>>, i: nat, j: nat)
    requires Sorted(fs) && i < |fs| && j < |fs| && fs[i].path != [] && fs[j].path == Parent(fs[i].path)
    ensures j < i
  {
    PrefixIsLess(Parent(fs[i].path), fs[i].path);
  }

  lemma {:induction false} ParentStorable(p: Path)
    requires Storable(p) && p != []
    ensures Storable(Parent(p))
  {
  }

  lemma {:induction false} TextFacts<T>(f: Scanned<T>)
    requires FromText(f)
    ensures f.pathText == Print(f.path) && Storable(f.path) && (f.path == [] <==> f.pathText == "")
  {
    PrintParse(f.pathText);
    ParsePrint([]);
  }

  lemma {:induction false} ParentIsKnown<T>(fs: seq<Scanned<T>>, i: nat, f: Scanned<T>)
    requires i <= |fs| && (forall j | 0 <= j < |fs| :: FromText(fs[j])) && FromText(f) && f.path != []
    ensures Print(Parent(f.path)) in Texts(fs[..i]) <==> HasAt(fs[..i], Parent(f.path))
  {
    hide FromText, Print;
    TextFacts(f);
    ParentStorable(f.path);
    if Print(Parent(f.path)) in Texts(fs[..i]) {
      var j :| 0 <= j < i && fs[..i][j].pathText == Print(Parent(f.path));
      TextFacts(fs[j]);
      PrintIsInjective(fs[j].path, Parent(f.path));
    }
    if HasAt(fs[..i], Parent(f.path)) {
      var j :| 0 <= j < i && fs[..i][j].path == Parent(f.path);
      TextFacts(fs[j]);
    }
  }

  lemma {:induction false} PathIsKnown<T>(fs: seq<Scanned<T>>, i: nat, f: Scanned<T>)
    requires i <= |fs| && (forall j | 0 <= j < |fs| :: FromText(fs[j])) && FromText(f)
    ensures f.pathText in Texts(fs[..i]) <==> HasAt(fs[..i], f.path)
  {
    hide FromText, Print;
    TextFacts(f);
    if f.pathText in Texts(fs[..i]) {
      var j :| 0 <= j < i && fs[..i][j].pathText == f.pathText;
      TextFacts(fs[j]);
      PrintIsInjective(fs[j].path, f.path);
    }
    if HasAt(fs[..i], f.path) {
      var j :| 0 <= j < i && fs[..i][j].path == f.path;
      TextFacts(fs[j]);
    }
  }

  /** Everything the pass checks of frame `i`. */
  ghost predicate Passes<T>(fs: seq<Scanned<T>>, i: nat)
    requires i < |fs|
  {
    && WellPlaced(fs[i])
    && !HasAt(fs[..i], fs[i].path)
    && (fs[i].path != [] ==> HasAt(fs[..i], Parent(fs[i].path)))
  }

  ghost function Roots<T>(fs: seq<Scanned<T>>): nat {
    if fs == [] then 0 else Roots(fs[..|fs| - 1]) + (if fs[|fs| - 1].path == [] then 1 else 0)
  }

  lemma {:induction false} RootsOfDistinct<T>(fs: seq<Scanned<T>>)
    requires forall i, j | 0 <= i < j < |fs| :: fs[i].path != fs[j].path
    ensures Roots(fs) == if HasAt(fs, []) then 1 else 0
  {
    if fs != [] {
      var n := |fs| - 1;
      RootsOfDistinct(fs[..n]);
      if fs[n].path == [] {
        assert forall j | 0 <= j < n :: fs[..n][j].path != [];
      } else if HasAt(fs, []) {
        var j :| 0 <= j < |fs| && fs[j].path == [];
        assert fs[..n][j].path == [];
      }
    }
  }

  lemma {:induction false} TreePasses<T>(fs: seq<Scanned<T>>, i: nat)
    requires Sorted(fs) && IsTreeList(fs) && i < |fs|
    ensures Passes(fs, i)
  {
    hide WellPlaced, Less, Parent;
    if fs[i].path != [] {
      var j :| 0 <= j < |fs| && fs[j].path == Parent(fs[i].path);
      ParentIsEarlier(fs, i, j);
      assert fs[..i][j].path == Parent(fs[i].path);
    }
  }

  lemma {:induction false} HasEarlier<T>(fs: seq<Scanned<T>>, i: nat, p: Path)
    requires i <= |fs| && HasAt(fs[..i], p)
    ensures HasAt(fs, p)
  {
    var j :| 0 <= j < i && fs[..i][j].path == p;
    assert fs[j].path == p;
  }

  lemma {:induction false} PassedIsTree<T>(fs: seq<Scanned<T>>)
    requires (forall i | 0 <= i < |fs| :: Passes(fs, i)) && Roots(fs) == 1
    ensures IsTreeList(fs)
  {
    forall i, j | 0 <= i < j < |fs| ensures fs[i].path != fs[j].path {
      assert Passes(fs, j) && fs[..j][i] == fs[i];
    }
    RootsOfDistinct(fs);
    hide WellPlaced, HasAt, Parent, Roots;
    forall i | 0 <= i < |fs| ensures WellPlaced(fs[i]) && (fs[i].path != [] ==> HasAt(fs, Parent(fs[i].path))) {
      assert Passes(fs, i);
      if fs[i].path != [] {
        HasEarlier(fs, i, Parent(fs[i].path));
      }
    }
  }

  lemma {:induction false} TreeRoots<T>(fs: seq<Scanned<T>>)
    requires IsTreeList(fs)
    ensures Roots(fs) == 1
  {
    RootsOfDistinct(fs);
  }

  /** On a sorted list, passing every position and counting one root is being a tree. */
  lemma {:induction false} PassesIsTree<T>(fs: seq<Scanned<T>>)
    requires Sorted(fs)
    ensures (forall i | 0 <= i < |fs| :: Passes(fs, i)) && Roots(fs) == 1 <==> IsTreeList(fs)
  {
    hide Passes, IsTreeList, Sorted;
    if IsTreeList(fs) {
      forall i | 0 <= i < |fs| ensures Passes(fs, i) {
        TreePasses(fs, i);
      }
      TreeRoots(fs);
    }
    if (forall i | 0 <= i < |fs| :: Passes(fs, i)) && Roots(fs) == 1 {
      PassedIsTree(fs);
    }
  }

  /** Accepts a sorted list of scanned frames exactly when it is a tree. */
  method CheckSorted<T>(fs: seq<Scanned<T>>) returns (ok: bool)
    requires Sorted(fs) && forall i | 0 <= i < |fs| :: FromText(fs[i])
    ensures ok <==> IsTreeList(fs)
  {
    hide FromText, Less, IsTreeList, HasAt;
    PassesIsTree(fs);
    var known: set<string>, rootCount, k := {}, 0, 0;
    while k < |fs|
      invariant 0 <= k <= |fs| && known == Texts(fs[..k]) && rootCount == Roots(fs[..k])
      invariant forall i | 0 <= i < k :: Passes(fs, i)
    {
      var f := fs[k];
      PathIsKnown(fs, k, f);
      TextFacts(f);
      if f.pathText in known || |f.path| != f.depth {
        assert !Passes(fs, k);
        return false;
      }
      if f.depth == 0 {
        if f.pathText != "" || f.parentText.Some? {
          assert !Passes(fs, k);
          return false;
        }
        rootCount := rootCount + 1;
      } else {
        var expected := Print(f.path[..|f.path| - 1]);
        ParentIsKnown(fs, k, f);
        if f.parentText != Some(expected) || expected !in known {
          assert !Passes(fs, k);
          return false;
        }
      }
      assert fs[..k + 1] == fs[..k] + [f];
      assert Texts(fs[..k + 1]) == known + {f.pathText};
      known := known + {f.pathText};
      k := k + 1;
    }
    assert fs[..k] == fs;
    ok := rootCount == 1;
  }

  /** Sort, then one pass: accepts a bag of scanned frames exactly when it is a tree. */
  method CheckTree<T(!new)>(rows: seq<Scanned<T>>) returns (ok: bool, sorted: seq<Scanned<T>>)
    requires forall i | 0 <= i < |rows| :: FromText(rows[i])
    ensures Sorted(sorted) && multiset(sorted) == multiset(rows)
    ensures ok <==> IsTree(multiset(rows))
    ensures ok ==> IsTreeList(sorted)
  {
    hide FromText, Sorted;
    sorted := SortFrames(rows);
    forall i | 0 <= i < |sorted| ensures FromText(sorted[i]) {
      assert sorted[i] in multiset(sorted);
      assert sorted[i] in rows;
    }
    TreeByPosition(sorted);
    ok := CheckSorted(sorted);
  }

  // ----- what the accepted order means

  /** The frames of a subtree are contiguous. */
  lemma {:induction false} SubtreesAreContiguous<T>(fs: seq<Scanned<T>>, p: Path, i: nat, m: nat, k: nat)
    requires Sorted(fs) && i <= m <= k < |fs| && p <= fs[i].path && p <= fs[k].path
    ensures p <= fs[m].path
  {
    LessTotal(fs[i].path, fs[m].path);
    LessTotal(fs[m].path, fs[k].path);
    BetweenExtensions(p, fs[i].path, fs[m].path, fs[k].path);
  }

  /**
   Preorder: a frame's parent is the nearest earlier frame that is less deep. Everything between
   them belongs to the parent's subtree and is deeper than the parent.
   */
  lemma {:induction false} Preorder<T>(fs: seq<Scanned<T>>, k: nat) returns (j: nat)
    requires Sorted(fs) && IsTreeList(fs) && k < |fs| && fs[k].path != []
    ensures j < k && fs[j].path == Parent(fs[k].path) && fs[j].depth == fs[k].depth - 1
    ensures forall m | j < m < k :: fs[j].path < fs[m].path && fs[m].depth > fs[j].depth
  {
    hide Less;
    assert HasAt(fs, Parent(fs[k].path));
    j :| 0 <= j < |fs| && fs[j].path == Parent(fs[k].path);
    ParentIsEarlier(fs, k, j);
    forall m | j < m < k ensures fs[j].path < fs[m].path && fs[m].depth > fs[j].depth {
      SubtreesAreContiguous(fs, fs[j].path, j, m, k);
    }
  }
}
