/**
 * The catalogue entities of `backend/products/models.py`: categories forming
 * a parent forest, products with their images, and the derived properties
 * (full path, active descendants, SKU generation, discount, stock flags,
 * main image).
 *
 * Categories are keyed by their unique slug; a parent link names the
 * parent's slug.
 */
module ProductModels {
  import opened Wrappers
  import opened Text
  import opened Seqs

  datatype Category = Category(
    id: nat,
    name: string,
    slug: string,
    parent: Option<string>,
    isActive: bool,
    order: nat)

  /** All categories, by slug. */
  type CategoryTable = map<string, Category>

  /** Where an image file comes from: a path already in storage, or a freshly uploaded file name. */
  datatype ImageFile = Stored(path: string) | Uploaded(fileName: string)

  datatype ProductImage = ProductImage(file: ImageFile, isMain: bool, order: nat)

  datatype Product = Product(
    id: nat,
    name: string,
    slug: string,
    sku: string,
    description: string,
    shortDescription: string,
    price: real,
    oldPrice: Option<real>,
    stock: nat,
    stockAlertThreshold: nat,
    isAvailable: bool,
    isFeatured: bool,
    isNew: bool,
    isBestseller: bool,
    categories: set<string>,
    mainCategory: Option<string>,
    images: seq<ProductImage>)

  // ---------------------------------------------------------------------
  // The category forest
  // ---------------------------------------------------------------------

  /**
   * `cats` is keyed by slug, every parent exists, and `rank` orders every
   * parent strictly before its children (so the parent links have no
   * cycle). A rank is below the number of categories.
   */
  predicate Forest(cats: CategoryTable, rank: map<string, nat>) {
    cats.Keys == rank.Keys
    && forall k :: k in cats ==>
         cats[k].slug == k && rank[k] < |cats|
         && (cats[k].parent.Some? ==> cats[k].parent.value in cats && rank[cats[k].parent.value] < rank[k])
  }

  /**
   * The table as the database enumerates it: every category exactly once.
   * The order itself (`order`, then `name`) is an input here, not a
   * property the predicate states.
   */
  predicate Listing(cats: CategoryTable, listing: seq<string>) {
    (forall i :: 0 <= i < |listing| ==> listing[i] in cats)
    && (forall k :: k in cats ==> k in listing)
    && Distinct(listing)
  }

  /** The slugs from the root down to `s`, following parent links. */
  function Ancestry(cats: CategoryTable, ghost rank: map<string, nat>, s: string): (path: seq<string>)
    requires Forest(cats, rank) && s in cats
    ensures |path| >= 1 && path[|path| - 1] == s
    ensures forall i :: 0 <= i < |path| ==> path[i] in cats
    ensures cats[path[0]].parent == None
    ensures forall i :: 0 < i < |path| ==> cats[path[i]].parent == Some(path[i - 1])
    decreases rank[s]
  {
    match cats[s].parent
    case None => [s]
    case Some(p) => Ancestry(cats, rank, p) + [s]
  }

  /** The ancestry of an optional category; empty for none. */
  function AncestryFrom(cats: CategoryTable, ghost rank: map<string, nat>, c: Option<string>): seq<string>
    requires Forest(cats, rank) && (c.Some? ==> c.value in cats)
  {
    if c.Some? then Ancestry(cats, rank, c.value) else []
  }

  /** One step of the upward walk: moving from `c` to its parent moves the name of `c` onto the collected names. */
  lemma NameStep(cats: CategoryTable, rank: map<string, nat>, c: string, names: seq<string>)
    requires Forest(cats, rank) && c in cats
    ensures NamesOf(cats, AncestryFrom(cats, rank, Some(c))) + Reverse(names)
         == NamesOf(cats, AncestryFrom(cats, rank, cats[c].parent)) + Reverse(names + [cats[c].name])
  {
    var up := AncestryFrom(cats, rank, cats[c].parent);
    assert Ancestry(cats, rank, c) == up + [c];
    assert NamesOf(cats, up + [c]) == NamesOf(cats, up) + [cats[c].name];
    ReverseSnoc(names, cats[c].name);
  }

  function NamesOf(cats: CategoryTable, slugs: seq<string>): (names: seq<string>)
    requires forall i :: 0 <= i < |slugs| ==> slugs[i] in cats
    ensures |names| == |slugs|
    ensures forall i :: 0 <= i < |slugs| ==> names[i] == cats[slugs[i]].name
  {
    seq(|slugs|, i requires 0 <= i < |slugs| => cats[slugs[i]].name)
  }

  /**
   * `Category.get_full_path`: walks parent links from the category upward,
   * collecting names, and joins them root first with " > ".
   */
  method GetFullPath(cats: CategoryTable, ghost rank: map<string, nat>, s: string) returns (path: string)
    requires Forest(cats, rank) && s in cats
    ensures path == Join(NamesOf(cats, Ancestry(cats, rank, s)), " > ")
  {
    var names: seq<string> := [];
    var current: Option<string> := Some(s);
    while current.Some?
      invariant current.Some? ==> current.value in cats
      invariant NamesOf(cats, Ancestry(cats, rank, s)) == NamesOf(cats, AncestryFrom(cats, rank, current)) + Reverse(names)
      decreases if current.Some? then rank[current.value] + 1 else 0
    {
      var c := current.value;
      NameStep(cats, rank, c, names);
      names := names + [cats[c].name];
      current := cats[c].parent;
    }
    assert NamesOf(cats, AncestryFrom(cats, rank, current)) == [];
    assert NamesOf(cats, Ancestry(cats, rank, s)) == Reverse(names);
    path := Join(Reverse(names), " > ");
  }

  /** Slugs of the active children of `p`, in the order of `listing` (the default category ordering). */
  function ActiveChildren(cats: CategoryTable, listing: seq<string>, p: string): (kids: seq<string>)
    requires forall i :: 0 <= i < |listing| ==> listing[i] in cats
    ensures forall i :: 0 <= i < |kids| ==> kids[i] in cats && cats[kids[i]].parent == Some(p) && cats[kids[i]].isActive
  {
    if listing == [] then []
    else
      var c := listing[|listing| - 1];
      var rest := ActiveChildren(cats, listing[..|listing| - 1], p);
      if cats[c].parent == Some(p) && cats[c].isActive then rest + [c] else rest
  }

  /** A slug is among the active children exactly when the listing holds it as an active child of `p`. */
  lemma {:induction false} ActiveChildrenMembers(cats: CategoryTable, listing: seq<string>, p: string)
    requires forall i :: 0 <= i < |listing| ==> listing[i] in cats
    ensures forall c :: c in ActiveChildren(cats, listing, p) <==> c in listing && cats[c].parent == Some(p) && cats[c].isActive
  {
    if listing != [] {
      var n := |listing| - 1;
      ActiveChildrenMembers(cats, listing[..n], p);
      assert forall x :: x in listing <==> x in listing[..n] || x == listing[n];
    }
  }

  /** The entries of `s` come in the order of their positions in `listing`. */
  predicate InOrderOf(s: seq<string>, listing: seq<string>) {
    forall i, j :: 0 <= i < j < |s| ==>
      s[i] in listing && s[j] in listing && Position(listing, s[i]) < Position(listing, s[j])
  }

  /**
   * Over a listing without repeats, the active children come once each and
   * in the listing's order: `ActiveChildren` is the listing filtered.
   */
  lemma {:induction false} ActiveChildrenInOrder(cats: CategoryTable, listing: seq<string>, p: string)
    requires forall i :: 0 <= i < |listing| ==> listing[i] in cats
    requires Distinct(listing)
    ensures Distinct(ActiveChildren(cats, listing, p))
    ensures InOrderOf(ActiveChildren(cats, listing, p), listing)
  {
    if listing != [] {
      var n := |listing| - 1;
      var c, prefix := listing[n], listing[..n];
      var rest := ActiveChildren(cats, prefix, p);
      var kids := ActiveChildren(cats, listing, p);
      ActiveChildrenInOrder(cats, prefix, p);
      ActiveChildrenMembers(cats, prefix, p);
      assert c !in prefix by {
        forall i | 0 <= i < n ensures prefix[i] != c {
          assert prefix[i] == listing[i];
        }
      }
      if kids != rest {
        assert kids == rest + [c];
        PositionUnique(listing, c, n);
        forall i, j | 0 <= i < j < |kids| ensures kids[i] != kids[j] && Position(listing, kids[i]) < Position(listing, kids[j]) {
          assert kids[i] == rest[i] && rest[i] in prefix;
          PositionPrefix(listing, n, rest[i]);
          if j < |rest| {
            assert kids[j] == rest[j] && rest[j] in prefix;
            PositionPrefix(listing, n, rest[j]);
            assert Distinct(rest) && InOrderOf(rest, prefix);
            assert rest[i] != rest[j] && Position(prefix, rest[i]) < Position(prefix, rest[j]);
          } else {
            assert kids[j] == c && Position(listing, c) == n;
          }
        }
      } else {
        forall i, j | 0 <= i < j < |kids| ensures Position(listing, kids[i]) < Position(listing, kids[j]) {
          assert kids[i] in prefix && kids[j] in prefix;
          PositionPrefix(listing, n, kids[i]);
          PositionPrefix(listing, n, kids[j]);
        }
      }
    }
  }

  /**
   * `get_all_children(include_self=True)` of `s`: `s` first, then the
   * subtree of every active child in turn (pre-order). Every later entry is
   * active and its parent occurs earlier in the list.
   */
  function Subtree(cats: CategoryTable, ghost rank: map<string, nat>, listing: seq<string>, s: string): (r: seq<string>)
    requires Forest(cats, rank) && s in cats
    requires forall i :: 0 <= i < |listing| ==> listing[i] in cats
    ensures |r| >= 1 && r[0] == s
    ensures forall i :: 0 <= i < |r| ==> r[i] in cats
    ensures forall i :: 0 < i < |r| ==> cats[r[i]].isActive && ParentBefore(cats, r, i)
    decreases |cats| - rank[s], 1
  {
    var kids := ActiveChildren(cats, listing, s);
    var below := Subtrees(cats, rank, listing, s, kids);
    var r := [s] + below;
    assert forall i :: 0 < i < |r| ==> r[i] == below[i - 1];
    forall i | 0 < i < |r|
      ensures cats[r[i]].isActive && ParentBefore(cats, r, i)
    {
      if cats[below[i - 1]].parent == Some(s) {
        assert r[0] == s;
      } else {
        var j :| 0 <= j < i - 1 && cats[below[i - 1]].parent == Some(below[j]);
        assert r[j + 1] == below[j];
      }
    }
    r
  }

  /** The parent of `r[i]` occurs in `r` before index `i`. */
  predicate ParentBefore(cats: CategoryTable, r: seq<string>, i: nat)
    requires i < |r| && r[i] in cats
  {
    exists j :: 0 <= j < i && cats[r[i]].parent == Some(r[j])
  }

  /**
   * The concatenated subtrees of `kids`, all children of `p`. Every entry is
   * active, and its parent is `p` or occurs earlier in the list.
   */
  function Subtrees(cats: CategoryTable, ghost rank: map<string, nat>, listing: seq<string>, p: string, kids: seq<string>): (r: seq<string>)
    requires Forest(cats, rank) && p in cats
    requires forall i :: 0 <= i < |listing| ==> listing[i] in cats
    requires forall i :: 0 <= i < |kids| ==> kids[i] in cats && cats[kids[i]].parent == Some(p) && cats[kids[i]].isActive
    ensures forall i :: 0 <= i < |r| ==> r[i] in cats && cats[r[i]].isActive
    ensures forall i :: 0 <= i < |r| ==> cats[r[i]].parent == Some(p) || exists j :: 0 <= j < i && cats[r[i]].parent == Some(r[j])
    decreases |cats| - rank[p], 0, |kids|
  {
    if kids == [] then []
    else
      var k := kids[|kids| - 1];
      var front := Subtrees(cats, rank, listing, p, kids[..|kids| - 1]);
      var tree := Subtree(cats, rank, listing, k);
      var r := front + tree;
      forall i | 0 <= i < |r|
        ensures cats[r[i]].parent == Some(p) || exists j :: 0 <= j < i && cats[r[i]].parent == Some(r[j])
      {
        if i < |front| {
          assert r[i] == front[i];
          if cats[front[i]].parent != Some(p) {
            var j :| 0 <= j < i && cats[front[i]].parent == Some(front[j]);
            assert r[j] == front[j];
          }
        } else {
          var t := i - |front|;
          assert r[i] == tree[t];
          if t == 0 {
            assert cats[k].parent == Some(p);
          } else {
            assert ParentBefore(cats, tree, t);
            var j :| 0 <= j < t && cats[tree[t]].parent == Some(tree[j]);
            assert r[|front| + j] == tree[j];
          }
        }
      }
      r
  }

  /**
   * `Category.get_all_children`: the category itself when `includeSelf`,
   * followed by the subtrees of its active children; recursing method, as
   * the source extends a list child by child.
   */
  method GetAllChildren(cats: CategoryTable, ghost rank: map<string, nat>, listing: seq<string>, s: string, includeSelf: bool)
    returns (r: seq<string>)
    requires Forest(cats, rank) && s in cats
    requires forall i :: 0 <= i < |listing| ==> listing[i] in cats
    ensures r == if includeSelf then Subtree(cats, rank, listing, s) else Subtrees(cats, rank, listing, s, ActiveChildren(cats, listing, s))
    decreases |cats| - rank[s]
  {
    var head: seq<string> := if includeSelf then [s] else [];
    var kids := ActiveChildren(cats, listing, s);
    var below: seq<string> := [];
    var i := 0;
    while i < |kids|
      invariant 0 <= i <= |kids|
      invariant below == Subtrees(cats, rank, listing, s, kids[..i])
    {
      var sub := GetAllChildren(cats, rank, listing, kids[i], true);
      SubtreesPrefix(cats, rank, listing, s, kids, i);
      below := below + sub;
      i := i + 1;
    }
    assert kids[..|kids|] == kids;
    SubtreeUnfold(cats, rank, listing, s);
    r := head + below;
  }

  /** One more child appends its subtree. */
  lemma SubtreesSnoc(cats: CategoryTable, rank: map<string, nat>, listing: seq<string>, p: string, kids: seq<string>)
    requires Forest(cats, rank) && p in cats
    requires forall i :: 0 <= i < |listing| ==> listing[i] in cats
    requires forall i :: 0 <= i < |kids| ==> kids[i] in cats && cats[kids[i]].parent == Some(p) && cats[kids[i]].isActive
    requires kids != []
    ensures Subtrees(cats, rank, listing, p, kids)
         == Subtrees(cats, rank, listing, p, kids[..|kids| - 1]) + Subtree(cats, rank, listing, kids[|kids| - 1])
  {
  }

  /** The subtrees of the first `i + 1` children extend those of the first `i`. */
  lemma SubtreesPrefix(cats: CategoryTable, rank: map<string, nat>, listing: seq<string>, p: string, kids: seq<string>, i: nat)
    requires Forest(cats, rank) && p in cats
    requires forall i :: 0 <= i < |listing| ==> listing[i] in cats
    requires forall i :: 0 <= i < |kids| ==> kids[i] in cats && cats[kids[i]].parent == Some(p) && cats[kids[i]].isActive
    requires i < |kids|
    ensures Subtrees(cats, rank, listing, p, kids[..i + 1])
         == Subtrees(cats, rank, listing, p, kids[..i]) + Subtree(cats, rank, listing, kids[i])
  {
    SubtreesSnoc(cats, rank, listing, p, kids[..i + 1]);
    assert kids[..i + 1][..i] == kids[..i] && kids[..i + 1][i] == kids[i];
  }

  /** A subtree is its root followed by the subtrees of its active children. */
  lemma SubtreeUnfold(cats: CategoryTable, rank: map<string, nat>, listing: seq<string>, s: string)
    requires Forest(cats, rank) && s in cats
    requires forall i :: 0 <= i < |listing| ==> listing[i] in cats
    ensures Subtree(cats, rank, listing, s) == [s] + Subtrees(cats, rank, listing, s, ActiveChildren(cats, listing, s))
  {
  }

  /**
   * `c` lies below `s` along active categories: it is `s`, or it is active
   * and its parent lies below `s` the same way.
   */
  predicate ReachesActive(cats: CategoryTable, ghost rank: map<string, nat>, c: string, s: string)
    requires Forest(cats, rank) && c in cats
    decreases rank[c]
  {
    c == s || (cats[c].isActive && cats[c].parent.Some? && ReachesActive(cats, rank, cats[c].parent.value, s))
  }

  lemma {:induction false} ReachesRank(cats: CategoryTable, rank: map<string, nat>, c: string, s: string)
    requires Forest(cats, rank) && c in cats && ReachesActive(cats, rank, c, s)
    ensures s in cats && rank[s] <= rank[c] && (c != s ==> rank[s] < rank[c])
    decreases rank[c]
  {
    if c != s {
      ReachesRank(cats, rank, cats[c].parent.value, s);
    }
  }

  lemma {:induction false} ReachesTrans(cats: CategoryTable, rank: map<string, nat>, y: string, k: string, s: string)
    requires Forest(cats, rank) && y in cats && k in cats
    requires ReachesActive(cats, rank, y, k) && ReachesActive(cats, rank, k, s)
    ensures ReachesActive(cats, rank, y, s)
    decreases rank[y]
  {
    if y != k {
      ReachesTrans(cats, rank, cats[y].parent.value, k, s);
    }
  }

  /** Two categories a third lies below are on one parent chain: one lies below the other. */
  lemma {:induction false} ReachesComparable(cats: CategoryTable, rank: map<string, nat>, y: string, a: string, b: string)
    requires Forest(cats, rank) && y in cats && a in cats && b in cats
    requires ReachesActive(cats, rank, y, a) && ReachesActive(cats, rank, y, b)
    ensures ReachesActive(cats, rank, a, b) || ReachesActive(cats, rank, b, a)
    decreases rank[y]
  {
    if y != a && y != b {
      ReachesComparable(cats, rank, cats[y].parent.value, a, b);
    }
  }

  /** Of two children of one parent, one lies below the other only when they are the same. */
  lemma SiblingsApart(cats: CategoryTable, rank: map<string, nat>, p: string, a: string, b: string)
    requires Forest(cats, rank) && a in cats && b in cats
    requires cats[a].parent == Some(p) && cats[b].parent == Some(p)
    requires ReachesActive(cats, rank, a, b)
    ensures a == b
  {
    if a != b {
      ReachesRank(cats, rank, p, b);
    }
  }

  /** Below `s`, other than `s`, a category lies below an active child of `s`. */
  lemma {:induction false} ChildOnChain(cats: CategoryTable, rank: map<string, nat>, c: string, s: string) returns (k: string)
    requires Forest(cats, rank) && c in cats && ReachesActive(cats, rank, c, s) && c != s
    ensures k in cats && cats[k].parent == Some(s) && cats[k].isActive && ReachesActive(cats, rank, c, k)
    decreases rank[c]
  {
    var q := cats[c].parent.value;
    if q == s {
      k := c;
    } else {
      k := ChildOnChain(cats, rank, q, s);
    }
  }

  /** An entry of the concatenated subtrees is in the subtree of one of the children. */
  lemma {:induction false} SubtreesFrom(cats: CategoryTable, rank: map<string, nat>, listing: seq<string>, p: string, kids: seq<string>, y: string)
    returns (i: nat)
    requires Forest(cats, rank) && p in cats
    requires forall i :: 0 <= i < |listing| ==> listing[i] in cats
    requires forall i :: 0 <= i < |kids| ==> kids[i] in cats && cats[kids[i]].parent == Some(p) && cats[kids[i]].isActive
    requires y in Subtrees(cats, rank, listing, p, kids)
    ensures i < |kids| && y in Subtree(cats, rank, listing, kids[i])
    decreases |kids|
  {
    var n := |kids| - 1;
    SubtreesSnoc(cats, rank, listing, p, kids);
    if y in Subtrees(cats, rank, listing, p, kids[..n]) {
      i := SubtreesFrom(cats, rank, listing, p, kids[..n], y);
      assert kids[..n][i] == kids[i];
    } else {
      i := n;
    }
  }

  /** The subtree of each child is part of the concatenated subtrees. */
  lemma {:induction false} SubtreesCover(cats: CategoryTable, rank: map<string, nat>, listing: seq<string>, p: string, kids: seq<string>, i: nat, y: string)
    requires Forest(cats, rank) && p in cats
    requires forall i :: 0 <= i < |listing| ==> listing[i] in cats
    requires forall i :: 0 <= i < |kids| ==> kids[i] in cats && cats[kids[i]].parent == Some(p) && cats[kids[i]].isActive
    requires i < |kids| && y in Subtree(cats, rank, listing, kids[i])
    ensures y in Subtrees(cats, rank, listing, p, kids)
    decreases |kids|
  {
    var n := |kids| - 1;
    SubtreesSnoc(cats, rank, listing, p, kids);
    if i < n {
      var front := kids[..n];
      assert front[i] == kids[i];
      SubtreesCover(cats, rank, listing, p, front, i, y);
      assert y in Subtrees(cats, rank, listing, p, front);
    }
  }

  /**
   * `get_all_children(include_self=True)` is complete and sound: the subtree
   * of `s` holds exactly `s` and the categories that lie below `s` along
   * active categories.
   */
  lemma {:induction false} SubtreeExactly(cats: CategoryTable, rank: map<string, nat>, listing: seq<string>, s: string)
    requires Forest(cats, rank) && Listing(cats, listing) && s in cats
    ensures forall c :: c in Subtree(cats, rank, listing, s) <==> c in cats && ReachesActive(cats, rank, c, s)
    decreases |cats| - rank[s]
  {
    var kids := ActiveChildren(cats, listing, s);
    SubtreeUnfold(cats, rank, listing, s);
    forall c | c in Subtree(cats, rank, listing, s)
      ensures c in cats && ReachesActive(cats, rank, c, s)
    {
      if c != s {
        assert c in Subtrees(cats, rank, listing, s, kids);
        var i := SubtreesFrom(cats, rank, listing, s, kids, c);
        SubtreeExactly(cats, rank, listing, kids[i]);
        assert ReachesActive(cats, rank, kids[i], s) by {
          assert ReachesActive(cats, rank, s, s);
        }
        ReachesTrans(cats, rank, c, kids[i], s);
      }
    }
    forall c | c in cats && ReachesActive(cats, rank, c, s)
      ensures c in Subtree(cats, rank, listing, s)
    {
      if c != s {
        var k := ChildOnChain(cats, rank, c, s);
        ActiveChildrenMembers(cats, listing, s);
        assert k in kids;
        var i :| 0 <= i < |kids| && kids[i] == k;
        SubtreeExactly(cats, rank, listing, k);
        SubtreesCover(cats, rank, listing, s, kids, i, c);
      }
    }
  }

  /** The subtree lists no category twice. */
  lemma {:induction false} SubtreeDistinct(cats: CategoryTable, rank: map<string, nat>, listing: seq<string>, s: string)
    requires Forest(cats, rank) && Listing(cats, listing) && s in cats
    ensures Distinct(Subtree(cats, rank, listing, s))
    decreases |cats| - rank[s], 1
  {
    var kids := ActiveChildren(cats, listing, s);
    var below := Subtrees(cats, rank, listing, s, kids);
    ActiveChildrenInOrder(cats, listing, s);
    SubtreesDistinct(cats, rank, listing, s, kids);
    SubtreeUnfold(cats, rank, listing, s);
    forall c | c in below ensures c != s {
      var i := SubtreesFrom(cats, rank, listing, s, kids, c);
      SubtreeExactly(cats, rank, listing, kids[i]);
      ReachesRank(cats, rank, c, kids[i]);
    }
    DistinctConcat([s], below);
  }

  /** The subtrees of distinct children are disjoint and each without repeats, so their concatenation has none. */
  lemma {:induction false} SubtreesDistinct(cats: CategoryTable, rank: map<string, nat>, listing: seq<string>, p: string, kids: seq<string>)
    requires Forest(cats, rank) && Listing(cats, listing) && p in cats
    requires forall i :: 0 <= i < |kids| ==> kids[i] in cats && cats[kids[i]].parent == Some(p) && cats[kids[i]].isActive
    requires Distinct(kids)
    ensures Distinct(Subtrees(cats, rank, listing, p, kids))
    decreases |cats| - rank[p], 0, |kids|
  {
    if kids != [] {
      var n := |kids| - 1;
      var k := kids[n];
      var front := Subtrees(cats, rank, listing, p, kids[..n]);
      var tree := Subtree(cats, rank, listing, k);
      SubtreesDistinct(cats, rank, listing, p, kids[..n]);
      SubtreeDistinct(cats, rank, listing, k);
      SubtreesSnoc(cats, rank, listing, p, kids);
      SubtreeExactly(cats, rank, listing, k);
      forall y | y in front ensures y !in tree {
        var i := SubtreesFrom(cats, rank, listing, p, kids[..n], y);
        var ki := kids[..n][i];
        assert ki == kids[i] && ki != k;
        SubtreeExactly(cats, rank, listing, ki);
        if y in tree {
          ReachesComparable(cats, rank, y, ki, k);
          if ReachesActive(cats, rank, ki, k) {
            SiblingsApart(cats, rank, p, ki, k);
          } else {
            SiblingsApart(cats, rank, p, k, ki);
          }
        }
      }
      DistinctConcat(front, tree);
    }
  }

  // ---------------------------------------------------------------------
  // Products
  // ---------------------------------------------------------------------

  /** The SKU `Product.save` generates after the product with the largest id (`PRD-` and six or more digits). */
  function GeneratedSku(lastId: Option<nat>): (sku: string)
    ensures |sku| >= 10 && sku[..4] == "PRD-"
    ensures AllDigits(sku[4..]) && DigitsValue(sku[4..]) == lastId.GetOr(0) + 1
  {
    var s := "PRD-" + ZeroPad(lastId.GetOr(0) + 1, 6);
    assert s[4..] == ZeroPad(lastId.GetOr(0) + 1, 6);
    s
  }

  /** Distinct last ids give distinct generated SKUs. */
  lemma GeneratedSkuInjective(a: Option<nat>, b: Option<nat>)
    requires GeneratedSku(a) == GeneratedSku(b)
    ensures a.GetOr(0) == b.GetOr(0)
  {
    assert GeneratedSku(a)[4..] == GeneratedSku(b)[4..];
  }

  /** `Product.save`: an empty SKU is replaced by the generated one; nothing else changes. */
  function SaveProduct(p: Product, lastId: Option<nat>): (q: Product)
    ensures p.sku != "" ==> q == p
    ensures p.sku == "" ==> q == p.(sku := GeneratedSku(lastId))
    ensures q.sku != ""
  {
    if p.sku == "" then p.(sku := GeneratedSku(lastId)) else p
  }

  /** `Product.discount_percent`: the truncated percentage saved against a truthy, higher old price. */
  function DiscountPercent(p: Product): (d: int)
    ensures (p.oldPrice.None? || p.oldPrice.value == 0.0 || p.oldPrice.value <= p.price) ==> d == 0
    ensures p.oldPrice.Some? && p.oldPrice.value > p.price && p.oldPrice.value != 0.0 ==>
              d == Trunc((p.oldPrice.value - p.price) / p.oldPrice.value * 100.0)
  {
    match p.oldPrice
    case Some(was) => if was != 0.0 && was > p.price then Trunc((was - p.price) / was * 100.0) else 0
    case None => 0
  }

  /** With a non-negative price the discount is a percentage in [0, 100]. */
  lemma DiscountBounded(p: Product)
    requires p.price >= 0.0
    ensures 0 <= DiscountPercent(p) <= 100
  {
    if p.oldPrice.Some? && p.oldPrice.value > p.price && p.oldPrice.value != 0.0 {
      var was := p.oldPrice.value;
      var x := (was - p.price) / was * 100.0;
      assert 0.0 < was - p.price <= was;
      assert (was - p.price) / was <= 1.0 by {
        assert (was - p.price) / was * was == was - p.price;
      }
      assert 0.0 <= x <= 100.0;
    }
  }

  /** `Product.in_stock`. */
  predicate InStock(p: Product) {
    p.stock > 0 && p.isAvailable
  }

  /** `Product.is_low_stock`. */
  predicate IsLowStock(p: Product) {
    p.stock <= p.stockAlertThreshold
  }

  /** Whether some image of `images` is flagged main. */
  predicate HasMain(images: seq<ProductImage>) {
    exists i :: 0 <= i < |images| && images[i].isMain
  }

  /** The unique-main-image constraint: at most one image of a product is main. */
  predicate AtMostOneMain(images: seq<ProductImage>) {
    forall i, j :: 0 <= i < |images| && 0 <= j < |images| && images[i].isMain && images[j].isMain ==> i == j
  }

  /**
   * `Product.main_image`: the first image flagged main, else the first
   * image, else none (`images` in their default order).
   */
  function MainImage(images: seq<ProductImage>): (r: Option<ProductImage>)
    ensures r.None? <==> images == []
    ensures r.Some? ==> r.value in images
    ensures HasMain(images) ==> r.Some? && r.value.isMain
    ensures !HasMain(images) && images != [] ==> r == Some(images[0])
  {
    if images == [] then None
    else if images[0].isMain then Some(images[0])
    else
      var rest := MainImage(images[1..]);
      assert HasMain(images) ==> HasMain(images[1..]) by {
        if HasMain(images) {
          var i :| 0 <= i < |images| && images[i].isMain;
          assert images[1..][i - 1].isMain;
        }
      }
      if rest.Some? && rest.value.isMain then rest else Some(images[0])
  }

  /** Under the unique-main constraint the main image is the one main image. */
  lemma MainImageIsTheMain(images: seq<ProductImage>, k: nat)
    requires AtMostOneMain(images)
    requires k < |images| && images[k].isMain
    ensures MainImage(images) == Some(images[k])
  {
    assert HasMain(images);
    var m := MainImage(images).value;
    var j :| 0 <= j < |images| && images[j] == m;
  }
}
