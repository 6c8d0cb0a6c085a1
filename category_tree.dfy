/**
 * Category-tree utilities of src/app.js (flattenTree, extractMainCats,
 * findPromoCategoryId) and the promo-id lookup of src/js/category.js.
 */
module CategoryTree {
  import opened Wrappers
  import Text

  /** Category ids are JSON numbers; only integers occur. */
  type CategoryId = int

  /** A category node; a missing `children` array is the empty sequence. */
  datatype Node = Node(
    id: CategoryId,
    depth: int,
    isInout: bool,
    isAdults: bool,
    slug: string,
    children: seq<Node>)

  /**
   * What the tree endpoint or the cache handed over: an array of roots, or any other non-null
   * JSON value, which is falsy (`0`, `""`, `false`) or truthy (an object, a non-empty string, ...).
   */
  datatype TreeValue = TreeArray(roots: seq<Node>) | NotArray(truthy: bool)

  /** JavaScript truthiness of an optional tree value: `null` is falsy, an array always truthy. */
  predicate TreeTruthy(t: Option<TreeValue>) {
    t.Some? && (t.value.TreeArray? || t.value.truthy)
  }

  /** Slug of the "this week's items" child preferred inside the promo node. */
  const CurrentWeekSlug: string := "tovary-tekushchei-nedeli"

  /** JavaScript truthiness of an optional id: `null` and `0` are falsy. */
  predicate Truthy(id: Option<CategoryId>) {
    id.Some? && id.value != 0
  }

  // ---------------------------------------------------------------------------
  // flattenTree
  // ---------------------------------------------------------------------------

  /** Pre-order listing of a forest: each node, then its subtree, then its siblings. */
  function Flatten(forest: seq<Node>): seq<Node>
    decreases forest
  {
    if forest == [] then []
    else
      assert forest[0] in forest;
      [forest[0]] + Flatten(forest[0].children) + Flatten(forest[1..])
  }

  /** `flattenTree(tree)`: a non-array gives the empty list. */
  function Flattened(tree: TreeValue): seq<Node> {
    if tree.TreeArray? then Flatten(tree.roots) else []
  }

  /** Independent count of the nodes of a forest. */
  function Size(forest: seq<Node>): nat
    decreases forest
  {
    if forest == [] then 0
    else
      assert forest[0] in forest;
      1 + Size(forest[0].children) + Size(forest[1..])
  }

  /** `walk(arr)`: pushes every node of `arr`, each followed by its walked children, onto `out`. */
  method Walk(arr: seq<Node>, out0: seq<Node>) returns (out: seq<Node>)
    ensures out == out0 + Flatten(arr)
    decreases arr
  {
    out := out0;
    var k := 0;
    while k < |arr|
      invariant 0 <= k <= |arr|
      invariant out0 + Flatten(arr) == out + Flatten(arr[k..])
    {
      var x := arr[k];
      assert arr[k..][1..] == arr[k + 1..];
      assert x in arr;
      out := out + [x];
      if |x.children| > 0 {
        out := Walk(x.children, out);
      }
      k := k + 1;
    }
  }

  /** `flattenTree(tree)`. */
  method FlattenTree(tree: TreeValue) returns (out: seq<Node>)
    ensures out == Flattened(tree)
  {
    out := [];
    if tree.TreeArray? {
      out := Walk(tree.roots, out);
    }
  }

  lemma {:induction false} FlattenAppend(a: seq<Node>, b: seq<Node>)
    ensures Flatten(a + b) == Flatten(a) + Flatten(b)
    decreases a
  {
    if a == [] {
      assert a + b == b;
    } else {
      assert (a + b)[0] == a[0];
      assert (a + b)[1..] == a[1..] + b;
      FlattenAppend(a[1..], b);
    }
  }

  /** Every node is listed exactly once: the flattening has one entry per node. */
  lemma {:induction false} FlattenCountsEveryNode(forest: seq<Node>)
    ensures |Flatten(forest)| == Size(forest)
    decreases forest
  {
    if forest != [] {
      assert forest[0] in forest;
      FlattenCountsEveryNode(forest[0].children);
      FlattenCountsEveryNode(forest[1..]);
    }
  }

  /** `p` is an initial segment of `s`. */
  predicate IsPrefix(p: seq<Node>, s: seq<Node>) {
    |p| <= |s| && s[..|p|] == p
  }

  lemma PrefixExtend(p: seq<Node>, s: seq<Node>, t: seq<Node>)
    requires IsPrefix(p, s)
    ensures IsPrefix(p, s + t)
  {
    assert (s + t)[..|p|] == s[..|p|];
  }

  /** Pre-order: every listed node is immediately followed by the listing of its own subtree. */
  lemma {:induction false} FlattenIsPreorder(forest: seq<Node>, k: nat)
    requires k < |Flatten(forest)|
    ensures IsPrefix([Flatten(forest)[k]] + Flatten(Flatten(forest)[k].children), Flatten(forest)[k..])
    decreases forest
  {
    var n := forest[0];
    assert n in forest;
    var fc := Flatten(n.children);
    var fr := Flatten(forest[1..]);
    var flat := Flatten(forest);
    assert flat == [n] + fc + fr;
    if k == 0 {
      PrefixExtend([n] + fc, [n] + fc, fr);
      assert flat[k..] == ([n] + fc) + fr;
    } else if k <= |fc| {
      FlattenIsPreorder(n.children, k - 1);
      assert flat[k] == fc[k - 1];
      PrefixExtend([fc[k - 1]] + Flatten(fc[k - 1].children), fc[k - 1..], fr);
      assert flat[k..] == fc[k - 1..] + fr;
    } else {
      var j := k - 1 - |fc|;
      FlattenIsPreorder(forest[1..], j);
      assert flat[k] == fr[j];
      assert flat[k..] == fr[j..];
    }
  }

  /** Every root of a forest is in its flattening, in their order. */
  lemma {:induction false} RootsAreListed(forest: seq<Node>)
    ensures Subseq(forest, Flatten(forest))
    decreases forest
  {
    if forest != [] {
      var n := forest[0];
      assert n in forest;
      RootsAreListed(forest[1..]);
      var fc := Flatten(n.children);
      var fr := Flatten(forest[1..]);
      SubseqSkip(forest[1..], fr, fc);
      assert Flatten(forest) == [n] + (fc + fr);
      assert Flatten(forest)[1..] == fc + fr;
    }
  }

  lemma {:induction false} SubseqSkip(a: seq<Node>, b: seq<Node>, prefix: seq<Node>)
    requires Subseq(a, b)
    ensures Subseq(a, prefix + b)
    decreases |prefix|
  {
    if prefix == [] {
      assert prefix + b == b;
    } else {
      SubseqSkip(a, b, prefix[1..]);
      assert (prefix + b)[1..] == prefix[1..] + b;
    }
  }

  /** Children of a listed node are listed too, right after it and in their order. */
  lemma ChildrenAreListed(forest: seq<Node>, k: nat, c: Node)
    requires k < |Flatten(forest)| && c in Flatten(forest)[k].children
    ensures c in Flatten(forest)
  {
    var flat := Flatten(forest);
    FlattenIsPreorder(forest, k);
    var fc := Flatten(flat[k].children);
    RootsAreListed(flat[k].children);
    SubseqIn(flat[k].children, fc, c);
    var i :| 0 <= i < |fc| && fc[i] == c;
    assert flat[k..][1 + i] == c;
  }

  // ---------------------------------------------------------------------------
  // extractMainCats
  // ---------------------------------------------------------------------------

  /** Depth 2, not adult-only, not the promo ("НАДО УСПЕТЬ") node. */
  predicate IsMainCategory(c: Node) {
    c.depth == 2 && !c.isAdults && !c.isInout
  }

  /** `all.filter(c => c.depth === 2 && !c.is_adults && !c.is_inout)` */
  function FilterMain(s: seq<Node>): seq<Node> {
    if s == [] then []
    else (if IsMainCategory(s[0]) then [s[0]] else []) + FilterMain(s[1..])
  }

  /** The second `filter`: keep a node iff its id is not yet in `seen`, adding it. */
  function DedupById(s: seq<Node>, seen: set<CategoryId>): seq<Node> {
    if s == [] then []
    else if s[0].id in seen then DedupById(s[1..], seen)
    else [s[0]] + DedupById(s[1..], seen + {s[0].id})
  }

  /** `extractMainCats(tree)` */
  function MainCats(tree: TreeValue): seq<Node> {
    DedupById(FilterMain(Flattened(tree)), {})
  }

  /** `extractMainCats(tree)`, with the `seen` set that the second filter mutates. */
  method ExtractMainCats(tree: TreeValue) returns (r: seq<Node>)
    ensures r == MainCats(tree)
  {
    var all := FlattenTree(tree);
    var main := FilterMain(all);
    var seen: set<CategoryId> := {};
    r := [];
    var k := 0;
    while k < |main|
      invariant 0 <= k <= |main|
      invariant MainCats(tree) == r + DedupById(main[k..], seen)
    {
      assert main[k..][1..] == main[k + 1..];
      var c := main[k];
      if c.id !in seen {
        seen := seen + {c.id};
        r := r + [c];
      }
      k := k + 1;
    }
  }

  /** Index of the first node of `s` with the given id, or |s| when there is none. */
  function FirstIdIndex(s: seq<Node>, id: CategoryId): (k: nat)
    ensures k <= |s|
    ensures k < |s| ==> s[k].id == id
    ensures forall j :: 0 <= j < k ==> s[j].id != id
  {
    if s == [] then 0
    else if s[0].id == id then 0
    else 1 + FirstIdIndex(s[1..], id)
  }

  /** `s.find(c => c.id === id)`: the first node of `s` with the given id, if any. */
  function FindById(s: seq<Node>, id: CategoryId): (r: Option<Node>)
    ensures r.Some? ==> r.value in s && r.value.id == id
    ensures r.Some? ==> FirstIdIndex(s, id) < |s| && r.value == s[FirstIdIndex(s, id)]
    ensures r.None? <==> forall x :: x in s ==> x.id != id
  {
    if s == [] then None
    else if s[0].id == id then Some(s[0])
    else FindById(s[1..], id)
  }

  /** Index of the first node of `s` whose printed id is `key`, or |s| when there is none. */
  function FirstKeyIndex(s: seq<Node>, key: string): (k: nat)
    ensures k <= |s|
    ensures k < |s| ==> Text.IntToString(s[k].id) == key
    ensures forall j :: 0 <= j < k ==> Text.IntToString(s[j].id) != key
  {
    if s == [] then 0
    else if Text.IntToString(s[0].id) == key then 0
    else 1 + FirstKeyIndex(s[1..], key)
  }

  /** `s.find(c => String(c.id) === key)`: the first node whose printed id is `key`. */
  function FindByKey(s: seq<Node>, key: string): (r: Option<Node>)
    ensures r.Some? ==> r.value in s && Text.IntToString(r.value.id) == key
    ensures r.Some? ==> FirstKeyIndex(s, key) < |s| && r.value == s[FirstKeyIndex(s, key)]
    ensures r.None? <==> forall x :: x in s ==> Text.IntToString(x.id) != key
  {
    if s == [] then None
    else if Text.IntToString(s[0].id) == key then Some(s[0])
    else FindByKey(s[1..], key)
  }

  /** Looking a node up by its printed id is looking it up by the id. */
  lemma {:induction false} FindByKeyOfId(s: seq<Node>, id: CategoryId)
    ensures FindByKey(s, Text.IntToString(id)) == FindById(s, id)
  {
    if s != [] {
      Text.IntToStringInjective(s[0].id, id);
      FindByKeyOfId(s[1..], id);
    }
  }

  function Ids(s: seq<Node>): set<CategoryId> {
    set x | x in s :: x.id
  }

  lemma {:induction false} FilterMainSpec(s: seq<Node>)
    ensures Subseq(FilterMain(s), s)
    ensures forall x :: x in FilterMain(s) <==> x in s && IsMainCategory(x)
    ensures forall x :: multiset(FilterMain(s))[x] == if IsMainCategory(x) then multiset(s)[x] else 0
  {
    if s != [] {
      FilterMainSpec(s[1..]);
      var t := FilterMain(s[1..]);
      if IsMainCategory(s[0]) {
        assert FilterMain(s) == [s[0]] + t;
      } else {
        assert FilterMain(s) == t;
      }
      assert s == [s[0]] + s[1..];
    }
  }

  /** No id the dedup pass keeps was seen before it started. */
  lemma {:induction false} DedupAvoidsSeen(s: seq<Node>, seen: set<CategoryId>)
    ensures forall x :: x in DedupById(s, seen) ==> x.id !in seen
  {
    if s != [] {
      if s[0].id in seen {
        DedupAvoidsSeen(s[1..], seen);
      } else {
        DedupAvoidsSeen(s[1..], seen + {s[0].id});
      }
    }
  }

  /** The nodes of `r` come in the order in which their ids first occur in `s`. */
  predicate InFirstOrder(s: seq<Node>, r: seq<Node>) {
    forall i, j :: 0 <= i < j < |r| ==> FirstIdIndex(s, r[i].id) < FirstIdIndex(s, r[j].id)
  }

  /** An order by first occurrence in the tail of `s` is one in `s`, for ids other than the head's. */
  lemma OrderShifts(s: seq<Node>, t: seq<Node>)
    requires s != [] && InFirstOrder(s[1..], t)
    requires forall y :: y in t ==> y.id != s[0].id
    ensures InFirstOrder(s, t)
    ensures forall y :: y in t ==> FirstIdIndex(s, y.id) >= 1
  {
    forall y | y in t ensures FirstIdIndex(s, y.id) == 1 + FirstIdIndex(s[1..], y.id) {
      FirstIdIndexTail(s, y.id);
    }
    forall i, j | 0 <= i < j < |t| ensures FirstIdIndex(s, t[i].id) < FirstIdIndex(s, t[j].id) {
      assert t[i] in t && t[j] in t;
    }
  }

  /** The kept nodes come in the order in which their ids first occur. */
  lemma {:induction false} DedupKeepsFirstOrder(s: seq<Node>, seen: set<CategoryId>)
    ensures InFirstOrder(s, DedupById(s, seen))
  {
    if s != [] {
      var x := s[0];
      if x.id in seen {
        DedupKeepsFirstOrder(s[1..], seen);
        DedupAvoidsSeen(s[1..], seen);
        OrderShifts(s, DedupById(s[1..], seen));
      } else {
        var t := DedupById(s[1..], seen + {x.id});
        DedupKeepsFirstOrder(s[1..], seen + {x.id});
        DedupAvoidsSeen(s[1..], seen + {x.id});
        OrderShifts(s, t);
        var r := [x] + t;
        assert DedupById(s, seen) == r;
        forall i, j | 0 <= i < j < |r| ensures FirstIdIndex(s, r[i].id) < FirstIdIndex(s, r[j].id) {
          assert r[j] == t[j - 1] && r[j] in t;
          if i > 0 {
            assert r[i] == t[i - 1];
          }
        }
      }
    }
  }

  /** The dedup pass keeps, for every id not yet seen, exactly the first node with that id,
      in the order in which the ids first occur. */
  lemma DedupSpec(s: seq<Node>, seen: set<CategoryId>)
    ensures Subseq(DedupById(s, seen), s)
    ensures forall i, j :: 0 <= i < j < |DedupById(s, seen)| ==> DedupById(s, seen)[i].id != DedupById(s, seen)[j].id
    ensures forall x :: x in DedupById(s, seen) ==> x.id !in seen && FindById(s, x.id) == Some(x)
    ensures Ids(DedupById(s, seen)) == Ids(s) - seen
    ensures forall i, j :: 0 <= i < j < |DedupById(s, seen)| ==>
              FirstIdIndex(s, DedupById(s, seen)[i].id) < FirstIdIndex(s, DedupById(s, seen)[j].id)
  {
    DedupKeepsFirsts(s, seen);
    DedupKeepsFirstOrder(s, seen);
  }

  /** The kept nodes are a subsequence with distinct ids, each the first node of an id not yet
      seen, and together they carry every such id. */
  lemma {:induction false} DedupKeepsFirsts(s: seq<Node>, seen: set<CategoryId>)
    ensures Subseq(DedupById(s, seen), s)
    ensures forall i, j :: 0 <= i < j < |DedupById(s, seen)| ==> DedupById(s, seen)[i].id != DedupById(s, seen)[j].id
    ensures forall x :: x in DedupById(s, seen) ==> x.id !in seen && FindById(s, x.id) == Some(x)
    ensures Ids(DedupById(s, seen)) == Ids(s) - seen
  {
    if s != [] {
      var x := s[0];
      assert s == [x] + s[1..];
      if x.id in seen {
        DedupKeepsFirsts(s[1..], seen);
        var r := DedupById(s[1..], seen);
        assert DedupById(s, seen) == r;
        assert Ids(s) == {x.id} + Ids(s[1..]);
      } else {
        DedupKeepsFirsts(s[1..], seen + {x.id});
        var t := DedupById(s[1..], seen + {x.id});
        var r := [x] + t;
        assert DedupById(s, seen) == r;
        forall i, j | 0 <= i < j < |r| ensures r[i].id != r[j].id {
          if i == 0 {
            assert r[j] in t;
          } else {
            assert r[i] == t[i - 1] && r[j] == t[j - 1];
          }
        }
        assert Ids(r) == {x.id} + Ids(t);
        assert Ids(s) == {x.id} + Ids(s[1..]);
      }
    }
  }

  /** Past a first node with another id, the first index of `id` is one more than in the tail. */
  lemma FirstIdIndexTail(s: seq<Node>, id: CategoryId)
    requires s != [] && s[0].id != id
    ensures FirstIdIndex(s, id) == 1 + FirstIdIndex(s[1..], id)
  {
  }

  /** extractMainCats returns main categories of the tree, in flattened order, one per id,
      each the first main node carrying that id, and every main id appears. */
  lemma MainCatsSpec(tree: TreeValue)
    ensures Subseq(MainCats(tree), Flattened(tree))
    ensures forall c :: c in MainCats(tree) ==> IsMainCategory(c)
    ensures forall i, j :: 0 <= i < j < |MainCats(tree)| ==> MainCats(tree)[i].id != MainCats(tree)[j].id
    ensures forall c :: c in MainCats(tree) ==> FindById(FilterMain(Flattened(tree)), c.id) == Some(c)
    ensures Ids(MainCats(tree)) == Ids(FilterMain(Flattened(tree)))
    ensures forall i, j :: 0 <= i < j < |MainCats(tree)| ==>
              FirstIdIndex(FilterMain(Flattened(tree)), MainCats(tree)[i].id) <
              FirstIdIndex(FilterMain(Flattened(tree)), MainCats(tree)[j].id)
  {
    var flat := Flattened(tree);
    FilterMainSpec(flat);
    DedupSpec(FilterMain(flat), {});
    SubseqTrans(MainCats(tree), FilterMain(flat), flat);
    forall c | c in MainCats(tree) ensures IsMainCategory(c) {
      SubseqIn(MainCats(tree), FilterMain(flat), c);
    }
  }

  // ---------------------------------------------------------------------------
  // findPromoCategoryId (src/app.js) and its no-fallback twin (src/js/category.js)
  // ---------------------------------------------------------------------------

  /** Index of the first node with `is_inout === true`, or |s| when there is none. */
  function InoutIndex(s: seq<Node>): (k: nat)
    ensures k <= |s|
    ensures k < |s| ==> s[k].isInout
    ensures forall j :: 0 <= j < k ==> !s[j].isInout
  {
    if s == [] then 0
    else if s[0].isInout then 0
    else 1 + InoutIndex(s[1..])
  }

  /** `all.find(c => c.is_inout === true)` */
  function FirstInout(s: seq<Node>): Option<Node> {
    var k := InoutIndex(s);
    if k < |s| then Some(s[k]) else None
  }

  /** Index of the first child with the given slug, or |s|. */
  function SlugIndex(s: seq<Node>, slug: string): (k: nat)
    ensures k <= |s|
    ensures k < |s| ==> s[k].slug == slug
    ensures forall j :: 0 <= j < k ==> s[j].slug != slug
  {
    if s == [] then 0
    else if s[0].slug == slug then 0
    else 1 + SlugIndex(s[1..], slug)
  }

  /** The id chosen inside the promo node: its current-week child, else its first child,
      else the node itself. */
  function PromoFromInout(inout: Node): CategoryId {
    if |inout.children| > 0 then
      var w := SlugIndex(inout.children, CurrentWeekSlug);
      if w < |inout.children| then inout.children[w].id else inout.children[0].id
    else inout.id
  }

  /** `findPromoCategoryId(tree)` of src/app.js; None is `null`. */
  function FindPromoCategoryId(tree: TreeValue): Option<CategoryId> {
    match FirstInout(Flattened(tree))
    case Some(inout) => Some(PromoFromInout(inout))
    case None =>
      var main := MainCats(tree);
      if |main| > 0 then Some(main[0].id) else None
  }

  /** The promo-id chain of `loadPromoProducts` in src/js/category.js: no main-category fallback. */
  function PromoIdWithoutFallback(tree: TreeValue): Option<CategoryId> {
    match FirstInout(Flattened(tree))
    case Some(inout) => Some(PromoFromInout(inout))
    case None => None
  }

  /** Both pages agree whenever the tree has a promo node; without one the category page
      finds nothing while the home page falls back to the first main category. */
  lemma PromoVariantsAgree(tree: TreeValue)
    ensures InoutIndex(Flattened(tree)) < |Flattened(tree)| ==>
              PromoIdWithoutFallback(tree) == FindPromoCategoryId(tree)
    ensures InoutIndex(Flattened(tree)) == |Flattened(tree)| ==>
              PromoIdWithoutFallback(tree) == None &&
              FindPromoCategoryId(tree) == (if |MainCats(tree)| > 0 then Some(MainCats(tree)[0].id) else None)
  {
  }

  /** The first main category of a node list heads the filtered list, and hence the
      deduplicated one: extractMainCats starts with the first main node in pre-order. */
  lemma {:induction false} FirstMainHeadsMainCats(s: seq<Node>, i: nat)
    requires i < |s| && IsMainCategory(s[i])
    requires forall j :: 0 <= j < i ==> !IsMainCategory(s[j])
    ensures |DedupById(FilterMain(s), {})| > 0
    ensures DedupById(FilterMain(s), {})[0] == s[i]
  {
    if i > 0 {
      assert !IsMainCategory(s[0]);
      assert FilterMain(s) == FilterMain(s[1..]);
      FirstMainHeadsMainCats(s[1..], i - 1);
    }
  }

  /** The promo category is the first promo node's first current-week child, else its first
      child, else the promo node; with no promo node it is the first main category in pre-order,
      and there is none exactly when the tree has no main category. */
  lemma PromoPriority(tree: TreeValue)
    ensures var flat := Flattened(tree); var k := InoutIndex(flat);
      k < |flat| && |flat[k].children| > 0 && (exists i :: 0 <= i < |flat[k].children| && flat[k].children[i].slug == CurrentWeekSlug) ==>
        exists i :: 0 <= i < |flat[k].children| && flat[k].children[i].slug == CurrentWeekSlug &&
          (forall j :: 0 <= j < i ==> flat[k].children[j].slug != CurrentWeekSlug) &&
          FindPromoCategoryId(tree) == Some(flat[k].children[i].id)
    ensures var flat := Flattened(tree); var k := InoutIndex(flat);
      k < |flat| && |flat[k].children| > 0 && (forall c :: c in flat[k].children ==> c.slug != CurrentWeekSlug) ==>
        FindPromoCategoryId(tree) == Some(flat[k].children[0].id)
    ensures var flat := Flattened(tree); var k := InoutIndex(flat);
      k < |flat| && |flat[k].children| == 0 ==> FindPromoCategoryId(tree) == Some(flat[k].id)
    ensures var flat := Flattened(tree);
      InoutIndex(flat) == |flat| ==>
        (FindPromoCategoryId(tree).Some? <==> exists i :: 0 <= i < |flat| && IsMainCategory(flat[i]))
    ensures var flat := Flattened(tree);
      InoutIndex(flat) == |flat| && FindPromoCategoryId(tree).Some? ==>
        exists i :: 0 <= i < |flat| && IsMainCategory(flat[i]) &&
          (forall j :: 0 <= j < i ==> !IsMainCategory(flat[j])) &&
          FindPromoCategoryId(tree) == Some(flat[i].id)
  {
    var flat := Flattened(tree);
    var k := InoutIndex(flat);
    if k < |flat| && |flat[k].children| > 0 {
      var ch := flat[k].children;
      var w := SlugIndex(ch, CurrentWeekSlug);
      if w == |ch| {
        forall c | c in ch ensures c.slug != CurrentWeekSlug {
          var i :| 0 <= i < |ch| && ch[i] == c;
        }
      }
    }
    if k == |flat| {
      MainCatsSpec(tree);
      var main := MainCats(tree);
      if |main| > 0 {
        assert main[0] in main;
        SubseqIn(main, flat, main[0]);
        var i :| 0 <= i < |flat| && flat[i] == main[0];
        var m := FirstMainIndex(flat, i);
        FirstMainHeadsMainCats(flat, m);
      } else if exists i :: 0 <= i < |flat| && IsMainCategory(flat[i]) {
        var i :| 0 <= i < |flat| && IsMainCategory(flat[i]);
        var m := FirstMainIndex(flat, i);
        FirstMainHeadsMainCats(flat, m);
      }
    }
  }

  /** Some main category at or before `i` is the first one of `s`. */
  lemma FirstMainIndex(s: seq<Node>, i: nat) returns (m: nat)
    requires i < |s| && IsMainCategory(s[i])
    ensures m <= i && IsMainCategory(s[m])
    ensures forall j :: 0 <= j < m ==> !IsMainCategory(s[j])
  {
    m := i;
    while m > 0 && exists j :: 0 <= j < m && IsMainCategory(s[j])
      invariant m <= i && IsMainCategory(s[m])
      decreases m
    {
      var j :| 0 <= j < m && IsMainCategory(s[j]);
      m := j;
    }
  }

  /** The chosen promo id always names a node of the tree. */
  lemma PromoIdIsTreeNode(tree: TreeValue)
    ensures FindPromoCategoryId(tree).Some? ==>
      exists c :: c in Flattened(tree) && c.id == FindPromoCategoryId(tree).value
  {
    var flat := Flattened(tree);
    var k := InoutIndex(flat);
    if k < |flat| {
      var n := flat[k];
      if |n.children| > 0 {
        var w := SlugIndex(n.children, CurrentWeekSlug);
        var c := if w < |n.children| then n.children[w] else n.children[0];
        assert c in n.children;
        if tree.TreeArray? {
          ChildrenAreListed(tree.roots, k, c);
        }
      }
    } else {
      var main := MainCats(tree);
      if |main| > 0 {
        MainCatsSpec(tree);
        assert main[0] in main;
        SubseqIn(main, flat, main[0]);
      }
    }
  }
}
