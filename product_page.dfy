/**
 * The product page of src/js/product.js: the route read from the URL path, the breadcrumb
 * title, the gallery layout chosen by the number of images, and the image gallery whose
 * current index and thumbnail borders the prev/next buttons, the arrow keys, clicks and
 * hovering update.
 */
module ProductPage {
  import opened Wrappers

  // ---------------------------------------------------------------------------
  // The route: path.split('/').filter(Boolean)
  // ---------------------------------------------------------------------------

  /** `s.split('/')`: the pieces between slashes; there is always at least one. */
  function Split(s: string): (r: seq<string>)
    ensures |r| >= 1
    ensures forall k :: 0 <= k < |r| ==> '/' !in r[k]
  {
    if s == [] then [""]
    else if s[0] == '/' then [""] + Split(s[1..])
    else
      var t := Split(s[1..]);
      [[s[0]] + t[0]] + t[1..]
  }

  /** `parts.join('/')` */
  function Join(parts: seq<string>): string
    requires |parts| >= 1
  {
    if |parts| == 1 then parts[0] else parts[0] + "/" + Join(parts[1..])
  }

  /** Splitting loses nothing: joining the pieces gives the path back. */
  lemma {:induction false} JoinSplit(s: string)
    ensures Join(Split(s)) == s
  {
    if s != [] {
      JoinSplit(s[1..]);
      var t := Split(s[1..]);
      if s[0] == '/' {
        assert Split(s)[1..] == t;
        assert s == [s[0]] + s[1..];
      } else {
        var r := Split(s);
        assert r[0] == [s[0]] + t[0];
        if |t| == 1 {
          assert s == [s[0]] + t[0];
        } else {
          assert r[1..] == t[1..];
          assert Join(t) == t[0] + "/" + Join(t[1..]);
          assert s == [s[0]] + s[1..];
        }
      }
    }
  }

  /** Splitting at a slash: the pieces of the two sides, in order. */
  lemma {:induction false} SplitAtSlash(a: string, b: string)
    requires '/' !in a
    ensures Split(a + "/" + b) == [a] + Split(b)
  {
    if a == [] {
      assert a + "/" + b == "/" + b;
      assert ("/" + b)[1..] == b;
    } else {
      assert (a + "/" + b)[0] == a[0];
      assert (a + "/" + b)[1..] == a[1..] + "/" + b;
      SplitAtSlash(a[1..], b);
      assert [a[0]] + a[1..] == a;
    }
  }

  /** A piece without slashes splits to itself. */
  lemma {:induction false} SplitPlain(a: string)
    requires '/' !in a
    ensures Split(a) == [a]
  {
    if a != [] {
      SplitPlain(a[1..]);
      assert [a[0]] + a[1..] == a;
    }
  }

  /** Joining pieces without slashes and splitting again gives the pieces back. */
  lemma {:induction false} SplitJoin(parts: seq<string>)
    requires |parts| >= 1
    requires forall k :: 0 <= k < |parts| ==> '/' !in parts[k]
    ensures Split(Join(parts)) == parts
  {
    if |parts| == 1 {
      SplitPlain(parts[0]);
    } else {
      SplitJoin(parts[1..]);
      SplitAtSlash(parts[0], Join(parts[1..]));
      assert [parts[0]] + parts[1..] == parts;
    }
  }

  /** `.filter(Boolean)`: drops the empty pieces. */
  function NonEmpty(parts: seq<string>): seq<string> {
    if parts == [] then []
    else
      var rest := NonEmpty(parts[1..]);
      if parts[0] == "" then rest else [parts[0]] + rest
  }

  /** The filter keeps, in order, exactly the non-empty pieces, each as often as it occurs. */
  lemma {:induction false} NonEmptySpec(parts: seq<string>)
    ensures forall k :: 0 <= k < |NonEmpty(parts)| ==> NonEmpty(parts)[k] != ""
    ensures Subseq(NonEmpty(parts), parts)
    ensures forall x :: x != "" ==> multiset(NonEmpty(parts))[x] == multiset(parts)[x]
    ensures forall x :: x in NonEmpty(parts) <==> x in parts && x != ""
  {
    if parts != [] {
      NonEmptySpec(parts[1..]);
      assert parts == [parts[0]] + parts[1..];
      var rest := NonEmpty(parts[1..]);
      if parts[0] != "" {
        assert ([parts[0]] + rest)[1..] == rest;
      }
    }
  }

  /** Where the page goes: home ("/") or the product `productId` in the city `citySlug`. */
  datatype Route = Home | Product(citySlug: string, productId: string)

  /** Lines 22-31: accepted iff piece 0 is there, piece 1 is "product" and piece 2 is there. */
  function RouteOf(path: string): Route {
    var parts := NonEmpty(Split(path));
    var citySlug := if |parts| > 0 then parts[0] else "";
    var productId := if |parts| > 2 then parts[2] else "";
    if citySlug == "" || |parts| < 2 || parts[1] != "product" || productId == "" then Home
    else Product(citySlug, productId)
  }

  /** The route names the city and product pieces exactly when the first three non-empty
      pieces are city, "product", product; anything after them is ignored. */
  lemma RouteSpec(path: string)
    ensures var parts := NonEmpty(Split(path));
      RouteOf(path).Product? <==> |parts| >= 3 && parts[1] == "product"
    ensures var parts := NonEmpty(Split(path));
      RouteOf(path).Product? ==> RouteOf(path) == Product(parts[0], parts[2]) && '/' !in parts[0] && '/' !in parts[2]
  {
    var pieces := Split(path);
    var parts := NonEmpty(pieces);
    NonEmptySpec(pieces);
    if |parts| >= 3 {
      assert parts[0] in parts && parts[2] in parts;
      assert parts[0] != "" && parts[2] != "";
      var k0 :| 0 <= k0 < |pieces| && pieces[k0] == parts[0];
      var k2 :| 0 <= k2 < |pieces| && pieces[k2] == parts[2];
    }
  }

  /** Filtering a concatenation filters each side. */
  lemma {:induction false} NonEmptyAppend(a: seq<string>, b: seq<string>)
    ensures NonEmpty(a + b) == NonEmpty(a) + NonEmpty(b)
  {
    if a != [] {
      assert (a + b)[0] == a[0];
      assert (a + b)[1..] == a[1..] + b;
      NonEmptyAppend(a[1..], b);
    } else {
      assert a + b == b;
    }
  }

  /** `/<city>/product/<id>`, alone or followed by further pieces, routes to that product. */
  lemma {:induction false} ProductPathRoutes(city: string, id: string, rest: string)
    requires city != "" && id != "" && '/' !in city && '/' !in id
    ensures RouteOf("/" + city + "/product/" + id) == Product(city, id)
    ensures RouteOf("/" + city + "/product/" + id + "/" + rest) == Product(city, id)
  {
    PiecesAfterHead(city, id);
    SplitPlain(id);
    assert NonEmpty([id]) == [id] by {
      assert [id][1..] == [];
    }
    RouteOfPieces("/" + city + "/product/" + id, city, id, []);

    var tail := id + "/" + rest;
    PiecesAfterHead(city, tail);
    SplitAtSlash(id, rest);
    assert NonEmpty([id] + Split(rest)) == [id] + NonEmpty(Split(rest)) by {
      assert ([id] + Split(rest))[1..] == Split(rest);
    }
    assert "/" + city + "/product/" + id + "/" + rest == "/" + city + "/product/" + tail;
    RouteOfPieces("/" + city + "/product/" + tail, city, id, NonEmpty(Split(rest)));
  }

  /** A path whose non-empty pieces start with city, "product", product routes there. */
  lemma RouteOfPieces(path: string, city: string, id: string, more: seq<string>)
    requires city != "" && id != ""
    requires NonEmpty(Split(path)) == [city, "product"] + ([id] + more)
    ensures RouteOf(path) == Product(city, id)
  {
    var parts := NonEmpty(Split(path));
    assert parts[0] == city && parts[1] == "product" && parts[2] == id;
  }

  /** The non-empty pieces of `/<city>/product/<tail>`. */
  lemma PiecesAfterHead(city: string, tail: string)
    requires city != "" && '/' !in city
    ensures NonEmpty(Split("/" + city + "/product/" + tail)) == [city, "product"] + NonEmpty(Split(tail))
  {
    var head := ["", city, "product"];
    assert NonEmpty(head) == [city, "product"] by {
      assert head[1..] == [city, "product"];
      assert head[1..][1..] == ["product"];
      assert head[1..][1..][1..] == [];
      assert NonEmpty(head[1..][1..]) == ["product"];
      assert NonEmpty(head[1..]) == [city, "product"];
    }
    SplitsAfterHead(city, tail);
    NonEmptyAppend(head, Split(tail));
  }

  lemma {:induction false} SplitsAfterHead(city: string, tail: string)
    requires '/' !in city
    ensures Split("/" + city + "/product/" + tail) == ["", city, "product"] + Split(tail)
  {
    var t1 := "product" + "/" + tail;
    SplitAtSlash("product", tail);
    var t2 := city + "/" + t1;
    SplitAtSlash(city, t1);
    var t3 := "" + "/" + t2;
    SplitAtSlash("", t2);
    assert "/" + city + "/product/" + tail == t3;
    assert [""] + ([city] + (["product"] + Split(tail))) == ["", city, "product"] + Split(tail);
  }

  // ---------------------------------------------------------------------------
  // Breadcrumb title and gallery layout
  // ---------------------------------------------------------------------------

  /** Title used when the product has none. */
  const DefaultTitle: string := "Товар"

  /** Breadcrumb titles are cut to this many characters. */
  const TitleLimit: nat := 50

  /** Line 185; `title` is `""` when the product has none. */
  function BreadcrumbTitle(title: string): (r: string)
    ensures |r| <= TitleLimit + 3
    ensures title == "" ==> r == DefaultTitle
    ensures title != "" && |title| <= TitleLimit ==> r == title
    ensures title != "" ==> |r| >= Min(TitleLimit, |title|) && r[..Min(TitleLimit, |title|)] == title[..Min(TitleLimit, |title|)]
    ensures |title| > TitleLimit <==> |r| == TitleLimit + 3 && r[TitleLimit..] == "..."
  {
    var shown := if title != "" then title else DefaultTitle;
    shown[..Min(TitleLimit, |shown|)] + (if |title| > TitleLimit then "..." else "")
  }

  /** How `renderGallery` lays out `n` images. */
  datatype Layout = Placeholder | SingleImage | Carousel(count: nat)

  function LayoutOf(n: nat): (l: Layout)
    ensures l.Carousel? <==> n >= 2
    ensures l.Carousel? ==> l.count == n
    ensures l == Placeholder <==> n == 0
  {
    if n == 0 then Placeholder else if n == 1 then SingleImage else Carousel(n)
  }

  // ---------------------------------------------------------------------------
  // Gallery
  // ---------------------------------------------------------------------------

  /** `(i + 1) % n`: the next button. */
  function NextIndex(i: int, n: int): (j: int)
    requires 0 <= i < n
    ensures j == if i == n - 1 then 0 else i + 1
  {
    (i + 1) % n
  }

  /** `i === 0 ? n - 1 : i - 1`: the prev button. */
  function PrevIndex(i: int, n: int): (j: int)
    requires 0 <= i < n
    ensures 0 <= j < n
    ensures j == n - 1 <==> i == 0
  {
    if i == 0 then n - 1 else i - 1
  }

  /** Prev undoes next and next undoes prev. */
  lemma PrevNextInverse(i: int, n: int)
    requires 0 <= i < n
    ensures PrevIndex(NextIndex(i, n), n) == i
    ensures NextIndex(PrevIndex(i, n), n) == i
  {
  }

  /** `k` presses of next. */
  function Advance(i: int, n: int, k: nat): (j: int)
    requires 0 <= i < n
    ensures 0 <= j < n
  {
    if k == 0 then i else NextIndex(Advance(i, n, k - 1), n)
  }

  /** Within one turn, `k` presses of next move `k` places round the ring; `n` presses
      come back to the start. */
  lemma {:induction false} AdvanceWithinTurn(i: int, n: int, k: nat)
    requires 0 <= i < n && k <= n
    ensures Advance(i, n, k) == if i + k < n then i + k else i + k - n
  {
    if k > 0 {
      AdvanceWithinTurn(i, n, k - 1);
    }
  }

  lemma FullTurn(i: int, n: int)
    requires 0 <= i < n
    ensures Advance(i, n, n) == i
  {
    AdvanceWithinTurn(i, n, n);
  }

  /** Thumbnail border colours: #111827, #e5e7eb, #6b7280. */
  datatype Border = Selected | Plain | Hovered

  /** The carousel of `renderGallery` for two or more images. */
  class Gallery {
    /** `state.currentImageIndex` */
    var current: int
    /** The number shown in the `imageCounter` element. */
    var counter: int
    /** The border of each thumbnail. */
    const thumbs: array<Border>

    /** Exactly the thumbnail of the current image is selected, and the counter shows its
        1-based position. */
    predicate Valid()
      reads this, thumbs
    {
      && thumbs.Length >= 2
      && 0 <= current < thumbs.Length
      && counter == current + 1
      && forall i :: 0 <= i < thumbs.Length ==> (thumbs[i] == Selected <==> i == current)
    }

    /** The gallery as first rendered: image 0, its thumbnail selected. */
    constructor (n: int)
      requires n >= 2
      ensures Valid() && fresh(thumbs) && thumbs.Length == n && current == 0
      ensures forall i :: 1 <= i < n ==> thumbs[i] == Plain
    {
      current := 0;
      counter := 1;
      thumbs := new Border[n](i => if i == 0 then Selected else Plain);
    }

    /** `showImage(index)`: the index and counter move, and every thumbnail is repainted. */
    method ShowImage(index: int)
      requires Valid() && 0 <= index < thumbs.Length
      modifies this, thumbs
      ensures Valid() && current == index
      ensures forall i :: 0 <= i < thumbs.Length ==> thumbs[i] == if i == index then Selected else Plain
    {
      current := index;
      counter := index + 1;
      var i := 0;
      while i < thumbs.Length
        invariant 0 <= i <= thumbs.Length
        invariant current == index && counter == index + 1
        invariant forall j :: 0 <= j < i ==> thumbs[j] == if j == index then Selected else Plain
      {
        thumbs[i] := if i == index then Selected else Plain;
        i := i + 1;
      }
    }

    /** The next button (and ArrowRight). */
    method Next()
      requires Valid()
      modifies this, thumbs
      ensures Valid() && current == NextIndex(old(current), thumbs.Length)
      ensures forall i :: 0 <= i < thumbs.Length ==> thumbs[i] == if i == current then Selected else Plain
    {
      ShowImage(NextIndex(current, thumbs.Length));
    }

    /** The prev button (and ArrowLeft). */
    method Prev()
      requires Valid()
      modifies this, thumbs
      ensures Valid() && current == PrevIndex(old(current), thumbs.Length)
      ensures forall i :: 0 <= i < thumbs.Length ==> thumbs[i] == if i == current then Selected else Plain
    {
      ShowImage(PrevIndex(current, thumbs.Length));
    }

    /** The keyboard handler: the arrow keys press prev and next; other keys do nothing. */
    method Key(key: string)
      requires Valid()
      modifies this, thumbs
      ensures Valid()
      ensures current == if key == "ArrowLeft" then PrevIndex(old(current), thumbs.Length)
                         else if key == "ArrowRight" then NextIndex(old(current), thumbs.Length)
                         else old(current)
      ensures key == "ArrowLeft" || key == "ArrowRight" ==>
                forall i :: 0 <= i < thumbs.Length ==> thumbs[i] == if i == current then Selected else Plain
      ensures key != "ArrowLeft" && key != "ArrowRight" ==> thumbs[..] == old(thumbs[..]) && counter == old(counter)
    {
      if key == "ArrowLeft" {
        Prev();
      } else if key == "ArrowRight" {
        Next();
      }
    }

    /** The mouse entering thumbnail `k` greys its border unless it is the current one. */
    method Hover(k: int)
      requires Valid() && 0 <= k < thumbs.Length
      modifies thumbs
      ensures Valid()
      ensures thumbs[..] == if k == current then old(thumbs[..]) else old(thumbs[..])[k := Hovered]
    {
      if current != k {
        thumbs[k] := Hovered;
      }
    }

    /** The mouse leaving thumbnail `k` clears its border unless it is the current one. */
    method Leave(k: int)
      requires Valid() && 0 <= k < thumbs.Length
      modifies thumbs
      ensures Valid()
      ensures thumbs[..] == if k == current then old(thumbs[..]) else old(thumbs[..])[k := Plain]
    {
      if current != k {
        thumbs[k] := Plain;
      }
    }
  }
}
