/**
 * The feed-block rewrite of `update_html_on_server`: the replacement block
 * (one link and image per downloaded file in a grid of at most three
 * columns), the first-match search that the regular expression
 *
 *   OPEN [^>]* > .*? GRID [^>]* > .*? </div>      (DOTALL, count=1)
 *
 * performs, and the substitution of that match by the block.
 */
module FeedHtml {
  import opened Text

  // ----- Literal pieces of the pattern and of the generated markup -----

  const OpenMarker := "<div class=\"ig-embed-wrap fade-in\" id=\"ig-feed\""
  const GridMarker := "<div class=\"ig-grid\""
  const CloseTag := "</div>"
  const Gt := ">"

  // The longer pieces are written as concatenations of short literals; the
  // markup they spell is exactly the template's.
  const OpenAttrs := " style=\"background:transparent;" + "border:none;min-height:auto;"
    + "padding:0;display:block;\""
  const GridIndent := "\n          "
  const ColsPrefix := " style=\"display:grid;" + "grid-template-columns:repeat("
  const WidthPrefix := ",1fr);gap:24px;width:100%;max-width:"
  const WidthSuffix := "px;margin:0 auto;\""
  const CloseIndent := "          "

  const ItemHead := "            <a href=\"https://" + "www.instagram.com/"
  const ItemMid := ItemLinkRest + ItemImgHead
  const ItemLinkRest := "/\" target=\"_blank\" class=\"ig-post\"" + " style=\"display:block;aspect-ratio:1;"
    + "overflow:hidden;border:1px solid "
  const ItemImgHead := "var(--line);transition:transform .2s;\">"
    + "\n              <img src=\"images/" + "ig_posts/"
  const ItemTail := "\" alt=\"Instagram Post\"" + " style=\"width:100%;height:100%;"
    + "object-fit:cover;\">\n" + "            </a>\n"

  // ----- Grid layout -----

  datatype Layout = Layout(cols: nat, maxWidth: nat)

  /** `cols = min(n, 3)` and `max_width = cols * 220` for `n` files. */
  function GridLayout(n: nat): (r: Layout)
    ensures r.cols <= 3 && r.cols <= n && (r.cols == 3 || r.cols == n)
    ensures r.maxWidth == 220 * r.cols
  {
    var cols := if n < 3 then n else 3;
    Layout(cols, cols * 220)
  }

  /** One, two and five files give grids of 1/220, 2/440 and 3/660. */
  lemma GridLayoutExamples()
    ensures GridLayout(1) == Layout(1, 220)
    ensures GridLayout(2) == Layout(2, 440)
    ensures GridLayout(5) == Layout(3, 660)
  {
  }

  // ----- Generated markup -----

  /** The link-and-image markup for one downloaded file. */
  function ItemMarkup(user: string, file: string): string
  {
    ItemHead + user + ItemMid + file + ItemTail
  }

  /** `ig_items`: the items of all files, in list order. */
  function ItemsMarkup(user: string, files: seq<string>): string
  {
    if files == [] then "" else ItemMarkup(user, files[0]) + ItemsMarkup(user, files[1..])
  }

  /** The items of a list are the first file's item, then the others'. */
  lemma ItemsMarkupCons(user: string, file: string, rest: seq<string>)
    ensures ItemsMarkup(user, [file] + rest) == ItemMarkup(user, file) + ItemsMarkup(user, rest)
  {
    assert ([file] + rest)[1..] == rest;
  }

  /** Appending a file appends its item: the step the accumulating loop takes. */
  lemma {:induction false} ItemsMarkupSnoc(user: string, files: seq<string>, file: string)
    ensures ItemsMarkup(user, files + [file]) == ItemsMarkup(user, files) + ItemMarkup(user, file)
  {
    if files != [] {
      var t := files[1..];
      var head := ItemMarkup(user, files[0]);
      var last := ItemMarkup(user, file);
      var rest := ItemsMarkup(user, t);
      assert ItemsMarkup(user, files + [file]) == head + ItemsMarkup(user, t + [file]) by {
        assert files + [file] == [files[0]] + (t + [file]);
        ItemsMarkupCons(user, files[0], t + [file]);
      }
      assert ItemsMarkup(user, t + [file]) == rest + last by {
        ItemsMarkupSnoc(user, t, file);
      }
      assert ItemsMarkup(user, files) == head + rest by {
        assert files == [files[0]] + t;
        ItemsMarkupCons(user, files[0], t);
      }
      ConcatAssoc(head, rest, last);
    } else {
      assert [file][1..] == [];
    }
  }

  /** Builds `ig_items` by concatenation, one file at a time. */
  method BuildItems(user: string, files: seq<string>) returns (items: string)
    ensures items == ItemsMarkup(user, files)
  {
    items := "";
    for i := 0 to |files|
      invariant items == ItemsMarkup(user, files[..i])
    {
      ItemsMarkupSnoc(user, files[..i], files[i]);
      assert files[..i + 1] == files[..i] + [files[i]];
      items := items + ItemMarkup(user, files[i]);
    }
    assert files[..|files|] == files;
  }

  /** The grid tag's attributes, for a given layout. */
  function GridAttrs(layout: Layout): string
  {
    ColsPrefix + NatToString(layout.cols) + WidthPrefix + NatToString(layout.maxWidth) + WidthSuffix
  }

  /** `new_content`: the whole replacement block for the given items and file count. */
  function BlockOf(items: string, n: nat): string
  {
    OpenTag + GridIndent + GridTag(n) + BlockTail(items)
  }

  /** The opening `ig-embed-wrap` tag of the block. */
  const OpenTag := OpenMarker + OpenAttrs + Gt

  /** The `ig-grid` tag of the block, for `n` files. */
  function GridTag(n: nat): string
  {
    GridMarker + GridAttrs(GridLayout(n)) + Gt
  }

  /** The items, then the indented `</div>` that closes the grid. */
  function BlockTail(items: string): string
  {
    "\n" + items + CloseIndent + CloseTag
  }

  function FeedBlock(user: string, files: seq<string>): string
  {
    BlockOf(ItemsMarkup(user, files), |files|)
  }

  // ----- Reading the items back -----

  /**
   * Splits a run of items for `user` back into the file names, reading each
   * name up to the quote that closes its `src` attribute.
   */
  function ParseItems(user: string, s: string): Option<seq<string>>
    decreases |s|
  {
    var head := ItemHead + user + ItemMid;
    if s == [] then Some([])
    else if |s| < |head| || s[..|head|] != head then None
    else
      FindFromFirst(s, "\"", |head|);
      match FindFrom(s, "\"", |head|)
      case None => None
      case Some(q) =>
        if !OccursAt(s, ItemTail, q) then None
        else
          match ParseItems(user, s[q + |ItemTail|..])
          case None => None
          case Some(rest) => Some([s[|head|..q]] + rest)
  }

  /** In `x + f + y`, the first quote from `|x|` on is the first character of `y`. */
  lemma QuoteAfter(x: string, f: string, y: string)
    requires NoChar(f, '"') && |y| > 0 && y[0] == '"'
    ensures FindFrom(x + f + y, "\"", |x|) == Some(|x| + |f|)
  {
    var s := x + f + y;
    var q := |x| + |f|;
    assert OccursAt(s, "\"", q) by {
      assert s[q] == y[0];
    }
    assert s[|x|..q] == f;
    NoLitWindow(s, "\"", |x|, q);
    FindFromIs(s, "\"", |x|, q);
  }

  /** One item, read back: its file name, then the items after it. */
  lemma ParseItemsStep(user: string, f: string, rest: string)
    requires NoChar(f, '"')
    ensures ParseItems(user, ItemMarkup(user, f) + rest) ==
      match ParseItems(user, rest)
      case None => None
      case Some(fs) => Some([f] + fs)
  {
    var head := ItemHead + user + ItemMid;
    var s := ItemMarkup(user, f) + rest;
    assert s == head + f + (ItemTail + rest);
    var q := |head| + |f|;
    assert s[..|head|] == head;
    QuoteAfter(head, f, ItemTail + rest);
    assert s[q..q + |ItemTail|] == ItemTail;
    OccursAtSlice(s, ItemTail, q);
    assert s[|head|..q] == f;
    assert s[q + |ItemTail|..] == rest;
  }

  /**
   * The items hold exactly one link-and-image per file, in list order, each
   * `src` being `images/ig_posts/` followed by the file name.
   */
  lemma {:induction false} ItemsRoundTrip(user: string, files: seq<string>)
    requires forall i :: 0 <= i < |files| ==> NoChar(files[i], '"')
    ensures ParseItems(user, ItemsMarkup(user, files)) == Some(files)
    decreases |files|
  {
    if files != [] {
      ItemsRoundTrip(user, files[1..]);
      ParseItemsStep(user, files[0], ItemsMarkup(user, files[1..]));
      assert [files[0]] + files[1..] == files;
    }
  }

  // ----- The match -----

  /** The positions of a match of the pattern; the match is `s[start..End()]`. */
  datatype FeedMatch = FeedMatch(start: nat, openGt: nat, grid: nat, gridGt: nat, close: nat)
  {
    function End(): nat
    {
      close + |CloseTag|
    }
  }

  /** `[^>]*>` starting at `from` ends with the `>` at `gt`. */
  predicate TagRunTo(s: string, from: nat, gt: nat)
  {
    from <= gt && OccursAt(s, Gt, gt) && forall k: nat :: from <= k < gt ==> !OccursAt(s, Gt, k)
  }

  /** `s[m.start..m.End()]` is a string of the pattern's language, read through `m`. */
  predicate IsMatch(s: string, m: FeedMatch)
  {
    && OccursAt(s, OpenMarker, m.start)
    && TagRunTo(s, m.start + |OpenMarker|, m.openGt)
    && m.openGt < m.grid && OccursAt(s, GridMarker, m.grid)
    && TagRunTo(s, m.grid + |GridMarker|, m.gridGt)
    && m.gridGt < m.close && OccursAt(s, CloseTag, m.close)
  }

  /** Every position of `m` is at or before the same position of `n`. */
  predicate Below(m: FeedMatch, n: FeedMatch)
  {
    m.start <= n.start && m.openGt <= n.openGt && m.grid <= n.grid
      && m.gridGt <= n.gridGt && m.close <= n.close
  }

  /**
   * The match `re.sub(..., count=1)` replaces: the first opening marker, its
   * first `>`, the first grid marker after it, its first `>`, and the first
   * `</div>` after that. One function per step of the search.
   */
  function FindFeedBlock(s: string): Option<FeedMatch>
  {
    match FindFrom(s, OpenMarker, 0)
    case None => None
    case Some(p) => OpenTagFrom(s, p)
  }

  function OpenTagFrom(s: string, p: nat): Option<FeedMatch>
  {
    match FindFrom(s, Gt, p + |OpenMarker|)
    case None => None
    case Some(a) => GridFrom(s, p, a)
  }

  function GridFrom(s: string, p: nat, a: nat): Option<FeedMatch>
  {
    match FindFrom(s, GridMarker, a + 1)
    case None => None
    case Some(q) => GridTagFrom(s, p, a, q)
  }

  function GridTagFrom(s: string, p: nat, a: nat, q: nat): Option<FeedMatch>
  {
    match FindFrom(s, Gt, q + |GridMarker|)
    case None => None
    case Some(g) => CloseFrom(s, p, a, q, g)
  }

  function CloseFrom(s: string, p: nat, a: nat, q: nat, g: nat): Option<FeedMatch>
  {
    match FindFrom(s, CloseTag, g + 1)
    case None => None
    case Some(d) => Some(FeedMatch(p, a, q, g, d))
  }

  /**
   * What each step of the search finds, given the positions found before it,
   * is the rest of a match of the pattern.
   */
  lemma CloseFromSound(s: string, p: nat, a: nat, q: nat, g: nat)
    ensures var r := CloseFrom(s, p, a, q, g);
      r.Some? ==>
        && r.value.start == p && r.value.openGt == a && r.value.grid == q && r.value.gridGt == g
        && g < r.value.close && OccursAt(s, CloseTag, r.value.close)
  {
    FindFromFirst(s, CloseTag, g + 1);
  }

  lemma GridTagFromSound(s: string, p: nat, a: nat, q: nat)
    ensures var r := GridTagFrom(s, p, a, q);
      r.Some? ==>
        && r.value.start == p && r.value.openGt == a && r.value.grid == q
        && TagRunTo(s, q + |GridMarker|, r.value.gridGt)
        && r.value.gridGt < r.value.close && OccursAt(s, CloseTag, r.value.close)
  {
    FindFromFirst(s, Gt, q + |GridMarker|);
    if FindFrom(s, Gt, q + |GridMarker|).Some? {
      CloseFromSound(s, p, a, q, FindFrom(s, Gt, q + |GridMarker|).value);
    }
  }

  lemma GridFromSound(s: string, p: nat, a: nat)
    ensures var r := GridFrom(s, p, a);
      r.Some? ==>
        && r.value.start == p && r.value.openGt == a
        && a < r.value.grid && OccursAt(s, GridMarker, r.value.grid)
        && TagRunTo(s, r.value.grid + |GridMarker|, r.value.gridGt)
        && r.value.gridGt < r.value.close && OccursAt(s, CloseTag, r.value.close)
  {
    FindFromFirst(s, GridMarker, a + 1);
    if FindFrom(s, GridMarker, a + 1).Some? {
      GridTagFromSound(s, p, a, FindFrom(s, GridMarker, a + 1).value);
    }
  }

  lemma OpenTagFromSound(s: string, p: nat)
    ensures var r := OpenTagFrom(s, p);
      r.Some? ==>
        && r.value.start == p
        && TagRunTo(s, p + |OpenMarker|, r.value.openGt)
        && r.value.openGt < r.value.grid && OccursAt(s, GridMarker, r.value.grid)
        && TagRunTo(s, r.value.grid + |GridMarker|, r.value.gridGt)
        && r.value.gridGt < r.value.close && OccursAt(s, CloseTag, r.value.close)
  {
    FindFromFirst(s, Gt, p + |OpenMarker|);
    if FindFrom(s, Gt, p + |OpenMarker|).Some? {
      GridFromSound(s, p, FindFrom(s, Gt, p + |OpenMarker|).value);
    }
  }

  /**
   * What the search finds is a match of the pattern, and no opening marker
   * stands anywhere before it.
   */
  lemma FindFeedBlockSound(s: string)
    ensures FindFeedBlock(s).Some? ==> IsMatch(s, FindFeedBlock(s).value)
    ensures FindFeedBlock(s).Some? ==>
      forall j: nat :: j < FindFeedBlock(s).value.start ==> !OccursAt(s, OpenMarker, j)
  {
    FindFromFirst(s, OpenMarker, 0);
    if FindFrom(s, OpenMarker, 0).Some? {
      OpenTagFromSound(s, FindFrom(s, OpenMarker, 0).value);
    }
  }

  // Positions of the rest of a match, from a given step on.
  predicate CloseAt(s: string, g: nat, d: nat)
  {
    g < d && OccursAt(s, CloseTag, d)
  }

  predicate GridTagAt(s: string, q: nat, g: nat, d: nat)
  {
    q + |GridMarker| <= g && OccursAt(s, Gt, g) && CloseAt(s, g, d)
  }

  predicate GridAt(s: string, a: nat, q: nat, g: nat, d: nat)
  {
    a < q && OccursAt(s, GridMarker, q) && GridTagAt(s, q, g, d)
  }

  /** Each step finds something at or before any later position that would do. */
  lemma CloseFromLeast(s: string, p: nat, a: nat, q: nat, g: nat, d: nat)
    requires CloseAt(s, g, d)
    ensures var r := CloseFrom(s, p, a, q, g);
      r.Some? && r.value == FeedMatch(p, a, q, g, r.value.close) && r.value.close <= d
  {
    FindFromFirst(s, CloseTag, g + 1);
  }

  lemma GridTagFromLeast(s: string, p: nat, a: nat, q: nat, g: nat, d: nat)
    requires GridTagAt(s, q, g, d)
    ensures var r := GridTagFrom(s, p, a, q);
      && r.Some? && r.value.start == p && r.value.openGt == a && r.value.grid == q
      && r.value.gridGt <= g && r.value.close <= d
  {
    FindFromFirst(s, Gt, q + |GridMarker|);
    CloseFromLeast(s, p, a, q, FindFrom(s, Gt, q + |GridMarker|).value, d);
  }

  lemma GridFromLeast(s: string, p: nat, a: nat, q: nat, g: nat, d: nat)
    requires GridAt(s, a, q, g, d)
    ensures var r := GridFrom(s, p, a);
      && r.Some? && r.value.start == p && r.value.openGt == a
      && r.value.grid <= q && r.value.gridGt <= g && r.value.close <= d
  {
    FindFromFirst(s, GridMarker, a + 1);
    GridTagFromLeast(s, p, a, FindFrom(s, GridMarker, a + 1).value, g, d);
  }

  lemma OpenTagFromLeast(s: string, p: nat, a: nat, q: nat, g: nat, d: nat)
    requires p + |OpenMarker| <= a && OccursAt(s, Gt, a) && GridAt(s, a, q, g, d)
    ensures var r := OpenTagFrom(s, p);
      && r.Some? && r.value.start == p
      && r.value.openGt <= a && r.value.grid <= q && r.value.gridGt <= g && r.value.close <= d
  {
    FindFromFirst(s, Gt, p + |OpenMarker|);
    GridFromLeast(s, p, FindFrom(s, Gt, p + |OpenMarker|).value, q, g, d);
  }

  /**
   * Every match has the search's result at or below each of its positions:
   * so the search finds a match whenever there is one, and what it finds is
   * the leftmost match, shortest there, as the lazy `.*?` asks.
   */
  lemma FindFeedBlockLeast(s: string, m: FeedMatch)
    requires IsMatch(s, m)
    ensures FindFeedBlock(s).Some? && Below(FindFeedBlock(s).value, m)
  {
    FindFromFirst(s, OpenMarker, 0);
    OpenTagFromLeast(s, FindFrom(s, OpenMarker, 0).value, m.openGt, m.grid, m.gridGt, m.close);
  }

  /** Without a match the search finds nothing, and the other way round. */
  lemma FindFeedBlockNone(s: string)
    ensures FindFeedBlock(s).None? <==> forall m :: !IsMatch(s, m)
  {
    FindFeedBlockSound(s);
    if FindFeedBlock(s).None? {
      forall m | IsMatch(s, m)
        ensures false
      {
        FindFeedBlockLeast(s, m);
      }
    }
  }

  /** `re.sub(pattern, block, html, count=1)`. */
  function Substitute(html: string, block: string): string
  {
    FindFeedBlockSound(html);
    match FindFeedBlock(html)
    case None => html
    case Some(m) => html[..m.start] + block + html[m.End()..]
  }

  /** The new document `update_html_on_server` computes. */
  function RewriteFeed(html: string, user: string, files: seq<string>): string
  {
    Substitute(html, FeedBlock(user, files))
  }

  /**
   * Without a match the document is returned as it was; with one, the text
   * before the opening marker and after the first `</div>` past the grid tag
   * is kept and the block stands in between.
   */
  lemma SubstituteFrame(html: string, block: string)
    ensures FindFeedBlock(html).None? ==> Substitute(html, block) == html
    ensures FindFeedBlock(html).Some? ==>
      var m := FindFeedBlock(html).value;
      var r := Substitute(html, block);
      && m.End() <= |html|
      && |r| == |html| - (m.End() - m.start) + |block|
      && r[..m.start] == html[..m.start]
      && r[m.start..m.start + |block|] == block
      && r[m.start + |block|..] == html[m.End()..]
  {
    FindFeedBlockSound(html);
  }

  // ----- Idempotence -----

  /** Every `<` in `s` has a character two places on, and it is not `d`. */
  predicate LtNotBeforeD(s: string)
  {
    forall k :: 0 <= k < |s| && s[k] == '<' ==> k + 2 < |s| && s[k + 2] != 'd'
  }

  lemma LtNotBeforeDConcat(a: string, b: string)
    requires LtNotBeforeD(a) && LtNotBeforeD(b)
    ensures LtNotBeforeD(a + b)
  {
    var s := a + b;
    forall k | 0 <= k < |s| && s[k] == '<'
      ensures k + 2 < |s| && s[k + 2] != 'd'
    {
      if k < |a| {
        assert s[k] == a[k];
      } else {
        assert s[k] == b[k - |a|];
      }
    }
  }

  lemma ItemHeadFacts()
    ensures LtNotBeforeD(ItemHead)
  {
    LtNotBeforeDConcat("            <a href=\"https://", "www.instagram.com/");
  }

  lemma ItemLinkRestFacts()
    ensures LtNotBeforeD(ItemLinkRest)
  {
    var m1 := "/\" target=\"_blank\" class=\"ig-post\"";
    var m2 := " style=\"display:block;aspect-ratio:1;";
    LtNotBeforeDConcat(m1, m2);
    LtNotBeforeDConcat(m1 + m2, "overflow:hidden;border:1px solid ");
  }

  lemma ItemImgHeadFacts()
    ensures LtNotBeforeD(ItemImgHead)
  {
    var m1 := "var(--line);transition:transform .2s;\">";
    var m2 := "\n              <img src=\"images/";
    LtNotBeforeDConcat(m1, m2);
    LtNotBeforeDConcat(m1 + m2, "ig_posts/");
  }

  lemma ItemMidFacts()
    ensures LtNotBeforeD(ItemMid)
  {
    ItemLinkRestFacts();
    ItemImgHeadFacts();
    LtNotBeforeDConcat(ItemLinkRest, ItemImgHead);
  }

  lemma ItemTailFacts()
    ensures LtNotBeforeD(ItemTail)
  {
    var t1 := "\" alt=\"Instagram Post\"";
    var t2 := " style=\"width:100%;height:100%;";
    var t3 := "object-fit:cover;\">\n";
    LtNotBeforeDConcat(t1, t2);
    LtNotBeforeDConcat(t1 + t2, t3);
    LtNotBeforeDConcat(t1 + t2 + t3, "            </a>\n");
  }

  lemma OpenAttrsNoGt()
    ensures NoChar(OpenAttrs, '>')
  {
    NoCharConcat(" style=\"background:transparent;", "border:none;min-height:auto;", '>');
    NoCharConcat(" style=\"background:transparent;" + "border:none;min-height:auto;",
                 "padding:0;display:block;\"", '>');
  }

  lemma GridAttrsNoGt(layout: Layout)
    ensures NoChar(GridAttrs(layout), '>')
  {
    NoCharConcat(" style=\"display:grid;", "grid-template-columns:repeat(", '>');
    var c := NatToString(layout.cols);
    var w := NatToString(layout.maxWidth);
    NoCharConcat(ColsPrefix, c, '>');
    NoCharConcat(ColsPrefix + c, WidthPrefix, '>');
    NoCharConcat(ColsPrefix + c + WidthPrefix, w, '>');
    NoCharConcat(ColsPrefix + c + WidthPrefix + w, WidthSuffix, '>');
  }

  /** The items of files and a user free of `<` never spell `</div>`. */
  lemma {:induction false} ItemsLtNotBeforeD(user: string, files: seq<string>)
    requires NoChar(user, '<')
    requires forall i :: 0 <= i < |files| ==> NoChar(files[i], '<')
    ensures LtNotBeforeD(ItemsMarkup(user, files))
    decreases |files|
  {
    if files != [] {
      ItemHeadFacts();
      ItemMidFacts();
      ItemTailFacts();
      LtNotBeforeDConcat(ItemHead, user);
      LtNotBeforeDConcat(ItemHead + user, ItemMid);
      LtNotBeforeDConcat(ItemHead + user + ItemMid, files[0]);
      LtNotBeforeDConcat(ItemHead + user + ItemMid + files[0], ItemTail);
      ItemsLtNotBeforeD(user, files[1..]);
      LtNotBeforeDConcat(ItemMarkup(user, files[0]), ItemsMarkup(user, files[1..]));
    }
  }

  /** A piece placed between two strings occurs where it was placed. */
  lemma PlacedAt(x: string, piece: string, y: string)
    ensures OccursAt(x + piece + y, piece, |x|)
  {
    assert (x + piece + y)[|x|..|x| + |piece|] == piece;
    OccursAtSlice(x + piece + y, piece, |x|);
  }

  /** A tag `marker attrs >` whose attributes hold no `>`: `[^>]*>` ends at its own `>`. */
  lemma TagEnd(s: string, p: nat, marker: string, attrs: string)
    requires OccursAt(s, marker + attrs + Gt, p) && NoChar(attrs, '>')
    ensures OccursAt(s, marker, p)
    ensures FindFrom(s, Gt, p + |marker|) == Some(p + |marker| + |attrs|)
  {
    var t := marker + attrs + Gt;
    var a := p + |marker| + |attrs|;
    OccursAtSlice(s, t, p);
    OccursAtSlice(s, marker, p);
    SliceOfSlice(s, p, p + |t|, 0, |marker|);
    SliceOfSlice(s, p, p + |t|, |marker|, |marker| + |attrs|);
    SliceOfSlice(s, p, p + |t|, |marker| + |attrs|, |t|);
    assert t[|marker|..|marker| + |attrs|] == attrs;
    assert t[|marker| + |attrs|..] == Gt;
    NoLitWindow(s, Gt, p + |marker|, a);
    FindFromIs(s, Gt, p + |marker|, a);
  }

  /** Between the opening tag and the grid marker of the block stands only white space. */
  lemma GridStep(s: string, from: nat)
    requires OccursAt(s, GridIndent, from) && OccursAt(s, GridMarker, from + |GridIndent|)
    ensures FindFrom(s, GridMarker, from) == Some(from + |GridIndent|)
  {
    var q := from + |GridIndent|;
    OccursAtSlice(s, GridIndent, from);
    NoLitWindow(s, GridMarker, from, q);
    FindFromIs(s, GridMarker, from, q);
  }

  /** No `</div>` starts inside a window of `s` in which every `<` is followed, two on, by no `d`. */
  lemma NoCloseWindow(s: string, lo: nat, hi: nat)
    requires lo <= hi <= |s| && LtNotBeforeD(s[lo..hi])
    ensures forall k: nat :: lo <= k < hi ==> !OccursAt(s, CloseTag, k)
  {
    forall k: nat | lo <= k < hi
      ensures !OccursAt(s, CloseTag, k)
    {
      OccursAtIndex(s, CloseTag, k, 0);
      OccursAtIndex(s, CloseTag, k, 2);
      assert s[lo..hi][k - lo] == s[k];
      if k + 2 < hi {
        assert s[lo..hi][k - lo + 2] == s[k + 2];
      }
    }
  }

  /** After the grid tag, the first `</div>` is the block's own closing tag. */
  lemma CloseStep(s: string, from: nat, items: string)
    requires OccursAt(s, "\n" + items + CloseIndent + CloseTag, from) && LtNotBeforeD(items)
    ensures FindFrom(s, CloseTag, from) == Some(from + 1 + |items| + |CloseIndent|)
  {
    var body := "\n" + items + CloseIndent;
    var t := body + CloseTag;
    var d := from + |body|;
    OccursAtSlice(s, t, from);
    OccursAtSlice(s, CloseTag, d);
    SliceOfSlice(s, from, from + |t|, 0, |body|);
    SliceOfSlice(s, from, from + |t|, |body|, |t|);
    assert LtNotBeforeD("\n") && LtNotBeforeD(CloseIndent);
    LtNotBeforeDConcat("\n", items);
    LtNotBeforeDConcat("\n" + items, CloseIndent);
    NoCloseWindow(s, from, d);
    FindFromIs(s, CloseTag, from, d);
  }

  /**
   * The block, placed after text holding no opening marker, is found again
   * as a whole: the match starts where the block starts and ends where it ends.
   */
  lemma BlockFoundAfter(pre: string, items: string, n: nat, post: string)
    requires LtNotBeforeD(items)
    requires forall j: nat :: j < |pre| ==> !OccursAt(pre + BlockOf(items, n) + post, OpenMarker, j)
    ensures var r := FindFeedBlock(pre + BlockOf(items, n) + post);
      r.Some? && r.value.start == |pre| && r.value.End() == |pre| + |BlockOf(items, n)|
  {
    var s := pre + BlockOf(items, n) + post;
    var p := |pre|;
    PlacedAt(pre, BlockOf(items, n), post);
    OccursAtSplit4(s, OpenTag, GridIndent, GridTag(n), BlockTail(items), p);
    BlockFoundAt(s, p, items, n);
  }

  /** A block standing at `p` of `s`, with no opening marker before it, is the match the search finds. */
  lemma BlockFoundAt(s: string, p: nat, items: string, n: nat)
    requires LtNotBeforeD(items)
    requires forall j: nat :: j < p ==> !OccursAt(s, OpenMarker, j)
    requires OccursAt(s, OpenTag, p) && OccursAt(s, GridIndent, p + |OpenTag|)
    requires OccursAt(s, GridTag(n), p + |OpenTag| + |GridIndent|)
    requires OccursAt(s, BlockTail(items), p + |OpenTag| + |GridIndent| + |GridTag(n)|)
    ensures var r := FindFeedBlock(s);
      r.Some? && r.value.start == p && r.value.End() == p + |BlockOf(items, n)|
  {
    var a := p + |OpenTag| - 1;
    var q := a + 1 + |GridIndent|;
    var g := q + |GridTag(n)| - 1;
    var d := g + 1 + |BlockTail(items)| - |CloseTag|;
    OpenTagFound(s, p, a);
    GridTagFound(s, p, a, q, g, n);
    CloseFound(s, p, a, q, g, d, items);
  }

  /** The block's opening tag, with no opening marker before it, is what the search's first two steps find. */
  lemma OpenTagFound(s: string, p: nat, a: nat)
    requires OccursAt(s, OpenTag, p) && a == p + |OpenTag| - 1
    requires forall j: nat :: j < p ==> !OccursAt(s, OpenMarker, j)
    ensures FindFeedBlock(s) == GridFrom(s, p, a)
  {
    OpenAttrsNoGt();
    TagEnd(s, p, OpenMarker, OpenAttrs);
    FindFromIs(s, OpenMarker, 0, p);
  }

  /** The grid tag's first `>` is its last character. */
  lemma GridTagEnd(s: string, q: nat, n: nat)
    requires OccursAt(s, GridTag(n), q)
    ensures OccursAt(s, GridMarker, q)
    ensures FindFrom(s, Gt, q + |GridMarker|) == Some(q + |GridTag(n)| - 1)
  {
    var ga := GridAttrs(GridLayout(n));
    GridAttrsNoGt(GridLayout(n));
    TagEnd(s, q, GridMarker, ga);
  }

  /** The block's grid tag is what the search's third and fourth steps find. */
  lemma GridTagFound(s: string, p: nat, a: nat, q: nat, g: nat, n: nat)
    requires q == a + 1 + |GridIndent| && g == q + |GridTag(n)| - 1
    requires OccursAt(s, GridIndent, a + 1) && OccursAt(s, GridTag(n), q)
    ensures GridFrom(s, p, a) == CloseFrom(s, p, a, q, g)
  {
    assert OccursAt(s, GridMarker, q) && FindFrom(s, Gt, q + |GridMarker|) == Some(g) by {
      GridTagEnd(s, q, n);
    }
    assert FindFrom(s, GridMarker, a + 1) == Some(q) by {
      GridStep(s, a + 1);
    }
  }

  /** The block's closing tag is what the search's last step finds. */
  lemma CloseFound(s: string, p: nat, a: nat, q: nat, g: nat, d: nat, items: string)
    requires d + |CloseTag| == g + 1 + |BlockTail(items)|
    requires OccursAt(s, BlockTail(items), g + 1) && LtNotBeforeD(items)
    ensures CloseFrom(s, p, a, q, g) == Some(FeedMatch(p, a, q, g, d))
  {
    CloseStep(s, g + 1, items);
  }

  /** Replacing a match by the text it already is changes nothing. */
  lemma SubstituteSame(pre: string, block: string, post: string)
    requires var r := FindFeedBlock(pre + block + post);
      r.Some? && r.value.start == |pre| && r.value.End() == |pre| + |block|
    ensures Substitute(pre + block + post, block) == pre + block + post
  {
    var s := pre + block + post;
    assert s[..|pre|] == pre;
    assert s[|pre| + |block|..] == post;
  }

  /** The block starts with the opening marker the pattern looks for. */
  lemma BlockOpens(items: string, n: nat)
    ensures OccursAt(BlockOf(items, n), OpenMarker, 0)
  {
    OccursAtSplit4(BlockOf(items, n), OpenTag, GridIndent, GridTag(n), BlockTail(items), 0) by {
      PlacedAt("", BlockOf(items, n), "");
      assert "" + BlockOf(items, n) + "" == BlockOf(items, n);
    }
    OccursAtSplit(BlockOf(items, n), OpenMarker + OpenAttrs, Gt, 0);
    OccursAtSplit(BlockOf(items, n), OpenMarker, OpenAttrs, 0);
  }

  /**
   * Rewriting a second time with the same files and user changes nothing:
   * the block put in by the first rewrite is itself the first match.
   */
  lemma RewriteIdempotent(html: string, user: string, files: seq<string>)
    requires NoChar(user, '<')
    requires forall i :: 0 <= i < |files| ==> NoChar(files[i], '<')
    ensures RewriteFeed(RewriteFeed(html, user, files), user, files) == RewriteFeed(html, user, files)
  {
    var b := FeedBlock(user, files);
    FindFeedBlockSound(html);
    if FindFeedBlock(html).Some? {
      var m := FindFeedBlock(html).value;
      var pre := html[..m.start];
      var post := html[m.End()..];
      var s1 := pre + b + post;
      assert RewriteFeed(html, user, files) == s1;
      BlockOpens(ItemsMarkup(user, files), |files|);
      NoneBeforeReplace(html, m.start, OpenMarker, b, post);
      ItemsLtNotBeforeD(user, files);
      BlockFoundAfter(pre, ItemsMarkup(user, files), |files|, post);
      SubstituteSame(pre, b, post);
    }
  }
}
