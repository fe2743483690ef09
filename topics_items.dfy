/**
 * What `renderNavItem` promises about one entry: the class string, and the
 * places where the url, the title and the children's list are spliced in.
 */
module TopicsItems {
  import opened Strings
  import opened Topics

  // The slicing and associativity steps in the proofs below are not needed
  // for the facts to hold: they name the intermediate concatenations so the
  // solver does not have to rediscover them, which keeps these proofs small
  // and their cost stable from one solver run to the next.

  /**
   * The class string is one of four values: " ordered" leads it exactly when
   * `order` is truthy, " top" ends it exactly when `parent` is falsy.
   */
  lemma {:induction false} ClassesShape(e: NavEntry)
    ensures Classes(e) in {"", " ordered", " top", " ordered top"}
    ensures var c := Classes(e); Truthy(e.order) <==> |c| >= 8 && c[..8] == " ordered"
    ensures var c := Classes(e); !Truthy(e.parent) <==> |c| >= 4 && c[|c| - 4..] == " top"
  {
    var c := Classes(e);
    if Truthy(e.order) && !Truthy(e.parent) {
      assert c == " ordered top";
      assert c[..8] == " ordered";
      assert c[|c| - 4..] == " top";
    } else if Truthy(e.order) {
      assert c == " ordered";
      assert c[|c| - 4..] == "ered";
    } else if !Truthy(e.parent) {
      assert c == " top";
    } else {
      assert c == "";
    }
  }

  /**
   * An item is one `<li>` element: it opens with `<li class="`, then the
   * class string, and closes with `</li>`.
   */
  lemma {:induction false} ItemEnclosed(e: NavEntry)
    ensures var r := RenderNavItem(e);
            var x := ItemHead + Classes(e);
            |r| >= |x| + |ItemTail| && r[..|x|] == x && r[|r| - |ItemTail|..] == ItemTail
  {
    var x := ItemHead + Classes(e);
    var s1 := x + LinkHead;
    var s2 := s1 + e.url;
    var s3 := s2 + LinkMid;
    var s4 := s3 + e.title;
    var s5 := s4 + Gap;
    var s6 := s5 + Marker(e.children);
    var s7 := s6 + LinkTail;
    var s8 := s7 + RenderNavList(e.children);
    var n := |x|;
    assert x[..n] == x;
    PrefixSlice(x, LinkHead, 0, n);
    PrefixSlice(s1, e.url, 0, n);
    PrefixSlice(s2, LinkMid, 0, n);
    PrefixSlice(s3, e.title, 0, n);
    PrefixSlice(s4, Gap, 0, n);
    PrefixSlice(s5, Marker(e.children), 0, n);
    PrefixSlice(s6, LinkTail, 0, n);
    PrefixSlice(s7, RenderNavList(e.children), 0, n);
    PrefixSlice(s8, ItemTail, 0, n);
    AppendSlice(s8, ItemTail);
  }

  /** Where the url starts in a rendered item: after `<li class="…">` and the `<a` opening up to `handleLinkClick(this, '`. */
  function UrlAt(e: NavEntry): nat
  {
    |ItemHead| + |Classes(e)| + |LinkHead|
  }

  /** Where the title starts: after the url and the rest of the `<a` opening tag. */
  function TitleAt(e: NavEntry): nat
  {
    UrlAt(e) + |e.url| + |LinkMid|
  }

  /** Where the children's list starts: after the title, the marker and `</a>`. */
  function ListAt(e: NavEntry): nat
  {
    TitleAt(e) + |e.title| + |Gap| + |Marker(e.children)| + |LinkTail|
  }

  /** The url is spliced in verbatim, at a position that does not depend on it. */
  lemma {:induction false} UrlSlot(e: NavEntry)
    ensures var r := RenderNavItem(e);
            UrlAt(e) + |e.url| <= |r| && r[UrlAt(e)..UrlAt(e) + |e.url|] == e.url
  {
    var x := ItemHead + Classes(e) + LinkHead;
    var y := x + e.url;
    AppendSlice(x, e.url);
    var r1 := y + LinkMid + e.title + Gap + Marker(e.children) + LinkTail + RenderNavList(e.children);
    assert r1[|x|..|y|] == y[|x|..|y|];
    PrefixSlice(r1, ItemTail, |x|, |y|);
  }

  /** The title is spliced in verbatim, at a position that does not depend on it. */
  lemma {:induction false} TitleSlot(e: NavEntry)
    ensures var r := RenderNavItem(e);
            TitleAt(e) + |e.title| <= |r| && r[TitleAt(e)..TitleAt(e) + |e.title|] == e.title
  {
    var x := ItemHead + Classes(e) + LinkHead + e.url + LinkMid;
    var y := x + e.title;
    AppendSlice(x, e.title);
    var r1 := y + Gap + Marker(e.children) + LinkTail + RenderNavList(e.children);
    assert r1[|x|..|y|] == y[|x|..|y|];
    PrefixSlice(r1, ItemTail, |x|, |y|);
  }

  /**
   * The nested part is exactly the children's list, right before `</li>`:
   * nothing for falsy `children`, `<ul>…</ul>` for an array.
   */
  lemma {:induction false} ListSlot(e: NavEntry)
    ensures var r := RenderNavItem(e);
            var l := RenderNavList(e.children);
            |r| == ListAt(e) + |l| + |ItemTail| && r[ListAt(e)..ListAt(e) + |l|] == l
  {
    var x := ItemHead + Classes(e) + LinkHead + e.url + LinkMid + e.title + Gap + Marker(e.children) + LinkTail;
    var l := RenderNavList(e.children);
    SliceMiddle(x, l, ItemTail);
  }

  /** Two titles give the same item exactly when they are the same title. */
  lemma {:induction false} TitleDetermines(e: NavEntry, t: string)
    ensures RenderNavItem(e.(title := t)) == RenderNavItem(e) <==> t == e.title
  {
    var e' := e.(title := t);
    if RenderNavItem(e') == RenderNavItem(e) {
      TitleSlot(e);
      TitleSlot(e');
      assert |RenderNavItem(e')| - |RenderNavItem(e)| == |t| - |e.title|;
    }
  }

  /** Two urls give the same item exactly when they are the same url. */
  lemma {:induction false} UrlDetermines(e: NavEntry, u: string)
    ensures RenderNavItem(e.(url := u)) == RenderNavItem(e) <==> u == e.url
  {
    var e' := e.(url := u);
    if RenderNavItem(e') == RenderNavItem(e) {
      UrlSlot(e);
      UrlSlot(e');
      assert |RenderNavItem(e')| - |RenderNavItem(e)| == |u| - |e.url|;
    }
  }

  /** The part of an item that does not depend on its children: up to the gap after the title. */
  function Lead(e: NavEntry): string
  {
    ItemHead + Classes(e) + LinkHead + e.url + LinkMid + e.title + Gap
  }

  /** The part of an item that depends only on its children: the marker, `</a>`, the nested list, `</li>`. */
  function Trailer(children: NavList): string
  {
    Marker(children) + LinkTail + RenderNavList(children) + ItemTail
  }

  lemma {:induction false} ItemSplit(e: NavEntry)
    ensures RenderNavItem(e) == Lead(e) + Trailer(e.children)
  {
    var l, m, n := Lead(e), Marker(e.children), RenderNavList(e.children);
    calc {
      RenderNavItem(e);
      l + m + LinkTail + n + ItemTail;
      { Assoc(l + m + LinkTail, n, ItemTail);
        Assoc(l + m, LinkTail, n + ItemTail);
        Assoc(l, m, LinkTail + (n + ItemTail)); }
      l + (m + (LinkTail + (n + ItemTail)));
      { Assoc(m, LinkTail, n + ItemTail);
        Assoc(m + LinkTail, n, ItemTail); }
      l + Trailer(e.children);
    }
  }

  /** A present list's trailer starts with the triangle, an absent one's with the line break before `</a>`. */
  lemma {:induction false} TrailerStart(c: NavList)
    ensures |Trailer(c)| > 0 && Trailer(c)[0] == if c.Present? then '<' else '\n'
    ensures c.Present? ==> |Trailer(c)| >= |Triangle| && Trailer(c)[..|Triangle|] == Triangle
    ensures c.Absent? ==> |Trailer(c)| >= |LinkTail| && Trailer(c)[..|LinkTail|] == LinkTail
  {
    if c.Present? {
      assert Trailer(c)[0] == Triangle[0];
    } else {
      assert Trailer(c)[0] == LinkTail[0];
    }
  }

  /** Two trailers are equal exactly when the nested lists are. */
  lemma {:induction false} TrailerDetermines(c: NavList, d: NavList)
    ensures Trailer(c) == Trailer(d) <==> RenderNavList(c) == RenderNavList(d)
  {
    TrailerStart(c);
    TrailerStart(d);
    if Trailer(c) == Trailer(d) {
      var m := Marker(c);
      SliceMiddle(m + LinkTail, RenderNavList(c), ItemTail);
      SliceMiddle(m + LinkTail, RenderNavList(d), ItemTail);
    }
  }

  /**
   * The children affect an item only through their rendered list: the
   * triangle is there exactly when that list is not empty.
   */
  lemma {:induction false} ChildrenDetermine(e: NavEntry, c: NavList)
    ensures RenderNavItem(e.(children := c)) == RenderNavItem(e) <==> RenderNavList(c) == RenderNavList(e.children)
  {
    var e' := e.(children := c);
    ItemSplit(e);
    ItemSplit(e');
    assert Lead(e') == Lead(e);
    AppendSlice(Lead(e), Trailer(c));
    AppendSlice(Lead(e), Trailer(e.children));
    TrailerDetermines(c, e.children);
  }
}
