/**
 * Structural facts about the rendered markup, stated as occurrence counts:
 * one `<li` per entry at any depth, one nested `<ul>` and one triangle per
 * entry whose `children` is truthy, plus whatever the titles and urls bring
 * with them, since they are spliced in unescaped.
 */
module TopicsCounts {
  import opened Occurrences
  import opened Strings
  import opened Topics
  import opened TopicsOrder

  /** The opening of a list item. */
  const Li := "<li"
  /** The opening of a list. */
  const Ul := "<ul>"
  /** The glyph inside the triangle marker. */
  const Glyph := "&#x25b6;"

  /**
   * Patterns that start a tag or an entity and hold no whitespace, no quote,
   * no `<` after the first character and no `>` before the last: no
   * occurrence of such a pattern can straddle a join of the template's pieces.
   */
  predicate Delimited(p: string)
  {
    && |p| >= 3
    && (p[0] == '<' || p[0] == '&')
    && forall i | 0 <= i < |p| ::
         && p[i] !in "\n \"'"
         && (0 < i ==> p[i] != '<')
         && (i < |p| - 1 ==> p[i] != '>')
  }

  /** `a` ends with a character no delimited pattern has before its last position. */
  predicate SafeEnd(a: string)
  {
    |a| > 0 && a[|a| - 1] in "\n \"'>"
  }

  /** `b` starts with a character no delimited pattern has after its first position. */
  predicate SafeStart(b: string)
  {
    |b| > 0 && b[0] in "\n \"'<"
  }

  lemma {:induction false} OccJoin(p: string, a: string, b: string)
    requires Delimited(p) && (SafeEnd(a) || SafeStart(b))
    ensures Occ(p, a + b) == Occ(p, a) + Occ(p, b)
  {
    assert Seam(p, a, b) by {
      if SafeEnd(a) {
        assert forall j | 0 <= j < |p| - 1 :: p[..|p| - 1][j] == p[j];
      } else {
        assert forall j | 0 <= j < |p| - 1 :: p[1..][j] == p[j + 1];
      }
    }
    OccAppend(p, a, b);
  }

  /** A tag or an entity: its first character is its only `<` or `&`. */
  predicate Tag(s: string)
  {
    |s| >= 2 && forall i | 1 <= i < |s| :: s[i] != '<' && s[i] != '&'
  }

  /** A tag other than `p`: it differs from `p` at position `k`. */
  lemma {:induction false} OccMiss(p: string, s: string, k: nat)
    requires Delimited(p) && Tag(s) && k < |p| && (k < |s| ==> s[k] != p[k])
    ensures Occ(p, s) == 0
  {
    assert p[0] !in s[1..];
    OccInert(p, s[1..]);
    if |s| >= |p| {
      assert s[..|p|][k] == s[k];
    }
  }

  /** A tag that begins with `p`. */
  lemma {:induction false} OccHit(p: string, s: string)
    requires Delimited(p) && Tag(s) && |s| >= |p| && s[..|p|] == p
    ensures Occ(p, s) == 1
  {
    assert p[0] !in s[1..];
    OccInert(p, s[1..]);
  }

  // ---------------------------------------------------------------------
  // Sizes of the navigation tree.

  /** An entry's share of a tree sum: `perNode` for itself, `perList` for a nested list. */
  function EntryWeight(e: NavEntry, perNode: nat, perList: nat): nat
  {
    perNode + match e.children
              case Absent => 0
              case Present(ys) => perList + Weighted(ys, perNode, perList)
  }

  /** Sum over every entry of the tree, at any depth. */
  function Weighted(xs: seq<NavEntry>, perNode: nat, perList: nat): nat
  {
    if xs == [] then 0 else EntryWeight(xs[0], perNode, perList) + Weighted(xs[1..], perNode, perList)
  }

  /** The number of entries in the tree, at any depth. */
  function NodeCount(xs: seq<NavEntry>): nat
  {
    Weighted(xs, 1, 0)
  }

  /** The number of entries, at any depth, whose `children` is truthy. */
  function ExpandableCount(xs: seq<NavEntry>): nat
  {
    Weighted(xs, 0, 1)
  }

  /** Occurrences of `p` inside an entry's title and url and those of its descendants. */
  function EntrySpliced(p: string, e: NavEntry): nat
  {
    Occ(p, e.title) + Occ(p, e.url) + match e.children
                                      case Absent => 0
                                      case Present(ys) => Spliced(p, ys)
  }

  /** Occurrences of `p` inside every title and url of the tree. */
  function Spliced(p: string, xs: seq<NavEntry>): nat
  {
    if xs == [] then 0 else EntrySpliced(p, xs[0]) + Spliced(p, xs[1..])
  }

  /** Occurrences of `p` in the fixed text every list item carries. */
  function ItemUnit(p: string): nat
  {
    Occ(p, ItemHead) + Occ(p, LinkHead) + Occ(p, LinkMid) + Occ(p, Gap) + Occ(p, LinkTail) + Occ(p, ItemTail)
  }

  /** Occurrences of `p` in the fixed text of a list. */
  function ListUnit(p: string): nat
  {
    Occ(p, ListOpen) + Occ(p, ListClose)
  }

  /** Occurrences of `p` added by an entry whose children are present: the triangle and the nested list. */
  function ExpandUnit(p: string): nat
  {
    Occ(p, Triangle) + ListUnit(p)
  }

  // ---------------------------------------------------------------------
  // Counting over the template.

  /** The class string holds neither `<` nor `&`. */
  lemma {:induction false} ClassesInert(p: string, e: NavEntry)
    requires Delimited(p)
    ensures Occ(p, Classes(e)) == 0
  {
    OccInert(p, Classes(e));
  }

  /** A safe end stays safe when text is prepended. */
  lemma {:induction false} EndsSafe(a: string, b: string)
    requires SafeEnd(b)
    ensures SafeEnd(a + b)
  {
    assert (a + b)[|a + b| - 1] == b[|b| - 1];
  }

  /** Where the fixed pieces of the list-item template begin and end. */
  lemma TemplateEdges()
    ensures SafeEnd(ItemHead) && SafeStart(LinkHead) && SafeEnd(LinkHead) && SafeEnd(LinkMid) && SafeStart(LinkMid)
    ensures SafeStart(Gap) && SafeEnd(Gap) && SafeStart(LinkTail) && SafeEnd(LinkTail) && SafeStart(ItemTail) && SafeEnd(ItemTail)
  {
  }

  /** An item's count is the sum of its pieces' counts: nothing straddles a join. */
  lemma {:induction false} ItemPieces(p: string, e: NavEntry)
    requires Delimited(p)
    ensures Occ(p, RenderNavItem(e)) ==
              Occ(p, ItemHead) + Occ(p, Classes(e)) + Occ(p, LinkHead) + Occ(p, e.url) + Occ(p, LinkMid)
              + Occ(p, e.title) + Occ(p, Gap) + Occ(p, Marker(e.children)) + Occ(p, LinkTail)
              + Occ(p, RenderNavList(e.children)) + Occ(p, ItemTail)
  {
    TemplateEdges();
    var s1 := ItemHead + Classes(e);
    OccJoin(p, ItemHead, Classes(e));
    var s2 := s1 + LinkHead;
    OccJoin(p, s1, LinkHead);
    EndsSafe(s1, LinkHead);
    var s3 := s2 + e.url;
    OccJoin(p, s2, e.url);
    var s4 := s3 + LinkMid;
    OccJoin(p, s3, LinkMid);
    EndsSafe(s3, LinkMid);
    var s5 := s4 + e.title;
    OccJoin(p, s4, e.title);
    var s6 := s5 + Gap;
    OccJoin(p, s5, Gap);
    EndsSafe(s5, Gap);
    var s7 := s6 + Marker(e.children);
    OccJoin(p, s6, Marker(e.children));
    var s8 := s7 + LinkTail;
    OccJoin(p, s7, LinkTail);
    EndsSafe(s7, LinkTail);
    var s9 := s8 + RenderNavList(e.children);
    OccJoin(p, s8, RenderNavList(e.children));
    OccJoin(p, s9, ItemTail);
  }

  /** Rendered items end with a space, so nothing straddles the join of two items. */
  lemma {:induction false} ItemEnd(e: NavEntry)
    ensures SafeEnd(RenderNavItem(e))
  {
    TemplateEdges();
    EndsSafe(ItemHead + Classes(e) + LinkHead + e.url + LinkMid + e.title + Gap + Marker(e.children) + LinkTail
             + RenderNavList(e.children), ItemTail);
  }
  /**
   * The count in one rendered entry: its fixed text, its title and url, and,
   * when its children are present, the triangle and the nested list.
   */
  lemma {:induction false} OccInItem(p: string, e: NavEntry)
    requires Delimited(p)
    ensures Occ(p, RenderNavItem(e)) == EntryWeight(e, ItemUnit(p), ExpandUnit(p)) + EntrySpliced(p, e)
    decreases e
  {
    ItemPieces(p, e);
    ClassesInert(p, e);
    match e.children
    case Absent =>
    case Present(ys) =>
      OccInList(p, ys);
  }

  /** The count in the concatenated items of a list. */
  lemma {:induction false} OccInItems(p: string, xs: seq<NavEntry>)
    requires Delimited(p)
    ensures Occ(p, Items(xs)) == Weighted(xs, ItemUnit(p), ExpandUnit(p)) + Spliced(p, xs)
    decreases xs, 0
  {
    if xs != [] {
      ItemEnd(xs[0]);
      OccJoin(p, RenderNavItem(xs[0]), Items(xs[1..]));
      OccInItem(p, xs[0]);
      OccInItems(p, xs[1..]);
    }
  }

  /** The count in a present list: its `<ul>` and `</ul>` plus every entry of the tree. */
  lemma {:induction false} OccInList(p: string, xs: seq<NavEntry>)
    requires Delimited(p)
    ensures Occ(p, RenderNavList(Present(xs))) == ListUnit(p) + Weighted(xs, ItemUnit(p), ExpandUnit(p)) + Spliced(p, xs)
    decreases xs, 1
  {
    ListInOrder(xs);
    OccJoin(p, ListOpen, Items(xs));
    OccJoin(p, ListOpen + Items(xs), ListClose);
    OccInItems(p, xs);
  }

  // ---------------------------------------------------------------------
  // The tags in the fixed text.
  //
  // Each piece of the template is reduced to the tags it holds: the text
  // between tags is `Plain` and contributes nothing. The facts about literal
  // strings (`Plain(" class=\"")`, `SafeEnd(...)`, a tag differing from a
  // pattern) are each proved in a lemma of their own and only combined
  // afterwards: the solver evaluates every literal it meets, and several
  // such facts checked in one proof make it slow. This is why the section
  // holds many one-line lemmas; none of them states anything beyond the
  // text of one piece.

  /** Text with no `<` and no `&`: attribute values, whitespace, class names. */
  predicate Plain(s: string)
  {
    forall i | 0 <= i < |s| :: s[i] != '<' && s[i] != '&'
  }

  lemma {:induction false} OccPlain(p: string, s: string)
    requires Delimited(p) && Plain(s)
    ensures Occ(p, s) == 0
  {
    OccInert(p, s);
  }

  lemma {:induction false} Join3(p: string, a: string, b: string, c: string)
    requires Delimited(p) && (SafeEnd(a) || SafeStart(b)) && (SafeEnd(b) || SafeStart(c))
    ensures Occ(p, a + b + c) == Occ(p, a) + Occ(p, b) + Occ(p, c)
  {
    OccJoin(p, a, b);
    if SafeEnd(b) {
      EndsSafe(a, b);
    }
    OccJoin(p, a + b, c);
  }

  lemma {:induction false} Join4(p: string, a: string, b: string, c: string, d: string)
    requires Delimited(p) && (SafeEnd(a) || SafeStart(b)) && (SafeEnd(b) || SafeStart(c)) && (SafeEnd(c) || SafeStart(d))
    ensures Occ(p, a + b + c + d) == Occ(p, a) + Occ(p, b) + Occ(p, c) + Occ(p, d)
  {
    Join3(p, a, b, c);
    if SafeEnd(c) {
      EndsSafe(a + b, c);
    }
    OccJoin(p, a + b + c, d);
  }

  /** The whitespace and the attribute opening that sit between tags. */
  lemma Indents()
    ensures Plain("\n    ") && Plain("\n      ") && Plain("\n  ") && Plain(" class=\"")
  {
  }

  lemma {:induction false} ItemHeadTags(p: string)
    requires Delimited(p)
    ensures Occ(p, ItemHead) == Occ(p, "<li")
  {
    Indents();
    Join3(p, "\n    ", "<li", " class=\"");
    OccPlain(p, "\n    ");
    OccPlain(p, " class=\"");
  }

  lemma LinkHeadPlain()
    ensures Plain("\">\n      ") && Plain("\n        class=\"nav-link\"")
  {
  }

  lemma OnclickPlain()
    ensures Plain("\n        onclick=\"handleLinkClick(this, '")
  {
  }

  lemma {:induction false} LinkHeadTags(p: string)
    requires Delimited(p)
    ensures Occ(p, LinkHead) == Occ(p, "<a")
  {
    var a, b, c, d := "\">\n      ", "<a", "\n        class=\"nav-link\"", "\n        onclick=\"handleLinkClick(this, '";
    Join4(p, a, b, c, d);
    LinkHeadPlain();
    OnclickPlain();
    OccPlain(p, a);
    OccPlain(p, c);
    OccPlain(p, d);
  }

  lemma LinkMidPlain()
    ensures Plain(LinkMid) && Plain(Gap)
  {
  }

  lemma {:induction false} LinkTailTags(p: string)
    requires Delimited(p)
    ensures Occ(p, LinkTail) == Occ(p, "</a>")
  {
    Indents();
    Join3(p, "\n      ", "</a>", "\n      ");
    OccPlain(p, "\n      ");
  }

  lemma {:induction false} ItemTailTags(p: string)
    requires Delimited(p)
    ensures Occ(p, ItemTail) == Occ(p, "</li>")
  {
    Indents();
    Join3(p, "\n    ", "</li>", "\n  ");
    OccPlain(p, "\n    ");
    OccPlain(p, "\n  ");
  }

  /** The fixed text of an item holds four tags: `<li`, `<a`, `</a>` and `</li>`. */
  lemma {:induction false} ItemUnitTags(p: string)
    requires Delimited(p)
    ensures ItemUnit(p) == Occ(p, "<li") + Occ(p, "<a") + Occ(p, "</a>") + Occ(p, "</li>")
  {
    ItemHeadTags(p);
    LinkHeadTags(p);
    LinkMidPlain();
    OccPlain(p, LinkMid);
    OccPlain(p, Gap);
    LinkTailTags(p);
    ItemTailTags(p);
  }

  lemma TriangleClassPlain()
    ensures Plain(" class=\"triangle\">")
  {
  }

  lemma {:induction false} TriangleJoin(p: string)
    requires Delimited(p)
    ensures Occ(p, Triangle) == Occ(p, "<div") + Occ(p, " class=\"triangle\">") + Occ(p, Glyph) + Occ(p, "</div>")
  {
    Join4(p, "<div", " class=\"triangle\">", Glyph, "</div>");
  }

  /** The triangle holds `<div`, the glyph and `</div>`. */
  lemma {:induction false} TriangleTags(p: string)
    requires Delimited(p)
    ensures Occ(p, Triangle) == Occ(p, "<div") + Occ(p, Glyph) + Occ(p, "</div>")
  {
    TriangleJoin(p);
    TriangleClassPlain();
    OccPlain(p, " class=\"triangle\">");
  }

  lemma {:induction false} StylesheetTags(p: string)
    requires Delimited(p)
    ensures Occ(p, StylesheetLine) == Occ(p, "<link")
  {
    var a, b, c, d := "\n    ", "<link", " rel=\"stylesheet\"", " href=\"/blog/assets/topics.css\">";
    Join4(p, a, b, c, d);
    Indents();
    StylesheetPlain();
    OccPlain(p, a);
    OccPlain(p, c);
    OccPlain(p, d);
  }

  lemma {:induction false} ScriptTags(p: string)
    requires Delimited(p)
    ensures Occ(p, ScriptLine) == Occ(p, "<script") + Occ(p, "</script>")
  {
    var a, b, c, d := "\n    ", "<script", " src=\"/blog/assets/topics.js\">", "</script>";
    Join4(p, a, b, c, d);
    Indents();
    ScriptPlain();
    OccPlain(p, a);
    OccPlain(p, c);
  }

  lemma StylesheetPlain()
    ensures Plain(" rel=\"stylesheet\"") && Plain(" href=\"/blog/assets/topics.css\">")
  {
  }

  lemma ScriptPlain()
    ensures Plain(" src=\"/blog/assets/topics.js\">")
  {
  }

  lemma SectionPlain()
    ensures Plain(" class=\"topic-content\">")
  {
  }

  lemma ButtonPlain()
    ensures Plain(" class=\"hamburger\" onclick=") && Plain("\"toggleHamburgerMenu()\">")
  {
  }

  lemma {:induction false} ButtonTags(p: string)
    requires Delimited(p)
    ensures Occ(p, ButtonLine) == Occ(p, "<button") + Occ(p, "&#x2630;") + Occ(p, "</button>")
  {
    Indents();
    var a, b, c, d := "\n    ", "<button", " class=\"hamburger\" onclick=", "\"toggleHamburgerMenu()\">";
    Join4(p, a, b, c, d);
    EndsSafe(a + b + c, d);
    OccJoin(p, a + b + c + d, "&#x2630;");
    OccJoin(p, a + b + c + d + "&#x2630;", "</button>");
    ButtonPlain();
    OccPlain(p, a);
    OccPlain(p, c);
    OccPlain(p, d);
  }

  lemma {:induction false} NavOpenTags(p: string)
    requires Delimited(p)
    ensures Occ(p, NavOpen) == Occ(p, "<nav>")
  {
    Indents();
    Join3(p, "\n    ", "<nav>", "\n      ");
    OccPlain(p, "\n    ");
    OccPlain(p, "\n      ");
  }

  /** The shell before the list: a stylesheet link, a script, the menu button and the opening `<nav>`. */
  lemma {:induction false} ShellHeadTags(p: string)
    requires Delimited(p)
    ensures Occ(p, ShellHead) ==
              Occ(p, "<link") + Occ(p, "<script") + Occ(p, "</script>") + Occ(p, "<button") + Occ(p, "&#x2630;")
              + Occ(p, "</button>") + Occ(p, "<nav>")
  {
    assert SafeStart(ScriptLine) && SafeStart(ButtonLine) && SafeStart(NavOpen);
    Join4(p, StylesheetLine, ScriptLine, ButtonLine, NavOpen);
    StylesheetTags(p);
    ScriptTags(p);
    ButtonTags(p);
    NavOpenTags(p);
  }

  lemma {:induction false} SectionOpenTags(p: string)
    requires Delimited(p)
    ensures Occ(p, NavClose) == Occ(p, "</nav>") && Occ(p, SectionOpen) == Occ(p, "<section")
  {
    OccJoin(p, "\n    ", "</nav>");
    Join3(p, "\n    ", "<section", " class=\"topic-content\">");
    Indents();
    SectionPlain();
    OccPlain(p, "\n    ");
    OccPlain(p, " class=\"topic-content\">");
  }

  lemma FramePlain()
    ensures Plain("\n        name=\"frame\"") && Plain("\n        onLoad={iframeLoaded(this)}")
  {
  }

  lemma FrameSourcePlain()
    ensures Plain("\n        src=\"../welcome/\"") && Plain("\n        title=\"topic content\">")
  {
  }

  lemma {:induction false} FrameTags(p: string)
    requires Delimited(p)
    ensures Occ(p, Frame) == Occ(p, "<iframe") + Occ(p, "</iframe>")
  {
    Indents();
    FramePlain();
    FrameSourcePlain();
    assert Plain(FrameAttributes);
    assert SafeStart(FrameAttributes);
    Join4(p, "\n      ", "<iframe", FrameAttributes, "</iframe>");
    OccPlain(p, "\n      ");
    OccPlain(p, FrameAttributes);
  }

  lemma {:induction false} SectionCloseTags(p: string)
    requires Delimited(p)
    ensures Occ(p, SectionClose) == Occ(p, "</section>")
  {
    Indents();
    Join3(p, "\n    ", "</section>", "\n  ");
    OccPlain(p, "\n    ");
    OccPlain(p, "\n  ");
  }

  /** The shell after the list: the closing `</nav>` and the section holding the content frame. */
  lemma {:induction false} ShellTailTags(p: string)
    requires Delimited(p)
    ensures Occ(p, ShellTail) ==
              Occ(p, "</nav>") + Occ(p, "<section") + Occ(p, "<iframe") + Occ(p, "</iframe>") + Occ(p, "</section>")
  {
    assert SafeStart(SectionOpen) && SafeStart(Frame) && SafeStart(SectionClose);
    Join4(p, NavClose, SectionOpen, Frame, SectionClose);
    SectionOpenTags(p);
    FrameTags(p);
    SectionCloseTags(p);
  }

  // ---------------------------------------------------------------------
  // The three patterns.

  lemma PatternsDelimited()
    ensures Delimited(Li) && Delimited(Ul) && Delimited(Glyph)
  {
  }

  /** Tags that differ from `p` in one of their first two characters hold no occurrence of it. */
  lemma {:induction false} Misses(p: string, ts: seq<string>)
    requires Delimited(p)
    requires forall i | 0 <= i < |ts| :: Tag(ts[i]) && (ts[i][0] != p[0] || ts[i][1] != p[1])
    ensures forall i | 0 <= i < |ts| :: Occ(p, ts[i]) == 0
  {
    forall i | 0 <= i < |ts|
      ensures Occ(p, ts[i]) == 0
    {
      if ts[i][0] != p[0] {
        OccMiss(p, ts[i], 0);
      } else {
        OccMiss(p, ts[i], 1);
      }
    }
  }

  /** None of the three patterns occurs in `<a`, `</a>`, `</li>`, `<div`, `</div>` or `</ul>`. */
  lemma {:induction false} TemplateMisses(p: string)
    requires Delimited(p) && (p[0] != '<' || (p[1] != 'a' && p[1] != '/' && p[1] != 'd'))
    ensures Occ(p, "<a") + Occ(p, "</a>") + Occ(p, "</li>") == 0
    ensures Occ(p, "<div") + Occ(p, "</div>") + Occ(p, ListClose) == 0
  {
    var ts := ["<a", "</a>", "</li>", "<div", "</div>", ListClose];
    Misses(p, ts);
    assert Occ(p, ts[0]) == 0 && Occ(p, ts[1]) == 0 && Occ(p, ts[2]) == 0;
    assert Occ(p, ts[3]) == 0 && Occ(p, ts[4]) == 0 && Occ(p, ts[5]) == 0;
  }

  /** The fixed text of the template reduced to its tags. */
  lemma {:induction false} UnitTags(p: string)
    requires Delimited(p)
    ensures ItemUnit(p) == Occ(p, "<li") + (Occ(p, "<a") + Occ(p, "</a>") + Occ(p, "</li>"))
    ensures ExpandUnit(p) == Occ(p, Glyph) + Occ(p, ListOpen) + (Occ(p, "<div") + Occ(p, "</div>") + Occ(p, ListClose))
  {
    ItemUnitTags(p);
    TriangleTags(p);
  }

  /** A tag holds one occurrence of itself. */
  lemma {:induction false} OccSelf(p: string)
    requires Delimited(p) && Tag(p)
    ensures Occ(p, p) == 1
  {
    OccHit(p, p);
  }

  /** `<li` occurs once in itself, and not in the glyph or in `<ul>`. */
  lemma {:induction false} LiTagsAt(p: string)
    requires Delimited(p) && Tag(p) && p == "<li"
    ensures Occ(p, "<li") == 1 && Occ(p, Glyph) + Occ(p, ListOpen) == 0
  {
    OccSelf(p);
    var ts := [Glyph, ListOpen];
    Misses(p, ts);
    assert Occ(p, ts[0]) == 0 && Occ(p, ts[1]) == 0;
  }

  lemma {:induction false} UlTagsAt(p: string)
    requires Delimited(p) && Tag(p) && p == ListOpen
    ensures Occ(p, ListOpen) == 1 && Occ(p, "<li") + Occ(p, Glyph) == 0
  {
    OccSelf(p);
    var ts := ["<li", Glyph];
    Misses(p, ts);
    assert Occ(p, ts[0]) == 0 && Occ(p, ts[1]) == 0;
  }

  lemma {:induction false} GlyphTagsAt(p: string)
    requires Delimited(p) && Tag(p) && p == Glyph
    ensures Occ(p, Glyph) == 1 && Occ(p, "<li") + Occ(p, ListOpen) == 0
  {
    OccSelf(p);
    var ts := ["<li", ListOpen];
    Misses(p, ts);
    assert Occ(p, ts[0]) == 0 && Occ(p, ts[1]) == 0;
  }

  /** What the fixed text contributes, for a pattern none of the template's other tags can match. */
  lemma {:induction false} UnitsFrom(p: string)
    requires Delimited(p) && (p[0] != '<' || (p[1] != 'a' && p[1] != '/' && p[1] != 'd'))
    ensures ItemUnit(p) == Occ(p, "<li")
    ensures ListUnit(p) == Occ(p, ListOpen)
    ensures ExpandUnit(p) == Occ(p, Glyph) + Occ(p, ListOpen)
  {
    UnitTags(p);
    TemplateMisses(p);
  }

  // For each of the three patterns: `Template` reduces the fixed text to the
  // pattern's count in `<li`, `<ul>` and the glyph, `Tags` gives those three
  // counts, and `Units` combines the two. They are kept apart for the reason
  // given at the head of the previous section.

  lemma LiTemplate()
    ensures ItemUnit(Li) == Occ(Li, "<li")
    ensures ListUnit(Li) == Occ(Li, ListOpen)
    ensures ExpandUnit(Li) == Occ(Li, Glyph) + Occ(Li, ListOpen)
  {
    PatternsDelimited();
    UnitsFrom(Li);
  }

  lemma LiTags()
    ensures Occ(Li, "<li") == 1 && Occ(Li, Glyph) + Occ(Li, ListOpen) == 0
  {
    PatternsDelimited();
    LiTagsAt(Li);
  }

  /** One `<li` per item and none in the triangle or the list tags. */
  lemma LiUnits()
    ensures ItemUnit(Li) == 1 && ExpandUnit(Li) == 0 && ListUnit(Li) == 0
  {
    LiTemplate();
    LiTags();
  }

  lemma UlTemplate()
    ensures ItemUnit(Ul) == Occ(Ul, "<li")
    ensures ListUnit(Ul) == Occ(Ul, ListOpen)
    ensures ExpandUnit(Ul) == Occ(Ul, Glyph) + Occ(Ul, ListOpen)
  {
    PatternsDelimited();
    UnitsFrom(Ul);
  }

  lemma UlTags()
    ensures Occ(Ul, ListOpen) == 1 && Occ(Ul, "<li") + Occ(Ul, Glyph) == 0
  {
    PatternsDelimited();
    UlTagsAt(Ul);
  }

  /** One `<ul>` per list and none in the fixed text of an item. */
  lemma UlUnits()
    ensures ItemUnit(Ul) == 0 && ExpandUnit(Ul) == 1 && ListUnit(Ul) == 1
  {
    UlTemplate();
    UlTags();
  }

  lemma GlyphTemplate()
    ensures ItemUnit(Glyph) == Occ(Glyph, "<li")
    ensures ListUnit(Glyph) == Occ(Glyph, ListOpen)
    ensures ExpandUnit(Glyph) == Occ(Glyph, Glyph) + Occ(Glyph, ListOpen)
  {
    PatternsDelimited();
    UnitsFrom(Glyph);
  }

  lemma GlyphTags()
    ensures Occ(Glyph, Glyph) == 1 && Occ(Glyph, "<li") + Occ(Glyph, ListOpen) == 0
  {
    PatternsDelimited();
    GlyphTagsAt(Glyph);
  }

  /** One glyph per triangle and none elsewhere in the fixed text. */
  lemma GlyphUnits()
    ensures ItemUnit(Glyph) == 0 && ExpandUnit(Glyph) == 1 && ListUnit(Glyph) == 0
  {
    GlyphTemplate();
    GlyphTags();
  }

  // ---------------------------------------------------------------------
  // Titles and urls without markup.

  /** An entry whose title and url, and those of all its descendants, hold no `<` and no `&`. */
  predicate PlainEntry(e: NavEntry)
  {
    Plain(e.title) && Plain(e.url) &&
    match e.children
    case Absent => true
    case Present(ys) => PlainTree(ys)
  }

  predicate PlainTree(xs: seq<NavEntry>)
  {
    forall i | 0 <= i < |xs| :: PlainEntry(xs[i])
  }

  lemma {:induction false} PlainEntrySpliced(p: string, e: NavEntry)
    requires Delimited(p) && PlainEntry(e)
    ensures EntrySpliced(p, e) == 0
    decreases e
  {
    OccPlain(p, e.title);
    OccPlain(p, e.url);
    match e.children
    case Absent =>
    case Present(ys) =>
      PlainSpliced(p, ys);
  }

  /** Titles and urls without markup bring no occurrence of a delimited pattern. */
  lemma {:induction false} PlainSpliced(p: string, xs: seq<NavEntry>)
    requires Delimited(p) && PlainTree(xs)
    ensures Spliced(p, xs) == 0
    decreases xs
  {
    if xs != [] {
      assert PlainEntry(xs[0]);
      PlainEntrySpliced(p, xs[0]);
      assert PlainTree(xs[1..]) by {
        forall i | 0 <= i < |xs[1..]|
          ensures PlainEntry(xs[1..][i])
        {
          assert xs[1..][i] == xs[i + 1];
        }
      }
      PlainSpliced(p, xs[1..]);
    }
  }

  // ---------------------------------------------------------------------
  // The structure of the rendered list.

  /**
   * A present list holds one `<li` per entry of the tree, at any depth,
   * plus those its titles and urls carry.
   */
  lemma {:induction false} ListItemCount(xs: seq<NavEntry>)
    ensures Occ(Li, RenderNavList(Present(xs))) == NodeCount(xs) + Spliced(Li, xs)
    ensures PlainTree(xs) ==> Occ(Li, RenderNavList(Present(xs))) == NodeCount(xs)
  {
    PatternsDelimited();
    LiUnits();
    OccInList(Li, xs);
    if PlainTree(xs) {
      PlainSpliced(Li, xs);
    }
  }

  /**
   * A present list holds its own `<ul>` and one more for every entry, at
   * any depth, whose `children` is truthy (an empty array included).
   */
  lemma {:induction false} ListNestingCount(xs: seq<NavEntry>)
    ensures Occ(Ul, RenderNavList(Present(xs))) == 1 + ExpandableCount(xs) + Spliced(Ul, xs)
    ensures PlainTree(xs) ==> Occ(Ul, RenderNavList(Present(xs))) == 1 + ExpandableCount(xs)
  {
    PatternsDelimited();
    UlUnits();
    OccInList(Ul, xs);
    if PlainTree(xs) {
      PlainSpliced(Ul, xs);
    }
  }

  /** A present list shows one triangle for every entry, at any depth, whose `children` is truthy. */
  lemma {:induction false} TriangleCount(xs: seq<NavEntry>)
    ensures Occ(Glyph, RenderNavList(Present(xs))) == ExpandableCount(xs) + Spliced(Glyph, xs)
    ensures PlainTree(xs) ==> Occ(Glyph, RenderNavList(Present(xs))) == ExpandableCount(xs)
  {
    PatternsDelimited();
    GlyphUnits();
    OccInList(Glyph, xs);
    if PlainTree(xs) {
      PlainSpliced(Glyph, xs);
    }
  }

  /** An item is one `<li` followed by those of its descendants. */
  lemma {:induction false} ItemListItems(e: NavEntry)
    ensures Occ(Li, RenderNavItem(e)) == EntryWeight(e, 1, 0) + EntrySpliced(Li, e)
    ensures PlainEntry(e) ==> Occ(Li, RenderNavItem(e)) == EntryWeight(e, 1, 0)
  {
    PatternsDelimited();
    LiUnits();
    OccInItem(Li, e);
    if PlainEntry(e) {
      PlainEntrySpliced(Li, e);
    }
  }

  /**
   * An item whose title, url and descendants carry no markup holds a nested
   * `<ul>` exactly when its `children` is truthy.
   */
  lemma {:induction false} ItemNesting(e: NavEntry)
    ensures Occ(Ul, RenderNavItem(e)) == EntryWeight(e, 0, 1) + EntrySpliced(Ul, e)
    ensures PlainEntry(e) ==> (Occ(Ul, RenderNavItem(e)) > 0 <==> e.children.Present?)
  {
    PatternsDelimited();
    UlUnits();
    OccInItem(Ul, e);
    if PlainEntry(e) {
      PlainEntrySpliced(Ul, e);
    }
  }

  /**
   * An item whose title, url and descendants carry no markup shows a
   * triangle exactly when its `children` is truthy.
   */
  lemma {:induction false} ItemTriangles(e: NavEntry)
    ensures Occ(Glyph, RenderNavItem(e)) == EntryWeight(e, 0, 1) + EntrySpliced(Glyph, e)
    ensures PlainEntry(e) ==> (Occ(Glyph, RenderNavItem(e)) > 0 <==> e.children.Present?)
  {
    PatternsDelimited();
    GlyphUnits();
    OccInItem(Glyph, e);
    if PlainEntry(e) {
      PlainEntrySpliced(Glyph, e);
    }
  }

  /** Every entry that is expandable is an entry: the triangles never outnumber the items. */
  lemma {:induction false} ExpandableAtMostNodes(xs: seq<NavEntry>)
    ensures ExpandableCount(xs) <= NodeCount(xs)
    decreases xs
  {
    if xs != [] {
      ExpandableAtMostNodes(xs[1..]);
      assert ExpandableCount(xs) == EntryWeight(xs[0], 0, 1) + ExpandableCount(xs[1..]);
      assert NodeCount(xs) == EntryWeight(xs[0], 1, 0) + NodeCount(xs[1..]);
      match xs[0].children
      case Absent =>
      case Present(ys) =>
        ExpandableAtMostNodes(ys);
    }
  }
}
