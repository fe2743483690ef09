/**
 * The whole page that `render` returns: the navigation list inside the fixed
 * shell, and what the shell adds to the counts of the list.
 */
module TopicsPage {
  import opened Occurrences
  import opened Strings
  import opened Topics
  import opened TopicsCounts

  /** The shell ends and begins with a line break, so nothing straddles the list's edges. */
  lemma ShellEdges()
    ensures SafeEnd(ShellHead) && SafeStart(ShellTail)
  {
    assert SafeEnd(NavOpen);
    EndsSafe(StylesheetLine + ScriptLine + ButtonLine, NavOpen);
  }

  lemma {:induction false} RenderPieces(p: string, d: PageData)
    requires Delimited(p)
    ensures Occ(p, Render(d)) == Occ(p, ShellHead) + Occ(p, RenderNavList(d.collections.nav)) + Occ(p, ShellTail)
  {
    ShellEdges();
    Join3(p, ShellHead, RenderNavList(d.collections.nav), ShellTail);
  }

  // The shell's tags, against `<ul>` and `<li`. As for the template, each
  // fact about literal text is proved on its own: the `Misses` lemmas for any
  // pattern starting with `<`, the `TagCounts` lemmas for each pattern, and
  // the `ShellHead`/`ShellTail` lemmas add them up over the shell's pieces.

  /** The script and button tags of the shell's head hold no `<ul>` and no `<li`. */
  lemma {:induction false} ScriptButtonMisses(p: string)
    requires Delimited(p) && p[0] == '<' && p[1] != 's' && p[1] != '/' && p[1] != 'b'
    ensures Occ(p, "<script") + Occ(p, "</script>") + Occ(p, "<button") == 0
  {
    var ts := ["<script", "</script>", "<button"];
    Misses(p, ts);
    assert Occ(p, ts[0]) == 0 && Occ(p, ts[1]) == 0 && Occ(p, ts[2]) == 0;
  }

  /** Nor do the menu glyph, the button's end and `<nav>`. */
  lemma {:induction false} MenuNavMisses(p: string)
    requires Delimited(p) && p[0] == '<' && p[1] != '/' && p[1] != 'n'
    ensures Occ(p, "&#x2630;") + Occ(p, "</button>") + Occ(p, "<nav>") == 0
  {
    var ts := ["&#x2630;", "</button>", "<nav>"];
    Misses(p, ts);
    assert Occ(p, ts[0]) == 0 && Occ(p, ts[1]) == 0 && Occ(p, ts[2]) == 0;
  }

  /** The tags of the shell's tail hold no `<ul>` and no `<li`. */
  lemma {:induction false} ShellTailMisses(p: string)
    requires Delimited(p) && (p[0] != '<' || (p[1] != '/' && p[1] != 's' && p[1] != 'i'))
    ensures Occ(p, "</nav>") + Occ(p, "<section") + Occ(p, "<iframe") + Occ(p, "</iframe>") + Occ(p, "</section>") == 0
  {
    var ts := ["</nav>", "<section", "<iframe", "</iframe>", "</section>"];
    Misses(p, ts);
    assert Occ(p, ts[0]) == 0 && Occ(p, ts[1]) == 0 && Occ(p, ts[2]) == 0;
    assert Occ(p, ts[3]) == 0 && Occ(p, ts[4]) == 0;
  }

  lemma UlLinkFree()
    ensures Occ(Ul, "<link") == 0
  {
    PatternsDelimited();
    OccMiss(Ul, "<link", 1);
  }

  /** `<link` begins with `<li`. */
  lemma LiLinkHit()
    ensures Occ(Li, "<link") == 1
  {
    PatternsDelimited();
    OccHit(Li, "<link");
  }

  lemma UlHeadTagCounts()
    ensures Occ(Ul, "<link") + Occ(Ul, "<script") + Occ(Ul, "</script>") + Occ(Ul, "<button") + Occ(Ul, "&#x2630;")
            + Occ(Ul, "</button>") + Occ(Ul, "<nav>") == 0
  {
    PatternsDelimited();
    UlLinkFree();
    ScriptButtonMisses(Ul);
    MenuNavMisses(Ul);
  }

  lemma UlTailTagCounts()
    ensures Occ(Ul, "</nav>") + Occ(Ul, "<section") + Occ(Ul, "<iframe") + Occ(Ul, "</iframe>") + Occ(Ul, "</section>") == 0
  {
    PatternsDelimited();
    ShellTailMisses(Ul);
  }

  lemma LiHeadTagCounts()
    ensures Occ(Li, "<link") + Occ(Li, "<script") + Occ(Li, "</script>") + Occ(Li, "<button") + Occ(Li, "&#x2630;")
            + Occ(Li, "</button>") + Occ(Li, "<nav>") == 1
  {
    PatternsDelimited();
    LiLinkHit();
    ScriptButtonMisses(Li);
    MenuNavMisses(Li);
  }

  lemma LiTailTagCounts()
    ensures Occ(Li, "</nav>") + Occ(Li, "<section") + Occ(Li, "<iframe") + Occ(Li, "</iframe>") + Occ(Li, "</section>") == 0
  {
    PatternsDelimited();
    ShellTailMisses(Li);
  }

  lemma UlShellHead()
    ensures Occ(Ul, ShellHead) == 0
  {
    PatternsDelimited();
    ShellHeadTags(Ul);
    UlHeadTagCounts();
  }

  lemma UlShellTail()
    ensures Occ(Ul, ShellTail) == 0
  {
    PatternsDelimited();
    ShellTailTags(Ul);
    UlTailTagCounts();
  }

  lemma LiShellHead()
    ensures Occ(Li, ShellHead) == 1
  {
    PatternsDelimited();
    ShellHeadTags(Li);
    LiHeadTagCounts();
  }

  lemma LiShellTail()
    ensures Occ(Li, ShellTail) == 0
  {
    PatternsDelimited();
    ShellTailTags(Li);
    LiTailTagCounts();
  }

  /**
   * The page holds exactly the `<ul>` of the navigation list: none when
   * `collections.nav` is falsy, at least one when it is an array, even an
   * empty one.
   */
  lemma {:induction false} PageNesting(d: PageData)
    ensures Occ(Ul, Render(d)) == Occ(Ul, RenderNavList(d.collections.nav))
    ensures Occ(Ul, Render(d)) == 0 <==> d.collections.nav.Absent?
  {
    PatternsDelimited();
    RenderPieces(Ul, d);
    UlShellHead();
    UlShellTail();
    match d.collections.nav
    case Absent =>
    case Present(xs) =>
      ListNestingCount(xs);
  }

  /**
   * The page holds the `<li` of the navigation list and one more: the shell's
   * `<link` tag begins with the same three characters.
   */
  lemma {:induction false} PageItems(d: PageData)
    ensures Occ(Li, Render(d)) == 1 + Occ(Li, RenderNavList(d.collections.nav))
  {
    PatternsDelimited();
    RenderPieces(Li, d);
    LiShellHead();
    LiShellTail();
  }

  /** Between the shell's head and its tail the page holds exactly `renderNavList(nav)`. */
  lemma {:induction false} PageMiddle(d: PageData)
    ensures var r := Render(d);
            r[|ShellHead|..|r| - |ShellTail|] == RenderNavList(d.collections.nav)
  {
    SliceMiddle(ShellHead, RenderNavList(d.collections.nav), ShellTail);
  }

  /** The page is determined by the navigation list, and determines it. */
  lemma {:induction false} PageDeterminedByNav(d1: PageData, d2: PageData)
    ensures Render(d1) == Render(d2) <==> RenderNavList(d1.collections.nav) == RenderNavList(d2.collections.nav)
  {
    var n1, n2 := RenderNavList(d1.collections.nav), RenderNavList(d2.collections.nav);
    if Render(d1) == Render(d2) {
      SliceMiddle(ShellHead, n1, ShellTail);
      SliceMiddle(ShellHead, n2, ShellTail);
      assert |n1| == |n2|;
    }
  }
}
