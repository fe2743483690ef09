/**
 * What `renderNavList` does with the order of its entries: the list is the
 * rendered entries, first to last, with nothing sorted, dropped or repeated.
 */
module TopicsOrder {
  import opened Topics
  import opened Strings

  /** Reference definition: the rendered entries concatenated from first to last. */
  function Items(xs: seq<NavEntry>): string
  {
    if xs == [] then "" else RenderNavItem(xs[0]) + Items(xs[1..])
  }

  /** `join('')` distributes over concatenation of the parts. */
  lemma {:induction false} JoinAppend(a: seq<string>, b: seq<string>)
    ensures Join(a + b) == Join(a) + Join(b)
  {
    if a == [] {
      assert a + b == b;
    } else {
      assert (a + b)[1..] == a[1..] + b;
      JoinAppend(a[1..], b);
    }
  }

  /** Mapping `renderNavItem` over the entries and joining gives the reference concatenation. */
  lemma {:induction false} JoinRenderedItems(xs: seq<NavEntry>)
    ensures Join(RenderedItems(xs)) == Items(xs)
  {
    if xs != [] {
      assert RenderedItems(xs)[1..] == RenderedItems(xs[1..]);
      JoinRenderedItems(xs[1..]);
    }
  }

  /** A present list, empty or not, is `<ul>`, its entries in input order, `</ul>`. */
  lemma {:induction false} ListInOrder(xs: seq<NavEntry>)
    ensures RenderNavList(Present(xs)) == ListOpen + Items(xs) + ListClose
  {
    JoinRenderedItems(xs);
  }

  /** The entries of `xs + ys` render as those of `xs` followed by those of `ys`. */
  lemma {:induction false} ItemsAppend(xs: seq<NavEntry>, ys: seq<NavEntry>)
    ensures Items(xs + ys) == Items(xs) + Items(ys)
  {
    if xs == [] {
      assert xs + ys == ys;
    } else {
      assert (xs + ys)[0] == xs[0];
      assert (xs + ys)[1..] == xs[1..] + ys;
      ItemsAppend(xs[1..], ys);
      Assoc(RenderNavItem(xs[0]), Items(xs[1..]), Items(ys));
    }
  }

  /** Rendering a list made of two runs of entries keeps the runs, in order, inside one `<ul>`. */
  lemma {:induction false} ListAppend(xs: seq<NavEntry>, ys: seq<NavEntry>)
    ensures RenderNavList(Present(xs + ys)) == ListOpen + Items(xs) + Items(ys) + ListClose
  {
    ListInOrder(xs + ys);
    ItemsAppend(xs, ys);
    Assoc(ListOpen, Items(xs), Items(ys));
  }

  /** Cutting the entries anywhere cuts the rendering at the same place. */
  lemma {:induction false} ItemsSplit(xs: seq<NavEntry>, i: nat)
    requires i <= |xs|
    ensures Items(xs) == Items(xs[..i]) + Items(xs[i..])
  {
    assert xs == xs[..i] + xs[i..];
    ItemsAppend(xs[..i], xs[i..]);
  }

  /** Entry `i` is rendered between the entries before it and the entries after it. */
  lemma {:induction false} ItemsAt(xs: seq<NavEntry>, i: nat)
    requires i < |xs|
    ensures Items(xs) == Items(xs[..i]) + RenderNavItem(xs[i]) + Items(xs[i + 1..])
  {
    ItemsSplit(xs, i);
    var rest := xs[i..];
    assert Items(rest) == RenderNavItem(rest[0]) + Items(rest[1..]);
    assert rest[0] == xs[i] && rest[1..] == xs[i + 1..];
    Assoc(Items(xs[..i]), RenderNavItem(xs[i]), Items(xs[i + 1..]));
  }

  /**
   * Entry `i` is rendered exactly once, unchanged, right after the entries
   * before it: at offset `|ListOpen| + |Items(xs[..i])|` of the list.
   */
  lemma {:induction false} ListEntryAt(xs: seq<NavEntry>, i: nat)
    requires i < |xs|
    ensures var k := |ListOpen| + |Items(xs[..i])|;
            var r := RenderNavList(Present(xs));
            k + |RenderNavItem(xs[i])| <= |r| && r[k..k + |RenderNavItem(xs[i])|] == RenderNavItem(xs[i])
  {
    ItemsAt(xs, i);
    ListInOrder(xs);
    var b, m, a := Items(xs[..i]), RenderNavItem(xs[i]), Items(xs[i + 1..]);
    Assoc(ListOpen, b + m, a);
    Assoc(ListOpen, b, m);
    Assoc(ListOpen + b + m, a, ListClose);
    SliceMiddle(ListOpen + b, m, a + ListClose);
  }
}
