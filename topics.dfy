/**
 * The topics layout of the blog: a navigation tree rendered as nested lists,
 * wrapped in a fixed page shell (stylesheet, script, menu button, the `<nav>`
 * element and the content frame).
 *
 * The layout is pure: each function below is one of the layout's functions,
 * and the fixed text of its template literals is kept verbatim, cut into
 * short pieces at tag boundaries.
 */
module Topics {

  /** The JavaScript values an entry's `order` and `parent` fields may hold. */
  datatype JsValue =
    | Undefined
    | Null
    | Bool(b: bool)
    | Number(x: real)
    | NaN
    | Str(s: string)
    | Object   // any object or array

  /**
   * JavaScript truthiness: what `if (v)` and `!v` test. The falsy values are
   * exactly `undefined`, `null`, `false`, `0` (and `-0`), `NaN` and `""`.
   */
  predicate Truthy(v: JsValue)
    ensures Truthy(v) <==> v !in {Undefined, Null, Bool(false), Number(0.0), NaN, Str("")}
  {
    match v
    case Undefined => false
    case Null => false
    case Bool(b) => b
    case Number(x) => x != 0.0
    case NaN => false
    case Str(s) => s != ""
    case Object => true
  }

  /**
   * An optional array of entries, as `renderNavList` receives it: `Absent`
   * stands for every falsy value (undefined, null, ...), `Present` for an
   * array, which is truthy even when it is empty.
   */
  datatype NavList = Absent | Present(entries: seq<NavEntry>)

  /** One node of the navigation tree. */
  datatype NavEntry = NavEntry(
    title: string,
    url: string,
    order: JsValue,
    parent: JsValue,
    children: NavList)

  /** The part of the site generator's data the layout reads: `data.collections.nav`. */
  datatype Collections = Collections(nav: NavList)
  datatype PageData = PageData(collections: Collections)

  // Fixed text of the list-item template.
  const ItemHead := "\n    " + "<li" + " class=\""
  const LinkHead := "\">\n      " + "<a" + "\n        class=\"nav-link\"" + "\n        onclick=\"handleLinkClick(this, '"
  const LinkMid := "')\"\n        target=\"frame\"" + "\n      >\n        "
  const Gap := "\n        "
  const LinkTail := "\n      " + "</a>" + "\n      "
  const ItemTail := "\n    " + "</li>" + "\n  "

  /** The expandability marker shown after the title of an entry with children. */
  const Triangle := "<div" + " class=\"triangle\">" + "&#x25b6;" + "</div>"

  const ListOpen := "<ul>"
  const ListClose := "</ul>"

  // Fixed text of the page shell, before and after the navigation list.
  const StylesheetLine := "\n    " + "<link" + " rel=\"stylesheet\"" + " href=\"/blog/assets/topics.css\">"
  const ScriptLine := "\n    " + "<script" + " src=\"/blog/assets/topics.js\">" + "</script>"
  const ButtonLine := "\n    " + "<button" + " class=\"hamburger\" onclick=" + "\"toggleHamburgerMenu()\">" + "&#x2630;" + "</button>"
  const NavOpen := "\n    " + "<nav>" + "\n      "
  const ShellHead := StylesheetLine + ScriptLine + ButtonLine + NavOpen

  const NavClose := "\n    " + "</nav>"
  const SectionOpen := "\n    " + "<section" + " class=\"topic-content\">"
  const FrameAttributes :=
    "\n        name=\"frame\"" + "\n        onLoad={iframeLoaded(this)}" + "\n        src=\"../welcome/\"" + "\n        title=\"topic content\">"
  const Frame := "\n      " + "<iframe" + FrameAttributes + "</iframe>"
  const SectionClose := "\n    " + "</section>" + "\n  "
  const ShellTail := NavClose + SectionOpen + Frame + SectionClose

  /**
   * The class attribute of an entry's `<li>`: " ordered" when `order` is
   * truthy, then " top" when `parent` is falsy.
   */
  function Classes(e: NavEntry): string
  {
    (if Truthy(e.order) then " ordered" else "") + (if !Truthy(e.parent) then " top" else "")
  }

  /** The triangle when `children` is truthy (an empty array included), nothing otherwise. */
  function Marker(children: NavList): (m: string)
    ensures m == "" <==> children.Absent?
  {
    if children.Present? then Triangle else ""
  }

  /** `renderNavItem`: one entry as an `<li>`, with its children's list nested inside. */
  function RenderNavItem(e: NavEntry): (r: string)
  {
    ItemHead + Classes(e) + LinkHead + e.url + LinkMid + e.title + Gap + Marker(e.children) + LinkTail
    + RenderNavList(e.children) + ItemTail
  }

  /** `entries.map(renderNavItem)`: one rendered item per entry, in the same order. */
  function RenderedItems(xs: seq<NavEntry>): (items: seq<string>)
    ensures |items| == |xs|
    ensures forall i | 0 <= i < |xs| :: items[i] == RenderNavItem(xs[i])
  {
    if xs == [] then [] else [RenderNavItem(xs[0])] + RenderedItems(xs[1..])
  }

  /** The summed length of the parts. */
  function TotalLength(parts: seq<string>): nat
  {
    if parts == [] then 0 else |parts[0]| + TotalLength(parts[1..])
  }

  /**
   * `Array.prototype.join('')`: the parts one after another, in order. With
   * an empty separator nothing is added between them, and each part is kept
   * whole: the first part leads the result.
   */
  function Join(parts: seq<string>): (s: string)
    ensures |s| == TotalLength(parts)
    ensures parts != [] ==> s[..|parts[0]|] == parts[0]
  {
    if parts == [] then "" else parts[0] + Join(parts[1..])
  }

  /**
   * `renderNavList`: nothing for a falsy argument, otherwise the rendered
   * items inside `<ul>` ... `</ul>`; an empty array gives `<ul></ul>`.
   */
  function RenderNavList(entries: NavList): (r: string)
    ensures r == "" <==> entries.Absent?
    ensures entries.Present? ==>
              |r| >= |ListOpen| + |ListClose| && r[..|ListOpen|] == ListOpen && r[|r| - |ListClose|..] == ListClose
  {
    match entries
    case Absent => ""
    case Present(xs) => ListOpen + Join(RenderedItems(xs)) + ListClose
  }

  /** `exports.render`: the navigation list of `data.collections.nav` inside the fixed page shell. */
  function Render(data: PageData): (r: string)
    ensures |r| >= |ShellHead| + |ShellTail|
    ensures r[..|ShellHead|] == ShellHead && r[|r| - |ShellTail|..] == ShellTail
  {
    ShellHead + RenderNavList(data.collections.nav) + ShellTail
  }
}
