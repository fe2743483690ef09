# Topics layout: the navigation tree renderer

The blog's topics page is rendered by a JavaScript layout,
`src/_includes/topics.11ty.js`. The site generator hands it `data`.
`data.collections.nav` is a tree of navigation entries. Each entry has a
`title`, a `url`, an `order` and a `parent` flag, and optional `children`.
The layout has three parts:

- `renderNavItem` turns one entry into an `<li>` element. Its class string
  depends on `order` and `parent`. The url goes into an `onclick` handler and
  the title becomes the link text. A triangle marker is added when `children`
  is truthy. The children's own list is nested inside the item.
- `renderNavList` returns nothing for a falsy argument. Otherwise it returns
  the rendered entries, in order, inside `<ul>` … `</ul>`.
- `render` places `renderNavList(nav)` inside a fixed page shell: a stylesheet
  link, a script, the menu button, `<nav>`, and a section that holds the
  content frame.

The model is pure, like the source:

- `Topics` (`topics.dfy`) holds the entry datatype, JavaScript truthiness and
  the three functions. The template text is kept verbatim.
- `TopicsOrder` (`topics_order.dfy`) covers the order of the rendered entries.
- `TopicsItems` (`topics_items.dfy`) covers one item: its class string and
  where the url, title and nested list are spliced in.
- `TopicsCounts` (`topics_counts.dfy`) counts tags in the rendered tree. It
  has one `<li` per entry and one nested `<ul>` and one triangle per entry
  whose `children` is truthy.
- `TopicsPage` (`topics_page.dfy`) covers the whole page.
- `Occurrences` (`occurrences.dfy`) counts occurrences of a pattern in a
  string and how concatenation adds them up.
- `Strings` (`strings.dfy`) holds small concatenation facts.

`children` is either `Absent` or `Present(entries)`. `Absent` stands for
every falsy value. An array is truthy even when it is empty, so
`Present([])` is a list with no entries, not an absent one.

An empty array is truthy in JavaScript, and the model keeps the consequences
of that:
- `renderNavList([])` is `<ul></ul>`, not the empty string
  (`src/_includes/topics.11ty.js:40-42`).
- An entry whose `children` is an empty array still gets the triangle
  (`src/_includes/topics.11ty.js:29`).
- `render` with `nav: []` puts an empty `<ul></ul>` inside `<nav>`.

The tag counts are exact. Titles and urls are spliced in without escaping, so
a title that holds markup brings its own tags. Each count therefore carries a
`Spliced` term: the occurrences of the pattern inside every title and url of
the tree. When no title or url holds `<` or `&` (`PlainTree`), that term is
zero.

## Model

| member | source | states |
|---|---|---|
| Topics.Truthy | src/_includes/topics.11ty.js:15-16 | The values the `if (entry.order)` and `!entry.parent` tests treat as false are exactly `undefined`, `null`, `false`, `0`, `NaN` and `""`. Falsy `children` and `entries` (the `entry.children ?` and `!entries` tests) are `Absent` by construction of `NavList`. |
| Topics.Marker | src/_includes/topics.11ty.js:29 | The marker is empty exactly when `children` is falsy. An empty array gets the triangle. |
| Topics.RenderedItems | src/_includes/topics.11ty.js:41 | `entries.map(renderNavItem)` has one rendered item per entry, and item `i` is `renderNavItem(entries[i])`. |
| Topics.Join | src/_includes/topics.11ty.js:42 | `join('')` adds no separator: the result is as long as the parts together, and it begins with the first part, kept whole. |
| Topics.RenderNavList | src/_includes/topics.11ty.js:39-43 | The result is empty exactly when the argument is falsy. A present list, even an empty one, starts with `<ul>` and ends with `</ul>`. |
| Topics.Render | src/_includes/topics.11ty.js:47-66 | The page starts with the fixed shell head (stylesheet, script, button, `<nav>`) and ends with the fixed shell tail (`</nav>`, section, frame). |
| TopicsOrder.JoinAppend | src/_includes/topics.11ty.js:42 | `join('')` of two runs of parts is the join of the first run followed by the join of the second. |
| TopicsOrder.JoinRenderedItems | src/_includes/topics.11ty.js:41-42 | Mapping `renderNavItem` and joining gives the rendered entries concatenated first to last. |
| TopicsOrder.ListInOrder | src/_includes/topics.11ty.js:39-43 | A present list, empty or not, is `<ul>`, then every entry rendered in input order, then `</ul>`. Nothing is sorted, dropped or repeated. |
| TopicsOrder.ItemsAppend | src/_includes/topics.11ty.js:41-42 | The rendering of `xs + ys` is the rendering of `xs` followed by that of `ys`. |
| TopicsOrder.ItemsSplit | src/_includes/topics.11ty.js:41-42 | Cutting the entries at any index cuts their rendering at the matching place. |
| TopicsOrder.ListAppend | src/_includes/topics.11ty.js:41-42 | A list made of two runs of entries renders both runs, in order, inside one `<ul>`. |
| TopicsOrder.ItemsAt | src/_includes/topics.11ty.js:41-42 | Entry `i` is rendered between the entries before it and the entries after it. |
| TopicsOrder.ListEntryAt | src/_includes/topics.11ty.js:39-43 | Entry `i` appears unchanged in the list, at offset `<ul>` plus the length of the entries before it. |
| TopicsItems.ItemEnclosed | src/_includes/topics.11ty.js:13-34 | The contract of `renderNavItem` (`Topics.RenderNavItem`) as a whole: an item opens with `<li class="` and the class string, and closes with `</li>`. Where the url, title and nested list sit inside it is stated by `UrlSlot`, `TitleSlot` and `ListSlot`. |
| TopicsItems.ClassesShape | src/_includes/topics.11ty.js:14-16 | The contract of the class string (`Topics.Classes`): the class string is one of `""`, `" ordered"`, `" top"`, `" ordered top"`. It starts with `" ordered"` exactly when `order` is truthy and ends with `" top"` exactly when `parent` is falsy. |
| TopicsItems.UrlSlot | src/_includes/topics.11ty.js:25 | The url appears verbatim in the item, at an offset that depends only on the class string. |
| TopicsItems.TitleSlot | src/_includes/topics.11ty.js:28 | The title appears verbatim, right after the url and the rest of the `<a` opening tag. |
| TopicsItems.ListSlot | src/_includes/topics.11ty.js:31 | The nested part is exactly `renderNavList(children)`, right before `</li>`. It is empty when `children` is falsy. |
| TopicsItems.UrlDetermines | src/_includes/topics.11ty.js:25 | Changing only the url changes the item exactly when the new url differs. |
| TopicsItems.TitleDetermines | src/_includes/topics.11ty.js:28 | Changing only the title changes the item exactly when the new title differs. |
| TopicsItems.ItemSplit | src/_includes/topics.11ty.js:21-33 | An item is a part that does not depend on `children`, followed by a part that depends only on `children`. |
| TopicsItems.TrailerStart | src/_includes/topics.11ty.js:29-30 | After the title, an item with truthy `children` continues with the whole triangle, one with falsy `children` with the whole closing text of the link (line break, `</a>`, indentation). The two start with different characters. |
| TopicsItems.TrailerDetermines | src/_includes/topics.11ty.js:29-32 | The part of an item after the title is determined by the nested list, and determines it. |
| TopicsItems.ChildrenDetermine | src/_includes/topics.11ty.js:29-31 | `children` affects an item only through `renderNavList(children)`. Two values of `children` give the same item exactly when they give the same list. |
| TopicsCounts.OccInItem | src/_includes/topics.11ty.js:13-34 | The count of a delimited pattern in an item is the fixed text's count, plus the triangle and nested list when `children` is present, plus the occurrences in its titles and urls. |
| TopicsCounts.OccInItems | src/_includes/topics.11ty.js:41-42 | The count in the joined items is the sum over every entry of the tree. |
| TopicsCounts.OccInList | src/_includes/topics.11ty.js:39-43 | The count in a present list adds that of `<ul>` and `</ul>` to the sum over every entry of the tree. |
| TopicsCounts.ListItemCount | src/_includes/topics.11ty.js:13-43 | A present list holds one `<li` per entry of the tree, at any depth, plus those in its titles and urls. Without markup in them, exactly the node count. |
| TopicsCounts.ListNestingCount | src/_includes/topics.11ty.js:13-43 | A present list holds its own `<ul>` and one more per entry, at any depth, whose `children` is truthy, an empty array included. |
| TopicsCounts.TriangleCount | src/_includes/topics.11ty.js:13-43 | A present list shows one triangle per entry, at any depth, whose `children` is truthy. |
| TopicsCounts.ItemListItems | src/_includes/topics.11ty.js:13-34 | An item holds one `<li` for itself and one for each of its descendants. |
| TopicsCounts.ItemNesting | src/_includes/topics.11ty.js:31 | An item holds one nested `<ul>` per truthy `children` in its subtree. Without markup in its titles and urls, it holds a `<ul>` exactly when its own `children` is truthy. |
| TopicsCounts.ItemTriangles | src/_includes/topics.11ty.js:29 | An item shows one triangle per truthy `children` in its subtree. Without markup in its titles and urls, it shows a triangle exactly when its own `children` is truthy. |
| TopicsCounts.ExpandableAtMostNodes | src/_includes/topics.11ty.js:29-31 | Entries whose `children` is truthy never outnumber the entries, so the triangles and nested lists the template itself emits never do either. |
| TopicsCounts.PlainSpliced | src/_includes/topics.11ty.js:25-28 | Titles and urls that hold no `<` and no `&` add no tag to any count. |
| TopicsPage.PageNesting | src/_includes/topics.11ty.js:47-66 | The page holds exactly the `<ul>` of `renderNavList(nav)`, since the shell has none. It holds none exactly when `nav` is falsy. |
| TopicsPage.PageItems | src/_includes/topics.11ty.js:51-56 | The page holds one more `<li` than the navigation list, because the shell's `<link` starts with `<li`. |
| TopicsPage.PageMiddle | src/_includes/topics.11ty.js:51-65 | What lies between the shell's head and its tail is exactly `renderNavList(nav)`. |
| TopicsPage.PageDeterminedByNav | src/_includes/topics.11ty.js:51-65 | Two pages are equal exactly when their navigation lists are equal. |

## Left out

- `exports.data` (`src/_includes/topics.11ty.js:5-7`) is static front matter for the site generator and has no behaviour.
- The browser handlers named in the markup (`handleLinkClick`, `toggleHamburgerMenu`, `iframeLoaded`) run in the browser and are defined elsewhere. They appear only as text in the output. `assets/topics.js` and `_includes/top-layout.js` are not part of this model.
- The pipeline that builds `data.collections.nav` is not modelled. The tree is finite and acyclic by construction of the datatype.
- Titles and urls are modelled as strings. JavaScript would print a missing field as `undefined` and would stringify non-string values; neither is modelled.
- `children` that is truthy but not an array (an object, a number, a non-empty string) is not modelled. Truthy `children` are arrays of entries. For other values `.map` throws or behaves differently.
- `data.collections` is always present. A missing `collections` throws in the source.
- JavaScript's falsy values are modelled as `undefined`, `null`, `false`, `0`/`-0`, `NaN` and `""`. BigInt `0n` and `document.all` are left out, and numbers are exact reals rather than doubles.
- No claim is made about HTML escaping or well-formedness. The code does no escaping.
- The whitespace and indentation of the template literals is copied verbatim into constants. No property depends on it, except that it keeps tags from running into their neighbours.
- TopicsCounts.ItemNesting: the exact "if and only if" between a nested `<ul>` and truthy `children` holds only for titles and urls without `<` or `&`, because a title can itself contain `<ul>`. Otherwise the count is stated with the `Spliced` term.
- TopicsCounts.ItemTriangles: likewise, the "if and only if" for the triangle holds only for titles and urls without markup, because a title can contain the glyph entity.
- TopicsPage.PageItems: the page-level counts cover `<li` and `<ul>`. No count of triangles is stated for the whole page.
