/**
 * Link discovery in a fetched page: a pre-order walk of the HTML tree that
 * collects pages from `<a href>` and resources from `src` of img, script, link
 * and source elements and from `href` of stylesheet links. The HTML parser,
 * `url.Parse` and `ResolveReference` are inputs of the model.
 */
module Parser {
  import opened Wrappers
  import opened Urls

  datatype Attr = Attr(key: string, val: string)

  /** An HTML node: an element with its tag, attributes and children, or any other node with its children. */
  datatype Node =
    | Element(tag: string, attrs: seq<Attr>, children: seq<Node>)
    | Other(children: seq<Node>)

  /** `url.Parse` (None for a parse error) and `base.ResolveReference(ref)`, left uninterpreted. */
  datatype UrlLib = UrlLib(parse: string -> Option<Url>, resolve: (Url, Url) -> Url)

  /** Which of the two result lists is meant. */
  datatype Kind = Pages | Resources

  /** The filter on pages: same host, not mailto, no fragment, a non-empty path. */
  predicate IsPage(u: Url, base: Url) {
    u.host == base.host && u.scheme != "mailto" && u.fragment == "" && u.path != ""
  }

  /** The page one attribute of an `<a>` element contributes: none, or its resolved `href`. */
  function HrefPage(a: Attr, base: Url, lib: UrlLib): seq<Url> {
    if a.key == "href" then
      match lib.parse(a.val)
      case None => []
      case Some(link) =>
        var abs := lib.resolve(base, link);
        if IsPage(abs, base) then [abs] else []
    else []
  }

  /** The pages of an `<a>` element's attributes, in attribute order. */
  function AnchorPages(attrs: seq<Attr>, base: Url, lib: UrlLib): seq<Url>
    decreases |attrs|
  {
    if attrs == [] then []
    else AnchorPages(attrs[..|attrs| - 1], base, lib) + HrefPage(attrs[|attrs| - 1], base, lib)
  }

  predicate IsResourceTag(tag: string) {
    tag == "img" || tag == "script" || tag == "link" || tag == "source"
  }

  predicate IsResourceAttr(tag: string, key: string) {
    key == "src" || (key == "href" && tag == "link")
  }

  /** Some attribute is `rel="stylesheet"`. */
  predicate IsStylesheet(attrs: seq<Attr>) {
    exists i :: 0 <= i < |attrs| && attrs[i].key == "rel" && attrs[i].val == "stylesheet"
  }

  /** The resource one attribute contributes; `stylesheet` says whether the element is a stylesheet link. */
  function AttrResource(tag: string, stylesheet: bool, a: Attr, base: Url, lib: UrlLib): seq<Url> {
    if IsResourceAttr(tag, a.key) then
      match lib.parse(a.val)
      case None => []
      case Some(res) =>
        var abs := lib.resolve(base, res);
        if abs.host == base.host && (tag != "link" || stylesheet) then [abs] else []
    else []
  }

  /** The resources of a resource element's attributes, in attribute order. */
  function TagResources(tag: string, stylesheet: bool, attrs: seq<Attr>, base: Url, lib: UrlLib): seq<Url>
    decreases |attrs|
  {
    if attrs == [] then []
    else TagResources(tag, stylesheet, attrs[..|attrs| - 1], base, lib) + AttrResource(tag, stylesheet, attrs[|attrs| - 1], base, lib)
  }

  /** What one node contributes by itself, before its children. */
  function Own(k: Kind, n: Node, base: Url, lib: UrlLib): seq<Url> {
    match n
    case Other(_) => []
    case Element(tag, attrs, _) =>
      if k == Pages then
        if tag == "a" then AnchorPages(attrs, base, lib) else []
      else if IsResourceTag(tag) then TagResources(tag, IsStylesheet(attrs), attrs, base, lib)
      else []
  }

  /** Everything `traverse` appends for the subtree at `n`: the node's own links, then each child's subtree in order. */
  function Collected(k: Kind, n: Node, base: Url, lib: UrlLib): seq<Url>
    decreases n
  {
    Own(k, n, base, lib) + CollectedAll(k, n.children, base, lib)
  }

  function CollectedAll(k: Kind, cs: seq<Node>, base: Url, lib: UrlLib): seq<Url>
    decreases cs
  {
    if cs == [] then []
    else CollectedAll(k, cs[..|cs| - 1], base, lib) + Collected(k, cs[|cs| - 1], base, lib)
  }

  lemma AppendAssoc(a: seq<Url>, b: seq<Url>, c: seq<Url>)
    ensures a + b + c == a + (b + c)
  {
  }

  lemma CollectedAllStep(k: Kind, cs: seq<Node>, i: int, base: Url, lib: UrlLib)
    requires 0 <= i < |cs|
    ensures CollectedAll(k, cs[..i + 1], base, lib) == CollectedAll(k, cs[..i], base, lib) + Collected(k, cs[i], base, lib)
  {
    assert cs[..i + 1][..i] == cs[..i];
  }

  /** The `rel` search of a `<link>`: the loop stops at the first `rel="stylesheet"`. */
  method StylesheetRel(attrs: seq<Attr>) returns (rel: string)
    ensures rel == "stylesheet" <==> IsStylesheet(attrs)
    ensures rel == "" || rel == "stylesheet"
  {
    rel := "";
    var i := 0;
    while i < |attrs|
      invariant 0 <= i <= |attrs|
      invariant forall k :: 0 <= k < i ==> !(attrs[k].key == "rel" && attrs[k].val == "stylesheet")
      invariant rel == ""
    {
      if attrs[i].key == "rel" && attrs[i].val == "stylesheet" {
        rel := attrs[i].val;
        break;
      }
      i := i + 1;
    }
  }

  /** The `case "a"` branch: each parsable `href` resolved and kept when it passes the page filter. */
  method AnchorLinks(attrs: seq<Attr>, base: Url, lib: UrlLib, pages0: seq<Url>) returns (pages: seq<Url>)
    ensures pages == pages0 + AnchorPages(attrs, base, lib)
  {
    pages := pages0;
    var i := 0;
    while i < |attrs|
      invariant 0 <= i <= |attrs|
      invariant pages == pages0 + AnchorPages(attrs[..i], base, lib)
    {
      assert attrs[..i + 1][..i] == attrs[..i];
      var attr := attrs[i];
      if attr.key == "href" {
        var link := lib.parse(attr.val);
        if link.Some? {
          var absLink := lib.resolve(base, link.value);
          if absLink.host == base.host && absLink.scheme != "mailto" && absLink.fragment == "" && absLink.path != "" {
            pages := pages + [absLink];
          }
        }
      }
      i := i + 1;
    }
    assert attrs[..i] == attrs;
  }

  /** The resource branch: each parsable `src` (or a link's `href`) of the same host, for a link only a stylesheet one. */
  method ResourceLinks(tag: string, attrs: seq<Attr>, base: Url, lib: UrlLib, resources0: seq<Url>)
    returns (resources: seq<Url>)
    ensures resources == resources0 + TagResources(tag, IsStylesheet(attrs), attrs, base, lib)
  {
    resources := resources0;
    var i := 0;
    while i < |attrs|
      invariant 0 <= i <= |attrs|
      invariant resources == resources0 + TagResources(tag, IsStylesheet(attrs), attrs[..i], base, lib)
    {
      assert attrs[..i + 1][..i] == attrs[..i];
      resources := ResourceOf(tag, attrs, attrs[i], base, lib, resources);
      i := i + 1;
    }
    assert attrs[..i] == attrs;
  }

  /** One pass of the resource loop: attribute `a` of the element whose attributes are `attrs`. */
  method ResourceOf(tag: string, attrs: seq<Attr>, a: Attr, base: Url, lib: UrlLib, resources0: seq<Url>)
    returns (resources: seq<Url>)
    ensures resources == resources0 + AttrResource(tag, IsStylesheet(attrs), a, base, lib)
  {
    resources := resources0;
    if a.key == "src" || (a.key == "href" && tag == "link") {
      var res := lib.parse(a.val);
      if res.Some? {
        var absRes := lib.resolve(base, res.value);
        if absRes.host == base.host {
          if tag == "link" {
            var rel := StylesheetRel(attrs);
            if rel != "stylesheet" {
              return;
            }
          }
          resources := resources + [absRes];
        }
      }
    }
  }

  /** `traverse`: the node's own attributes first, then its children from first to last. */
  method Traverse(n: Node, base: Url, lib: UrlLib, pages0: seq<Url>, resources0: seq<Url>)
    returns (pages: seq<Url>, resources: seq<Url>)
    ensures pages == pages0 + Collected(Pages, n, base, lib)
    ensures resources == resources0 + Collected(Resources, n, base, lib)
    decreases n
  {
    pages, resources := pages0, resources0;
    if n.Element? {
      if n.tag == "a" {
        pages := AnchorLinks(n.attrs, base, lib, pages);
      } else if IsResourceTag(n.tag) {
        resources := ResourceLinks(n.tag, n.attrs, base, lib, resources);
      }
    }
    assert pages == pages0 + Own(Pages, n, base, lib);
    assert resources == resources0 + Own(Resources, n, base, lib);
    pages, resources := TraverseChildren(n.children, base, lib, pages, resources);
    AppendAssoc(pages0, Own(Pages, n, base, lib), CollectedAll(Pages, n.children, base, lib));
    AppendAssoc(resources0, Own(Resources, n, base, lib), CollectedAll(Resources, n.children, base, lib));
  }

  /** The sibling loop of `traverse`: each child's subtree in turn. */
  method TraverseChildren(cs: seq<Node>, base: Url, lib: UrlLib, pages0: seq<Url>, resources0: seq<Url>)
    returns (pages: seq<Url>, resources: seq<Url>)
    ensures pages == pages0 + CollectedAll(Pages, cs, base, lib)
    ensures resources == resources0 + CollectedAll(Resources, cs, base, lib)
    decreases cs
  {
    pages, resources := pages0, resources0;
    var i := 0;
    while i < |cs|
      invariant 0 <= i <= |cs|
      invariant pages == pages0 + CollectedAll(Pages, cs[..i], base, lib)
      invariant resources == resources0 + CollectedAll(Resources, cs[..i], base, lib)
    {
      var child := cs[i];
      pages, resources := Traverse(child, base, lib, pages, resources);
      CollectedAllStep(Pages, cs, i, base, lib);
      CollectedAllStep(Resources, cs, i, base, lib);
      AppendAssoc(pages0, CollectedAll(Pages, cs[..i], base, lib), Collected(Pages, child, base, lib));
      AppendAssoc(resources0, CollectedAll(Resources, cs[..i], base, lib), Collected(Resources, child, base, lib));
      i := i + 1;
    }
    assert cs[..i] == cs;
  }

  /** `ParseHTML` on what `html.Parse` made of the body: its error, or the walk of the document. */
  method ParseHtml(doc: Result<Node, string>, base: Url, lib: UrlLib)
    returns (r: Result<(seq<Url>, seq<Url>), string>)
    ensures doc.Err? ==> r == Err(doc.error)
    ensures doc.Ok? ==> r == Ok((Collected(Pages, doc.value, base, lib), Collected(Resources, doc.value, base, lib)))
  {
    if doc.Err? {
      return Err(doc.error);
    }
    var pages, resources := Traverse(doc.value, base, lib, [], []);
    assert pages == Collected(Pages, doc.value, base, lib);
    assert resources == Collected(Resources, doc.value, base, lib);
    return Ok((pages, resources));
  }

  /** One `href` attribute yields page `u`: it parses, resolves to `u`, and `u` passes the page filter. */
  predicate PageFrom(a: Attr, base: Url, lib: UrlLib, u: Url) {
    a.key == "href" && lib.parse(a.val).Some? && u == lib.resolve(base, lib.parse(a.val).value) && IsPage(u, base)
  }

  /** The pages of an `<a>` are exactly the qualifying resolutions of its `href` attributes. */
  lemma {:induction false} AnchorPagesIff(attrs: seq<Attr>, base: Url, lib: UrlLib, u: Url)
    ensures u in AnchorPages(attrs, base, lib) <==> exists i :: 0 <= i < |attrs| && PageFrom(attrs[i], base, lib, u)
    decreases |attrs|
  {
    if attrs != [] {
      var init := attrs[..|attrs| - 1];
      AnchorPagesIff(init, base, lib, u);
      if exists i :: 0 <= i < |init| && PageFrom(init[i], base, lib, u) {
        var i :| 0 <= i < |init| && PageFrom(init[i], base, lib, u);
        assert attrs[i] == init[i];
      }
      if i :| 0 <= i < |attrs| && PageFrom(attrs[i], base, lib, u) {
        if i < |init| {
          assert init[i] == attrs[i];
        }
      }
    }
  }

  /** One attribute of a resource element yields resource `u`. */
  predicate ResourceFrom(tag: string, stylesheet: bool, a: Attr, base: Url, lib: UrlLib, u: Url) {
    && IsResourceAttr(tag, a.key)
    && lib.parse(a.val).Some?
    && u == lib.resolve(base, lib.parse(a.val).value)
    && u.host == base.host
    && (tag == "link" ==> stylesheet)
  }

  /** A resource element's resources are exactly the same-host resolutions of its qualifying attributes. */
  lemma {:induction false} TagResourcesIff(tag: string, stylesheet: bool, attrs: seq<Attr>, base: Url, lib: UrlLib, u: Url)
    ensures u in TagResources(tag, stylesheet, attrs, base, lib) <==>
      exists i :: 0 <= i < |attrs| && ResourceFrom(tag, stylesheet, attrs[i], base, lib, u)
    decreases |attrs|
  {
    if attrs != [] {
      var init := attrs[..|attrs| - 1];
      TagResourcesIff(tag, stylesheet, init, base, lib, u);
      if exists i :: 0 <= i < |init| && ResourceFrom(tag, stylesheet, init[i], base, lib, u) {
        var i :| 0 <= i < |init| && ResourceFrom(tag, stylesheet, init[i], base, lib, u);
        assert attrs[i] == init[i];
      }
      if i :| 0 <= i < |attrs| && ResourceFrom(tag, stylesheet, attrs[i], base, lib, u) {
        if i < |init| {
          assert init[i] == attrs[i];
        }
      }
    }
  }

  /** A `<link>` without `rel="stylesheet"` contributes no resource, whatever its `href`. */
  lemma {:induction false} NonStylesheetLinkIgnored(attrs: seq<Attr>, children: seq<Node>, base: Url, lib: UrlLib)
    requires !IsStylesheet(attrs)
    ensures Own(Resources, Element("link", attrs, children), base, lib) == []
  {
    NoStylesheetNoResources(attrs, base, lib);
  }

  lemma {:induction false} NoStylesheetNoResources(attrs: seq<Attr>, base: Url, lib: UrlLib)
    ensures TagResources("link", false, attrs, base, lib) == []
    decreases |attrs|
  {
    if attrs != [] {
      NoStylesheetNoResources(attrs[..|attrs| - 1], base, lib);
    }
  }

  /** The nodes of a tree in document pre-order: the node, then each child's subtree from first to last. */
  function Preorder(n: Node): seq<Node>
    decreases n
  {
    [n] + PreorderAll(n.children)
  }

  function PreorderAll(cs: seq<Node>): seq<Node>
    decreases cs
  {
    if cs == [] then [] else PreorderAll(cs[..|cs| - 1]) + Preorder(cs[|cs| - 1])
  }

  /** Each node's own links, node after node. */
  function Flatten(k: Kind, nodes: seq<Node>, base: Url, lib: UrlLib): seq<Url>
    decreases |nodes|
  {
    if nodes == [] then [] else Own(k, nodes[0], base, lib) + Flatten(k, nodes[1..], base, lib)
  }

  lemma {:induction false} FlattenAppend(k: Kind, a: seq<Node>, b: seq<Node>, base: Url, lib: UrlLib)
    ensures Flatten(k, a + b, base, lib) == Flatten(k, a, base, lib) + Flatten(k, b, base, lib)
    decreases |a|
  {
    if a != [] {
      assert (a + b)[0] == a[0];
      assert (a + b)[1..] == a[1..] + b;
      FlattenAppend(k, a[1..], b, base, lib);
    } else {
      assert a + b == b;
    }
  }

  /** The walk's output is every node's own links in document pre-order. */
  lemma {:induction false} CollectedIsPreorder(k: Kind, n: Node, base: Url, lib: UrlLib)
    ensures Collected(k, n, base, lib) == Flatten(k, Preorder(n), base, lib)
    decreases n
  {
    CollectedAllIsPreorder(k, n.children, base, lib);
    FlattenAppend(k, [n], PreorderAll(n.children), base, lib);
  }

  lemma {:induction false} CollectedAllIsPreorder(k: Kind, cs: seq<Node>, base: Url, lib: UrlLib)
    ensures CollectedAll(k, cs, base, lib) == Flatten(k, PreorderAll(cs), base, lib)
    decreases cs
  {
    if cs != [] {
      CollectedAllIsPreorder(k, cs[..|cs| - 1], base, lib);
      CollectedIsPreorder(k, cs[|cs| - 1], base, lib);
      FlattenAppend(k, PreorderAll(cs[..|cs| - 1]), Preorder(cs[|cs| - 1]), base, lib);
    }
  }

  lemma {:induction false} FlattenMembership(k: Kind, nodes: seq<Node>, base: Url, lib: UrlLib, u: Url)
    ensures u in Flatten(k, nodes, base, lib) <==> exists j :: 0 <= j < |nodes| && u in Own(k, nodes[j], base, lib)
    decreases |nodes|
  {
    if nodes != [] {
      FlattenMembership(k, nodes[1..], base, lib, u);
      if j :| 0 <= j < |nodes[1..]| && u in Own(k, nodes[1..][j], base, lib) {
        assert nodes[j + 1] == nodes[1..][j];
      }
      if j :| 0 <= j < |nodes| && u in Own(k, nodes[j], base, lib) {
        if j > 0 {
          assert nodes[1..][j - 1] == nodes[j];
        }
      }
    }
  }

  /** Every page found passes the page filter: same host, not mailto, no fragment, non-empty path. */
  lemma PagesQualify(n: Node, base: Url, lib: UrlLib, u: Url)
    requires u in Collected(Pages, n, base, lib)
    ensures IsPage(u, base)
  {
    CollectedIsPreorder(Pages, n, base, lib);
    FlattenMembership(Pages, Preorder(n), base, lib, u);
    var j :| 0 <= j < |Preorder(n)| && u in Own(Pages, Preorder(n)[j], base, lib);
    var m := Preorder(n)[j];
    AnchorPagesIff(m.attrs, base, lib, u);
  }

  /** Every resource found has the base's host. */
  lemma ResourcesSameHost(n: Node, base: Url, lib: UrlLib, u: Url)
    requires u in Collected(Resources, n, base, lib)
    ensures u.host == base.host
  {
    CollectedIsPreorder(Resources, n, base, lib);
    FlattenMembership(Resources, Preorder(n), base, lib, u);
    var j :| 0 <= j < |Preorder(n)| && u in Own(Resources, Preorder(n)[j], base, lib);
    var m := Preorder(n)[j];
    TagResourcesIff(m.tag, IsStylesheet(m.attrs), m.attrs, base, lib, u);
  }
}
