/**
 * A read-only model of the parsed HTML tree and of the BeautifulSoup lookups the
 * report parser relies on: find, find_all, find_parent, find_all(recursive=False),
 * the `.string` property and get_text(strip=True).
 *
 * Searches return a `Loc`: the node found together with its ancestors from the
 * document root down to its parent, so that find_parent can climb above the node
 * a search started from, exactly as it does on a BeautifulSoup tree.
 */
module Dom {
  import opened Wrappers
  import opened Text

  datatype Node =
    | TextNode(text: string)
    | Element(tag: string, classes: set<string>, children: seq<Node>)

  /** A node together with its ancestor chain, root first, parent last. */
  datatype Loc = Loc(node: Node, ancestors: seq<Node>)

  /**
   * The arguments of a find call: a tag name, an optional `class_` that must be one
   * of the node's classes, and an optional `string=re.compile(lit)`, which holds
   * when the node's `.string` exists and contains `lit`.
   */
  datatype Selector = Selector(tag: string, cls: Option<string>, text: Option<string>)

  /** BeautifulSoup's `.string`: the text of a node whose only content is one string, looking through single children. */
  function OwnString(n: Node): Option<string>
  {
    match n
    case TextNode(s) => Some(s)
    case Element(_, _, kids) => if |kids| == 1 then OwnString(kids[0]) else None
  }

  predicate Matches(sel: Selector, n: Node)
  {
    && n.Element?
    && n.tag == sel.tag
    && (sel.cls.Some? ==> sel.cls.value in n.classes)
    && (sel.text.Some? ==> OwnString(n).Some? && Contains(OwnString(n).value, sel.text.value))
  }

  /** Every descendant of `n` (not `n` itself) in document order; `path` is the ancestor chain of `n`. */
  function Descendants(n: Node, path: seq<Node>): seq<Loc>
    decreases n, 1
  {
    if n.TextNode? then [] else ChildrenDescendants(n, path + [n], 0)
  }

  function ChildrenDescendants(n: Node, path: seq<Node>, i: nat): seq<Loc>
    requires n.Element?
    decreases n, 0, |n.children| - i
  {
    if i >= |n.children| then []
    else [Loc(n.children[i], path)] + Descendants(n.children[i], path) + ChildrenDescendants(n, path, i + 1)
  }

  /** The index of the first location whose node matches. */
  function FirstMatch(locs: seq<Loc>, sel: Selector): (r: Option<nat>)
    ensures r.Some? ==> r.value < |locs| && Matches(sel, locs[r.value].node)
    ensures r.Some? ==> forall k :: 0 <= k < r.value ==> !Matches(sel, locs[k].node)
    ensures r.None? ==> forall k :: 0 <= k < |locs| ==> !Matches(sel, locs[k].node)
  {
    if locs == [] then None
    else if Matches(sel, locs[0].node) then Some(0)
    else match FirstMatch(locs[1..], sel)
      case None => None
      case Some(k) => Some(k + 1)
  }

  /** The locations whose nodes match, in their original order. */
  function Filter(locs: seq<Loc>, sel: Selector): (r: seq<Loc>)
    ensures |r| <= |locs|
    ensures forall l :: l in r ==> l in locs && Matches(sel, l.node)
    ensures forall l :: l in locs && Matches(sel, l.node) ==> l in r
  {
    if locs == [] then []
    else (if Matches(sel, locs[0].node) then [locs[0]] else []) + Filter(locs[1..], sel)
  }

  /** `l` is the first of `locs` whose node matches `sel`: every location before it fails to match. */
  predicate FirstMatching(locs: seq<Loc>, l: Loc, sel: Selector)
  {
    exists k :: 0 <= k < |locs| && locs[k] == l && Matches(sel, l.node) && forall j :: 0 <= j < k ==> !Matches(sel, locs[j].node)
  }

  /** `tag.find(...)`: the first matching descendant in document order, if any. */
  function Find(at: Loc, sel: Selector): (r: Option<Loc>)
    ensures r.Some? ==> r.value in Descendants(at.node, at.ancestors) && Matches(sel, r.value.node)
    ensures r.Some? ==> FirstMatching(Descendants(at.node, at.ancestors), r.value, sel)
    ensures r.None? <==> forall l :: l in Descendants(at.node, at.ancestors) ==> !Matches(sel, l.node)
  {
    var ds := Descendants(at.node, at.ancestors);
    match FirstMatch(ds, sel)
    case None => None
    case Some(k) => Some(ds[k])
  }

  /** `tag.find_all(...)`: every matching descendant in document order. */
  function FindAll(at: Loc, sel: Selector): seq<Loc>
  {
    Filter(Descendants(at.node, at.ancestors), sel)
  }

  /** The direct children of a node, each with its ancestor chain. */
  function ChildLocs(at: Loc): seq<Loc>
  {
    if at.node.TextNode? then []
    else
      seq(|at.node.children|, i requires 0 <= i < |at.node.children| =>
        Loc(at.node.children[i], at.ancestors + [at.node]))
  }

  /** `tag.find_all([name], recursive=False)`: the direct children with that tag name. */
  function ChildElements(at: Loc, tag: string): seq<Loc>
  {
    Filter(ChildLocs(at), Selector(tag, None, None))
  }

  /** The largest index below `n` whose node matches. */
  function LastMatch(nodes: seq<Node>, sel: Selector, n: nat): (r: Option<nat>)
    requires n <= |nodes|
    ensures r.Some? ==> r.value < n && Matches(sel, nodes[r.value])
    ensures r.Some? ==> forall j :: r.value < j < n ==> !Matches(sel, nodes[j])
    ensures r.None? ==> forall j :: 0 <= j < n ==> !Matches(sel, nodes[j])
  {
    if n == 0 then None
    else if Matches(sel, nodes[n - 1]) then Some(n - 1)
    else LastMatch(nodes, sel, n - 1)
  }

  /** `tag.find_parent(...)`: the nearest matching ancestor, with its own ancestor chain. */
  function FindParent(at: Loc, sel: Selector): (r: Option<Loc>)
    ensures r.Some? ==> Matches(sel, r.value.node)
    ensures r.Some? ==>
      |r.value.ancestors| < |at.ancestors| && r.value.node == at.ancestors[|r.value.ancestors|]
      && r.value.ancestors == at.ancestors[..|r.value.ancestors|]
      && forall j :: |r.value.ancestors| < j < |at.ancestors| ==> !Matches(sel, at.ancestors[j])
    ensures r.None? <==> forall j :: 0 <= j < |at.ancestors| ==> !Matches(sel, at.ancestors[j])
  {
    match LastMatch(at.ancestors, sel, |at.ancestors|)
    case None => None
    case Some(k) => Some(Loc(at.ancestors[k], at.ancestors[..k]))
  }

  /**
   * The stripped, non-empty text leaves below `n` in document order. Child subtrees
   * matching `removed` are skipped: that is what get_text sees after those
   * elements were decompose()d.
   */
  function Strings(n: Node, removed: Option<Selector>): (r: seq<string>)
    ensures forall k :: 0 <= k < |r| ==> r[k] != [] && IsStripped(r[k])
    decreases n, 1
  {
    match n
    case TextNode(s) => if Strip(s) == [] then [] else [Strip(s)]
    case Element(_, _, _) => ChildStrings(n, removed, 0)
  }

  function ChildStrings(n: Node, removed: Option<Selector>, i: nat): (r: seq<string>)
    requires n.Element?
    ensures forall k :: 0 <= k < |r| ==> r[k] != [] && IsStripped(r[k])
    decreases n, 0, |n.children| - i
  {
    if i >= |n.children| then []
    else
      (if removed.Some? && Matches(removed.value, n.children[i]) then [] else Strings(n.children[i], removed))
      + ChildStrings(n, removed, i + 1)
  }

  lemma {:induction false} ConcatOfStripped(parts: seq<string>)
    requires forall k :: 0 <= k < |parts| ==> parts[k] != [] && IsStripped(parts[k])
    ensures IsStripped(Concat(parts))
    ensures Concat(parts) == [] <==> parts == []
  {
    if parts != [] {
      ConcatOfStripped(parts[1..]);
    }
  }

  /** get_text(strip=True): the stripped leaves joined with no separator; empty exactly when there are none. */
  function GetText(n: Node): (r: string)
    ensures IsStripped(r)
    ensures r == [] <==> Strings(n, None) == []
  {
    ConcatOfStripped(Strings(n, None));
    Concat(Strings(n, None))
  }

  /** get_text(strip=True) after every descendant matching `removed` was decompose()d. */
  function GetTextWithout(n: Node, removed: Selector): (r: string)
    ensures IsStripped(r)
    ensures r == [] <==> Strings(n, Some(removed)) == []
  {
    ConcatOfStripped(Strings(n, Some(removed)));
    Concat(Strings(n, Some(removed)))
  }
}
