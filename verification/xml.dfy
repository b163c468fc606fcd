/**
 * The game's definition files as an abstract element tree: a tag, attributes, the text
 * directly inside the element (absent for `<li/>`) and the child elements in document
 * order. The lookups are the few ElementTree paths the scripts use.
 */
module Xml {
  import opened Wrappers

  datatype Node = Node(tag: string, attrs: map<string, string>, text: Option<string>, children: seq<Node>)

  /** The first node of `cs` with the tag. */
  function First(cs: seq<Node>, tag: string): (r: Option<Node>)
    ensures r.Some? ==> r.value in cs && r.value.tag == tag
    ensures r.None? <==> forall c :: c in cs ==> c.tag != tag
    decreases |cs|
  {
    if |cs| == 0 then None
    else if cs[0].tag == tag then Some(cs[0])
    else First(cs[1..], tag)
  }

  /** `n.find(tag)` */
  function Find(n: Node, tag: string): Option<Node> {
    First(n.children, tag)
  }

  /**
   * `n.findtext(tag)`: the text of the first child with the tag, "" when that child has
   * no text, nothing when there is no such child.
   */
  function FindText(n: Node, tag: string): (r: Option<string>)
    ensures r.None? <==> forall c :: c in n.children ==> c.tag != tag
  {
    match Find(n, tag)
    case None => None
    case Some(c) => Some(c.text.GetOr(""))
  }

  /** The nodes of `cs` with the tag, in order (`n.iterfind(tag)` over `n.children`). */
  function Kids(cs: seq<Node>, tag: string): (r: seq<Node>)
    ensures |r| <= |cs|
    ensures forall c :: c in r ==> c in cs && c.tag == tag
    decreases |cs|
  {
    if |cs| == 0 then []
    else (if cs[0].tag == tag then [cs[0]] else []) + Kids(cs[1..], tag)
  }

  /** All children of the given nodes, one node after another. */
  function Flatten(ns: seq<Node>): seq<Node>
    decreases |ns|
  {
    if |ns| == 0 then [] else ns[0].children + Flatten(ns[1..])
  }

  /** `n.iterfind` with a wildcard step after `group`: every child of every `group` child. */
  function Under(n: Node, group: string): seq<Node> {
    Flatten(Kids(n.children, group))
  }

  /** `n.iterfind("./group/li")`: the `li` children of every `group` child. */
  function Items(n: Node, group: string): (r: seq<Node>)
    ensures forall c :: c in r ==> c.tag == "li"
  {
    Kids(Under(n, group), "li")
  }

  /** The `.text` of each node. */
  function Texts(ns: seq<Node>): (r: seq<Option<string>>)
    ensures |r| == |ns| && forall i :: 0 <= i < |ns| ==> r[i] == ns[i].text
  {
    seq(|ns|, i requires 0 <= i < |ns| => ns[i].text)
  }

  /** `n.extend(parent)`: the parent's children are appended after the node's own. */
  function Extend(n: Node, parent: Node): (r: Node)
    ensures r.tag == n.tag && r.attrs == n.attrs && r.text == n.text
    ensures |r.children| == |n.children| + |parent.children|
    ensures r.children[..|n.children|] == n.children && r.children[|n.children|..] == parent.children
  {
    n.(children := n.children + parent.children)
  }

  lemma {:induction false} FirstAppend(a: seq<Node>, b: seq<Node>, tag: string)
    ensures First(a + b, tag) == if First(a, tag).Some? then First(a, tag) else First(b, tag)
    decreases |a|
  {
    if |a| > 0 {
      assert (a + b)[0] == a[0];
      assert (a + b)[1..] == a[1..] + b;
      FirstAppend(a[1..], b, tag);
    } else {
      assert a + b == b;
    }
  }

  /**
   * After inheriting, a lookup finds the definition's own child when it has one and the
   * parent's otherwise: own scalar fields win.
   */
  lemma FindTextExtend(n: Node, parent: Node, tag: string)
    ensures FindText(Extend(n, parent), tag)
      == if FindText(n, tag).Some? then FindText(n, tag) else FindText(parent, tag)
  {
    FirstAppend(n.children, parent.children, tag);
  }

  lemma {:induction false} KidsAppend(a: seq<Node>, b: seq<Node>, tag: string)
    ensures Kids(a + b, tag) == Kids(a, tag) + Kids(b, tag)
    decreases |a|
  {
    if |a| > 0 {
      assert (a + b)[0] == a[0];
      assert (a + b)[1..] == a[1..] + b;
      KidsAppend(a[1..], b, tag);
    } else {
      assert a + b == b;
    }
  }

  lemma {:induction false} FlattenAppend(a: seq<Node>, b: seq<Node>)
    ensures Flatten(a + b) == Flatten(a) + Flatten(b)
    decreases |a|
  {
    if |a| > 0 {
      assert (a + b)[0] == a[0];
      assert (a + b)[1..] == a[1..] + b;
      FlattenAppend(a[1..], b);
    } else {
      assert a + b == b;
    }
  }

  /** After inheriting, list items are the definition's own followed by the parent's. */
  lemma ItemsExtend(n: Node, parent: Node, group: string)
    ensures Under(Extend(n, parent), group) == Under(n, group) + Under(parent, group)
    ensures Items(Extend(n, parent), group) == Items(n, group) + Items(parent, group)
  {
    KidsAppend(n.children, parent.children, group);
    FlattenAppend(Kids(n.children, group), Kids(parent.children, group));
    KidsAppend(Under(n, group), Under(parent, group), "li");
  }

  /**
   * Every child with the tag of every root, file after file: what
   * `for f in files: for d in tree.iterfind("./tag")` visits.
   */
  function AllKids(roots: seq<Node>, tag: string): seq<Node> {
    Kids(Flatten(roots), tag)
  }

  /** One more file adds its own definitions after those of the files before it. */
  lemma AllKidsSnoc(roots: seq<Node>, i: nat, tag: string)
    requires i < |roots|
    ensures AllKids(roots[..i + 1], tag) == AllKids(roots[..i], tag) + Kids(roots[i].children, tag)
  {
    assert roots[..i + 1] == roots[..i] + [roots[i]];
    FlattenAppend(roots[..i], [roots[i]]);
    assert [roots[i]][1..] == [];
    assert Flatten([roots[i]]) == roots[i].children + Flatten([]) == roots[i].children;
    KidsAppend(Flatten(roots[..i]), roots[i].children, tag);
  }

  /** The definitions of the first files come first. */
  lemma AllKidsPrefix(roots: seq<Node>, i: nat, tag: string)
    requires i <= |roots|
    ensures AllKids(roots[..i], tag) <= AllKids(roots, tag)
  {
    assert roots == roots[..i] + roots[i..];
    FlattenAppend(roots[..i], roots[i..]);
    KidsAppend(Flatten(roots[..i]), Flatten(roots[i..]), tag);
  }
}
