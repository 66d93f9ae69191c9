/**
 A reference reading of the conversion as a nested document tree: a heading
 or a list becomes a node that holds what its own descendants produce; every
 other handled element becomes a leaf placed just before what its
 descendants produce. Serialising that tree in pre-order, with each node's
 parent given by handle, yields exactly the item sequence the backend's
 walk appends.
 */
module Structure {
  import opened Wrappers
  import opened MarkdownAst
  import opened Document
  import opened MdBackend

  /** The kind of item the current parent is: the body, a heading, or a list group. */
  datatype Ctx = Body | UnderHeading | UnderList(ordered: bool)

  /** What one node of the document tree carries, apart from where it hangs. */
  datatype Payload =
    | TextPayload(kind: TextLabel, text: string)
    | ListPayload(group: GroupLabel)
    | EntryPayload(enumerated: bool, text: string)
    | PicturePayload(caption: Option<string>)

  datatype DocTree = DocNode(payload: Payload, kids: seq<DocTree>)

  function TreeSize(t: DocTree): nat
    decreases t
  {
    1 + ForestSize(t.kids)
  }

  function ForestSize(ts: seq<DocTree>): nat
    decreases ts
  {
    if |ts| == 0 then 0 else TreeSize(ts[0]) + ForestSize(ts[1..])
  }

  /** Headings and lists own the trees of their descendants. */
  predicate Nests(n: Node) {
    n.Heading? || n.List?
  }

  /** The kind of parent the children of `n` have: `n` itself if it nests, else the same as `n`'s. */
  function ChildCtx(n: Node, ctx: Ctx): Ctx {
    match n
    case Heading(_, _) => UnderHeading
    case List(ordered, _) => UnderList(ordered)
    case _ => ctx
  }

  /**
   The payload `n` itself contributes under a parent of kind `ctx`, if any:
   level 1 headings are titles and deeper ones section headers, lists are
   numbered when ordered, and a list entry is numbered exactly when its
   parent is a numbered list.
   */
  function Head(n: Node, ctx: Ctx): Option<Payload>
    requires ShapeOk(n, ctx != Body)
  {
    match n
    case Heading(level, cs) => Some(TextPayload(if level == 1 then Title else SectionHeader, InlineText(cs[0])))
    case List(ordered, _) => Some(ListPayload(if ordered then OrderedList else UnorderedList))
    case ListItem(cs) => Some(EntryPayload(ctx == UnderList(true), InlineText(cs[0].children[0])))
    case Paragraph(cs) => Some(TextPayload(ParagraphText, InlineText(cs[0])))
    case Image(title, _, _) => Some(PicturePayload(title))
    case _ => None
  }

  /**
   The document trees `n` contributes under a parent of kind `ctx`: one node
   per handled element, below the nearest enclosing heading or list.
   */
  function Build(n: Node, ctx: Ctx): seq<DocTree>
    requires Convertible(n, ctx != Body)
    decreases n
  {
    if n.RawText? then []
    else
      var kids := BuildAll(n.children, ChildCtx(n, ctx));
      match Head(n, ctx)
      case None => kids
      case Some(p) => if Nests(n) then [DocNode(p, kids)] else [DocNode(p, [])] + kids
  }

  function BuildAll(cs: seq<Node>, ctx: Ctx): seq<DocTree>
    requires ConvertibleAll(cs, ctx != Body)
    decreases cs
  {
    if |cs| == 0 then [] else Build(cs[0], ctx) + BuildAll(cs[1..], ctx)
  }

  /** The item a payload becomes once attached to `parent`. */
  function ItemOf(p: Payload, parent: Handle): Item {
    match p
    case TextPayload(kind, text) => TextItem(kind, parent, text)
    case ListPayload(group) => GroupItem(group, "list", parent)
    case EntryPayload(enumerated, text) => ListEntry(enumerated, parent, text)
    case PicturePayload(caption) => PictureItem(parent, caption)
  }

  /**
   Pre-order serialisation of a tree whose root goes at index `base` under
   `parent`; the root's children go under the root's own index.
   */
  function FlattenTree(t: DocTree, parent: Handle, base: nat): (items: seq<Item>)
    ensures |items| == TreeSize(t)
    decreases t
  {
    [ItemOf(t.payload, parent)] + Flatten(t.kids, Some(base), base + 1)
  }

  /** Serialises sibling trees one after another, all under `parent`. */
  function Flatten(ts: seq<DocTree>, parent: Handle, base: nat): (items: seq<Item>)
    ensures |items| == ForestSize(ts)
    decreases ts
  {
    if |ts| == 0 then []
    else FlattenTree(ts[0], parent, base) + Flatten(ts[1..], parent, base + TreeSize(ts[0]))
  }

  /** A non-empty run of siblings serialises as its first tree, then the rest. */
  lemma FlattenCons(ts: seq<DocTree>, parent: Handle, base: nat)
    requires |ts| > 0
    ensures Flatten(ts, parent, base)
         == FlattenTree(ts[0], parent, base) + Flatten(ts[1..], parent, base + TreeSize(ts[0]))
  {
  }

  /** Serialising two runs of siblings is serialising each in turn. */
  lemma {:induction false} FlattenAppend(a: seq<DocTree>, b: seq<DocTree>, parent: Handle, base: nat)
    ensures Flatten(a + b, parent, base) == Flatten(a, parent, base) + Flatten(b, parent, base + ForestSize(a))
    decreases |a|
  {
    if |a| == 0 {
      assert a + b == b;
    } else {
      var next := base + TreeSize(a[0]);
      var x := FlattenTree(a[0], parent, base);
      var y := Flatten(a[1..], parent, next);
      var z := Flatten(b, parent, base + ForestSize(a));
      FlattenConsAppend(a, b, parent, base);
      assert Flatten(a[1..] + b, parent, next) == y + z by {
        FlattenAppend(a[1..], b, parent, next);
        assert next + ForestSize(a[1..]) == base + ForestSize(a);
      }
      FlattenCons(a, parent, base);
      Regroup(Flatten(a + b, parent, base), Flatten(a, parent, base), x, y, z, Flatten(a[1..] + b, parent, next));
    }
  }

  /** Re-associates `x + (y + z)` as `(x + y) + z` through named intermediate sequences. */
  lemma Regroup<T>(whole: seq<T>, left: seq<T>, x: seq<T>, y: seq<T>, z: seq<T>, rest: seq<T>)
    requires whole == x + rest && rest == y + z && left == x + y
    ensures whole == left + z
  {
    SeqAssoc(x, y, z);
  }

  /** `FlattenCons` for a run that is itself a concatenation with a non-empty left part. */
  lemma FlattenConsAppend(a: seq<DocTree>, b: seq<DocTree>, parent: Handle, base: nat)
    requires |a| > 0
    ensures Flatten(a + b, parent, base)
         == FlattenTree(a[0], parent, base) + Flatten(a[1..] + b, parent, base + TreeSize(a[0]))
  {
    var ab := a + b;
    assert ab[0] == a[0] && ab[1..] == a[1..] + b;
    FlattenCons(ab, parent, base);
  }

  /** A single tree serialises as its root item, then its children under the root. */
  lemma FlattenSingle(t: DocTree, parent: Handle, base: nat)
    ensures Flatten([t], parent, base) == [ItemOf(t.payload, parent)] + Flatten(t.kids, Some(base), base + 1)
  {
    assert [t][1..] == [];
  }

  /** A leaf followed by siblings serialises as its one item, then the siblings. */
  lemma LeafThenSiblings(p: Payload, rest: seq<DocTree>, parent: Handle, base: nat)
    ensures Flatten([DocNode(p, [])] + rest, parent, base) == [ItemOf(p, parent)] + Flatten(rest, parent, base + 1)
  {
    FlattenAppend([DocNode(p, [])], rest, parent, base);
    FlattenSingle(DocNode(p, []), parent, base);
  }

  /** The items `n` itself contributes when attached to `parent`. */
  function HeadItems(n: Node, ctx: Ctx, parent: Handle): seq<Item>
    requires ShapeOk(n, ctx != Body)
  {
    match Head(n, ctx)
    case None => []
    case Some(p) => [ItemOf(p, parent)]
  }

  /** The parent handle the children of `n` receive when `n` is handled at index `base`. */
  function ChildParent(n: Node, parent: Handle, base: nat): Handle {
    if Nests(n) then Some(base) else parent
  }

  /**
   Serialising the trees of `n` gives the items of `n` itself, then the
   serialisation of its children's trees under the parent they receive.
   */
  lemma FlattenBuild(n: Node, ctx: Ctx, parent: Handle, base: nat)
    requires Convertible(n, ctx != Body) && !n.RawText?
    ensures ConvertibleAll(n.children, ChildCtx(n, ctx) != Body)
    ensures Flatten(Build(n, ctx), parent, base)
         == HeadItems(n, ctx, parent)
            + Flatten(BuildAll(n.children, ChildCtx(n, ctx)), ChildParent(n, parent, base), base + |HeadItems(n, ctx, parent)|)
  {
    var kids := BuildAll(n.children, ChildCtx(n, ctx));
    match Head(n, ctx)
    case None =>
      assert Build(n, ctx) == kids;
    case Some(p) =>
      if Nests(n) {
        FlattenSingle(DocNode(p, kids), parent, base);
      } else {
        LeafThenSiblings(p, kids, parent, base);
      }
  }

  /** The current parent handle is an item of the kind `ctx` names. */
  predicate Placed(doc: seq<Item>, parent: Handle, ctx: Ctx) {
    match ctx
    case Body => parent.None?
    case UnderHeading => parent.Some? && parent.value < |doc| && doc[parent.value].TextItem?
    case UnderList(ordered) =>
      parent.Some? && parent.value < |doc| && doc[parent.value].GroupItem?
      && (doc[parent.value].group == OrderedList <==> ordered)
  }

  lemma PlacedStable(doc: seq<Item>, r: seq<Item>, parent: Handle, ctx: Ctx)
    requires Placed(doc, parent, ctx) && Extends(doc, r)
    ensures Placed(r, parent, ctx)
  {
    if parent.Some? && parent.value < |doc| {
      assert r[parent.value] == r[..|doc|][parent.value];
    }
  }

  /**
   Handling `n` itself appends exactly the items of its document-tree root
   and hands its children a parent of the kind their subtrees assume.
   */
  lemma DispatchAgrees(n: Node, parent: Handle, doc: seq<Item>, ctx: Ctx)
    requires Placed(doc, parent, ctx) && ShapeOk(n, ctx != Body)
    ensures ValidHandle(doc, parent)
    ensures Dispatch(n, parent, doc) == Success((doc + HeadItems(n, ctx, parent), ChildParent(n, parent, |doc|)))
    ensures Placed(doc + HeadItems(n, ctx, parent), ChildParent(n, parent, |doc|), ChildCtx(n, ctx))
  {
    var d := doc + HeadItems(n, ctx, parent);
    assert d[..|doc|] == doc;
    if !Nests(n) {
      PlacedStable(doc, d, parent, ctx);
    }
    match n
    case Heading(level, cs) =>
      assert HeadItems(n, ctx, parent) == [TextItem(HeadingLabel(level), parent, InlineText(cs[0]))];
    case List(ordered, _) =>
      assert HeadItems(n, ctx, parent) == [GroupItem(ListLabel(ordered), "list", parent)];
    case ListItem(cs) =>
      assert IsOrderedList(doc, parent.value) == (ctx == UnderList(true));
    case Paragraph(cs) =>
    case Image(_, _, _) =>
    case RawText(_) =>
      assert d == doc;
    case Other(_) =>
      assert d == doc;
  }

  /**
   The walk from `n` appends exactly the pre-order serialisation of the
   trees `n` contributes: the flat item list and the nested tree agree on
   every label, text, flag and parent.
   */
  lemma {:induction false} VisitIsFlattenedBuild(n: Node, parent: Handle, doc: seq<Item>, ctx: Ctx)
    requires Placed(doc, parent, ctx)
    requires Convertible(n, ctx != Body)
    ensures ValidHandle(doc, parent)
    ensures Visit(n, parent, doc) == Success(doc + Flatten(Build(n, ctx), parent, |doc|))
    decreases n
  {
    if n.RawText? {
      assert doc + [] == doc;
    } else {
      var head := HeadItems(n, ctx, parent);
      var d := doc + head;
      var p := ChildParent(n, parent, |doc|);
      var cctx := ChildCtx(n, ctx);
      DispatchAgrees(n, parent, doc, ctx);
      FlattenBuild(n, ctx, parent, |doc|);
      VisitAllIsFlattenedBuild(n.children, p, d, cctx);
      VisitUnfold(n, parent, doc);
      SeqAssoc(doc, head, Flatten(BuildAll(n.children, cctx), p, |d|));
    }
  }

  lemma {:induction false} VisitAllIsFlattenedBuild(cs: seq<Node>, parent: Handle, doc: seq<Item>, ctx: Ctx)
    requires Placed(doc, parent, ctx)
    requires ConvertibleAll(cs, ctx != Body)
    ensures ValidHandle(doc, parent)
    ensures VisitAll(cs, parent, doc) == Success(doc + Flatten(BuildAll(cs, ctx), parent, |doc|))
    decreases cs
  {
    if |cs| == 0 {
      assert doc + [] == doc;
    } else {
      var first := Build(cs[0], ctx);
      var rest := BuildAll(cs[1..], ctx);
      var mid := doc + Flatten(first, parent, |doc|);
      assert Visit(cs[0], parent, doc) == Success(mid) by {
        VisitIsFlattenedBuild(cs[0], parent, doc, ctx);
      }
      assert Placed(mid, parent, ctx) by {
        assert mid[..|doc|] == doc;
        PlacedStable(doc, mid, parent, ctx);
      }
      var tail := Flatten(rest, parent, |mid|);
      assert VisitAll(cs[1..], parent, mid) == Success(mid + tail) by {
        VisitAllIsFlattenedBuild(cs[1..], parent, mid, ctx);
      }
      VisitAllCons(cs, parent, doc);
      FlattenBuildAllCons(cs, ctx, parent, |doc|);
      SeqAssoc(doc, Flatten(first, parent, |doc|), tail);
    }
  }

  /** Serialising the trees of a run of siblings is serialising the first one's, then the rest's. */
  lemma FlattenBuildAllCons(cs: seq<Node>, ctx: Ctx, parent: Handle, base: nat)
    requires |cs| > 0 && ConvertibleAll(cs, ctx != Body)
    ensures Convertible(cs[0], ctx != Body) && ConvertibleAll(cs[1..], ctx != Body)
    ensures var first := Flatten(Build(cs[0], ctx), parent, base);
      Flatten(BuildAll(cs, ctx), parent, base) == first + Flatten(BuildAll(cs[1..], ctx), parent, base + |first|)
  {
    FlattenAppend(Build(cs[0], ctx), BuildAll(cs[1..], ctx), parent, base);
  }

  lemma SeqAssoc<T>(a: seq<T>, b: seq<T>, c: seq<T>)
    ensures (a + b) + c == a + (b + c)
  {
  }

  /**
   A convertible document converts to the pre-order serialisation of its
   document tree, with every top-level tree hanging off the body.
   */
  lemma ConvertIsFlattenedBuild(root: Node)
    requires Convertible(root, false)
    ensures Convert(root) == Success(Flatten(Build(root, Body), None, 0))
  {
    VisitIsFlattenedBuild(root, None, [], Body);
  }
}
