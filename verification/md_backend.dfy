/**
 The Markdown backend's conversion: a depth-first walk of the syntax tree
 that appends one item per handled element and threads the current parent
 handle down to the element's children.
 */
module MdBackend {
  import opened Wrappers
  import opened MarkdownAst
  import opened Document

  /** Why a conversion aborts. */
  datatype Error =
    | MissingChild   // `children[0]` of an element with no children (IndexError)
    | NotAnElement   // `.children` read off a character of a raw string (AttributeError)
    | NoParent       // `.label` read off the absent parent of a top-level list item (AttributeError)

  /**
   The text of a list item: the content of the first inline child of its
   first block. Fails when the item has no block, when that block is a bare
   string, or when the block has no inline child.
   */
  function ItemText(cs: seq<Node>): (r: Result<string, Error>)
    ensures r.Success? <==> WellShapedItem(cs)
    ensures r.Success? ==> r.value == InlineText(cs[0].children[0])
    ensures r.Failure? && |cs| > 0 && cs[0].RawText? && |cs[0].text| > 0 ==> r.error == NotAnElement
  {
    if |cs| == 0 then Failure(MissingChild)
    else if cs[0].RawText? then
      if |cs[0].text| == 0 then Failure(MissingChild) else Failure(NotAnElement)
    else if |cs[0].children| == 0 then Failure(MissingChild)
    else Success(InlineText(cs[0].children[0]))
  }

  /** The label a heading of the given level is added with. */
  function HeadingLabel(level: int): (l: TextLabel)
    ensures l == Title <==> level == 1
    ensures l == SectionHeader <==> level != 1
  {
    if level == 1 then Title else SectionHeader
  }

  /** The label a list of the given kind is added with. */
  function ListLabel(ordered: bool): (l: GroupLabel)
    ensures l == OrderedList <==> ordered
    ensures l == UnorderedList <==> !ordered
  {
    if ordered then OrderedList else UnorderedList
  }

  /**
   Appends `item` and returns the parent for the element's children: the new
   item when `rebind` (a heading or a list), otherwise the unchanged parent.
   */
  function Emit(doc: seq<Item>, item: Item, rebind: bool): (r: (seq<Item>, Handle))
    requires ValidHandle(doc, item.parent)
    requires item.ListEntry? ==> item.parent.Some? && item.enumerated == IsOrderedList(doc, item.parent.value)
    requires rebind ==> IsContainer(item)
    ensures Extends(doc, r.0) && |r.0| == |doc| + 1 && r.0[|doc|] == item
    ensures r.1 == if rebind then Some(|doc|) else item.parent
    ensures ValidHandle(r.0, r.1)
  {
    AppendOk(doc, item);
    (doc + [item], if rebind then Some(|doc|) else item.parent)
  }

  /** Under an attachable parent, the appended item is well placed and the returned parent is attachable. */
  lemma EmitPlacesItem(doc: seq<Item>, item: Item, rebind: bool)
    requires ValidHandle(doc, item.parent) && Attachable(doc, item.parent)
    requires item.ListEntry? ==> item.parent.Some? && item.enumerated == IsOrderedList(doc, item.parent.value)
    requires rebind ==> IsContainer(item)
    ensures NewItemsOk(doc, Emit(doc, item, rebind).0) && Attachable(Emit(doc, item, rebind).0, Emit(doc, item, rebind).1)
  {
    AppendOk(doc, item);
    AttachableStable(doc, doc + [item], item.parent);
  }

  /**
   Handles `n` itself under the current parent `parent`: appends the item
   its kind calls for, if any, and returns the document together with the
   parent its children are visited under. Only a heading or a list rebinds
   that parent; it fails when an expected child is missing or a list item
   has no parent.
   */
  function Dispatch(n: Node, parent: Handle, doc: seq<Item>): (r: Result<(seq<Item>, Handle), Error>)
    requires ValidHandle(doc, parent)
    ensures r.Success? <==> ShapeOk(n, parent.Some?)
    ensures r.Success? ==> Extends(doc, r.value.0) && |r.value.0| == |doc| + (if IsEmitter(n) then 1 else 0)
    ensures r.Success? ==> r.value.1 == if n.Heading? || n.List? then Some(|doc|) else parent
    ensures r.Success? ==> ValidHandle(r.value.0, r.value.1)
    ensures r.Success? && IsEmitter(n) ==> r.value.0[|doc|].parent == parent
  {
    match n
    case Heading(level, cs) =>
      if |cs| == 0 then Failure(MissingChild)
      else Success(Emit(doc, TextItem(HeadingLabel(level), parent, InlineText(cs[0])), true))
    case List(ordered, _) =>
      Success(Emit(doc, GroupItem(ListLabel(ordered), "list", parent), true))
    case ListItem(cs) =>
      var text :- ItemText(cs);
      if parent.None? then Failure(NoParent)
      else Success(Emit(doc, ListEntry(IsOrderedList(doc, parent.value), parent, text), false))
    case Paragraph(cs) =>
      if |cs| == 0 then Failure(MissingChild)
      else Success(Emit(doc, TextItem(ParagraphText, parent, InlineText(cs[0])), false))
    case Image(title, _, _) =>
      Success(Emit(doc, PictureItem(parent, title), false))
    case RawText(_) => Success((doc, parent))
    case Other(_) => Success((doc, parent))
  }

  /**
   Visits `n` with `parent` as the current parent, appending to `doc`:
   handles `n`, then visits its children in order under the parent
   `Dispatch` returned. Only appends, one item per handled element.
   */
  function Visit(n: Node, parent: Handle, doc: seq<Item>): (r: Result<seq<Item>, Error>)
    requires ValidHandle(doc, parent)
    ensures r.Success? ==> Extends(doc, r.value)
    ensures r.Success? ==> |r.value| == |doc| + Emitted(n)
    decreases n
  {
    var step :- Dispatch(n, parent, doc);
    if n.RawText? then Success(step.0)
    else
      var r := VisitAll(n.children, step.1, step.0);
      if r.Success? then ExtendsTrans(doc, step.0, r.value); r else r
  }

  /** Visits `cs` in order, each with the same parent. */
  function VisitAll(cs: seq<Node>, parent: Handle, doc: seq<Item>): (r: Result<seq<Item>, Error>)
    requires ValidHandle(doc, parent)
    ensures r.Success? ==> Extends(doc, r.value)
    ensures r.Success? ==> |r.value| == |doc| + EmittedAll(cs)
    decreases cs
  {
    if |cs| == 0 then Success(doc)
    else
      var mid :- Visit(cs[0], parent, doc);
      AttachableStable(doc, mid, parent);
      var r := VisitAll(cs[1..], parent, mid);
      if r.Success? then ExtendsTrans(doc, mid, r.value); r else r
  }

  /**
   Converts a parsed document: the walk from the root with no parent. An
   aborted walk discards everything appended so far; a completed one yields
   one item per handled element, each hanging off the body or off an earlier
   heading or list group.
   */
  function Convert(root: Node): (r: Result<seq<Item>, Error>)
    ensures r.Success? ==> WellFormed(r.value) && |r.value| == Emitted(root)
  {
    VisitPlacesItems(root, None, []);
    Visit(root, None, [])
  }


  /** Visiting a non-empty run of siblings is visiting the first, then the rest from there. */
  lemma VisitAllCons(cs: seq<Node>, parent: Handle, doc: seq<Item>)
    requires |cs| > 0 && ValidHandle(doc, parent)
    ensures Visit(cs[0], parent, doc).Success? ==> ValidHandle(Visit(cs[0], parent, doc).value, parent)
    ensures VisitAll(cs, parent, doc)
         == match Visit(cs[0], parent, doc)
            case Failure(e) => Failure(e)
            case Success(mid) => VisitAll(cs[1..], parent, mid)
  {
    var v := Visit(cs[0], parent, doc);
    if v.Success? {
      AttachableStable(doc, v.value, parent);
    }
  }

  /** Visiting an element is handling it, then visiting its children from there. */
  lemma VisitUnfold(n: Node, parent: Handle, doc: seq<Item>)
    requires ValidHandle(doc, parent) && !n.RawText?
    ensures Dispatch(n, parent, doc).Success? ==> ValidHandle(Dispatch(n, parent, doc).value.0, Dispatch(n, parent, doc).value.1)
    ensures Visit(n, parent, doc)
         == match Dispatch(n, parent, doc)
            case Failure(e) => Failure(e)
            case Success(step) => VisitAll(n.children, step.1, step.0)
  {
  }

  /**
   Under an attachable parent, the item `Dispatch` appends is well placed,
   and so is the parent it hands to the element's children.
   */
  lemma DispatchPlacesItem(n: Node, parent: Handle, doc: seq<Item>)
    requires ValidHandle(doc, parent) && Attachable(doc, parent)
    ensures var r := Dispatch(n, parent, doc);
      r.Success? ==> NewItemsOk(doc, r.value.0) && Attachable(r.value.0, r.value.1)
  {
    match n
    case Heading(level, cs) =>
      if |cs| > 0 {
        EmitPlacesItem(doc, TextItem(HeadingLabel(level), parent, InlineText(cs[0])), true);
      }
    case List(ordered, _) =>
      EmitPlacesItem(doc, GroupItem(ListLabel(ordered), "list", parent), true);
    case ListItem(cs) =>
      var text := ItemText(cs);
      if text.Success? && parent.Some? {
        EmitPlacesItem(doc, ListEntry(IsOrderedList(doc, parent.value), parent, text.value), false);
      }
    case Paragraph(cs) =>
      if |cs| > 0 {
        EmitPlacesItem(doc, TextItem(ParagraphText, parent, InlineText(cs[0])), false);
      }
    case Image(title, _, _) =>
      EmitPlacesItem(doc, PictureItem(parent, title), false);
    case RawText(_) =>
    case Other(_) =>
  }

  /**
   Starting from an attachable parent, every item the walk appends hangs off
   the body or off a heading or list group appended before it, and a list
   entry's numbering repeats its parent's.
   */
  lemma {:induction false} VisitPlacesItems(n: Node, parent: Handle, doc: seq<Item>)
    requires ValidHandle(doc, parent) && Attachable(doc, parent)
    ensures Visit(n, parent, doc).Success? ==> NewItemsOk(doc, Visit(n, parent, doc).value)
    decreases n
  {
    var step := Dispatch(n, parent, doc);
    if step.Success? && !n.RawText? {
      VisitUnfold(n, parent, doc);
      DispatchPlacesItem(n, parent, doc);
      var (d, p) := step.value;
      VisitAllPlacesItems(n.children, p, d);
      var r := VisitAll(n.children, p, d);
      if r.Success? {
        Chain(doc, d, r.value);
      }
    }
  }

  lemma {:induction false} VisitAllPlacesItems(cs: seq<Node>, parent: Handle, doc: seq<Item>)
    requires ValidHandle(doc, parent) && Attachable(doc, parent)
    ensures VisitAll(cs, parent, doc).Success? ==> NewItemsOk(doc, VisitAll(cs, parent, doc).value)
    decreases cs
  {
    if |cs| > 0 {
      VisitAllCons(cs, parent, doc);
      var v := Visit(cs[0], parent, doc);
      if v.Success? {
        VisitPlacesItems(cs[0], parent, doc);
        AttachableStable(doc, v.value, parent);
        VisitAllPlacesItems(cs[1..], parent, v.value);
        var r := VisitAll(cs[1..], parent, v.value);
        if r.Success? {
          Chain(doc, v.value, r.value);
        }
      }
    }
  }
}
