/**
 Properties of the Markdown backend's walk: when it succeeds, what each
 handled element appends, which parent each item receives, and how list
 entries get their numbering.
 */
module Properties {
  import opened Wrappers
  import opened MarkdownAst
  import opened Document
  import opened MdBackend

  // ---------------------------------------------------------------------------
  // When the walk succeeds

  /**
   The walk succeeds exactly when every element has the children the backend
   indexes into and every list item is reached with a parent; what has been
   appended before does not matter.
   */
  lemma {:induction false} VisitSucceedsIff(n: Node, parent: Handle, doc: seq<Item>)
    requires ValidHandle(doc, parent)
    ensures Visit(n, parent, doc).Success? <==> Convertible(n, parent.Some?)
    decreases n
  {
    if !n.RawText? {
      VisitUnfold(n, parent, doc);
      var step := Dispatch(n, parent, doc);
      if step.Success? {
        VisitAllSucceedsIff(n.children, step.value.1, step.value.0);
      }
    }
  }

  lemma {:induction false} VisitAllSucceedsIff(cs: seq<Node>, parent: Handle, doc: seq<Item>)
    requires ValidHandle(doc, parent)
    ensures VisitAll(cs, parent, doc).Success? <==> ConvertibleAll(cs, parent.Some?)
    decreases cs
  {
    if |cs| > 0 {
      VisitAllCons(cs, parent, doc);
      VisitSucceedsIff(cs[0], parent, doc);
      var v := Visit(cs[0], parent, doc);
      if v.Success? {
        VisitAllSucceedsIff(cs[1..], parent, v.value);
      }
    }
  }

  /** A document converts exactly when it is convertible from the body. */
  lemma ConvertSucceedsIff(root: Node)
    ensures Convert(root).Success? <==> Convertible(root, false)
  {
    VisitSucceedsIff(root, None, []);
  }

  /** A subtree with no handled element is always convertible, wherever it is reached. */
  lemma {:induction false} NoEmitterConvertible(n: Node, attached: bool)
    requires Emitted(n) == 0
    ensures Convertible(n, attached)
    decreases n
  {
    if !n.RawText? {
      NoEmitterConvertibleAll(n.children, attached);
    }
  }

  lemma {:induction false} NoEmitterConvertibleAll(cs: seq<Node>, attached: bool)
    requires EmittedAll(cs) == 0
    ensures ConvertibleAll(cs, attached)
    decreases cs
  {
    if |cs| > 0 {
      NoEmitterConvertible(cs[0], attached);
      NoEmitterConvertibleAll(cs[1..], attached);
    }
  }

  /**
   A document without headings, lists, list items, paragraphs or images
   (the empty document among them) converts, without error, to no items.
   */
  lemma NothingHandledConvertsToNothing(root: Node)
    requires Emitted(root) == 0
    ensures Convert(root) == Success([])
  {
    NoEmitterConvertible(root, false);
    ConvertSucceedsIff(root);
  }

  /** A list item reached with no parent aborts; a malformed one fails on its text first. */
  lemma TopLevelListItemFails(cs: seq<Node>, doc: seq<Item>)
    ensures Visit(ListItem(cs), None, doc).Failure?
    ensures Visit(ListItem(cs), None, doc).error == NoParent <==> WellShapedItem(cs)
  {
    VisitUnfold(ListItem(cs), None, doc);
  }

  // ---------------------------------------------------------------------------
  // What each handled element appends

  /** The first item a handled element's walk appends is the one `Dispatch` appended. */
  lemma FirstItemIsDispatched(n: Node, parent: Handle, doc: seq<Item>, r: seq<Item>)
    requires ValidHandle(doc, parent) && IsEmitter(n) && Visit(n, parent, doc) == Success(r)
    ensures Dispatch(n, parent, doc).Success?
    ensures |doc| < |r| && r[|doc|] == Dispatch(n, parent, doc).value.0[|doc|]
  {
    VisitUnfold(n, parent, doc);
    var d := Dispatch(n, parent, doc).value.0;
    assert r[..|d|] == d;
    assert r[|doc|] == r[..|d|][|doc|];
  }

  /**
   A heading appends a text item under the current parent whose text is its
   first inline child's: a title at level 1 and a section header otherwise.
   */
  lemma HeadingAppendsTitleOrSectionHeader(level: int, cs: seq<Node>, parent: Handle, doc: seq<Item>, r: seq<Item>)
    requires ValidHandle(doc, parent) && Visit(Heading(level, cs), parent, doc) == Success(r)
    ensures |cs| > 0 && |doc| < |r|
    ensures && r[|doc|].TextItem? && r[|doc|].parent == parent && r[|doc|].text == InlineText(cs[0])
            && (r[|doc|].kind == Title <==> level == 1)
            && (r[|doc|].kind == SectionHeader <==> level != 1)
  {
    FirstItemIsDispatched(Heading(level, cs), parent, doc, r);
  }

  /** A list appends one group named "list" under the current parent, numbered exactly when ordered. */
  lemma ListAppendsGroup(ordered: bool, cs: seq<Node>, parent: Handle, doc: seq<Item>, r: seq<Item>)
    requires ValidHandle(doc, parent) && Visit(List(ordered, cs), parent, doc) == Success(r)
    ensures |doc| < |r|
    ensures && r[|doc|].GroupItem? && r[|doc|].parent == parent && r[|doc|].name == "list"
            && (r[|doc|].group == OrderedList <==> ordered)
  {
    FirstItemIsDispatched(List(ordered, cs), parent, doc, r);
  }

  /**
   A list item appends one entry under the current parent, which must exist;
   its text is the first inline child of its first block, and it is numbered
   exactly when that parent is a numbered-list group.
   */
  lemma ListItemAppendsEntry(cs: seq<Node>, parent: Handle, doc: seq<Item>, r: seq<Item>)
    requires ValidHandle(doc, parent) && Visit(ListItem(cs), parent, doc) == Success(r)
    ensures parent.Some? && WellShapedItem(cs) && |doc| < |r|
    ensures && r[|doc|].ListEntry? && r[|doc|].parent == parent && r[|doc|].text == InlineText(cs[0].children[0])
            && (r[|doc|].enumerated <==> IsOrderedList(doc, parent.value))
  {
    FirstItemIsDispatched(ListItem(cs), parent, doc, r);
  }

  /** A paragraph appends one paragraph text item under the current parent, with its first inline child's text. */
  lemma ParagraphAppendsText(cs: seq<Node>, parent: Handle, doc: seq<Item>, r: seq<Item>)
    requires ValidHandle(doc, parent) && Visit(Paragraph(cs), parent, doc) == Success(r)
    ensures |cs| > 0 && |doc| < |r|
    ensures r[|doc|] == TextItem(ParagraphText, parent, InlineText(cs[0]))
  {
    FirstItemIsDispatched(Paragraph(cs), parent, doc, r);
  }

  /** An image appends one picture under the current parent, captioned with the image's title. */
  lemma ImageAppendsPicture(title: Option<string>, dest: string, cs: seq<Node>, parent: Handle, doc: seq<Item>, r: seq<Item>)
    requires ValidHandle(doc, parent) && Visit(Image(title, dest, cs), parent, doc) == Success(r)
    ensures |doc| < |r| && r[|doc|] == PictureItem(parent, title)
  {
    FirstItemIsDispatched(Image(title, dest, cs), parent, doc, r);
  }

  /** An image's destination has no effect on the conversion. */
  lemma ImageDestinationUnused(title: Option<string>, dest1: string, dest2: string, cs: seq<Node>, parent: Handle, doc: seq<Item>)
    requires ValidHandle(doc, parent)
    ensures Visit(Image(title, dest1, cs), parent, doc) == Visit(Image(title, dest2, cs), parent, doc)
  {
    VisitUnfold(Image(title, dest1, cs), parent, doc);
    VisitUnfold(Image(title, dest2, cs), parent, doc);
  }

  // ---------------------------------------------------------------------------
  // Which parent each item receives

  /**
   The first item a handled element appends hangs off the current parent,
   and a list item's entry is numbered exactly when that parent is a
   numbered-list group.
   */
  lemma FirstItemParent(n: Node, parent: Handle, doc: seq<Item>, r: seq<Item>)
    requires ValidHandle(doc, parent) && IsEmitter(n) && Visit(n, parent, doc) == Success(r)
    ensures |doc| < |r| && r[|doc|].parent == parent
    ensures n.ListItem? ==> parent.Some? && r[|doc|].ListEntry? && r[|doc|].enumerated == IsOrderedList(doc, parent.value)
  {
    FirstItemIsDispatched(n, parent, doc, r);
  }

  /**
   Siblings are visited in order under one and the same parent: the first
   item of the `i`-th handled sibling comes right after everything its
   earlier siblings appended, and hangs off the parent the run was given,
   whatever those earlier siblings were (headings and lists included).
   */
  lemma {:induction false} SiblingsShareParent(cs: seq<Node>, parent: Handle, doc: seq<Item>, r: seq<Item>, i: nat)
    requires ValidHandle(doc, parent) && VisitAll(cs, parent, doc) == Success(r)
    requires i < |cs| && IsEmitter(cs[i])
    ensures var k := |doc| + EmittedAll(cs[..i]);
      k < |r| && r[k].parent == parent
    ensures var k := |doc| + EmittedAll(cs[..i]);
      cs[i].ListItem? ==> parent.Some? && r[k].ListEntry? && r[k].enumerated == IsOrderedList(doc, parent.value)
    decreases i
  {
    VisitAllCons(cs, parent, doc);
    var mid := Visit(cs[0], parent, doc).value;
    assert r[..|mid|] == mid;
    if parent.Some? {
      assert mid[parent.value] == mid[..|doc|][parent.value];
      assert r[parent.value] == r[..|mid|][parent.value];
    }
    if i == 0 {
      assert cs[..i] == [];
      FirstItemParent(cs[0], parent, doc, mid);
      assert r[|doc|] == r[..|mid|][|doc|];
    } else {
      SiblingsShareParent(cs[1..], parent, mid, r, i - 1);
      assert cs[..i][0] == cs[0] && cs[..i][1..] == cs[1..][..i - 1];
      assert cs[1..][i - 1] == cs[i];
    }
  }

  /**
   The children of a heading or a list hang off that element's own item;
   the children of every other element hang off the parent that element
   received. The rebinding thus reaches an element's own descendants only.
   */
  lemma ChildrenParent(n: Node, parent: Handle, doc: seq<Item>, r: seq<Item>, i: nat)
    requires ValidHandle(doc, parent) && !n.RawText? && Visit(n, parent, doc) == Success(r)
    requires i < |n.children| && IsEmitter(n.children[i])
    ensures var k := |doc| + (if IsEmitter(n) then 1 else 0) + EmittedAll(n.children[..i]);
      k < |r| && r[k].parent == (if n.Heading? || n.List? then Some(|doc|) else parent)
  {
    VisitUnfold(n, parent, doc);
    var step := Dispatch(n, parent, doc).value;
    SiblingsShareParent(n.children, step.1, step.0, r, i);
  }

  /**
   A list item directly inside a list is numbered exactly when that list is
   ordered: the entry hangs off the list's group, and list items never
   rebind the parent, so the nearest enclosing list decides.
   */
  lemma ListEntriesFollowTheirList(ordered: bool, cs: seq<Node>, parent: Handle, doc: seq<Item>, r: seq<Item>, i: nat)
    requires ValidHandle(doc, parent) && Visit(List(ordered, cs), parent, doc) == Success(r)
    requires i < |cs| && cs[i].ListItem?
    ensures var k := |doc| + 1 + EmittedAll(cs[..i]);
      k < |r| && r[k].ListEntry? && r[k].parent == Some(|doc|) && r[k].enumerated == ordered
  {
    ListVisitsItsItems(ordered, cs, parent, doc, r);
    EntriesUnderGroup(ordered, cs, parent, doc, r, i);
  }

  /** The same, for the run of a list's children visited right after its group was appended. */
  lemma EntriesUnderGroup(ordered: bool, cs: seq<Node>, parent: Handle, doc: seq<Item>, r: seq<Item>, i: nat)
    requires ValidHandle(doc, parent)
    requires VisitAll(cs, Some(|doc|), doc + [GroupItem(ListLabel(ordered), "list", parent)]) == Success(r)
    requires i < |cs| && cs[i].ListItem?
    ensures var k := |doc| + 1 + EmittedAll(cs[..i]);
      k < |r| && r[k].ListEntry? && r[k].parent == Some(|doc|) && r[k].enumerated == ordered
  {
    var d := doc + [GroupItem(ListLabel(ordered), "list", parent)];
    assert IsOrderedList(d, |doc|) == ordered;
    SiblingsShareParent(cs, Some(|doc|), d, r, i);
  }

  /** A list's walk appends its group, then visits its children under that group. */
  lemma ListVisitsItsItems(ordered: bool, cs: seq<Node>, parent: Handle, doc: seq<Item>, r: seq<Item>)
    requires ValidHandle(doc, parent) && Visit(List(ordered, cs), parent, doc) == Success(r)
    ensures VisitAll(cs, Some(|doc|), doc + [GroupItem(ListLabel(ordered), "list", parent)]) == Success(r)
  {
    VisitUnfold(List(ordered, cs), parent, doc);
  }
}
