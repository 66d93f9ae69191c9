/**
 Worked conversions of small documents, as the parser would hand them over
 (the root element is an `Other` holding the blocks).
 */
module Scenarios {
  import opened Wrappers
  import opened MarkdownAst
  import opened Document
  import opened MdBackend

  /** A run of bare strings appends nothing. */
  lemma {:induction false} RawRunAppendsNothing(cs: seq<Node>, parent: Handle, doc: seq<Item>)
    requires ValidHandle(doc, parent)
    requires forall i :: 0 <= i < |cs| ==> cs[i].RawText?
    ensures VisitAll(cs, parent, doc) == Success(doc)
    decreases cs
  {
    if |cs| > 0 {
      VisitAllCons(cs, parent, doc);
      RawRunAppendsNothing(cs[1..], parent, doc);
    }
  }

  /** Visiting one element, then a run of siblings. */
  lemma VisitOneThen(n: Node, rest: seq<Node>, parent: Handle, doc: seq<Item>, mid: seq<Item>)
    requires ValidHandle(doc, parent) && Visit(n, parent, doc) == Success(mid)
    ensures ValidHandle(mid, parent)
    ensures VisitAll([n] + rest, parent, doc) == VisitAll(rest, parent, mid)
  {
    VisitAllCons([n] + rest, parent, doc);
    assert ([n] + rest)[0] == n && ([n] + rest)[1..] == rest;
  }

  /** An element with a single child, visited alone. */
  lemma VisitOne(n: Node, parent: Handle, doc: seq<Item>)
    requires ValidHandle(doc, parent)
    ensures VisitAll([n], parent, doc) == Visit(n, parent, doc)
  {
    VisitAllCons([n], parent, doc);
  }

  /** Converting a document is visiting its blocks under the body. */
  lemma ConvertRoot(cs: seq<Node>)
    ensures Convert(Other(cs)) == VisitAll(cs, None, [])
  {
    VisitUnfold(Other(cs), None, []);
  }

  /** A heading or paragraph of plain text appends one text item. */
  lemma PlainText(n: Node, s: string, parent: Handle, doc: seq<Item>)
    requires ValidHandle(doc, parent)
    requires n == Paragraph([RawText(s)]) || n == Heading(1, [RawText(s)])
    ensures Visit(n, parent, doc)
         == Success(doc + [TextItem(if n.Paragraph? then ParagraphText else Title, parent, s)])
  {
    VisitUnfold(n, parent, doc);
    var step := Dispatch(n, parent, doc).value;
    RawRunAppendsNothing(n.children, step.1, step.0);
  }

  /** A list item holding one paragraph of plain text appends an entry, then the paragraph. */
  lemma PlainItem(s: string, parent: Handle, doc: seq<Item>)
    requires ValidHandle(doc, parent) && parent.Some?
    ensures Visit(ListItem([Paragraph([RawText(s)])]), parent, doc)
         == Success(doc + [ListEntry(IsOrderedList(doc, parent.value), parent, s), TextItem(ParagraphText, parent, s)])
  {
    var n := ListItem([Paragraph([RawText(s)])]);
    assert InlineText(RawText(s)) == s;
    VisitUnfold(n, parent, doc);
    var d := doc + [ListEntry(IsOrderedList(doc, parent.value), parent, s)];
    assert ItemText(n.children) == Success(s);
    assert Dispatch(n, parent, doc) == Success((d, parent));
    VisitOne(Paragraph([RawText(s)]), parent, d);
    PlainText(Paragraph([RawText(s)]), s, parent, d);
    assert d + [TextItem(ParagraphText, parent, s)]
        == doc + [ListEntry(IsOrderedList(doc, parent.value), parent, s), TextItem(ParagraphText, parent, s)];
  }

  /** A list of two plain items under the body. */
  lemma TwoItemList(ordered: bool, a: string, b: string)
    ensures Visit(List(ordered, [ListItem([Paragraph([RawText(a)])]), ListItem([Paragraph([RawText(b)])])]), None, [])
         == Success([
              GroupItem(ListLabel(ordered), "list", None),
              ListEntry(ordered, Some(0), a), TextItem(ParagraphText, Some(0), a),
              ListEntry(ordered, Some(0), b), TextItem(ParagraphText, Some(0), b)])
  {
    var ia := ListItem([Paragraph([RawText(a)])]);
    var ib := ListItem([Paragraph([RawText(b)])]);
    var n := List(ordered, [ia, ib]);
    var g := [GroupItem(ListLabel(ordered), "list", None)];
    VisitUnfold(n, None, []);
    assert Dispatch(n, None, []).value == (g, Some(0));
    PlainItem(a, Some(0), g);
    var m := g + [ListEntry(ordered, Some(0), a), TextItem(ParagraphText, Some(0), a)];
    VisitOneThen(ia, [ib], Some(0), g, m);
    VisitOne(ib, Some(0), m);
    PlainItem(b, Some(0), m);
    assert IsOrderedList(m, 0) == ordered;
    assert m + [ListEntry(ordered, Some(0), b), TextItem(ParagraphText, Some(0), b)]
        == [ GroupItem(ListLabel(ordered), "list", None),
             ListEntry(ordered, Some(0), a), TextItem(ParagraphText, Some(0), a),
             ListEntry(ordered, Some(0), b), TextItem(ParagraphText, Some(0), b)];
  }

  /**
   "# Title" followed by "Hello world": a title and a paragraph, both on the
   body. The paragraph is a sibling of the heading, so it does not hang off
   the title.
   */
  lemma TitleThenParagraph()
    ensures Convert(Other([Heading(1, [RawText("Title")]), Paragraph([RawText("Hello world")])]))
         == Success([TextItem(Title, None, "Title"), TextItem(ParagraphText, None, "Hello world")])
  {
    var h := Heading(1, [RawText("Title")]);
    var p := Paragraph([RawText("Hello world")]);
    ConvertRoot([h, p]);
    assert [h, p] == [h] + [p];
    PlainText(h, "Title", None, []);
    assert [] + [TextItem(Title, None, "Title")] == [TextItem(Title, None, "Title")];
    VisitOneThen(h, [p], None, [], [TextItem(Title, None, "Title")]);
    VisitOne(p, None, [TextItem(Title, None, "Title")]);
    PlainText(p, "Hello world", None, [TextItem(Title, None, "Title")]);
    assert [TextItem(Title, None, "Title")] + [TextItem(ParagraphText, None, "Hello world")]
        == [TextItem(Title, None, "Title"), TextItem(ParagraphText, None, "Hello world")];
  }

  /** "## Part" with an emphasised word: a section header whose text is the first inline child's. */
  lemma SectionHeaderTakesFirstInline()
    ensures Convert(Other([Heading(2, [RawText("Part "), Other([RawText("two")])])]))
         == Success([TextItem(SectionHeader, None, "Part ")])
  {
    var h := Heading(2, [RawText("Part "), Other([RawText("two")])]);
    ConvertRoot([h]);
    VisitOne(h, None, []);
    VisitUnfold(h, None, []);
    var d := [TextItem(SectionHeader, None, "Part ")];
    assert Dispatch(h, None, []) == Success((d, Some(0)));
    VisitOneThen(RawText("Part "), [Other([RawText("two")])], Some(0), d, d);
    VisitOne(Other([RawText("two")]), Some(0), d);
    VisitUnfold(Other([RawText("two")]), Some(0), d);
    RawRunAppendsNothing([RawText("two")], Some(0), d);
  }

  /**
   "- a" and "- b": one bulleted group, and for each item an unnumbered entry
   followed by the item's paragraph, which is visited too and lands under
   the group.
   */
  lemma BulletedList()
    ensures Convert(Other([List(false, [ListItem([Paragraph([RawText("a")])]), ListItem([Paragraph([RawText("b")])])])]))
         == Success([
              GroupItem(UnorderedList, "list", None),
              ListEntry(false, Some(0), "a"), TextItem(ParagraphText, Some(0), "a"),
              ListEntry(false, Some(0), "b"), TextItem(ParagraphText, Some(0), "b")])
  {
    TwoItemList(false, "a", "b");
    ConvertRoot([List(false, [ListItem([Paragraph([RawText("a")])]), ListItem([Paragraph([RawText("b")])])])]);
    VisitOne(List(false, [ListItem([Paragraph([RawText("a")])]), ListItem([Paragraph([RawText("b")])])]), None, []);
  }

  /** "1. a" and "2. b": as above, with a numbered group and numbered entries. */
  lemma NumberedList()
    ensures Convert(Other([List(true, [ListItem([Paragraph([RawText("a")])]), ListItem([Paragraph([RawText("b")])])])]))
         == Success([
              GroupItem(OrderedList, "list", None),
              ListEntry(true, Some(0), "a"), TextItem(ParagraphText, Some(0), "a"),
              ListEntry(true, Some(0), "b"), TextItem(ParagraphText, Some(0), "b")])
  {
    TwoItemList(true, "a", "b");
    ConvertRoot([List(true, [ListItem([Paragraph([RawText("a")])]), ListItem([Paragraph([RawText("b")])])])]);
    VisitOne(List(true, [ListItem([Paragraph([RawText("a")])]), ListItem([Paragraph([RawText("b")])])]), None, []);
  }

  /**
   A bulleted list nested in a numbered item: the inner entry follows the
   inner list, and the inner group hangs off the outer group.
   */
  lemma NestedLists()
    ensures Convert(Other([List(true, [ListItem([Paragraph([RawText("a")]), List(false, [ListItem([Paragraph([RawText("b")])])])])])]))
         == Success([
              GroupItem(OrderedList, "list", None),
              ListEntry(true, Some(0), "a"), TextItem(ParagraphText, Some(0), "a"),
              GroupItem(UnorderedList, "list", Some(0)),
              ListEntry(false, Some(3), "b"), TextItem(ParagraphText, Some(3), "b")])
  {
    var ib := ListItem([Paragraph([RawText("b")])]);
    var inner := List(false, [ib]);
    var pa := Paragraph([RawText("a")]);
    var ia := ListItem([pa, inner]);
    var outer := List(true, [ia]);
    ConvertRoot([outer]);
    VisitOne(outer, None, []);
    var g := [GroupItem(OrderedList, "list", None)];
    VisitUnfold(outer, None, []);
    assert Dispatch(outer, None, []) == Success((g, Some(0)));
    VisitOne(ia, Some(0), g);
    VisitUnfold(ia, Some(0), g);
    assert InlineText(RawText("a")) == "a";
    var d1 := g + [ListEntry(true, Some(0), "a")];
    assert ItemText(ia.children) == Success("a");
    assert Dispatch(ia, Some(0), g) == Success((d1, Some(0)));
    PlainText(pa, "a", Some(0), d1);
    var d2 := d1 + [TextItem(ParagraphText, Some(0), "a")];
    VisitOneThen(pa, [inner], Some(0), d1, d2);
    VisitOne(inner, Some(0), d2);
    VisitUnfold(inner, Some(0), d2);
    var d3 := d2 + [GroupItem(UnorderedList, "list", Some(0))];
    assert Dispatch(inner, Some(0), d2) == Success((d3, Some(3)));
    VisitOne(ib, Some(3), d3);
    PlainItem("b", Some(3), d3);
    assert !IsOrderedList(d3, 3);
    assert d3 + [ListEntry(false, Some(3), "b"), TextItem(ParagraphText, Some(3), "b")]
        == [ GroupItem(OrderedList, "list", None),
             ListEntry(true, Some(0), "a"), TextItem(ParagraphText, Some(0), "a"),
             GroupItem(UnorderedList, "list", Some(0)),
             ListEntry(false, Some(3), "b"), TextItem(ParagraphText, Some(3), "b")];
  }

  /**
   A standalone image without a title: a paragraph and then an uncaptioned
   picture, both on the body. The paragraph's text "alt" is the model's
   `InlineText` of the image; the program itself passes `str()` of the image's
   list of inline children (md_backend.py line 119), which the model does not
   reproduce.
   */
  lemma StandaloneImage()
    ensures Convert(Other([Paragraph([Image(None, "url", [RawText("alt")])])]))
         == Success([TextItem(ParagraphText, None, "alt"), PictureItem(None, None)])
  {
    var img := Image(None, "url", [RawText("alt")]);
    var p := Paragraph([img]);
    ConvertRoot([p]);
    VisitOne(p, None, []);
    VisitUnfold(p, None, []);
    assert InlineText(img) == "alt";
    var d := [TextItem(ParagraphText, None, "alt")];
    assert Dispatch(p, None, []) == Success((d, None));
    VisitOne(img, None, d);
    VisitUnfold(img, None, d);
    var d2 := d + [PictureItem(None, None)];
    assert Dispatch(img, None, d) == Success((d2, None));
    RawRunAppendsNothing([RawText("alt")], None, d2);
    assert d2 == [TextItem(ParagraphText, None, "alt"), PictureItem(None, None)];
  }

  /** The empty document converts to no items. */
  lemma EmptyDocument()
    ensures Convert(Other([])) == Success([])
  {
  }

  /** An empty paragraph aborts the conversion. */
  lemma EmptyParagraphFails()
    ensures Convert(Other([Paragraph([])])) == Failure(MissingChild)
  {
  }

  /** A list item outside any list or heading aborts the conversion. */
  lemma StrayListItemFails()
    ensures Convert(Other([ListItem([Paragraph([RawText("a")])])])) == Failure(NoParent)
  {
  }
}
