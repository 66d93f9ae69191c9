/**
 The document the backend builds: an append-only sequence of items, where a
 handle to an item is its index and every item names its parent by handle.
 */
module Document {
  import opened Wrappers

  /** Labels of the text items the backend adds (title, section header, paragraph). */
  datatype TextLabel = Title | SectionHeader | ParagraphText

  /** Labels of the group items the backend adds (bulleted or numbered list). */
  datatype GroupLabel = UnorderedList | OrderedList

  /** The index of an earlier item, or `None` for the document body. */
  type Handle = Option<nat>

  /** One item as appended by `add_text`, `add_group`, `add_list_item` or `add_picture`. */
  datatype Item =
    | TextItem(kind: TextLabel, parent: Handle, text: string)
    | GroupItem(group: GroupLabel, name: string, parent: Handle)
    | ListEntry(enumerated: bool, parent: Handle, text: string)
    | PictureItem(parent: Handle, caption: Option<string>)

  /** `h` is the body or names an item already in `doc`. */
  predicate ValidHandle(doc: seq<Item>, h: Handle) {
    h.None? || h.value < |doc|
  }

  /** A heading or a group: the kinds of item that can be a parent. */
  predicate IsContainer(it: Item) {
    it.GroupItem? || (it.TextItem? && it.kind != ParagraphText)
  }

  /** The item at `p` is a numbered-list group. */
  predicate IsOrderedList(doc: seq<Item>, p: nat)
    requires p < |doc|
  {
    doc[p].GroupItem? && doc[p].group == OrderedList
  }

  /** `h` is the body or names a container item of `doc`. */
  predicate Attachable(doc: seq<Item>, h: Handle) {
    h.None? || (h.value < |doc| && IsContainer(doc[h.value]))
  }

  /**
   Item `i` hangs off the body or off a container added strictly before it,
   and a list entry has a parent whose numbering its `enumerated` flag repeats.
   */
  predicate ItemOk(doc: seq<Item>, i: nat)
    requires i < |doc|
  {
    var it := doc[i];
    && (it.parent.None? || (it.parent.value < i && IsContainer(doc[it.parent.value])))
    && (it.ListEntry? ==> it.parent.Some? && it.enumerated == IsOrderedList(doc, it.parent.value))
  }

  /** Every item is well placed: the items form a forest in insertion order. */
  predicate WellFormed(doc: seq<Item>) {
    forall i :: 0 <= i < |doc| ==> ItemOk(doc, i)
  }

  /** `r` is `doc` with zero or more items appended. */
  predicate Extends(doc: seq<Item>, r: seq<Item>) {
    |doc| <= |r| && r[..|doc|] == doc
  }

  /** Every item `r` holds beyond the prefix `doc` is well placed in `r`. */
  predicate NewItemsOk(doc: seq<Item>, r: seq<Item>) {
    forall i :: |doc| <= i < |r| ==> ItemOk(r, i)
  }

  /** Appending items never changes whether an earlier item is well placed. */
  lemma ItemOkStable(mid: seq<Item>, r: seq<Item>, i: nat)
    requires Extends(mid, r) && i < |mid|
    ensures ItemOk(r, i) == ItemOk(mid, i)
  {
    assert r[i] == r[..|mid|][i];
    var p := r[i].parent;
    if p.Some? && p.value < i {
      assert r[p.value] == r[..|mid|][p.value];
    }
  }

  /** Two successive extensions whose new items are well placed compose. */
  lemma Chain(doc: seq<Item>, mid: seq<Item>, r: seq<Item>)
    requires Extends(doc, mid) && Extends(mid, r)
    requires NewItemsOk(doc, mid) && NewItemsOk(mid, r)
    ensures Extends(doc, r) && NewItemsOk(doc, r)
  {
    assert r[..|doc|] == r[..|mid|][..|doc|];
    forall i | |doc| <= i < |mid|
      ensures ItemOk(r, i)
    {
      ItemOkStable(mid, r, i);
    }
  }

  /** A well-formed document extended by well-placed items is well formed. */
  lemma ExtendWellFormed(doc: seq<Item>, r: seq<Item>)
    requires WellFormed(doc) && Extends(doc, r) && NewItemsOk(doc, r)
    ensures WellFormed(r)
  {
    forall i | 0 <= i < |doc|
      ensures ItemOk(r, i)
    {
      ItemOkStable(doc, r, i);
    }
  }

  lemma ExtendsTrans(doc: seq<Item>, mid: seq<Item>, r: seq<Item>)
    requires Extends(doc, mid) && Extends(mid, r)
    ensures Extends(doc, r)
  {
    assert r[..|doc|] == r[..|mid|][..|doc|];
  }

  /** Appending items keeps a handle valid and attachable. */
  lemma AttachableStable(doc: seq<Item>, r: seq<Item>, h: Handle)
    requires Extends(doc, r)
    ensures ValidHandle(doc, h) ==> ValidHandle(r, h)
    ensures Attachable(doc, h) ==> Attachable(r, h)
  {
    if h.Some? && h.value < |doc| {
      assert r[h.value] == r[..|doc|][h.value];
    }
  }

  /** Appending an item attached to an attachable handle adds one well-placed item. */
  lemma AppendOk(doc: seq<Item>, item: Item)
    requires ValidHandle(doc, item.parent)
    requires item.ListEntry? ==> item.parent.Some? && item.enumerated == IsOrderedList(doc, item.parent.value)
    ensures Extends(doc, doc + [item])
    ensures Attachable(doc, item.parent) ==> NewItemsOk(doc, doc + [item])
  {
    var d := doc + [item];
    assert d[..|doc|] == doc;
    if item.parent.Some? {
      assert d[item.parent.value] == doc[item.parent.value];
    }
    if Attachable(doc, item.parent) {
      assert ItemOk(d, |doc|);
    }
  }
}
