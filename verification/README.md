# Markdown backend conversion, modelled in Dafny

This project models the core of docling's Markdown backend. The backend's
`iterate_elements` walks the syntax tree produced by the GitHub-flavoured
Markdown parser depth-first, left to right, and appends items to a document:

- a title or section header for each heading;
- a list group for each list;
- a list entry for each list item;
- a paragraph text item for each paragraph;
- a picture for each inline image.

The walk threads a *current parent* handle down the tree. A heading or a list
becomes the parent of its own descendants. Every other element passes on the
parent it received. `convert` starts the walk at the parsed root with no parent.

The model is functional:

- The syntax tree is an inductive `Node` (`MarkdownAst`).
- The document is an append-only `seq<Item>` (`Document`). A handle is an item's
  index, and the document body is `None`.
- The walk is `Visit`/`VisitAll` over a non-recursive `Dispatch` that handles one
  element (`MdBackend`).
- A Python exception raised during the walk becomes a `Failure` of
  `Result<_, Error>` that aborts the whole conversion:
  - `MissingChild` is `children[0]` of an empty child list;
  - `NotAnElement` is `.children` of a string character;
  - `NoParent` is `.label` of a `None` parent.

The properties are proved against two independent references:

- `MarkdownAst.Convertible` is a shape predicate. The walk succeeds exactly when
  it holds.
- `Structure` builds a nested document tree from the syntax tree: headings and
  lists own their descendants, and other handled elements become leaves. The
  walk's output equals the pre-order serialisation of that tree, parent handles
  included.

Properties about one element (its label, text, numbering and parent) are in
`Properties`. `Scenarios` holds worked conversions of small documents.

The model follows the code in these details:

- A heading's text is its first inline child only, not the concatenation of its
  inline runs.
- Every top-level item has no parent, not only the first one.
- A heading is the parent of its own descendants only, not of the siblings that
  follow it.
- The paragraph inside a list item is emitted too, after the list entry and
  under the same parent.
- An image without a title gets no caption (`None`), not an empty string.
- There is no depth limit and no depth error.
- The `not_a_list_item` flag is set but never read, so it has no counterpart.

## Model

| member | source | states |
|---|---|---|
| MdBackend.ItemText | docling/backend/md_backend.py:106 | A list item's text is read exactly when its first block is an element with an inline child. The text is that inline child's text. A first block that is a non-empty bare string fails as `NotAnElement`. |
| MdBackend.HeadingLabel | docling/backend/md_backend.py:78-81 | The label is a title exactly when the level is 1, and a section header exactly when it is not. |
| MdBackend.ListLabel | docling/backend/md_backend.py:94-96 | The group is a numbered list exactly when the list is ordered, and a bulleted list exactly when it is not. |
| MdBackend.Emit | docling/backend/md_backend.py:84-131 | Each `add_*` call appends exactly the given item at the end and leaves every earlier item unchanged. The parent handed on is the new item's handle when the call's result is rebound to `parent_element` (a heading or a list), and the received parent otherwise. Either is a valid handle in the new document. |
| MdBackend.Dispatch | docling/backend/md_backend.py:73-131 | Handling one element succeeds exactly when it has the children indexed into and, for a list item, a parent exists. It appends exactly one item for the five handled kinds and none otherwise. That item hangs off the current parent. Only a heading or a list hands its children a new parent, namely its own item. |
| MdBackend.Visit | docling/backend/md_backend.py:136-139 | The walk only appends to the document. It appends exactly one item per handled element in the subtree. |
| MdBackend.VisitAll | docling/backend/md_backend.py:137-139 | Visiting siblings in order under one parent only appends, one item per handled element. |
| MdBackend.Convert | docling/backend/md_backend.py:157-167 | A successful conversion is well formed: each item hangs off the body or an earlier heading or list group, and a list entry is numbered exactly when its parent is a numbered group. It has one item per handled element. |
| MdBackend.DispatchPlacesItem | docling/backend/md_backend.py:84-131 | Under a parent that is the body or a container, the appended item is well placed, and so is the parent handed to the children. |
| MdBackend.VisitPlacesItems | docling/backend/md_backend.py:63-139 | Starting from such a parent, every item the walk appends is well placed. |
| Properties.VisitSucceedsIff | docling/backend/md_backend.py:73-139 | The walk succeeds exactly when every element has the children the backend indexes into and every list item is reached with a parent. |
| Properties.ConvertSucceedsIff | docling/backend/md_backend.py:157-167 | A document converts exactly when it is convertible from the body. |
| Properties.NothingHandledConvertsToNothing | docling/backend/md_backend.py:157-167 | A document with no handled element, such as the empty document, converts to no items without error. |
| Properties.TopLevelListItemFails | docling/backend/md_backend.py:103-108 | A list item reached with no parent always aborts. The error is `NoParent` exactly when its text could be read, because the text is read first. |
| Properties.HeadingAppendsTitleOrSectionHeader | docling/backend/md_backend.py:76-88 | A heading appends a text item under the current parent, with its first inline child's text. The item is a title exactly at level 1 and a section header otherwise. |
| Properties.ListAppendsGroup | docling/backend/md_backend.py:91-101 | A list appends a group named "list" under the current parent. The group is numbered exactly when the list is ordered. |
| Properties.ListItemAppendsEntry | docling/backend/md_backend.py:103-115 | A successful list item had a parent. It appends an entry under that parent, with its first block's first inline text, numbered exactly when the parent is a numbered group. |
| Properties.ParagraphAppendsText | docling/backend/md_backend.py:117-124 | A paragraph appends a paragraph text item under the current parent, with its first inline child's text. |
| Properties.ImageAppendsPicture | docling/backend/md_backend.py:126-131 | An image appends a picture under the current parent, captioned with the image's title. |
| Properties.ImageDestinationUnused | docling/backend/md_backend.py:126-131 | The image destination has no effect on the conversion. |
| Properties.FirstItemParent | docling/backend/md_backend.py:84-131 | The first item a handled element appends hangs off the current parent. A list item's entry is numbered exactly when that parent is a numbered group. |
| Properties.SiblingsShareParent | docling/backend/md_backend.py:137-139 | The i-th handled sibling's item comes right after everything the earlier siblings appended. It hangs off the parent of the run, even when earlier siblings are headings or lists. |
| Properties.ChildrenParent | docling/backend/md_backend.py:84-139 | The children of a heading or a list hang off that element's own item. The children of any other element hang off the parent the element received. |
| Properties.ListEntriesFollowTheirList | docling/backend/md_backend.py:91-115 | A list item directly inside a list yields an entry under that list's group, numbered exactly when the list is ordered. |
| Structure.DispatchAgrees | docling/backend/md_backend.py:73-131 | Handling one element appends exactly the root items of its document tree. It hands its children a parent of the kind their subtrees assume. |
| Structure.VisitIsFlattenedBuild | docling/backend/md_backend.py:63-139 | The walk appends exactly the pre-order serialisation of the nested document tree the subtree denotes, with every label, text, flag and parent. |
| Structure.ConvertIsFlattenedBuild | docling/backend/md_backend.py:157-167 | A convertible document converts to the serialisation of its document tree, with top-level trees on the body. |
| Scenarios.TitleThenParagraph | docling/backend/md_backend.py:76-124 | "# Title" followed by a paragraph gives a title and a paragraph, both on the body. |
| Scenarios.SectionHeaderTakesFirstInline | docling/backend/md_backend.py:76-88 | A level-2 heading with emphasis gives one section header whose text is only its first inline child. |
| Scenarios.BulletedList | docling/backend/md_backend.py:91-124 | A two-item bulleted list gives a bulleted group, then for each item an unnumbered entry and its paragraph, all under the group. |
| Scenarios.NumberedList | docling/backend/md_backend.py:91-124 | The same for a numbered list, with numbered entries. |
| Scenarios.NestedLists | docling/backend/md_backend.py:91-139 | A bulleted list nested in a numbered item hangs off the outer group. The inner entry is unnumbered and hangs off the inner group. |
| Scenarios.StandaloneImage | docling/backend/md_backend.py:117-131 | A standalone image gives a paragraph and then an uncaptioned picture, both on the body. |
| Scenarios.EmptyDocument | docling/backend/md_backend.py:157-167 | The empty document converts to no items. |
| Scenarios.EmptyParagraphFails | docling/backend/md_backend.py:117-119 | An empty paragraph aborts the conversion with a missing child. |
| Scenarios.StrayListItemFails | docling/backend/md_backend.py:103-108 | A top-level list item aborts the conversion for lack of a parent. |

## Left out

- File and stream reading, UTF-8 decoding, `__init__`, `is_valid`, `unload`, `supports_pagination` and `supported_formats`. They are I/O or constants. The model starts from the parsed tree.
- The `RuntimeError` raised from `__init__` (source lines 56-59). It wraps any failure to read the file or to decode it as UTF-8, such as an unreadable path or undecodable bytes, and is left out together with file reading.
- The `RuntimeError` in `convert` (source lines 169-172). It is unreachable: `__init__` sets `valid` to true (lines 42 and 53) or raises, so `is_valid` always holds when `convert` runs.
- The Markdown parser itself. The model takes its output as a `Node`, and elements the backend does not handle become `Other`.
- `DoclingDocument` internals. Its `add_*` calls are modelled as appending one item that records its label, text, flag, caption and parent handle, and nothing more. Provenance, references and the document name are left out. The `DoclingDocument` code is not part of this model, so any validation it applies is not modelled either. Examples are the plain-string caption `add_picture` receives, or a non-string heading text.
- `print` and logging calls, and the `depth` argument. They are diagnostic and do not affect the document.
- MdBackend.Dispatch: a heading or paragraph whose first inline child is not a bare string passes that child's list of elements (or its `str()`) as text. The model uses the concatenated text of the child's raw-text leaves instead, because a Python object's `repr` is not modellable. The same applies to a list item's text in `MdBackend.ItemText`.
- Tables and the other commented-out branches. They are not part of the executed code.
- Idempotence: it holds trivially, since `Convert` is a pure function of the tree.
