/**
 The parsed Markdown syntax tree the backend consumes, as produced by the
 GitHub-flavoured Markdown parser, and reference predicates over it.
 */
module MarkdownAst {
  import opened Wrappers

  /**
   One element of the syntax tree.
   - `Heading`, `List`, `ListItem`, `Paragraph`, `Image` are the kinds the
     backend handles; `Image` is the inline image with its optional title and
     its destination.
   - `RawText` stands for every element whose children are a plain string
     (raw text, code spans): walking that string's characters reaches no element.
   - `Other` is every remaining element (the document root, emphasis, links,
     block quotes, tables, ...), which the backend only walks through.
   */
  datatype Node =
    | Heading(level: int, children: seq<Node>)
    | List(ordered: bool, children: seq<Node>)
    | ListItem(children: seq<Node>)
    | Paragraph(children: seq<Node>)
    | Image(title: Option<string>, dest: string, children: seq<Node>)
    | RawText(text: string)
    | Other(children: seq<Node>)

  /** True for the kinds that make the backend append an item to the document. */
  predicate IsEmitter(n: Node) {
    n.Heading? || n.List? || n.ListItem? || n.Paragraph? || n.Image?
  }

  /**
   The text carried by an inline element: the string itself for raw text,
   otherwise the text of its raw-text leaves in document order.
   */
  function InlineText(n: Node): string
    decreases n
  {
    if n.RawText? then n.text else InlineTextAll(n.children)
  }

  function InlineTextAll(cs: seq<Node>): string
    decreases cs
  {
    if |cs| == 0 then "" else InlineText(cs[0]) + InlineTextAll(cs[1..])
  }

  /** Number of elements in the subtree whose kind emits an item. */
  function Emitted(n: Node): nat
    decreases n
  {
    if n.RawText? then 0 else (if IsEmitter(n) then 1 else 0) + EmittedAll(n.children)
  }

  function EmittedAll(cs: seq<Node>): nat
    decreases cs
  {
    if |cs| == 0 then 0 else Emitted(cs[0]) + EmittedAll(cs[1..])
  }

  /**
   A list item has the shape the backend reads its text from: a first block
   that is an element (not a bare string) with at least one inline child.
   */
  predicate WellShapedItem(cs: seq<Node>) {
    |cs| > 0 && !cs[0].RawText? && |cs[0].children| > 0
  }

  /**
   The element itself has every child the backend indexes into when handling
   it, and a list item is reached while some item is the current parent.
   `attached` says whether the caller passes a parent handle.
   */
  predicate ShapeOk(n: Node, attached: bool) {
    match n
    case Heading(_, cs) => |cs| > 0
    case ListItem(cs) => WellShapedItem(cs) && attached
    case Paragraph(cs) => |cs| > 0
    case _ => true
  }

  /** Whether the children of `n` are reached with a parent: always below a heading or a list. */
  function ChildAttached(n: Node, attached: bool): bool {
    n.Heading? || n.List? || attached
  }

  /** Every element of the subtree has the shape the backend expects where it is reached. */
  predicate Convertible(n: Node, attached: bool)
    decreases n
  {
    ShapeOk(n, attached) && (n.RawText? || ConvertibleAll(n.children, ChildAttached(n, attached)))
  }

  predicate ConvertibleAll(cs: seq<Node>, attached: bool)
    decreases cs
  {
    if |cs| == 0 then true else Convertible(cs[0], attached) && ConvertibleAll(cs[1..], attached)
  }
}
