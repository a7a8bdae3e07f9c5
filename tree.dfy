/** The parsed Markdown tree that both the folding builder and the header
    actions work on: typed nodes with `[start, end)` text ranges and ordered
    children. An element is identified by its path of child indices from the
    root, so that "previous sibling" and "parent" are computable. */
module MarkdownTree {

  datatype Option<T> = None | Some(value: T)

  /** ATX headers have levels 1 to 6. */
  type HeaderLevel = n: int | 1 <= n <= 6 witness 1

  /** The element types of a header: ATX_1 .. ATX_6, SETEXT_1, SETEXT_2. */
  datatype HeaderStyle = Atx(level: HeaderLevel) | Setext1 | Setext2

  /** Element and token types the core distinguishes; everything else
      (list items, inline text, the file itself, ...) is `Other`. */
  datatype Kind =
    | Header(style: HeaderStyle)
    | OrderedList
    | UnorderedList
    | Paragraph
    | BlockQuote
    | Table
    | CodeFence
    | Eol
    | Other(name: string)

  datatype Node = Node(kind: Kind, start: int, end: int, children: seq<Node>)

  /** Child indices from the root; `[]` is the root itself. */
  type Path = seq<nat>

  /** The node at `p`, or None when some index is out of range.
      Resolved from the back, so that the parent of `p` is `p[..|p|-1]`. */
  function Lookup(root: Node, p: Path): Option<Node>
    decreases |p|
  {
    if p == [] then Some(root)
    else
      match Lookup(root, p[..|p| - 1])
      case None => None
      case Some(n) => if p[|p| - 1] < |n.children| then Some(n.children[p[|p| - 1]]) else None
  }

  predicate ValidPath(root: Node, p: Path) {
    Lookup(root, p).Some?
  }

  function At(root: Node, p: Path): Node
    requires ValidPath(root, p)
  {
    Lookup(root, p).value
  }

  /** `getParent()`: None for the root. */
  function ParentOf(root: Node, p: Path): Option<Node>
    requires ValidPath(root, p)
  {
    if p == [] then None else Lookup(root, p[..|p| - 1])
  }

  /** Stepping to child `i` of the node at `p`. */
  lemma ChildAt(root: Node, p: Path, i: nat)
    requires ValidPath(root, p) && i < |At(root, p).children|
    ensures ValidPath(root, p + [i])
    ensures At(root, p + [i]) == At(root, p).children[i]
    ensures ParentOf(root, p + [i]) == Some(At(root, p))
  {
    assert (p + [i])[..|p|] == p;
  }

  /** The parent of a valid non-root path is valid, and the path's last index
      is in range for the parent's children. */
  lemma ParentValid(root: Node, p: Path)
    requires ValidPath(root, p) && p != []
    ensures ValidPath(root, p[..|p| - 1])
    ensures p[|p| - 1] < |At(root, p[..|p| - 1]).children|
    ensures At(root, p) == At(root, p[..|p| - 1]).children[p[|p| - 1]]
    ensures p == p[..|p| - 1] + [p[|p| - 1]]
  {
  }
}
