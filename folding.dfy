/** MarkdownFoldingBuilder: the fold regions of a Markdown file, computed in
    two passes (block elements, then header sections), the placeholder text
    of a collapsed region and the collapsed-by-default policy. */
module Folding {
  import opened MarkdownTree

  /** A `FoldingDescriptor`: the element it belongs to and the folded range. */
  datatype Descriptor = Descriptor(element: Path, start: int, end: int)

  /** The caller's mutable descriptor list. */
  class DescriptorList {
    var items: seq<Descriptor>

    constructor ()
      ensures items == []
    {
      items := [];
    }
  }

  // ---------------------------------------------------------------------
  // Admission of one candidate (addDescriptors)
  // ---------------------------------------------------------------------

  /** A range is folded only when its first and last character lie on
      different lines; `line` stands for `Document.getLineNumber`. */
  predicate SpansLines(line: int -> int, start: int, end: int) {
    line(start) != line(end - 1)
  }

  /** What `addDescriptors` appends for one candidate. */
  function Admit(element: Path, start: int, end: int, line: int -> int): seq<Descriptor> {
    if SpansLines(line, start, end) then [Descriptor(element, start, end)] else []
  }

  method AddDescriptors(element: Path, start: int, end: int, descriptors: DescriptorList, line: int -> int)
    modifies descriptors
    ensures SpansLines(line, start, end) ==>
              descriptors.items == old(descriptors.items) + [Descriptor(element, start, end)]
    ensures !SpansLines(line, start, end) ==> descriptors.items == old(descriptors.items)
  {
    if line(start) != line(end - 1) {
      descriptors.items := descriptors.items + [Descriptor(element, start, end)];
    }
  }

  // ---------------------------------------------------------------------
  // First pass: lists, paragraphs, tables, block quotes, code fences
  // ---------------------------------------------------------------------

  predicate IsBlockCandidate(k: Kind) {
    k.OrderedList? || k.UnorderedList? || k.Paragraph? || k.Table? || k.BlockQuote? || k.CodeFence?
  }

  /** `PsiTreeUtil.findChildrenOfType(n, MarkdownParagraphImpl.class).size()`:
      paragraphs strictly below `n`. */
  function ParagraphCount(n: Node): nat
    decreases n, 1
  {
    ParagraphCountIn(n, |n.children|)
  }

  /** Paragraphs in the subtrees of the first `k` children of `n`, those children included. */
  function ParagraphCountIn(n: Node, k: nat): nat
    requires k <= |n.children|
    decreases n, 0, k
  {
    if k == 0 then 0
    else
      var c := n.children[k - 1];
      ParagraphCountIn(n, k - 1) + (if c.kind == Paragraph then 1 else 0) + ParagraphCount(c)
  }

  /** The paragraph the first pass returns on: its parent is a block quote
      holding at most one paragraph. */
  predicate IsLoneQuotedParagraph(n: Node, parent: Option<Node>) {
    n.kind == Paragraph && parent.Some? && parent.value.kind == BlockQuote && ParagraphCount(parent.value) <= 1
  }

  /** A node the first pass hands to `addDescriptors`. */
  predicate Offered(n: Node, parent: Option<Node>) {
    IsBlockCandidate(n.kind) && !IsLoneQuotedParagraph(n, parent)
  }

  /** The descriptors the first pass appends while visiting `n` (found at
      `path`, below `parent`): its own candidate first, then its children in order. */
  function BlockRegions(n: Node, path: Path, parent: Option<Node>, line: int -> int): seq<Descriptor>
    decreases n, 1
  {
    if IsLoneQuotedParagraph(n, parent) then []
    else OwnBlockRegion(n, path, line) + ChildBlockRegions(n, path, |n.children|, line)
  }

  function OwnBlockRegion(n: Node, path: Path, line: int -> int): seq<Descriptor> {
    if IsBlockCandidate(n.kind) then Admit(path, n.start, n.end, line) else []
  }

  /** The descriptors of the first `k` children of `n`, in order. */
  function ChildBlockRegions(n: Node, path: Path, k: nat, line: int -> int): seq<Descriptor>
    requires k <= |n.children|
    decreases n, 0, k
  {
    if k == 0 then []
    else ChildBlockRegions(n, path, k - 1, line) + BlockRegions(n.children[k - 1], path + [k - 1], Some(n), line)
  }

  /** The first visitor: the overridden `visitElement` visits and then walks
      the children; the specialised visits add their own candidate first, and
      a lone quoted paragraph returns before both. */
  method VisitBlocks(n: Node, path: Path, parent: Option<Node>, descriptors: DescriptorList, line: int -> int)
    modifies descriptors
    decreases n
    ensures descriptors.items == old(descriptors.items) + BlockRegions(n, path, parent, line)
  {
    if IsLoneQuotedParagraph(n, parent) {
      return;
    }
    ghost var before := descriptors.items;
    if IsBlockCandidate(n.kind) {
      AddDescriptors(path, n.start, n.end, descriptors, line);
    }
    ghost var own := OwnBlockRegion(n, path, line);
    ghost var walked: seq<Descriptor> := [];
    var i := 0;
    while i < |n.children|
      invariant 0 <= i <= |n.children|
      invariant walked == ChildBlockRegions(n, path, i, line)
      invariant descriptors.items == before + own + walked
    {
      ghost var child := BlockRegions(n.children[i], path + [i], Some(n), line);
      VisitBlocks(n.children[i], path + [i], Some(n), descriptors, line);
      AppendAssociative(before + own, walked, child);
      walked := walked + child;
      i := i + 1;
    }
    AppendAssociative(before, own, walked);
  }

  lemma AppendAssociative(a: seq<Descriptor>, b: seq<Descriptor>, c: seq<Descriptor>)
    ensures (a + b) + c == a + (b + c)
  {
  }

  // ---------------------------------------------------------------------
  // skipNewLinesBackward
  // ---------------------------------------------------------------------

  /** The index of the nearest sibling before index `i` that is not an EOL. */
  function LastNonEolBefore(sibs: seq<Node>, i: nat): (r: Option<nat>)
    requires i <= |sibs|
    ensures r.Some? ==> r.value < i && sibs[r.value].kind != Eol
    ensures r.Some? ==> forall j :: r.value < j < i ==> sibs[j].kind == Eol
    ensures r.None? <==> forall j :: 0 <= j < i ==> sibs[j].kind == Eol
  {
    if i == 0 then None
    else if sibs[i - 1].kind != Eol then Some(i - 1)
    else LastNonEolBefore(sibs, i - 1)
  }

  /** `skipNewLinesBackward` as a function: null for null and for the root
      (which has no siblings), else the nearest earlier non-EOL sibling. */
  function SkipNewLines(root: Node, element: Option<Path>): (r: Option<Path>)
    requires element.Some? ==> ValidPath(root, element.value)
    ensures r.Some? ==> ValidPath(root, r.value) && At(root, r.value).kind != Eol
  {
    if element.None? || element.value == [] then None
    else
      var p := element.value;
      ParentValid(root, p);
      var parentPath := p[..|p| - 1];
      match LastNonEolBefore(At(root, parentPath).children, p[|p| - 1])
      case None => None
      case Some(j) => ChildAt(root, parentPath, j); Some(parentPath + [j])
  }

  /** The loop of `skipNewLinesBackward`, stepping `e = e.getPrevSibling()`. */
  method SkipNewLinesBackward(root: Node, element: Option<Path>) returns (r: Option<Path>)
    requires element.Some? ==> ValidPath(root, element.value)
    ensures r == SkipNewLines(root, element)
    ensures element.None? ==> r.None?
    ensures r.Some? ==> var p := element.value; var q := r.value;
              p != [] && |q| == |p| && q[..|q| - 1] == p[..|p| - 1] && q[|q| - 1] < p[|p| - 1] &&
              At(root, q).kind != Eol
  {
    if element.None? || element.value == [] {
      return None;
    }
    var p := element.value;
    ParentValid(root, p);
    var parentPath := p[..|p| - 1];
    var siblings := At(root, parentPath).children;
    var i := p[|p| - 1];
    var e := i;
    while e > 0
      invariant 0 <= e <= i
      invariant LastNonEolBefore(siblings, i) == LastNonEolBefore(siblings, e)
    {
      if siblings[e - 1].kind != Eol {
        ChildAt(root, parentPath, e - 1);
        assert (parentPath + [e - 1])[..|p| - 1] == parentPath;
        return Some(parentPath + [e - 1]);
      }
      e := e - 1;
    }
    return None;
  }

  // ---------------------------------------------------------------------
  // Second pass: header sections
  // ---------------------------------------------------------------------

  /** `file.getLastChild().getLastChild()`, the root standing for the file.
      A file without children holds no header, so the first None is never
      consulted; the second is the null of a childless last child. */
  function LastFileLeaf(root: Node): (r: Option<Path>)
    ensures r.Some? ==> ValidPath(root, r.value) && |root.children| > 0
    ensures r.Some? ==> var last := root.children[|root.children| - 1];
              |last.children| > 0 && At(root, r.value) == last.children[|last.children| - 1]
    ensures r.None? <==> |root.children| == 0 || |root.children[|root.children| - 1].children| == 0
    ensures r.Some? ==> r.value == [|root.children| - 1, |root.children[|root.children| - 1].children| - 1]
  {
    if |root.children| == 0 then None
    else
      var k := |root.children| - 1;
      var last := root.children[k];
      if |last.children| == 0 then None
      else
        ChildAt(root, [], k);
        assert [] + [k] == [k];
        ChildAt(root, [k], |last.children| - 1);
        assert [k] + [|last.children| - 1] == [k, |last.children| - 1];
        Some([k, |last.children| - 1])
  }

  /** `prevEndFolding` for a header whose section ends at `endHeader`
      (None: the section runs to the end of the file). */
  function PrevEndFolding(root: Node, endHeader: Option<Path>): (r: Option<Path>)
    requires endHeader.Some? ==> ValidPath(root, endHeader.value)
    ensures r.Some? ==> ValidPath(root, r.value)
  {
    if endHeader.None? then
      var last := LastFileLeaf(root);
      if last.Some? && At(root, last.value).kind == Eol then SkipNewLines(root, last) else last
    else SkipNewLines(root, endHeader)
  }

  /** Every end header `MarkdownPsiUtil.processContainer` reports is an element of the tree. */
  ghost predicate BoundariesValid(root: Node, boundary: Path -> Option<Path>) {
    forall p {:trigger boundary(p)} :: ValidPath(root, p) && boundary(p).Some? ==> ValidPath(root, boundary(p).value)
  }

  /** What the section callback of the header at `path` appends when its
      section ends at `endHeader`. */
  function SectionRegion(root: Node, path: Path, endHeader: Option<Path>, line: int -> int): seq<Descriptor>
    requires ValidPath(root, path)
    requires endHeader.Some? ==> ValidPath(root, endHeader.value)
  {
    match PrevEndFolding(root, endHeader)
    case None => []
    case Some(q) => Admit(path, At(root, path).start, At(root, q).end, line)
  }

  /** What the second pass appends for the node at `path` itself. */
  function HeaderRegion(root: Node, path: Path, boundary: Path -> Option<Path>, line: int -> int): seq<Descriptor>
    requires ValidPath(root, path) && BoundariesValid(root, boundary)
  {
    if At(root, path).kind.Header? then SectionRegion(root, path, boundary(path), line) else []
  }

  /** The descriptors the second pass appends while visiting `n`, found at `path`. */
  function HeaderRegions(root: Node, n: Node, path: Path, boundary: Path -> Option<Path>, line: int -> int): seq<Descriptor>
    requires ValidPath(root, path) && At(root, path) == n && BoundariesValid(root, boundary)
    decreases n, 1
  {
    HeaderRegion(root, path, boundary, line) + ChildHeaderRegions(root, n, path, |n.children|, boundary, line)
  }

  function ChildHeaderRegions(root: Node, n: Node, path: Path, k: nat, boundary: Path -> Option<Path>, line: int -> int): seq<Descriptor>
    requires ValidPath(root, path) && At(root, path) == n && BoundariesValid(root, boundary)
    requires k <= |n.children|
    decreases n, 0, k
  {
    if k == 0 then []
    else
      ChildAt(root, path, k - 1);
      ChildHeaderRegions(root, n, path, k - 1, boundary, line) +
      HeaderRegions(root, n.children[k - 1], path + [k - 1], boundary, line)
  }

  /** The end-of-section callback of `visitHeader`. */
  method FoldHeaderSection(root: Node, path: Path, endHeader: Option<Path>, descriptors: DescriptorList, line: int -> int)
    requires ValidPath(root, path) && At(root, path).kind.Header?
    requires endHeader.Some? ==> ValidPath(root, endHeader.value)
    modifies descriptors
    ensures descriptors.items == old(descriptors.items) + SectionRegion(root, path, endHeader, line)
  {
    var lastFileChild := LastFileLeaf(root);
    var prevEndFolding;
    if endHeader.None? {
      if lastFileChild.Some? && At(root, lastFileChild.value).kind == Eol {
        prevEndFolding := SkipNewLinesBackward(root, lastFileChild);
      } else {
        prevEndFolding := lastFileChild;
      }
    } else {
      prevEndFolding := SkipNewLinesBackward(root, endHeader);
    }
    if prevEndFolding.None? {
      return;
    }
    AddDescriptors(path, At(root, path).start, At(root, prevEndFolding.value).end, descriptors, line);
  }

  /** What `visitHeader` does for the node at `path` before walking its
      children: a header folds its section. */
  method FoldOwnSection(root: Node, path: Path, boundary: Path -> Option<Path>,
                        descriptors: DescriptorList, line: int -> int)
    requires ValidPath(root, path) && BoundariesValid(root, boundary)
    modifies descriptors
    ensures descriptors.items == old(descriptors.items) + HeaderRegion(root, path, boundary, line)
  {
    if At(root, path).kind.Header? {
      FoldHeaderSection(root, path, boundary(path), descriptors, line);
    }
  }

  /** The second visitor (a recursive visitor): every node is visited, a
      header folds its section before its children are walked. */
  method VisitHeaders(root: Node, n: Node, path: Path, boundary: Path -> Option<Path>,
                      descriptors: DescriptorList, line: int -> int)
    requires ValidPath(root, path) && At(root, path) == n && BoundariesValid(root, boundary)
    modifies descriptors
    decreases n, 1
    ensures descriptors.items == old(descriptors.items) + HeaderRegions(root, n, path, boundary, line)
  {
    ghost var before := descriptors.items;
    FoldOwnSection(root, path, boundary, descriptors, line);
    ghost var own := HeaderRegion(root, path, boundary, line);
    VisitHeaderChildren(root, n, path, boundary, descriptors, line);
    AppendAssociative(before, own, ChildHeaderRegions(root, n, path, |n.children|, boundary, line));
  }

  /** The walk over the children of `n` that `visitElement` hands on to. */
  method VisitHeaderChildren(root: Node, n: Node, path: Path, boundary: Path -> Option<Path>,
                             descriptors: DescriptorList, line: int -> int)
    requires ValidPath(root, path) && At(root, path) == n && BoundariesValid(root, boundary)
    modifies descriptors
    decreases n, 0
    ensures descriptors.items == old(descriptors.items) + ChildHeaderRegions(root, n, path, |n.children|, boundary, line)
  {
    ghost var walked: seq<Descriptor> := [];
    var i := 0;
    while i < |n.children|
      invariant 0 <= i <= |n.children|
      invariant walked == ChildHeaderRegions(root, n, path, i, boundary, line)
      invariant descriptors.items == old(descriptors.items) + walked
    {
      ChildHeaderRegionsStep(root, n, path, i, boundary, line);
      ghost var child := HeaderRegions(root, n.children[i], path + [i], boundary, line);
      VisitHeaders(root, n.children[i], path + [i], boundary, descriptors, line);
      AppendAssociative(old(descriptors.items), walked, child);
      walked := walked + child;
      i := i + 1;
    }
  }

  /** One more child of `n` adds that child's walk at the end. */
  lemma ChildHeaderRegionsStep(root: Node, n: Node, path: Path, i: nat, boundary: Path -> Option<Path>, line: int -> int)
    requires ValidPath(root, path) && At(root, path) == n && BoundariesValid(root, boundary)
    requires i < |n.children|
    ensures ValidPath(root, path + [i]) && At(root, path + [i]) == n.children[i]
    ensures ChildHeaderRegions(root, n, path, i + 1, boundary, line) ==
            ChildHeaderRegions(root, n, path, i, boundary, line) + HeaderRegions(root, n.children[i], path + [i], boundary, line)
  {
    ChildAt(root, path, i);
  }

  /** `buildLanguageFoldRegions`: the block pass, then the header pass, both
      appending to the caller's list. `boundary` stands for the end header
      that `MarkdownPsiUtil.processContainer` reports for each header. */
  method BuildLanguageFoldRegions(descriptors: DescriptorList, root: Node, line: int -> int,
                                  boundary: Path -> Option<Path>)
    requires BoundariesValid(root, boundary)
    modifies descriptors
    ensures descriptors.items == old(descriptors.items) + BlockRegions(root, [], None, line) +
                                 HeaderRegions(root, root, [], boundary, line)
  {
    VisitBlocks(root, [], None, descriptors, line);
    VisitHeaders(root, root, [], boundary, descriptors, line);
  }

  // ---------------------------------------------------------------------
  // Placeholder text and collapse policy
  // ---------------------------------------------------------------------

  /** The message key TYPES_PRESENTATION_MAP holds for a kind, if any. */
  function PresentationKey(k: Kind): (r: Option<string>)
    ensures r.Some? ==> |r.value| > 22 && r.value[..17] == "markdown.folding." && r.value[|r.value| - 5..] == ".name"
  {
    match k
    case Header(Atx(level)) => Some("markdown.folding.atx." + [(('0' as int) + level) as char] + ".name")
    case OrderedList => Some("markdown.folding.ordered.list.name")
    case UnorderedList => Some("markdown.folding.unordered.list.name")
    case BlockQuote => Some("markdown.folding.block.quote.name")
    case Table => Some("markdown.folding.table.name")
    case CodeFence => Some("markdown.folding.code.fence.name")
    case _ => None
  }

  /** The 11 kinds with a presentation name. */
  const PresentedKinds: set<Kind> :=
    {Header(Atx(1)), Header(Atx(2)), Header(Atx(3)), Header(Atx(4)), Header(Atx(5)), Header(Atx(6)),
     OrderedList, UnorderedList, BlockQuote, Table, CodeFence}

  const PlaceholderMaxLength := 30
  const PlaceholderSuffixLength := 5

  /** `getLanguagePlaceholderText`: `message` is the localised bundle and
      `shorten` is `StringUtil.shortenTextWithEllipsis`. */
  function PlaceholderText(kind: Kind, text: string, message: string -> string,
                           shorten: (string, int, int) -> string): (s: string)
    ensures var short := shorten(text, PlaceholderMaxLength, PlaceholderSuffixLength);
            |short| <= |s| && s[|s| - |short|..] == short
    ensures PresentationKey(kind).None? ==> s == shorten(text, PlaceholderMaxLength, PlaceholderSuffixLength)
  {
    var prefix := match PresentationKey(kind)
                  case Some(key) => message(key) + ": "
                  case None => "";
    prefix + shorten(text, PlaceholderMaxLength, PlaceholderSuffixLength)
  }

  /** `isRegionCollapsedByDefault`. */
  function IsRegionCollapsedByDefault(n: Node): (collapsed: bool)
    ensures !collapsed
  {
    false
  }
}
