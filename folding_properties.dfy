/** What the two passes of the folding builder produce, stated over the
    whole tree: which elements get a descriptor, with which range, in
    which order. */
module FoldingProperties {
  import opened MarkdownTree
  import opened Folding

  // ---------------------------------------------------------------------
  // First pass
  // ---------------------------------------------------------------------

  /** The first pass reaches the node at `p`: no strict ancestor is a lone
      quoted paragraph (whose visit returns before walking its children). */
  ghost predicate Reached(root: Node, p: Path)
    decreases |p|
  {
    ValidPath(root, p) &&
    (p == [] ||
     (ParentValid(root, p);
      var up := p[..|p| - 1];
      Reached(root, up) && !IsLoneQuotedParagraph(At(root, up), ParentOf(root, up))))
  }

  /** `d` is the descriptor of a node the first pass offers: its own range,
      spanning two lines. */
  ghost predicate IsBlockDescriptor(root: Node, d: Descriptor, line: int -> int) {
    && ValidPath(root, d.element)
    && Reached(root, d.element)
    && Offered(At(root, d.element), ParentOf(root, d.element))
    && d.start == At(root, d.element).start
    && d.end == At(root, d.element).end
    && SpansLines(line, d.start, d.end)
  }

  lemma {:induction false} BlockRegionsSound(root: Node, n: Node, path: Path, parent: Option<Node>, line: int -> int)
    requires Reached(root, path) && At(root, path) == n && ParentOf(root, path) == parent
    ensures forall d :: d in BlockRegions(n, path, parent, line) ==> IsBlockDescriptor(root, d, line)
    decreases n, 1
  {
    if !IsLoneQuotedParagraph(n, parent) {
      ChildBlockRegionsSound(root, n, path, parent, |n.children|, line);
    }
  }

  lemma {:induction false} ChildBlockRegionsSound(root: Node, n: Node, path: Path, parent: Option<Node>, k: nat, line: int -> int)
    requires Reached(root, path) && At(root, path) == n && ParentOf(root, path) == parent
    requires !IsLoneQuotedParagraph(n, parent)
    requires k <= |n.children|
    ensures forall d :: d in ChildBlockRegions(n, path, k, line) ==> IsBlockDescriptor(root, d, line)
    decreases n, 0, k
  {
    if k > 0 {
      ChildBlockRegionsSound(root, n, path, parent, k - 1, line);
      ChildAt(root, path, k - 1);
      var child := path + [k - 1];
      assert child[..|child| - 1] == path;
      assert Reached(root, child);
      BlockRegionsSound(root, n.children[k - 1], child, Some(n), line);
    }
  }

  /** Everything a child's walk appends is part of its parent's walk. */
  lemma {:induction false} ChildBlockRegionsIncluded(n: Node, path: Path, i: nat, k: nat, d: Descriptor, line: int -> int)
    requires i < k <= |n.children|
    requires d in BlockRegions(n.children[i], path + [i], Some(n), line)
    ensures d in ChildBlockRegions(n, path, k, line)
    decreases k
  {
    if k - 1 != i {
      ChildBlockRegionsIncluded(n, path, i, k - 1, d, line);
    }
  }

  /** A descriptor appended below the node at `p` is in the whole first pass. */
  lemma {:induction false} BlockRegionLifts(root: Node, p: Path, d: Descriptor, line: int -> int)
    requires Reached(root, p)
    requires d in BlockRegions(At(root, p), p, ParentOf(root, p), line)
    ensures d in BlockRegions(root, [], None, line)
    decreases |p|
  {
    if p != [] {
      ParentValid(root, p);
      var up, i := p[..|p| - 1], p[|p| - 1];
      ChildAt(root, up, i);
      ChildBlockRegionsIncluded(At(root, up), up, i, |At(root, up).children|, d, line);
      BlockRegionLifts(root, up, d, line);
    }
  }

  /** A descriptor is in the first pass if and only if it carries the own
      range of an offered, reached, multi-line node. */
  lemma BlockPassExact(root: Node, d: Descriptor, line: int -> int)
    ensures d in BlockRegions(root, [], None, line) <==> IsBlockDescriptor(root, d, line)
  {
    assert Reached(root, []);
    if d in BlockRegions(root, [], None, line) {
      BlockRegionsSound(root, root, [], None, line);
    }
    if IsBlockDescriptor(root, d, line) {
      var n := At(root, d.element);
      assert BlockRegions(n, d.element, ParentOf(root, d.element), line)[0] == d;
      BlockRegionLifts(root, d.element, d, line);
    }
  }

  /** A paragraph whose parent block quote holds no other paragraph never
      gets a descriptor of its own. */
  lemma LoneQuotedParagraphNotFolded(root: Node, d: Descriptor, line: int -> int)
    requires d in BlockRegions(root, [], None, line)
    ensures ValidPath(root, d.element)
    ensures !IsLoneQuotedParagraph(At(root, d.element), ParentOf(root, d.element))
  {
    BlockPassExact(root, d, line);
  }

  // ---------------------------------------------------------------------
  // Second pass
  // ---------------------------------------------------------------------

  /** `d` is the section descriptor of a header: from the header's start to
      the end of `prevEndFolding`, spanning two lines. */
  ghost predicate IsHeaderDescriptor(root: Node, boundary: Path -> Option<Path>, d: Descriptor, line: int -> int)
    requires BoundariesValid(root, boundary)
  {
    && ValidPath(root, d.element)
    && At(root, d.element).kind.Header?
    && PrevEndFolding(root, boundary(d.element)).Some?
    && d.start == At(root, d.element).start
    && d.end == At(root, PrevEndFolding(root, boundary(d.element)).value).end
    && SpansLines(line, d.start, d.end)
  }

  lemma {:induction false} HeaderRegionsSound(root: Node, n: Node, path: Path, boundary: Path -> Option<Path>, line: int -> int)
    requires ValidPath(root, path) && At(root, path) == n && BoundariesValid(root, boundary)
    ensures forall d :: d in HeaderRegions(root, n, path, boundary, line) ==> IsHeaderDescriptor(root, boundary, d, line)
    decreases n, 1
  {
    ChildHeaderRegionsSound(root, n, path, boundary, |n.children|, line);
  }

  lemma {:induction false} ChildHeaderRegionsSound(root: Node, n: Node, path: Path, boundary: Path -> Option<Path>, k: nat, line: int -> int)
    requires ValidPath(root, path) && At(root, path) == n && BoundariesValid(root, boundary)
    requires k <= |n.children|
    ensures forall d :: d in ChildHeaderRegions(root, n, path, k, boundary, line) ==> IsHeaderDescriptor(root, boundary, d, line)
    decreases n, 0, k
  {
    if k > 0 {
      ChildHeaderRegionsSound(root, n, path, boundary, k - 1, line);
      ChildAt(root, path, k - 1);
      HeaderRegionsSound(root, n.children[k - 1], path + [k - 1], boundary, line);
    }
  }

  lemma {:induction false} ChildHeaderRegionsIncluded(root: Node, n: Node, path: Path, boundary: Path -> Option<Path>,
                                                      i: nat, k: nat, d: Descriptor, line: int -> int)
    requires ValidPath(root, path) && At(root, path) == n && BoundariesValid(root, boundary)
    requires i < k <= |n.children|
    requires ValidPath(root, path + [i]) && At(root, path + [i]) == n.children[i]
    requires d in HeaderRegions(root, n.children[i], path + [i], boundary, line)
    ensures d in ChildHeaderRegions(root, n, path, k, boundary, line)
    decreases k
  {
    if k - 1 != i {
      ChildHeaderRegionsIncluded(root, n, path, boundary, i, k - 1, d, line);
    }
  }

  lemma {:induction false} HeaderRegionLifts(root: Node, p: Path, boundary: Path -> Option<Path>, d: Descriptor, line: int -> int)
    requires ValidPath(root, p) && BoundariesValid(root, boundary)
    requires d in HeaderRegions(root, At(root, p), p, boundary, line)
    ensures d in HeaderRegions(root, root, [], boundary, line)
    decreases |p|
  {
    if p != [] {
      ParentValid(root, p);
      var up, i := p[..|p| - 1], p[|p| - 1];
      ChildAt(root, up, i);
      ChildHeaderRegionsIncluded(root, At(root, up), up, boundary, i, |At(root, up).children|, d, line);
      HeaderRegionLifts(root, up, boundary, d, line);
    }
  }

  /** A descriptor is in the second pass if and only if it is the section
      descriptor of a header whose `prevEndFolding` exists and whose section
      spans two lines. */
  lemma HeaderPassExact(root: Node, boundary: Path -> Option<Path>, d: Descriptor, line: int -> int)
    requires BoundariesValid(root, boundary)
    ensures d in HeaderRegions(root, root, [], boundary, line) <==> IsHeaderDescriptor(root, boundary, d, line)
  {
    if d in HeaderRegions(root, root, [], boundary, line) {
      HeaderRegionsSound(root, root, [], boundary, line);
    }
    if IsHeaderDescriptor(root, boundary, d, line) {
      var n := At(root, d.element);
      assert HeaderRegions(root, n, d.element, boundary, line)[0] == d;
      HeaderRegionLifts(root, d.element, boundary, d, line);
    }
  }

  /** Whole fold-region list: the block descriptors come first and are
      exactly the non-header ones; the header descriptors follow. */
  lemma PassesInSequence(root: Node, boundary: Path -> Option<Path>, line: int -> int)
    requires BoundariesValid(root, boundary)
    ensures var blocks := BlockRegions(root, [], None, line);
            var out := blocks + HeaderRegions(root, root, [], boundary, line);
            forall k :: 0 <= k < |out| ==>
              ValidPath(root, out[k].element) && (k < |blocks| <==> !At(root, out[k].element).kind.Header?)
  {
    var blocks: seq<Descriptor> := BlockRegions(root, [], None, line);
    var headers: seq<Descriptor> := HeaderRegions(root, root, [], boundary, line);
    forall k | 0 <= k < |blocks + headers|
      ensures ValidPath(root, (blocks + headers)[k].element)
      ensures k < |blocks| <==> !At(root, (blocks + headers)[k].element).kind.Header?
    {
      var d := (blocks + headers)[k];
      if k < |blocks| {
        assert d in blocks;
        BlockPassExact(root, d, line);
      } else {
        assert d in headers;
        HeaderPassExact(root, boundary, d, line);
      }
    }
  }

  // ---------------------------------------------------------------------
  // Where a header section ends
  // ---------------------------------------------------------------------

  /** `skipNewLinesBackward` of a non-root element: None exactly when every
      earlier sibling is an EOL, otherwise the nearest earlier non-EOL sibling. */
  lemma SkipNewLinesNearest(root: Node, p: Path)
    requires ValidPath(root, p) && p != []
    ensures ValidPath(root, p[..|p| - 1])
    ensures var siblings := At(root, p[..|p| - 1]).children; var i := p[|p| - 1];
            i < |siblings| &&
            (SkipNewLines(root, Some(p)).None? <==> forall j :: 0 <= j < i ==> siblings[j].kind == Eol) &&
            (SkipNewLines(root, Some(p)).Some? ==>
               exists j :: 0 <= j < i && SkipNewLines(root, Some(p)) == Some(p[..|p| - 1] + [j]) &&
                           siblings[j].kind != Eol && forall m :: j < m < i ==> siblings[m].kind == Eol)
  {
    ParentValid(root, p);
    var siblings := At(root, p[..|p| - 1]).children;
    var r := LastNonEolBefore(siblings, p[|p| - 1]);
    if r.Some? {
      assert SkipNewLines(root, Some(p)) == Some(p[..|p| - 1] + [r.value]);
    }
  }

  /** `prevEndFolding` is never an EOL: trailing blank lines are not folded. */
  lemma PrevEndFoldingNotEol(root: Node, endHeader: Option<Path>)
    requires endHeader.Some? ==> ValidPath(root, endHeader.value)
    ensures PrevEndFolding(root, endHeader).Some? ==> At(root, PrevEndFolding(root, endHeader).value).kind != Eol
  {
  }

  /** Without an ending header, the section runs to the last child of the
      file's last element that is not an EOL, and there is nothing to fold
      when that element has no such child. */
  lemma PrevEndFoldingAtFileEnd(root: Node)
    ensures var n := |root.children|;
            PrevEndFolding(root, None) ==
              if n == 0 then None
              else
                var last := root.children[n - 1];
                match LastNonEolBefore(last.children, |last.children|)
                case None => None
                case Some(j) => Some([n - 1, j])
  {
    var n := |root.children|;
    if n > 0 {
      var last := root.children[n - 1];
      var m := |last.children|;
      if m > 0 && last.children[m - 1].kind == Eol {
        var leaf := [n - 1, m - 1];
        assert leaf[..1] == [n - 1];
        ChildAt(root, [], n - 1);
        assert [] + [n - 1] == [n - 1];
        assert LastNonEolBefore(last.children, m) == LastNonEolBefore(last.children, m - 1);
        match LastNonEolBefore(last.children, m - 1)
        case None =>
        case Some(j) => assert [n - 1] + [j] == [n - 1, j];
      }
    }
  }

  /** Children are ordered and do not overlap. */
  ghost predicate SiblingsOrdered(root: Node) {
    forall p, j, k :: ValidPath(root, p) && 0 <= j < k < |At(root, p).children| ==>
      At(root, p).children[j].end <= At(root, p).children[k].start
  }

  /** With an ending header, the folded section stops before that header begins. */
  lemma SectionEndsBeforeBoundary(root: Node, b: Path)
    requires ValidPath(root, b) && SiblingsOrdered(root)
    requires PrevEndFolding(root, Some(b)).Some?
    ensures At(root, PrevEndFolding(root, Some(b)).value).end <= At(root, b).start
  {
    SkipNewLinesNearest(root, b);
    var up := b[..|b| - 1];
    var j :| 0 <= j < b[|b| - 1] && PrevEndFolding(root, Some(b)) == Some(up + [j]);
    ChildAt(root, up, j);
    ParentValid(root, b);
  }

  // ---------------------------------------------------------------------
  // Placeholder text
  // ---------------------------------------------------------------------

  /** Exactly the 11 kinds of TYPES_PRESENTATION_MAP have a name. */
  lemma PresentedKindsExactly(k: Kind)
    ensures PresentationKey(k).Some? <==> k in PresentedKinds
  {
    if k.Header? && k.style.Atx? {
      var l := k.style.level;
      assert l == 1 || l == 2 || l == 3 || l == 4 || l == 5 || l == 6;
    }
  }

  /** TYPES_PRESENTATION_MAP has 11 entries. */
  lemma PresentedKindsCount()
    ensures |PresentedKinds| == 11
  {
  }

  /** Distinct kinds are shown under distinct names. */
  lemma PresentationKeysDistinct(k1: Kind, k2: Kind)
    requires PresentationKey(k1).Some? && PresentationKey(k1) == PresentationKey(k2)
    ensures k1 == k2
  {
    var key := PresentationKey(k1).value;
    if k1.Header? {
      assert key[21] == (('0' as int) + k1.style.level) as char;
    }
    if k2.Header? {
      assert key[21] == (('0' as int) + k2.style.level) as char;
    }
  }

  /** The placeholder is the kind's name and ": " for the 11 named kinds,
      followed by the shortened text (at most 30 characters, 5 kept from
      the end); for every other kind it is the shortened text alone. */
  lemma PlaceholderShape(kind: Kind, text: string, message: string -> string, shorten: (string, int, int) -> string)
    ensures kind in PresentedKinds ==>
              PlaceholderText(kind, text, message, shorten) ==
              message(PresentationKey(kind).value) + ": " + shorten(text, 30, 5)
    ensures kind !in PresentedKinds ==> PlaceholderText(kind, text, message, shorten) == shorten(text, 30, 5)
  {
    PresentedKindsExactly(kind);
  }
}
