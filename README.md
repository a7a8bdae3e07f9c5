# Markdown folding and header-level actions, modelled in Dafny

This project models two parts of an IntelliJ Markdown plugin and proves
properties of them.

- **`MarkdownFoldingBuilder`** computes the fold regions of a parsed Markdown
  file. It makes two visitor passes and appends to the caller's descriptor list:
  - The block pass offers lists, paragraphs, tables, block quotes and code
    fences. A paragraph whose parent block quote holds at most one paragraph
    is not offered, and its subtree is not walked.
  - The header pass offers each header with a range that runs from the header's
    start to the end of its section's last non-EOL element.
  - `addDescriptors` admits a range only when its first and last characters
    lie on different lines.
  - The file also gives the placeholder text of a collapsed region and the
    collapsed-by-default policy.
- **`MarkdownHeaderAction`** raises or lowers the header level at every caret:
  - the level arithmetic is modulo 7, with Java's remainder;
  - the replacement is a Setext header, an ATX header or plain text;
  - `findParent` resolves a caret or selection to a target;
  - `actionPerformed` loops over the carets from last to first.

Files:

- `tree.dfy` (module `MarkdownTree`): the parsed tree. Nodes have a kind, a
  `[start, end)` range and ordered children. An element is named by its path of
  child indices. `Lookup`, `At` and `ParentOf` stand in for PSI navigation.
- `folding.dfy` (module `Folding`): the folding builder.
  - The caller's list is the class `DescriptorList`.
  - `AddDescriptors`, `VisitBlocks`, `VisitHeaders`, `VisitHeaderChildren`, `FoldHeaderSection`,
    `SkipNewLinesBackward` and `BuildLanguageFoldRegions` are methods that append
    to it or loop.
  - Each method is proved against a specification function: `BlockRegions`,
    `HeaderRegions`, `SectionRegion` or `SkipNewLines`.
- `folding_properties.dfy` (module `FoldingProperties`): what the two passes
  produce over the whole tree, where a section ends, and the placeholder table.
- `header_action.dfy` (module `HeaderAction`): the level arithmetic, the
  replacement element, `findParent`, and the caret loop as the method
  `ActionPerformed` over an `EditLog`.
- `header_action_properties.dfy` (module `HeaderActionProperties`): the levels
  reached, the elements produced, raise/lower round trips, caret resolution and
  how the caret loop stops.

Inputs the code receives from its host are parameters:

- `line: int -> int` stands for `Document.getLineNumber`.
- `boundary: Path -> Option<Path>` is the end header that
  `MarkdownPsiUtil.processContainer` reports for a header. None means the end
  of the file.
- `message` stands for the localised bundle.
- `shorten` stands for `StringUtil.shortenTextWithEllipsis`.
- `FileView` bundles the services `findParent` consults: the next and previous
  visible leaf, the common parent of the allowed types, the document length and
  the line of an offset.
- The level function `f` is supplied by the concrete action. `Increment` and
  `Decrement` are the two used.

Behaviour of the code worth knowing, kept exactly as written:

- A caret that resolves to no target is not skipped.
  `Objects.requireNonNull(findParent(...))` (MarkdownHeaderAction.java:96)
  throws, so the remaining carets are not processed. `update` (lines 72-79)
  normally disables the action in that case. `ActionPerformed` then stops with
  `completed == false` and keeps the edits already made.
- Plain text shifted to level 0 still asks the element factory for a header of
  level `(f(0)+7) % 7`, that is 0. The model records `AtxHeader(text, 0)` in
  that case. Neither `Increment` nor `Decrement` reaches it.
- For a paragraph target, `findParent` compares the lines of the paragraph's
  `start` and `end` offsets. `addDescriptors` uses `end - 1`. The model keeps
  both exactly as written.

## Model

| member | source | states |
|---|---|---|
| `Folding.AddDescriptors` | src/org/jetbrains/projector/plugins/markdown/folding/MarkdownFoldingBuilder.java:164-171 | appends exactly one descriptor `(element, range)` when `line(start) != line(end-1)`. Otherwise the list is unchanged. Earlier entries are never altered. |
| `Folding.VisitBlocks` | src/org/jetbrains/projector/plugins/markdown/folding/MarkdownFoldingBuilder.java:74-119 | the first visitor appends exactly `BlockRegions` to the list. That is the node's own admitted candidate first, then its children's in order. A lone quoted paragraph returns before both. |
| `Folding.LastNonEolBefore` | src/org/jetbrains/projector/plugins/markdown/folding/MarkdownFoldingBuilder.java:176-179 | yields the nearest index before `i` whose sibling is not EOL, with only EOLs between. It yields None exactly when every earlier sibling is EOL. |
| `Folding.SkipNewLines` | src/org/jetbrains/projector/plugins/markdown/folding/MarkdownFoldingBuilder.java:173-180 | the result of `skipNewLinesBackward` is a valid element and never an EOL |
| `Folding.SkipNewLinesBackward` | src/org/jetbrains/projector/plugins/markdown/folding/MarkdownFoldingBuilder.java:173-180 | the backward loop returns null for null. Otherwise it returns an earlier sibling of the element, never the element itself, and that sibling is not EOL. The result equals `SkipNewLines`. |
| `Folding.LastFileLeaf` | src/org/jetbrains/projector/plugins/markdown/folding/MarkdownFoldingBuilder.java:126 | `getLastChild().getLastChild()` of the file is the path to the last child of the file's last child. It is null exactly when the file or that last child has no children. |
| `Folding.PrevEndFolding` | src/org/jetbrains/projector/plugins/markdown/folding/MarkdownFoldingBuilder.java:128-135 | `prevEndFolding` is null or a valid element of the tree |
| `Folding.FoldHeaderSection` | src/org/jetbrains/projector/plugins/markdown/folding/MarkdownFoldingBuilder.java:125-143 | the section callback appends nothing when `prevEndFolding` is null. Otherwise it appends the admitted range from the header's start to `prevEndFolding`'s end. |
| `Folding.VisitHeaders` | src/org/jetbrains/projector/plugins/markdown/folding/MarkdownFoldingBuilder.java:121-147 | the second visitor appends exactly `HeaderRegions`: every node is visited, and a header folds its section before its children are walked |
| `Folding.VisitHeaderChildren` | src/org/jetbrains/projector/plugins/markdown/folding/MarkdownFoldingBuilder.java:145 | walking the children in order appends the header-pass descriptors of each child's subtree, first child first |
| `Folding.BuildLanguageFoldRegions` | src/org/jetbrains/projector/plugins/markdown/folding/MarkdownFoldingBuilder.java:69-148 | the list becomes the old list, then the block-pass descriptors, then the header-pass descriptors |
| `Folding.IsRegionCollapsedByDefault` | src/org/jetbrains/projector/plugins/markdown/folding/MarkdownFoldingBuilder.java:159-162 | no region is collapsed by default |
| `FoldingProperties.BlockRegionsSound` | src/org/jetbrains/projector/plugins/markdown/folding/MarkdownFoldingBuilder.java:76-118 | every block descriptor names a reached node that is offered: a list, table, block quote, code fence, or paragraph other than a lone quoted one. The descriptor carries exactly that node's own range, and the range spans two lines. |
| `FoldingProperties.BlockPassExact` | src/org/jetbrains/projector/plugins/markdown/folding/MarkdownFoldingBuilder.java:74-119 | a descriptor is in the block pass if and only if it is the own-range descriptor of a reached, offered node that spans two lines |
| `FoldingProperties.LoneQuotedParagraphNotFolded` | src/org/jetbrains/projector/plugins/markdown/folding/MarkdownFoldingBuilder.java:88-96 | no block descriptor belongs to a paragraph whose parent block quote holds at most one paragraph |
| `FoldingProperties.HeaderRegionsSound` | src/org/jetbrains/projector/plugins/markdown/folding/MarkdownFoldingBuilder.java:137-142 | every header-pass descriptor belongs to a header whose `prevEndFolding` is not null. Its range runs from the header's start to `prevEndFolding`'s end and spans two lines. |
| `FoldingProperties.HeaderPassExact` | src/org/jetbrains/projector/plugins/markdown/folding/MarkdownFoldingBuilder.java:121-147 | a descriptor is in the header pass if and only if it is such a header section descriptor. A header whose `prevEndFolding` is null gets none. |
| `FoldingProperties.PassesInSequence` | src/org/jetbrains/projector/plugins/markdown/folding/MarkdownFoldingBuilder.java:74-147 | in the output, every block descriptor comes before every header descriptor. An entry lies in the block part exactly when its element is not a header. |
| `FoldingProperties.SkipNewLinesNearest` | src/org/jetbrains/projector/plugins/markdown/folding/MarkdownFoldingBuilder.java:173-180 | for a non-root element, the result is null exactly when all earlier siblings are EOL. Otherwise it is the nearest earlier non-EOL sibling. |
| `FoldingProperties.PrevEndFoldingNotEol` | src/org/jetbrains/projector/plugins/markdown/folding/MarkdownFoldingBuilder.java:128-135 | a header section never ends on an EOL |
| `FoldingProperties.PrevEndFoldingAtFileEnd` | src/org/jetbrains/projector/plugins/markdown/folding/MarkdownFoldingBuilder.java:126-132 | with no ending header, `prevEndFolding` is the last child of the file's last element that is not an EOL. It is null when the file is empty or that element has no such child. |
| `FoldingProperties.SectionEndsBeforeBoundary` | src/org/jetbrains/projector/plugins/markdown/folding/MarkdownFoldingBuilder.java:133-140 | with an ending header and ordered siblings, the folded section ends at or before the ending header's start |
| `FoldingProperties.PresentedKindsExactly` | src/org/jetbrains/projector/plugins/markdown/folding/MarkdownFoldingBuilder.java:53-67 | a kind has a presentation name if and only if it is one of ATX 1 to 6, ordered list, unordered list, block quote, table and code fence |
| `FoldingProperties.PresentedKindsCount` | src/org/jetbrains/projector/plugins/markdown/folding/MarkdownFoldingBuilder.java:53-67 | the presentation table has 11 distinct entries |
| `Folding.PresentationKey` | src/org/jetbrains/projector/plugins/markdown/folding/MarkdownFoldingBuilder.java:53-67 | every presentation name is a `markdown.folding.` key ending in `.name`. Which kinds have one is `PresentedKindsExactly`. |
| `FoldingProperties.PresentationKeysDistinct` | src/org/jetbrains/projector/plugins/markdown/folding/MarkdownFoldingBuilder.java:56-66 | different kinds use different message keys |
| `Folding.PlaceholderText` | src/org/jetbrains/projector/plugins/markdown/folding/MarkdownFoldingBuilder.java:151-157 | the placeholder ends with the shortened text, and is only that for a kind without a name. The full shape is `PlaceholderShape`. |
| `FoldingProperties.PlaceholderShape` | src/org/jetbrains/projector/plugins/markdown/folding/MarkdownFoldingBuilder.java:151-157 | the placeholder is `name + ": "` followed by the node text shortened to 30 characters with a 5-character suffix, for the named kinds. For any other kind it is the shortened text alone. |
| `HeaderAction.JavaRem7` | src/org/jetbrains/projector/plugins/markdown/ui/actions/styling/MarkdownHeaderAction.java:111-118 | Java's `% 7` agrees with Dafny's for non-negative operands. For a negative operand it is 0 on multiples of 7 and otherwise Dafny's remainder minus 7, so it lies in `(-7, 0]`. |
| `HeaderAction.CreateHeaderForText` | src/org/jetbrains/projector/plugins/markdown/ui/actions/styling/MarkdownHeaderAction.java:109-114 | plain text becomes an ATX header holding that text, at level `f(0)` modulo 7 whenever `f(0) >= -7`. The levels reached are in `TextHeaderLevels`. |
| `HeaderAction.CreateNewLevelHeader` | src/org/jetbrains/projector/plugins/markdown/ui/actions/styling/MarkdownHeaderAction.java:116-135 | no element exactly when the header's name is null. Otherwise the element holds the name, and a Setext result comes only from a Setext header and keeps its underline length. The full read-back is `ShiftedHeaderElement`. |
| `HeaderAction.HeaderNumber` | src/org/jetbrains/projector/plugins/markdown/ui/actions/styling/MarkdownHeaderAction.java:118 | an ATX header's number is its level, SETEXT_1 is 1 and SETEXT_2 is 2 |
| `HeaderAction.FindParent` | src/org/jetbrains/projector/plugins/markdown/ui/actions/styling/MarkdownHeaderAction.java:137-182 | null with no elements. A paragraph result lies within the document with its start and end on one line. Any result is the common parent of the EOL-adjusted ends, both present, with first offset not above the second. |
| `HeaderAction.CaretEdit` | src/org/jetbrains/projector/plugins/markdown/ui/actions/styling/MarkdownHeaderAction.java:96-104 | an edit exists only for a caret with a target, and it replaces a header exactly when the target has one. When a caret throws is stated by `CaretEditDispatch`. |
| `HeaderAction.RunLastCarets` | src/org/jetbrains/projector/plugins/markdown/ui/actions/styling/MarkdownHeaderAction.java:95-105 | the loop over the last `k` carets makes at most `k` edits, and exactly `k` when it completes. The full statement is `RunLastCaretsExact`. |
| `HeaderAction.ActionPerformed` | src/org/jetbrains/projector/plugins/markdown/ui/actions/styling/MarkdownHeaderAction.java:83-107 | does nothing on an invalid file. Otherwise it makes exactly the edits of the caret loop, last caret first, and reports whether it ran to the end. |
| `HeaderAction.RunStaysStopped` | src/org/jetbrains/projector/plugins/markdown/ui/actions/styling/MarkdownHeaderAction.java:95-105 | once a caret has thrown, later carets change nothing |
| `HeaderActionProperties.TextHeaderLevels` | src/org/jetbrains/projector/plugins/markdown/ui/actions/styling/MarkdownHeaderAction.java:109-114 | `(f(0)+7) % 7` is 1 for increment and 6 for decrement, and lies in 0..6 whenever `f(0) >= -7` |
| `HeaderActionProperties.NewHeaderLevels` | src/org/jetbrains/projector/plugins/markdown/ui/actions/styling/MarkdownHeaderAction.java:118 | `f(n) % 7` is `n+1` for increment, or 0 from level 6. For decrement it is `n-1`, so 0 from level 1. The level stays in 0..6. |
| `HeaderActionProperties.ShiftedHeaderElement` | src/org/jetbrains/projector/plugins/markdown/ui/actions/styling/MarkdownHeaderAction.java:116-135 | read back, the new element is plain text with the header's name exactly when the new level is 0. For levels 1 to 6 it is a header of that level with the same name. It is a Setext header, keeping the underline length, exactly when a Setext header moves to the other Setext level. A null name gives no element. |
| `HeaderActionProperties.RaisedHeaderLevel` | src/org/jetbrains/projector/plugins/markdown/ui/actions/styling/MarkdownHeaderAction.java:118-133 | raising gives a header one level up, or plain text from level 6. SETEXT_1 becomes Setext 2 and SETEXT_2 becomes ATX 3. |
| `HeaderActionProperties.RaiseThenLower` | src/org/jetbrains/projector/plugins/markdown/ui/actions/styling/MarkdownHeaderAction.java:116-135 | raising and then lowering a header below level 6 restores its level and name. A SETEXT_1 header also keeps its style and underline. |
| `HeaderActionProperties.LowerThenRaise` | src/org/jetbrains/projector/plugins/markdown/ui/actions/styling/MarkdownHeaderAction.java:116-135 | lowering and then raising a header above level 1 restores its level and name. A SETEXT_2 header also keeps its style and underline. |
| `HeaderActionProperties.TextRaiseThenLower` | src/org/jetbrains/projector/plugins/markdown/ui/actions/styling/MarkdownHeaderAction.java:109-133 | raising text makes an ATX 1 header of it, and lowering that header gives the text back |
| `HeaderActionProperties.FindParentAccepts` | src/org/jetbrains/projector/plugins/markdown/ui/actions/styling/MarkdownHeaderAction.java:145-181 | a target exists exactly when both EOL-adjusted ends exist in order and have a common parent. That parent is either not a paragraph, or a single-line paragraph within the document. |
| `HeaderActionProperties.CaretEditDispatch` | src/org/jetbrains/projector/plugins/markdown/ui/actions/styling/MarkdownHeaderAction.java:96-104 | a caret throws exactly when it has no target or its header's name is null. Otherwise a target with an enclosing header, itself included, has that header replaced by its new-level element. Any other target is replaced by an ATX header of level `(f(0)+7) % 7` made from its text. |
| `HeaderActionProperties.RunLastCaretsExact` | src/org/jetbrains/projector/plugins/markdown/ui/actions/styling/MarkdownHeaderAction.java:95-105 | the loop makes one edit per caret, last caret first, up to the first caret that throws. It completes exactly when no caret throws. |

## Left out

- `MarkdownStructureElement` (the structure view) and `MarkdownHeaderStubElement` are not part of this model. The first is an adapter over IDE presentation and navigation interfaces. The second is a stub holder with no behaviour.
- `MarkdownPsiUtil.processContainer` is not part of this model. The end header of each header's section is the input `boundary`. Its end-of-section callback is taken to fire exactly once. Its child-container callback does nothing during folding.
- `Document.getLineNumber` is an arbitrary function `line`. No property here needs it to be monotone.
- `StringUtil.shortenTextWithEllipsis` and the `MarkdownBundle` messages are function parameters. Their contents are not modelled.
- The `quick` flag of `buildLanguageFoldRegions` is unused by the code, so it is not modelled.
- `update`, which enables or disables the action, is UI state and is left out.
- `WriteCommandAction` and the editor lookup are left out. The null checks on the editor and the file, and `isValid()`, are folded into the parameter `fileValid`.
- `header.isValid()` is folded into the target's optional header: an invalid header is an absent one.
- `MarkdownPsiElementFactory` and `PsiElement.replace` are not part of this model. A replacement is recorded as an `Edit` naming the element the factory is asked for. The tree is not rewritten.
- Every caret is resolved against the same `FileView`. The source calls `findParent` for each caret after the previous caret's `replace` (lines 96-103), so it sees the document as already edited.
- Carets that share a target are not modelled as the source runs them. The second caret finds the element the first one put in. Two carets on one ATX 2 header raise it twice, to ATX 4. The model records two edits of the original header, both to ATX 3.
- The root passed to `buildLanguageFoldRegions` is taken to be the containing file, so `header.getContainingFile()` is the root. A call on a sub-tree is not modelled.
- What happens after an exception in `actionPerformed` is the host's concern. The model only stops the loop.
- `SectionEndsBeforeBoundary` holds only for a parser that gives ordered, non-overlapping siblings (`SiblingsOrdered`). The tree type itself does not enforce this.
- 32-bit overflow of `f(n)` is not modelled. The level functions are ±1 on levels 0 to 6.
