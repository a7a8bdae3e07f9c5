/** What the header actions promise: the levels the two level functions
    reach, the element each header becomes, that raising and lowering undo
    each other, how a caret is resolved, and how the caret loop stops. */
module HeaderActionProperties {
  import opened MarkdownTree
  import opened HeaderAction

  // ---------------------------------------------------------------------
  // Levels
  // ---------------------------------------------------------------------

  /** Plain text becomes an ATX header of level 1 when raised and of level 6
      when lowered; no level function with `f(0) >= -7` leaves 0..6. */
  lemma TextHeaderLevels(f: int -> int)
    ensures TextHeaderLevel(Increment) == 1
    ensures TextHeaderLevel(Decrement) == 6
    ensures f(0) >= -7 ==> 0 <= TextHeaderLevel(f) <= 6
  {
  }

  /** Raising adds one level and wraps 6 round to 0; lowering subtracts one
      level and takes 1 to 0. Either way the level stays in 0..6. */
  lemma NewHeaderLevels(s: HeaderStyle)
    ensures NewHeaderLevel(s, Increment) == if HeaderNumber(s) == 6 then 0 else HeaderNumber(s) + 1
    ensures NewHeaderLevel(s, Decrement) == HeaderNumber(s) - 1
    ensures 0 <= NewHeaderLevel(s, Increment) <= 6 && 0 <= NewHeaderLevel(s, Decrement) <= 5
  {
  }

  // ---------------------------------------------------------------------
  // The element a header becomes
  // ---------------------------------------------------------------------

  /** The header style of a factory element: an ATX header of level 1..6,
      or a Setext header whose underline is `=` (level 1) or `-` (level 2). */
  function StyleOf(e: NewElement): Option<HeaderStyle> {
    match e
    case TextElement(_) => None
    case AtxHeader(_, level) => if 1 <= level <= 6 then Some(Atx(level)) else None
    case SetextHeader(_, marker, _) =>
      if marker == '=' then Some(Setext1) else if marker == '-' then Some(Setext2) else None
  }

  /** A factory element read back as a header: its name is the text it was
      built from and a Setext underline is its last child. */
  function AsHeader(e: NewElement, atxLastChildLength: int): Option<HeaderInfo> {
    match StyleOf(e)
    case None => None
    case Some(style) =>
      match e
      case TextElement(text) => None
      case AtxHeader(text, _) => Some(HeaderInfo(style, Some(text), atxLastChildLength))
      case SetextHeader(text, _, length) => Some(HeaderInfo(style, Some(text), length))
  }

  /** The element a header becomes, read back: plain text with the header's
      name exactly at level 0; a header of the new level with the same name
      for levels 1 to 6; and a Setext header, keeping the underline length,
      exactly when a Setext header moves to the other Setext level. A header
      without a name gives no element. */
  lemma ShiftedHeaderElement(h: HeaderInfo, f: int -> int, atxLastChildLength: int)
    ensures h.name.None? <==> CreateNewLevelHeader(h, f).None?
    ensures h.name.Some? ==>
              var e := CreateNewLevelHeader(h, f).value; var level := NewHeaderLevel(h.style, f);
              (e == TextElement(h.name.value) <==> level == 0) &&
              (1 <= level <= 6 ==>
                 StyleOf(e).Some? && HeaderNumber(StyleOf(e).value) == level &&
                 AsHeader(e, atxLastChildLength).value.name == h.name) &&
              (e.SetextHeader? <==> (h.style == Setext1 && level == 2) || (h.style == Setext2 && level == 1)) &&
              (e.SetextHeader? ==> e.length == h.lastChildLength)
  {
  }

  /** The new element is a header one level up (or plain text from level 6):
      Setext 1 becomes Setext 2 and Setext 2 becomes ATX 3. */
  lemma RaisedHeaderLevel(h: HeaderInfo)
    requires h.name.Some?
    ensures var e := CreateNewLevelHeader(h, Increment).value;
            (HeaderNumber(h.style) == 6 <==> StyleOf(e).None?) &&
            (StyleOf(e).Some? ==> HeaderNumber(StyleOf(e).value) == HeaderNumber(h.style) + 1) &&
            (h.style == Setext1 ==> StyleOf(e) == Some(Setext2)) &&
            (h.style == Setext2 ==> StyleOf(e) == Some(Atx(3)))
  {
  }

  /** Raising and then lowering a header below level 6 restores its level and
      its name; a Setext level-1 header also keeps its style and underline. */
  lemma RaiseThenLower(h: HeaderInfo, atxLastChildLength: int)
    requires h.name.Some? && HeaderNumber(h.style) < 6
    ensures var up := AsHeader(CreateNewLevelHeader(h, Increment).value, atxLastChildLength);
            up.Some? &&
            var down := CreateNewLevelHeader(up.value, Decrement).value;
            StyleOf(down).Some? && HeaderNumber(StyleOf(down).value) == HeaderNumber(h.style) &&
            AsHeader(down, atxLastChildLength).value.name == h.name &&
            (h.style == Setext1 ==> down == SetextHeader(h.name.value, '=', h.lastChildLength))
  {
  }

  /** Lowering and then raising a header above level 1 restores its level and
      its name; a Setext level-2 header also keeps its style and underline. */
  lemma LowerThenRaise(h: HeaderInfo, atxLastChildLength: int)
    requires h.name.Some? && HeaderNumber(h.style) > 1
    ensures var down := AsHeader(CreateNewLevelHeader(h, Decrement).value, atxLastChildLength);
            down.Some? &&
            var up := CreateNewLevelHeader(down.value, Increment).value;
            StyleOf(up).Some? && HeaderNumber(StyleOf(up).value) == HeaderNumber(h.style) &&
            AsHeader(up, atxLastChildLength).value.name == h.name &&
            (h.style == Setext2 ==> up == SetextHeader(h.name.value, '-', h.lastChildLength))
  {
  }

  /** Raising plain text makes an ATX level-1 header of it, and lowering that
      header gives the text back. */
  lemma TextRaiseThenLower(text: string, lastChildLength: int)
    ensures CreateHeaderForText(text, Increment) == AtxHeader(text, 1)
    ensures CreateNewLevelHeader(AsHeader(AtxHeader(text, 1), lastChildLength).value, Decrement) == Some(TextElement(text))
  {
  }

  // ---------------------------------------------------------------------
  // Caret resolution
  // ---------------------------------------------------------------------

  /** `findParent` yields a target exactly when both ends survive the EOL
      adjustment in order and have a common parent that is not a paragraph,
      or is a paragraph on a single line within the document. */
  lemma FindParentAccepts(first: Leaf, second: Leaf, file: FileView)
    ensures var r := FindParent(Some((first, second)), file);
            var a := FirstEnd(first, file);
            var b := SecondEnd(second, file);
            r.Some? <==>
              (a.Some? && b.Some? && a.value.offset <= b.value.offset &&
               file.commonParent(a.value, b.value).Some? &&
               (file.commonParent(a.value, b.value).value.kind == Paragraph ==>
                  SingleLineParagraph(file.commonParent(a.value, b.value).value, file)))
  {
  }

  /** A caret throws exactly when it has no target or its target's header
      has no name; otherwise a caret inside an existing header changes that
      header's level, and anywhere else its target becomes a header built
      from its text. */
  lemma CaretEditDispatch(elements: Option<(Leaf, Leaf)>, file: FileView, f: int -> int)
    ensures var t := FindParent(elements, file);
            CaretEdit(elements, file, f).None? <==>
              t.None? || (t.value.header.Some? && t.value.header.value.name.None?)
    ensures var t := FindParent(elements, file);
            t.Some? && t.value.header.Some? && t.value.header.value.name.Some? ==>
              CaretEdit(elements, file, f) ==
              Some(ReplaceHeader(t.value.header.value, CreateNewLevelHeader(t.value.header.value, f).value))
    ensures var t := FindParent(elements, file);
            t.Some? && t.value.header.None? ==>
              CaretEdit(elements, file, f) == Some(ReplaceTarget(t.value, AtxHeader(t.value.text, TextHeaderLevel(f))))
  {
  }

  // ---------------------------------------------------------------------
  // The caret loop
  // ---------------------------------------------------------------------

  /** The loop over the last `k` carets makes one edit per caret, last caret
      first, up to the first caret that throws; it completes exactly when no
      caret throws. */
  lemma {:induction false} RunLastCaretsExact(carets: seq<Option<(Leaf, Leaf)>>, k: nat, file: FileView, f: int -> int)
    requires k <= |carets|
    ensures var r := RunLastCarets(carets, k, file, f);
            |r.edits| <= k &&
            (forall j :: 0 <= j < |r.edits| ==> CaretEdit(carets[|carets| - 1 - j], file, f) == Some(r.edits[j])) &&
            (r.completed <==> forall i :: |carets| - k <= i < |carets| ==> CaretEdit(carets[i], file, f).Some?) &&
            (r.completed ==> |r.edits| == k) &&
            (!r.completed ==> |r.edits| < k && CaretEdit(carets[|carets| - 1 - |r.edits|], file, f).None?)
  {
    if k > 0 {
      RunLastCaretsExact(carets, k - 1, file, f);
    }
  }
}
