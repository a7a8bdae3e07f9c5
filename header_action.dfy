/** MarkdownHeaderAction: raise or lower the header level at every caret.
    The level function is `f`; replacements built by the element factory are
    represented by the kind of element the factory is asked for. */
module HeaderAction {
  import opened MarkdownTree

  // ---------------------------------------------------------------------
  // Levels
  // ---------------------------------------------------------------------

  /** Java's `a % 7`: the remainder takes the sign of `a` (Dafny's `%` never
      returns a negative number, so the two differ for negative `a`). */
  function JavaRem7(a: int): (r: int)
    ensures a >= 0 ==> 0 <= r < 7 && r == a % 7
    ensures a < 0 ==> -7 < r <= 0 && r == (if a % 7 == 0 then 0 else a % 7 - 7)
  {
    if a >= 0 then a % 7 else -((-a) % 7)
  }

  /** The two level functions the concrete actions supply. */
  function Increment(n: int): int { n + 1 }
  function Decrement(n: int): int { n - 1 }

  /** `getHeaderNumber()`: the level an ATX or Setext header has. */
  function HeaderNumber(s: HeaderStyle): (n: HeaderLevel)
    ensures s.Atx? ==> n == s.level
    ensures s == Setext1 ==> n == 1
    ensures s == Setext2 ==> n == 2
  {
    match s
    case Atx(level) => level
    case Setext1 => 1
    case Setext2 => 2
  }

  /** The level `createHeaderForText` asks for: `(f(0) + 7) % 7`. */
  function TextHeaderLevel(f: int -> int): int {
    JavaRem7(f(0) + 7)
  }

  /** The level `createNewLevelHeader` computes: `f(n) % 7`. */
  function NewHeaderLevel(s: HeaderStyle, f: int -> int): int {
    JavaRem7(f(HeaderNumber(s)))
  }

  // ---------------------------------------------------------------------
  // Replacement elements
  // ---------------------------------------------------------------------

  /** What `MarkdownPsiElementFactory` is asked to build. */
  datatype NewElement =
    | TextElement(text: string)                            // createTextElement(text)
    | AtxHeader(text: string, level: int)                  // createHeader(text, level)
    | SetextHeader(text: string, marker: char, length: int) // createSetext(text, marker, length)

  /** A header element: its type, `getName()` (possibly null) and the text
      length of its last child (a Setext header's underline). */
  datatype HeaderInfo = HeaderInfo(style: HeaderStyle, name: Option<string>, lastChildLength: int)

  /** `createHeaderForText`: an ATX header holding `text`, at level `f(0)`
      taken modulo 7. */
  function CreateHeaderForText(text: string, f: int -> int): (e: NewElement)
    ensures e.AtxHeader? && e.text == text
    ensures f(0) >= -7 ==> e.level == f(0) % 7
  {
    AtxHeader(text, TextHeaderLevel(f))
  }

  /** `createNewLevelHeader`; None where `requireNonNull(header.getName())` throws. */
  function CreateNewLevelHeader(h: HeaderInfo, f: int -> int): (r: Option<NewElement>)
    ensures r.None? <==> h.name.None?
    ensures r.Some? ==> r.value.text == h.name.value
    ensures r.Some? && r.value.SetextHeader? ==> !h.style.Atx? && r.value.length == h.lastChildLength
  {
    var level := NewHeaderLevel(h.style, f);
    match h.name
    case None => None
    case Some(name) =>
      if h.style == Setext1 && level == 2 then Some(SetextHeader(name, '-', h.lastChildLength))
      else if h.style == Setext2 && level == 1 then Some(SetextHeader(name, '=', h.lastChildLength))
      else if level == 0 then Some(TextElement(name))
      else Some(AtxHeader(name, level))
  }

  // ---------------------------------------------------------------------
  // Caret resolution (findParent)
  // ---------------------------------------------------------------------

  /** A leaf under a caret end: whether it is an EOL token and its text offset. */
  datatype Leaf = Leaf(isEol: bool, offset: int)

  /** The common parent a selection resolves to: its type, range and text,
      and its nearest valid header, itself included, if any. */
  datatype Target = Target(kind: Kind, start: int, end: int, text: string, header: Option<HeaderInfo>)

  /** The host services `findParent` consults on one file. */
  datatype FileView = FileView(
    nextVisibleLeaf: Leaf -> Option<Leaf>,
    prevVisibleLeaf: Leaf -> Option<Leaf>,
    commonParent: (Leaf, Leaf) -> Option<Target>,
    textLength: int,
    line: int -> int)

  /** `first`, moved to the next visible leaf when it is an EOL. */
  function FirstEnd(first: Leaf, file: FileView): Option<Leaf> {
    if first.isEol then file.nextVisibleLeaf(first) else Some(first)
  }

  /** `second`, moved to the previous visible leaf when it is an EOL. */
  function SecondEnd(second: Leaf, file: FileView): Option<Leaf> {
    if second.isEol then file.prevVisibleLeaf(second) else Some(second)
  }

  /** A paragraph may become a header only when it lies within the document
      and its start and end offsets are on the same line. */
  predicate SingleLineParagraph(t: Target, file: FileView) {
    0 <= t.start && t.end <= file.textLength && file.line(t.start) == file.line(t.end)
  }

  /** `findParent` for the leaves under one caret or selection (None when
      there are none). */
  function FindParent(elements: Option<(Leaf, Leaf)>, file: FileView): (r: Option<Target>)
    ensures elements.None? ==> r.None?
    ensures r.Some? && r.value.kind == Paragraph ==> SingleLineParagraph(r.value, file)
    ensures r.Some? ==>
              var first := FirstEnd(elements.value.0, file);
              var second := SecondEnd(elements.value.1, file);
              first.Some? && second.Some? && first.value.offset <= second.value.offset &&
              r == file.commonParent(first.value, second.value)
  {
    match elements
    case None => None
    case Some((first0, second0)) =>
      var first := FirstEnd(first0, file);
      var second := SecondEnd(second0, file);
      if first.None? || second.None? || first.value.offset > second.value.offset then None
      else
        match file.commonParent(first.value, second.value)
        case None => None
        case Some(parent) =>
          if parent.kind != Paragraph then Some(parent)
          else if parent.start < 0 || parent.end > file.textLength then None
          else if file.line(parent.start) == file.line(parent.end) then Some(parent)
          else None
  }

  // ---------------------------------------------------------------------
  // actionPerformed
  // ---------------------------------------------------------------------

  /** One replacement: a header replaced by its new-level element, or a
      target replaced by a header built from its text. */
  datatype Edit =
    | ReplaceHeader(header: HeaderInfo, replacement: NewElement)
    | ReplaceTarget(target: Target, replacement: NewElement)

  /** The replacement one caret performs; None where the action throws
      (`requireNonNull` of a null target or of a null header name). */
  function CaretEdit(elements: Option<(Leaf, Leaf)>, file: FileView, f: int -> int): (r: Option<Edit>)
    ensures r.Some? ==> FindParent(elements, file).Some?
    ensures r.Some? ==> (r.value.ReplaceHeader? <==> FindParent(elements, file).value.header.Some?)
  {
    match FindParent(elements, file)
    case None => None
    case Some(t) =>
      match t.header
      case Some(h) =>
        (match CreateNewLevelHeader(h, f)
         case None => None
         case Some(e) => Some(ReplaceHeader(h, e)))
      case None => Some(ReplaceTarget(t, CreateHeaderForText(t.text, f)))
  }

  /** The edits made and whether the loop ran to the end. */
  datatype Run = Run(edits: seq<Edit>, completed: bool)

  /** The loop over the last `k` carets, last caret first; it stops at the
      first caret that throws. */
  function RunLastCarets(carets: seq<Option<(Leaf, Leaf)>>, k: nat, file: FileView, f: int -> int): (r: Run)
    requires k <= |carets|
    ensures |r.edits| <= k
    ensures r.completed ==> |r.edits| == k
  {
    if k == 0 then Run([], true)
    else
      var before := RunLastCarets(carets, k - 1, file, f);
      if !before.completed then before
      else
        match CaretEdit(carets[|carets| - k], file, f)
        case None => Run(before.edits, false)
        case Some(e) => Run(before.edits + [e], true)
  }

  /** The replacements made so far, in the order they were made. */
  class EditLog {
    var edits: seq<Edit>

    constructor ()
      ensures edits == []
    {
      edits := [];
    }
  }

  /** `actionPerformed`: in one write command, and only while the file is
      valid, every caret from the last to the first replaces its target.
      Returns false when a caret threw, leaving the edits made before it. */
  method ActionPerformed(carets: seq<Option<(Leaf, Leaf)>>, fileValid: bool, file: FileView, f: int -> int,
                         log: EditLog) returns (completed: bool)
    modifies log
    ensures !fileValid ==> completed && log.edits == old(log.edits)
    ensures fileValid ==>
              log.edits == old(log.edits) + RunLastCarets(carets, |carets|, file, f).edits &&
              completed == RunLastCarets(carets, |carets|, file, f).completed
  {
    if !fileValid {
      return true;
    }
    completed := true;
    var k := 0;
    while k < |carets|
      invariant 0 <= k <= |carets|
      invariant completed
      invariant RunLastCarets(carets, k, file, f).completed
      invariant log.edits == old(log.edits) + RunLastCarets(carets, k, file, f).edits
    {
      RunLastCaretsStep(carets, k, file, f);
      var parent := FindParent(carets[|carets| - 1 - k], file);
      if parent.None? {
        RunStaysStopped(carets, k + 1, |carets|, file, f);
        return false;
      }
      var t := parent.value;
      if t.header.Some? {
        var replacement := CreateNewLevelHeader(t.header.value, f);
        if replacement.None? {
          RunStaysStopped(carets, k + 1, |carets|, file, f);
          return false;
        }
        log.edits := log.edits + [ReplaceHeader(t.header.value, replacement.value)];
      } else {
        log.edits := log.edits + [ReplaceTarget(t, CreateHeaderForText(t.text, f))];
      }
      k := k + 1;
    }
  }

  /** One more caret: the run continues with that caret's edit, or stops
      where it throws. */
  lemma RunLastCaretsStep(carets: seq<Option<(Leaf, Leaf)>>, k: nat, file: FileView, f: int -> int)
    requires k < |carets| && RunLastCarets(carets, k, file, f).completed
    ensures var before := RunLastCarets(carets, k, file, f).edits;
            RunLastCarets(carets, k + 1, file, f) ==
              match CaretEdit(carets[|carets| - 1 - k], file, f)
              case None => Run(before, false)
              case Some(e) => Run(before + [e], true)
  {
  }

  /** Once a caret has thrown, no later step of the loop changes anything. */
  lemma {:induction false} RunStaysStopped(carets: seq<Option<(Leaf, Leaf)>>, k: nat, m: nat, file: FileView, f: int -> int)
    requires k <= m <= |carets|
    requires !RunLastCarets(carets, k, file, f).completed
    ensures RunLastCarets(carets, m, file, f) == RunLastCarets(carets, k, file, f)
    decreases m
  {
    if m > k {
      RunStaysStopped(carets, k, m - 1, file, f);
    }
  }
}
