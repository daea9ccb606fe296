/** The string side of generation/latex_generator.py: `escape_latex`, the
    LaTeX block for one figure and the graphics path it includes. */
module LatexGenerator {
  import opened Wrappers
  import opened Strings
  import opened Paths
  import opened Models

  /** `LATEX_SPECIAL_CHARS`, in the dictionary's insertion order. */
  const SpecialChars: seq<(char, string)> := [
    ('&', "\\&"), ('%', "\\%"), ('$', "\\$"), ('#', "\\#"), ('_', "\\_"),
    ('{', "\\{"), ('}', "\\}"), ('~', "\\textasciitilde{}"), ('^', "\\^{}"),
    ('\\', "\\textbackslash{}")]

  /** Where the backslashes wait while the other characters are escaped. */
  const Placeholder := "<<<BACKSLASH>>>"
  const BackslashEscape := "\\textbackslash{}"

  /** The table facts the escaping relies on: the characters are distinct,
      the backslash comes last, no escape begins with or contains `<`, the
      placeholder holds no special character, and no escape contains a
      character that is replaced after it. */
  lemma TableFacts()
    ensures |SpecialChars| == 10 && SpecialChars[9] == ('\\', BackslashEscape)
    ensures forall i | 0 <= i < 9 :: SpecialChars[i].0 != '\\'
    ensures forall j, k | 0 <= j < k < |SpecialChars| :: SpecialChars[j].0 != SpecialChars[k].0
    ensures forall i | 0 <= i < |SpecialChars| :: SpecialChars[i].0 !in Placeholder
    ensures forall k | 0 <= k < |SpecialChars| ::
      SpecialChars[k].1 != [] && SpecialChars[k].1[0] == '\\' && '<' !in SpecialChars[k].1
    ensures forall k, i | 0 <= k < i < 9 :: SpecialChars[i].0 !in SpecialChars[k].1
  {
    forall k, i | 0 <= k < i < 9 ensures SpecialChars[i].0 !in SpecialChars[k].1 {
      assert k == 0 || k == 1 || k == 2 || k == 3 || k == 4 || k == 5 || k == 6 || k == 7;
    }
  }

  /** The position of `c` in the table, or the table's length. */
  function TableIndex(c: char): (k: nat)
    ensures k <= |SpecialChars|
    ensures k < |SpecialChars| ==> SpecialChars[k].0 == c
    ensures forall j | 0 <= j < k :: SpecialChars[j].0 != c
  {
    IndexFrom(c, 0)
  }

  function IndexFrom(c: char, j: nat): (k: nat)
    requires j <= |SpecialChars|
    ensures j <= k <= |SpecialChars|
    ensures k < |SpecialChars| ==> SpecialChars[k].0 == c
    ensures forall i | j <= i < k :: SpecialChars[i].0 != c
    decreases |SpecialChars| - j
  {
    if j == |SpecialChars| || SpecialChars[j].0 == c then j else IndexFrom(c, j + 1)
  }

  /** The intended escape of one character: its table entry, or itself. */
  function EscapeChar(c: char): string {
    var k := TableIndex(c);
    if k < |SpecialChars| then SpecialChars[k].1 else [c]
  }

  /** The intended escape of a text, character by character. */
  function Escaped(s: string): string {
    if s == [] then [] else EscapeChar(s[0]) + Escaped(s[1..])
  }

  /** One pass of the escape loop: entry `i` replaced everywhere, except
      the backslash entry, which the loop skips. */
  function ApplyEntry(s: string, i: nat): string
    requires i < |SpecialChars|
  {
    var (c, escaped) := SpecialChars[i];
    if c != '\\' then Replace(s, [c], escaped) else s
  }

  /** The passes of the escape loop from entry `i` on. */
  function ApplyTable(s: string, i: nat): string
    requires i <= |SpecialChars|
    decreases |SpecialChars| - i
  {
    if i == |SpecialChars| then s else ApplyTable(ApplyEntry(s, i), i + 1)
  }

  /** `escape_latex` as written: backslashes to the placeholder, the other
      special characters in table order, then the placeholder to
      `\textbackslash{}`. */
  function EscapeLatexOf(text: string): string {
    if text == [] then text
    else Replace(ApplyTable(Replace(text, "\\", Placeholder), 0), Placeholder, BackslashEscape)
  }

  /** `escape_latex`, with its loop over the escape table. */
  method EscapeLatex(text: string) returns (result: string)
    ensures result == EscapeLatexOf(text)
  {
    if text == [] {
      return text;
    }
    result := Replace(text, "\\", Placeholder);
    ghost var start := result;
    for i := 0 to |SpecialChars|
      invariant ApplyTable(result, i) == ApplyTable(start, 0)
    {
      var (c, escaped) := SpecialChars[i];
      if c != '\\' {
        result := Replace(result, [c], escaped);
      }
    }
    result := Replace(result, Placeholder, BackslashEscape);
  }

  // ------------------------------------------------ the escape, per character

  /** A character after the first `i` passes of the loop. */
  function Stage(c: char, i: nat): string
    requires i <= |SpecialChars|
  {
    if c == '\\' then Placeholder
    else
      var k := TableIndex(c);
      if k < i then SpecialChars[k].1 else [c]
  }

  /** A text after the first `i` passes of the loop, character by character. */
  function Staged(s: string, i: nat): string
    requires i <= |SpecialChars|
  {
    if s == [] then [] else Stage(s[0], i) + Staged(s[1..], i)
  }

  /** The first replacement puts every character at stage 0. */
  lemma {:induction false} PlaceholderStage(s: string)
    ensures Replace(s, "\\", Placeholder) == Staged(s, 0)
    decreases |s|
  {
    if s != [] {
      PlaceholderStage(s[1..]);
      assert s[..|"\\"|] == [s[0]];
    }
  }

  /** One pass moves a character from stage `i` to stage `i + 1`. */
  lemma StageStep(x: char, i: nat)
    requires i < |SpecialChars|
    ensures Replace(Stage(x, i), [SpecialChars[i].0], SpecialChars[i].1) == Stage(x, i + 1) || SpecialChars[i].0 == '\\'
  {
    TableFacts();
    var (c, escaped) := SpecialChars[i];
    if c != '\\' {
      var k := TableIndex(x);
      if x == '\\' {
        ReplaceCharAbsent(Placeholder, c, escaped);
      } else if k < i {
        ReplaceCharAbsent(SpecialChars[k].1, c, escaped);
      } else if k == i {
        assert Replace([x], [c], escaped) == escaped + Replace([], [c], escaped);
      } else {
        ReplaceCharAbsent([x], c, escaped);
      }
    }
  }

  /** The backslash pass is skipped: no stage changes. */
  lemma StageSkip(x: char)
    ensures Stage(x, 9) == Stage(x, 10)
  {
    TableFacts();
  }

  /** One pass of the loop over a whole text. */
  lemma {:induction false} StagedStep(s: string, i: nat)
    requires i < |SpecialChars|
    ensures ApplyEntry(Staged(s, i), i) == Staged(s, i + 1)
    decreases |s|
  {
    TableFacts();
    if s != [] {
      StagedStep(s[1..], i);
      if i == 9 {
        StageSkip(s[0]);
      } else {
        var (c, escaped) := SpecialChars[i];
        ReplaceCharAppend(Stage(s[0], i), Staged(s[1..], i), c, escaped);
        StageStep(s[0], i);
      }
    } else {
      assert i != 9 ==> Replace([], [SpecialChars[i].0], SpecialChars[i].1) == [];
    }
  }

  /** The remaining passes take every character to its final stage. */
  lemma {:induction false} ApplyTableStaged(s: string, i: nat)
    requires i <= |SpecialChars|
    ensures ApplyTable(Staged(s, i), i) == Staged(s, |SpecialChars|)
    decreases |SpecialChars| - i
  {
    if i < |SpecialChars| {
      StagedStep(s, i);
      ApplyTableStaged(s, i + 1);
    }
  }

  /** The placeholder cannot overlap itself: no proper suffix of it is a prefix. */
  lemma PlaceholderNoBorder(k: nat)
    requires 1 <= k < |Placeholder|
    ensures !StartsWith(Placeholder, Placeholder[k..])
  {
    if k == 1 {
      assert Placeholder[1..][2] != Placeholder[2];
    } else if k == 2 {
      assert Placeholder[2..][1] != Placeholder[1];
    } else {
      assert Placeholder[k] != '<';
      assert Placeholder[k..][0] != Placeholder[0];
    }
  }

  /** A stage that starts with the whole placeholder does not start with a
      proper suffix of it. */
  lemma PlaceholderNotSuffix(y: string, k: nat)
    requires 1 <= k < |Placeholder|
    ensures !StartsWith(Placeholder + y, Placeholder[k..])
  {
    if StartsWith(Placeholder + y, Placeholder[k..]) {
      assert (Placeholder + y)[..|Placeholder[k..]|] == Placeholder[..|Placeholder[k..]|];
      PlaceholderNoBorder(k);
    }
  }

  /** A stage that starts with a backslash does not start with any
      non-empty piece of the placeholder. */
  lemma EscapeNotSuffix(e: string, y: string, k: nat)
    requires e != [] && e[0] == '\\'
    requires k < |Placeholder|
    ensures !StartsWith(e + y, Placeholder[k..])
  {
    assert Placeholder[k] != '\\';
    assert (e + y)[0] == '\\';
  }

  /** If the final stage of `t` starts with a proper suffix of the
      placeholder, `t` itself starts with that suffix. */
  lemma {:induction false} StagedPrefix(t: string, k: nat)
    requires 1 <= k <= |Placeholder|
    requires StartsWith(Staged(t, 10), Placeholder[k..])
    ensures StartsWith(t, Placeholder[k..])
    decreases |t|
  {
    if k < |Placeholder| {
      var x := t[0];
      var y := Staged(t[1..], 10);
      assert Staged(t, 10) == Stage(x, 10) + y;
      var k' := TableIndex(x);
      if x == '\\' {
        PlaceholderNotSuffix(y, k);
      } else if k' < 10 {
        EscapeStartsWithBackslash(k');
        EscapeNotSuffix(SpecialChars[k'].1, y, k);
      } else {
        IdentityPrefix(t, k);
      }
    }
  }

  /** The step of `StagedPrefix` for a character that is not escaped. */
  lemma {:induction false} IdentityPrefix(t: string, k: nat)
    requires 1 <= k < |Placeholder| && t != [] && t[0] != '\\' && TableIndex(t[0]) == 10
    requires StartsWith(Staged(t, 10), Placeholder[k..])
    ensures StartsWith(t, Placeholder[k..])
    decreases |t|, 0
  {
    var q := Placeholder[k..];
    assert q[1..] == Placeholder[k + 1..];
    assert Staged(t, 10) == [t[0]] + Staged(t[1..], 10);
    ConsStartsWith(t[0], Staged(t[1..], 10), q);
    StagedPrefix(t[1..], k + 1);
    ConsStartsWith(t[0], t[1..], q);
    assert [t[0]] + t[1..] == t;
  }

  /** `[x] + y` starts with a non-empty `q` exactly when `x` is its first
      element and `y` starts with the rest. */
  lemma ConsStartsWith(x: char, y: string, q: string)
    requires q != []
    ensures StartsWith([x] + y, q) <==> x == q[0] && StartsWith(y, q[1..])
  {
    if StartsWith([x] + y, q) {
      assert y[..|q| - 1] == ([x] + y)[1..|q|];
      assert q[1..] == ([x] + y)[..|q|][1..];
    }
    if x == q[0] && StartsWith(y, q[1..]) {
      assert ([x] + y)[..|q|] == [x] + y[..|q| - 1];
    }
  }

  lemma EscapeStartsWithBackslash(k: nat)
    requires k < |SpecialChars|
    ensures SpecialChars[k].1 != [] && SpecialChars[k].1[0] == '\\' && '<' !in SpecialChars[k].1
  {
    assert k == 0 || k == 1 || k == 2 || k == 3 || k == 4 || k == 5 || k == 6 || k == 7 || k == 8 || k == 9;
  }

  /** The last replacement turns every placeholder back into an escaped
      backslash, provided the text did not contain the placeholder itself. */
  lemma {:induction false} RestoreBackslashes(s: string)
    requires !Contains(s, Placeholder)
    ensures Replace(Staged(s, 10), Placeholder, BackslashEscape) == Escaped(s)
    decreases |s|
  {
    if s != [] {
      var x := s[0];
      var y := Staged(s[1..], 10);
      if Contains(s[1..], Placeholder) {
        ContainsTail(s, Placeholder);
      }
      RestoreBackslashes(s[1..]);
      assert Staged(s, 10) == Stage(x, 10) + y;
      assert Escaped(s) == EscapeChar(x) + Escaped(s[1..]);
      var k := TableIndex(x);
      if x == '\\' {
        BackslashIndex();
        ReplaceMatchHead(Placeholder, y, BackslashEscape);
      } else if k < 10 {
        EscapeStartsWithBackslash(k);
        ReplaceSkipPrefix(Stage(x, 10), y, Placeholder, BackslashEscape);
      } else if x != '<' {
        ReplaceSkipPrefix([x], y, Placeholder, BackslashEscape);
      } else {
        LessPrefix(s);
        StartsWithContains(s, Placeholder);
        ReplaceNoMatchHead(x, y, Placeholder, BackslashEscape);
      }
    }
  }

  lemma BackslashIndex()
    ensures TableIndex('\\') == 9 && EscapeChar('\\') == BackslashEscape
  {
    TableFacts();
  }

  /** A text that starts with `<` has the placeholder at the start of its
      final stage only when it starts with the placeholder itself. */
  lemma LessPrefix(s: string)
    requires s != [] && s[0] == '<'
    ensures StartsWith([s[0]] + Staged(s[1..], 10), Placeholder) ==> StartsWith(s, Placeholder)
  {
    if StartsWith([s[0]] + Staged(s[1..], 10), Placeholder) {
      ConsStartsWith(s[0], Staged(s[1..], 10), Placeholder);
      StagedPrefix(s[1..], 1);
      ConsStartsWith(s[0], s[1..], Placeholder);
      assert [s[0]] + s[1..] == s;
    }
  }

  /** For any text that does not contain the placeholder, `escape_latex`
      escapes each character by its table entry and leaves every other
      character as it is: nothing is escaped twice. */
  lemma EscapeLatexPerChar(text: string)
    requires !Contains(text, Placeholder)
    ensures EscapeLatexOf(text) == Escaped(text)
  {
    if text != [] {
      PlaceholderStage(text);
      ApplyTableStaged(text, 0);
      RestoreBackslashes(text);
    }
  }

  /** Each of the ten special characters on its own becomes its table escape. */
  lemma EscapeSpecialChar(k: nat)
    requires k < |SpecialChars|
    ensures EscapeLatexOf([SpecialChars[k].0]) == SpecialChars[k].1
  {
    TableFacts();
    var c := SpecialChars[k].0;
    assert !Contains([c], Placeholder);
    EscapeLatexPerChar([c]);
    assert TableIndex(c) == k;
    assert Escaped([c]) == EscapeChar(c) + Escaped([]);
  }

  /** Every `&`, `%`, `$`, `#` and `_` is immediately preceded by a backslash. */
  predicate Guarded(s: string) {
    forall i | 0 <= i < |s| && s[i] in "&%$#_" :: i > 0 && s[i - 1] == '\\'
  }

  lemma GuardedAppend(a: string, b: string)
    requires Guarded(a) && Guarded(b)
    ensures Guarded(a + b)
  {
    forall i | 0 <= i < |a + b| && (a + b)[i] in "&%$#_" ensures i > 0 && (a + b)[i - 1] == '\\' {
      if i >= |a| {
        assert (a + b)[i] == b[i - |a|];
      }
    }
  }

  lemma GuardedEscapeChar(c: char)
    ensures Guarded(EscapeChar(c))
  {
    var k := TableIndex(c);
    if k < |SpecialChars| {
      GuardedEntry(k);
    } else {
      GuardCharsAreSpecial(c);
    }
  }

  lemma GuardedEntry(k: nat)
    requires k < |SpecialChars|
    ensures Guarded(SpecialChars[k].1)
  {
    var e := SpecialChars[k].1;
    if k < 5 {
      assert |e| == 2 && e[0] == '\\';
    } else if k < 7 {
      assert e[1] !in "&%$#_";
    } else if k == 7 {
      assert e == "\\textasciitilde{}";
    } else if k == 8 {
      assert e == "\\^{}";
    } else {
      assert e == BackslashEscape;
    }
  }

  lemma GuardCharsAreSpecial(c: char)
    ensures c in "&%$#_" ==> TableIndex(c) < 5
  {
    if c in "&%$#_" {
      assert c == SpecialChars[0].0 || c == SpecialChars[1].0 || c == SpecialChars[2].0
        || c == SpecialChars[3].0 || c == SpecialChars[4].0;
    }
  }

  /** In the escape of any text that does not contain the placeholder, every
      `&`, `%`, `$`, `#` and `_` is immediately preceded by a backslash. */
  lemma {:induction false} EscapedIsGuarded(text: string)
    requires !Contains(text, Placeholder)
    ensures Guarded(EscapeLatexOf(text))
  {
    EscapeLatexPerChar(text);
    EscapedGuarded(text);
  }

  lemma {:induction false} EscapedGuarded(s: string)
    ensures Guarded(Escaped(s))
    decreases |s|
  {
    if s != [] {
      GuardedEscapeChar(s[0]);
      EscapedGuarded(s[1..]);
      GuardedAppend(EscapeChar(s[0]), Escaped(s[1..]));
    }
  }

  // ------------------------------------------------------- figures and paths

  /** `_format_graphics_path`: relative to the output directory when the
      figure is absolute and lies under it, else the path itself; either way
      with backslashes turned into forward slashes. */
  function FormatGraphicsPath(figurePath: Path, outputDir: Option<Path>): (r: string)
    ensures '\\' !in r
    ensures NoBackslash(figurePath) && outputDir.Some? && figurePath.absolute
            && RelativeTo(figurePath, outputDir.value).Some? ==>
              r == ToStr(RelativeTo(figurePath, outputDir.value).value)
    ensures NoBackslash(figurePath) && !(outputDir.Some? && figurePath.absolute
            && RelativeTo(figurePath, outputDir.value).Some?) ==>
              r == ToStr(figurePath)
  {
    var chosen :=
      if outputDir.Some? && figurePath.absolute && RelativeTo(figurePath, outputDir.value).Some?
      then RelativeTo(figurePath, outputDir.value).value
      else figurePath;
    NoBackslashToStr(chosen);
    ForwardSlashes(ToStr(chosen));
    Replace(ToStr(chosen), "\\", "/")
  }

  /** `.replace("\\", "/")` removes every backslash and changes nothing else
      when there is none. */
  lemma ForwardSlashes(s: string)
    ensures '\\' !in Replace(s, "\\", "/")
    ensures '\\' !in s ==> Replace(s, "\\", "/") == s
  {
    ReplaceCharRemoves(s, '\\', "/");
    if '\\' !in s {
      ReplaceCharAbsent(s, '\\', "/");
    }
  }

  /** No component of the path contains a backslash. */
  predicate NoBackslash(p: Path) {
    forall i | 0 <= i < |p.parts| :: '\\' !in p.parts[i]
  }

  lemma NoBackslashToStr(p: Path)
    ensures NoBackslash(p) ==> '\\' !in ToStr(p)
  {
    if NoBackslash(p) {
      JoinWithout(p.parts, "/", '\\');
    }
  }

  /** A join of texts without `c`, with a separator without `c`, has no `c`. */
  lemma {:induction false} JoinWithout(parts: seq<string>, sep: string, c: char)
    requires c !in sep
    requires forall i | 0 <= i < |parts| :: c !in parts[i]
    ensures c !in Join(parts, sep)
    decreases |parts|
  {
    if |parts| > 1 {
      JoinWithout(parts[1..], sep, c);
    }
  }

  const FigureHead := "\\begin{figure}\n  \\centering\n"
  const FigureTail := "\\end{figure}\n"

  /** The `\includegraphics` line for a path and a width. */
  function IncludeGraphics(path: string, width: string): string {
    "  \\includegraphics[width=" + width + "]{" + path + "}\n"
  }

  /** The placeholder comment for a figure without an image file. */
  function NoImageComment(sequenceNumber: int): string {
    "% Figure " + IntToString(sequenceNumber) + " (no image available)\n"
  }

  /** The caption line of a figure: present only for a non-empty caption. */
  function CaptionLine(caption: Option<string>): string {
    if caption.Some? && caption.value != [] then "  \\caption{" + EscapeLatexOf(caption.value) + "}\n" else ""
  }

  /** `generate_figure_latex`: a comment naming the figure when it has no
      file, otherwise a figure environment (see `FigureLatexShape`). */
  function FigureLatex(figure: ExtractedElement, outputDir: Option<Path>, width: string): (latex: string)
    ensures figure.outputFilename.None? ==> latex == NoImageComment(figure.sequenceNumber)
  {
    if figure.outputFilename.None? then NoImageComment(figure.sequenceNumber)
    else
      var graphicsPath := FormatGraphicsPath(figure.outputFilename.value, outputDir);
      var latex := FigureHead + IncludeGraphics(graphicsPath, width);
      var latex := latex + CaptionLine(figure.caption);
      latex + FigureTail
  }

  /** A figure with a file is a figure environment that includes the
      formatted path at the given width, ends the environment, and carries
      an escaped caption line exactly when the caption is non-empty. */
  lemma FigureLatexShape(figure: ExtractedElement, outputDir: Option<Path>, width: string)
    requires figure.outputFilename.Some?
    ensures var latex := FigureLatex(figure, outputDir, width);
      var line := IncludeGraphics(FormatGraphicsPath(figure.outputFilename.value, outputDir), width);
      && StartsWith(latex, FigureHead + line)
      && EndsWith(latex, FigureTail)
      && (figure.caption.None? || figure.caption.value == [] ==> latex == FigureHead + line + FigureTail)
      && (figure.caption.Some? && figure.caption.value != [] ==>
            OccursAt(latex, "  \\caption{" + EscapeLatexOf(figure.caption.value) + "}\n", |FigureHead + line|))
  {
    var line := IncludeGraphics(FormatGraphicsPath(figure.outputFilename.value, outputDir), width);
    var head := FigureHead + line;
    var caption := CaptionLine(figure.caption);
    ConcatParts(head, caption, FigureTail);
    if caption == [] {
      assert head + caption == head;
    }
  }

  /** The default width `generate_figure_latex` uses. */
  const DefaultWidth := "0.8\\textwidth"
}
