/** The staged line filter of extraction/text_sanitizer.py. Raw PDF text is
    split into lines; DOI, arXiv and "Page N of M" lines, standalone page
    numbers, short lines and repeated header/footer lines are dropped
    according to the configuration; the survivors are joined again and
    their whitespace normalised. Every line stage keeps an order-preserving
    sub-list of its input. */
module TextSanitizer {
  import opened Seqs
  import opened Strings
  import opened Config

  // ------------------------------------------------------- line patterns
  // The source's patterns are applied with `match` to a stripped line of a
  // split on "\n", so a line never holds a newline and `$` is its end.

  /** `\w` on ASCII: letters, digits and underscore. */
  predicate IsWordChar(c: char) {
    IsDigit(c) || IsUpper(c) || IsLower(c) || c == '_'
  }

  /** The class `[\d.\/\w-]` of the DOI pattern. */
  predicate IsDoiChar(c: char) {
    IsWordChar(c) || c == '.' || c == '/' || c == '-'
  }

  /** `^DOI:\s*[\d.\/\w-]+\s*$`: the text after the prefix is, once its
      surrounding whitespace is stripped, a non-empty run of DOI characters. */
  predicate MatchesDoi(line: string) {
    StartsWithIgnoreCase(line, "doi:")
    && var body := Strip(line[4..]);
    body != [] && forall i | 0 <= i < |body| :: IsDoiChar(body[i])
  }

  /** Length of the longest prefix of `s` made of digits and dots. */
  function DotDigitRun(s: string): (n: nat)
    ensures n <= |s|
    ensures forall i | 0 <= i < n :: IsDigit(s[i]) || s[i] == '.'
    ensures n < |s| ==> !(IsDigit(s[n]) || s[n] == '.')
  {
    if s != [] && (IsDigit(s[0]) || s[0] == '.') then 1 + DotDigitRun(s[1..]) else 0
  }

  predicate AllDigits(s: string) {
    forall i | 0 <= i < |s| :: IsDigit(s[i])
  }

  /** `[\d.]+v?\d*`: a non-empty run of digits and dots, then optionally a
      `v` (either case) and digits. */
  predicate IsArxivId(b: string) {
    var k := DotDigitRun(b);
    k >= 1 && (k == |b| || ((b[k] == 'v' || b[k] == 'V') && AllDigits(b[k + 1..])))
  }

  /** `^arXiv:\s*[\d.]+v?\d*\s*$`. */
  predicate MatchesArxiv(line: string) {
    StartsWithIgnoreCase(line, "arxiv:") && IsArxivId(Strip(line[6..]))
  }

  /** `\s+\d+` at the start of `s`: the length it consumes, or 0 when it
      does not match. */
  function SpacesThenDigits(s: string): (n: nat)
    ensures n <= |s|
  {
    var a := LeadingSpaces(s);
    var d := DigitRun(s[a..]);
    if a >= 1 && d >= 1 then a + d else 0
  }

  /** `^Page\s+\d+\s+of\s+\d+\s*$`. */
  predicate MatchesPageOf(line: string) {
    StartsWithIgnoreCase(line, "page")
    && var rest := line[4..];
    var n := SpacesThenDigits(rest);
    n >= 1
    && var mid := rest[n..];
    var a := LeadingSpaces(mid);
    a >= 1 && StartsWithIgnoreCase(mid[a..], "of")
    && var tail := mid[a + 2..];
    var m := SpacesThenDigits(tail);
    m >= 1 && forall i | m <= i < |tail| :: IsSpace(tail[i])
  }

  /** `^\d+$` applied to a stripped line. */
  predicate IsPageNumber(line: string) {
    IsDigits(Strip(line))
  }

  predicate NotDoiLine(line: string) { !MatchesDoi(Strip(line)) }
  predicate NotArxivLine(line: string) { !MatchesArxiv(Strip(line)) }
  predicate NotPageOfLine(line: string) { !MatchesPageOf(Strip(line)) }
  predicate NotPageNumber(line: string) { !IsPageNumber(line) }

  /** A line that is empty once stripped. */
  predicate IsBlankLine(line: string) { Strip(line) == [] }

  // ------------------------------------------------------- line filters

  /** `_remove_doi_lines`. */
  function RemoveDoiLines(lines: seq<string>): (r: seq<string>)
    ensures IsSubseq(r, lines)
    ensures forall l | l in r :: !MatchesDoi(Strip(l))
    ensures forall l | l in lines && !MatchesDoi(Strip(l)) :: l in r
  {
    Filter(lines, NotDoiLine)
  }

  /** `_remove_arxiv_lines`. */
  function RemoveArxivLines(lines: seq<string>): (r: seq<string>)
    ensures IsSubseq(r, lines)
    ensures forall l | l in r :: !MatchesArxiv(Strip(l))
    ensures forall l | l in lines && !MatchesArxiv(Strip(l)) :: l in r
  {
    Filter(lines, NotArxivLine)
  }

  /** `_remove_page_x_of_y`. */
  function RemovePageXOfY(lines: seq<string>): (r: seq<string>)
    ensures IsSubseq(r, lines)
    ensures forall l | l in r :: !MatchesPageOf(Strip(l))
    ensures forall l | l in lines && !MatchesPageOf(Strip(l)) :: l in r
  {
    Filter(lines, NotPageOfLine)
  }

  /** `_remove_short_lines`: a line survives when its stripped form is
      empty or at least `minLength` long. */
  function RemoveShortLines(lines: seq<string>, minLength: int): (r: seq<string>)
    ensures IsSubseq(r, lines)
    ensures forall l | l in r :: Strip(l) == [] || |Strip(l)| >= minLength
    ensures forall l | l in lines && (Strip(l) == [] || |Strip(l)| >= minLength) :: l in r
  {
    Filter(lines, l => |Strip(l)| >= minLength || |Strip(l)| == 0)
  }

  /** What `_remove_standalone_page_numbers` keeps. */
  function WithoutPageNumbers(lines: seq<string>): (r: seq<string>)
    ensures IsSubseq(r, lines)
    ensures forall l | l in r :: !IsDigits(Strip(l))
    ensures forall l | l in lines && !IsDigits(Strip(l)) :: l in r
  {
    Filter(lines, NotPageNumber)
  }

  /** `_remove_standalone_page_numbers`. */
  method RemoveStandalonePageNumbers(lines: seq<string>) returns (result: seq<string>)
    ensures result == WithoutPageNumbers(lines)
  {
    result := [];
    var i := 0;
    while i < |lines|
      invariant 0 <= i <= |lines|
      invariant result == Filter(lines[..i], NotPageNumber)
    {
      assert lines[..i + 1][..i] == lines[..i];
      var stripped := Strip(lines[i]);
      if !IsDigits(stripped) {
        result := result + [lines[i]];
      }
      i := i + 1;
    }
    assert lines[..i] == lines;
  }

  /** The keep rule of `_remove_short_lines_preserve_numbers`. */
  predicate KeepPreservingNumbers(minLength: int, line: string) {
    var stripped := Strip(line);
    |stripped| == 0 || IsDigits(stripped) || |stripped| >= minLength
  }

  /** What `_remove_short_lines_preserve_numbers` keeps: a line is dropped
      only when it is non-blank, not a number and shorter than `minLength`. */
  function WithoutShortNonNumbers(lines: seq<string>, minLength: int): (r: seq<string>)
    ensures IsSubseq(r, lines)
    ensures forall l | l in lines && (Strip(l) == [] || IsDigits(Strip(l)) || |Strip(l)| >= minLength) :: l in r
    ensures forall l | l in r :: Strip(l) == [] || IsDigits(Strip(l)) || |Strip(l)| >= minLength
  {
    Filter(lines, l => KeepPreservingNumbers(minLength, l))
  }

  /** `_remove_short_lines_preserve_numbers`. */
  method RemoveShortLinesPreserveNumbers(lines: seq<string>, minLength: int) returns (result: seq<string>)
    ensures result == WithoutShortNonNumbers(lines, minLength)
  {
    result := [];
    var i := 0;
    while i < |lines|
      invariant 0 <= i <= |lines|
      invariant result == Filter(lines[..i], l => KeepPreservingNumbers(minLength, l))
    {
      assert lines[..i + 1][..i] == lines[..i];
      var stripped := Strip(lines[i]);
      if |stripped| == 0 || IsDigits(stripped) || |stripped| >= minLength {
        result := result + [lines[i]];
      }
      i := i + 1;
    }
    assert lines[..i] == lines;
  }

  // ------------------------------------------------------ repeated lines
  // Lines are compared by their stripped form; the blank form never counts
  // as repeated.

  /** How many lines strip to `s`. */
  function Occurrences(lines: seq<string>, s: string): (n: nat)
    ensures n <= |lines|
  {
    Count(lines, Strip, s)
  }

  /** What `_remove_repeated_lines` keeps: every blank line, and every line
      whose stripped form has not been seen on an earlier line. */
  function FirstOccurrences(lines: seq<string>): seq<string> {
    FirstByKey(lines, Strip, [])
  }

  /** The counting loop of `_remove_repeated_lines`: how many lines strip
      to each non-empty text. */
  method CountStrippedLines(lines: seq<string>) returns (lineCounts: map<string, nat>)
    ensures forall s :: s in lineCounts <==> s != [] && Occurrences(lines, s) > 0
    ensures forall s | s in lineCounts :: lineCounts[s] == Occurrences(lines, s)
  {
    lineCounts := map[];
    var i := 0;
    while i < |lines|
      invariant 0 <= i <= |lines|
      invariant forall s :: s in lineCounts <==> s != [] && Count(lines[..i], Strip, s) > 0
      invariant forall s | s in lineCounts :: lineCounts[s] == Count(lines[..i], Strip, s)
    {
      var stripped := Strip(lines[i]);
      assert lines[..i + 1][..i] == lines[..i];
      if stripped != [] {
        var previous := if stripped in lineCounts then lineCounts[stripped] else 0;
        lineCounts := lineCounts[stripped := previous + 1];
      }
      i := i + 1;
    }
    assert lines[..i] == lines;
  }

  /** `_remove_repeated_lines`: count the stripped lines, collect those seen
      twice or more, then keep the first of each of them. */
  method RemoveRepeatedLines(lines: seq<string>) returns (result: seq<string>)
    ensures result == FirstOccurrences(lines)
  {
    var lineCounts := CountStrippedLines(lines);
    var repeated := set s | s in lineCounts && lineCounts[s] >= 2;
    result := KeepFirstOfRepeated(lines, repeated);
  }

  /** `repeated` holds exactly the non-blank forms that occur twice or more. */
  ghost predicate RepeatedForms(lines: seq<string>, repeated: set<string>) {
    [] !in repeated && forall s | s != [] :: s in repeated <==> Count(lines, Strip, s) >= 2
  }

  /** The second loop of `_remove_repeated_lines`: keep blank lines, lines
      whose form is not repeated, and the first line of each repeated form. */
  method KeepFirstOfRepeated(lines: seq<string>, repeated: set<string>) returns (result: seq<string>)
    requires RepeatedForms(lines, repeated)
    ensures result == FirstOccurrences(lines)
  {
    var seen: set<string> := {};
    result := [];
    var i := 0;
    while i < |lines|
      invariant 0 <= i <= |lines|
      invariant result == FirstByKey(lines[..i], Strip, [])
      invariant seen == KeysOf(lines[..i], Strip) * repeated
    {
      var stripped := Strip(lines[i]);
      RepeatedLineChoice(lines, i, repeated, seen);
      if stripped == [] {
        result := result + [lines[i]];
      } else if stripped in repeated {
        if stripped !in seen {
          result := result + [lines[i]];
          seen := seen + {stripped};
        } else {
          assert seen + {stripped} == seen;
        }
      } else {
        result := result + [lines[i]];
      }
      i := i + 1;
    }
    assert lines[..i] == lines;
  }

  /** One step of the second loop of `_remove_repeated_lines`: it keeps
      exactly the lines `FirstOccurrences` keeps, because a form counted
      fewer than twice in all cannot have appeared on an earlier line, and
      `seen` tracks the repeated forms met so far. */
  lemma RepeatedLineChoice(lines: seq<string>, i: nat, repeated: set<string>, seen: set<string>)
    requires i < |lines|
    requires RepeatedForms(lines, repeated)
    requires seen == KeysOf(lines[..i], Strip) * repeated
    ensures var stripped := Strip(lines[i]);
            var kept := stripped == [] || stripped !in repeated || stripped !in seen;
            FirstByKey(lines[..i + 1], Strip, []) == FirstByKey(lines[..i], Strip, []) + (if kept then [lines[i]] else [])
    ensures var stripped := Strip(lines[i]);
            KeysOf(lines[..i + 1], Strip) * repeated == seen + (if stripped in repeated then {stripped} else {})
  {
    var stripped := Strip(lines[i]);
    if stripped != [] && stripped !in repeated && stripped in KeysOf(lines[..i], Strip) {
      CountTwice(lines, i, Strip);
    }
    assert lines[..i + 1] == lines[..i] + [lines[i]];
    FirstByKeySnoc(lines[..i], lines[i], Strip, []);
    KeysOfSnoc(lines[..i], lines[i], Strip);
  }

  /** `_remove_repeated_lines` keeps an order-preserving sub-list in which
      no non-blank stripped line occurs twice, that still holds every
      stripped form of the input, and every blank line. */
  lemma FirstOccurrencesProperties(lines: seq<string>)
    ensures IsSubseq(FirstOccurrences(lines), lines)
    ensures KeysOf(FirstOccurrences(lines), Strip) == KeysOf(lines, Strip)
    ensures forall i, j | 0 <= i < j < |FirstOccurrences(lines)| ::
              Strip(FirstOccurrences(lines)[i]) != [] ==> Strip(FirstOccurrences(lines)[i]) != Strip(FirstOccurrences(lines)[j])
    ensures Filter(FirstOccurrences(lines), IsBlankLine) == Filter(lines, IsBlankLine)
  {
    FirstByKeySubseq(lines, Strip, []);
    FirstByKeyKeepsKeys(lines, Strip, []);
    FirstByKeyNoRepeats(lines, Strip, []);
    FirstByKeyKeepsBlanks(lines, Strip, [], IsBlankLine);
  }

  // -------------------------------------------------------- whitespace

  /** The class `[ \t]`. */
  predicate IsBlank(c: char) { c == ' ' || c == '\t' }

  /** No tab and no two consecutive spaces. */
  predicate Compact(s: string) {
    forall i | 0 <= i < |s| :: s[i] != '\t' && (i + 1 < |s| ==> !(s[i] == ' ' && s[i + 1] == ' '))
  }

  /** No line of `s` begins or ends with whitespace: a whitespace character
      other than the newline has a non-newline neighbour on both sides. */
  predicate LinesTrimmed(s: string) {
    forall i | 0 <= i < |s| && IsSpace(s[i]) && s[i] != '\n' ::
      0 < i && s[i - 1] != '\n' && i + 1 < |s| && s[i + 1] != '\n'
  }

  function BlankRun(s: string): (n: nat)
    ensures n <= |s|
    ensures n < |s| ==> !IsBlank(s[n])
    ensures s != [] && IsBlank(s[0]) ==> n >= 1
  {
    if s != [] && IsBlank(s[0]) then 1 + BlankRun(s[1..]) else 0
  }

  /** `re.sub(r"[ \t]+", " ", s)`: every run of spaces and tabs becomes
      one space. */
  function CollapseBlanks(s: string): (r: string)
    ensures |r| <= |s|
    ensures Compact(r)
    ensures s != [] ==> r != [] && (r[0] == ' ' <==> IsBlank(s[0])) && (!IsBlank(s[0]) ==> r[0] == s[0])
    ensures forall i | 0 <= i < |r| :: r[i] == ' ' || r[i] in s
    decreases |s|
  {
    if s == [] then []
    else if IsBlank(s[0]) then
      var k := BlankRun(s);
      var rest := CollapseBlanks(s[k..]);
      assert forall i | 0 <= i < |rest| :: rest[i] == ' ' || rest[i] in s by {
        assert forall c | c in s[k..] :: c in s;
      }
      [' '] + rest
    else
      var rest := CollapseBlanks(s[1..]);
      assert forall c | c in s[1..] :: c in s;
      [s[0]] + rest
  }

  function NewlineRun(s: string): (n: nat)
    ensures n <= |s|
    ensures forall i | 0 <= i < n :: s[i] == '\n'
    ensures s != [] && s[0] == '\n' ==> n >= 1
  {
    if s != [] && s[0] == '\n' then 1 + NewlineRun(s[1..]) else 0
  }

  /** `re.sub(r"\n{3,}", "\n\n", s)`: every run of three or more newlines
      becomes two. */
  function CollapseNewlines(s: string): (r: string)
    ensures |r| <= |s|
    ensures Compact(s) ==> Compact(r)
    ensures s != [] ==> r != [] && (r[0] == '\n' <==> s[0] == '\n') && (s[0] != '\n' ==> r[0] == s[0])
    decreases |s|
  {
    if s == [] then []
    else
      var k := NewlineRun(s);
      if k >= 3 then
        var rest := CollapseNewlines(s[k..]);
        CompactSlice(s, k);
        CompactJoin("\n", '\n', rest);
        assert "\n\n" + rest == "\n" + ['\n'] + rest;
        "\n\n" + rest
      else
        var rest := CollapseNewlines(s[1..]);
        CompactSlice(s, 1);
        CompactCons(s, rest);
        [s[0]] + rest
  }

  /** Keeping the first character of a compact text in front of a text that
      begins like the rest of it keeps it compact. */
  lemma CompactCons(s: string, rest: string)
    requires s != []
    requires Compact(s[1..]) ==> Compact(rest)
    requires |s| > 1 ==> rest != [] && (rest[0] == '\n' <==> s[1] == '\n') && (s[1] != '\n' ==> rest[0] == s[1])
    requires |s| == 1 ==> rest == []
    ensures Compact(s) ==> Compact([s[0]] + rest)
  {
    if Compact(s) {
      var t := [s[0]] + rest;
      forall i | 0 <= i < |t|
        ensures t[i] != '\t' && (i + 1 < |t| ==> !(t[i] == ' ' && t[i + 1] == ' '))
      {
        if i == 0 && |t| > 1 {
          assert t[1] == rest[0];
          assert s[0] == ' ' ==> s[1] != ' ';
        }
        if i > 0 {
          assert t[i] == rest[i - 1];
        }
      }
    }
  }

  lemma CompactSlice(s: string, k: nat)
    requires k <= |s|
    ensures Compact(s) ==> Compact(s[k..]) && Compact(s[..k])
  {
  }

  /** Gluing two compact texts with a character that is neither a space nor
      a tab keeps the text compact. */
  lemma CompactJoin(a: string, c: char, b: string)
    requires c != ' ' && c != '\t'
    ensures Compact(a) && Compact(b) ==> Compact(a + [c] + b)
  {
    if !(Compact(a) && Compact(b)) {
      return;
    }
    var s := a + [c] + b;
    forall i | 0 <= i < |s|
      ensures s[i] != '\t' && (i + 1 < |s| ==> !(s[i] == ' ' && s[i + 1] == ' '))
    {
      if i < |a| {
        assert s[i] == a[i];
        if i + 1 < |a| { assert s[i + 1] == a[i + 1]; }
      } else if i > |a| {
        assert s[i] == b[i - |a| - 1];
        if i + 1 < |s| { assert s[i + 1] == b[i - |a|]; }
      }
    }
  }

  /** `"\n".join(line.strip() for line in s.split("\n"))`. */
  function StripEachLine(s: string): string {
    Join(StripAll(Split(s, '\n')), "\n")
  }

  /** `_normalize_whitespace`. */
  function NormalizeWhitespace(s: string): string {
    Strip(StripEachLine(CollapseNewlines(CollapseBlanks(s))))
  }

  lemma {:induction false} SplitCompact(s: string, sep: char)
    requires Compact(s)
    ensures forall p | p in Split(s, sep) :: Compact(p)
    decreases |s|
  {
    var i := IndexOf(s, sep);
    if i < |s| {
      CompactSlice(s, i + 1);
      CompactSlice(s, i);
      SplitCompact(s[i + 1..], sep);
    }
  }

  lemma {:induction false} JoinCompact(parts: seq<string>)
    requires forall p | p in parts :: Compact(p)
    ensures Compact(Join(parts, "\n"))
  {
    if |parts| > 1 {
      JoinCompact(parts[1..]);
      CompactJoin(parts[0], '\n', Join(parts[1..], "\n"));
      assert parts[0] + "\n" + Join(parts[1..], "\n") == parts[0] + ['\n'] + Join(parts[1..], "\n");
    }
  }

  /** A stripped text without newlines is a single trimmed line. */
  lemma StrippedLineTrimmed(a: string)
    requires IsStripped(a) && '\n' !in a
    ensures LinesTrimmed(a)
  {
    forall i | 0 <= i < |a| && IsSpace(a[i]) && a[i] != '\n'
      ensures 0 < i && a[i - 1] != '\n' && i + 1 < |a| && a[i + 1] != '\n'
    {
      assert a[i - 1] in a;
      assert a[i + 1] in a;
    }
  }

  /** Two texts with trimmed lines, joined by a newline, still have trimmed lines. */
  lemma TrimmedConcat(a: string, b: string)
    requires LinesTrimmed(a) && LinesTrimmed(b)
    ensures LinesTrimmed(a + "\n" + b)
  {
    var s := a + "\n" + b;
    forall i | 0 <= i < |s| && IsSpace(s[i]) && s[i] != '\n'
      ensures 0 < i && s[i - 1] != '\n' && i + 1 < |s| && s[i + 1] != '\n'
    {
      if i < |a| {
        assert s[i] == a[i] && s[i - 1] == a[i - 1] && s[i + 1] == a[i + 1];
      } else {
        var j := i - |a| - 1;
        assert s[i] == b[j] && s[i - 1] == b[j - 1];
        assert s[i + 1] == b[j + 1];
      }
    }
  }

  /** Lines that are each stripped and newline-free join into a text whose
      lines are trimmed. */
  lemma {:induction false} JoinTrimmed(parts: seq<string>)
    requires forall p | p in parts :: IsStripped(p) && '\n' !in p
    ensures LinesTrimmed(Join(parts, "\n"))
  {
    if parts != [] {
      assert parts[0] in parts;
      StrippedLineTrimmed(parts[0]);
    }
    if |parts| > 1 {
      assert forall p | p in parts[1..] :: p in parts;
      JoinTrimmed(parts[1..]);
      TrimmedConcat(parts[0], Join(parts[1..], "\n"));
    }
  }

  /** The stripped lines of a text contain no newline. */
  lemma StripNoNewline(p: string)
    requires '\n' !in p
    ensures '\n' !in Strip(p)
  {
    StripIsInfix(p);
    var a := LeadingSpaces(p);
    forall k | 0 <= k < |Strip(p)| ensures Strip(p)[k] != '\n' {
      assert Strip(p)[k] == p[a + k];
      assert p[a + k] in p;
    }
  }

  /** Stripping a text keeps its lines trimmed and compact. */
  lemma StripKeeps(s: string)
    ensures LinesTrimmed(s) ==> LinesTrimmed(Strip(s))
    ensures Compact(s) ==> Compact(Strip(s))
  {
    StripIsInfix(s);
    var a := LeadingSpaces(s);
    var r := Strip(s);
    assert forall i | 0 <= i < |r| :: r[i] == s[a + i];
  }

  /** `_normalize_whitespace`: the result has no surrounding whitespace, no
      line with surrounding whitespace, no tab and no double space, and is
      never longer than its input. */
  lemma NormalizeWhitespaceProperties(s: string)
    ensures IsStripped(NormalizeWhitespace(s))
    ensures LinesTrimmed(NormalizeWhitespace(s))
    ensures Compact(NormalizeWhitespace(s))
    ensures |NormalizeWhitespace(s)| <= |s|
  {
    var t := CollapseNewlines(CollapseBlanks(s));
    var parts := Split(t, '\n');
    var stripped := StripAll(parts);
    var j := Join(stripped, "\n");
    // trimmed lines
    forall p | p in stripped ensures IsStripped(p) && '\n' !in p {
      var k :| 0 <= k < |stripped| && stripped[k] == p;
      assert parts[k] in parts;
      StripNoNewline(parts[k]);
    }
    JoinTrimmed(stripped);
    // compactness
    SplitCompact(t, '\n');
    forall p | p in stripped ensures Compact(p) {
      var k :| 0 <= k < |stripped| && stripped[k] == p;
      assert parts[k] in parts;
      StripKeeps(parts[k]);
    }
    JoinCompact(stripped);
    StripKeeps(j);
    // length
    JoinSplit(t, '\n');
    JoinLength(stripped, "\n", parts);
  }

  /** Python's line-level view: every line of a normalised text is equal to
      its own strip. */
  lemma {:induction false} TrimmedLinesAreStripped(s: string)
    requires LinesTrimmed(s)
    ensures forall l | l in Split(s, '\n') :: IsStripped(l)
    decreases |s|
  {
    var i := IndexOf(s, '\n');
    var head := s[..i];
    if head != [] {
      assert head[0] == s[0] && s[0] != '\n';
      assert head[|head| - 1] == s[i - 1] && s[i - 1] != '\n';
    }
    assert IsStripped(head);
    if i < |s| {
      var rest := s[i + 1..];
      assert LinesTrimmed(rest) by {
        forall k | 0 <= k < |rest| && IsSpace(rest[k]) && rest[k] != '\n'
          ensures 0 < k && rest[k - 1] != '\n' && k + 1 < |rest| && rest[k + 1] != '\n'
        {
          assert rest[k] == s[i + 1 + k];
        }
      }
      TrimmedLinesAreStripped(rest);
    }
  }

  // ---------------------------------------------------------- sanitize

  /** The lines that survive every stage `sanitize` runs under `config`. */
  function SanitizedLines(text: string, config: TextExtractionConfig): seq<string> {
    var lines0 := Split(text, '\n');
    var lines1 := if config.removeHeadersFooters
                  then RemovePageXOfY(RemoveArxivLines(RemoveDoiLines(lines0))) else lines0;
    var lines2 := if config.removePageNumbers
                  then RemoveShortLines(WithoutPageNumbers(lines1), config.minLineLength)
                  else WithoutShortNonNumbers(lines1, config.minLineLength);
    if config.removeHeadersFooters then FirstOccurrences(lines2) else lines2
  }

  /** What `sanitize` returns. */
  function Sanitized(text: string, config: TextExtractionConfig): string {
    if text == [] then []
    else NormalizeWhitespace(Join(SanitizedLines(text, config), "\n"))
  }

  /** `TextSanitizer.sanitize`. */
  method Sanitize(text: string, config: TextExtractionConfig) returns (result: string)
    ensures result == Sanitized(text, config)
    ensures text == [] ==> result == []
  {
    if text == [] {
      return [];
    }
    var lines := Split(text, '\n');
    if config.removeHeadersFooters {
      lines := RemoveDoiLines(lines);
      lines := RemoveArxivLines(lines);
      lines := RemovePageXOfY(lines);
    }
    if config.removePageNumbers {
      lines := RemoveStandalonePageNumbers(lines);
      lines := RemoveShortLines(lines, config.minLineLength);
    } else {
      lines := RemoveShortLinesPreserveNumbers(lines, config.minLineLength);
    }
    if config.removeHeadersFooters {
      lines := RemoveRepeatedLines(lines);
    }
    result := Join(lines, "\n");
    result := NormalizeWhitespace(result);
  }

  /** Every stage keeps an order-preserving sub-list of the input's lines. */
  lemma SanitizedLinesSubseq(text: string, config: TextExtractionConfig)
    ensures IsSubseq(SanitizedLines(text, config), Split(text, '\n'))
  {
    var lines0 := Split(text, '\n');
    var lines1 := if config.removeHeadersFooters
                  then RemovePageXOfY(RemoveArxivLines(RemoveDoiLines(lines0))) else lines0;
    if config.removeHeadersFooters {
      SubseqTrans(RemoveArxivLines(RemoveDoiLines(lines0)), RemoveDoiLines(lines0), lines0);
      SubseqTrans(lines1, RemoveArxivLines(RemoveDoiLines(lines0)), lines0);
    } else {
      SubseqRefl(lines0);
    }
    var lines2 := if config.removePageNumbers
                  then RemoveShortLines(WithoutPageNumbers(lines1), config.minLineLength)
                  else WithoutShortNonNumbers(lines1, config.minLineLength);
    if config.removePageNumbers {
      SubseqTrans(lines2, WithoutPageNumbers(lines1), lines1);
    }
    SubseqTrans(lines2, lines1, lines0);
    if config.removeHeadersFooters {
      FirstOccurrencesProperties(lines2);
      SubseqTrans(FirstOccurrences(lines2), lines2, lines0);
    }
  }

  /** The sanitised text is never longer than the raw text. */
  lemma SanitizedNeverLonger(text: string, config: TextExtractionConfig)
    ensures |Sanitized(text, config)| <= |text|
  {
    if text != [] {
      SanitizedLinesSubseq(text, config);
      JoinSubseqLength(SanitizedLines(text, config), Split(text, '\n'), "\n");
      JoinSplit(text, '\n');
      NormalizeWhitespaceProperties(Join(SanitizedLines(text, config), "\n"));
    }
  }

  /** The sanitised text is normalised: no surrounding whitespace, no line
      with surrounding whitespace, no tab, no double space. */
  lemma SanitizedIsNormalized(text: string, config: TextExtractionConfig)
    ensures IsStripped(Sanitized(text, config))
    ensures forall l | l in Split(Sanitized(text, config), '\n') :: IsStripped(l)
    ensures Compact(Sanitized(text, config))
  {
    if text != [] {
      NormalizeWhitespaceProperties(Join(SanitizedLines(text, config), "\n"));
    }
    TrimmedLinesAreStripped(Sanitized(text, config));
  }

  /** With header/footer removal on, no surviving line is a DOI, arXiv or
      "Page N of M" line. */
  lemma HeaderPatternsRemoved(text: string, config: TextExtractionConfig)
    requires config.removeHeadersFooters
    ensures forall l | l in SanitizedLines(text, config) ::
              !MatchesDoi(Strip(l)) && !MatchesArxiv(Strip(l)) && !MatchesPageOf(Strip(l))
  {
    var lines0 := Split(text, '\n');
    var d := RemoveDoiLines(lines0);
    var a := RemoveArxivLines(d);
    var lines1 := RemovePageXOfY(a);
    var lines2 := if config.removePageNumbers
                  then RemoveShortLines(WithoutPageNumbers(lines1), config.minLineLength)
                  else WithoutShortNonNumbers(lines1, config.minLineLength);
    if config.removePageNumbers {
      SubseqTrans(lines2, WithoutPageNumbers(lines1), lines1);
    }
    FirstOccurrencesProperties(lines2);
    SubseqTrans(FirstOccurrences(lines2), lines2, lines1);
    SubseqTrans(lines1, a, d);
    SubseqMembers(FirstOccurrences(lines2), lines1);
    SubseqMembers(lines1, a);
    SubseqMembers(lines1, d);
  }

  /** With header/footer removal off, a DOI line long enough to pass the
      short-line filter survives. */
  lemma DoiLineKeptWhenDisabled(text: string, config: TextExtractionConfig, line: string)
    requires !config.removeHeadersFooters
    requires line in Split(text, '\n') && MatchesDoi(Strip(line))
    requires |Strip(line)| >= config.minLineLength
    ensures line in SanitizedLines(text, config)
  {
    if config.removePageNumbers {
      assert !IsDigits(Strip(line)) by {
        assert Lower(Strip(line)[..4])[3] == ':';
      }
    }
  }

  /** With page-number removal on, no surviving line is a bare number and
      every non-blank surviving line is at least `min_line_length` long. */
  lemma PageNumbersAndShortLinesRemoved(text: string, config: TextExtractionConfig)
    requires config.removePageNumbers
    ensures forall l | l in SanitizedLines(text, config) ::
              !IsDigits(Strip(l)) && (Strip(l) != [] ==> |Strip(l)| >= config.minLineLength)
  {
    var lines0 := Split(text, '\n');
    var lines1 := if config.removeHeadersFooters
                  then RemovePageXOfY(RemoveArxivLines(RemoveDoiLines(lines0))) else lines0;
    var numbersGone := WithoutPageNumbers(lines1);
    var lines2 := RemoveShortLines(numbersGone, config.minLineLength);
    SubseqMembers(lines2, numbersGone);
    if config.removeHeadersFooters {
      FirstOccurrencesProperties(lines2);
      SubseqMembers(FirstOccurrences(lines2), lines2);
    }
  }
}
