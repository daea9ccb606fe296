/** The structure parser of extraction/text_parser.py: a title and authors
    are picked from the first ten lines of the extracted text, and the rest
    is cut into sections at the lines that look like section headings. The
    regular expressions of the source are written out as scanners over the
    text. */
module TextParser {
  import opened Wrappers
  import opened Seqs
  import opened Strings
  import opened Models

  /** Texts shorter than this are not parsed at all. */
  const MinTextLength: nat := 100
  /** How many lines are searched for the title and the authors. */
  const MetadataLines: nat := 10
  /** Section contents are cut to this many characters. */
  const MaxSectionChars: nat := 5000
  /** The parser's default `min_section_length`. */
  const DefaultMinSectionLength: int := 100

  function MinNat(a: nat, b: nat): nat {
    if a <= b then a else b
  }

  /** Python's `s[:n]` for a non-negative `n`. */
  function Truncate(s: string, n: nat): (r: string)
    ensures |r| == MinNat(|s|, n)
    ensures r == s[..|r|]
  {
    s[..MinNat(|s|, n)]
  }

  // ------------------------------------------------------------- authors

  /** Length of the longest prefix of `s` made of lower-case ASCII letters. */
  function LowerRun(s: string): (n: nat)
    ensures n <= |s|
    ensures forall i | 0 <= i < n :: IsLower(s[i])
    ensures n < |s| ==> !IsLower(s[n])
  {
    if s != [] && IsLower(s[0]) then 1 + LowerRun(s[1..]) else 0
  }

  /** `re.match(r'^[A-Z][a-z]+(?:\s+[A-Z][a-z]+)+', line)`: two capitalised
      words separated by whitespace at the start of the line. Each `+` must
      take its longest run, since what follows it cannot start inside it. */
  predicate LooksLikeNames(line: string) {
    |line| >= 2 && IsUpper(line[0]) && IsLower(line[1])
    && var k := 1 + LowerRun(line[1..]);
    var w := LeadingSpaces(line[k..]);
    w >= 1 && k + w + 1 < |line| && IsUpper(line[k + w]) && IsLower(line[k + w + 1])
  }

  /** `" and "` at the start of `s`, the letters in any case. */
  predicate AndAt(s: string) {
    |s| >= 5 && s[0] == ' ' && LowerChar(s[1]) == 'a' && LowerChar(s[2]) == 'n'
    && LowerChar(s[3]) == 'd' && s[4] == ' '
  }

  /** `' and ' in line.lower()`. */
  predicate HasAnd(s: string) {
    |s| >= 5 && (AndAt(s) || HasAnd(s[1..]))
  }

  /** The test that makes a line an author list: a comma or the word "and". */
  predicate IsAuthorListLine(line: string) {
    ',' in line || HasAnd(line)
  }

  /** The separator `,\s*|\s+and\s+` (the word `and` in any case) tried at
      position `i`: the number of characters it consumes, 0 when it does not
      match there. */
  function AuthorSeparatorAt(s: string, i: nat): (n: nat)
    requires i <= |s|
    ensures i + n <= |s|
    ensures i < |s| && s[i] == ',' ==> n >= 1
  {
    if i < |s| && s[i] == ',' then 1 + LeadingSpaces(s[i + 1..])
    else
      var w := LeadingSpaces(s[i..]);
      var j := i + w;
      if w >= 1 && StartsWithIgnoreCase(s[j..], "and") && LeadingSpaces(s[j + 3..]) >= 1
      then w + 3 + LeadingSpaces(s[j + 3..])
      else 0
  }

  /** `re.split` with the author separator, scanning from `i`; the current
      part started at `from`. */
  function SplitAuthorsFrom(s: string, from: nat, i: nat): (parts: seq<string>)
    requires from <= i <= |s|
    requires forall k | from <= k < i :: s[k] != ','
    ensures forall p | p in parts :: ',' !in p
    decreases |s| - i
  {
    if i == |s| then
      [s[from..]]
    else
      var n := AuthorSeparatorAt(s, i);
      if n > 0 then [s[from..i]] + SplitAuthorsFrom(s, i + n, i + n)
      else SplitAuthorsFrom(s, from, i + 1)
  }

  predicate NonEmpty(s: string) {
    s != []
  }

  /** `[a.strip() for a in re.split(r',\s*|\s+and\s+', line, flags=re.I) if a.strip()]`. */
  function SplitAuthors(line: string): seq<string> {
    Filter(StripAll(SplitAuthorsFrom(line, 0, 0)), NonEmpty)
  }

  /** The names split from an author line are non-empty, trimmed and hold
      no comma. */
  lemma AuthorNamesWellFormed(line: string)
    ensures forall a | a in SplitAuthors(line) :: a != [] && IsStripped(a) && ',' !in a
  {
    var parts := SplitAuthorsFrom(line, 0, 0);
    var stripped := StripAll(parts);
    forall a | a in SplitAuthors(line) ensures a != [] && IsStripped(a) && ',' !in a {
      var k :| 0 <= k < |stripped| && stripped[k] == a;
      assert parts[k] in parts;
      StripIsInfix(parts[k]);
    }
  }

  // ------------------------------------------------------------ metadata

  /** The state of the metadata scan: the title, the authors and the index
      of the first line after them. */
  datatype Metadata = Metadata(title: Option<string>, authors: seq<string>, startLine: nat)

  /** What one pass of the loop leaves: the scan goes on, or it breaks. */
  datatype Step = Next(state: Metadata) | Stop(state: Metadata)

  /** One pass of the loop of `_extract_metadata` over the stripped line
      number `i`: only a title, an author list or nothing is taken, and the
      start line moves to just after a line that was taken. */
  function ScanStep(line: string, i: nat, m: Metadata): (r: Step)
    ensures r.state.startLine == m.startLine || r.state.startLine == i + 1
    ensures r.Stop? ==> m.title.Some? && m.authors == [] && IsAuthorListLine(line)
  {
    if line == [] then Next(m)
    else if m.title.None? && |line| > 20 then
      Next(m.(title := Some(line), startLine := i + 1))
    else if m.title.Some? && m.title.value != [] && m.authors == [] && |line| > 10 then
      if IsAuthorListLine(line) then
        Stop(m.(authors := SplitAuthors(line), startLine := i + 1))
      else if LooksLikeNames(line) then
        Next(m.(authors := m.authors + [line], startLine := i + 1))
      else
        Next(m)
    else
      Next(m)
  }

  /** The loop of `_extract_metadata` from line `i` on, in state `m`. */
  function ScanFrom(head: seq<string>, i: nat, m: Metadata): (r: Metadata)
    requires i <= |head|
    requires m.startLine <= |head|
    ensures r.startLine <= |head|
    decreases |head| - i
  {
    if i == |head| then m
    else
      match ScanStep(Strip(head[i]), i, m)
      case Stop(m') => m'
      case Next(m') => ScanFrom(head, i + 1, m')
  }

  /** `text.split('\n')[:10]`. */
  function FirstLines(text: string): (head: seq<string>)
    ensures |head| <= MetadataLines
  {
    var lines := Split(text, '\n');
    lines[..MinNat(MetadataLines, |lines|)]
  }

  /** What `_extract_metadata` finds in `text`. */
  function MetadataOf(text: string): Metadata {
    ScanFrom(FirstLines(text), 0, Metadata(None, [], 0))
  }

  /** `len('\n'.join(lines[:text_start_line]))`: where the body begins. */
  function BodyOffset(text: string): nat {
    var lines := Split(text, '\n');
    |Join(lines[..MetadataOf(text).startLine], "\n")|
  }

  /** `_extract_metadata`. */
  method ExtractMetadata(text: string) returns (title: Option<string>, authors: seq<string>, textStartChar: nat)
    ensures title == MetadataOf(text).title
    ensures authors == MetadataOf(text).authors
    ensures textStartChar == BodyOffset(text)
  {
    var lines := Split(text, '\n');
    var head := lines[..MinNat(MetadataLines, |lines|)];
    var textStartLine;
    title, authors, textStartLine := ScanLines(head);
    textStartChar := |Join(lines[..textStartLine], "\n")|;
  }

  /** The loop of `_extract_metadata` over the first lines. */
  method ScanLines(head: seq<string>) returns (title: Option<string>, authors: seq<string>, textStartLine: nat)
    ensures Metadata(title, authors, textStartLine) == ScanFrom(head, 0, Metadata(None, [], 0))
  {
    title, authors := None, [];
    textStartLine := 0;
    ghost var goal := ScanFrom(head, 0, Metadata(None, [], 0));
    var i := 0;
    while i < |head|
      invariant i <= |head| && textStartLine <= |head|
      invariant ScanFrom(head, i, Metadata(title, authors, textStartLine)) == goal
    {
      var line := Strip(head[i]);
      ghost var step := ScanStep(line, i, Metadata(title, authors, textStartLine));
      if line == [] {
        i := i + 1;
        continue;
      }
      if title.None? && |line| > 20 {
        title := Some(line);
        textStartLine := i + 1;
        i := i + 1;
        continue;
      }
      if title.Some? && title.value != [] && authors == [] && |line| > 10 {
        if IsAuthorListLine(line) {
          authors := SplitAuthors(line);
          textStartLine := i + 1;
          assert step == Stop(Metadata(title, authors, textStartLine));
          break;
        } else if LooksLikeNames(line) {
          authors := authors + [line];
          textStartLine := i + 1;
        }
      }
      assert step == Next(Metadata(title, authors, textStartLine));
      i := i + 1;
    }
  }

  /** The first line of `ls` longer than 20 characters once stripped. */
  function FirstLongLine(ls: seq<string>): Option<string> {
    if ls == [] then None
    else if |Strip(ls[0])| > 20 then Some(Strip(ls[0]))
    else FirstLongLine(ls[1..])
  }

  /** The index of the first line of `ls` longer than 20 characters once
      stripped, `|ls|` when there is none. */
  function FirstLongIndex(ls: seq<string>): (k: nat)
    ensures k <= |ls|
    ensures forall j | 0 <= j < k :: |Strip(ls[j])| <= 20
    ensures k < |ls| ==> |Strip(ls[k])| > 20
  {
    if ls == [] || |Strip(ls[0])| > 20 then 0
    else
      var k := FirstLongIndex(ls[1..]);
      assert forall j | 1 <= j <= k :: ls[j] == ls[1..][j - 1];
      1 + k
  }

  /** `FirstLongLine` is the line at `FirstLongIndex`. */
  lemma {:induction false} FirstLongLineIsFirst(ls: seq<string>)
    ensures var k := FirstLongIndex(ls);
            FirstLongLine(ls) == if k < |ls| then Some(Strip(ls[k])) else None
  {
    if ls != [] && |Strip(ls[0])| <= 20 {
      FirstLongLineIsFirst(ls[1..]);
    }
  }

  lemma {:induction false} ScanTitle(head: seq<string>, i: nat, m: Metadata)
    requires i <= |head| && m.startLine <= |head|
    ensures m.title.Some? ==> ScanFrom(head, i, m).title == m.title
    ensures m.title.None? ==> ScanFrom(head, i, m).title == FirstLongLine(head[i..])
    decreases |head| - i
  {
    if i < |head| {
      var line := Strip(head[i]);
      assert head[i..][0] == head[i];
      assert head[i..][1..] == head[i + 1..];
      var step := ScanStep(line, i, m);
      if step.Next? {
        ScanTitle(head, i + 1, step.state);
      }
    }
  }

  /** The title is the first of the first ten lines that is longer than
      20 characters once stripped; blank lines count toward the ten. */
  lemma TitleIsFirstLongLine(text: string)
    ensures MetadataOf(text).title == FirstLongLine(FirstLines(text))
  {
    var head := FirstLines(text);
    ScanTitle(head, 0, Metadata(None, [], 0));
    assert head[0..] == head;
  }

  /** Once a title and authors are known, later lines change nothing. */
  lemma {:induction false} ScanSettled(head: seq<string>, i: nat, m: Metadata)
    requires i <= |head| && m.startLine <= |head|
    requires m.title.Some? && m.authors != []
    ensures ScanFrom(head, i, m) == m
    decreases |head| - i
  {
    if i < |head| {
      assert ScanStep(Strip(head[i]), i, m) == Next(m);
      ScanSettled(head, i + 1, m);
    }
  }

  /** Line `k` of `head` is where the scan took the authors of `r` from. */
  predicate AuthorLine(head: seq<string>, k: nat, r: Metadata)
    requires k < |head|
  {
    var line := Strip(head[k]);
    |line| > 10 && r.startLine == k + 1 && r.title.Some?
    && (r.authors == [line] || r.authors == SplitAuthors(line))
  }

  lemma {:induction false} ScanAuthors(head: seq<string>, i: nat, m: Metadata)
    requires i <= |head| && m.startLine <= |head|
    requires m.authors == []
    ensures var r := ScanFrom(head, i, m);
            r.authors == [] || exists k | i <= k < |head| :: AuthorLine(head, k, r)
    decreases |head| - i
  {
    if i < |head| {
      var line := Strip(head[i]);
      var step := ScanStep(line, i, m);
      if step.Stop? {
        assert AuthorLine(head, i, ScanFrom(head, i, m));
      } else if step.state.authors != [] {
        ScanSettled(head, i + 1, step.state);
        assert AuthorLine(head, i, ScanFrom(head, i, m));
      } else {
        ScanAuthors(head, i + 1, step.state);
      }
    }
  }

  /** The authors are none, one whole line of capitalised names, or the
      names split from one line; that line is the last one the scan used. */
  lemma AuthorsFromOneLine(text: string)
    ensures var r := MetadataOf(text);
            r.authors == [] || exists k | 0 <= k < |FirstLines(text)| :: AuthorLine(FirstLines(text), k, r)
  {
    ScanAuthors(FirstLines(text), 0, Metadata(None, [], 0));
  }

  lemma {:induction false} ScanNoTitle(head: seq<string>, i: nat, m: Metadata)
    requires i <= |head| && m.startLine <= |head|
    requires m.title.None? && m.startLine == 0
    ensures ScanFrom(head, i, m).title.None? ==> ScanFrom(head, i, m).startLine == 0
    decreases |head| - i
  {
    if i < |head| {
      var step := ScanStep(Strip(head[i]), i, m);
      if step.state.title.Some? {
        ScanTitle(head, i + 1, step.state);
      } else {
        ScanNoTitle(head, i + 1, m);
      }
    }
  }

  /** Joining a prefix of a list is never longer than joining all of it. */
  lemma {:induction false} JoinPrefixLength(parts: seq<string>, k: nat, sep: string)
    requires k <= |parts|
    ensures |Join(parts[..k], sep)| <= |Join(parts, sep)|
  {
    if k > 0 && |parts| > 1 {
      if k == 1 {
        assert parts[..k] == [parts[0]];
      } else {
        assert parts[..k][1..] == parts[1..][..k - 1];
        JoinPrefixLength(parts[1..], k - 1, sep);
      }
    } else if k > 0 {
      assert parts[..k] == parts;
    }
  }

  /** The body offset is 0 without a title and never passes the end of the text. */
  lemma BodyOffsetBounds(text: string)
    ensures MetadataOf(text).title.None? ==> BodyOffset(text) == 0
    ensures BodyOffset(text) <= |text|
  {
    var lines := Split(text, '\n');
    ScanNoTitle(FirstLines(text), 0, Metadata(None, [], 0));
    JoinPrefixLength(lines, MetadataOf(text).startLine, "\n");
    JoinSplit(text, '\n');
  }

  // ------------------------------------------------------------ headings

  /** The heading words, in the order the patterns list them; the optional
      `s` of `acknowledgments?` is tried first. */
  const Keywords: seq<string> := [
    "abstract", "introduction", "related work", "methodology", "methods", "approach",
    "model", "architecture", "experiments", "evaluation", "results", "discussion",
    "conclusion", "conclusions", "references", "acknowledgments", "acknowledgment"]

  /** Every heading word starts and ends with a lower-case letter. */
  predicate LetterBounded(k: string) {
    k != [] && IsLower(k[0]) && IsLower(k[|k| - 1])
  }

  lemma KeywordsIndexed()
    ensures forall i | 0 <= i < |Keywords| :: LetterBounded(Keywords[i])
  {
  }

  /** `$` under MULTILINE: at the end of the text or before a newline. */
  predicate AtLineEnd(s: string, i: nat) {
    i == |s| || (i < |s| && s[i] == '\n')
  }

  /** `^` under MULTILINE: at the start of the text or after a newline. */
  predicate AtLineStart(s: string, i: nat) {
    i == 0 || (0 < i <= |s| && s[i - 1] == '\n')
  }

  /** The heading word `k` begins `s`, ignoring case, and for the
      bare-heading pattern the line ends right after it. */
  predicate KeywordFits(s: string, k: string, lineEnd: bool) {
    StartsWithIgnoreCase(s, k) && (lineEnd ==> AtLineEnd(s, |k|))
  }

  /** The alternation over the heading words from the `i`-th on: the index
      of the first word that fits. */
  function KeywordMatch(s: string, ks: seq<string>, i: nat, lineEnd: bool): (r: Option<nat>)
    requires i <= |ks|
    ensures r.Some? ==> i <= r.value < |ks| && KeywordFits(s, ks[r.value], lineEnd)
    decreases |ks| - i
  {
    if i == |ks| then None
    else if KeywordFits(s, ks[i], lineEnd) then Some(i)
    else KeywordMatch(s, ks, i + 1, lineEnd)
  }

  /** The alternation takes the first word that fits, and fails only when
      none does. */
  lemma {:induction false} KeywordMatchIsFirst(s: string, ks: seq<string>, i: nat, lineEnd: bool)
    requires i <= |ks|
    ensures var r := KeywordMatch(s, ks, i, lineEnd);
            forall j | i <= j < (if r.Some? then r.value else |ks|) :: !KeywordFits(s, ks[j], lineEnd)
    decreases |ks| - i
  {
    if i < |ks| && !KeywordFits(s, ks[i], lineEnd) {
      KeywordMatchIsFirst(s, ks, i + 1, lineEnd);
    }
  }

  /** Length of the longest prefix of `s` made of `#` signs. */
  function HashRun(s: string): (n: nat)
    ensures n <= |s|
    ensures n < |s| ==> s[n] != '#'
  {
    if s != [] && s[0] == '#' then 1 + HashRun(s[1..]) else 0
  }

  /** A heading match: from `start` to `end`, the heading word beginning
      at `word`. */
  datatype Span = Span(start: nat, word: nat, end: nat)

  /** How many characters `^#+\s*` covers at the start of `t`. */
  function HashMarks(t: string): (n: nat)
    ensures n <= |t|
  {
    var h := HashRun(t);
    if h >= 1 then h + LeadingSpaces(t[h..]) else 0
  }

  /** Where the number `\d+\.?` at the start of `t` ends. */
  function NumberEnd(t: string): (n: nat)
    ensures n <= |t|
  {
    var d := DigitRun(t);
    if d < |t| && t[d] == '.' then d + 1 else d
  }

  /** How many characters `^\d+\.?\s*` covers at the start of `t`. */
  function NumberMarks(t: string): (n: nat)
    ensures n <= |t|
  {
    if DigitRun(t) >= 1 then NumberEnd(t) + LeadingSpaces(t[NumberEnd(t)..]) else 0
  }

  /** How far into the line `u` the heading word begins, by the one
      alternative of the heading pattern its first character selects:
      `#+\s*`, `\d+\.?\s+` (at least one blank), or nothing (the
      bare-heading form). */
  function WordOffset(u: string): (o: Option<nat>)
    requires u != []
    ensures o.Some? ==> o.value <= |u|
  {
    if u[0] == '#' then Some(HashMarks(u))
    else if IsDigit(u[0]) then
      if LeadingSpaces(u[NumberEnd(u)..]) >= 1 then Some(NumberMarks(u)) else None
    else Some(0)
  }

  /** Where the heading word begins when a line starts at `p`. */
  function WordStart(s: string, p: nat): (q: Option<nat>)
    requires p < |s|
    ensures q.Some? ==> p <= q.value <= |s|
  {
    match WordOffset(s[p..])
    case None => None
    case Some(o) => Some(p + o)
  }

  /** The heading pattern tried at position `p`. */
  function HeadingAt(s: string, p: nat): (r: Option<Span>)
    requires p < |s|
    ensures r.Some? ==> r.value.start == p && p <= r.value.word < r.value.end <= |s|
  {
    match WordStart(s, p)
    case None => None
    case Some(q) =>
      var bare := !(s[p] == '#' || IsDigit(s[p]));
      match KeywordMatch(s[q..], Keywords, 0, bare)
      case None => None
      case Some(k) =>
        KeywordsIndexed();
        Some(Span(p, q, q + |Keywords[k]|))
  }

  /** `finditer` from position `pos`: a match may begin only at the start of
      a line, and the search resumes where the previous match ended. */
  function MatchesFrom(s: string, pos: nat): (ms: seq<Span>)
    requires pos <= |s|
    ensures forall j | 0 <= j < |ms| :: pos <= ms[j].start <= ms[j].word < ms[j].end <= |s|
    ensures forall j | 0 <= j < |ms| - 1 :: ms[j].end <= ms[j + 1].start
    decreases |s| - pos
  {
    if pos == |s| then []
    else if AtLineStart(s, pos) && HeadingAt(s, pos).Some? then
      var m := HeadingAt(s, pos).value;
      [m] + MatchesFrom(s, m.end)
    else
      MatchesFrom(s, pos + 1)
  }

  /** `m` is what the heading pattern matches at the start of a line. */
  predicate IsHeadingMatch(s: string, m: Span) {
    m.start < |s| && AtLineStart(s, m.start) && HeadingAt(s, m.start) == Some(m)
  }

  /** Every match found begins a line and is a heading there. */
  lemma {:induction false} MatchesAreHeadings(s: string, pos: nat)
    requires pos <= |s|
    ensures forall m | m in MatchesFrom(s, pos) :: IsHeadingMatch(s, m)
    decreases |s| - pos
  {
    if pos < |s| {
      if AtLineStart(s, pos) && HeadingAt(s, pos).Some? {
        var m := HeadingAt(s, pos).value;
        MatchesAreHeadings(s, m.end);
        assert IsHeadingMatch(s, m);
      } else {
        MatchesAreHeadings(s, pos + 1);
      }
    }
  }

  /** Every heading match of `text`, in order. */
  function HeadingMatches(text: string): seq<Span> {
    MatchesFrom(text, 0)
  }

  // ------------------------------------------------------------ sections

  /** `re.sub(r'^#+\s*', '', t)`. */
  function DropHashes(t: string): string {
    t[HashMarks(t)..]
  }

  /** `re.sub(r'^\d+\.?\s*', '', t)`. */
  function DropNumbering(t: string): string {
    t[NumberMarks(t)..]
  }

  /** The cleaned-up title of a heading match. */
  function SectionTitle(text: string, m: Span): string
    requires m.start <= m.end <= |text|
  {
    Strip(DropNumbering(DropHashes(Strip(text[m.start..m.end]))))
  }

  /** Where the content after match `i` ends: the next match or the end of the text. */
  function ContentEnd(text: string, ms: seq<Span>, i: nat): nat
    requires i < |ms|
  {
    if i + 1 < |ms| then ms[i + 1].start else |text|
  }

  predicate WellOrdered(text: string, ms: seq<Span>) {
    (forall j | 0 <= j < |ms| :: ms[j].start <= ms[j].word < ms[j].end <= |text|)
    && forall j | 0 <= j < |ms| - 1 :: ms[j].end <= ms[j + 1].start
  }

  /** The stripped text between match `i` and the next one. */
  function Between(text: string, ms: seq<Span>, i: nat): string
    requires WellOrdered(text, ms) && i < |ms|
  {
    Strip(text[ms[i].end..ContentEnd(text, ms, i)])
  }

  /** The section built for match `i`, when it is kept. */
  function SectionOf(text: string, ms: seq<Span>, i: nat): PaperSection
    requires WellOrdered(text, ms) && i < |ms|
  {
    PaperSection(SectionTitle(text, ms[i]), Truncate(Between(text, ms, i), MaxSectionChars), 1, 1, 1, [])
  }

  /** Match `i` yields a section when the text after it is long enough. */
  predicate Kept(text: string, ms: seq<Span>, i: nat, minLength: int)
    requires WellOrdered(text, ms) && i < |ms|
  {
    |Between(text, ms, i)| >= minLength
  }

  /** The section each match would yield. */
  function Candidates(text: string, ms: seq<Span>): (c: seq<PaperSection>)
    requires WellOrdered(text, ms)
    ensures |c| == |ms|
  {
    seq(|ms|, j requires 0 <= j < |ms| => SectionOf(text, ms, j))
  }

  /** Which matches yield a section. */
  function KeptFlags(text: string, ms: seq<Span>, minLength: int): (f: seq<bool>)
    requires WellOrdered(text, ms)
    ensures |f| == |ms|
  {
    seq(|ms|, j requires 0 <= j < |ms| => Kept(text, ms, j, minLength))
  }

  /** The sections of the first `k` matches. */
  function SectionsUpTo(text: string, ms: seq<Span>, k: nat, minLength: int): seq<PaperSection>
    requires WellOrdered(text, ms) && k <= |ms|
  {
    Select(Candidates(text, ms)[..k], KeptFlags(text, ms, minLength)[..k])
  }

  /** The single section used when no heading is found. */
  function WholeTextSection(text: string): PaperSection {
    PaperSection("Content", Truncate(text, MaxSectionChars), 1, 1, 1, [])
  }

  lemma MatchesWellOrdered(text: string)
    ensures WellOrdered(text, HeadingMatches(text))
  {
  }

  /** What `_parse_sections` returns for `text`. */
  function SectionsOf(text: string, minLength: int): seq<PaperSection> {
    var ms := HeadingMatches(text);
    MatchesWellOrdered(text);
    if ms == [] then
      if |text| > minLength then [WholeTextSection(text)] else []
    else
      SectionsUpTo(text, ms, |ms|, minLength)
  }

  /** `_parse_sections`. */
  method ParseSections(text: string, minSectionLength: int) returns (sections: seq<PaperSection>)
    ensures sections == SectionsOf(text, minSectionLength)
  {
    var matches := HeadingMatches(text);
    MatchesWellOrdered(text);
    sections := [];
    if matches == [] {
      if |text| > minSectionLength {
        sections := sections + [PaperSection("Content", Truncate(text, MaxSectionChars), 1, 1, 1, [])];
      }
      return;
    }
    sections := SectionsBetween(text, matches, minSectionLength);
  }

  /** The loop of `_parse_sections` over the matches. */
  method SectionsBetween(text: string, matches: seq<Span>, minSectionLength: int)
    returns (sections: seq<PaperSection>)
    requires WellOrdered(text, matches)
    ensures sections == SectionsUpTo(text, matches, |matches|, minSectionLength)
  {
    sections := [];
    var i := 0;
    while i < |matches|
      invariant i <= |matches|
      invariant sections == SectionsUpTo(text, matches, i, minSectionLength)
    {
      var title := SectionTitle(text, matches[i]);
      var start := matches[i].end;
      var end := if i + 1 < |matches| then matches[i + 1].start else |text|;
      var content := Strip(text[start..end]);
      SectionsUpToNext(text, matches, i, minSectionLength);
      if |content| < minSectionLength {
        i := i + 1;
        continue;
      }
      content := Truncate(content, MaxSectionChars);
      sections := sections + [PaperSection(title, content, 1, 1, 1, [])];
      i := i + 1;
    }
  }

  /** One more match: the section it yields, if any, is appended. */
  lemma SectionsUpToNext(text: string, ms: seq<Span>, i: nat, minLength: int)
    requires WellOrdered(text, ms) && i < |ms|
    ensures var content := Strip(text[ms[i].end..if i + 1 < |ms| then ms[i + 1].start else |text|]);
            SectionsUpTo(text, ms, i + 1, minLength)
            == SectionsUpTo(text, ms, i, minLength)
               + if |content| < minLength then []
                 else [PaperSection(SectionTitle(text, ms[i]), Truncate(content, MaxSectionChars), 1, 1, 1, [])]
  {
    SelectSnoc(Candidates(text, ms), KeptFlags(text, ms, minLength), i);
  }

  // ------------------------------------------------------ section lemmas

  lemma {:induction false} HashRunOfPrefix(x: string, n: nat)
    requires HashRun(x) < n <= |x|
    ensures HashRun(x[..n]) == HashRun(x)
  {
    assert x[..n][0] == x[0];
    if x[0] == '#' {
      HashRunOfPrefix(x[1..], n - 1);
      assert x[..n][1..] == x[1..][..n - 1];
    }
  }

  lemma {:induction false} DigitRunOfPrefix(x: string, n: nat)
    requires DigitRun(x) < n <= |x|
    ensures DigitRun(x[..n]) == DigitRun(x)
  {
    assert x[..n][0] == x[0];
    if IsDigit(x[0]) {
      DigitRunOfPrefix(x[1..], n - 1);
      assert x[..n][1..] == x[1..][..n - 1];
    }
  }

  lemma {:induction false} LeadingSpacesOfPrefix(x: string, n: nat)
    requires LeadingSpaces(x) < n <= |x|
    ensures LeadingSpaces(x[..n]) == LeadingSpaces(x)
  {
    assert x[..n][0] == x[0];
    if IsSpace(x[0]) {
      LeadingSpacesOfPrefix(x[1..], n - 1);
      assert x[..n][1..] == x[1..][..n - 1];
    }
  }

  predicate IsLetter(c: char) {
    IsUpper(c) || IsLower(c)
  }

  /** Where a heading match's word lies: after the line start, running to
      the end of the match, and starting and ending with a letter. */
  predicate WordBounds(s: string, m: Span) {
    m.start < |s| && WordStart(s, m.start) == Some(m.word)
    && m.word < m.end <= |s| && IsLetter(s[m.word]) && IsLetter(s[m.end - 1])
  }

  /** The heading word `Keywords[k]` is the one matched by `m`. */
  predicate WordIsKeyword(s: string, m: Span, k: nat)
    requires m.word <= m.end <= |s|
  {
    k < |Keywords| && m.end - m.word == |Keywords[k]| && EqualsIgnoreCase(s[m.word..m.end], Keywords[k])
  }

  /** The heading word of a match starts and ends with a letter. */
  lemma HeadingWordLetters(s: string, m: Span, k: nat)
    requires m.start < |s| && WordStart(s, m.start) == Some(m.word) && m.word < m.end <= |s|
    requires WordIsKeyword(s, m, k)
    ensures WordBounds(s, m)
  {
    var w := s[m.word..m.end];
    LetterBoundedCase(w, k);
    assert w[0] == s[m.word] && w[|w| - 1] == s[m.end - 1];
  }

  /** The heading word a match found, by its index among the heading words. */
  lemma MatchedKeyword(s: string, m: Span) returns (k: nat)
    requires IsHeadingMatch(s, m)
    ensures m.start < |s| && WordStart(s, m.start) == Some(m.word) && m.word < m.end <= |s|
    ensures WordIsKeyword(s, m, k)
  {
    var p, q := m.start, m.word;
    var bare := !(s[p] == '#' || IsDigit(s[p]));
    k := KeywordMatch(s[q..], Keywords, 0, bare).value;
    assert s[q..][..|Keywords[k]|] == s[q..m.end] by { SliceOfSuffix(s, q, q, m.end); }
  }

  /** A word equal up to case to a heading word starts and ends with a letter. */
  lemma LetterBoundedCase(w: string, k: nat)
    requires k < |Keywords| && |w| == |Keywords[k]| && Lower(w) == Lower(Keywords[k])
    ensures IsLetter(w[0]) && IsLetter(w[|w| - 1])
  {
    var kw := Keywords[k];
    assert LetterBounded(kw) by { KeywordsIndexed(); }
    assert Lower(w)[0] == LowerChar(w[0]) && Lower(kw)[0] == LowerChar(kw[0]);
    assert Lower(w)[|w| - 1] == LowerChar(w[|w| - 1]);
    assert Lower(kw)[|kw| - 1] == LowerChar(kw[|kw| - 1]);
  }

  /** A text that starts and ends with a letter is its own strip and has
      no `#` signs or number to drop. */
  lemma LetterBoundedClean(t: string)
    requires t != [] && IsLetter(t[0]) && IsLetter(t[|t| - 1])
    ensures Strip(t) == t && DropHashes(t) == t && DropNumbering(t) == t
  {
    StripOfStripped(t);
  }

  /** Cutting a line after the marks does not change how many there are. */
  lemma HashMarksOfPrefix(u: string, n: nat)
    requires u != [] && u[0] == '#'
    requires HashMarks(u) < n <= |u|
    ensures HashMarks(u[..n]) == HashMarks(u)
  {
    var h := HashRun(u);
    assert HashRun(u[..n]) == h by { HashRunOfPrefix(u, n); }
    assert LeadingSpaces(u[..n][h..]) == LeadingSpaces(u[h..]) by {
      SliceOfPrefix(u, h, n);
      LeadingSpacesOfPrefix(u[h..], n - h);
    }
  }

  lemma NumberMarksOfPrefix(u: string, n: nat)
    requires u != [] && IsDigit(u[0])
    requires NumberMarks(u) < n <= |u|
    ensures NumberMarks(u[..n]) == NumberMarks(u)
  {
    var d := DigitRun(u);
    assert DigitRun(u[..n]) == d by { DigitRunOfPrefix(u, n); }
    assert NumberEnd(u[..n]) == NumberEnd(u) by { assert u[..n][d] == u[d]; }
    var dot := NumberEnd(u);
    assert LeadingSpaces(u[..n][dot..]) == LeadingSpaces(u[dot..]) by {
      SliceOfPrefix(u, dot, n);
      LeadingSpacesOfPrefix(u[dot..], n - dot);
    }
  }

  /** The cleaned-up title of a heading match is its word: the `#` signs
      or the number in front of it are dropped. */
  lemma TitleIsWord(s: string, m: Span)
    requires WordBounds(s, m)
    ensures SectionTitle(s, m) == s[m.word..m.end]
  {
    LetterBoundedClean(s[m.word..m.end]);
    SpanStripped(s, m);
    MarksDropped(s, m);
  }

  /** A heading match starts with no blank and ends with a letter. */
  lemma SpanStripped(s: string, m: Span)
    requires WordBounds(s, m)
    ensures Strip(s[m.start..m.end]) == s[m.start..m.end]
  {
    var t := s[m.start..m.end];
    assert t[0] == s[m.start] && t[|t| - 1] == s[m.end - 1];
    assert !IsSpace(s[m.start]) by {
      if s[m.start] != '#' && !IsDigit(s[m.start]) {
        assert m.word == m.start;
      }
    }
    StripOfStripped(t);
  }

  /** Dropping the marks in front of a heading match leaves its word. */
  lemma MarksDropped(s: string, m: Span)
    requires WordBounds(s, m)
    ensures DropNumbering(DropHashes(s[m.start..m.end])) == s[m.word..m.end]
  {
    var p, q, e := m.start, m.word, m.end;
    assert WordOffset(s[p..]) == Some(q - p);
    if s[p] == '#' {
      HashCleaned(s, p, q, e);
    } else if IsDigit(s[p]) {
      NumberCleaned(s, p, q, e);
    } else {
      BareCleaned(s, p, q, e);
    }
  }

  lemma HashCleaned(s: string, p: nat, q: nat, e: nat)
    requires p < q < e <= |s| && s[p] == '#' && WordOffset(s[p..]) == Some(q - p)
    requires IsLetter(s[q]) && IsLetter(s[e - 1])
    ensures DropNumbering(DropHashes(s[p..e])) == s[q..e]
  {
    assert DropHashes(s[p..e]) == s[q..e] by { HashMarksDropped(s, p, q, e); }
    LetterBoundedClean(s[q..e]);
  }

  lemma NumberCleaned(s: string, p: nat, q: nat, e: nat)
    requires p < q < e <= |s| && IsDigit(s[p]) && WordOffset(s[p..]) == Some(q - p)
    ensures DropNumbering(DropHashes(s[p..e])) == s[q..e]
  {
    assert DropHashes(s[p..e]) == s[p..e] by {
      assert s[p..e][0] == s[p];
      NoHashes(s[p..e]);
    }
    NumberMarksDropped(s, p, q, e);
  }

  lemma BareCleaned(s: string, p: nat, q: nat, e: nat)
    requires p <= q < e <= |s| && IsLetter(s[p]) && WordOffset(s[p..]) == Some(q - p)
    requires IsLetter(s[e - 1])
    ensures DropNumbering(DropHashes(s[p..e])) == s[q..e]
  {
    assert q == p;
    LetterBoundedClean(s[q..e]);
  }

  lemma NoHashes(t: string)
    requires t != [] && t[0] != '#'
    ensures DropHashes(t) == t
  {
  }

  lemma HashMarksDropped(s: string, p: nat, q: nat, e: nat)
    requires p < q < e <= |s| && s[p] == '#'
    requires WordOffset(s[p..]) == Some(q - p)
    ensures DropHashes(s[p..e]) == s[q..e]
  {
    var u := s[p..];
    assert DropHashes(u[..e - p]) == u[q - p..e - p] by {
      HashesOfPrefix(u, e - p, q - p);
    }
    SliceOfSuffix(s, p, q, e);
  }

  lemma NumberMarksDropped(s: string, p: nat, q: nat, e: nat)
    requires p < q < e <= |s| && IsDigit(s[p])
    requires WordOffset(s[p..]) == Some(q - p)
    ensures DropNumbering(s[p..e]) == s[q..e]
  {
    var u := s[p..];
    assert DropNumbering(u[..e - p]) == u[q - p..e - p] by {
      NumberingOfPrefix(u, e - p, q - p);
    }
    SliceOfSuffix(s, p, q, e);
  }

  /** On a line cut after its heading word has begun, `re.sub(r'^#+\s*', '', ...)`
      drops exactly the marks the heading pattern skipped. */
  lemma HashesOfPrefix(u: string, n: nat, o: nat)
    requires u != [] && u[0] == '#'
    requires WordOffset(u) == Some(o) && o < n <= |u|
    ensures DropHashes(u[..n]) == u[o..n]
  {
    HashMarksOfPrefix(u, n);
    SliceOfPrefix(u, o, n);
  }

  /** The same for `re.sub(r'^\d+\.?\s*', '', ...)` on a numbered heading. */
  lemma NumberingOfPrefix(u: string, n: nat, o: nat)
    requires u != [] && IsDigit(u[0])
    requires WordOffset(u) == Some(o) && o < n <= |u|
    ensures DropNumbering(u[..n]) == u[o..n]
  {
    NumberMarksOfPrefix(u, n);
    SliceOfPrefix(u, o, n);
  }

  /** A section title is the heading word as it is written in the text,
      without the `#` signs or the number in front of it: one of the
      heading words up to case, and never empty. */
  lemma SectionTitleIsHeadingWord(s: string, m: Span)
    requires IsHeadingMatch(s, m)
    ensures SectionTitle(s, m) == s[m.word..m.end]
    ensures exists k | 0 <= k < |Keywords| :: EqualsIgnoreCase(SectionTitle(s, m), Keywords[k])
    ensures SectionTitle(s, m) != []
  {
    var k := MatchedKeyword(s, m);
    HeadingWordLetters(s, m, k);
    TitleIsWord(s, m);
  }

  /** Every section built for a heading match is valid, so building it never
      raises: its title is a heading word as written (never empty), it has
      level 1 and pages 1 to 1, no elements, and at most 5000 characters. */
  lemma SectionOfWellFormed(text: string, ms: seq<Span>, j: nat)
    requires WellOrdered(text, ms) && j < |ms|
    requires forall m | m in ms :: IsHeadingMatch(text, m)
    ensures var sec := SectionOf(text, ms, j);
            ValidSection(sec) && sec.level == 1 && sec.pageStart == 1 && sec.pageEnd == 1
            && sec.elements == [] && |sec.content| <= MaxSectionChars
            && sec.title == text[ms[j].word..ms[j].end]
            && exists k | 0 <= k < |Keywords| :: EqualsIgnoreCase(sec.title, Keywords[k])
  {
    assert ms[j] in ms;
    SectionTitleIsHeadingWord(text, ms[j]);
  }

  /** What `_parse_sections` returns: with no heading, the whole text as one
      section named "Content" when it is longer than the minimum; otherwise
      one section per heading whose stripped content reaches the minimum, in
      the order of the headings, each valid and titled by its heading word. */
  lemma SectionsOfShape(text: string, minLength: int)
    ensures var r := SectionsOf(text, minLength);
            forall sec | sec in r :: ValidSection(sec) && sec.level == 1 && sec.pageStart == 1
              && sec.pageEnd == 1 && sec.elements == [] && |sec.content| <= MaxSectionChars
    ensures HeadingMatches(text) == [] ==>
              SectionsOf(text, minLength) == if |text| > minLength then [WholeTextSection(text)] else []
    ensures var ms := HeadingMatches(text);
            ms != [] ==>
              WellOrdered(text, ms) && var idx := SetIndices(KeptFlags(text, ms, minLength));
              |SectionsOf(text, minLength)| == |idx|
              && forall i | 0 <= i < |idx| ::
                   Kept(text, ms, idx[i], minLength)
                   && SectionsOf(text, minLength)[i] == SectionOf(text, ms, idx[i])
                   && SectionsOf(text, minLength)[i].title == text[ms[idx[i]].word..ms[idx[i]].end]
  {
    var ms := HeadingMatches(text);
    MatchesWellOrdered(text);
    if ms != [] {
      MatchesAreHeadings(text, 0);
      var c, f := Candidates(text, ms), KeptFlags(text, ms, minLength);
      var r := SectionsOf(text, minLength);
      assert r == Select(c, f) by {
        assert c[..|ms|] == c && f[..|ms|] == f;
      }
      var idx := SetIndices(f);
      SelectAt(c, f);
      forall i | 0 <= i < |idx|
        ensures Kept(text, ms, idx[i], minLength)
        ensures r[i] == SectionOf(text, ms, idx[i])
        ensures r[i].title == text[ms[idx[i]].word..ms[idx[i]].end]
        ensures ValidSection(r[i]) && r[i].level == 1 && r[i].pageStart == 1
                && r[i].pageEnd == 1 && r[i].elements == [] && |r[i].content| <= MaxSectionChars
      {
        assert f[idx[i]];
        assert r[i] == c[idx[i]];
        SectionOfWellFormed(text, ms, idx[i]);
      }
    }
  }

  /** `parse`: short texts give nothing; otherwise the metadata, then the
      sections of the text after the metadata lines. */
  method Parse(text: string, minSectionLength: int)
    returns (title: Option<string>, authors: seq<string>, sections: seq<PaperSection>)
    ensures |text| < MinTextLength ==> title == None && authors == [] && sections == []
    ensures |text| >= MinTextLength ==>
              title == MetadataOf(text).title && authors == MetadataOf(text).authors
              && BodyOffset(text) <= |text|
              && sections == SectionsOf(text[BodyOffset(text)..], minSectionLength)
  {
    if text == [] || |text| < MinTextLength {
      return None, [], [];
    }
    var textStart;
    title, authors, textStart := ExtractMetadata(text);
    BodyOffsetBounds(text);
    sections := ParseSections(text[textStart..], minSectionLength);
  }
}
