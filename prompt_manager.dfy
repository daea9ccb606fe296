/** prompts/manager.py: prompt templates (their constructor guards, the
    brace-balance check, placeholder extraction, rendering and validation)
    and the library that adds, removes, lists and validates templates. */
module Prompts {
  import opened Wrappers
  import opened Strings

  // ------------------------------------------------------------- braces

  function BraceDelta(c: char): int {
    if c == '{' then 1 else if c == '}' then -1 else 0
  }

  /** The number of `{` minus the number of `}` in `s`. */
  function Depth(s: string): int {
    if s == [] then 0 else Depth(s[..|s| - 1]) + BraceDelta(s[|s| - 1])
  }

  /** Balanced braces: no prefix closes more braces than it opens, and the
      whole text closes every brace it opens. */
  predicate Balanced(s: string) {
    (forall k | 0 <= k <= |s| :: Depth(s[..k]) >= 0) && Depth(s) == 0
  }

  /** `_has_balanced_braces`: the counter loop, which gives up at the first
      prefix whose count goes negative. */
  method HasBalancedBraces(text: string) returns (b: bool)
    ensures b <==> Balanced(text)
  {
    var count := 0;
    var i := 0;
    while i < |text|
      invariant 0 <= i <= |text|
      invariant count == Depth(text[..i])
      invariant forall k | 0 <= k <= i :: Depth(text[..k]) >= 0
    {
      var c := text[i];
      if c == '{' {
        count := count + 1;
      } else if c == '}' {
        count := count - 1;
      }
      assert text[..i + 1][..i] == text[..i];
      if count < 0 {
        assert Depth(text[..i + 1]) < 0;
        return false;
      }
      i := i + 1;
    }
    assert text[..i] == text;
    return count == 0;
  }

  /** The depth of a concatenation adds up. */
  lemma {:induction false} DepthAppend(a: string, b: string)
    ensures Depth(a + b) == Depth(a) + Depth(b)
    decreases |b|
  {
    if b == [] {
      assert a + b == a;
    } else {
      var init := b[..|b| - 1];
      DepthAppend(a, init);
      assert (a + b)[..|a + b| - 1] == a + init;
    }
  }

  /** Two balanced texts one after the other are balanced. */
  lemma BalancedConcat(a: string, b: string)
    requires Balanced(a) && Balanced(b)
    ensures Balanced(a + b)
  {
    DepthAppend(a, b);
    forall k | 0 <= k <= |a + b|
      ensures Depth((a + b)[..k]) >= 0
    {
      if k <= |a| {
        assert (a + b)[..k] == a[..k];
      } else {
        assert (a + b)[..k] == a + b[..k - |a|];
        DepthAppend(a, b[..k - |a|]);
      }
    }
  }

  /** A balanced text inside a pair of braces is balanced. */
  lemma BalancedWrap(s: string)
    requires Balanced(s)
    ensures Balanced("{" + s + "}")
  {
    var w := "{" + s + "}";
    DepthAppend("{", s);
    DepthAppend("{" + s, "}");
    assert Depth("{") == 1 by {
      assert "{"[..0] == [];
    }
    assert Depth("}") == -1 by {
      assert "}"[..0] == [];
    }
    forall k | 0 <= k <= |w|
      ensures Depth(w[..k]) >= 0
    {
      if k == 0 {
        assert w[..k] == [];
      } else if k <= |s| + 1 {
        assert w[..k] == "{" + s[..k - 1];
        DepthAppend("{", s[..k - 1]);
      } else {
        assert w[..k] == w;
      }
    }
  }

  /** A closing brace before any opening one unbalances a text. */
  lemma CloseFirstUnbalanced(s: string)
    ensures !Balanced("}" + s)
  {
    var w := "}" + s;
    assert w[..1] == "}";
    assert "}"[..0] == [];
    assert Depth(w[..1]) == -1;
  }

  // ------------------------------------------------------- placeholders

  /** What `[a-z_]` matches. */
  predicate IsNameChar(c: char) {
    'a' <= c <= 'z' || c == '_'
  }

  /** A placeholder name: what `[a-z_]+` matches. */
  predicate IsName(x: string) {
    |x| > 0 && forall i | 0 <= i < |x| :: IsNameChar(x[i])
  }

  predicate BraceFree(x: string) {
    '{' !in x && '}' !in x
  }

  /** The placeholder text `{x}`. */
  function Brace(x: string): (p: string)
    ensures |p| == |x| + 2 && p[0] == '{' && p[|p| - 1] == '}' && p[1..|p| - 1] == x
  {
    "{" + x + "}"
  }

  /** `{x}` with `x` a placeholder name occurs at position `i`. */
  predicate PlaceholderAt(text: string, i: nat, x: string) {
    IsName(x) && OccursAt(text, Brace(x), i)
  }

  /** `x` is a placeholder of `text`. */
  predicate HasPlaceholder(text: string, x: string) {
    exists i: nat | i <= |text| :: PlaceholderAt(text, i, x)
  }

  /** The length of the run of name characters starting at `k`. */
  function NameRun(text: string, k: nat): (n: nat)
    requires k <= |text|
    ensures k + n <= |text|
    ensures forall j | k <= j < k + n :: IsNameChar(text[j])
    ensures k + n < |text| ==> !IsNameChar(text[k + n])
    decreases |text| - k
  {
    if k < |text| && IsNameChar(text[k]) then 1 + NameRun(text, k + 1) else 0
  }

  /** `re.findall(r"\{([a-z_]+)\}", text)` from position `i`: a match is
      an opening brace, the longest run of name characters and a closing
      brace; the scan resumes after it. */
  function FindNames(text: string, i: nat): seq<string>
    requires i <= |text|
    decreases |text| - i
  {
    if i == |text| then []
    else if text[i] == '{' then
      var n := NameRun(text, i + 1);
      if n > 0 && i + 1 + n < |text| && text[i + 1 + n] == '}' then
        [text[i + 1..i + 1 + n]] + FindNames(text, i + 2 + n)
      else FindNames(text, i + 1)
    else FindNames(text, i + 1)
  }

  /** A run of exactly `m` name characters stopped by another character. */
  lemma {:induction false} NameRunExact(text: string, k: nat, m: nat)
    requires k + m < |text|
    requires forall j | k <= j < k + m :: IsNameChar(text[j])
    requires !IsNameChar(text[k + m])
    ensures NameRun(text, k) == m
    decreases m
  {
    if m > 0 {
      NameRunExact(text, k + 1, m - 1);
    }
  }

  /** A placeholder at `p` is the name run after its brace. */
  lemma PlaceholderRun(text: string, p: nat, x: string)
    requires PlaceholderAt(text, p, x)
    ensures p + 1 + |x| < |text| && text[p] == '{' && text[p + 1 + |x|] == '}'
    ensures NameRun(text, p + 1) == |x| && text[p + 1..p + 1 + |x|] == x
  {
    var b := Brace(x);
    forall j | 0 <= j < |b|
      ensures text[p + j] == b[j]
    {
      assert text[p..p + |b|][j] == text[p + j];
    }
    forall j | 0 <= j < |x|
      ensures text[p + 1 + j] == x[j]
    {
      assert b[1..|b| - 1][j] == b[1 + j];
    }
    assert text[p] == b[0] && text[p + 1 + |x|] == b[|b| - 1];
    forall j | p + 1 <= j < p + 1 + |x|
      ensures IsNameChar(text[j])
    {
      assert text[p + 1 + (j - p - 1)] == x[j - p - 1];
    }
    NameRunExact(text, p + 1, |x|);
    assert text[p + 1..p + 1 + |x|] == x;
  }

  /** A match of the scan at `i`: a brace, a name run and a closing brace. */
  predicate MatchAt(text: string, i: nat)
    requires i < |text|
  {
    var n := NameRun(text, i + 1);
    text[i] == '{' && n > 0 && i + 1 + n < |text| && text[i + 1 + n] == '}'
  }

  /** Where the scan matches at `i`, the only placeholder starting in the
      match is that match's name. */
  lemma MatchedOnly(text: string, i: nat, p: nat, x: string)
    requires i < |text| && MatchAt(text, i)
    requires i <= p && PlaceholderAt(text, p, x)
    ensures p == i ==> x == text[i + 1..i + 1 + NameRun(text, i + 1)]
    ensures p == i || p >= i + 2 + NameRun(text, i + 1)
  {
    PlaceholderRun(text, p, x);
  }

  /** Where the scan does not match at `i`, no placeholder starts there. */
  lemma UnmatchedNone(text: string, i: nat, x: string)
    requires i < |text| && !MatchAt(text, i)
    ensures !PlaceholderAt(text, i, x)
  {
    if PlaceholderAt(text, i, x) {
      PlaceholderRun(text, i, x);
    }
  }

  /** The scan from `i` finds exactly the placeholders at or after `i`. */
  ghost predicate FoundFrom(text: string, i: nat)
    requires i <= |text|
  {
    forall x :: x in FindNames(text, i) <==> exists p: nat | i <= p :: PlaceholderAt(text, p, x)
  }

  /** The name of a match at `i` is a placeholder there. */
  lemma MatchedName(text: string, i: nat)
    requires i < |text| && MatchAt(text, i)
    ensures PlaceholderAt(text, i, text[i + 1..i + 1 + NameRun(text, i + 1)])
  {
    var name := text[i + 1..i + 1 + NameRun(text, i + 1)];
    assert text[i..i + |Brace(name)|] == Brace(name);
  }

  /** A match at `i` adds its name to what the scan finds after it. */
  lemma MatchedStep(text: string, i: nat)
    requires i < |text| && MatchAt(text, i)
    requires FoundFrom(text, i + 2 + NameRun(text, i + 1))
    ensures FoundFrom(text, i)
  {
    var n := NameRun(text, i + 1);
    var j := i + 2 + n;
    var name := text[i + 1..i + 1 + n];
    assert FindNames(text, i) == [name] + FindNames(text, j);
    MatchedName(text, i);
    forall x
      ensures x in FindNames(text, i) <==> exists p: nat | i <= p :: PlaceholderAt(text, p, x)
    {
      if x in FindNames(text, i) && x != name {
        assert x in FindNames(text, j);
        var p: nat :| j <= p && PlaceholderAt(text, p, x);
        assert i <= p;
      }
      if exists p: nat | i <= p :: PlaceholderAt(text, p, x) {
        var p: nat :| i <= p && PlaceholderAt(text, p, x);
        MatchedOnly(text, i, p, x);
        if p != i {
          assert x in FindNames(text, j);
        }
      }
    }
  }

  /** Without a match at `i` the scan finds what it finds from `i + 1`. */
  lemma UnmatchedStep(text: string, i: nat)
    requires i < |text| && !MatchAt(text, i)
    requires FoundFrom(text, i + 1)
    ensures FoundFrom(text, i)
  {
    assert FindNames(text, i) == FindNames(text, i + 1);
    forall x, p: nat | i <= p && PlaceholderAt(text, p, x)
      ensures p > i
    {
      UnmatchedNone(text, i, x);
    }
  }

  lemma {:induction false} FindNamesSpec(text: string, i: nat)
    requires i <= |text|
    ensures FoundFrom(text, i)
    decreases |text| - i
  {
    if i < |text| {
      if MatchAt(text, i) {
        FindNamesSpec(text, i + 2 + NameRun(text, i + 1));
        MatchedStep(text, i);
      } else {
        FindNamesSpec(text, i + 1);
        UnmatchedStep(text, i);
      }
    }
  }

  /** Sequences without repeated entries. */
  predicate NoDups<T(==)>(xs: seq<T>) {
    forall i, j | 0 <= i < j < |xs| :: xs[i] != xs[j]
  }

  /** The entries of `xs` once each, in order of first occurrence. */
  function Distinct<T(==, !new)>(xs: seq<T>): (r: seq<T>)
    ensures forall x :: x in r <==> x in xs
    ensures NoDups(r)
  {
    if xs == [] then []
    else
      var d := Distinct(xs[..|xs| - 1]);
      if xs[|xs| - 1] in d then d else d + [xs[|xs| - 1]]
  }

  /** `_extract_placeholders`: the distinct placeholder names of the text
      (the source takes them through a set, whose order is Python's; here
      they come in order of first occurrence). */
  function ExtractPlaceholders(text: string): (r: seq<string>)
    ensures forall x :: x in r <==> HasPlaceholder(text, x)
    ensures NoDups(r)
    ensures forall x | x in r :: IsName(x)
  {
    FindNamesSpec(text, 0);
    Distinct(FindNames(text, 0))
  }

  // ---------------------------------------------------------- templates

  datatype PromptTemplate = PromptTemplate(
    name: string,
    description: string,
    content: string,
    style: string,
    detailLevel: string,
    isBuiltin: bool,
    placeholders: seq<string>)

  predicate ValidStyle(style: string) {
    style in {"technical", "accessible", "pedagogical", "custom"}
  }

  predicate ValidDetailLevel(level: string) {
    level in {"low", "medium", "high"}
  }

  /** What `PromptTemplate.__post_init__` admits. */
  predicate ValidTemplate(t: PromptTemplate) {
    t.name != "" && Balanced(t.content) && ValidStyle(t.style) && ValidDetailLevel(t.detailLevel)
  }

  /** `PromptTemplate.__post_init__`: the four checks in source order, then
      the placeholders extracted from the content when none are given. */
  function NewPromptTemplate(name: string, description: string, content: string, style: string,
                             detailLevel: string, isBuiltin: bool, placeholders: seq<string>)
    : (r: Result<PromptTemplate>)
    ensures r.Ok? <==> name != "" && Balanced(content) && ValidStyle(style) && ValidDetailLevel(detailLevel)
    ensures r.Ok? ==> ValidTemplate(r.value)
    ensures r.Ok? ==> r.value.name == name && r.value.content == content && r.value.style == style
                      && r.value.detailLevel == detailLevel && r.value.isBuiltin == isBuiltin
                      && r.value.description == description
    ensures r.Ok? && placeholders != [] ==> r.value.placeholders == placeholders
    ensures r.Ok? && placeholders == [] ==>
      (forall x :: x in r.value.placeholders <==> HasPlaceholder(content, x)) && NoDups(r.value.placeholders)
    ensures r.Err? ==> r.kind == ValueError
    ensures name == "" ==> r == Err(ValueError, "name must not be empty")
    ensures name != "" && !Balanced(content) ==> r == Err(ValueError, "content must have balanced braces")
  {
    if name == "" then Err(ValueError, "name must not be empty")
    else if !Balanced(content) then Err(ValueError, "content must have balanced braces")
    else if !ValidStyle(style) then
      Err(ValueError, "style must be in {'technical', 'accessible', 'pedagogical', 'custom'}")
    else if !ValidDetailLevel(detailLevel) then Err(ValueError, "detail_level must be in {'low', 'medium', 'high'}")
    else
      var ps := if placeholders == [] then ExtractPlaceholders(content) else placeholders;
      Ok(PromptTemplate(name, description, content, style, detailLevel, isBuiltin, ps))
  }

  const MaxContentLength := 10000

  /** `validate`: the brace check first, then the length limit. */
  function Validate(t: PromptTemplate): (r: (bool, Option<string>))
    ensures r.0 <==> Balanced(t.content) && |t.content| <= MaxContentLength
    ensures r.0 <==> r.1.None?
    ensures !Balanced(t.content) ==> r.1 == Some("Unbalanced braces in template content")
    ensures Balanced(t.content) && |t.content| > MaxContentLength
            ==> r.1 == Some("Template content exceeds 10,000 characters")
  {
    if !Balanced(t.content) then (false, Some("Unbalanced braces in template content"))
    else if |t.content| > MaxContentLength then (false, Some("Template content exceeds 10,000 characters"))
    else (true, None)
  }

  /** A template the constructor accepted fails validation only by length. */
  lemma ValidateConstructed(name: string, description: string, content: string, style: string,
                            detailLevel: string, isBuiltin: bool, placeholders: seq<string>)
    requires NewPromptTemplate(name, description, content, style, detailLevel, isBuiltin, placeholders).Ok?
    ensures var t := NewPromptTemplate(name, description, content, style, detailLevel, isBuiltin, placeholders).value;
      Validate(t).0 <==> |content| <= MaxContentLength
  {
  }

  // ---------------------------------------------------------- rendering

  /** The context's items replaced one after the other, each `{key}` by its
      value everywhere it occurs in the text so far. */
  function Rendered(s: string, context: seq<(string, string)>): string
    decreases |context|
  {
    if context == [] then s
    else
      var (key, value) := context[|context| - 1];
      Replace(Rendered(s, context[..|context| - 1]), Brace(key), value)
  }

  /** What `render` returns: the content as is without a context or
      without placeholders, else the content with the context replaced. */
  function RenderResult(t: PromptTemplate, context: seq<(string, string)>): string {
    if context == [] || t.placeholders == [] then t.content else Rendered(t.content, context)
  }

  /** `render`, with the context as the sequence of its items in the dict's
      order (an absent context is the empty one). */
  method Render(t: PromptTemplate, context: seq<(string, string)>) returns (r: string)
    ensures r == RenderResult(t, context)
    ensures context == [] || t.placeholders == [] ==> r == t.content
  {
    if context == [] || t.placeholders == [] {
      return t.content;
    }
    var rendered := t.content;
    for i := 0 to |context|
      invariant rendered == Rendered(t.content, context[..i])
    {
      var (key, value) := context[i];
      var placeholder := "{" + key + "}";
      assert context[..i + 1][..i] == context[..i];
      if Contains(rendered, placeholder) {
        rendered := Replace(rendered, placeholder, value);
      } else {
        ReplaceAbsent(rendered, placeholder, value);
      }
    }
    assert context[..|context|] == context;
    return rendered;
  }

  /** A context none of whose placeholders occur leaves the text alone. */
  lemma {:induction false} RenderedAbsent(s: string, context: seq<(string, string)>)
    requires forall i | 0 <= i < |context| :: !Contains(s, Brace(context[i].0))
    ensures Rendered(s, context) == s
    decreases |context|
  {
    if context != [] {
      var init := context[..|context| - 1];
      RenderedAbsent(s, init);
      ReplaceAbsent(s, Brace(context[|context| - 1].0), context[|context| - 1].1);
    }
  }

  /** Prepending text keeps an occurrence. */
  lemma ContainsAfter(a: string, b: string, p: string)
    requires Contains(b, p)
    ensures Contains(a + b, p)
  {
    var i: nat :| i <= |b| && OccursAt(b, p, i);
    assert (a + b)[|a| + i..|a| + i + |p|] == b[i..i + |p|];
    assert OccursAt(a + b, p, |a| + i);
  }

  /** Two brace-enclosed brace-free words at the same position are equal. */
  lemma SameBraced(s: string, k: string, x: string)
    requires BraceFree(k) && BraceFree(x)
    requires StartsWith(s, Brace(k)) && StartsWith(s, Brace(x))
    ensures k == x
  {
    var bk, bx := Brace(k), Brace(x);
    assert s[..|bk|] == bk && s[..|bx|] == bx;
    assert k == bk[1..|bk| - 1] == s[1..|k| + 1] == bx[1..|bx| - 1] == x;
  }

  /** An occurrence of `{x}` cannot start inside a leading `{k}`. */
  lemma AfterLeadingMatch(s: string, k: string, x: string, i: nat)
    requires BraceFree(k) && BraceFree(x) && k != x
    requires StartsWith(s, Brace(k)) && OccursAt(s, Brace(x), i)
    ensures i >= |Brace(k)| && OccursAt(s[|Brace(k)|..], Brace(x), i - |Brace(k)|)
  {
    var pat, bx := Brace(k), Brace(x);
    if i < |pat| {
      assert s[i] == bx[0] == '{';
      assert s[i] == pat[i];
      assert s[..|bx|] == bx;
      SameBraced(s, k, x);
    }
    var rest := s[|pat|..];
    assert rest[i - |pat|..i - |pat| + |bx|] == s[i..i + |bx|];
  }

  /** An occurrence after the first character is one in the tail. */
  lemma OccursInTail(s: string, p: string, i: nat)
    requires 0 < i && OccursAt(s, p, i)
    ensures OccursAt(s[1..], p, i - 1)
  {
    assert s[1..][i - 1..i - 1 + |p|] == s[i..i + |p|];
  }

  /** A leading `{x}` that is not a `{k}` survives replacing `{k}`. */
  lemma LeadingOtherKept(s: string, k: string, v: string, x: string)
    requires BraceFree(x) && StartsWith(s, Brace(x))
    requires |s| >= |Brace(k)| && s[..|Brace(k)|] != Brace(k)
    ensures StartsWith(Replace(s, Brace(k), v), Brace(x))
  {
    var pat, bx := Brace(k), Brace(x);
    var w := x + "}";
    var rest := s[|bx|..];
    assert s == [s[0]] + (w + rest) by {
      assert s[..|bx|] == bx;
    }
    ReplaceNoMatchHead(s[0], w + rest, pat, v);
    assert pat[0] !in w;
    ReplaceSkipPrefix(w, rest, pat, v);
    PrefixKept(bx, [s[0]] + w, Replace(rest, pat, v));
  }

  /** A text made of a prefix and more starts with the prefix. */
  lemma PrefixKept(p: string, a: string, b: string)
    requires a == p
    ensures StartsWith(a + b, p)
  {
    assert (a + b)[..|p|] == p;
  }

  /** Replacing `{k}` keeps every `{x}` for another brace-free `x`: no
      occurrence of `{k}` can overlap it. */
  lemma {:induction false} ReplaceKeepsOther(s: string, k: string, v: string, x: string)
    requires BraceFree(k) && BraceFree(x) && k != x
    requires Contains(s, Brace(x))
    ensures Contains(Replace(s, Brace(k), v), Brace(x))
    decreases |s|
  {
    var pat, bx := Brace(k), Brace(x);
    var i: nat :| i <= |s| && OccursAt(s, bx, i);
    if |s| < |pat| {
    } else if s[..|pat|] == pat {
      AfterLeadingMatch(s, k, x, i);
      var rest := s[|pat|..];
      assert Replace(s, pat, v) == v + Replace(rest, pat, v);
      ReplaceKeepsOther(rest, k, v, x);
      ContainsAfter(v, Replace(rest, pat, v), bx);
    } else if i > 0 {
      OccursInTail(s, bx, i);
      assert Replace(s, pat, v) == [s[0]] + Replace(s[1..], pat, v);
      ReplaceKeepsOther(s[1..], k, v, x);
      ContainsAfter([s[0]], Replace(s[1..], pat, v), bx);
    } else {
      assert s[..|bx|] == bx;
      LeadingOtherKept(s, k, v, x);
      StartsWithContains(Replace(s, pat, v), bx);
    }
  }

  /** A placeholder whose name no context key has stays in place, as long
      as the keys are brace-free. */
  lemma {:induction false} RenderedKeepsOther(s: string, context: seq<(string, string)>, x: string)
    requires BraceFree(x) && Contains(s, Brace(x))
    requires forall i | 0 <= i < |context| :: BraceFree(context[i].0) && context[i].0 != x
    ensures Contains(Rendered(s, context), Brace(x))
    decreases |context|
  {
    if context != [] {
      var init := context[..|context| - 1];
      RenderedKeepsOther(s, init, x);
      ReplaceKeepsOther(Rendered(s, init), context[|context| - 1].0, context[|context| - 1].1, x);
    }
  }

  /** `render` keeps the placeholders the context has no entry for. */
  lemma RenderKeepsUnmatched(t: PromptTemplate, context: seq<(string, string)>, x: string)
    requires IsName(x) && HasPlaceholder(t.content, x)
    requires forall i | 0 <= i < |context| :: BraceFree(context[i].0) && context[i].0 != x
    ensures HasPlaceholder(RenderResult(t, context), x)
  {
    var p: nat :| PlaceholderAt(t.content, p, x);
    assert Contains(t.content, Brace(x));
    RenderedKeepsOther(t.content, context, x);
    var r := RenderResult(t, context);
    var q: nat :| q <= |r| && OccursAt(r, Brace(x), q);
    assert PlaceholderAt(r, q, x);
  }

  /** `render` changes nothing when no key of the context occurs. */
  lemma RenderUnmatchedContext(t: PromptTemplate, context: seq<(string, string)>)
    requires forall i | 0 <= i < |context| :: !Contains(t.content, Brace(context[i].0))
    ensures RenderResult(t, context) == t.content
  {
    RenderedAbsent(t.content, context);
  }

  // ------------------------------------------------------------ library

  /** `xs` without the entries equal to `x`. */
  function Without<T(==, !new)>(xs: seq<T>, x: T): (r: seq<T>)
    ensures forall y :: y in r <==> y in xs && y != x
    ensures NoDups(xs) ==> NoDups(r)
    ensures |r| <= |xs|
  {
    if xs == [] then []
    else
      var w := Without(xs[..|xs| - 1], x);
      assert NoDups(xs) ==> xs[|xs| - 1] !in xs[..|xs| - 1] && NoDups(xs[..|xs| - 1]);
      if xs[|xs| - 1] == x then w else w + [xs[|xs| - 1]]
  }

  /** `PromptLibrary`: the `templates` dict as a map and the order in
      which its keys were inserted. The library directory is not part of
      this model. */
  class PromptLibrary {
    var templates: map<string, PromptTemplate>
    var order: seq<string>

    /** The keys in insertion order are the map's keys, once each. */
    ghost predicate Valid()
      reads this
    {
      (forall k :: k in templates <==> k in order) && NoDups(order)
    }

    constructor ()
      ensures Valid() && templates == map[] && order == []
    {
      templates := map[];
      order := [];
    }

    /** `list_templates`: the templates in insertion order. */
    function ListTemplates(): (r: seq<PromptTemplate>)
      reads this
      requires Valid()
      ensures |r| == |order| == |templates|
      ensures forall i | 0 <= i < |r| :: order[i] in templates && r[i] == templates[order[i]]
      ensures forall t :: t in r <==> t in templates.Values
    {
      KeysCount(order, templates);
      assert forall i | 0 <= i < |order| :: order[i] in templates;
      var r := seq(|order|, i requires 0 <= i < |order| && order[i] in templates reads this => templates[order[i]]);
      assert forall t | t in templates.Values :: t in r by {
        forall t | t in templates.Values
          ensures t in r
        {
          var k :| k in templates && templates[k] == t;
          var i :| 0 <= i < |order| && order[i] == k;
          assert r[i] == t;
        }
      }
      r
    }

    /** `add_template`: refused for a name already present or a template
        that does not validate; otherwise exactly that key is added. */
    method AddTemplate(t: PromptTemplate) returns (r: Result<()>)
      requires Valid()
      modifies this
      ensures Valid()
      ensures r.Ok? <==> t.name !in old(templates) && Validate(t).0
      ensures t.name in old(templates) ==> r == Err(ValueError, "Template '" + t.name + "' already exists")
      ensures t.name !in old(templates) && !Validate(t).0
              ==> r == Err(ValueError, "Invalid template: " + Validate(t).1.value)
      ensures r.Ok? ==> templates == old(templates)[t.name := t] && order == old(order) + [t.name]
      ensures r.Err? ==> templates == old(templates) && order == old(order)
    {
      if t.name in templates {
        return Err(ValueError, "Template '" + t.name + "' already exists");
      }
      var (isValid, error) := Validate(t);
      if !isValid {
        return Err(ValueError, "Invalid template: " + error.value);
      }
      templates := templates[t.name := t];
      order := order + [t.name];
      return Ok(());
    }

    /** `remove_template`: a missing name is a KeyError, a builtin template
        a ValueError; otherwise exactly that key is removed. */
    method RemoveTemplate(name: string) returns (r: Result<()>)
      requires Valid()
      modifies this
      ensures Valid()
      ensures r.Ok? <==> name in old(templates) && !old(templates)[name].isBuiltin
      ensures name !in old(templates) ==> r == Err(KeyError, "Template '" + name + "' not found")
      ensures name in old(templates) && old(templates)[name].isBuiltin
              ==> r == Err(ValueError, "Cannot remove builtin template '" + name + "'")
      ensures r.Ok? ==> templates == old(templates) - {name} && order == Without(old(order), name)
      ensures r.Err? ==> templates == old(templates) && order == old(order)
    {
      if name !in templates {
        return Err(KeyError, "Template '" + name + "' not found");
      }
      if templates[name].isBuiltin {
        return Err(ValueError, "Cannot remove builtin template '" + name + "'");
      }
      templates := templates - {name};
      order := Without(order, name);
      return Ok(());
    }

    /** `validate_all`: every template's validation result under its name. */
    method ValidateAll() returns (results: map<string, (bool, Option<string>)>)
      requires Valid()
      ensures results.Keys == templates.Keys
      ensures forall k | k in results :: results[k] == Validate(templates[k])
    {
      results := map[];
      for i := 0 to |order|
        invariant forall k :: k in results <==> k in order[..i]
        invariant forall k | k in results :: results[k] == Validate(templates[k])
      {
        var name := order[i];
        assert order[..i + 1] == order[..i] + [name];
        results := results[name := Validate(templates[name])];
      }
      assert order[..|order|] == order;
    }
  }

  /** The keys in order, once each, are as many as the map's. */
  lemma KeysCount(order: seq<string>, m: map<string, PromptTemplate>)
    requires (forall k :: k in m <==> k in order) && NoDups(order)
    ensures |m| == |order|
  {
    DistinctCard(order);
    assert m.Keys == set k | k in order;
  }

  /** A sequence without repeats has as many distinct entries as entries. */
  lemma {:induction false} DistinctCard(xs: seq<string>)
    requires NoDups(xs)
    ensures |set k | k in xs| == |xs|
  {
    if xs != [] {
      var init := xs[..|xs| - 1];
      DistinctCard(init);
      assert (set k | k in xs) == (set k | k in init) + {xs[|xs| - 1]};
      assert xs[|xs| - 1] !in init;
    }
  }
}
