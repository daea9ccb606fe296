/** The presentation side of core/models.py: slides, whose content is
    rendered as a beamer frame and can be turned into mixed content, and
    presentations, which own a list of slides, render and cache the whole
    document, append and reorder slides. */
module PresentationModels {
  import opened Wrappers
  import opened Strings
  import opened Models
  import LatexGenerator

  datatype SlideContentType = TEXT | ITEMIZE | FIGURE | TABLE | EQUATION | MIXED

  datatype CompilationStatus = NOT_COMPILED | COMPILING | SUCCESS | FAILED

  /** The shapes a slide's `content` takes: a string, a list of strings, a
      list of elements or one element, or the dictionary of a mixed slide
      (its `text` entry holds the content the slide had before, its
      `elements` entry the element references; either key may be absent). */
  datatype Content =
    | Text(text: string)
    | Items(items: seq<string>)
    | Elements(elements: seq<ExtractedElement>)
    | Single(element: ExtractedElement)
    | Mixed(previous: Option<Content>, references: Option<seq<Uuid>>)

  /** The content shapes `to_latex` can render for each content type; any
      content is accepted on a mixed slide, which renders no body. */
  predicate WellTyped(contentType: SlideContentType, content: Content) {
    match contentType
    case TEXT => content.Text?
    case ITEMIZE => content.Items?
    case MIXED => true
    case _ => content.Elements? || content.Single?
  }

  /** A slide's fields as a value. */
  datatype SlideView = SlideView(
    title: string,
    contentType: SlideContentType,
    content: Content,
    sequenceNumber: int,
    latexCode: Option<string>)

  // ------------------------------------------------------------ rendering

  /** `Slide._generate_element_latex`: a figure block, a comment for an
      equation; for a table it calls `LaTeXGenerator.generate_table_latex`,
      which the generator does not define, so Python raises AttributeError. */
  function ElementLatex(e: ExtractedElement): (r: Result<string>)
    ensures r.Err? <==> e.elementType == ElementType.TABLE
    ensures r.Err? ==> r.kind == AttributeError
    ensures e.elementType == ElementType.FIGURE ==> r == Ok(LatexGenerator.FigureLatex(e, None, LatexGenerator.DefaultWidth))
  {
    match e.elementType
    case FIGURE => Ok(LatexGenerator.FigureLatex(e, None, LatexGenerator.DefaultWidth))
    case TABLE => Err(AttributeError, "type object 'LaTeXGenerator' has no attribute 'generate_table_latex'")
    case EQUATION => Ok("% Equation " + IntToString(e.sequenceNumber) + " (not yet implemented)\n")
  }

  /** The elements' blocks in order, or the first element's error. */
  function ElementsLatex(es: seq<ExtractedElement>): Result<string> {
    if es == [] then Ok("")
    else
      match ElementsLatex(es[..|es| - 1])
      case Err(k, m) => Err(k, m)
      case Ok(a) =>
        match ElementLatex(es[|es| - 1])
        case Err(k, m) => Err(k, m)
        case Ok(b) => Ok(a + b)
  }

  /** A list of elements renders exactly when none of them is a table. */
  lemma {:induction false} ElementsLatexFails(es: seq<ExtractedElement>)
    ensures ElementsLatex(es).Err? <==> exists i | 0 <= i < |es| :: es[i].elementType == ElementType.TABLE
  {
    if es != [] {
      var init := es[..|es| - 1];
      ElementsLatexFails(init);
      if exists i | 0 <= i < |init| :: init[i].elementType == ElementType.TABLE {
        var i :| 0 <= i < |init| && init[i].elementType == ElementType.TABLE;
        assert es[i] == init[i];
      }
      if exists i | 0 <= i < |es| :: es[i].elementType == ElementType.TABLE {
        var i :| 0 <= i < |es| && es[i].elementType == ElementType.TABLE;
        if i < |init| {
          assert init[i] == es[i];
        }
      }
    }
  }

  /** Once a prefix of the elements fails, the whole list fails the same way. */
  lemma {:induction false} ElementsLatexErrPrefix(es: seq<ExtractedElement>, j: nat)
    requires j <= |es| && ElementsLatex(es[..j]).Err?
    ensures ElementsLatex(es) == ElementsLatex(es[..j])
    decreases |es|
  {
    if j == |es| {
      assert es[..j] == es;
    } else {
      var k := |es| - 1;
      if j < k {
        assert es[..k][..j] == es[..j];
        ElementsLatexErrPrefix(es[..k], j);
      } else {
        assert es[..k] == es[..j];
      }
      ElementsLatexErrStep(es);
    }
  }

  lemma ElementsLatexErrStep(es: seq<ExtractedElement>)
    requires es != [] && ElementsLatex(es[..|es| - 1]).Err?
    ensures ElementsLatex(es) == ElementsLatex(es[..|es| - 1])
  {
  }

  function ItemLine(item: string): string {
    "  \\item " + item + "\n"
  }

  /** One `\item` line per entry, in order. */
  function ItemsLatex(items: seq<string>): string {
    if items == [] then "" else ItemsLatex(items[..|items| - 1]) + ItemLine(items[|items| - 1])
  }

  lemma {:induction false} ItemsLatexAppend(a: seq<string>, b: seq<string>)
    ensures ItemsLatex(a + b) == ItemsLatex(a) + ItemsLatex(b)
    decreases |b|
  {
    if b == [] {
      assert a + b == a;
    } else {
      assert (a + b)[..|a + b| - 1] == a + b[..|b| - 1];
      ItemsLatexAppend(a, b[..|b| - 1]);
    }
  }

  /** Every entry gets its own `\item` line, after the lines of the entries
      before it. */
  lemma ItemLineAt(items: seq<string>, i: nat)
    requires i < |items|
    ensures OccursAt(ItemsLatex(items), ItemLine(items[i]), |ItemsLatex(items[..i])|)
  {
    assert items == items[..i] + ([items[i]] + items[i + 1..]);
    ItemsLatexAppend(items[..i], [items[i]] + items[i + 1..]);
    ItemsLatexAppend([items[i]], items[i + 1..]);
    assert ItemsLatex([items[i]]) == ItemsLatex([]) + ItemLine(items[i]);
    ConcatParts(ItemsLatex(items[..i]), ItemLine(items[i]), ItemsLatex(items[i + 1..]));
  }

  /** The body of a frame for each content type. */
  function BodyLatex(contentType: SlideContentType, content: Content): Result<string>
    requires WellTyped(contentType, content)
  {
    match contentType
    case TEXT => Ok(content.text + "\n")
    case ITEMIZE => Ok("\\begin{itemize}\n" + ItemsLatex(content.items) + "\\end{itemize}\n")
    case MIXED => Ok("")
    case _ => if content.Elements? then ElementsLatex(content.elements) else ElementLatex(content.element)
  }

  function FrameHead(title: string): string {
    "\\begin{frame}{" + title + "}\n"
  }

  const FrameTail := "\\end{frame}\n"

  /** Python truthiness of an optional string. */
  predicate Truthy(o: Option<string>) {
    o.Some? && o.value != []
  }

  /** `Slide.to_latex`: the stored code when there is one, else the frame. */
  function SlideLatex(v: SlideView): Result<string>
    requires Truthy(v.latexCode) || WellTyped(v.contentType, v.content)
  {
    if Truthy(v.latexCode) then Ok(v.latexCode.value)
    else
      match BodyLatex(v.contentType, v.content)
      case Err(k, m) => Err(k, m)
      case Ok(body) => Ok(FrameHead(v.title) + body + FrameTail)
  }

  /** Without stored code, a rendered slide is one frame titled by the slide. */
  lemma FrameShape(v: SlideView)
    requires !Truthy(v.latexCode) && WellTyped(v.contentType, v.content)
    requires SlideLatex(v).Ok?
    ensures StartsWith(SlideLatex(v).value, FrameHead(v.title))
    ensures EndsWith(SlideLatex(v).value, FrameTail)
    ensures v.contentType == ITEMIZE ==>
      OccursAt(SlideLatex(v).value, "\\begin{itemize}\n" + ItemsLatex(v.content.items) + "\\end{itemize}\n",
               |FrameHead(v.title)|)
  {
    ConcatParts(FrameHead(v.title), BodyLatex(v.contentType, v.content).value, FrameTail);
  }

  // ----------------------------------------------------------- mixed content

  /** `add_element`'s new content: a mixed slide's dictionary gains the
      reference (a non-dictionary is first replaced by an empty one, a
      missing key by an empty list); any other slide's content is kept
      under `text` next to a one-reference list. */
  function WithElement(contentType: SlideContentType, content: Content, id: Uuid): Content {
    if contentType == MIXED then
      if content.Mixed? then Mixed(content.previous, Some(content.references.GetOr([]) + [id]))
      else Mixed(None, Some([id]))
    else Mixed(Some(content), Some([id]))
  }

  /** After `add_element` the new reference is the last one; a mixed slide
      keeps the references it had, any other slide keeps its old content. */
  lemma WithElementKeeps(contentType: SlideContentType, content: Content, id: Uuid)
    ensures var c := WithElement(contentType, content, id);
      && c.Mixed? && c.references.Some? && c.references.value != []
      && c.references.value[|c.references.value| - 1] == id
      && (contentType != MIXED ==> c.previous == Some(content) && c.references.value == [id])
      && (contentType == MIXED && content.Mixed? ==>
            c.previous == content.previous && c.references.value[..|c.references.value| - 1] == content.references.GetOr([]))
  {
    var c := WithElement(contentType, content, id);
    if contentType == MIXED && content.Mixed? {
      assert c.references.value[..|c.references.value| - 1] == content.references.GetOr([]);
    }
  }

  /** The item loop of `Slide.to_latex`: one `\item` line per entry. */
  method ItemLines(items: seq<string>) returns (lines: string)
    ensures lines == ItemsLatex(items)
  {
    lines := "";
    for i := 0 to |items|
      invariant lines == ItemsLatex(items[..i])
    {
      assert items[..i + 1][..i] == items[..i];
      lines := lines + ItemLine(items[i]);
    }
    assert items[..|items|] == items;
  }

  // ---------------------------------------------------------------- slides

  class Slide {
    var title: string
    var contentType: SlideContentType
    var content: Content
    var sequenceNumber: int
    var sectionName: Option<string>
    var subsectionName: Option<string>
    var latexCode: Option<string>

    function View(): SlideView
      reads this
    {
      SlideView(title, contentType, content, sequenceNumber, latexCode)
    }

    /** The dataclass constructor, once `__post_init__` has accepted the title. */
    constructor (title: string, contentType: SlideContentType, content: Content, sequenceNumber: int)
      requires title != ""
      ensures View() == SlideView(title, contentType, content, sequenceNumber, None)
      ensures sectionName == None && subsectionName == None
    {
      this.title := title;
      this.contentType := contentType;
      this.content := content;
      this.sequenceNumber := sequenceNumber;
      this.sectionName := None;
      this.subsectionName := None;
      this.latexCode := None;
    }

    /** `Slide(...)` with `__post_init__`: an empty title is rejected. */
    static method New(title: string, contentType: SlideContentType, content: Content, sequenceNumber: int)
      returns (r: Result<Slide>)
      ensures r.Ok? <==> title != ""
      ensures r.Err? ==> r == Err(ValueError, "Slide title must not be empty")
      ensures r.Ok? ==> fresh(r.value) && r.value.View() == SlideView(title, contentType, content, sequenceNumber, None)
    {
      if title == "" {
        return Err(ValueError, "Slide title must not be empty");
      }
      var s := new Slide(title, contentType, content, sequenceNumber);
      return Ok(s);
    }

    /** `to_latex`, with its loops over the items or the elements. */
    method ToLatex() returns (r: Result<string>)
      requires Truthy(latexCode) || WellTyped(contentType, content)
      ensures r == SlideLatex(View())
    {
      if latexCode.Some? && latexCode.value != [] {
        return Ok(latexCode.value);
      }
      var latex := FrameHead(title);
      match contentType {
        case TEXT =>
          latex := latex + (content.text + "\n");
          assert latex == FrameHead(title) + BodyLatex(contentType, content).value;
        case ITEMIZE =>
          var lines := ItemLines(content.items);
          latex := latex + "\\begin{itemize}\n" + lines + "\\end{itemize}\n";
          assert latex == FrameHead(title) + BodyLatex(contentType, content).value;
        case MIXED =>
          assert latex == FrameHead(title) + BodyLatex(contentType, content).value;
        case _ =>
          var body := ContentLatex(content);
          if body.Err? {
            return Err(body.kind, body.message);
          }
          latex := latex + body.value;
          assert latex == FrameHead(title) + BodyLatex(contentType, content).value;
      }
      latex := latex + FrameTail;
      return Ok(latex);
    }

    /** `add_element`: the slide becomes mixed and gains the reference. */
    method AddElement(id: Uuid)
      modifies this
      ensures contentType == MIXED
      ensures content == WithElement(old(contentType), old(content), id)
      ensures title == old(title) && sequenceNumber == old(sequenceNumber) && latexCode == old(latexCode)
      ensures sectionName == old(sectionName) && subsectionName == old(subsectionName)
    {
      if contentType == MIXED {
        if !content.Mixed? {
          content := Mixed(None, Some([]));
        }
        if content.references.None? {
          content := Mixed(content.previous, Some([]));
        }
        assert [] + [id] == [id];
        content := Mixed(content.previous, Some(content.references.value + [id]));
      } else {
        var oldContent := content;
        content := Mixed(Some(oldContent), Some([id]));
        contentType := MIXED;
      }
    }
  }

  /** The element part of `to_latex`: each element's block in turn, stopping
      at the first that raises. */
  method ContentLatex(content: Content) returns (r: Result<string>)
    requires content.Elements? || content.Single?
    ensures r == (if content.Elements? then ElementsLatex(content.elements) else ElementLatex(content.element))
  {
    if content.Single? {
      return ElementLatex(content.element);
    }
    var es := content.elements;
    var latex := "";
    var i := 0;
    while i < |es|
      invariant i <= |es|
      invariant ElementsLatex(es[..i]) == Ok(latex)
    {
      assert es[..i + 1][..i] == es[..i];
      var block := ElementLatex(es[i]);
      if block.Err? {
        ElementsLatexErrPrefix(es, i + 1);
        return Err(block.kind, block.message);
      }
      latex := latex + block.value;
      i := i + 1;
    }
    assert es[..i] == es;
    return Ok(latex);
  }

  /** The views of a list of slides. */
  function Views(slides: seq<Slide>): (vs: seq<SlideView>)
    reads set s | s in slides
    ensures |vs| == |slides|
    ensures forall i | 0 <= i < |slides| :: vs[i] == slides[i].View()
  {
    seq(|slides|, i reads set s | s in slides requires 0 <= i < |slides| => slides[i].View())
  }

  // ---------------------------------------------------------- presentations

  /** The beamer preamble, the colour theme line only for a non-empty colour
      theme, and the title frame. */
  function Preamble(theme: string, colorTheme: Option<string>, title: string, author: string, date: string): string {
    "\\documentclass{beamer}\n\\usetheme{" + theme + "}\n"
    + (if Truthy(colorTheme) then "\\usecolortheme{" + colorTheme.value + "}\n" else "")
    + "\n\\title{" + title + "}\n\\author{" + author + "}\n\\date{" + date + "}\n\n"
    + "\\begin{document}\n\n\\frame{\\titlepage}\n\n"
  }

  const DocumentTail := "\\end{document}\n"

  /** Every slide either has stored code or content `to_latex` can render. */
  predicate Renderable(vs: seq<SlideView>) {
    forall i | 0 <= i < |vs| :: Truthy(vs[i].latexCode) || WellTyped(vs[i].contentType, vs[i].content)
  }

  /** Each slide's LaTeX followed by a newline, in order, or the first error. */
  function SlidesLatex(vs: seq<SlideView>): Result<string>
    requires Renderable(vs)
  {
    if vs == [] then Ok("")
    else
      match SlidesLatex(vs[..|vs| - 1])
      case Err(k, m) => Err(k, m)
      case Ok(a) =>
        match SlideLatex(vs[|vs| - 1])
        case Err(k, m) => Err(k, m)
        case Ok(b) => Ok(a + b + "\n")
  }

  /** `Presentation.to_latex` without a cached document. */
  function DocumentLatex(theme: string, colorTheme: Option<string>, title: string, author: string, date: string,
                         vs: seq<SlideView>): (r: Result<string>)
    requires Renderable(vs)
    ensures r.Ok? ==> StartsWith(r.value, Preamble(theme, colorTheme, title, author, date))
                      && EndsWith(r.value, DocumentTail)
  {
    match SlidesLatex(vs)
    case Err(k, m) => Err(k, m)
    case Ok(body) =>
      ConcatParts(Preamble(theme, colorTheme, title, author, date), body, DocumentTail);
      Ok(Preamble(theme, colorTheme, title, author, date) + body + DocumentTail)
  }

  /** A list whose elements are pairwise distinct. */
  predicate Distinct<T(==)>(xs: seq<T>) {
    forall i, j | 0 <= i < j < |xs| :: xs[i] != xs[j]
  }

  /** The slide indices `0 .. n-1` as a set. */
  function Indices(n: nat): (r: set<int>)
    ensures forall i :: i in r <==> 0 <= i < n
    ensures |r| == n
  {
    if n == 0 then {} else
      assert n - 1 !in Indices(n - 1);
      Indices(n - 1) + {n - 1}
  }

  /** What `reorder_slides` accepts: `new_order` has one entry per slide and,
      as a set, is exactly the set of slide indices. */
  predicate IsReordering(order: seq<int>, n: nat) {
    |order| == n && (set x | x in order) == Indices(n)
  }

  /** An accepted reordering names every index exactly once. */
  lemma ReorderingIsPermutation(order: seq<int>, n: nat)
    requires IsReordering(order, n)
    ensures Distinct(order)
    ensures forall k | 0 <= k < n :: 0 <= order[k] < n
    ensures forall i | 0 <= i < n :: i in order
  {
    forall k | 0 <= k < n ensures 0 <= order[k] < n {
      assert order[k] in (set x | x in order);
      assert order[k] in Indices(n);
    }
    forall i | 0 <= i < n ensures i in order {
      assert i in Indices(n);
      assert i in (set x | x in order);
    }
    if !Distinct(order) {
      SetOfRepeating(order);
      assert false;
    }
  }

  /** `[slides[i] for i in new_order]` for an accepted order. */
  function Reordered<T>(xs: seq<T>, order: seq<int>): (ys: seq<T>)
    requires IsReordering(order, |xs|)
    ensures |ys| == |xs|
    ensures forall k | 0 <= k < |ys| :: 0 <= order[k] < |xs| && ys[k] == xs[order[k]]
    ensures forall y | y in ys :: y in xs
  {
    ReorderingIsPermutation(order, |xs|);
    seq(|xs|, k requires 0 <= k < |xs| => xs[order[k]])
  }

  /** Reordering distinct slides leaves them distinct. */
  lemma ReorderedDistinct<T>(xs: seq<T>, order: seq<int>)
    requires IsReordering(order, |xs|)
    ensures Distinct(xs) ==> Distinct(Reordered(xs, order))
  {
    if Distinct(xs) {
      ReorderingIsPermutation(order, |xs|);
      var ys := Reordered(xs, order);
      forall a, b | 0 <= a < b < |ys| ensures ys[a] != ys[b] {
        assert order[a] != order[b];
      }
    }
  }

  /** A list with a repeated entry has fewer distinct entries than entries. */
  lemma {:induction false} SetOfRepeating<T>(xs: seq<T>)
    requires !Distinct(xs)
    ensures |(set x | x in xs)| < |xs|
  {
    var i, j :| 0 <= i < j < |xs| && xs[i] == xs[j];
    var rest := xs[..j] + xs[j + 1..];
    assert (set x | x in xs) == (set x | x in rest) by {
      assert xs == xs[..j] + [xs[j]] + xs[j + 1..];
      assert xs[j] == rest[i];
    }
    SetAtMost(rest);
  }

  lemma {:induction false} SetAtMost<T>(xs: seq<T>)
    ensures |(set x | x in xs)| <= |xs|
  {
    if xs != [] {
      SetAtMost(xs[1..]);
      assert (set x | x in xs) == {xs[0]} + (set x | x in xs[1..]);
    }
  }

  class Presentation {
    const paper: Paper
    var slides: seq<Slide>
    var theme: string
    var title: string
    var author: string
    var date: string
    var colorTheme: Option<string>
    var latexCode: Option<string>
    var compilationStatus: CompilationStatus

    /** The dataclass constructor, once `__post_init__` has accepted it. */
    constructor (paper: Paper, slides: seq<Slide>, theme: string, title: string, author: string, date: string)
      requires slides != [] && title != ""
      ensures this.paper == paper && this.slides == slides && this.theme == theme && this.title == title
      ensures this.author == author && this.date == date && colorTheme == None && latexCode == None
      ensures compilationStatus == NOT_COMPILED
    {
      this.paper := paper;
      this.slides := slides;
      this.theme := theme;
      this.title := title;
      this.author := author;
      this.date := date;
      this.colorTheme := None;
      this.latexCode := None;
      this.compilationStatus := NOT_COMPILED;
    }

    /** `Presentation(...)` with `__post_init__`: no slides is rejected before
        an empty title. */
    static method New(paper: Paper, slides: seq<Slide>, theme: string, title: string, author: string, date: string)
      returns (r: Result<Presentation>)
      ensures r.Ok? <==> slides != [] && title != ""
      ensures slides == [] ==> r == Err(ValueError, "Presentation must have at least one slide")
      ensures slides != [] && title == "" ==> r == Err(ValueError, "Presentation title must not be empty")
      ensures r.Ok? ==> fresh(r.value) && r.value.paper == paper && r.value.slides == slides && r.value.title == title
                        && r.value.author == author && r.value.theme == theme && r.value.date == date
                        && r.value.latexCode == None && r.value.compilationStatus == NOT_COMPILED
    {
      if slides == [] {
        return Err(ValueError, "Presentation must have at least one slide");
      }
      if title == "" {
        return Err(ValueError, "Presentation title must not be empty");
      }
      var p := new Presentation(paper, slides, theme, title, author, date);
      return Ok(p);
    }

    /** `to_latex`: the cached document when there is one; otherwise the
        document is rendered slide by slide and cached. */
    method ToLatex() returns (r: Result<string>)
      requires Truthy(latexCode) || Renderable(Views(slides))
      modifies this
      ensures slides == old(slides) && theme == old(theme) && title == old(title) && author == old(author)
      ensures date == old(date) && colorTheme == old(colorTheme) && compilationStatus == old(compilationStatus)
      ensures Truthy(old(latexCode)) ==> r == Ok(old(latexCode).value) && latexCode == old(latexCode)
      ensures !Truthy(old(latexCode)) ==>
        r == DocumentLatex(theme, colorTheme, title, author, date, Views(slides))
      ensures r.Ok? ==> latexCode == Some(r.value) && r.value != []
      ensures r.Err? ==> latexCode == old(latexCode)
    {
      if latexCode.Some? && latexCode.value != [] {
        return Ok(latexCode.value);
      }
      var rendered := RenderSlides(slides);
      if rendered.Err? {
        return Err(rendered.kind, rendered.message);
      }
      var body := rendered.value;
      var latex := Preamble(theme, colorTheme, title, author, date) + body + DocumentTail;
      latexCode := Some(latex);
      return Ok(latex);
    }

    /** `add_slide`: exactly one slide is appended. */
    method AddSlide(slide: Slide)
      modifies this
      ensures slides == old(slides) + [slide]
      ensures latexCode == old(latexCode) && title == old(title) && compilationStatus == old(compilationStatus)
      ensures theme == old(theme) && author == old(author) && date == old(date) && colorTheme == old(colorTheme)
    {
      slides := slides + [slide];
    }

    /** `reorder_slides`: a permutation of the indices rearranges the slides
        and renumbers them; anything else is rejected and changes nothing. */
    method ReorderSlides(newOrder: seq<int>) returns (r: Result<()>)
      modifies this, set s | s in slides
      ensures |newOrder| != |old(slides)| ==> r == Err(ValueError, "new_order must contain all slide indices")
      ensures |newOrder| == |old(slides)| && !IsReordering(newOrder, |old(slides)|) ==>
        r == Err(ValueError, "new_order must contain each index exactly once")
      ensures r.Ok? <==> IsReordering(newOrder, |old(slides)|)
      ensures r.Err? ==> slides == old(slides)
      ensures r.Err? ==> forall s | s in old(slides) :: s.sequenceNumber == old(s.sequenceNumber)
      ensures r.Ok? ==> |slides| == |old(slides)|
      ensures r.Ok? ==> forall k | 0 <= k < |slides| :: 0 <= newOrder[k] < |slides| && slides[k] == old(slides)[newOrder[k]]
      ensures r.Ok? ==> forall k | 0 <= k < |slides| :: LastPosition(slides, k, slides[k].sequenceNumber)
      ensures r.Ok? && Distinct(old(slides)) ==> forall k | 0 <= k < |slides| :: slides[k].sequenceNumber == k
      ensures forall s | s in old(slides) :: Unchanged(s, old(s.View()))
      ensures latexCode == old(latexCode) && title == old(title) && compilationStatus == old(compilationStatus)
      ensures theme == old(theme) && author == old(author) && date == old(date) && colorTheme == old(colorTheme)
    {
      var n := |slides|;
      if |newOrder| != n {
        return Err(ValueError, "new_order must contain all slide indices");
      }
      if (set x | x in newOrder) != Indices(n) {
        return Err(ValueError, "new_order must contain each index exactly once");
      }
      Rearrange(newOrder);
      return Ok(());
    }

    /** The accepted branch of `reorder_slides`: the slides are rearranged
        and renumbered by the loop. */
    method Rearrange(newOrder: seq<int>)
      requires IsReordering(newOrder, |slides|)
      modifies this, set s | s in slides
      ensures slides == Reordered(old(slides), newOrder)
      ensures forall k | 0 <= k < |slides| :: LastPosition(slides, k, slides[k].sequenceNumber)
      ensures Distinct(old(slides)) ==> forall k | 0 <= k < |slides| :: slides[k].sequenceNumber == k
      ensures forall s | s in old(slides) :: Unchanged(s, old(s.View()))
      ensures latexCode == old(latexCode) && title == old(title) && compilationStatus == old(compilationStatus)
      ensures theme == old(theme) && author == old(author) && date == old(date) && colorTheme == old(colorTheme)
    {
      var before := slides;
      var reordered := Reordered(before, newOrder);
      ReorderedDistinct(before, newOrder);
      Renumber(reordered, before);
      slides := reordered;
    }

    /** `compile_to_pdf`: a placeholder that reports no compilation. */
    method CompileToPdf() returns (ok: bool)
      modifies this
      ensures !ok && compilationStatus == NOT_COMPILED
      ensures slides == old(slides) && latexCode == old(latexCode) && title == old(title)
      ensures theme == old(theme) && author == old(author) && date == old(date) && colorTheme == old(colorTheme)
    {
      compilationStatus := COMPILING;
      compilationStatus := NOT_COMPILED;
      return false;
    }
  }

  /** The slide loop of `Presentation.to_latex`: each slide's `to_latex`,
      followed by a newline, stopping at the first error. */
  method RenderSlides(deck: seq<Slide>) returns (r: Result<string>)
    requires Renderable(Views(deck))
    ensures r == SlidesLatex(Views(deck))
  {
    var vs := Views(deck);
    var body := "";
    var i := 0;
    while i < |deck|
      invariant i <= |deck| == |vs|
      invariant SlidesLatex(vs[..i]) == Ok(body)
    {
      assert vs[..i + 1][..i] == vs[..i];
      var frame := deck[i].ToLatex();
      if frame.Err? {
        SlidesLatexErrPrefix(vs, i + 1);
        return Err(frame.kind, frame.message);
      }
      body := body + frame.value + "\n";
      i := i + 1;
    }
    assert vs[..i] == vs;
    return Ok(body);
  }

  /** Slide `slides[k]` is numbered `p`: the last position it occupies. */
  predicate LastPosition(slides: seq<Slide>, k: int, p: int) {
    0 <= k <= p < |slides| && slides[p] == slides[k]
    && forall m | p < m < |slides| :: slides[m] != slides[k]
  }

  /** Everything of a slide but its sequence number is as in `v`. */
  predicate Unchanged(s: Slide, v: SlideView)
    reads s
  {
    s.title == v.title && s.contentType == v.contentType && s.content == v.content && s.latexCode == v.latexCode
  }

  /** The renumbering loop of `reorder_slides`: each slide gets the last
      position it occupies. */
  method Renumber(slides: seq<Slide>, ghost frame: seq<Slide>)
    requires forall s | s in slides :: s in frame
    modifies set s | s in frame
    ensures forall k | 0 <= k < |slides| :: LastPosition(slides, k, slides[k].sequenceNumber)
    ensures Distinct(slides) ==> forall k | 0 <= k < |slides| :: slides[k].sequenceNumber == k
    ensures forall s | s in frame :: Unchanged(s, old(s.View()))
    ensures forall s | s in frame && s !in slides :: s.sequenceNumber == old(s.sequenceNumber)
  {
    for i := 0 to |slides|
      invariant forall k | 0 <= k < i :: LastPosition(slides[..i], k, slides[k].sequenceNumber)
      invariant forall s | s in frame :: Unchanged(s, old(s.View()))
      invariant forall s | s in frame && s !in slides :: s.sequenceNumber == old(s.sequenceNumber)
    {
      slides[i].sequenceNumber := i;
    }
    assert slides[..|slides|] == slides;
  }

  /** Once a prefix of the slides fails to render, the whole list fails the same way. */
  lemma {:induction false} SlidesLatexErrPrefix(vs: seq<SlideView>, j: nat)
    requires Renderable(vs) && j <= |vs| && SlidesLatex(vs[..j]).Err?
    ensures SlidesLatex(vs) == SlidesLatex(vs[..j])
    decreases |vs|
  {
    if j == |vs| {
      assert vs[..j] == vs;
    } else {
      var k := |vs| - 1;
      if j < k {
        assert vs[..k][..j] == vs[..j];
        SlidesLatexErrPrefix(vs[..k], j);
      } else {
        assert vs[..k] == vs[..j];
      }
      SlidesLatexErrStep(vs);
    }
  }

  lemma SlidesLatexErrStep(vs: seq<SlideView>)
    requires Renderable(vs) && vs != [] && SlidesLatex(vs[..|vs| - 1]).Err?
    ensures SlidesLatex(vs) == SlidesLatex(vs[..|vs| - 1])
  {
  }
}
