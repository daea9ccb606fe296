/** generation/slide_organizer.py: turning a paper's sections and extracted
    elements into slides. The layouts are specified as lists of slide
    values; the organizer's methods build the `Slide` objects in loops and
    are proved to produce exactly those values. */
module Organizer {
  import opened Wrappers
  import opened Seqs
  import opened Strings
  import opened Models
  import P = PresentationModels

  // ------------------------------------------------------------ naming

  /** The enum's `.value` of a slide content type. */
  function ContentTypeValue(ct: P.SlideContentType): string {
    match ct
    case TEXT => "text"
    case ITEMIZE => "itemize"
    case FIGURE => "figure"
    case TABLE => "table"
    case EQUATION => "equation"
    case MIXED => "mixed"
  }

  /** `str.title()` of a single lower-case word: its first letter upper-case. */
  function TitleWord(w: string): (r: string)
    ensures |r| == |w|
    ensures w != [] && IsLower(w[0]) ==> IsUpper(r[0]) && r[1..] == Lower(w[1..])
  {
    if w == [] then [] else [UpperChar(w[0])] + Lower(w[1..])
  }

  /** `_element_type_to_slide_type`: the slide type of the same name. */
  function SlideTypeOf(t: ElementType): (ct: P.SlideContentType)
    ensures ContentTypeValue(ct) == ElementTypeValue(t)
    ensures ct != P.TEXT && ct != P.ITEMIZE && ct != P.MIXED
  {
    match t
    case FIGURE => P.FIGURE
    case TABLE => P.TABLE
    case EQUATION => P.EQUATION
  }

  /** `range(0, n, 0)` raises before any batch is formed. */
  const RangeStepMessage := "range() arg 3 must not be zero"

  /** `a or b` on strings. */
  function OrElse(a: string, b: string): (r: string)
    ensures a != [] ==> r == a
    ensures a == [] ==> r == b
  {
    if a != [] then a else b
  }

  /** `element.caption or fallback`. */
  function CaptionOr(e: ExtractedElement, fallback: string): (r: string)
    ensures fallback != [] ==> r != []
    ensures e.caption.Some? && e.caption.value != [] ==> r == e.caption.value
    ensures e.caption.None? ==> r == fallback
  {
    if e.caption.Some? then OrElse(e.caption.value, fallback) else fallback
  }

  // ------------------------------------------------------------ batches

  /** The concatenation of a list of lists. */
  function Flatten<T>(bs: seq<seq<T>>): seq<T> {
    if bs == [] then [] else bs[0] + Flatten(bs[1..])
  }

  lemma FlattenCons<T>(b: seq<T>, bs: seq<seq<T>>)
    ensures Flatten([b] + bs) == b + Flatten(bs)
  {
    assert ([b] + bs)[1..] == bs;
  }

  /** `[xs[i:i + size] for i in range(0, len(xs), size)]`: consecutive
      non-empty batches of at most `size` elements (see `BatchesFull` and
      `BatchesFlatten` for the rest of their shape). */
  function Batches<T>(xs: seq<T>, size: nat): (bs: seq<seq<T>>)
    requires size > 0
    ensures forall k | 0 <= k < |bs| :: 0 < |bs[k]| <= size
    decreases |xs|
  {
    if xs == [] then []
    else if |xs| <= size then [xs]
    else [xs[..size]] + Batches(xs[size..], size)
  }

  /** Every batch but the last is full. */
  lemma {:induction false} BatchesFull<T>(xs: seq<T>, size: nat)
    requires size > 0
    ensures forall k | 0 <= k < |Batches(xs, size)| - 1 :: |Batches(xs, size)[k]| == size
    decreases |xs|
  {
    if |xs| > size {
      BatchesFull(xs[size..], size);
      var bs := Batches(xs, size);
      assert bs[1..] == Batches(xs[size..], size);
      forall k | 0 <= k < |bs| - 1
        ensures |bs[k]| == size
      {
        if k > 0 {
          assert bs[k] == bs[1..][k - 1];
        }
      }
    }
  }

  /** The batches together give back the list. */
  lemma {:induction false} BatchesFlatten<T>(xs: seq<T>, size: nat)
    requires size > 0
    ensures Flatten(Batches(xs, size)) == xs
    decreases |xs|
  {
    if xs == [] {
    } else if |xs| <= size {
      FlattenCons(xs, []);
    } else {
      BatchesFlatten(xs[size..], size);
      FlattenCons(xs[..size], Batches(xs[size..], size));
      assert xs == xs[..size] + xs[size..];
    }
  }

  /** The offset of batch `k`: `k * size`, built by repeated addition as a
      stride loop reaches it. */
  function Offset(k: nat, size: nat): (o: nat)
  {
    if k == 0 then 0 else Offset(k - 1, size) + size
  }

  lemma {:induction false} OffsetIsProduct(k: nat, size: nat)
    ensures Offset(k, size) == k * size
  {
    if k > 0 {
      OffsetIsProduct(k - 1, size);
      MulSucc(k - 1, size);
    }
  }

  /** Batch `k` exists exactly when its offset is inside the list. */
  lemma {:induction false} BatchExists<T>(xs: seq<T>, size: nat, k: nat)
    requires size > 0
    ensures k < |Batches(xs, size)| <==> Offset(k, size) < |xs|
    decreases k
  {
    if xs != [] && k > 0 {
      if |xs| <= size {
        assert |Batches(xs, size)| == 1;
        assert Offset(k, size) >= size;
      } else {
        assert |Batches(xs, size)| == 1 + |Batches(xs[size..], size)|;
        BatchExists(xs[size..], size, k - 1);
      }
    }
  }

  /** Batch `k` is the slice starting at its offset. */
  lemma {:induction false} BatchAt<T>(xs: seq<T>, size: nat, k: nat)
    requires size > 0 && Offset(k, size) < |xs|
    ensures k < |Batches(xs, size)|
    ensures Batches(xs, size)[k] == xs[Offset(k, size)..Min(Offset(k, size) + size, |xs|)]
    decreases k
  {
    BatchExists(xs, size, k);
    if k > 0 {
      assert |xs| > size;
      var ys := xs[size..];
      assert Batches(xs, size)[k] == Batches(ys, size)[k - 1];
      BatchAt(ys, size, k - 1);
      var o := Offset(k - 1, size);
      var hi := Min(o + size, |ys|);
      SliceOfSuffix(xs, size, o + size, hi + size);
    }
  }

  /** What one step of a loop over `xs` in strides of `size` needs at
      offset `i = b * size`: batch `b`, the batch number `i // size`, and
      whether another batch follows. */
  lemma StrideStep<T>(xs: seq<T>, size: nat, b: nat)
    requires size > 0 && b * size < |xs|
    ensures var i := b * size;
      && b < |Batches(xs, size)|
      && Batches(xs, size)[b] == xs[i..if i + size <= |xs| then i + size else |xs|]
      && i / size == b
      && (b + 1) * size == i + size
      && (b + 1 < |Batches(xs, size)| <==> i + size < |xs|)
  {
    OffsetIsProduct(b, size);
    OffsetIsProduct(b + 1, size);
    BatchAt(xs, size, b);
    BatchExists(xs, size, b + 1);
    DivUnique(b * size, size, b, 0);
  }

  /** Before the first step: there is a batch exactly when the list is not empty. */
  lemma StrideStart<T>(xs: seq<T>, size: nat)
    requires size > 0
    ensures 0 < |Batches(xs, size)| <==> 0 < |xs|
  {
  }

  /** Division facts for the batch count, proved from the remainder's range. */
  lemma DivUnique(y: int, m: int, a: int, r: int)
    requires m > 0 && 0 <= r < m && y == a * m + r
    ensures y / m == a
  {
    var q, s := y / m, y % m;
    assert y == q * m + s;
    if q > a {
      MulAtLeast(q - a, m);
    } else if q < a {
      MulAtLeast(a - q, m);
    }
  }

  lemma MulSucc(b: int, m: int)
    ensures (b + 1) * m == b * m + m
  {
  }

  lemma MulAtLeast(d: int, m: int)
    requires d >= 1 && m > 0
    ensures d * m >= m
  {
  }

  lemma CeilStep(n: int, size: int)
    requires n > size > 0
    ensures (n + size - 1) / size == (n - size + size - 1) / size + 1
  {
    var q, r := (n - 1) / size, (n - 1) % size;
    assert n - 1 == q * size + r;
    assert (q + 1) * size == q * size + size;
    DivUnique(n + size - 1, size, q + 1, r);
  }

  /** There are `ceil(len(xs) / size)` batches. */
  lemma {:induction false} BatchCount<T>(xs: seq<T>, size: nat)
    requires size > 0
    ensures |Batches(xs, size)| == (|xs| + size - 1) / size
    decreases |xs|
  {
    var n := |xs|;
    if xs == [] {
      DivUnique(size - 1, size, 0, size - 1);
    } else if n <= size {
      DivUnique(n + size - 1, size, 1, n - 1);
    } else {
      BatchCount(xs[size..], size);
      CeilStep(n, size);
    }
  }

  // ------------------------------------------------------------ element slides

  /** Whether an element gets a slide of its own. */
  predicate IsLarge(e: ExtractedElement, threshold: int) {
    e.boundingBox.width >= threshold as real || e.boundingBox.height >= threshold as real
  }

  function LargeTest(threshold: int): ExtractedElement -> bool {
    e => IsLarge(e, threshold)
  }

  function SmallTest(threshold: int): ExtractedElement -> bool {
    e => !IsLarge(e, threshold)
  }

  /** The first loop of `organize_elements`, its two lists. */
  function LargeElements(es: seq<ExtractedElement>, threshold: int): seq<ExtractedElement> {
    Filter(es, LargeTest(threshold))
  }

  function SmallElements(es: seq<ExtractedElement>, threshold: int): seq<ExtractedElement> {
    Filter(es, SmallTest(threshold))
  }

  /** Filtering by a test and by its negation splits a list: each element
      lands in exactly one of the two parts. */
  lemma {:induction false} FilterSplit<T>(s: seq<T>, p: T -> bool, q: T -> bool)
    requires forall x :: q(x) == !p(x)
    ensures multiset(Filter(s, p)) + multiset(Filter(s, q)) == multiset(s)
  {
    if s != [] {
      var init, last := s[..|s| - 1], s[|s| - 1];
      FilterSplit(init, p, q);
      assert s == init + [last];
      assert multiset(s) == multiset(init) + multiset{last};
      if p(last) {
        assert Filter(s, p) == Filter(init, p) + [last];
        assert Filter(s, q) == Filter(init, q);
      } else {
        assert Filter(s, p) == Filter(init, p);
        assert Filter(s, q) == Filter(init, q) + [last];
      }
    }
  }

  /** Every element of the input is either large or small, once. */
  lemma PartitionBySize(es: seq<ExtractedElement>, threshold: int)
    ensures multiset(LargeElements(es, threshold)) + multiset(SmallElements(es, threshold)) == multiset(es)
    ensures |LargeElements(es, threshold)| + |SmallElements(es, threshold)| == |es|
    ensures forall e | e in LargeElements(es, threshold) :: IsLarge(e, threshold)
    ensures forall e | e in SmallElements(es, threshold) :: !IsLarge(e, threshold)
  {
    FilterSplit(es, LargeTest(threshold), SmallTest(threshold));
    assert |multiset(es)| == |es|;
  }

  /** The title of a slide holding a batch in `organize_elements`: a single
      element's caption or `"{prefix} - {Type}"`, else `"{prefix} - {Type}s"`
      after the first element's type. */
  function BatchTitle(batch: seq<ExtractedElement>, prefix: string): (r: string)
    requires batch != []
    ensures r != []
  {
    var typeName := TitleWord(ElementTypeValue(batch[0].elementType));
    if |batch| == 1 then CaptionOr(batch[0], prefix + " - " + typeName)
    else prefix + " - " + typeName + "s"
  }

  /** The slide for batch number `p` of the output (a large element is a
      batch of one). */
  function BatchView(batch: seq<ExtractedElement>, prefix: string, p: int): P.SlideView
    requires batch != []
  {
    P.SlideView(BatchTitle(batch, prefix), SlideTypeOf(batch[0].elementType), P.Elements(batch), 2 * p, None)
  }

  predicate AllNonEmpty<T>(bs: seq<seq<T>>) {
    forall k | 0 <= k < |bs| :: bs[k] != []
  }

  /** One slide per batch, the `k`-th numbered as output slide `start + k`. */
  function BatchViews(bs: seq<seq<ExtractedElement>>, prefix: string, start: int): (vs: seq<P.SlideView>)
    requires AllNonEmpty(bs)
    ensures |vs| == |bs|
  {
    seq(|bs|, k requires 0 <= k < |bs| => BatchView(bs[k], prefix, start + k))
  }

  /** Each element in a list of one. */
  function Singletons<T>(xs: seq<T>): (bs: seq<seq<T>>)
    ensures |bs| == |xs|
    ensures forall k | 0 <= k < |xs| :: bs[k] == [xs[k]]
  {
    seq(|xs|, k requires 0 <= k < |xs| => [xs[k]])
  }

  lemma {:induction false} FlattenSingletons<T>(xs: seq<T>)
    ensures Flatten(Singletons(xs)) == xs
  {
    if xs != [] {
      assert Singletons(xs)[1..] == Singletons(xs[1..]);
      FlattenSingletons(xs[1..]);
    }
  }

  /** `organize_elements`: nothing for no elements; otherwise one slide per
      large element, then the small ones in batches, or the error of a zero
      batch size; a negative batch size drops the small elements. */
  function OrganizeElementsViews(es: seq<ExtractedElement>, threshold: int, maxPer: int, prefix: string)
    : (r: Result<seq<P.SlideView>>)
    ensures es == [] ==> r == Ok([])
    ensures r.Err? <==> es != [] && maxPer == 0
    ensures r.Err? ==> r == Err(ValueError, RangeStepMessage)
  {
    if es == [] then Ok([])
    else if maxPer == 0 then Err(ValueError, RangeStepMessage)
    else
      var large := LargeElements(es, threshold);
      var small := SmallElements(es, threshold);
      var singles: seq<P.SlideView> := BatchViews(Singletons(large), prefix, 0);
      if maxPer < 0 then Ok(singles)
      else Ok(singles + BatchViews(Batches(small, maxPer), prefix, |large|))
  }

  // ------------------------------------------------------------ slide contents

  /** The elements a slide's content holds. */
  function ContentElements(c: P.Content): seq<ExtractedElement> {
    match c
    case Elements(es) => es
    case Single(e) => [e]
    case _ => []
  }

  /** The elements of a list of slides, slide by slide. */
  function ElementsOf(vs: seq<P.SlideView>): seq<ExtractedElement> {
    if vs == [] then [] else ContentElements(vs[0].content) + ElementsOf(vs[1..])
  }

  lemma {:induction false} ElementsOfAppend(a: seq<P.SlideView>, b: seq<P.SlideView>)
    ensures ElementsOf(a + b) == ElementsOf(a) + ElementsOf(b)
  {
    if a == [] {
      assert a + b == b;
    } else {
      assert (a + b)[1..] == a[1..] + b;
      ElementsOfAppend(a[1..], b);
    }
  }

  /** Slides holding the batches one by one hold their concatenation. */
  lemma {:induction false} ElementsOfBatched(vs: seq<P.SlideView>, bs: seq<seq<ExtractedElement>>)
    requires |vs| == |bs| && forall k | 0 <= k < |bs| :: vs[k].content == P.Elements(bs[k])
    ensures ElementsOf(vs) == Flatten(bs)
  {
    if bs != [] {
      ElementsOfBatched(vs[1..], bs[1..]);
    }
  }

  lemma ElementsOfBatchViews(bs: seq<seq<ExtractedElement>>, prefix: string, start: int)
    requires AllNonEmpty(bs)
    ensures ElementsOf(BatchViews(bs, prefix, start)) == Flatten(bs)
  {
    ElementsOfBatched(BatchViews(bs, prefix, start), bs);
  }

  /** The slides of `organize_elements` for a positive batch size: the
      singles, then one slide per batch of small elements. */
  lemma OrganizeElementsParts(es: seq<ExtractedElement>, threshold: int, maxPer: int, prefix: string)
    requires es != [] && maxPer > 0
    ensures OrganizeElementsViews(es, threshold, maxPer, prefix)
      == Ok(BatchViews(Singletons(LargeElements(es, threshold)), prefix, 0)
            + BatchViews(Batches(SmallElements(es, threshold), maxPer), prefix, |LargeElements(es, threshold)|))
  {
  }

  /** For a positive batch size there are `L + ceil(S / maxPer)` slides,
      and the slide at position `p` is numbered `2 * p`. */
  lemma OrganizeElementsCount(es: seq<ExtractedElement>, threshold: int, maxPer: int, prefix: string)
    requires es != [] && maxPer > 0
    ensures var r := OrganizeElementsViews(es, threshold, maxPer, prefix);
      && r.Ok?
      && |r.value| == |LargeElements(es, threshold)| + (|SmallElements(es, threshold)| + maxPer - 1) / maxPer
      && forall p | 0 <= p < |r.value| :: r.value[p].sequenceNumber == 2 * p
  {
    OrganizeElementsParts(es, threshold, maxPer, prefix);
    BatchCount(SmallElements(es, threshold), maxPer);
  }

  /** For a positive batch size the slides hold the large elements, then
      the small ones, each input element exactly once. */
  lemma OrganizeElementsContents(es: seq<ExtractedElement>, threshold: int, maxPer: int, prefix: string)
    requires es != [] && maxPer > 0
    ensures var r := OrganizeElementsViews(es, threshold, maxPer, prefix);
      && r.Ok?
      && ElementsOf(r.value) == LargeElements(es, threshold) + SmallElements(es, threshold)
      && multiset(ElementsOf(r.value)) == multiset(es)
  {
    var large := LargeElements(es, threshold);
    var small := SmallElements(es, threshold);
    var singles: seq<P.SlideView> := BatchViews(Singletons(large), prefix, 0);
    var batches := Batches(small, maxPer);
    var rest: seq<P.SlideView> := BatchViews(batches, prefix, |large|);
    OrganizeElementsParts(es, threshold, maxPer, prefix);
    ElementsOfAppend(singles, rest);
    ElementsOfBatchViews(Singletons(large), prefix, 0);
    FlattenSingletons(large);
    ElementsOfBatchViews(batches, prefix, |large|);
    BatchesFlatten(small, maxPer);
    PartitionBySize(es, threshold);
  }

  /** Batch slide `k` holds batch `k`. */
  lemma BatchViewsContents(bs: seq<seq<ExtractedElement>>, prefix: string, start: int)
    requires AllNonEmpty(bs)
    ensures forall k | 0 <= k < |bs| :: ContentElements(BatchViews(bs, prefix, start)[k].content) == bs[k]
  {
  }

  /** For a positive batch size each of the first `L` slides holds one
      large element. */
  lemma OrganizeElementsLarge(es: seq<ExtractedElement>, threshold: int, maxPer: int, prefix: string)
    requires es != [] && maxPer > 0
    ensures var r := OrganizeElementsViews(es, threshold, maxPer, prefix);
      var large := LargeElements(es, threshold);
      && r.Ok? && |large| <= |r.value|
      && forall p | 0 <= p < |large| :: ContentElements(r.value[p].content) == [large[p]]
  {
    var large := LargeElements(es, threshold);
    var singles: seq<P.SlideView> := BatchViews(Singletons(large), prefix, 0);
    var rest: seq<P.SlideView> := BatchViews(Batches(SmallElements(es, threshold), maxPer), prefix, |large|);
    OrganizeElementsParts(es, threshold, maxPer, prefix);
    BatchViewsContents(Singletons(large), prefix, 0);
    assert forall p | 0 <= p < |large| :: (singles + rest)[p] == singles[p];
  }

  /** For a positive batch size each slide after the large ones holds
      between one and `maxPer` small elements. */
  lemma OrganizeElementsSmall(es: seq<ExtractedElement>, threshold: int, maxPer: int, prefix: string)
    requires es != [] && maxPer > 0
    ensures var r := OrganizeElementsViews(es, threshold, maxPer, prefix);
      var large := LargeElements(es, threshold);
      && r.Ok? && |large| <= |r.value|
      && forall p | |large| <= p < |r.value| ::
           0 < |ContentElements(r.value[p].content)| <= maxPer
           && forall e | e in ContentElements(r.value[p].content) :: !IsLarge(e, threshold)
  {
    var large := LargeElements(es, threshold);
    var small := SmallElements(es, threshold);
    var batches := Batches(small, maxPer);
    var singles: seq<P.SlideView> := BatchViews(Singletons(large), prefix, 0);
    var rest: seq<P.SlideView> := BatchViews(batches, prefix, |large|);
    OrganizeElementsParts(es, threshold, maxPer, prefix);
    BatchViewsContents(batches, prefix, |large|);
    BatchesFlatten(small, maxPer);
    forall p | |large| <= p < |singles + rest|
      ensures 0 < |ContentElements((singles + rest)[p].content)| <= maxPer
      ensures forall e | e in ContentElements((singles + rest)[p].content) :: !IsLarge(e, threshold)
    {
      var k := p - |large|;
      assert (singles + rest)[p] == rest[k];
      FlattenMembers(batches, k);
    }
  }

  /** A negative batch size leaves only the large elements' slides. */
  lemma OrganizeElementsNegative(es: seq<ExtractedElement>, threshold: int, maxPer: int, prefix: string)
    requires es != [] && maxPer < 0
    ensures var r := OrganizeElementsViews(es, threshold, maxPer, prefix);
      r.Ok? && ElementsOf(r.value) == LargeElements(es, threshold)
      && |r.value| == |LargeElements(es, threshold)|
  {
    var large := LargeElements(es, threshold);
    ElementsOfBatchViews(Singletons(large), prefix, 0);
    FlattenSingletons(large);
  }

  /** Each batch's elements occur in the concatenation. */
  lemma {:induction false} FlattenMembers<T>(bs: seq<seq<T>>, k: nat)
    requires k < |bs|
    ensures forall x | x in bs[k] :: x in Flatten(bs)
  {
    if k > 0 {
      FlattenMembers(bs[1..], k - 1);
    }
  }

  // ------------------------------------------------------------ element slides of a section

  function Min(a: int, b: int): int {
    if a <= b then a else b
  }

  /** The title in `_create_element_slides` of the batch starting at index
      `i` of `n` elements: a single element's caption or
      `"{section} - {Type}"`, else `"{section} - {Type}s {i+1}-{end}"`. */
  function RangeTitle(batch: seq<ExtractedElement>, ct: P.SlideContentType, sectionTitle: string, i: int, n: int)
    : (r: string)
    requires batch != []
    ensures r != []
  {
    var typeName := TitleWord(ContentTypeValue(ct));
    if |batch| == 1 then CaptionOr(batch[0], sectionTitle + " - " + typeName)
    else sectionTitle + " - " + typeName + "s " + IntToString(i + 1) + "-" + IntToString(Min(i + |batch|, n))
  }

  /** One slide per batch of `size`, batch `k` numbered `2 * k`. */
  function RangeViews(bs: seq<seq<ExtractedElement>>, ct: P.SlideContentType, sectionTitle: string, size: nat, n: int)
    : (vs: seq<P.SlideView>)
    requires AllNonEmpty(bs)
    ensures |vs| == |bs|
  {
    seq(|bs|, k requires 0 <= k < |bs| => RangeView(bs[k], ct, sectionTitle, k * size, n, 2 * k))
  }

  /** The slide of the batch starting at element `i` of `n`. */
  function RangeView(batch: seq<ExtractedElement>, ct: P.SlideContentType, sectionTitle: string, i: int, n: int, seqNo: int)
    : (v: P.SlideView)
    requires batch != []
    ensures v.contentType == ct && v.content == P.Elements(batch) && v.title != []
  {
    P.SlideView(RangeTitle(batch, ct, sectionTitle, i, n), ct, P.Elements(batch), seqNo, None)
  }

  /** `_create_element_slides`: the batches' slides, or the error of a zero
      batch size (raised even for no elements); none for a negative size. */
  function ElementSlideViews(es: seq<ExtractedElement>, ct: P.SlideContentType, sectionTitle: string, maxPer: int)
    : (r: Result<seq<P.SlideView>>)
    ensures r.Err? <==> maxPer == 0
    ensures r.Err? ==> r == Err(ValueError, RangeStepMessage)
    ensures maxPer < 0 || es == [] ==> r.Ok? ==> r.value == []
  {
    if maxPer == 0 then Err(ValueError, RangeStepMessage)
    else if maxPer < 0 then Ok([])
    else Ok(RangeViews(Batches(es, maxPer), ct, sectionTitle, maxPer, |es|))
  }

  /** For a positive batch size the element slides hold every element once,
      in order, in `ceil(n / maxPer)` slides of the given type numbered
      `0, 2, 4, ...`. */
  lemma ElementSlidesLayout(es: seq<ExtractedElement>, ct: P.SlideContentType, sectionTitle: string, maxPer: int)
    requires maxPer > 0
    ensures var r := ElementSlideViews(es, ct, sectionTitle, maxPer);
      && r.Ok?
      && ElementsOf(r.value) == es
      && |r.value| == (|es| + maxPer - 1) / maxPer
      && forall k | 0 <= k < |r.value| :: r.value[k].sequenceNumber == 2 * k && r.value[k].contentType == ct
  {
    var bs := Batches(es, maxPer);
    ElementsOfBatched(RangeViews(bs, ct, sectionTitle, maxPer, |es|), bs);
    BatchesFlatten(es, maxPer);
    BatchCount(es, maxPer);
  }

  // ------------------------------------------------------------ section slides

  function OfType(t: ElementType): ExtractedElement -> bool {
    (e: ExtractedElement) => e.elementType == t
  }

  /** The section's elements of one type, in order. */
  function ElementsOfType(es: seq<ExtractedElement>, t: ElementType): seq<ExtractedElement> {
    Filter(es, OfType(t))
  }

  /** The header slide: the section title over its first 500 characters. */
  function HeaderViews(s: PaperSection): (vs: seq<P.SlideView>)
    ensures |vs| <= 1
  {
    if s.title != [] then [P.SlideView(s.title, P.TEXT, P.Text(Take(s.content, 500)), 0, None)] else []
  }

  /** The text slide of a section without elements: its first 1000
      characters, numbered by the slides already made. */
  function TextViews(s: PaperSection, made: int): (vs: seq<P.SlideView>)
    ensures |vs| <= 1
  {
    if s.elements == [] && s.content != [] then
      [P.SlideView(OrElse(s.title, "Content"), P.TEXT, P.Text(Take(s.content, 1000)), made, None)]
    else []
  }

  /** The title fallback of each element type's slides. */
  function TypeFallback(t: ElementType): string {
    match t
    case FIGURE => "Figure"
    case TABLE => "Table"
    case EQUATION => "Equation"
  }

  /** The slides of one element type of a section. */
  function TypeSlides(s: PaperSection, t: ElementType, maxPer: int): (r: Result<seq<P.SlideView>>)
    ensures r.Err? <==> maxPer == 0
  {
    ElementSlideViews(ElementsOfType(s.elements, t), SlideTypeOf(t), OrElse(s.title, TypeFallback(t)), maxPer)
  }

  /** The header and element slides of a section, before any text slide. */
  function SectionMade(s: PaperSection, maxPer: int): seq<P.SlideView>
    requires maxPer != 0
  {
    HeaderViews(s) + TypeSlides(s, FIGURE, maxPer).value + TypeSlides(s, TABLE, maxPer).value
    + TypeSlides(s, EQUATION, maxPer).value
  }

  /** `_create_section_slides`: a header, the figure, table and equation
      slides, then a text slide when there are no elements. A zero batch
      size fails at the figures, which are built first, with the error every
      type would give. */
  function SectionViews(s: PaperSection, maxPer: int): (r: Result<seq<P.SlideView>>)
    ensures r.Err? <==> maxPer == 0
    ensures r.Err? ==> r == Err(ValueError, RangeStepMessage)
  {
    if maxPer == 0 then Err(ValueError, RangeStepMessage)
    else
      var made := SectionMade(s, maxPer);
      Ok(made + TextViews(s, |made|))
  }

  /** Each element has exactly one of the three types. */
  lemma {:induction false} SplitByType(es: seq<ExtractedElement>)
    ensures multiset(ElementsOfType(es, FIGURE)) + multiset(ElementsOfType(es, TABLE))
            + multiset(ElementsOfType(es, EQUATION)) == multiset(es)
  {
    if es != [] {
      var init, last := es[..|es| - 1], es[|es| - 1];
      SplitByType(init);
      assert es == init + [last];
      assert multiset(es) == multiset(init) + multiset{last};
      assert ElementsOfType(es, FIGURE) == ElementsOfType(init, FIGURE) + (if last.elementType == FIGURE then [last] else []);
      assert ElementsOfType(es, TABLE) == ElementsOfType(init, TABLE) + (if last.elementType == TABLE then [last] else []);
      assert ElementsOfType(es, EQUATION) == ElementsOfType(init, EQUATION) + (if last.elementType == EQUATION then [last] else []);
    }
  }

  lemma ElementsOfTexts(s: PaperSection, made: int)
    ensures ElementsOf(HeaderViews(s)) == [] && ElementsOf(TextViews(s, made)) == []
  {
  }

  /** The slides of one type hold the section's elements of that type. */
  lemma TypeSlidesContents(s: PaperSection, t: ElementType, maxPer: int)
    requires maxPer > 0
    ensures TypeSlides(s, t, maxPer).Ok?
    ensures ElementsOf(TypeSlides(s, t, maxPer).value) == ElementsOfType(s.elements, t)
  {
    ElementSlidesLayout(ElementsOfType(s.elements, t), SlideTypeOf(t), OrElse(s.title, TypeFallback(t)), maxPer);
  }

  /** Slides without elements around three groups add nothing. */
  lemma ElementsOfMiddle(h: seq<P.SlideView>, a: seq<P.SlideView>, b: seq<P.SlideView>, c: seq<P.SlideView>,
                         x: seq<P.SlideView>)
    requires ElementsOf(h) == [] && ElementsOf(x) == []
    ensures ElementsOf(h + a + b + c + x) == ElementsOf(a) + ElementsOf(b) + ElementsOf(c)
  {
    ElementsOfThree(h + a, b, c);
    ElementsOfAppend(h + a + b + c, x);
    ElementsOfAppend(h, a);
    assert ElementsOf(h + a) == ElementsOf(a);
  }

  lemma ElementsOfThree(a: seq<P.SlideView>, b: seq<P.SlideView>, c: seq<P.SlideView>)
    ensures ElementsOf(a + b + c) == ElementsOf(a) + ElementsOf(b) + ElementsOf(c)
  {
    ElementsOfAppend(a + b, c);
    ElementsOfAppend(a, b);
  }

  /** For a positive batch size a section's slides hold its figures, then
      its tables, then its equations. */
  lemma SectionElements(s: PaperSection, maxPer: int)
    requires maxPer > 0
    ensures SectionViews(s, maxPer).Ok?
    ensures ElementsOf(SectionViews(s, maxPer).value)
      == ElementsOfType(s.elements, FIGURE) + ElementsOfType(s.elements, TABLE) + ElementsOfType(s.elements, EQUATION)
  {
    TypeSlidesContents(s, FIGURE, maxPer);
    TypeSlidesContents(s, TABLE, maxPer);
    TypeSlidesContents(s, EQUATION, maxPer);
    var made := SectionMade(s, maxPer);
    var text := TextViews(s, |made|);
    ElementsOfTexts(s, |made|);
    ElementsOfMiddle(HeaderViews(s), TypeSlides(s, FIGURE, maxPer).value, TypeSlides(s, TABLE, maxPer).value,
                     TypeSlides(s, EQUATION, maxPer).value, text);
  }

  /** ... and so every element of the section exactly once. */
  lemma SectionContents(s: PaperSection, maxPer: int)
    requires maxPer > 0
    ensures SectionViews(s, maxPer).Ok?
    ensures multiset(ElementsOf(SectionViews(s, maxPer).value)) == multiset(s.elements)
  {
    SectionElements(s, maxPer);
    SplitByType(s.elements);
  }

  /** A section without elements but with content gets its header (when
      titled) and one text slide, numbered after the header. */
  lemma SectionWithoutElements(s: PaperSection, maxPer: int)
    requires maxPer != 0 && s.elements == [] && s.content != []
    ensures var r := SectionViews(s, maxPer);
      && r.Ok?
      && r.value == HeaderViews(s)
                    + [P.SlideView(OrElse(s.title, "Content"), P.TEXT, P.Text(Take(s.content, 1000)), |HeaderViews(s)|, None)]
  {
    assert ElementsOfType([], FIGURE) == [];
    assert ElementsOfType([], TABLE) == [];
    assert ElementsOfType([], EQUATION) == [];
  }

  // ------------------------------------------------------------ title, outline, presentation

  const SlideTitleMessage := "Slide title must not be empty"

  /** The title slide's text: the authors joined by commas, or "Unknown Author". */
  function AuthorsLine(authors: seq<string>): string {
    "Authors: " + (if authors != [] then Join(authors, ", ") else "Unknown Author")
  }

  /** `_create_title_slide`: the paper title over the authors line; a
      missing or empty title is rejected by `Slide`. */
  function TitleSlideView(title: Option<string>, authors: seq<string>): (r: Result<P.SlideView>)
    ensures r.Err? <==> title.None? || title.value == []
    ensures r.Err? ==> r == Err(ValueError, SlideTitleMessage)
    ensures r.Ok? ==> r.value.title == title.value && r.value.sequenceNumber == 0
                      && r.value.content == P.Text(AuthorsLine(authors))
  {
    if title.None? || title.value == [] then Err(ValueError, SlideTitleMessage)
    else Ok(P.SlideView(title.value, P.TEXT, P.Text(AuthorsLine(authors)), 0, None))
  }

  predicate NonEmptyTitle(t: string) {
    t != []
  }

  /** The section titles, in order. */
  function SectionTitles(sections: seq<PaperSection>): (ts: seq<string>)
    ensures |ts| == |sections|
    ensures forall i | 0 <= i < |sections| :: ts[i] == sections[i].title
  {
    seq(|sections|, i requires 0 <= i < |sections| => sections[i].title)
  }

  /** The outline items: the non-empty section titles, in section order. */
  function OutlineItems(sections: seq<PaperSection>): (items: seq<string>)
    ensures IsSubseq(items, SectionTitles(sections))
    ensures forall t | t in items :: t != []
    ensures forall i | 0 <= i < |sections| && sections[i].title != [] :: sections[i].title in items
  {
    Filter(SectionTitles(sections), NonEmptyTitle)
  }

  /** `_create_outline_slide`. */
  function OutlineView(sections: seq<PaperSection>): P.SlideView {
    P.SlideView("Outline", P.ITEMIZE, P.Items(OutlineItems(sections)), 1, None)
  }

  /** The section slides of every section in order, or the first error. */
  function SectionsViews(sections: seq<PaperSection>, maxPer: int): (r: Result<seq<P.SlideView>>)
    ensures sections != [] ==> (r.Err? <==> maxPer == 0)
    ensures r.Err? ==> r == Err(ValueError, RangeStepMessage)
    ensures sections == [] ==> r == Ok([])
  {
    if sections == [] then Ok([])
    else
      match SectionsViews(sections[..|sections| - 1], maxPer)
      case Err(k, m) => Err(k, m)
      case Ok(a) =>
        match SectionViews(sections[|sections| - 1], maxPer)
        case Err(k, m) => Err(k, m)
        case Ok(b) => Ok(a + b)
  }

  /** The slides `organize` hands to `Presentation`: the title slide, the
      outline slide, then the sections' slides. */
  function OrganizeViews(title: Option<string>, authors: seq<string>, sections: seq<PaperSection>,
                         createTitle: bool, createOutline: bool, maxPer: int): (r: Result<seq<P.SlideView>>)
    ensures createTitle && (title.None? || title.value == []) ==> r == Err(ValueError, SlideTitleMessage)
    ensures r.Ok? && createTitle ==> r.value != [] && r.value[0] == TitleSlideView(title, authors).value
    ensures r.Ok? && createOutline ==> |r.value| > (if createTitle then 1 else 0)
                                       && r.value[if createTitle then 1 else 0] == OutlineView(sections)
  {
    var head: Result<seq<P.SlideView>> :=
      if !createTitle then Ok([])
      else match TitleSlideView(title, authors)
        case Err(k, m) => Err(k, m)
        case Ok(v) => Ok([v]);
    match head
    case Err(k, m) => Err(k, m)
    case Ok(h) =>
      match SectionsViews(sections, maxPer)
      case Err(k, m) => Err(k, m)
      case Ok(body) => Ok(h + (if createOutline then [OutlineView(sections)] else []) + body)
  }

  /** Extending the sections by one extends their slides by the new
      section's, or fails as that section does. */
  lemma SectionsViewsSnoc(sections: seq<PaperSection>, k: nat, maxPer: int, done: seq<P.SlideView>)
    requires k < |sections| && SectionsViews(sections[..k], maxPer) == Ok(done)
    ensures SectionViews(sections[k], maxPer).Ok? ==>
      SectionsViews(sections[..k + 1], maxPer) == Ok(done + SectionViews(sections[k], maxPer).value)
  {
    PrefixSnoc(sections, k);
  }

  /** The slides of `organize` are its front slides followed by the
      sections' slides. */
  lemma OrganizeViewsSplit(title: Option<string>, authors: seq<string>, sections: seq<PaperSection>,
                           createTitle: bool, createOutline: bool, maxPer: int, front: seq<P.SlideView>)
    requires !createTitle || TitleSlideView(title, authors).Ok?
    requires front == (if createTitle then [TitleSlideView(title, authors).value] else [])
                      + (if createOutline then [OutlineView(sections)] else [])
    ensures var spec := OrganizeViews(title, authors, sections, createTitle, createOutline, maxPer);
      && (spec.Err? <==> SectionsViews(sections, maxPer).Err?)
      && (spec.Err? ==> spec == Err(ValueError, RangeStepMessage))
      && (spec.Ok? ==> spec.value == front + SectionsViews(sections, maxPer).value)
  {
  }

  /** `paper.title or "Untitled"`. */
  function PresentationTitle(title: Option<string>): (r: string)
    ensures r != []
  {
    if title.Some? && title.value != [] then title.value else "Untitled"
  }

  /** The first author, or "Unknown". */
  function PresentationAuthor(authors: seq<string>): string {
    if authors != [] then authors[0] else "Unknown"
  }

  const DefaultTheme := "Madrid"

  // ------------------------------------------------------------ the organizer

  lemma ViewsSnoc(ss: seq<P.Slide>, s: P.Slide)
    ensures P.Views(ss + [s]) == P.Views(ss) + [s.View()]
  {
  }

  lemma ViewsAppend(a: seq<P.Slide>, b: seq<P.Slide>)
    ensures P.Views(a + b) == P.Views(a) + P.Views(b)
  {
  }

  /** The first loop of `organize_elements`: large and small elements, in order. */
  method SplitBySize(elements: seq<ExtractedElement>, threshold: int)
    returns (large: seq<ExtractedElement>, small: seq<ExtractedElement>)
    ensures large == LargeElements(elements, threshold)
    ensures small == SmallElements(elements, threshold)
  {
    large, small := [], [];
    for i := 0 to |elements|
      invariant large == Filter(elements[..i], LargeTest(threshold))
      invariant small == Filter(elements[..i], SmallTest(threshold))
    {
      assert elements[..i + 1][..i] == elements[..i];
      var e := elements[i];
      if e.boundingBox.width >= threshold as real || e.boundingBox.height >= threshold as real {
        large := large + [e];
      } else {
        small := small + [e];
      }
    }
    assert elements[..|elements|] == elements;
  }

  /** The second loop of `organize_elements`: a slide per large element,
      numbered from the growing list. */
  method SingleSlides(large: seq<ExtractedElement>, prefix: string) returns (slides: seq<P.Slide>)
    ensures P.Views(slides) == BatchViews(Singletons(large), prefix, 0)
  {
    ghost var spec := BatchViews(Singletons(large), prefix, 0);
    slides := [];
    for idx := 0 to |large|
      invariant |slides| == idx
      invariant forall j | 0 <= j < idx :: slides[j].View() == spec[j]
    {
      var e := large[idx];
      var title := CaptionOr(e, prefix + " - " + TitleWord(ElementTypeValue(e.elementType)));
      var s := new P.Slide(title, SlideTypeOf(e.elementType), P.Elements([e]), |slides| + idx);
      slides := slides + [s];
    }
  }

  /** One small-element slide of `organize_elements`: the batch's caption or
      type title, the first element's slide type, and number `2 * p`. */
  method BatchSlide(batch: seq<ExtractedElement>, prefix: string, seqNo: int, ghost p: int) returns (s: P.Slide)
    requires batch != [] && seqNo == 2 * p
    ensures fresh(s)
    ensures s.View() == BatchView(batch, prefix, p)
  {
    var typeName := TitleWord(ElementTypeValue(batch[0].elementType));
    var title := if |batch| == 1 then CaptionOr(batch[0], prefix + " - " + typeName) else prefix + " - " + typeName + "s";
    s := new P.Slide(title, SlideTypeOf(batch[0].elementType), P.Elements(batch), seqNo);
  }

  /** One pass of the third loop of `organize_elements`: the slide of
      batch `b`, the slice starting at `i`, numbered
      `len(slides) + len(large) + i // size`, appended. */
  method AppendStep(small: seq<ExtractedElement>, prefix: string, largeCount: nat, size: nat,
                    out: seq<P.Slide>, i: nat, ghost b: nat)
    returns (out2: seq<P.Slide>)
    requires size > 0 && i < |small| && i / size == b && |out| == largeCount + b && b < |Batches(small, size)|
    requires Batches(small, size)[b] == small[i..if i + size <= |small| then i + size else |small|]
    requires forall j | 0 <= j < b :: out[largeCount + j].View() == BatchViews(Batches(small, size), prefix, largeCount)[j]
    ensures |out2| == largeCount + b + 1 && out2[..|out|] == out
    ensures forall j | 0 <= j < b + 1 :: out2[largeCount + j].View() == BatchViews(Batches(small, size), prefix, largeCount)[j]
  {
    var end := if i + size <= |small| then i + size else |small|;
    var s := BatchSlide(small[i..end], prefix, |out| + largeCount + i / size, largeCount + b);
    out2 := out + [s];
  }

  /** The third loop of `organize_elements`: the small elements in batches
      of `size`, appended after the large elements' slides. */
  method AppendBatches(slides: seq<P.Slide>, small: seq<ExtractedElement>, largeCount: nat, prefix: string, size: nat)
    returns (out: seq<P.Slide>)
    requires size > 0 && |slides| == largeCount
    ensures P.Views(out) == P.Views(slides) + BatchViews(Batches(small, size), prefix, largeCount)
  {
    ghost var bs := Batches(small, size);
    ghost var b: nat := 0;
    StrideStart(small, size);
    out := slides;
    var i := 0;
    while i < |small|
      invariant b <= |bs| && i == b * size
      invariant b < |bs| <==> i < |small|
      invariant |out| == largeCount + b && out[..largeCount] == slides
      invariant forall j | 0 <= j < b :: out[largeCount + j].View() == BatchViews(bs, prefix, largeCount)[j]
      decreases |small| - i
    {
      StrideStep(small, size, b);
      ghost var prev := out;
      out := AppendStep(small, prefix, largeCount, size, out, i, b);
      assert out[..largeCount] == prev[..largeCount];
      i := i + size;
      b := b + 1;
    }
    ViewsMatchAfter(out, slides, BatchViews(bs, prefix, largeCount));
  }

  /** Slides that start with `slides` and whose views go on, one by one, as
      the given views. */
  lemma ViewsMatchAfter(out: seq<P.Slide>, slides: seq<P.Slide>, spec: seq<P.SlideView>)
    requires |out| == |slides| + |spec| && out[..|slides|] == slides
    requires forall j | 0 <= j < |spec| :: out[|slides| + j].View() == spec[j]
    ensures P.Views(out) == P.Views(slides) + spec
  {
    assert forall j | 0 <= j < |slides| :: out[j] == slides[j];
  }

  /** The slides of section `k` after those of the sections before extend
      the views of the sections before by the section's views. */
  lemma SectionStep(out: seq<P.Slide>, add: seq<P.Slide>, front: seq<P.SlideView>, sections: seq<PaperSection>,
                    k: nat, maxPer: int, done: seq<P.SlideView>)
    requires k < |sections| && SectionsViews(sections[..k], maxPer) == Ok(done)
    requires P.Views(out) == front + done
    requires SectionViews(sections[k], maxPer).Ok? && P.Views(add) == SectionViews(sections[k], maxPer).value
    ensures SectionsViews(sections[..k + 1], maxPer) == Ok(done + P.Views(add))
    ensures P.Views(out + add) == front + (done + P.Views(add))
  {
    SectionsViewsSnoc(sections, k, maxPer, done);
    ViewsAppend(out, add);
    AppendAssoc(front, done, P.Views(add));
  }

  /** Slides whose views are, one by one, the given views. */
  lemma ViewsMatch(out: seq<P.Slide>, spec: seq<P.SlideView>)
    requires |out| == |spec| && forall j | 0 <= j < |out| :: out[j].View() == spec[j]
    ensures P.Views(out) == spec
  {
  }

  /** One slide of `_create_element_slides`: the batch starting at element
      `i` of `n`, titled by its caption or its index range. */
  method RangeSlide(batch: seq<ExtractedElement>, ct: P.SlideContentType, sectionTitle: string, i: int, n: int, seqNo: int)
    returns (s: P.Slide)
    requires batch != []
    ensures fresh(s)
    ensures s.View() == RangeView(batch, ct, sectionTitle, i, n, seqNo)
  {
    var typeName := TitleWord(ContentTypeValue(ct));
    var title;
    if |batch| == 1 {
      title := CaptionOr(batch[0], sectionTitle + " - " + typeName);
    } else {
      var startIdx := i + 1;
      var endIdx := Min(i + |batch|, n);
      title := sectionTitle + " - " + typeName + "s " + IntToString(startIdx) + "-" + IntToString(endIdx);
    }
    s := new P.Slide(title, ct, P.Elements(batch), seqNo);
  }

  /** One pass of the loop of `_create_element_slides`: the slide of batch
      `b`, the slice starting at `i`, numbered `len(slides) + i // size`,
      appended. */
  method RangeStep(elements: seq<ExtractedElement>, ct: P.SlideContentType, sectionTitle: string, size: nat,
                   out: seq<P.Slide>, i: nat, ghost b: nat)
    returns (out2: seq<P.Slide>)
    requires size > 0 && i < |elements| && i == b * size && i / size == b && |out| == b && b < |Batches(elements, size)|
    requires Batches(elements, size)[b] == elements[i..if i + size <= |elements| then i + size else |elements|]
    requires forall j | 0 <= j < b :: out[j].View() == RangeViews(Batches(elements, size), ct, sectionTitle, size, |elements|)[j]
    ensures |out2| == b + 1
    ensures forall j | 0 <= j < b + 1 :: out2[j].View() == RangeViews(Batches(elements, size), ct, sectionTitle, size, |elements|)[j]
  {
    var end := if i + size <= |elements| then i + size else |elements|;
    var s := RangeSlide(elements[i..end], ct, sectionTitle, i, |elements|, |out| + i / size);
    out2 := out + [s];
  }

  /** The loop of `_create_element_slides`: batches of `size`, titled with
      their index range. */
  method RangeSlides(elements: seq<ExtractedElement>, ct: P.SlideContentType, sectionTitle: string, size: nat)
    returns (out: seq<P.Slide>)
    requires size > 0
    ensures P.Views(out) == RangeViews(Batches(elements, size), ct, sectionTitle, size, |elements|)
  {
    ghost var bs := Batches(elements, size);
    ghost var b: nat := 0;
    StrideStart(elements, size);
    out := [];
    var i := 0;
    while i < |elements|
      invariant b <= |bs| && i == b * size
      invariant b < |bs| <==> i < |elements|
      invariant |out| == b
      invariant forall j | 0 <= j < b :: out[j].View() == RangeViews(bs, ct, sectionTitle, size, |elements|)[j]
      decreases |elements| - i
    {
      StrideStep(elements, size, b);
      out := RangeStep(elements, ct, sectionTitle, size, out, i, b);
      i := i + size;
      b := b + 1;
    }
    ViewsMatch(out, RangeViews(bs, ct, sectionTitle, size, |elements|));
  }

  /** The outline loop: the non-empty section titles, in order. */
  method OutlineItemsOf(sections: seq<PaperSection>) returns (items: seq<string>)
    ensures items == OutlineItems(sections)
  {
    ghost var titles := SectionTitles(sections);
    items := [];
    for i := 0 to |sections|
      invariant items == Filter(titles[..i], NonEmptyTitle)
    {
      assert titles[..i + 1][..i] == titles[..i];
      if sections[i].title != [] {
        items := items + [sections[i].title];
      }
    }
    assert titles[..|sections|] == titles;
  }

  /** `SlideOrganizer`: its settings are fixed at construction. */
  class SlideOrganizer {
    const maxElementsPerSlide: int
    const createTitleSlide: bool
    const createOutlineSlide: bool
    const largeElementThreshold: int

    constructor (maxElementsPerSlide: int, createTitleSlide: bool, createOutlineSlide: bool,
                 largeElementThreshold: int)
      ensures this.maxElementsPerSlide == maxElementsPerSlide && this.createTitleSlide == createTitleSlide
      ensures this.createOutlineSlide == createOutlineSlide && this.largeElementThreshold == largeElementThreshold
    {
      this.maxElementsPerSlide := maxElementsPerSlide;
      this.createTitleSlide := createTitleSlide;
      this.createOutlineSlide := createOutlineSlide;
      this.largeElementThreshold := largeElementThreshold;
    }

    /** The constructor's defaults: two elements per slide, title and
        outline slides, a threshold of 200. */
    constructor Default()
      ensures maxElementsPerSlide == 2 && createTitleSlide && createOutlineSlide && largeElementThreshold == 200
    {
      maxElementsPerSlide := 2;
      createTitleSlide := true;
      createOutlineSlide := true;
      largeElementThreshold := 200;
    }

    /** `organize_elements`. */
    method OrganizeElements(elements: seq<ExtractedElement>, titlePrefix: string) returns (r: Result<seq<P.Slide>>)
      ensures var spec := OrganizeElementsViews(elements, largeElementThreshold, maxElementsPerSlide, titlePrefix);
        && (r.Err? <==> spec.Err?)
        && (r.Err? ==> r == Err(ValueError, RangeStepMessage))
        && (r.Ok? ==> P.Views(r.value) == spec.value)
    {
      if elements == [] {
        return Ok([]);
      }
      var large, small := SplitBySize(elements, largeElementThreshold);
      var slides := SingleSlides(large, titlePrefix);
      if maxElementsPerSlide == 0 {
        return Err(ValueError, RangeStepMessage);
      }
      if maxElementsPerSlide > 0 {
        slides := AppendBatches(slides, small, |large|, titlePrefix, maxElementsPerSlide);
      }
      return Ok(slides);
    }

    /** `_create_element_slides`. */
    method CreateElementSlides(elements: seq<ExtractedElement>, ct: P.SlideContentType, sectionTitle: string)
      returns (r: Result<seq<P.Slide>>)
      ensures var spec := ElementSlideViews(elements, ct, sectionTitle, maxElementsPerSlide);
        && (r.Err? <==> spec.Err?)
        && (r.Err? ==> r == Err(ValueError, RangeStepMessage))
        && (r.Ok? ==> P.Views(r.value) == spec.value)
    {
      if maxElementsPerSlide == 0 {
        return Err(ValueError, RangeStepMessage);
      }
      if maxElementsPerSlide < 0 {
        return Ok([]);
      }
      var slides := RangeSlides(elements, ct, sectionTitle, maxElementsPerSlide);
      return Ok(slides);
    }

    /** `_create_title_slide`. */
    method CreateTitleSlide(paper: Paper) returns (r: Result<P.Slide>)
      ensures var spec := TitleSlideView(paper.title, paper.authors);
        && (r.Err? <==> spec.Err?)
        && (r.Err? ==> r == Err(ValueError, SlideTitleMessage))
        && (r.Ok? ==> r.value.View() == spec.value)
    {
      var authors := if paper.authors != [] then Join(paper.authors, ", ") else "Unknown Author";
      var title := if paper.title.Some? then paper.title.value else "";
      r := P.Slide.New(title, P.TEXT, P.Text("Authors: " + authors), 0);
    }

    /** `_create_outline_slide`. */
    method CreateOutlineSlide(paper: Paper) returns (s: P.Slide)
      ensures s.View() == OutlineView(paper.sections)
    {
      var items := OutlineItemsOf(paper.sections);
      s := new P.Slide("Outline", P.ITEMIZE, P.Items(items), 1);
    }

    /** The slides of one element type of a section, after `slides`. */
    method AppendTypeSlides(slides: seq<P.Slide>, section: PaperSection, t: ElementType)
      returns (r: seq<P.Slide>)
      requires maxElementsPerSlide != 0
      ensures P.Views(r) == P.Views(slides) + TypeSlides(section, t, maxElementsPerSlide).value
    {
      var made := CreateElementSlides(ElementsOfType(section.elements, t), SlideTypeOf(t),
                                      OrElse(section.title, TypeFallback(t)));
      ViewsAppend(slides, made.value);
      r := slides + made.value;
    }

    /** `_create_section_slides`. */
    method CreateSectionSlides(section: PaperSection) returns (r: Result<seq<P.Slide>>)
      ensures r.Err? <==> maxElementsPerSlide == 0
      ensures r.Err? ==> r == Err(ValueError, RangeStepMessage)
      ensures r.Ok? ==> SectionViews(section, maxElementsPerSlide).Ok?
                        && P.Views(r.value) == SectionViews(section, maxElementsPerSlide).value
    {
      var slides: seq<P.Slide> := [];
      if section.title != [] {
        var header := new P.Slide(section.title, P.TEXT, P.Text(Take(section.content, 500)), |slides|);
        slides := [header];
      }
      assert P.Views(slides) == HeaderViews(section);
      var figures := CreateElementSlides(ElementsOfType(section.elements, FIGURE), SlideTypeOf(FIGURE),
                                         OrElse(section.title, TypeFallback(FIGURE)));
      if figures.Err? {
        return Err(figures.kind, figures.message);
      }
      ViewsAppend(slides, figures.value);
      slides := slides + figures.value;
      slides := AppendTypeSlides(slides, section, TABLE);
      slides := AppendTypeSlides(slides, section, EQUATION);
      assert P.Views(slides) == SectionMade(section, maxElementsPerSlide);
      if section.elements == [] && section.content != [] {
        var text := new P.Slide(OrElse(section.title, "Content"), P.TEXT, P.Text(Take(section.content, 1000)), |slides|);
        ViewsSnoc(slides, text);
        slides := slides + [text];
      }
      return Ok(slides);
    }

    /** One pass of the section loop of `organize`: the slides of section
        `k` after the slides so far, whose views are the views `front`
        followed by those of the sections before, `done`. */
    method AddSection(out: seq<P.Slide>, ghost front: seq<P.SlideView>, sections: seq<PaperSection>, k: nat,
                      ghost done: seq<P.SlideView>)
      returns (r: Result<seq<P.Slide>>, ghost done2: seq<P.SlideView>)
      requires k < |sections| && SectionsViews(sections[..k], maxElementsPerSlide) == Ok(done)
      requires P.Views(out) == front + done
      ensures r.Err? <==> maxElementsPerSlide == 0
      ensures r.Err? ==> r == Err(ValueError, RangeStepMessage)
      ensures r.Ok? ==> SectionsViews(sections[..k + 1], maxElementsPerSlide) == Ok(done2)
      ensures r.Ok? ==> P.Views(r.value) == front + done2
    {
      done2 := done;
      var sectionSlides := CreateSectionSlides(sections[k]);
      if sectionSlides.Err? {
        return Err(sectionSlides.kind, sectionSlides.message), done2;
      }
      SectionStep(out, sectionSlides.value, front, sections, k, maxElementsPerSlide, done);
      r := Ok(out + sectionSlides.value);
      done2 := done + P.Views(sectionSlides.value);
    }

    /** The section loop of `organize`: every section's slides after
        `slides`, whose views are `front`. */
    method AddSections(slides: seq<P.Slide>, ghost front: seq<P.SlideView>, sections: seq<PaperSection>)
      returns (r: Result<seq<P.Slide>>)
      requires P.Views(slides) == front
      ensures r.Err? <==> sections != [] && maxElementsPerSlide == 0
      ensures r.Err? ==> r == Err(ValueError, RangeStepMessage)
      ensures r.Ok? ==> SectionsViews(sections, maxElementsPerSlide).Ok?
                        && P.Views(r.value) == front + SectionsViews(sections, maxElementsPerSlide).value
    {
      var out := slides;
      ghost var done: seq<P.SlideView> := [];
      assert sections[..0] == [];
      assert front + done == front;
      var k := 0;
      while k < |sections|
        invariant k <= |sections|
        invariant SectionsViews(sections[..k], maxElementsPerSlide) == Ok(done)
        invariant P.Views(out) == front + done
      {
        var next;
        next, done := AddSection(out, front, sections, k, done);
        if next.Err? {
          return Err(next.kind, next.message);
        }
        out := next.value;
        k := k + 1;
      }
      assert sections[..|sections|] == sections;
      return Ok(out);
    }

    /** The slide list `organize` builds: title and outline slides, then
        every section's slides, or the first error raised on the way. */
    method OrganizeSlides(paper: Paper) returns (r: Result<seq<P.Slide>>)
      ensures var spec := OrganizeViews(paper.title, paper.authors, paper.sections, createTitleSlide,
                                        createOutlineSlide, maxElementsPerSlide);
        && (r.Err? <==> spec.Err?)
        && (spec.Err? ==> r == Err(spec.kind, spec.message))
        && (r.Ok? ==> P.Views(r.value) == spec.value)
    {
      var slides: seq<P.Slide> := [];
      if createTitleSlide {
        var titleSlide := CreateTitleSlide(paper);
        if titleSlide.Err? {
          return Err(titleSlide.kind, titleSlide.message);
        }
        slides := [titleSlide.value];
      }
      if createOutlineSlide {
        var outline := CreateOutlineSlide(paper);
        ViewsSnoc(slides, outline);
        slides := slides + [outline];
      }
      ghost var front := P.Views(slides);
      OrganizeViewsSplit(paper.title, paper.authors, paper.sections, createTitleSlide, createOutlineSlide,
                         maxElementsPerSlide, front);
      r := AddSections(slides, front, paper.sections);
    }

    /** `organize`: the slides, and the presentation built from them with
        the paper's title or "Untitled", its first author or "Unknown", the
        default theme and an empty date. */
    method Organize(paper: Paper) returns (r: Result<P.Presentation>)
      ensures var spec := OrganizeViews(paper.title, paper.authors, paper.sections, createTitleSlide,
                                        createOutlineSlide, maxElementsPerSlide);
        && (spec.Err? ==> r == Err(spec.kind, spec.message))
        && (spec.Ok? && spec.value == [] ==> r == Err(ValueError, "Presentation must have at least one slide"))
        && (r.Ok? <==> spec.Ok? && spec.value != [])
        && (r.Ok? ==> P.Views(r.value.slides) == spec.value && r.value.paper == paper
                      && r.value.title == PresentationTitle(paper.title)
                      && r.value.author == PresentationAuthor(paper.authors)
                      && r.value.theme == DefaultTheme && r.value.date == "")
    {
      var slides := OrganizeSlides(paper);
      if slides.Err? {
        return Err(slides.kind, slides.message);
      }
      var title := if paper.title.Some? && paper.title.value != [] then paper.title.value else "Untitled";
      var author := if paper.authors != [] then paper.authors[0] else "Unknown";
      r := P.Presentation.New(paper, slides.value, DefaultTheme, title, author, "");
    }
  }
}
