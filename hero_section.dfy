/** The home-page hero carousel: one slide per pillar that has an article,
    arrow and pill navigation, a six-second autoplay tick that stops for good
    once the reader navigates, and the "01 / 05" counter. */
module HeroSection {
  import opened Options
  import opened JsText
  import opened JsArray
  import opened Types

  // ---------------------------------------------------------------------
  // The slides
  // ---------------------------------------------------------------------

  /** The pillar names in the fixed order the carousel lists them. */
  const PillarNames: seq<string> :=
    ["Compliance & Regulation", "Technology & Operations", "Practice Management",
     "Client Strategy", "Industry Insights"]

  /** The list is the five pillar names, once each, in declaration order. */
  lemma PillarNamesSpec()
    ensures |PillarNames| == |AllPillars| == 5
    ensures forall i :: 0 <= i < 5 ==> PillarNames[i] == PillarName(AllPillars[i])
    ensures forall i, j :: 0 <= i < j < |PillarNames| ==> PillarNames[i] != PillarNames[j]
    ensures forall s :: IsPillarName(s) <==> s in PillarNames
  {
    PillarsClosed();
  }

  /** The first article carrying the pillar `name`, if any. */
  function FirstOfPillar(articles: seq<Article>, name: string): Option<Article> {
    Find(articles, (a: Article) => a.pillar == name)
  }

  /** `pillars.map(find first article of that pillar).filter(defined)`,
      over the pillar names `names` in order. */
  function FeaturedFrom(articles: seq<Article>, names: seq<string>): seq<Article>
    decreases |names|
  {
    if |names| == 0 then []
    else match FirstOfPillar(articles, names[0])
      case Some(a) => [a] + FeaturedFrom(articles, names[1..])
      case None => FeaturedFrom(articles, names[1..])
  }

  /** The slides of the carousel, in the fixed pillar order. */
  function FeaturedArticles(articles: seq<Article>): seq<Article> {
    FeaturedFrom(articles, PillarNames)
  }

  /** `a` is the first article of its pillar in `articles`. */
  ghost predicate FirstOfItsPillar(articles: seq<Article>, a: Article) {
    exists j :: 0 <= j < |articles| && articles[j] == a &&
      forall l :: 0 <= l < j ==> articles[l].pillar != a.pillar
  }

  lemma FirstOfPillarIsFirst(articles: seq<Article>, name: string)
    requires FirstOfPillar(articles, name).Some?
    ensures var a := FirstOfPillar(articles, name).value;
      a.pillar == name && FirstOfItsPillar(articles, a)
  {
  }

  /** A pillar with an article has a first article. */
  lemma FirstOfPillarFound(articles: seq<Article>, name: string, j: int)
    requires 0 <= j < |articles| && articles[j].pillar == name
    ensures FirstOfPillar(articles, name).Some?
    ensures FirstOfPillar(articles, name).value.pillar == name
  {
    var p := (a: Article) => a.pillar == name;
    assert p(articles[j]);
    FirstOfPillarIsFirst(articles, name);
  }

  /** One step of `FeaturedFrom`: the slide of the first pillar, if it
      has one, then the slides of the others. */
  lemma FeaturedCons(articles: seq<Article>, names: seq<string>)
    requires |names| > 0
    ensures var found := FirstOfPillar(articles, names[0]);
      FeaturedFrom(articles, names) ==
        (if found.Some? then [found.value] else []) + FeaturedFrom(articles, names[1..])
  {
  }

  /** There are at most as many slides as pillars, and each slide is the
      first article of one of them. */
  lemma {:induction false} FeaturedFromPillars(articles: seq<Article>, names: seq<string>)
    ensures |FeaturedFrom(articles, names)| <= |names|
    ensures forall a :: a in FeaturedFrom(articles, names) ==>
      a.pillar in names && FirstOfItsPillar(articles, a)
    decreases |names|
  {
    if |names| > 0 {
      var found := FirstOfPillar(articles, names[0]);
      var head: seq<Article> := if found.Some? then [found.value] else [];
      var rest := FeaturedFrom(articles, names[1..]);
      FeaturedFromPillars(articles, names[1..]);
      FeaturedCons(articles, names);
      if found.Some? {
        FirstOfPillarIsFirst(articles, names[0]);
      }
      forall a | a in head + rest ensures a.pillar in names && FirstOfItsPillar(articles, a) {
        if a in rest {
          assert a.pillar in names[1..];
        }
      }
    }
  }

  /** Some slide of `fs` belongs to the pillar named `name`. */
  ghost predicate HasSlideFor(fs: seq<Article>, name: string) {
    exists k :: 0 <= k < |fs| && fs[k].pillar == name
  }

  lemma HasSlideForAppend(xs: seq<Article>, ys: seq<Article>, name: string)
    requires HasSlideFor(xs, name) || HasSlideFor(ys, name)
    ensures HasSlideFor(xs + ys, name)
  {
    if HasSlideFor(xs, name) {
      var k :| 0 <= k < |xs| && xs[k].pillar == name;
      assert (xs + ys)[k] == xs[k];
    } else {
      var k :| 0 <= k < |ys| && ys[k].pillar == name;
      assert (xs + ys)[|xs| + k] == ys[k];
    }
  }

  /** Every pillar of `names` that has an article has a slide. */
  lemma {:induction false} FeaturedComplete(articles: seq<Article>, names: seq<string>, i: int, j: int)
    requires 0 <= i < |names| && 0 <= j < |articles|
    requires articles[j].pillar == names[i]
    ensures HasSlideFor(FeaturedFrom(articles, names), names[i])
    decreases |names|
  {
    var found := FirstOfPillar(articles, names[0]);
    var head: seq<Article> := if found.Some? then [found.value] else [];
    var rest := FeaturedFrom(articles, names[1..]);
    FeaturedCons(articles, names);
    if i == 0 {
      FirstOfPillarFound(articles, names[0], j);
      assert head[0].pillar == names[i];
    } else {
      assert names[1..][i - 1] == names[i];
      FeaturedComplete(articles, names[1..], i - 1, j);
    }
    HasSlideForAppend(head, rest, names[i]);
  }

  /** No two of `fs` share a pillar. */
  predicate DistinctPillars(fs: seq<Article>) {
    forall k, l :: 0 <= k < l < |fs| ==> fs[k].pillar != fs[l].pillar
  }

  /** A slide whose pillar no later slide has keeps the pillars distinct. */
  lemma DistinctCons(x: seq<Article>, rest: seq<Article>)
    requires |x| <= 1 && DistinctPillars(rest)
    requires forall a, b :: a in x && b in rest ==> a.pillar != b.pillar
    ensures DistinctPillars(x + rest)
  {
    var fs := x + rest;
    forall k, l | 0 <= k < l < |fs| ensures fs[k].pillar != fs[l].pillar {
      assert fs[l] == rest[l - |x|];
      if k < |x| {
        assert fs[k] in x && rest[l - |x|] in rest;
      } else {
        assert fs[k] == rest[k - |x|];
      }
    }
  }

  /** Distinct pillar names give slides with distinct pillars. */
  lemma {:induction false} FeaturedDistinct(articles: seq<Article>, names: seq<string>)
    requires forall i, j :: 0 <= i < j < |names| ==> names[i] != names[j]
    ensures DistinctPillars(FeaturedFrom(articles, names))
    decreases |names|
  {
    if |names| > 0 {
      var found := FirstOfPillar(articles, names[0]);
      var head: seq<Article> := if found.Some? then [found.value] else [];
      var rest := FeaturedFrom(articles, names[1..]);
      assert forall i, j :: 0 <= i < j < |names[1..]| ==>
        names[1..][i] == names[i + 1] && names[1..][j] == names[j + 1];
      FeaturedDistinct(articles, names[1..]);
      FeaturedCons(articles, names);
      FeaturedFromPillars(articles, names[1..]);
      if found.Some? {
        FirstOfPillarIsFirst(articles, names[0]);
        assert names[0] !in names[1..];
      }
      DistinctCons(head, rest);
    }
  }

  /** Where `name` first occurs in `names` (`|names|` when it does not). */
  function PositionIn(names: seq<string>, name: string): (r: nat)
    ensures r <= |names|
    ensures r < |names| <==> name in names
    ensures r < |names| ==> names[r] == name && forall i :: 0 <= i < r ==> names[i] != name
    decreases |names|
  {
    if |names| == 0 then 0
    else if names[0] == name then 0
    else 1 + PositionIn(names[1..], name)
  }

  /** The pillars of `fs` come in the order of `names`. */
  ghost predicate InPillarOrder(fs: seq<Article>, names: seq<string>) {
    forall k, l :: 0 <= k < l < |fs| ==> PositionIn(names, fs[k].pillar) < PositionIn(names, fs[l].pillar)
  }

  /** With distinct pillar names, the slides follow the order of the names. */
  lemma {:induction false} FeaturedInOrder(articles: seq<Article>, names: seq<string>)
    requires forall i, j :: 0 <= i < j < |names| ==> names[i] != names[j]
    ensures InPillarOrder(FeaturedFrom(articles, names), names)
    decreases |names|
  {
    if |names| > 0 {
      var found := FirstOfPillar(articles, names[0]);
      var head: seq<Article> := if found.Some? then [found.value] else [];
      assert forall i, j :: 0 <= i < j < |names[1..]| ==>
        names[1..][i] == names[i + 1] && names[1..][j] == names[j + 1];
      assert names[0] !in names[1..];
      FeaturedInOrder(articles, names[1..]);
      FeaturedCons(articles, names);
      FeaturedFromPillars(articles, names[1..]);
      if found.Some? {
        FirstOfPillarIsFirst(articles, names[0]);
      }
      InOrderCons(head, FeaturedFrom(articles, names[1..]), names);
    }
  }

  /** A slide of the first pillar ahead of slides in the order of the
      other pillars keeps the order. */
  lemma InOrderCons(head: seq<Article>, rest: seq<Article>, names: seq<string>)
    requires |names| > 0 && names[0] !in names[1..]
    requires |head| <= 1 && forall a :: a in head ==> a.pillar == names[0]
    requires forall a :: a in rest ==> a.pillar in names[1..]
    requires InPillarOrder(rest, names[1..])
    ensures InPillarOrder(head + rest, names)
  {
    var fs := head + rest;
    forall k | 0 <= k < |rest|
      ensures PositionIn(names, rest[k].pillar) == 1 + PositionIn(names[1..], rest[k].pillar)
    {
      assert rest[k] in rest;
    }
    forall k, l | 0 <= k < l < |fs|
      ensures PositionIn(names, fs[k].pillar) < PositionIn(names, fs[l].pillar)
    {
      assert fs[l] == rest[l - |head|];
      if k < |head| {
        assert fs[k] in head;
      } else {
        assert fs[k] == rest[k - |head|];
      }
    }
  }

  /** The slides come in the fixed pillar order, whatever the order of the
      loaded articles. */
  lemma FeaturedArticlesInPillarOrder(articles: seq<Article>)
    ensures InPillarOrder(FeaturedArticles(articles), PillarNames)
  {
    PillarNamesSpec();
    FeaturedInOrder(articles, PillarNames);
  }

  /** The carousel shows at most five slides, each of one of the five
      pillars, on distinct pillars, each the first article of its pillar. */
  lemma FeaturedArticlesSpec(articles: seq<Article>)
    ensures |FeaturedArticles(articles)| <= 5
    ensures forall a :: a in FeaturedArticles(articles) ==> IsPillarName(a.pillar)
    ensures DistinctPillars(FeaturedArticles(articles))
    ensures forall a :: a in FeaturedArticles(articles) ==> FirstOfItsPillar(articles, a)
  {
    PillarNamesSpec();
    FeaturedFromPillars(articles, PillarNames);
    FeaturedDistinct(articles, PillarNames);
  }

  /** Every pillar that has a loaded article has its slide. */
  lemma FeaturedArticlesComplete(articles: seq<Article>)
    ensures forall j :: 0 <= j < |articles| && IsPillarName(articles[j].pillar) ==>
      HasSlideFor(FeaturedArticles(articles), articles[j].pillar)
  {
    PillarNamesSpec();
    forall j | 0 <= j < |articles| && IsPillarName(articles[j].pillar)
      ensures HasSlideFor(FeaturedArticles(articles), articles[j].pillar)
    {
      var i :| 0 <= i < |PillarNames| && PillarNames[i] == articles[j].pillar;
      FeaturedComplete(articles, PillarNames, i, j);
    }
  }

  /** Before anything loads there is no slide. */
  lemma NoArticlesNoSlides()
    ensures FeaturedArticles([]) == []
  {
    SlidesFromArticles([]);
  }

  /** At most five slides, each taken from the loaded articles. */
  lemma SlidesFromArticles(articles: seq<Article>)
    ensures |FeaturedArticles(articles)| <= 5
    ensures forall a :: a in FeaturedArticles(articles) ==> a in articles
  {
    FeaturedFromPillars(articles, PillarNames);
    forall a | a in FeaturedArticles(articles) ensures a in articles {
      assert FirstOfItsPillar(articles, a);
    }
  }

  /** `s.split(' ')[0]`: the text before the first space, or all of `s`. */
  function FirstWord(s: string): (w: string)
    ensures |w| <= |s| && w == s[..|w|]
    ensures forall i :: 0 <= i < |w| ==> w[i] != ' '
    ensures |w| < |s| ==> s[|w|] == ' '
  {
    if |s| == 0 || s[0] == ' ' then "" else [s[0]] + FirstWord(s[1..])
  }

  /** The label of a slide's pill: the first word of its pillar. */
  function PillLabel(a: Article): string {
    FirstWord(a.pillar)
  }

  /** The first words of the pillar names, in the same order. */
  const PillWords: seq<string> := ["Compliance", "Technology", "Practice", "Client", "Industry"]

  /** The pill of the i-th pillar reads its first word. */
  lemma PillOf(i: int)
    requires 0 <= i < 5
    ensures FirstWord(PillarNames[i]) == PillWords[i]
  {
    if i == 0 {
      PillOfCompliance();
    } else if i == 1 {
      PillOfTechnology();
    } else if i == 2 {
      PillOfPractice();
    } else if i == 3 {
      PillOfClient();
    } else {
      PillOfIndustry();
    }
  }

  /** The five pillars get five different pill labels, so the pills of the
      slides, whose pillars are distinct, never share a label. */
  lemma PillLabelsDistinct(i: int, j: int)
    requires 0 <= i < j < 5
    ensures FirstWord(PillarNames[i]) != FirstWord(PillarNames[j])
  {
    PillOf(i);
    PillOf(j);
    PillWordsDistinct();
  }

  /** The pills under the carousel carry pairwise different labels. */
  lemma SlidePillsDistinct(articles: seq<Article>)
    ensures var fs := FeaturedArticles(articles);
      forall k, l :: 0 <= k < l < |fs| ==> PillLabel(fs[k]) != PillLabel(fs[l])
  {
    var fs := FeaturedArticles(articles);
    FeaturedArticlesSpec(articles);
    PillarNamesSpec();
    forall k, l | 0 <= k < l < |fs| ensures PillLabel(fs[k]) != PillLabel(fs[l]) {
      assert fs[k] in fs && fs[l] in fs;
      var x :| 0 <= x < 5 && PillarNames[x] == fs[k].pillar;
      var y :| 0 <= y < 5 && PillarNames[y] == fs[l].pillar;
      if x < y {
        PillLabelsDistinct(x, y);
      } else {
        PillLabelsDistinct(y, x);
      }
    }
  }

  /** The five first words differ in their second letter. */
  lemma PillWordsDistinct()
    ensures forall i, j :: 0 <= i < j < 5 ==> PillWords[i] != PillWords[j]
  {
    var second := "oerln";
    assert forall i :: 0 <= i < 5 ==> |PillWords[i]| > 1 && PillWords[i][1] == second[i];
  }

  lemma PillOfCompliance()
    ensures FirstWord(PillarNames[0]) == PillWords[0]
  {
    FirstWordSplit(PillarNames[0], "Compliance", " & Regulation");
  }

  lemma PillOfTechnology()
    ensures FirstWord(PillarNames[1]) == PillWords[1]
  {
    FirstWordSplit(PillarNames[1], "Technology", " & Operations");
  }

  lemma PillOfPractice()
    ensures FirstWord(PillarNames[2]) == PillWords[2]
  {
    FirstWordSplit(PillarNames[2], "Practice", " Management");
  }

  lemma PillOfClient()
    ensures FirstWord(PillarNames[3]) == PillWords[3]
  {
    FirstWordSplit(PillarNames[3], "Client", " Strategy");
  }

  lemma PillOfIndustry()
    ensures FirstWord(PillarNames[4]) == PillWords[4]
  {
    FirstWordSplit(PillarNames[4], "Industry", " Insights");
  }

  /** A name split into a word and a rest starting with a space has that
      word first. */
  lemma FirstWordSplit(name: string, w: string, rest: string)
    requires name == w + rest
    requires forall i :: 0 <= i < |w| ==> w[i] != ' '
    requires |rest| > 0 && rest[0] == ' '
    ensures FirstWord(name) == w
  {
    FirstWordBeforeSpace(w, rest);
  }

  /** A word followed by a space is the first word. */
  lemma {:induction false} FirstWordBeforeSpace(w: string, rest: string)
    requires forall i :: 0 <= i < |w| ==> w[i] != ' '
    requires |rest| > 0 && rest[0] == ' '
    ensures FirstWord(w + rest) == w
    decreases |w|
  {
    if |w| == 0 {
      assert w + rest == rest;
    } else {
      assert (w + rest)[1..] == w[1..] + rest;
      FirstWordBeforeSpace(w[1..], rest);
      assert w == [w[0]] + w[1..];
    }
  }

  // ---------------------------------------------------------------------
  // Navigation
  // ---------------------------------------------------------------------

  /** `(prev + 1) % length`. */
  function NextIndex(i: int, n: int): (r: int)
    requires n > 0
    ensures 0 <= i < n ==> 0 <= r < n
  {
    JsRemainder(i + 1, n)
  }

  /** `(prev - 1 + length) % length`. */
  function PreviousIndex(i: int, n: int): (r: int)
    requires n > 0
    ensures 0 <= i < n ==> 0 <= r < n
  {
    JsRemainder(i - 1 + n, n)
  }

  /** On a slide, the next index is the following slide, wrapping from the
      last to the first, and the previous one is the preceding slide,
      wrapping from the first to the last. */
  lemma Wrapping(i: int, n: int)
    requires 0 <= i < n
    ensures NextIndex(i, n) == if i == n - 1 then 0 else i + 1
    ensures PreviousIndex(i, n) == if i == 0 then n - 1 else i - 1
  {
    JsRemainderOneRound(i + 1, n);
    JsRemainderOneRound(i - 1 + n, n);
  }

  /** The arrows undo each other. */
  lemma NextPreviousInverse(i: int, n: int)
    requires 0 <= i < n
    ensures 0 <= NextIndex(i, n) < n && 0 <= PreviousIndex(i, n) < n
    ensures PreviousIndex(NextIndex(i, n), n) == i
    ensures NextIndex(PreviousIndex(i, n), n) == i
  {
    Wrapping(i, n);
    Wrapping(NextIndex(i, n), n);
    Wrapping(PreviousIndex(i, n), n);
  }

  /** The index after `m` steps forward. */
  function Advance(i: int, n: int, m: nat): int
    requires n > 0
  {
    if m == 0 then i else NextIndex(Advance(i, n, m - 1), n)
  }

  /** Within one round, `m` steps forward from a slide land `m` slides
      on, wrapping past the last slide once. */
  lemma {:induction false} AdvanceWithinRound(i: int, n: int, m: nat)
    requires 0 <= i < n && m <= n
    ensures Advance(i, n, m) == if i + m < n then i + m else i + m - n
  {
    if m > 0 {
      AdvanceWithinRound(i, n, m - 1);
      Wrapping(Advance(i, n, m - 1), n);
    }
  }

  /** The autoplay shows every slide once in `n` ticks and then is back on
      the slide it started from. */
  lemma FullCycle(i: int, n: int)
    requires 0 <= i < n
    ensures Advance(i, n, n) == i
    ensures forall m: nat :: 0 < m < n ==> Advance(i, n, m) != i
  {
    AdvanceWithinRound(i, n, n);
    forall m: nat | 0 < m < n ensures Advance(i, n, m) != i {
      AdvanceWithinRound(i, n, m);
    }
  }

  // ---------------------------------------------------------------------
  // The counter
  // ---------------------------------------------------------------------

  /** `String(currentIndex + 1).padStart(2, '0') + " / " + String(length).padStart(2, '0')`. */
  function Counter(i: int, n: int): string {
    PadStart(IntToString(i + 1), 2, '0') + " / " + PadStart(IntToString(n), 2, '0')
  }

  /** For a slide of a carousel of at most 99 slides the counter is seven
      characters, and reading its two numbers back gives the one-based
      position and the number of slides. */
  lemma CounterReadsBack(i: int, n: int)
    requires 0 <= i < n <= 99
    ensures var c := Counter(i, n);
      |c| == 7 && c[2..5] == " / " &&
      ParseNat(c[..2]) == Some(i + 1) && ParseNat(c[5..]) == Some(n)
  {
    var left := PadStart(IntToString(i + 1), 2, '0');
    var right := PadStart(IntToString(n), 2, '0');
    PaddedReadsBack(i + 1);
    PaddedReadsBack(n);
    var c := Counter(i, n);
    assert c == left + " / " + right;
    assert c[..2] == left && c[5..] == right && c[2..5] == " / ";
  }

  /** The counter of any slide of the carousel reads back. */
  lemma SlideCounterReadsBack(articles: seq<Article>, i: int)
    requires 0 <= i < |FeaturedArticles(articles)|
    ensures var c := Counter(i, |FeaturedArticles(articles)|);
      |c| == 7 && ParseNat(c[..2]) == Some(i + 1) &&
      ParseNat(c[5..]) == Some(|FeaturedArticles(articles)|)
  {
    SlidesFromArticles(articles);
    CounterReadsBack(i, |FeaturedArticles(articles)|);
  }

  /** A number below 100 pads to two digits that read back to it. */
  lemma PaddedReadsBack(k: nat)
    requires k < 100
    ensures var p := PadStart(IntToString(k), 2, '0');
      |p| == 2 && ParseNat(p) == Some(k)
  {
    var s := IntToString(k);
    assert s == NatToString(k);
    assert |s| <= 2 by {
      if k >= 10 { assert NatToString(k) == NatToString(k / 10) + [DigitChar(k % 10)]; }
    }
    var p := PadStart(s, 2, '0');
    ParseNatToString(k);
    assert p == seq(2 - |s|, _ => '0') + s;
    ParseNatZeroPadded(2 - |s|, s);
  }

  // ---------------------------------------------------------------------
  // The autoplay tick as written, with the index a JavaScript number
  // ---------------------------------------------------------------------

  /** A JavaScript number, restricted to integers and NaN. */
  datatype JsNumber = Num(value: int) | NaN

  /** `a % n`: NaN when either side is NaN or the divisor is zero. */
  function Remainder(a: JsNumber, n: int): (r: JsNumber)
    ensures r.NaN? <==> a.NaN? || n == 0
    ensures r.Num? ==> r.value == JsRemainder(a.value, n)
  {
    if a.NaN? || n == 0 then NaN else Num(JsRemainder(a.value, n))
  }

  function PlusOne(a: JsNumber): JsNumber {
    if a.NaN? then NaN else Num(a.value + 1)
  }

  /** The interval callback as written: `(prev + 1) % featuredArticles.length`,
      which also runs while no article has loaded. */
  function TickAsWritten(prev: JsNumber, n: int): JsNumber {
    Remainder(PlusOne(prev), n)
  }

  function TicksAsWritten(prev: JsNumber, n: int, m: nat): JsNumber {
    if m == 0 then prev else TickAsWritten(TicksAsWritten(prev, n, m - 1), n)
  }

  /** `featuredArticles[currentIndex]`: `undefined` unless the index is a
      slide position. */
  function SlideAt(slides: seq<Article>, index: JsNumber): (r: Option<Article>)
    ensures r.Some? <==> index.Num? && 0 <= index.value < |slides|
  {
    if index.Num? && 0 <= index.value < |slides| then Some(slides[index.value]) else None
  }

  /** When the articles take longer than one tick to load, the first tick
      divides by zero and the index becomes NaN; after the articles arrive
      every later tick keeps it NaN, so the current article is `undefined`
      for good and reading its pillar throws. */
  lemma {:induction false} SlowLoadStrandsCarousel(slides: seq<Article>, m: nat)
    ensures TickAsWritten(Num(0), 0) == NaN
    ensures TicksAsWritten(NaN, |slides|, m) == NaN
    ensures SlideAt(slides, TicksAsWritten(TickAsWritten(Num(0), 0), |slides|, m)).None?
  {
    if m > 0 {
      SlowLoadStrandsCarousel(slides, m - 1);
    }
  }

  /** The corrected tick: nothing to advance while there are no slides. */
  function Tick(i: int, n: int): (r: int)
    requires n >= 0
    ensures n == 0 ==> r == i
    ensures n > 0 ==> r == NextIndex(i, n)
  {
    if n == 0 then i else NextIndex(i, n)
  }

  /** Where the as-written tick yields a number, the corrected one agrees
      with it; the two differ exactly before the articles load. */
  lemma TickAgreesOnceLoaded(i: int, n: int)
    requires n >= 0
    ensures TickAsWritten(Num(i), n) == if n == 0 then NaN else Num(Tick(i, n))
  {
  }

  /** With the corrected tick, a slow load leaves the carousel on the first
      slide. */
  lemma SlowLoadWithTick(n: int, m: nat)
    requires n > 0
    ensures Tick(0, 0) == 0
    ensures 0 <= Advance(Tick(0, 0), n, m) < n
  {
    AdvanceInRange(0, n, m);
  }

  lemma {:induction false} AdvanceInRange(i: int, n: int, m: nat)
    requires 0 <= i < n
    ensures 0 <= Advance(i, n, m) < n
  {
    if m > 0 {
      AdvanceInRange(i, n, m - 1);
      Wrapping(Advance(i, n, m - 1), n);
    }
  }

  // ---------------------------------------------------------------------
  // The component state
  // ---------------------------------------------------------------------

  class HeroCarousel {
    var currentIndex: int
    var isAutoPlaying: bool
    var articles: seq<Article>
    ghost var loaded: bool

    function Slides(): seq<Article>
      reads this`articles
    {
      FeaturedArticles(articles)
    }

    /** The index is a slide position whenever there are slides, and the
        first position until there are. */
    ghost predicate Valid()
      reads this`currentIndex, this`articles, this`loaded
    {
      (|Slides()| == 0 ==> currentIndex == 0) &&
      (|Slides()| > 0 ==> 0 <= currentIndex < |Slides()|) &&
      (!loaded ==> articles == [])
    }

    constructor()
      ensures Valid() && !loaded
      ensures currentIndex == 0 && isAutoPlaying && articles == []
    {
      currentIndex := 0;
      isAutoPlaying := true;
      articles := [];
      loaded := false;
      NoArticlesNoSlides();
    }

    /** The one-time fetch resolved with `data`. */
    method Load(data: seq<Article>)
      requires Valid() && !loaded
      modifies this`articles, this`loaded
      ensures Valid() && loaded && articles == data
    {
      articles := data;
      loaded := true;
    }

    /** A pill was clicked. */
    method GoToSlide(index: int)
      requires Valid() && 0 <= index < |Slides()|
      modifies this`currentIndex, this`isAutoPlaying
      ensures Valid() && currentIndex == index && !isAutoPlaying
    {
      currentIndex := index;
      isAutoPlaying := false;
    }

    /** The left arrow, shown only when there are slides. */
    method GoToPrevious()
      requires Valid() && |Slides()| > 0
      modifies this`currentIndex, this`isAutoPlaying
      ensures Valid() && currentIndex == PreviousIndex(old(currentIndex), |Slides()|) && !isAutoPlaying
    {
      var n := |Slides()|;
      Wrapping(currentIndex, n);
      currentIndex := PreviousIndex(currentIndex, n);
      isAutoPlaying := false;
    }

    /** The right arrow, shown only when there are slides. */
    method GoToNext()
      requires Valid() && |Slides()| > 0
      modifies this`currentIndex, this`isAutoPlaying
      ensures Valid() && currentIndex == NextIndex(old(currentIndex), |Slides()|) && !isAutoPlaying
    {
      var n := |Slides()|;
      Wrapping(currentIndex, n);
      currentIndex := NextIndex(currentIndex, n);
      isAutoPlaying := false;
    }

    /** The six-second interval fired; it runs only while autoplaying. */
    method AutoAdvance()
      requires Valid() && isAutoPlaying
      modifies this`currentIndex
      ensures Valid() && currentIndex == Tick(old(currentIndex), |Slides()|)
    {
      var n := |Slides()|;
      if n > 0 {
        Wrapping(currentIndex, n);
        currentIndex := NextIndex(currentIndex, n);
      }
    }

    /** The slide shown, or nothing when the section renders nothing. */
    method CurrentArticle() returns (a: Option<Article>)
      requires Valid()
      ensures a.None? <==> |Slides()| == 0
      ensures a.Some? ==> a.value == Slides()[currentIndex] && a.value in articles
    {
      var slides := Slides();
      if |slides| == 0 {
        a := None;
      } else {
        SlidesFromArticles(articles);
        a := Some(slides[currentIndex]);
        assert a.value in slides;
      }
    }

    /** The counter text under the slides: the one-based position and the
        number of slides, each read back from its two digits. */
    function CounterText(): (s: string)
      reads this
      requires Valid() && |Slides()| > 0
      ensures |s| == 7
      ensures ParseNat(s[..2]).Some? && ParseNat(s[..2]).value == currentIndex + 1
      ensures ParseNat(s[5..]) == Some(|Slides()|)
    {
      SlideCounterReadsBack(articles, currentIndex);
      Counter(currentIndex, |Slides()|)
    }
  }
}
