/**
 * The house-shaped progress loader (components.py): the progress is
 * clamped into [0, 100] and shown twice in the returned HTML, as the width
 * of the fill and as the "Analyzing... N%" caption.
 */
module Components {
  import opened PyStr

  /** `max(0, min(100, progress))` */
  function Clamp(progress: int): (r: int)
    ensures 0 <= r <= 100
    ensures 0 <= progress <= 100 ==> r == progress
    ensures progress < 0 ==> r == 0
    ensures progress > 100 ==> r == 100
  {
    if progress < 0 then 0 else if progress > 100 then 100 else progress
  }

  /** Clamping twice is clamping once. */
  lemma ClampIdempotent(progress: int)
    ensures Clamp(Clamp(progress)) == Clamp(progress)
  {
  }

  /** Clamping keeps order: more progress never draws a shorter bar. */
  lemma ClampMonotone(p: int, q: int)
    requires p <= q
    ensures Clamp(p) <= Clamp(q)
  {
  }

  /** The outer box, the house outline and the fill's fixed style. */
  const HouseStyle: string :=
    "\n" +
    "    <div style=\"display: flex; justify-content: center; align-items: center; margin: 20px 0;\">\n" +
    "        <div style=\"\n" +
    "            position: relative;\n" +
    "            width: 100px;\n" +
    "            height: 100px;\n" +
    "            background-color: #E8EEF5;\n" +
    "            clip-path: polygon(50% 0%, 100% 40%, 80% 40%, 80% 100%, 20% 100%, 20% 40%, 0% 40%);\n" +
    "            -webkit-clip-path: polygon(50% 0%, 100% 40%, 80% 40%, 80% 100%, 20% 100%, 20% 40%, 0% 40%);\n" +
    "        \">\n" +
    "            <div style=\"\n" +
    "                position: absolute;\n" +
    "                bottom: 0;\n" +
    "                left: 0;\n" +
    "                height: 100%;\n" +
    "                "

  /** The rest of the fill's style and the caption's box. */
  const CaptionStyle: string :=
    "\n" +
    "                background-color: #1A73E8;\n" +
    "                transition: width 0.5s ease;\n" +
    "            \"></div>\n" +
    "        </div>\n" +
    "    </div>\n" +
    "    <div style=\"text-align: center; font-family: 'Inter', sans-serif; color: #555; margin-top: 10px; font-weight: 500;\">\n" +
    "        "

  /** The template text after the caption's percent sign. */
  const LoaderTail: string :=
    "\n" +
    "    </div>\n" +
    "    "

  /** The template filled with `shown`, for any fixed style text around it. */
  function Filled(house: string, caption: string, tail: string, shown: string): string {
    house + "width: " + shown + "%;" + caption + "Analyzing... " + shown + "%" + tail
  }

  lemma FilledShows(house: string, caption: string, tail: string, shown: string)
    ensures Contains(Filled(house, caption, tail, shown), "width: " + shown + "%;")
    ensures Contains(Filled(house, caption, tail, shown), "Analyzing... " + shown + "%")
  {
    var html := Filled(house, caption, tail, shown);
    var w := "width: " + shown + "%;";
    var a := "Analyzing... " + shown + "%";
    assert html == house + w + (caption + a + tail);
    ContainsAt(html, w, |house|);
    var front := house + w + caption;
    assert html == front + a + tail;
    ContainsAt(html, a, |front|);
  }

  /** `get_house_loader_html(progress)` */
  function LoaderHtml(progress: int): string {
    Filled(HouseStyle, CaptionStyle, LoaderTail, Decimal(Clamp(progress)))
  }

  /** The bar's width and the caption both show the clamped progress. */
  lemma LoaderShowsProgress(progress: int)
    ensures Contains(LoaderHtml(progress), "width: " + Decimal(Clamp(progress)) + "%;")
    ensures Contains(LoaderHtml(progress), "Analyzing... " + Decimal(Clamp(progress)) + "%")
  {
    FilledShows(HouseStyle, CaptionStyle, LoaderTail, Decimal(Clamp(progress)));
  }

  /** The number printed right after the template's head: the digits up to the first `%`. */
  lemma {:induction false} DigitsBeforePercent(d1: string, d2: string, r1: string, r2: string)
    requires AllDigits(d1) && AllDigits(d2)
    requires r1 != [] && r1[0] == '%' && r2 != [] && r2[0] == '%'
    requires d1 + r1 == d2 + r2
    ensures d1 == d2
    decreases |d1|
  {
    if d1 != [] && d2 != [] {
      assert (d1 + r1)[0] == d1[0] && (d2 + r2)[0] == d2[0];
      assert (d1 + r1)[1..] == d1[1..] + r1 && (d2 + r2)[1..] == d2[1..] + r2;
      DigitsBeforePercent(d1[1..], d2[1..], r1, r2);
      assert d1 == [d1[0]] + d1[1..] && d2 == [d2[0]] + d2[1..];
    }
    if d1 == [] || d2 == [] {
      assert (d1 + r1)[0] == (d2 + r2)[0];
    }
  }

  /** The template after the width's digits. */
  function AfterWidth(caption: string, tail: string, shown: string): (r: string)
    ensures r != [] && r[0] == '%'
  {
    "%;" + caption + "Analyzing... " + shown + "%" + tail
  }

  /** The template is its head, then the width's digits, then the rest. */
  lemma FilledSplit(house: string, caption: string, tail: string, shown: string)
    ensures Filled(house, caption, tail, shown)[|house + "width: "|..] == shown + AfterWidth(caption, tail, shown)
  {
    var head := house + "width: ";
    assert Filled(house, caption, tail, shown) == head + (shown + AfterWidth(caption, tail, shown));
  }

  /** Filled with two digit strings, the template reads the same only when they are the same. */
  lemma FilledDetermines(house: string, caption: string, tail: string, d1: string, d2: string)
    requires AllDigits(d1) && AllDigits(d2)
    requires Filled(house, caption, tail, d1) == Filled(house, caption, tail, d2)
    ensures d1 == d2
  {
    FilledSplit(house, caption, tail, d1);
    FilledSplit(house, caption, tail, d2);
    DigitsBeforePercent(d1, d2, AfterWidth(caption, tail, d1), AfterWidth(caption, tail, d2));
  }

  /** The HTML determines the clamped progress: two loaders look the same only for the same shown value. */
  lemma LoaderDeterminesProgress(p: int, q: int)
    requires LoaderHtml(p) == LoaderHtml(q)
    ensures Clamp(p) == Clamp(q)
  {
    var a, b := Clamp(p), Clamp(q);
    assert Decimal(a) == NatToDecimal(a) && Decimal(b) == NatToDecimal(b);
    FilledDetermines(HouseStyle, CaptionStyle, LoaderTail, NatToDecimal(a), NatToDecimal(b));
    DigitsOfDecimal(a);
    DigitsOfDecimal(b);
  }
}
