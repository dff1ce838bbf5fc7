/** The object detector's post-processing: each detection the engine returns becomes a
    box and a caption, `"<label>, <percent>%"` from its first category or "Unknown". */
module ObjectDetection {
  import opened Options
  import Decimal
  import KotlinNumbers

  /** The caption of a detection without categories. */
  const UNKNOWN: string := "Unknown"

  /** `RectF`: float edges in image pixels. */
  datatype RectF = RectF(left: real, top: real, right: real, bottom: real) {
    function Width(): real {
      right - left
    }
  }

  /** A category of a detection: its `label` (here `name`) and confidence. */
  datatype Category = Category(name: string, score: real)

  /** A detection as the engine returns it: the box and the categories, best first. */
  datatype Detection = Detection(boundingBox: RectF, categories: seq<Category>)

  /** `dataClassBoxText`: what is drawn for one detection. */
  datatype BoxText = BoxText(box: RectF, text: string)

  /** `score.times(100).toInt()`. */
  function ScorePercent(score: real): (pct: int)
    ensures 0.0 <= score <= 1.0 ==> 0 <= pct <= 100
    ensures 0.0 <= score <= 1.0 ==> pct as real <= score * 100.0 < pct as real + 1.0
  {
    KotlinNumbers.FloatToInt(score * 100.0)
  }

  /** The string template `"${category.label}, ${pct}%"`. */
  function CategoryText(name: string, pct: int): (text: string)
    ensures |text| > |name| + 2 && text[..|name|] == name
    ensures text[|text| - 1] == '%'
    ensures text != UNKNOWN
  {
    name + ", " + Decimal.IntToString(pct) + "%"
  }

  /** Start of the longest run of digits that ends the string. */
  function DigitRunStart(s: string): (k: nat)
    ensures k <= |s|
    ensures Decimal.AllDigits(s[k..])
    ensures k == 0 || !Decimal.IsDigit(s[k - 1])
    decreases |s|
  {
    if |s| == 0 || !Decimal.IsDigit(s[|s| - 1]) then |s|
    else
      var k := DigitRunStart(s[..|s| - 1]);
      assert s[k..] == s[..|s| - 1][k..] + [s[|s| - 1]];
      k
  }

  /** Where the number of a caption body starts: the trailing digits, and a minus
      sign just before them if there is one. */
  function NumberStart(body: string): (start: nat)
    ensures start <= |body|
  {
    var k := DigitRunStart(body);
    if k > 0 && body[k - 1] == '-' then k - 1 else k
  }

  /** Reads a caption back into its label and percentage, scanning from the end. */
  function ParseCategoryText(t: string): Option<(string, int)> {
    if |t| == 0 || t[|t| - 1] != '%' then None
    else
      var body := t[..|t| - 1];
      var start := NumberStart(body);
      if start >= 2 && body[start - 2..start] == ", " && Decimal.ParseInt(body[start..]).Some? then
        Some((body[..start - 2], Decimal.ParseInt(body[start..]).value))
      else None
  }

  lemma {:induction false} DigitRunStartAfter(p: string, d: string)
    requires Decimal.AllDigits(d)
    requires |p| == 0 || !Decimal.IsDigit(p[|p| - 1])
    ensures DigitRunStart(p + d) == |p|
    decreases |d|
  {
    if |d| == 0 {
      assert p + d == p;
    } else {
      var init := d[..|d| - 1];
      assert (p + d)[..|p + d| - 1] == p + init;
      DigitRunStartAfter(p, init);
    }
  }

  /** A caption parses back to the name and percentage it was made from. */
  lemma ParseCategoryTextOf(name: string, pct: int)
    ensures ParseCategoryText(CategoryText(name, pct)) == Some((name, pct))
  {
    var s := Decimal.IntToString(pct);
    var t := CategoryText(name, pct);
    var body := name + ", " + s;
    assert t[..|t| - 1] == body;
    if pct < 0 {
      assert s == "-" + s[1..];
      assert body == (name + ", -") + s[1..];
      DigitRunStartAfter(name + ", -", s[1..]);
    } else {
      DigitRunStartAfter(name + ", ", s);
    }
    var start := |name| + 2;
    assert body[start - 2..start] == ", ";
    assert body[start..] == s;
    assert body[..start - 2] == name;
    Decimal.ParseIntToString(pct);
  }

  /** The parser accepts a caption exactly when it is the caption of that name and
      percentage: nothing else parses. */
  lemma ParseCategoryTextExactly(t: string, name: string, pct: int)
    ensures ParseCategoryText(t) == Some((name, pct)) <==> t == CategoryText(name, pct)
  {
    if t == CategoryText(name, pct) {
      ParseCategoryTextOf(name, pct);
    }
    if ParseCategoryText(t) == Some((name, pct)) {
      ParsedIsCaption(t, name, pct);
    }
  }

  lemma SplitThree(s: string, a: nat, b: nat)
    requires a <= b <= |s|
    ensures s == s[..a] + s[a..b] + s[b..]
  {
  }

  lemma SplitLast(s: string)
    requires |s| > 0
    ensures s == s[..|s| - 1] + [s[|s| - 1]]
  {
  }

  /** Whatever parses is the caption of what it parses to. */
  lemma ParsedIsCaption(t: string, name: string, pct: int)
    requires ParseCategoryText(t) == Some((name, pct))
    ensures t == CategoryText(name, pct)
  {
    var body := t[..|t| - 1];
    var start := NumberStart(body);
    assert name == body[..start - 2];
    assert body[start - 2..start] == ", ";
    Decimal.ParseIntExactly(body[start..], pct);
    SplitThree(body, start - 2, start);
    SplitLast(t);
  }

  /** The caption of one detection: only the first category is read. */
  function DetectionText(d: Detection): (text: string)
    ensures text == UNKNOWN <==> |d.categories| == 0
    ensures |d.categories| > 0 ==>
              ParseCategoryText(text) == Some((d.categories[0].name, ScorePercent(d.categories[0].score)))
    ensures |d.categories| == 0 ==> ParseCategoryText(text) == None
  {
    if |d.categories| == 0 then UNKNOWN
    else
      var category := d.categories[0];
      var text := CategoryText(category.name, ScorePercent(category.score));
      ParseCategoryTextOf(category.name, ScorePercent(category.score));
      assert text[|text| - 1] == '%';
      text
  }

  /** The `outputs.map { ... }` of `runTensorFlowLiteObjectDetection`. */
  function MapDetections(outputs: seq<Detection>): (items: seq<BoxText>)
    ensures |items| == |outputs|
    ensures forall i :: 0 <= i < |outputs| ==>
              items[i].box == outputs[i].boundingBox && items[i].text == DetectionText(outputs[i])
    decreases |outputs|
  {
    if |outputs| == 0 then []
    else [BoxText(outputs[0].boundingBox, DetectionText(outputs[0]))] + MapDetections(outputs[1..])
  }

  /** A detection without categories keeps its box and is captioned "Unknown"; one with
      categories is captioned from its first category alone. */
  lemma MapDetectionsCaptions(outputs: seq<Detection>, i: nat)
    requires i < |outputs|
    ensures |outputs[i].categories| == 0 ==> MapDetections(outputs)[i] == BoxText(outputs[i].boundingBox, UNKNOWN)
    ensures |outputs[i].categories| > 0 ==>
              var first := outputs[i].categories[0];
              MapDetections(outputs)[i].text == CategoryText(first.name, ScorePercent(first.score))
  {
  }
}
