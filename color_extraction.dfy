/**
 * components/ColorExtractor.tsx: the colour helpers kept from the palette
 * extraction (squared distance, the value-plus-saturation score, the verbatim
 * `rgb(...)` text), the readiness flag, and the component state driven by the
 * file input and by `extractColors`, which in this version ignores the pixels
 * and always yields three fixed colours.
 */
module ColorExtraction {
  import opened Wrappers
  import opened Strings
  import Fish

  // ---------------------------------------------------------------------------
  // Squared distance (`abs`)

  /** `abs`: the squared Euclidean distance between the first three entries of
      two colour vectors. */
  function SquaredDistance(c1: seq<int>, c2: seq<int>): int
    requires |c1| >= 3 && |c2| >= 3
  {
    Square(c1[0] - c2[0]) + Square(c1[1] - c2[1]) + Square(c1[2] - c2[2])
  }

  /** `x ** 2`. */
  function Square(x: int): int {
    x * x
  }

  lemma ProductPositive(x: int, y: int)
    requires x > 0 && y > 0
    ensures x * y > 0
  {
  }

  lemma SquareFacts(d: int)
    ensures Square(d) >= 0
    ensures d != 0 ==> Square(d) > 0
  {
    if d < 0 {
      ProductPositive(-d, -d);
    } else if d > 0 {
      ProductPositive(d, d);
    }
  }

  lemma SquaredDistanceNonNegative(c1: seq<int>, c2: seq<int>)
    requires |c1| >= 3 && |c2| >= 3
    ensures SquaredDistance(c1, c2) >= 0
  {
    SquareFacts(c1[0] - c2[0]);
    SquareFacts(c1[1] - c2[1]);
    SquareFacts(c1[2] - c2[2]);
  }

  lemma SquaredDistanceSymmetric(c1: seq<int>, c2: seq<int>)
    requires |c1| >= 3 && |c2| >= 3
    ensures SquaredDistance(c1, c2) == SquaredDistance(c2, c1)
  {
    assert Square(c1[0] - c2[0]) == Square(c2[0] - c1[0]);
    assert Square(c1[1] - c2[1]) == Square(c2[1] - c1[1]);
    assert Square(c1[2] - c2[2]) == Square(c2[2] - c1[2]);
  }

  /** Different first three channels give a positive distance. */
  lemma SquaredDistancePositive(c1: seq<int>, c2: seq<int>)
    requires |c1| >= 3 && |c2| >= 3
    requires c1[..3] != c2[..3]
    ensures SquaredDistance(c1, c2) > 0
  {
    var x, y, z := c1[0] - c2[0], c1[1] - c2[1], c1[2] - c2[2];
    SquareFacts(x);
    SquareFacts(y);
    SquareFacts(z);
    assert x != 0 || y != 0 || z != 0;
  }

  /** The distance is zero exactly when the first three channels agree; entries
      after the third are ignored. */
  lemma SquaredDistanceZeroIff(c1: seq<int>, c2: seq<int>)
    requires |c1| >= 3 && |c2| >= 3
    ensures SquaredDistance(c1, c2) == 0 <==> c1[..3] == c2[..3]
  {
    if c1[..3] == c2[..3] {
      assert c1[0] == c1[..3][0] && c1[1] == c1[..3][1] && c1[2] == c1[..3][2];
      assert c2[0] == c2[..3][0] && c2[1] == c2[..3][1] && c2[2] == c2[..3][2];
    } else {
      SquaredDistancePositive(c1, c2);
    }
  }

  lemma SquaredDistanceToSelf(c: seq<int>)
    requires |c| >= 3
    ensures SquaredDistance(c, c) == 0
  {
    SquaredDistanceZeroIff(c, c);
  }

  // ---------------------------------------------------------------------------
  // Value plus saturation (`getHsvScore`)

  /** `Math.max` of three numbers. */
  function Max3(a: real, b: real, c: real): (m: real)
    ensures m >= a && m >= b && m >= c
    ensures m == a || m == b || m == c
  {
    if a >= b && a >= c then a else if b >= c then b else c
  }

  /** `Math.min` of three numbers. */
  function Min3(a: real, b: real, c: real): (m: real)
    ensures m <= a && m <= b && m <= c
    ensures m == a || m == b || m == c
  {
    if a <= b && a <= c then a else if b <= c then b else c
  }

  /** `getHsvScore`: the value `max / 255` plus the saturation
      `(max - min) / max`, which is taken as 0 when `max` is 0. */
  function HsvScore(r: real, g: real, b: real): real {
    var v := Max3(r, g, b);
    var d := v - Min3(r, g, b);
    var s := if v != 0.0 then d / v else 0.0;
    v / 255.0 + s
  }

  /** The saturation term of the score on its own. */
  function Saturation(r: real, g: real, b: real): real {
    var v := Max3(r, g, b);
    if v != 0.0 then (v - Min3(r, g, b)) / v else 0.0
  }

  lemma HsvScoreSplits(r: real, g: real, b: real)
    ensures HsvScore(r, g, b) == Max3(r, g, b) / 255.0 + Saturation(r, g, b)
  {
  }

  /** A quotient `d / v` with `0 <= d <= v` lies in [0, 1] and is 1 only for `d == v`. */
  lemma RatioAtMostOne(d: real, v: real)
    requires 0.0 <= d <= v && v > 0.0
    ensures 0.0 <= d / v <= 1.0
    ensures d / v == 1.0 <==> d == v
  {
    assert (d / v) * v == d;
  }

  /** When the largest channel is 0 the saturation is 0, and so is the score:
      black scores 0. */
  lemma HsvScoreOfZeroMax(r: real, g: real, b: real)
    requires Max3(r, g, b) == 0.0
    ensures Saturation(r, g, b) == 0.0
    ensures HsvScore(r, g, b) == 0.0
  {
  }

  /** For channels in [0, 255], the saturation is in [0, 1] and the score in [0, 2]. */
  lemma HsvScoreRange(r: real, g: real, b: real)
    requires 0.0 <= r <= 255.0 && 0.0 <= g <= 255.0 && 0.0 <= b <= 255.0
    ensures 0.0 <= Saturation(r, g, b) <= 1.0
    ensures 0.0 <= HsvScore(r, g, b) <= 2.0
  {
    var v := Max3(r, g, b);
    if v != 0.0 {
      RatioAtMostOne(v - Min3(r, g, b), v);
    }
  }

  /** A grey (all channels equal) has saturation 0 and scores `max / 255`. */
  lemma HsvScoreOfGrey(x: real)
    ensures Saturation(x, x, x) == 0.0
    ensures HsvScore(x, x, x) == x / 255.0
  {
  }

  /** For channels in [0, 255] the score reaches its maximum 2 exactly for the
      fully saturated, full-value colours: largest channel 255 and smallest 0. */
  lemma HsvScoreIsTwoIff(r: real, g: real, b: real)
    requires 0.0 <= r <= 255.0 && 0.0 <= g <= 255.0 && 0.0 <= b <= 255.0
    ensures HsvScore(r, g, b) == 2.0 <==> Max3(r, g, b) == 255.0 && Min3(r, g, b) == 0.0
  {
    var v, m := Max3(r, g, b), Min3(r, g, b);
    if v != 0.0 {
      RatioAtMostOne(v - m, v);
      assert v / 255.0 <= 1.0;
      assert v / 255.0 == 1.0 <==> v == 255.0;
    }
  }

  /** Hue is discarded: permuting the channels does not change the score. */
  lemma HsvScoreIgnoresChannelOrder(r: real, g: real, b: real)
    ensures HsvScore(r, g, b) == HsvScore(g, b, r) == HsvScore(r, b, g)
  {
    assert Max3(r, g, b) == Max3(g, b, r) == Max3(r, b, g);
    assert Min3(r, g, b) == Min3(g, b, r) == Min3(r, b, g);
  }

  // ---------------------------------------------------------------------------
  // The verbatim `rgb(...)` text of the preview panel

  predicate IsWhole(x: real) {
    x.Floor as real == x
  }

  /** All three channels are numbers without a fractional part. */
  predicate HasWholeChannels(c: Fish.RGBColor) {
    Fish.IsNumeric(c) && IsWhole(c.r.value) && IsWhole(c.g.value) && IsWhole(c.b.value)
  }

  /** `toRgbString` of ColorExtractor.tsx: the channels printed as they are,
      without rounding or validation. */
  function ToRgbString(color: Fish.RGBColor): string
    requires HasWholeChannels(color)
  {
    Fish.RgbText(color.r.value.Floor, color.g.value.Floor, color.b.value.Floor)
  }

  /** The preview text reads back as the colour's own channel values. */
  lemma ToRgbStringRoundTrip(color: Fish.RGBColor)
    requires HasWholeChannels(color)
    ensures Fish.ParseRgb(ToRgbString(color))
            == Some((color.r.value.Floor, color.g.value.Floor, color.b.value.Floor))
  {
    Fish.RgbTextRoundTrip(color.r.value.Floor, color.g.value.Floor, color.b.value.Floor);
  }

  /** On whole-number channels the preview text and the fish's rounded text agree. */
  lemma ToRgbStringAgreesWithFish(color: Fish.RGBColor)
    requires HasWholeChannels(color)
    ensures ToRgbString(color) == Fish.ToRgbString(Some(color))
  {
    Fish.RoundWhole(color.r.value.Floor);
    Fish.RoundWhole(color.g.value.Floor);
    Fish.RoundWhole(color.b.value.Floor);
  }

  // ---------------------------------------------------------------------------
  // Component state

  /** An uploaded file, known only by its identity. */
  datatype Blob = Blob(id: nat)

  /** `ImageColorData`: the chosen image and the extracted palette, each
      possibly `null`. */
  datatype ImageColorData = ImageColorData(image: Option<Blob>, colors: Option<seq<Fish.RGBColor>>)

  /** `isReady`: a palette of at least three colours exists and no extraction
      is running. */
  predicate IsReady(data: ImageColorData, loading: bool) {
    data.colors.Some? && |data.colors.value| >= 3 && !loading
  }

  /** What is handed to the aquarium's fish: `data.colors || []`. */
  function FishColors(data: ImageColorData): seq<Fish.RGBColor> {
    if data.colors.Some? then data.colors.value else []
  }

  /** The three placeholder colours `extractColors` produces. */
  const DummyColors: seq<Fish.RGBColor> := [
    Fish.RGBColor(Fish.Num(255.0), Fish.Num(100.0), Fish.Num(100.0)),
    Fish.RGBColor(Fish.Num(100.0), Fish.Num(255.0), Fish.Num(100.0)),
    Fish.RGBColor(Fish.Num(100.0), Fish.Num(100.0), Fish.Num(255.0))
  ]

  /** Once ready, every gradient stop of the fish comes from the palette and
      none from the defaults. */
  lemma ReadyFishUsesPalette(data: ImageColorData, loading: bool)
    requires IsReady(data, loading)
    ensures forall slot :: 0 <= slot < 3 ==>
      Fish.GradColor(FishColors(data), slot) == Fish.ToRgbString(Some(data.colors.value[slot]))
  {
  }

  /** Without a palette the fish is not ready and is painted in the defaults. */
  lemma NoPaletteFishUsesDefaults(data: ImageColorData, loading: bool, fishId: Option<string>)
    requires data.colors.None?
    ensures !IsReady(data, loading)
    ensures Fish.FishPaint(FishColors(data), fishId) == Fish.FishPaint([], fishId)
  {
  }

  /** The placeholder palette shows as the three stop colours below. */
  lemma DummyColorsShown()
    ensures Fish.GradColor(DummyColors, 0) == "rgb(255, 100, 100)"
    ensures Fish.GradColor(DummyColors, 1) == "rgb(100, 255, 100)"
    ensures Fish.GradColor(DummyColors, 2) == "rgb(100, 100, 255)"
  {
    Fish.SmallNumerals();
    WholeColorShown(DummyColors, 0, 255, 100, 100, "255", "100", "100");
    WholeColorShown(DummyColors, 1, 100, 255, 100, "100", "255", "100");
    WholeColorShown(DummyColors, 2, 100, 100, 255, "100", "100", "255");
    DummyStopLiterals();
  }

  /** The three stop texts written out. */
  lemma DummyStopLiterals()
    ensures "rgb(" + "255" + ", " + "100" + ", " + "100" + ")" == "rgb(255, 100, 100)"
    ensures "rgb(" + "100" + ", " + "255" + ", " + "100" + ")" == "rgb(100, 255, 100)"
    ensures "rgb(" + "100" + ", " + "100" + ", " + "255" + ")" == "rgb(100, 100, 255)"
  {
  }

  /** A palette entry with whole channels shows as their numerals. */
  lemma WholeColorShown(colors: seq<Fish.RGBColor>, slot: nat, r: int, g: int, b: int, R: string, G: string, B: string)
    requires slot < 3 && slot < |colors|
    requires colors[slot] == Fish.RGBColor(Fish.Num(r as real), Fish.Num(g as real), Fish.Num(b as real))
    requires IntToString(r) == R && IntToString(g) == G && IntToString(b) == B
    ensures Fish.GradColor(colors, slot) == "rgb(" + R + ", " + G + ", " + B + ")"
  {
    Fish.ToRgbStringOfWholeChannels(r, g, b);
    Fish.NumeralsText(r, g, b, R, G, B);
  }

  /** The state of the ColorExtractor component (`data` and `loading`). */
  class ColorExtractor {
    var data: ImageColorData
    var loading: bool

    constructor ()
      ensures data == ImageColorData(None, None) && !loading
      ensures !IsReady(data, loading)
    {
      data := ImageColorData(None, None);
      loading := false;
    }

    /** `handleFileChange`: the first selected file, if any, replaces the image
        and clears the palette; with no file nothing changes. */
    method HandleFileChange(files: Option<seq<Blob>>)
      modifies this
      ensures loading == old(loading)
      ensures files.Some? && |files.value| > 0 ==>
                data == ImageColorData(Some(files.value[0]), None) && !IsReady(data, loading)
      ensures !(files.Some? && |files.value| > 0) ==> data == old(data)
    {
      var file := if files.Some? && |files.value| > 0 then Some(files.value[0]) else None;
      if file.Some? {
        data := ImageColorData(file, None);
      }
    }

    /** `extractColors` as it stands: raise the loading flag, store the three
        placeholder colours beside the current image, lower the flag. */
    method ExtractColors()
      modifies this
      ensures data == ImageColorData(old(data.image), Some(DummyColors))
      ensures !loading && IsReady(data, loading)
    {
      loading := true;
      var finalColors := DummyColors;
      data := data.(colors := Some(finalColors));
      loading := false;
    }
  }
}
