/**
 * The palette consumer of components/FishSVG.tsx: each of the three gradient
 * stops takes the palette colour of its slot (rounded, validated and printed
 * as CSS `rgb(...)`) or a fixed default, and the colours are wired into a body
 * gradient and a tail gradient whose ids are derived from the fish id. The
 * SVG path data and styles are not modelled.
 */
module Fish {
  import opened Wrappers
  import opened Strings

  /** What a colour channel holds at run time: a number, or any other value. */
  datatype Channel = Num(value: real) | NonNumber

  /** `RGBColor`, the palette entry type the components exchange. */
  datatype RGBColor = RGBColor(r: Channel, g: Channel, b: Channel)

  /** An integer RGB triple, as printed in an `rgb(...)` string. */
  type Triple = (int, int, int)

  /** `Math.round`: the nearest integer, with halves rounded up. */
  function Round(x: real): (n: int)
    ensures x - 0.5 < n as real <= x + 0.5
  {
    (x + 0.5).Floor
  }

  /** Rounding a value that is already whole changes nothing. */
  lemma RoundWhole(n: int)
    ensures Round(n as real) == n
  {
  }

  /** Rounding is idempotent. */
  lemma RoundIdempotent(x: real)
    ensures Round(Round(x) as real) == Round(x)
  {
    RoundWhole(Round(x));
  }

  /** The text of the template `rgb(${r}, ${g}, ${b})` for integer values. */
  function RgbText(r: int, g: int, b: int): string {
    "rgb(" + FieldsText(r, g, b) + ")"
  }

  /** The part of an `rgb(...)` text between the parentheses. */
  function FieldsText(r: int, g: int, b: int): string {
    IntToString(r) + ", " + IntToString(g) + ", " + IntToString(b)
  }

  /** The `typeof ... === 'number'` test applied to every channel. */
  predicate IsNumeric(c: RGBColor) {
    c.r.Num? && c.g.Num? && c.b.Num?
  }

  /** `toRgbString` of FishSVG.tsx: a missing colour, or one with a channel that
      is not a number, prints as black; otherwise every channel is rounded. */
  function ToRgbString(color: Option<RGBColor>): string {
    if color.Some? && IsNumeric(color.value) then
      RgbText(Round(color.value.r.value), Round(color.value.g.value), Round(color.value.b.value))
    else
      "rgb(0, 0, 0)"
  }

  /** The triple that `ToRgbString` prints for a colour. */
  function Shown(color: Option<RGBColor>): Triple {
    if color.Some? && IsNumeric(color.value) then
      (Round(color.value.r.value), Round(color.value.g.value), Round(color.value.b.value))
    else
      (0, 0, 0)
  }

  // ---------------------------------------------------------------------------
  // Reading an `rgb(...)` string back

  predicate NoComma(s: string) {
    forall i :: 0 <= i < |s| ==> s[i] != ','
  }

  /** The position of the first `c` in `s`, or `|s|` when there is none. */
  function IndexOf(s: string, c: char): (i: nat)
    ensures i <= |s|
    ensures i < |s| ==> s[i] == c
    ensures forall j :: 0 <= j < i ==> s[j] != c
  {
    if s == [] then 0 else if s[0] == c then 0 else 1 + IndexOf(s[1..], c)
  }

  /** Splits `s` at its first comma, which must be followed by a space. */
  function SplitField(s: string): Option<(string, string)> {
    var i := IndexOf(s, ',');
    if i + 1 < |s| && s[i + 1] == ' ' then Some((s[..i], s[i + 2..])) else None
  }

  /** Reads `<int>, <int>, <int>`. */
  function ParseFields(s: string): Option<Triple> {
    match SplitField(s)
    case None => None
    case Some((first, rest)) =>
      match SplitField(rest)
      case None => None
      case Some((second, third)) =>
        match (ParseInt(first), ParseInt(second), ParseInt(third))
        case (Some(r), Some(g), Some(b)) => Some((r, g, b))
        case _ => None
  }

  /** Reads `rgb(<int>, <int>, <int>)`. */
  function ParseRgb(s: string): Option<Triple> {
    if StartsWith(s, "rgb(") && |s| >= 5 && s[|s| - 1] == ')' then ParseFields(s[4..|s| - 1]) else None
  }

  lemma IntToStringNoComma(n: int)
    ensures NoComma(IntToString(n))
  {
    var s := IntToString(n);
    if n < 0 {
      assert s[1..] == NatToString(-n);
      forall i | 0 <= i < |s| ensures s[i] != ',' {
        if i > 0 { assert s[i] == s[1..][i - 1]; }
      }
    }
  }

  lemma IndexOfAfter(a: string, t: string)
    requires NoComma(a)
    ensures IndexOf(a + t, ',') == IndexOf(t, ',') + |a|
  {
    var x := a + t;
    var i := IndexOf(x, ',');
    var k := IndexOf(t, ',');
    assert forall j :: 0 <= j < k ==> x[|a| + j] == t[j];
    if k < |t| {
      assert x[|a| + k] == t[k];
    }
  }

  lemma SplitFieldAfter(a: string, t: string)
    requires NoComma(a)
    ensures SplitField(a + ", " + t) == Some((a, t))
  {
    var x := a + ", " + t;
    assert x == a + (", " + t);
    IndexOfAfter(a, ", " + t);
    assert x[..|a|] == a;
    assert x[|a| + 2..] == t;
  }

  lemma ParseRgbUnwraps(inner: string)
    ensures ParseRgb("rgb(" + inner + ")") == ParseFields(inner)
  {
    var s := "rgb(" + inner + ")";
    assert s[..4] == "rgb(";
    assert s[4..|s| - 1] == inner;
  }

  lemma ParseFieldsSplits(R: string, G: string, B: string, r: int, g: int, b: int)
    requires NoComma(R) && NoComma(G)
    requires ParseInt(R) == Some(r) && ParseInt(G) == Some(g) && ParseInt(B) == Some(b)
    ensures ParseFields(R + ", " + G + ", " + B) == Some((r, g, b))
  {
    var rest := G + ", " + B;
    assert R + ", " + G + ", " + B == R + ", " + rest;
    SplitFieldAfter(R, rest);
    SplitFieldAfter(G, B);
  }

  /** `ParseRgb` recovers the three integers of an `rgb(...)` text. */
  lemma RgbTextRoundTrip(r: int, g: int, b: int)
    ensures ParseRgb(RgbText(r, g, b)) == Some((r, g, b))
  {
    FieldsTextRoundTrip(r, g, b);
    ParseRgbUnwraps(FieldsText(r, g, b));
  }

  lemma FieldsTextRoundTrip(r: int, g: int, b: int)
    ensures ParseFields(FieldsText(r, g, b)) == Some((r, g, b))
  {
    IntToStringNoComma(r);
    IntToStringNoComma(g);
    IntToStringRoundTrip(r);
    IntToStringRoundTrip(g);
    IntToStringRoundTrip(b);
    ParseFieldsSplits(IntToString(r), IntToString(g), IntToString(b), r, g, b);
  }

  /** `ToRgbString` prints exactly the triple `Shown` describes: the rounded
      channels of a valid colour, black otherwise. */
  lemma ToRgbStringRoundTrip(color: Option<RGBColor>)
    ensures ParseRgb(ToRgbString(color)) == Some(Shown(color))
  {
    if color.Some? && IsNumeric(color.value) {
      var c := color.value;
      RgbTextRoundTrip(Round(c.r.value), Round(c.g.value), Round(c.b.value));
    } else {
      assert "rgb(0, 0, 0)" == RgbText(0, 0, 0);
      RgbTextRoundTrip(0, 0, 0);
    }
  }

  /** A valid colour whose channels are whole prints those channels unchanged. */
  lemma ToRgbStringOfWholeChannels(r: int, g: int, b: int)
    ensures ToRgbString(Some(RGBColor(Num(r as real), Num(g as real), Num(b as real)))) == RgbText(r, g, b)
  {
    RoundWhole(r);
    RoundWhole(g);
    RoundWhole(b);
  }

  // ---------------------------------------------------------------------------
  // Gradient stops and ids

  /** The stop colour used when slot 0, 1 or 2 has no palette entry. */
  function DefaultStop(slot: nat): string
    requires slot < 3
  {
    if slot == 0 then "rgb(255, 0, 0)" else if slot == 1 then "rgb(0, 255, 0)" else "rgb(0, 0, 255)"
  }

  /** The decimal texts of the channel values the components use as constants. */
  lemma SmallNumerals()
    ensures IntToString(0) == "0" && IntToString(100) == "100" && IntToString(255) == "255"
  {
    assert NatToString(1) == "1";
    assert NatToString(2) == "2";
    assert NatToString(10) == NatToString(1) + "0" == "10";
    assert NatToString(25) == NatToString(2) + "5" == "25";
    assert NatToString(100) == NatToString(10) + "0" == "100";
    assert NatToString(255) == NatToString(25) + "5" == "255";
  }

  lemma DefaultStopText(slot: nat)
    requires slot < 3
    ensures DefaultStop(slot) == RgbText(DefaultTriple(slot).0, DefaultTriple(slot).1, DefaultTriple(slot).2)
  {
    SmallNumerals();
    if slot == 0 {
      NumeralsText(255, 0, 0, "255", "0", "0");
      assert "rgb(" + "255" + ", " + "0" + ", " + "0" + ")" == "rgb(255, 0, 0)";
    } else if slot == 1 {
      NumeralsText(0, 255, 0, "0", "255", "0");
      assert "rgb(" + "0" + ", " + "255" + ", " + "0" + ")" == "rgb(0, 255, 0)";
    } else {
      NumeralsText(0, 0, 255, "0", "0", "255");
      assert "rgb(" + "0" + ", " + "0" + ", " + "255" + ")" == "rgb(0, 0, 255)";
    }
  }

  /** The `rgb(...)` text of given decimal numerals. */
  lemma NumeralsText(r: int, g: int, b: int, R: string, G: string, B: string)
    requires IntToString(r) == R && IntToString(g) == G && IntToString(b) == B
    ensures RgbText(r, g, b) == "rgb(" + R + ", " + G + ", " + B + ")"
  {
  }

  /** The stop colour of slot 0, 1 or 2 (`gradColor1` .. `gradColor3`). */
  function GradColor(colors: seq<RGBColor>, slot: nat): string
    requires slot < 3
  {
    if slot < |colors| then ToRgbString(Some(colors[slot])) else DefaultStop(slot)
  }

  /** Red, green and blue: the defaults of slots 0, 1 and 2. */
  function DefaultTriple(slot: nat): Triple
    requires slot < 3
  {
    if slot == 0 then (255, 0, 0) else if slot == 1 then (0, 255, 0) else (0, 0, 255)
  }

  /** Slot `i` shows palette entry `i` when there is one, else red, green or blue. */
  lemma GradColorShows(colors: seq<RGBColor>, slot: nat)
    requires slot < 3
    ensures ParseRgb(GradColor(colors, slot))
            == Some(if slot < |colors| then Shown(Some(colors[slot])) else DefaultTriple(slot))
  {
    if slot < |colors| {
      ToRgbStringRoundTrip(Some(colors[slot]));
    } else {
      DefaultStopText(slot);
      var t := DefaultTriple(slot);
      RgbTextRoundTrip(t.0, t.1, t.2);
    }
  }

  datatype Gradient = Gradient(id: string, startColor: string, endColor: string)

  /** The two gradients of one fish: body, then tail fin. */
  datatype Paint = Paint(body: Gradient, tail: Gradient)

  /** The `fishId` property, which defaults to `default` when it is not given. */
  function FishIdOf(fishId: Option<string>): string {
    if fishId.Some? then fishId.value else "default"
  }

  const BodyPrefix := "fishBodyGradient-"
  const TailPrefix := "tailFinGradient-"

  /** The gradients FishSVG defines for `colors` and `fishId`. */
  function FishPaint(colors: seq<RGBColor>, fishId: Option<string>): Paint {
    var id := FishIdOf(fishId);
    var c1, c2, c3 := GradColor(colors, 0), GradColor(colors, 1), GradColor(colors, 2);
    Paint(Gradient(BodyPrefix + id, c1, c2), Gradient(TailPrefix + id, c2, c3))
  }

  /** The body runs from slot 0 to slot 1 and the tail from slot 1 to slot 2, so
      the two gradients meet in the colour of slot 1. */
  lemma GradientWiring(colors: seq<RGBColor>, fishId: Option<string>)
    ensures FishPaint(colors, fishId).body.startColor == GradColor(colors, 0)
    ensures FishPaint(colors, fishId).body.endColor == FishPaint(colors, fishId).tail.startColor == GradColor(colors, 1)
    ensures FishPaint(colors, fishId).tail.endColor == GradColor(colors, 2)
  {
  }

  /** With three or more palette entries no default is used and the entries
      after the third have no effect. */
  lemma FullPaletteUsesNoDefault(colors: seq<RGBColor>, fishId: Option<string>)
    requires |colors| >= 3
    ensures forall slot :: 0 <= slot < 3 ==> GradColor(colors, slot) == ToRgbString(Some(colors[slot]))
    ensures FishPaint(colors, fishId) == FishPaint(colors[..3], fishId)
  {
  }

  /** An empty palette paints the body red to green and the tail green to blue. */
  lemma EmptyPaletteUsesDefaults(fishId: Option<string>)
    ensures FishPaint([], fishId).body.startColor == "rgb(255, 0, 0)"
    ensures FishPaint([], fishId).body.endColor == "rgb(0, 255, 0)"
    ensures FishPaint([], fishId).tail.endColor == "rgb(0, 0, 255)"
  {
  }

  /** Both ids end with the fish id, and a fish's two ids differ. */
  lemma GradientIdsEmbedFishId(colors: seq<RGBColor>, fishId: Option<string>)
    ensures FishPaint(colors, fishId).body.id[|BodyPrefix|..] == FishIdOf(fishId)
    ensures FishPaint(colors, fishId).tail.id[|TailPrefix|..] == FishIdOf(fishId)
    ensures FishPaint(colors, fishId).body.id != FishPaint(colors, fishId).tail.id
  {
    var p := FishPaint(colors, fishId);
    assert p.body.id[0] != p.tail.id[0];
  }

  /** Gradient ids of two fish on one page collide only when the fish ids are
      the same: a body id never equals a tail id, and equal body (or tail) ids
      mean equal fish ids. */
  lemma GradientIdsUnique(a: seq<RGBColor>, idA: Option<string>, b: seq<RGBColor>, idB: Option<string>)
    ensures FishPaint(a, idA).body.id != FishPaint(b, idB).tail.id
    ensures FishPaint(a, idA).body.id == FishPaint(b, idB).body.id <==> FishIdOf(idA) == FishIdOf(idB)
    ensures FishPaint(a, idA).tail.id == FishPaint(b, idB).tail.id <==> FishIdOf(idA) == FishIdOf(idB)
  {
    var p, q := FishPaint(a, idA), FishPaint(b, idB);
    assert p.body.id[0] != q.tail.id[0];
    if p.body.id == q.body.id {
      assert p.body.id[|BodyPrefix|..] == q.body.id[|BodyPrefix|..];
    }
    if p.tail.id == q.tail.id {
      assert p.tail.id[|TailPrefix|..] == q.tail.id[|TailPrefix|..];
    }
  }
}
