/** The flicker-text effect: the text is cut into one glyph per character,
    and each glyph flickers after a delay that depends on the pattern. */
module FlickerText {
  import opened Text

  const NoBreakSpace: char := '\U{00A0}'

  /** One animated character and its React key. */
  datatype Glyph = Glyph(ch: char, key: string)

  /** The displayed character: a space becomes a no-break space. */
  function Shown(c: char): (d: char)
    ensures c == ' ' ==> d == NoBreakSpace
    ensures c != ' ' ==> d == c
  {
    if c == ' ' then NoBreakSpace else c
  }

  /** The key of the glyph for character `c` at `idx`: `${ch}-${idx}`. */
  function GlyphKey(c: char, idx: nat): (k: string)
    ensures |k| >= 3 && k[0] == c && k[1] == '-'
  {
    [c] + "-" + NatToString(idx)
  }

  /** The glyphs of `text`, one per character. */
  function Characters(text: string): (glyphs: seq<Glyph>)
    ensures |glyphs| == |text|
    ensures forall i | 0 <= i < |text| :: glyphs[i].ch == Shown(text[i]) && glyphs[i].key == GlyphKey(text[i], i)
  {
    seq(|text|, i requires 0 <= i < |text| => Glyph(Shown(text[i]), GlyphKey(text[i], i)))
  }

  /** The text is recovered from the keys, so no character is lost even
      where the shown character replaces it. */
  lemma TextFromKeys(text: string)
    ensures seq(|text|, i requires 0 <= i < |text| => Characters(text)[i].key[0]) == text
  {
  }

  /** Two glyphs at different positions never share a key. */
  lemma GlyphKeysDistinct(text: string, i: nat, j: nat)
    requires i < |text| && j < |text| && i != j
    ensures Characters(text)[i].key != Characters(text)[j].key
  {
    var ki, kj := GlyphKey(text[i], i), GlyphKey(text[j], j);
    if ki == kj {
      assert ki[2..] == NatToString(i);
      assert kj[2..] == NatToString(j);
      NatToStringInjective(i, j);
    }
  }

  /** The key of the rendered span at `index`: `${c.key}-${index}`. */
  function SpanKey(glyphs: seq<Glyph>, index: nat): (k: string)
    requires index < |glyphs|
    ensures |k| > |glyphs[index].key| && k[..|glyphs[index].key|] == glyphs[index].key
  {
    glyphs[index].key + "-" + NatToString(index)
  }

  /** `Math.max(speed, 0.0001)`: the divisor of all timings. */
  function Divisor(speed: real): (d: real)
    ensures d >= 0.0001 && d >= speed
    ensures d == speed || d == 0.0001
  {
    if speed > 0.0001 then speed else 0.0001
  }

  /** Seconds between the starts of consecutive characters' flickers. */
  function BaseDelay(speed: real): (b: real)
    ensures b > 0.0
  {
    0.1 / Divisor(speed)
  }

  /** Seconds one flicker lasts. */
  function FlickerDuration(speed: real): (f: real)
    ensures f > 0.0
  {
    0.3 / Divisor(speed)
  }

  /** Seconds one full pass over `n` characters takes. */
  function TotalDuration(n: nat, speed: real): (t: real)
    ensures t > 0.0
  {
    n as real * BaseDelay(speed) + FlickerDuration(speed)
  }

  /** The base delay times the divisor is 0.1 seconds, a flicker lasts three
      base delays, and a full pass lasts `n + 3` base delays. */
  lemma TimingsInBaseDelays(n: nat, speed: real)
    ensures BaseDelay(speed) * Divisor(speed) == 0.1
    ensures FlickerDuration(speed) == 3.0 * BaseDelay(speed)
    ensures TotalDuration(n, speed) == (n as real + 3.0) * BaseDelay(speed)
  {
  }

  datatype Pattern = Sequential | Random | Sync | Other

  /** The delay before the flicker of character `index` out of `n`;
      `draw` is the `Math.random()` value in [0, 1) a random pattern uses. */
  function GetDelay(pattern: Pattern, index: nat, n: nat, speed: real, draw: real): (d: real)
    requires 0.0 <= draw < 1.0
    ensures pattern == Sequential ==> d == index as real * BaseDelay(speed)
    ensures pattern == Random ==> 0.0 <= d < 0.7 * TotalDuration(n, speed)
    ensures pattern == Sync || pattern == Other ==> d == 0.0
  {
    match pattern
    case Sequential => index as real * BaseDelay(speed)
    case Random => RandomDelay(draw, TotalDuration(n, speed))
    case _ => 0.0
  }

  /** `Math.random() * totalDuration * 0.7`: a draw in [0, 1) scales a
      positive span into [0, 0.7 of it). */
  function RandomDelay(draw: real, t: real): (d: real)
    requires 0.0 <= draw < 1.0 && t > 0.0
    ensures 0.0 <= d < 0.7 * t
  {
    assert (1.0 - draw) * t > 0.0;
    draw * t * 0.7
  }

  /** Under the sequential pattern later characters never start earlier. */
  lemma SequentialDelayMonotone(i: nat, j: nat, n: nat, speed: real, draw: real)
    requires i <= j && 0.0 <= draw < 1.0
    ensures GetDelay(Sequential, i, n, speed, draw) <= GetDelay(Sequential, j, n, speed, draw)
  {
    var b := BaseDelay(speed);
    assert (j - i) as real * b >= 0.0;
  }

  /** Under the sequential pattern every character's flicker ends within the
      total duration. */
  lemma SequentialFitsTotal(index: nat, n: nat, speed: real, draw: real)
    requires index < n && 0.0 <= draw < 1.0
    ensures GetDelay(Sequential, index, n, speed, draw) + FlickerDuration(speed) < TotalDuration(n, speed)
  {
    var b := BaseDelay(speed);
    assert (n - index) as real * b > 0.0;
  }

  datatype RepeatBehavior = Loop | Once

  datatype RepeatCount = Forever | Times(count: nat)

  /** The transition of one glyph's flicker. */
  datatype Transition = Transition(duration: real, delay: real, repeat: RepeatCount, repeatDelay: real)

  /** The flicker transition of character `index`. */
  function Flicker(pattern: Pattern, behavior: RepeatBehavior, index: nat, n: nat, speed: real, draw: real): (tr: Transition)
    requires 0.0 <= draw < 1.0
    ensures tr.duration == FlickerDuration(speed) && tr.delay == GetDelay(pattern, index, n, speed, draw)
    ensures behavior == Loop ==> tr.repeat == Forever && tr.repeatDelay == TotalDuration(n, speed)
    ensures behavior == Once ==> tr.repeat == Times(0) && tr.repeatDelay == 0.0
  {
    Transition(FlickerDuration(speed), GetDelay(pattern, index, n, speed, draw),
               if behavior == Loop then Forever else Times(0),
               if behavior == Loop then TotalDuration(n, speed) else 0.0)
  }
}
