/** The timing arithmetic of playback: the beat duration and buildup padding computed by
    `changeSong` (hues.js:1039-1060), the beat identity one tick of `beatAnalyze` derives
    from the audio clock (hues.js:1207-1226), and the text `getBeatString` builds
    (hues.js:1257-1287). Times are exact reals. */
module BeatClock {
  import opened Wrappers
  import Text

  /** `Math.round` of a non-negative number: halves round up. */
  function Round(x: real): (n: nat)
    requires x >= 0.0
    ensures n as real - 0.5 <= x < n as real + 0.5
  {
    (x + 0.5).Floor
  }

  /** `loopDuration / rhythm.length`: one beat of the loop. */
  function BeatDuration(loopDuration: real, beats: nat): (d: real)
    requires beats > 0
    ensures d * beats as real == loopDuration
    ensures loopDuration > 0.0 ==> d > 0.0
  {
    loopDuration / beats as real
  }

  /** The buildup rhythm after `changeSong`: an existing text padded with `.` up to `beats`
      characters, or, when the song has none, exactly `beats` dots. */
  function PaddedBuildupRhythm(existing: Option<string>, beats: nat): (r: string)
    ensures existing.Some? ==> existing.value <= r
    ensures |r| >= beats
    ensures existing.Some? && |existing.value| >= beats ==> r == existing.value
    ensures existing.Some? && |existing.value| < beats ==> |r| == beats
    ensures existing.None? ==> |r| == beats
    ensures forall k :: (if existing.Some? then |existing.value| else 0) <= k < |r| ==> r[k] == '.'
  {
    Text.RepeatOfOne('.', beats);
    match existing
    case Some(s) =>
      var delta := beats - |s|;
      if delta > 0 then
        Text.RepeatOfOne('.', delta);
        s + Text.Repeat(".", delta)
      else s
    case None => Text.Repeat(".", beats)
  }

  /** Padding an already padded rhythm again changes nothing. */
  lemma PaddingSettles(existing: Option<string>, beats: nat)
    ensures PaddedBuildupRhythm(Some(PaddedBuildupRhythm(existing, beats)), beats)
         == PaddedBuildupRhythm(existing, beats)
  {
  }

  lemma MulStrict(a: real, x: real, y: real)
    requires a > 0.0 && x < y
    ensures a * x < a * y
  {
    assert a * y - a * x == a * (y - x);
  }

  lemma MulLe(a: real, x: real, y: real)
    requires a > 0.0 && x <= y
    ensures a * x <= a * y
  {
    assert a * y - a * x == a * (y - x);
  }

  lemma DivLe(x: real, y: real, d: real)
    requires d > 0.0 && x <= y
    ensures x / d <= y / d
  {
  }

  lemma DivMonotone(x: real, y: real, d: real)
    requires d > 0.0 && x <= y
    ensures (x / d).Floor <= (y / d).Floor
  {
    DivLe(x, y, d);
  }

  lemma Cancel(p: real, q: real, d: real)
    requires d > 0.0 && p * d == q * d
    ensures p == q
  {
  }

  lemma DivBounds(x: real, d: real, n: real)
    requires d > 0.0 && 0.0 <= x < d * n
    ensures 0.0 <= x / d < n
  {
    assert (x / d) * d == x;
  }

  lemma DivShift(e: real, l: real)
    requires l > 0.0
    ensures (e + l) / l == e / l + 1.0
  {
    assert (e / l) * l == e;
    assert (e / l + 1.0) * l == e + l;
    assert ((e + l) / l) * l == e + l;
    Cancel((e + l) / l, e / l + 1.0, l);
  }

  lemma MulSucc(l: real, p: int)
    ensures l * (p + 1) as real == l * p as real + l
  {
  }

  /** `floor(y / d)` whole multiples of `d` fit in `y`, one more does not. */
  lemma FloorBracket(y: real, d: real)
    requires d > 0.0
    ensures (y / d).Floor as real * d <= y < ((y / d).Floor + 1) as real * d
  {
    var x := y / d;
    var i := x.Floor;
    assert x * d == y;
    MulLe(d, i as real, x);
    assert x < i as real + 1.0;
    MulStrict(d, x, i as real + 1.0);
    var u := (i + 1) as real;
    assert u == i as real + 1.0;
    assert y < d * u;
  }

  /** One more loop duration of elapsed time leaves the offset into the loop unchanged. */
  lemma OffsetShift(e: real, l: real)
    requires e >= 0.0 && l > 0.0
    ensures LoopOffset(e + l, l) == LoopOffset(e, l)
  {
    DivShift(e, l);
    var p := Passes(e, l);
    var q := Passes(e + l, l);
    assert q == p + 1;
    MulSucc(l, p);
    assert l * q as real == l * p as real + l;
  }

  /** Which beat is current: an index into the buildup rhythm or into the loop rhythm,
      or neither (`{buildup: null, loop: null}`). */
  datatype Beat = Beat(buildup: Option<int>, loop: Option<int>)

  const NoBeat := Beat(None, None)

  /** The scheduled timeline of the current song. */
  datatype Timing = Timing(buildupStart: real, loopStart: real, loopDuration: real, beatDuration: real)
  {
    ghost predicate Valid() {
      loopDuration > 0.0 && beatDuration > 0.0
    }
  }

  /** JavaScript `%` on a non-negative dividend: the time into the current loop pass. */
  function LoopOffset(elapsed: real, loopDuration: real): (r: real)
    requires elapsed >= 0.0 && loopDuration > 0.0
    ensures 0.0 <= r < loopDuration
    ensures r == elapsed - loopDuration * Passes(elapsed, loopDuration) as real
  {
    FloorOffset(elapsed, loopDuration);
    elapsed - loopDuration * Passes(elapsed, loopDuration) as real
  }

  /** Whole passes fit below `e` and one more pass would exceed it. */
  lemma FloorOffset(e: real, l: real)
    requires e >= 0.0 && l > 0.0
    ensures 0.0 <= e - l * (e / l).Floor as real < l
  {
    var q := e / l;
    var f := q.Floor as real;
    assert l * q == e;
    MulLe(l, f, q);
    MulStrict(l, q, f + 1.0);
    assert l * (f + 1.0) == l * f + l;
  }

  /** How many whole loop passes `elapsed` contains. */
  function Passes(elapsed: real, loopDuration: real): int
    requires loopDuration > 0.0
  {
    (elapsed / loopDuration).Floor
  }

  /** The buildup beat index at time `t`. */
  function BuildupIndex(t: real, timing: Timing): int
    requires timing.Valid()
  {
    ((t - timing.buildupStart) / timing.beatDuration).Floor
  }

  /** The loop beat index at time `t >= loopStart`. */
  function LoopIndex(t: real, timing: Timing): int
    requires timing.Valid() && t >= timing.loopStart
  {
    (LoopOffset(t - timing.loopStart, timing.loopDuration) / timing.beatDuration).Floor
  }

  /** One tick of `beatAnalyze`: the beat identity at time `t` and the beat character
      (`charAt`, so nothing when the index falls outside the rhythm). */
  function BeatAt(t: real, timing: Timing, rhythm: string, buildupRhythm: Option<string>)
    : (r: (Beat, Option<char>))
    requires timing.Valid()
    ensures r.0.buildup.Some? ==> r.0.loop.None? && buildupRhythm.Some? && t < timing.loopStart
    ensures r.0.loop.Some? ==> r.0.buildup.None? && t >= timing.loopStart
    ensures r.0 == NoBeat ==> r.1.None?
  {
    if buildupRhythm.Some? && t < timing.loopStart then
      var i := BuildupIndex(t, timing);
      (Beat(Some(i), None), Text.CharAt(buildupRhythm.value, i))
    else if t >= timing.loopStart then
      var i := LoopIndex(t, timing);
      (Beat(None, Some(i)), Text.CharAt(rhythm, i))
    else
      (NoBeat, None)
  }

  /** In the loop, the beat index always names a character of the rhythm when the beat
      duration divides the loop into `|rhythm|` beats. */
  lemma LoopBeatInRange(t: real, timing: Timing, rhythm: string, buildupRhythm: Option<string>)
    requires timing.Valid() && |rhythm| > 0
    requires timing.beatDuration * |rhythm| as real == timing.loopDuration
    requires t >= timing.loopStart
    ensures var (beat, c) := BeatAt(t, timing, rhythm, buildupRhythm);
      && beat.buildup.None? && beat.loop.Some?
      && 0 <= beat.loop.value < |rhythm|
      && c == Some(rhythm[beat.loop.value])
  {
    var off := LoopOffset(t - timing.loopStart, timing.loopDuration);
    var n := |rhythm| as real;
    var x := off / timing.beatDuration;
    assert x * timing.beatDuration == off;
    DivBounds(off, timing.beatDuration, n);
  }

  /** During the buildup the index counts whole beats since the buildup started. */
  lemma BuildupBeat(t: real, timing: Timing, rhythm: string, buildup: string)
    requires timing.Valid() && t < timing.loopStart
    ensures BeatAt(t, timing, rhythm, Some(buildup)).0 == Beat(Some(BuildupIndex(t, timing)), None)
    ensures timing.buildupStart <= t ==>
      BuildupIndex(t, timing) as real * timing.beatDuration <= t - timing.buildupStart
        < (BuildupIndex(t, timing) + 1) as real * timing.beatDuration
  {
    FloorBracket(t - timing.buildupStart, timing.beatDuration);
  }

  /** The buildup beat index never decreases as time advances. */
  lemma BuildupIndexMonotone(t1: real, t2: real, timing: Timing)
    requires timing.Valid() && t1 <= t2
    ensures BuildupIndex(t1, timing) <= BuildupIndex(t2, timing)
  {
    DivMonotone(t1 - timing.buildupStart, t2 - timing.buildupStart, timing.beatDuration);
  }

  /** The loop beat repeats with the loop: one loop duration later the index is the same. */
  lemma LoopIndexPeriodic(t: real, timing: Timing)
    requires timing.Valid() && t >= timing.loopStart
    ensures LoopIndex(t + timing.loopDuration, timing) == LoopIndex(t, timing)
  {
    var e := t - timing.loopStart;
    var l := timing.loopDuration;
    OffsetShift(e, l);
    assert t + l - timing.loopStart == e + l;
  }

  /** Within one pass of the loop the index never decreases. */
  lemma LoopIndexMonotone(t1: real, t2: real, timing: Timing)
    requires timing.Valid() && timing.loopStart <= t1 <= t2
    requires Passes(t1 - timing.loopStart, timing.loopDuration) == Passes(t2 - timing.loopStart, timing.loopDuration)
    ensures LoopIndex(t1, timing) <= LoopIndex(t2, timing)
  {
    var o1 := LoopOffset(t1 - timing.loopStart, timing.loopDuration);
    var o2 := LoopOffset(t2 - timing.loopStart, timing.loopDuration);
    assert o1 <= o2;
    DivMonotone(o1, o2, timing.beatDuration);
  }

  /** At the start of each pass of the loop the index is back at 0. */
  lemma LoopIndexWrapsToZero(timing: Timing, passes: nat)
    requires timing.Valid()
    ensures LoopIndex(timing.loopStart + passes as real * timing.loopDuration, timing) == 0
  {
    var e := passes as real * timing.loopDuration;
    assert e / timing.loopDuration == passes as real;
    assert timing.loopStart + e - timing.loopStart == e;
  }

  /** Rhythm `x---` over a 4 s loop: 2.5 s into the loop is beat 2, a `-`. */
  lemma FourBeatExample(loopStart: real)
    ensures var timing := Timing(loopStart, loopStart, 4.0, BeatDuration(4.0, 4));
      BeatAt(loopStart + 2.5, timing, "x---", None) == (Beat(None, Some(2)), Some('-'))
  {
    var timing := Timing(loopStart, loopStart, 4.0, BeatDuration(4.0, 4));
    assert loopStart + 2.5 - loopStart == 2.5;
    assert LoopOffset(2.5, 4.0) == 2.5 by {
      assert (2.5 / 4.0).Floor == 0;
    }
    assert (2.5 / 1.0).Floor == 2;
  }

  /** The start of `getBeatString`'s text: the buildup rhythm from the buildup beat, the
      loop rhythm from the loop beat, or (no beat yet) the whole buildup rhythm. */
  function BeatStringHead(rhythm: string, buildupRhythm: Option<string>, beat: Beat): string {
    if beat.buildup.Some? && buildupRhythm.Some? then Text.SliceFrom(buildupRhythm.value, beat.buildup.value)
    else if beat.loop.Some? then Text.SliceFrom(rhythm, beat.loop.value)
    else if buildupRhythm.Some? then buildupRhythm.value
    else ""
  }

  /** The `while (beats.length < length) beats += song["rhythm"]` loop as a function. */
  function PadWithRhythm(beats: string, rhythm: string, length: int): string
    requires |rhythm| > 0
    decreases length - |beats|
  {
    if |beats| >= length then beats else PadWithRhythm(beats + rhythm, rhythm, length)
  }

  /** How many copies of a rhythm of `step` characters reach `length` from `from` characters. */
  function CopiesNeeded(from: int, step: nat, length: int): nat
    requires step > 0
    decreases length - from
  {
    if from >= length then 0 else 1 + CopiesNeeded(from + step, step, length)
  }

  /** The padded text is the head followed by whole copies of the rhythm; it is at least
      `length` long, and no copy more than needed is added. */
  lemma {:induction false} PadWithRhythmShape(beats: string, rhythm: string, length: int)
    requires |rhythm| > 0
    ensures var k := CopiesNeeded(|beats|, |rhythm|, length);
      PadWithRhythm(beats, rhythm, length) == beats + Text.Repeat(rhythm, k)
    ensures |PadWithRhythm(beats, rhythm, length)| >= length
    ensures |beats| < length ==> |PadWithRhythm(beats, rhythm, length)| < length + |rhythm|
    ensures |beats| >= length ==> PadWithRhythm(beats, rhythm, length) == beats
    decreases length - |beats|
  {
    if |beats| < length {
      PadWithRhythmShape(beats + rhythm, rhythm, length);
      var k := CopiesNeeded(|beats| + |rhythm|, |rhythm|, length);
      assert (beats + rhythm) + Text.Repeat(rhythm, k) == beats + Text.Repeat(rhythm, k + 1);
    } else {
      assert beats + Text.Repeat(rhythm, 0) == beats;
    }
  }
}
