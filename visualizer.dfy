/** The beat visualizer: the beat count derived from the time-signature
    text, the vertex list, the render decisions (outline, vertex markers,
    highlighted vertex) and the play/tick effect as a state machine. */
module Visualizer {
  import opened Wrappers
  import EcmaScript

  // ---------------------------------------------------------------------
  // Beat count
  // ---------------------------------------------------------------------

  /** The number of beats per measure: the time signature is split on `/`
      and the first piece read with parseInt; a number of at least 2 is the
      beat count, anything else (NaN, 1, 0, negatives) gives 4. */
  function BeatCount(timeSignature: string): (beats: int)
    ensures beats >= 2
  {
    var parts := EcmaScript.Split(timeSignature, '/');
    var numerator := EcmaScript.ParseInt(parts[0]);
    if numerator.Some? && numerator.value >= 2 then numerator.value else 4
  }

  /** Only the text before the first `/` matters: the denominator, and
      whether there is one at all, never changes the beat count. */
  lemma BeatCountIgnoresDenominator(numerator: string, denominator: string)
    requires '/' !in numerator
    ensures BeatCount(numerator + "/" + denominator) == BeatCount(numerator)
  {
    assert numerator + "/" + denominator == numerator + ("/" + denominator);
    EcmaScript.SplitHead(numerator, "/" + denominator, '/');
    assert numerator + "" == numerator;
    EcmaScript.SplitHead(numerator, "", '/');
  }

  /** A numerator that reads as white space, a sign and digits (then
      anything without a `/`) gives its value when that is at least 2, and
      4 otherwise. */
  lemma BeatCountOfNumber(numerator: string, ws: string, sign: string, digits: string, rest: string,
                          denominator: string)
    requires EcmaScript.IsNumericPrefix(numerator, ws, sign, digits, rest)
    requires '/' !in numerator
    ensures var n := EcmaScript.SignedValue(sign, digits);
      BeatCount(numerator + "/" + denominator) == if n >= 2 then n else 4
  {
    BeatCountIgnoresDenominator(numerator, denominator);
    assert numerator + "" == numerator;
    EcmaScript.SplitHead(numerator, "", '/');
    EcmaScript.ParseIntComplete(numerator, ws, sign, digits, rest);
  }

  /** A numerator that is not a number at all gives 4. */
  lemma BeatCountOfNaN(numerator: string, denominator: string)
    requires '/' !in numerator
    requires !exists ws, sign, digits, rest :: EcmaScript.IsNumericPrefix(numerator, ws, sign, digits, rest)
    ensures BeatCount(numerator + "/" + denominator) == 4
  {
    BeatCountIgnoresDenominator(numerator, denominator);
    assert numerator + "" == numerator;
    EcmaScript.SplitHead(numerator, "", '/');
    EcmaScript.ParseIntNaN(numerator);
  }

  // ---------------------------------------------------------------------
  // Vertices
  // ---------------------------------------------------------------------

  const SvgSize: real := 400.0
  const Radius: real := 150.0
  /** Both coordinates of the centre of the drawing. */
  const Center: real := SvgSize / 2.0

  /** A vertex. `At` has exact coordinates; `OnCircle` stands for the point
      (cx, cy) + radius * (cos a, sin a) with a = turn * 2 * pi - pi / 2,
      whose floating-point coordinates are not modelled. */
  datatype Point =
    | At(x: real, y: real)
    | OnCircle(cx: real, cy: real, radius: real, turn: real)

  /** The vertex list for a beat count: none below 2 beats; for 2 beats a
      horizontal segment of half-length radius / 1.5 through the centre;
      otherwise one vertex per beat on the circle, the first at the top
      (turn 0) and the others clockwise in beat order. */
  function Vertices(beats: int): (points: seq<Point>)
    ensures |points| == if beats < 2 then 0 else beats
    ensures beats == 2 ==> points == [At(100.0, 200.0), At(300.0, 200.0)]
  {
    if beats < 2 then []
    else if beats == 2 then [At(Center - Radius / 1.5, Center), At(Center + Radius / 1.5, Center)]
    else seq(beats, i requires 0 <= i < beats => OnCircle(Center, Center, Radius, i as real / beats as real))
  }

  /** Above 2 beats every vertex lies on the circle of radius 150 about the
      centre (200, 200), vertex 0 at the top, and the vertices go round
      once, strictly clockwise, in beat order. */
  lemma VerticesOnCircle(beats: int)
    requires beats > 2
    ensures forall i :: 0 <= i < beats ==>
      Vertices(beats)[i].OnCircle? && Vertices(beats)[i].cx == 200.0 && Vertices(beats)[i].cy == 200.0 &&
      Vertices(beats)[i].radius == 150.0 && 0.0 <= Vertices(beats)[i].turn < 1.0
    ensures Vertices(beats)[0].turn == 0.0
    ensures forall i, j :: 0 <= i < j < beats ==> Vertices(beats)[i].turn < Vertices(beats)[j].turn
  {
    var points := Vertices(beats);
    forall i | 0 <= i < beats
      ensures points[i] == OnCircle(200.0, 200.0, 150.0, i as real / beats as real)
      ensures 0.0 <= points[i].turn < 1.0
    {
      TurnInRange(i, beats);
    }
    forall i, j | 0 <= i < j < beats
      ensures points[i].turn < points[j].turn
    {
      TurnIncreases(i, j, beats);
    }
  }

  lemma TurnInRange(i: nat, n: nat)
    requires i < n
    ensures 0.0 <= i as real / n as real < 1.0
  {
    var d := n as real;
    assert i as real / d * d == i as real;
  }

  lemma TurnIncreases(i: nat, j: nat, n: nat)
    requires i < j < n
    ensures i as real / n as real < j as real / n as real
  {
    var d := n as real;
    assert i as real / d * d == i as real;
    assert j as real / d * d == j as real;
  }

  /** The `points` derivation: starting from an empty list, the vertices
      are pushed one at a time, none below two beats. */
  method Points(beats: int) returns (points: seq<Point>)
    ensures points == Vertices(beats)
  {
    points := [];
    if beats < 2 {
      return;
    }
    if beats == 2 {
      points := points + [At(Center - Radius / 1.5, Center)];
      points := points + [At(Center + Radius / 1.5, Center)];
    } else {
      for i := 0 to beats
        invariant |points| == i
        invariant forall k :: 0 <= k < i ==> points[k] == Vertices(beats)[k]
      {
        points := points + [OnCircle(Center, Center, Radius, i as real / beats as real)];
      }
    }
  }

  // ---------------------------------------------------------------------
  // Render decisions
  // ---------------------------------------------------------------------

  /** The connecting edges drawn among the vertices. */
  datatype Outline = Polygon | Segment | NoOutline

  /** A closed polygon above 2 beats, a single segment for exactly 2 beats
      with 2 vertices, and nothing otherwise. */
  function OutlineOf(beats: int, points: seq<Point>): (outline: Outline)
    ensures outline == Polygon <==> beats > 2
    ensures outline == Segment <==> beats == 2 && |points| == 2
  {
    if beats > 2 then Polygon
    else if beats == 2 && |points| == 2 then Segment
    else NoOutline
  }

  /** For any time signature an outline is drawn: a segment exactly when
      the beat count is 2, a polygon otherwise. */
  lemma OutlineOfTimeSignature(timeSignature: string)
    ensures var beats := BeatCount(timeSignature);
      OutlineOf(beats, Vertices(beats)) == if beats == 2 then Segment else Polygon
  {
  }

  /** The small marker drawn at every vertex. */
  datatype Marker = Downbeat | Plain

  /** One marker per vertex; vertex 0 alone is the distinguished downbeat. */
  function VertexMarkers(points: seq<Point>): (markers: seq<Marker>)
    ensures |markers| == |points|
    ensures forall i :: 0 <= i < |markers| ==> (markers[i] == Downbeat <==> i == 0)
  {
    seq(|points|, i => if i == 0 then Downbeat else Plain)
  }

  /** `points[currentBeat - 1]`, which is `undefined` (None) outside the list. */
  function PointAt(points: seq<Point>, currentBeat: int): (p: Option<Point>)
    ensures p.Some? <==> 1 <= currentBeat <= |points|
    ensures p.Some? ==> p.value == points[currentBeat - 1]
  {
    if 1 <= currentBeat <= |points| then Some(points[currentBeat - 1]) else None
  }

  /** The glowing marker: drawn only while playing and only when the current
      beat names a vertex, at vertex `currentBeat - 1`. */
  function Highlight(isPlaying: bool, currentBeat: int, points: seq<Point>): (h: Option<Point>)
    ensures h.Some? <==> isPlaying && 1 <= currentBeat <= |points|
    ensures h.Some? ==> h.value == points[currentBeat - 1]
  {
    var currentPoint := PointAt(points, currentBeat);
    if isPlaying && currentPoint.Some? then currentPoint else None
  }

  // ---------------------------------------------------------------------
  // Beat scheduling
  // ---------------------------------------------------------------------

  /** The two clicks: the downbeat and every other beat. */
  datatype Cue = Accent | Regular

  /** The effect's early-return guard, negated: playing, a positive tempo
      and at least two beats. Only then is a timer armed. */
  predicate Runs(isPlaying: bool, bpm: int, beats: int) {
    isPlaying && bpm > 0 && beats >= 2
  }

  function Abs(x: int): int {
    if x < 0 then -x else x
  }

  /** JavaScript's `%`: the remainder of division truncated toward zero,
      with the sign of the dividend. */
  function JsRemainder(a: int, b: int): (r: int)
    requires b != 0
    ensures 0 <= a ==> 0 <= r < Abs(b)
    ensures a < 0 ==> -Abs(b) < r <= 0
  {
    if a >= 0 then a % Abs(b) else -((-a) % Abs(b))
  }

  /** The beat after `prev`, as the interval callback computes it. */
  function NextBeat(prev: int, beats: int): (next: int)
    requires beats >= 2
    ensures 0 <= prev ==> 1 <= next <= beats
  {
    JsRemainder(prev, beats) + 1
  }

  /** The cue played on arriving at a beat. */
  function CueFor(beat: int): (cue: Cue)
    ensures cue == Accent <==> beat == 1
  {
    if beat == 1 then Accent else Regular
  }

  /** The beat after `n` ticks of a timer armed on beat 1. */
  function BeatAfterTicks(beats: int, n: nat): (beat: int)
    requires beats >= 2
    ensures 1 <= beat <= beats
  {
    if n == 0 then 1 else NextBeat(BeatAfterTicks(beats, n - 1), beats)
  }

  /** The cues of one run of the timer: the Accent played when it is armed,
      then one cue per tick for the beat that tick arrives at. */
  function CueRun(beats: int, n: nat): (cues: seq<Cue>)
    requires beats >= 2
    ensures |cues| == n + 1 && cues[0] == Accent
  {
    seq(n + 1, k requires 0 <= k <= n => CueFor(BeatAfterTicks(beats, k)))
  }

  /** One more tick appends the cue of the beat it arrives at. */
  lemma CueRunStep(beats: int, n: nat)
    requires beats >= 2 && n >= 1
    ensures CueRun(beats, n) == CueRun(beats, n - 1) + [CueFor(BeatAfterTicks(beats, n))]
  {
    var longer, shorter := CueRun(beats, n), CueRun(beats, n - 1) + [CueFor(BeatAfterTicks(beats, n))];
    assert |longer| == |shorter|;
    forall k | 0 <= k < |longer|
      ensures longer[k] == shorter[k]
    {
      if k < n {
        assert shorter[k] == CueRun(beats, n - 1)[k];
      }
    }
  }

  /** From a beat in range, a tick advances to the next beat, and from the
      last beat (or from 0) it wraps to beat 1. */
  lemma NextBeatAdvances(prev: int, beats: int)
    requires beats >= 2 && 0 <= prev <= beats
    ensures NextBeat(prev, beats) == if prev < beats then prev + 1 else 1
  {
    if prev == beats {
      DivModUnique(beats, beats, 1, 0);
    } else {
      DivModUnique(prev, beats, 0, prev);
    }
  }

  lemma MulMonotonic(d: int, n: int)
    requires d >= 1 && n > 0
    ensures d * n >= n
  {
  }

  /** Euclidean division is unique: `a == q * n + r` with `0 <= r < n`
      fixes both the quotient and the remainder. */
  lemma DivModUnique(a: int, n: int, q: int, r: int)
    requires n > 0 && a == q * n + r && 0 <= r < n
    ensures a % n == r && a / n == q
  {
    var q', r' := a / n, a % n;
    assert a == q' * n + r';
    assert (q - q') * n == r' - r;
    assert (q' - q) * n == r - r';
    if q - q' >= 1 {
      MulMonotonic(q - q', n);
    } else if q' - q >= 1 {
      MulMonotonic(q' - q, n);
    }
  }

  lemma ModSuccessor(m: nat, b: int)
    requires b >= 1
    ensures (m % b + 1) % b == (m + 1) % b
  {
    var q, r := m / b, m % b;
    assert m == q * b + r;
    if r + 1 < b {
      DivModUnique(m + 1, b, q, r + 1);
      DivModUnique(r + 1, b, 0, r + 1);
    } else {
      assert m + 1 == (q + 1) * b + 0;
      DivModUnique(m + 1, b, q + 1, 0);
      DivModUnique(r + 1, b, 1, 0);
    }
  }

  /** On a non-negative dividend and a positive divisor JavaScript's `%`
      agrees with Euclidean `%`. */
  lemma JsRemainderOfNatural(a: int, b: int)
    requires a >= 0 && b > 0
    ensures JsRemainder(a, b) == a % b
  {
  }

  /** From beat 1, `n` ticks give beat `n % beats + 1`: the beats run
      1, 2, ..., beats, 1, 2, ... */
  lemma {:induction false} BeatAfterTicksCycles(beats: int, n: nat)
    requires beats >= 2
    ensures BeatAfterTicks(beats, n) == n % beats + 1
  {
    if n == 0 {
      DivModUnique(0, beats, 0, 0);
    } else {
      var prev := BeatAfterTicks(beats, n - 1);
      BeatAfterTicksCycles(beats, n - 1);
      assert prev == (n - 1) % beats + 1;
      JsRemainderOfNatural(prev, beats);
      assert BeatAfterTicks(beats, n) == prev % beats + 1;
      ModSuccessor(n - 1, beats);
    }
  }

  /** In a run of the timer, the `k`-th cue is an Accent exactly when `k`
      is a whole number of measures. */
  lemma CueRunAccents(beats: int, n: nat, k: nat)
    requires beats >= 2 && k <= n
    ensures CueRun(beats, n)[k] == Accent <==> k % beats == 0
  {
    BeatAfterTicksCycles(beats, k);
  }

  /** One measure after arming: an Accent, then `beats - 1` Regular cues,
      then the Accent of the next measure. */
  lemma FirstMeasureCues(beats: int)
    requires beats >= 2
    ensures CueRun(beats, beats) == [Accent] + seq(beats - 1, _ => Regular) + [Accent]
  {
    var run := CueRun(beats, beats);
    var expected := [Accent] + seq(beats - 1, _ => Regular) + [Accent];
    forall k | 0 <= k <= beats
      ensures run[k] == expected[k]
    {
      BeatAfterTicksCycles(beats, k);
      if k < beats {
        DivModUnique(k, beats, 0, k);
      } else {
        DivModUnique(k, beats, 1, 0);
      }
    }
  }

  /** The play/tick effect. `timerArmed` stands for the interval handle and
      `liveTimers` counts the intervals registered with the host and not
      yet cleared. */
  class Scheduler {
    var isPlaying: bool
    var bpm: int
    var beats: int
    var currentBeat: int
    var timerArmed: bool
    ghost var liveTimers: nat
    /** Ticks since the live timer was armed. */
    ghost var ticks: nat
    /** Every cue emitted so far, in order. */
    ghost var cues: seq<Cue>
    /** Where in `cues` the live timer's run begins. */
    ghost var runStart: nat

    /** The handle is armed exactly when one interval is live. */
    ghost predicate TimerTracked()
      reads this
    {
      liveTimers == if timerArmed then 1 else 0
    }

    /** At most one live interval; one exactly while running; the current
        beat is where the ticks since arming have brought it, and 0 when
        not running; the cues since arming are exactly that run's cues. */
    ghost predicate Valid()
      reads this
    {
      TimerTracked()
      && timerArmed == Runs(isPlaying, bpm, beats)
      && (timerArmed ==> 1 <= currentBeat <= beats && currentBeat == BeatAfterTicks(beats, ticks))
      && (timerArmed ==> runStart + ticks + 1 == |cues| && cues[runStart..] == CueRun(beats, ticks))
      && (!timerArmed ==> currentBeat == 0)
    }

    /** Mounting: the beat starts at 0 and the effect runs once. */
    constructor (isPlaying: bool, bpm: int, beats: int)
      ensures Valid()
      ensures this.isPlaying == isPlaying && this.bpm == bpm && this.beats == beats
      ensures Runs(isPlaying, bpm, beats) ==> currentBeat == 1 && cues == [Accent]
      ensures !Runs(isPlaying, bpm, beats) ==> currentBeat == 0 && cues == []
    {
      this.isPlaying := isPlaying;
      this.bpm := bpm;
      this.beats := beats;
      currentBeat := 0;
      timerArmed := false;
      liveTimers := 0;
      ticks := 0;
      cues := [];
      runStart := 0;
      new;
      var cue := Sync();
    }

    /** One run of the effect after a dependency changed: the previous
        run's cleanup clears its interval, then either the beat is reset to
        0 and nothing is armed, or beat 1 is played at once and a fresh
        interval is armed. */
    method Sync() returns (cue: Option<Cue>)
      requires TimerTracked()
      modifies this
      ensures Valid()
      ensures isPlaying == old(isPlaying) && bpm == old(bpm) && beats == old(beats)
      ensures Runs(isPlaying, bpm, beats) ==>
        currentBeat == 1 && timerArmed && ticks == 0 && cue == Some(Accent) && cues == old(cues) + [Accent]
      ensures !Runs(isPlaying, bpm, beats) ==>
        currentBeat == 0 && !timerArmed && cue == None && cues == old(cues)
    {
      if timerArmed {
        timerArmed := false;
        liveTimers := liveTimers - 1;
      }
      if !Runs(isPlaying, bpm, beats) {
        currentBeat := 0;
        cue := None;
        return;
      }
      cue := Some(Accent);
      runStart := |cues|;
      cues := cues + [Accent];
      currentBeat := 1;
      timerArmed := true;
      liveTimers := liveTimers + 1;
      ticks := 0;
      assert cues[runStart..] == [Accent] == CueRun(beats, 0);
    }

    /** One firing of the interval: advance the beat and play its cue. */
    method Tick() returns (cue: Cue)
      requires Valid() && timerArmed
      modifies this
      ensures Valid() && timerArmed
      ensures isPlaying == old(isPlaying) && bpm == old(bpm) && beats == old(beats)
      ensures currentBeat == NextBeat(old(currentBeat), beats) && 1 <= currentBeat <= beats
      ensures cue == Accent <==> currentBeat == 1
      ensures cues == old(cues) + [cue] && ticks == old(ticks) + 1
    {
      var nextBeat := JsRemainder(currentBeat, beats) + 1;
      if nextBeat == 1 {
        cue := Accent;
      } else {
        cue := Regular;
      }
      ghost var before := cues;
      cues := cues + [cue];
      currentBeat := nextBeat;
      ticks := ticks + 1;
      assert cue == CueFor(BeatAfterTicks(beats, ticks));
      CueRunStep(beats, ticks);
      assert cues[runStart..] == before[runStart..] + [cue];
    }

    /** A render with new props: the effect re-runs only when one of its
        dependencies changed, so a tempo or time-signature change while
        playing restarts at beat 1 with an Accent. */
    method SetProps(isPlaying: bool, bpm: int, beats: int) returns (cue: Option<Cue>)
      requires Valid()
      modifies this
      ensures Valid()
      ensures this.isPlaying == isPlaying && this.bpm == bpm && this.beats == beats
      ensures (old(this.isPlaying) != isPlaying || old(this.bpm) != bpm || old(this.beats) != beats) ==>
        (Runs(isPlaying, bpm, beats) ==> currentBeat == 1 && ticks == 0 && cue == Some(Accent) && cues == old(cues) + [Accent])
        && (!Runs(isPlaying, bpm, beats) ==> currentBeat == 0 && cue == None && cues == old(cues))
      ensures (old(this.isPlaying) == isPlaying && old(this.bpm) == bpm && old(this.beats) == beats) ==>
        cue == None && currentBeat == old(currentBeat) && ticks == old(ticks) && cues == old(cues)
        && timerArmed == old(timerArmed)
    {
      if this.isPlaying != isPlaying || this.bpm != bpm || this.beats != beats {
        this.isPlaying, this.bpm, this.beats := isPlaying, bpm, beats;
        cue := Sync();
      } else {
        cue := None;
      }
    }

    /** Unmounting runs the last cleanup: no interval stays live. */
    method Unmount()
      requires Valid()
      modifies this
      ensures !timerArmed && liveTimers == 0
      ensures isPlaying == old(isPlaying) && bpm == old(bpm) && beats == old(beats)
      ensures currentBeat == old(currentBeat) && ticks == old(ticks) && cues == old(cues)
    {
      if timerArmed {
        timerArmed := false;
        liveTimers := liveTimers - 1;
      }
    }
  }

  /** While the interval runs, the clicks it has played since it was armed
      are an Accent exactly on the first beat of every measure. */
  lemma ScheduledAccents(scheduler: Scheduler)
    requires scheduler.Valid() && scheduler.timerArmed
    ensures forall k :: 0 <= k <= scheduler.ticks ==>
      (scheduler.cues[scheduler.runStart + k] == Accent <==> k % scheduler.beats == 0)
  {
    var beats, ticks, start, cues := scheduler.beats, scheduler.ticks, scheduler.runStart, scheduler.cues;
    assert cues[start..] == CueRun(beats, ticks);
    forall k | 0 <= k <= ticks
      ensures cues[start + k] == Accent <==> k % beats == 0
    {
      assert cues[start + k] == cues[start..][k];
      CueRunAccents(beats, ticks, k);
    }
  }

  /** One measure after arming, the interval has played one Accent, then
      `beats - 1` Regular clicks, then the next measure's Accent. */
  lemma ScheduledFirstMeasure(scheduler: Scheduler)
    requires scheduler.Valid() && scheduler.timerArmed
    ensures scheduler.ticks == scheduler.beats ==>
      scheduler.cues[scheduler.runStart..] == [Accent] + seq(scheduler.beats - 1, _ => Regular) + [Accent]
  {
    FirstMeasureCues(scheduler.beats);
  }

  /** The glowing marker is drawn exactly while the interval runs, and then
      at the vertex of the current beat. */
  lemma HighlightFollowsTimer(scheduler: Scheduler)
    requires scheduler.Valid()
    ensures var points := Vertices(scheduler.beats);
      var h := Highlight(scheduler.isPlaying, scheduler.currentBeat, points);
      (h.Some? <==> scheduler.timerArmed) &&
      (h.Some? ==> h.value == points[scheduler.currentBeat - 1])
  {
  }
}
