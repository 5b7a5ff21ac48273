/**
 * Score fusion and the whole analysis: decode, extract, score, and fold the three
 * sub-scores into one rounded integer in [0, 100]. A decoding failure or a recording
 * without any detected pitch yields 0.
 */
module Intonation {
  import opened Wrappers
  import opened Seqs
  import opened Segments
  import opened Pcm
  import opened Extraction
  import opened Phrases
  import opened Scorers
  import opened Arith

  const PhraseFinalWeight: real := 0.4
  const PitchRangeWeight: real := 0.3
  const AccentWeight: real := 0.3

  /** `Math.max(lo, Math.min(hi, x))`. */
  function Clamp(x: real, lo: real, hi: real): (y: real)
    requires lo <= hi
    ensures lo <= y <= hi
    ensures lo <= x <= hi ==> y == x
    ensures x < lo ==> y == lo
    ensures x > hi ==> y == hi
  {
    MaxReal(lo, MinReal(hi, x))
  }

  /** `Math.round`: the nearest integer, halves rounded up. */
  function RoundHalfUp(x: real): (n: int)
    ensures n as real - 0.5 <= x < n as real + 0.5
  {
    (x + 0.5).Floor
  }

  datatype SubScores = SubScores(phraseFinal: real, pitchRange: real, accentPattern: real)

  /** The ranges the three scorers are proved to keep. */
  predicate InRange(s: SubScores)
  {
    && 0.0 <= s.phraseFinal <= 100.0
    && 0.0 <= s.pitchRange <= 100.0
    && 50.0 <= s.accentPattern <= 100.0
  }

  function WeightedSum(s: SubScores): real
  {
    s.phraseFinal * PhraseFinalWeight + s.pitchRange * PitchRangeWeight + s.accentPattern * AccentWeight
  }

  /** The weighted sum, clamped to [0, 100], rounded half up. */
  function Fuse(s: SubScores): (score: int)
    ensures 0 <= score <= 100
    ensures InRange(s) ==> score as real - 0.5 <= WeightedSum(s) < score as real + 0.5
  {
    RoundHalfUp(Clamp(WeightedSum(s), 0.0, 100.0))
  }

  /** With in-range sub-scores the clamp never bites and the result is at least 15. */
  lemma FuseBounds(s: SubScores)
    requires InRange(s)
    ensures 15.0 <= WeightedSum(s) <= 100.0
    ensures 15 <= Fuse(s) <= 100
  {
  }

  /** The three scorers run on one pitch/intensity series. */
  function SubScoresOf(segs: seq<Segment>): (s: SubScores)
    requires |segs| > 0
    ensures InRange(s)
  {
    SubScores(PhraseFinalScore(segs), PitchRangeScore(segs), AccentPatternScore(segs))
  }

  /** Why no score was computed; the source maps every such case to 0. */
  datatype Unscorable = HeaderLongerThanBuffer | NoPitchDetected

  datatype Analysis = Scored(parts: SubScores, score: int) | Unscored(reason: Unscorable)

  /** The analysis of a series: the empty series short-circuits before any scorer runs. */
  function ScoreSeries(segs: seq<Segment>): (a: Analysis)
    ensures a.Unscored? <==> |segs| == 0
    ensures a.Scored? ==> InRange(a.parts) && 15 <= a.score <= 100
  {
    if |segs| == 0 then Unscored(NoPitchDetected)
    else
      var parts := SubScoresOf(segs);
      FuseBounds(parts);
      Scored(parts, Fuse(parts))
  }

  /** The analysis of a byte buffer, with the reason when there is no score. */
  function Analyze(buf: seq<byte>, detect: Detector, root: Root): (a: Analysis)
    ensures a == Unscored(HeaderLongerThanBuffer) <==> HasEbmlMagic(buf) && |buf| < HeaderSkip
    ensures a.Scored? ==> InRange(a.parts) && 15 <= a.score <= 100
  {
    match Decode(buf)
    case Failure(_) => Unscored(HeaderLongerThanBuffer)
    case Success(samples) => ScoreSeries(PitchTrack(samples, detect, root))
  }

  /**
   * `measureKansaiIntonation` as a value: the score, or 0 when there is none. A
   * computed score is never below 15, so 0 means exactly "nothing was scored".
   */
  function IntonationScore(buf: seq<byte>, detect: Detector, root: Root): (score: int)
    ensures 0 <= score <= 100
    ensures score == 0 <==> Analyze(buf, detect, root).Unscored?
  {
    match Analyze(buf, detect, root)
    case Unscored(_) => 0
    case Scored(_, s) => s
  }

  /** The source's control flow: the decode loop, the window loop, the early returns. */
  method MeasureKansaiIntonation(buf: seq<byte>, detect: Detector, root: Root) returns (score: int)
    ensures score == IntonationScore(buf, detect, root)
  {
    var offset := HeaderOffset(buf);
    var sampleCount := SampleCount(buf);
    if sampleCount < 0 {
      // `new Float32Array(sampleCount)` throws; the catch block returns 0.
      return 0;
    }
    var samples: seq<real> := [];
    var i := 0;
    while i < sampleCount
      invariant 0 <= i <= sampleCount
      invariant |samples| == i
      invariant forall j :: 0 <= j < i ==> samples[j] == SampleAt(buf, offset + 2 * j)
    {
      samples := samples + [SampleAt(buf, offset + 2 * i)];
      i := i + 1;
    }
    var decoded := seq(sampleCount, j requires 0 <= j < sampleCount => SampleAt(buf, offset + 2 * j));
    assert samples == decoded;
    assert Decode(buf) == Success(decoded);
    var segs := ExtractSegments(samples, detect, root);
    if |segs| == 0 {
      return 0;
    }
    var phraseFinal := PhraseFinalScore(segs);
    var pitchRange := PitchRangeScore(segs);
    var accentPattern := AccentPatternScore(segs);
    score := Fuse(SubScores(phraseFinal, pitchRange, accentPattern));
  }

  /** An empty buffer scores 0, whatever the detector. */
  lemma EmptyBufferScoresZero(detect: Detector, root: Root)
    ensures IntonationScore([], detect, root) == 0
  {
    assert Decode([]) == Success([]);
    assert Windows([]) == [];
  }

  /** When the detector finds no pitch in any window (silence), the score is 0. */
  lemma SilenceScoresZero(buf: seq<byte>, detect: Detector, root: Root)
    requires forall w :: detect(w).None?
    ensures IntonationScore(buf, detect, root) == 0
  {
    match Decode(buf)
    case Failure(_) =>
    case Success(samples) =>
      DetectionsEmptyIff(Windows(samples), detect, root);
  }

  /**
   * A recording of digital silence (all bytes zero, of any length) scores 0 with any
   * detector that finds no pitch in an all-zero window.
   */
  lemma ZeroBufferScoresZero(len: nat, detect: Detector, root: Root)
    requires QuietOnSilence(detect)
    ensures IntonationScore(seq(len, i => 0 as byte), detect, root) == 0
  {
    var buf: seq<byte> := seq(len, i => 0 as byte);
    if |buf| >= 4 {
      assert buf[..4][0] == 0;
    }
    assert !HasEbmlMagic(buf);
    match Decode(buf)
    case Failure(_) =>
    case Success(samples) =>
      forall i | 0 <= i < |samples|
        ensures samples[i] == 0.0
      {
        assert samples[i] == SampleAt(buf, 2 * i);
      }
      SilentWindows(samples);
  }

  /** A series on one steady pitch scores exactly 43: contour 70, range 0, accent 50. */
  lemma SteadyPitchScores43(segs: seq<Segment>)
    requires |segs| > 0
    requires forall i :: 0 <= i < |segs| ==> segs[i].pitch == segs[0].pitch
    ensures SubScoresOf(segs) == SubScores(70.0, 0.0, 50.0)
    ensures Fuse(SubScoresOf(segs)) == 43
  {
    SteadyTailScoresSeventy(segs);
    var ps := Pitches(segs);
    assert PitchRange(segs) == 0.0;
    var phrases := SplitIntoPhrases(segs);
    forall k | 0 <= k < |phrases|
      ensures !DetectAccentPattern(phrases[k])
    {
      PhraseIsSteady(segs, phrases, k);
      SteadyPhraseHasNoAccent(phrases[k]);
    }
    assert WeightedSum(SubScores(70.0, 0.0, 50.0)) == 43.0;
  }

  /** `n` segments at 150 Hz followed by `n` at 250 Hz, all at one intensity. */
  function StepUtterance(n: nat, level: real): (segs: seq<Segment>)
    ensures |segs| == 2 * n
  {
    seq(2 * n, i requires 0 <= i < 2 * n => if i < n then Segment(150.0, level) else Segment(250.0, level))
  }

  /**
   * A rising step from 150 Hz to 250 Hz scores 82: the final contour is level (the
   * last fifth lies on the upper step) and earns 70, the 100 Hz range earns 80, and
   * the single phrase ends on a raised third and earns 100.
   */
  lemma StepUpScores82(n: nat, level: real)
    requires n >= 2
    requires level >= 0.0
    ensures SubScoresOf(StepUtterance(n, level)) == SubScores(70.0, 80.0, 100.0)
    ensures Fuse(SubScoresOf(StepUtterance(n, level))) == 82
  {
    var segs := StepUtterance(n, level);
    assert TailStart(2 * n) >= n;
    SteadyTailScoresSeventy(segs);
    StepRange(n, level);
    assert PitchRangeScore(segs) == 80.0;
    StepAccent(n, level);
    assert WeightedSum(SubScores(70.0, 80.0, 100.0)) == 82.0;
  }

  /** With a single segment per level the accent test has too short a phrase: the score is 67. */
  lemma ShortStepScores67(level: real)
    requires level >= 0.0
    ensures SubScoresOf(StepUtterance(1, level)) == SubScores(70.0, 80.0, 50.0)
    ensures Fuse(SubScoresOf(StepUtterance(1, level))) == 67
  {
    var segs := StepUtterance(1, level);
    StepRange(1, level);
    assert PitchRangeScore(segs) == 80.0;
    SteadyIntensityIsOnePhrase(segs);
    assert !DetectAccentPattern(SplitIntoPhrases(segs)[0]);
    assert WeightedSum(SubScores(70.0, 80.0, 50.0)) == 67.0;
  }

  lemma StepRange(n: nat, level: real)
    requires n >= 1
    ensures PitchRange(StepUtterance(n, level)) == 100.0
  {
    var segs := StepUtterance(n, level);
    assert segs[n].pitch - segs[0].pitch == 100.0;
    forall i, j | 0 <= i < |segs| && 0 <= j < |segs|
      ensures segs[i].pitch - segs[j].pitch <= 100.0
    {
    }
  }

  lemma StepAccent(n: nat, level: real)
    requires n >= 2
    requires level >= 0.0
    ensures AccentPatternScore(StepUtterance(n, level)) == 100.0
  {
    var segs := StepUtterance(n, level);
    SteadyIntensityIsOnePhrase(segs);
    var ps := Pitches(segs);
    var third := |ps| / 3;
    StepMean(n, level);
    StepLastThird(n, level);
    assert Average(ps[|ps| - third..]) > Average(ps) * AccentRatio;
    assert ThirdStandsOut(ps);
    assert DetectAccentPattern(segs);
  }

  /** The step's mean pitch lies halfway, at 200 Hz. */
  lemma StepMean(n: nat, level: real)
    requires n >= 1
    ensures Average(Pitches(StepUtterance(n, level))) == 200.0
  {
    var ps: seq<real> := Pitches(StepUtterance(n, level));
    var low := ps[..n];
    var high := ps[n..];
    assert ps == low + high;
    SumConstant(low, 150.0);
    SumConstant(high, 250.0);
    SumAppend(low, high);
    var d := |ps| as real;
    assert Sum(ps) == 200.0 * d;
    assert Average(ps) == (200.0 * d) / d;
    DivCancel(200.0, d);
  }

  /** The last third of the step lies on the upper pitch. */
  lemma StepLastThird(n: nat, level: real)
    requires n >= 2
    ensures Average(Pitches(StepUtterance(n, level))[2 * n - (2 * n) / 3..]) == 250.0
  {
    var ps: seq<real> := Pitches(StepUtterance(n, level));
    var tail := ps[2 * n - (2 * n) / 3..];
    AverageConstant(tail, 250.0);
  }

  /** Every phrase of a steady-pitch series is itself steady. */
  lemma PhraseIsSteady(segs: seq<Segment>, phrases: seq<seq<Segment>>, k: nat)
    requires |segs| > 0
    requires forall i :: 0 <= i < |segs| ==> segs[i].pitch == segs[0].pitch
    requires phrases == SplitIntoPhrases(segs)
    requires k < |phrases|
    ensures forall i :: 0 <= i < |phrases[k]| ==> phrases[k][i].pitch == phrases[k][0].pitch
  {
    FlattenMember(phrases, k);
  }

  /** Every element of a member of `ss` occurs in `Flatten(ss)`. */
  lemma {:induction false} FlattenMember<T>(ss: seq<seq<T>>, k: nat)
    requires k < |ss|
    ensures forall i :: 0 <= i < |ss[k]| ==> ss[k][i] in Flatten(ss)
  {
    if k > 0 {
      FlattenMember(ss[1..], k - 1);
    }
  }
}
