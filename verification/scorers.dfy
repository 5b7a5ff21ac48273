/**
 * The three heuristic sub-scores: phrase-final contour, pitch range and accent pattern.
 * None of them clamps its own result; the fusion step clamps the weighted sum.
 */
module Scorers {
  import opened Seqs
  import opened Segments
  import opened Phrases
  import opened Arith

  // ---------------------------------------------------------------- phrase-final contour

  /** `Math.floor(n * 0.8)`: where the final fifth of the series starts. */
  function TailStart(n: nat): (start: nat)
    ensures start <= n
    ensures 5 * start <= 4 * n < 5 * start + 5
  {
    (4 * n) / 5
  }

  /** Relative change from `before` to `after`, in percent. */
  function PercentChange(before: Hz, after: Hz): (pct: real)
    ensures pct > -100.0
    ensures pct > 0.0 <==> after > before
    ensures pct == 0.0 <==> after == before
  {
    RelativeChange(before, after);
    (after - before) / before * 100.0
  }

  /** A change measured on a transposed pair is the same change. */
  lemma PercentChangeScale(c: real, before: Hz, after: Hz)
    requires c > 0.0
    ensures c * before > 0.0 && c * after > 0.0
    ensures PercentChange(c * before, c * after) == PercentChange(before, after)
  {
    MulSign(before, c);
    MulSign(after, c);
    assert c * before == before * c && c * after == after * c;
    RelativeChangeScale(c, before, after);
  }

  /**
   * `calculatePitchMovement`: the change in percent from the mean of the first
   * `floor(k/2)` pitches to the mean of the last `floor(k/2)`; 0 for fewer than 2.
   */
  function PitchMovement(ps: seq<Hz>): (delta: real)
    ensures |ps| < 2 ==> delta == 0.0
    ensures delta > -100.0
    ensures |ps| >= 2 ==>
      (delta > 0.0 <==> MeanPitch(ps[|ps| - |ps| / 2..]) > MeanPitch(ps[..|ps| / 2]))
  {
    if |ps| < 2 then 0.0
    else
      var half := |ps| / 2;
      PercentChange(MeanPitch(ps[..half]), MeanPitch(ps[|ps| - half..]))
  }

  /** For an odd count the middle pitch is in neither half: changing it changes nothing. */
  lemma MovementIgnoresMiddle(ps: seq<Hz>, x: Hz)
    requires |ps| % 2 == 1
    ensures PitchMovement(ps[|ps| / 2 := x]) == PitchMovement(ps)
  {
    var qs := ps[|ps| / 2 := x];
    var half := |ps| / 2;
    assert qs[..half] == ps[..half];
    assert qs[|ps| - half..] == ps[|ps| - half..];
  }

  /** A steady pitch has no movement. */
  lemma SteadyPitchNoMovement(ps: seq<Hz>)
    requires forall i :: 0 <= i < |ps| ==> ps[i] == ps[0]
    ensures PitchMovement(ps) == 0.0
  {
    if |ps| >= 2 {
      var half := |ps| / 2;
      AverageConstant(ps[..half], ps[0]);
      AverageConstant(ps[|ps| - half..], ps[0]);
      assert MeanPitch(ps[..half]) == MeanPitch(ps[|ps| - half..]);
    }
  }

  /** Movement is relative: transposing every pitch by the same factor leaves it unchanged. */
  lemma MovementScaleInvariant(c: real, ps: seq<Hz>, qs: seq<Hz>)
    requires c > 0.0
    requires qs == Scale(c, ps)
    ensures PitchMovement(qs) == PitchMovement(ps)
  {
    if |ps| >= 2 {
      var n := |ps|;
      var half := n / 2;
      var before := MeanPitch(ps[..half]);
      var after := MeanPitch(ps[n - half..]);
      AverageScalePrefix(c, ps, qs, half);
      AverageScaleSuffix(c, ps, qs, n - half);
      assert MeanPitch(qs[..half]) == c * before;
      assert MeanPitch(qs[n - half..]) == c * after;
      PercentChangeScale(c, before, after);
      assert PitchMovement(ps) == PercentChange(before, after);
      assert PitchMovement(qs) == PercentChange(c * before, c * after);
    }
  }

  /**
   * The contour policy: a rise scores above 80 (at most 100), a fall of less than 10 %
   * or no change scores exactly 70, a fall of 10 % or more scores at most 50.
   */
  function ContourScore(delta: real): (score: real)
    ensures 0.0 <= score <= 100.0
    ensures score > 80.0 <==> delta > 0.0
    ensures score == 70.0 <==> -10.0 < delta <= 0.0
    ensures score <= 50.0 <==> delta <= -10.0
    ensures score == 100.0 <==> delta >= 10.0
  {
    if delta > 0.0 then 80.0 + MinReal(20.0, delta * 2.0)
    else if delta > -10.0 then 70.0
    else MaxReal(0.0, 60.0 + delta)
  }

  /** Despite its jumps at -10 and 0, the contour policy never rewards a smaller rise more. */
  lemma ContourScoreMonotone(d1: real, d2: real)
    requires d1 <= d2
    ensures ContourScore(d1) <= ContourScore(d2)
  {
  }

  /** `analyzePhraseFinalPatterns`: the contour score of the movement over the final fifth. */
  function PhraseFinalScore(segs: seq<Segment>): (score: real)
    ensures 0.0 <= score <= 100.0
    ensures |segs| <= 5 ==> score == 70.0
  {
    var tail := segs[TailStart(|segs|)..];
    ContourScore(PitchMovement(Pitches(tail)))
  }

  /** A steady pitch over the final fifth scores exactly 70, however the pitch got there. */
  lemma SteadyTailScoresSeventy(segs: seq<Segment>)
    requires forall i :: TailStart(|segs|) <= i < |segs| ==> segs[i].pitch == segs[|segs| - 1].pitch
    ensures PhraseFinalScore(segs) == 70.0
  {
    var ps := Pitches(segs[TailStart(|segs|)..]);
    SteadyPitchNoMovement(ps);
  }

  /** Transposing the voice does not change the phrase-final score. */
  lemma PhraseFinalTransposeInvariant(c: real, segs: seq<Segment>)
    requires c > 0.0
    ensures PhraseFinalScore(Transpose(c, segs)) == PhraseFinalScore(segs)
  {
    var t := TailStart(|segs|);
    var ps := Pitches(segs[t..]);
    var qs := Pitches(Transpose(c, segs)[t..]);
    TransposeSuffix(c, segs, t);
    TransposePitches(c, segs[t..]);
    MovementScaleInvariant(c, ps, qs);
  }

  // ---------------------------------------------------------------- pitch range

  /** Highest minus lowest pitch. */
  function PitchRange(segs: seq<Segment>): (range: real)
    requires |segs| > 0
    ensures range >= 0.0
    ensures forall i, j :: 0 <= i < |segs| && 0 <= j < |segs| ==> segs[i].pitch - segs[j].pitch <= range
    ensures exists i, j :: 0 <= i < |segs| && 0 <= j < |segs| && segs[i].pitch - segs[j].pitch == range
  {
    var ps := Pitches(segs);
    assert forall i :: 0 <= i < |segs| ==> ps[i] == segs[i].pitch;
    Max(ps) - Min(ps)
  }

  /** 0.8 points per hertz of range, capped at 100. */
  function RangeScore(range: real): (score: real)
    requires range >= 0.0
    ensures 0.0 <= score <= 100.0
    ensures score == 100.0 <==> range >= 125.0
    ensures score < 100.0 ==> score * 125.0 == range * 100.0
  {
    MinReal(100.0, range / 100.0 * 80.0)
  }

  /** A wider range never scores lower. */
  lemma RangeScoreMonotone(r1: real, r2: real)
    requires 0.0 <= r1 <= r2
    ensures RangeScore(r1) <= RangeScore(r2)
  {
  }

  /** `analyzePitchRange`. */
  function PitchRangeScore(segs: seq<Segment>): (score: real)
    requires |segs| > 0
    ensures 0.0 <= score <= 100.0
    ensures score == 100.0 <==> PitchRange(segs) >= 125.0
  {
    RangeScore(PitchRange(segs))
  }

  // ---------------------------------------------------------------- accent pattern

  /** Factor over the phrase mean that a third of the phrase must exceed. */
  const AccentRatio: real := 1.1

  /**
   * The accent test on a pitch contour: the mean of the first or of the last
   * `floor(n/3)` pitches exceeds 1.1 times the overall mean.
   */
  predicate ThirdStandsOut(ps: seq<real>)
    requires |ps| >= 3
  {
    var third := |ps| / 3;
    var mean := Average(ps);
    StandsOut(Average(ps[..third]), mean) || StandsOut(Average(ps[|ps| - third..]), mean)
  }

  /** A part stands out when its mean pitch exceeds the reference by the accent ratio. */
  predicate StandsOut(part: real, mean: real)
  {
    part > mean * AccentRatio
  }

  /** Standing out is a relative test: it survives a common change of unit. */
  lemma StandsOutScale(c: real, part: real, mean: real, cpart: real, cmean: real)
    requires c > 0.0
    requires cpart == c * part && cmean == c * mean
    ensures StandsOut(cpart, cmean) == StandsOut(part, mean)
  {
    CompareScaled(c, part, mean, cpart, cmean, AccentRatio);
  }

  /** `detectKansaiAccentPattern`: never for fewer than 3 segments. */
  function DetectAccentPattern(phrase: seq<Segment>): (matched: bool)
    ensures matched ==> |phrase| >= 3
  {
    |phrase| >= 3 && ThirdStandsOut(Pitches(phrase))
  }

  /** A phrase spoken on one pitch has no accent. */
  lemma SteadyPhraseHasNoAccent(phrase: seq<Segment>)
    requires forall i :: 0 <= i < |phrase| ==> phrase[i].pitch == phrase[0].pitch
    ensures !DetectAccentPattern(phrase)
  {
    if |phrase| >= 3 {
      var ps := Pitches(phrase);
      var third := |phrase| / 3;
      AverageConstant(ps, phrase[0].pitch);
      AverageConstant(ps[..third], phrase[0].pitch);
      AverageConstant(ps[|ps| - third..], phrase[0].pitch);
    }
  }

  /** The accent test is relative: scaling every pitch does not change it. */
  lemma ThirdStandsOutScale(c: real, ps: seq<real>, qs: seq<real>)
    requires c > 0.0
    requires qs == Scale(c, ps)
    requires |ps| >= 3
    ensures ThirdStandsOut(qs) == ThirdStandsOut(ps)
  {
    var n := |ps|;
    var third := n / 3;
    var mean := Average(ps);
    var first := Average(ps[..third]);
    var last := Average(ps[n - third..]);
    assert |qs| == n;
    ThirdAveragesScale(c, ps, qs);
    var qmean := Average(qs);
    var qfirst := Average(qs[..third]);
    var qlast := Average(qs[n - third..]);
    StandsOutScale(c, first, mean, qfirst, qmean);
    StandsOutScale(c, last, mean, qlast, qmean);
  }

  /** The three averages the accent test compares all scale with the pitches. */
  lemma ThirdAveragesScale(c: real, ps: seq<real>, qs: seq<real>)
    requires qs == Scale(c, ps)
    requires |ps| >= 3
    ensures Average(qs) == c * Average(ps)
    ensures Average(qs[..|ps| / 3]) == c * Average(ps[..|ps| / 3])
    ensures Average(qs[|ps| - |ps| / 3..]) == c * Average(ps[|ps| - |ps| / 3..])
  {
    AverageScale(c, ps);
    AverageScalePrefix(c, ps, qs, |ps| / 3);
    AverageScaleSuffix(c, ps, qs, |ps| - |ps| / 3);
  }

  /** Transposing the phrase does not change the accent test. */
  lemma AccentTransposeInvariant(c: real, phrase: seq<Segment>)
    requires c > 0.0
    ensures DetectAccentPattern(Transpose(c, phrase)) == DetectAccentPattern(phrase)
  {
    if |phrase| >= 3 {
      TransposePitches(c, phrase);
      ThirdStandsOutScale(c, Pitches(phrase), Pitches(Transpose(c, phrase)));
    }
  }

  /** A phrase can only match if one of its pitches lies more than 10 % above its mean. */
  lemma StandingOutNeedsAPeak(ps: seq<real>)
    requires |ps| >= 3
    ensures ThirdStandsOut(ps) ==> exists i :: 0 <= i < |ps| && ps[i] > Average(ps) * AccentRatio
  {
    var third := |ps| / 3;
    var bar := Average(ps) * AccentRatio;
    var first := ps[..third];
    var last := ps[|ps| - third..];
    AverageAtMost(first, bar);
    AverageAtMost(last, bar);
    if StandsOut(Average(first), Average(ps)) {
      var i :| 0 <= i < |first| && first[i] > bar;
      assert ps[i] == first[i];
    } else if StandsOut(Average(last), Average(ps)) {
      var i :| 0 <= i < |last| && last[i] > bar;
      assert ps[|ps| - third + i] == last[i];
    }
  }

  /** Points a phrase contributes: 100 for a match, 50 otherwise. */
  function Vote(phrase: seq<Segment>): real
  {
    if DetectAccentPattern(phrase) then 100.0 else 50.0
  }

  function VoteTotal(phrases: seq<seq<Segment>>): real
  {
    if |phrases| == 0 then 0.0 else Vote(phrases[0]) + VoteTotal(phrases[1..])
  }

  /** How many phrases match the accent pattern. */
  function MatchCount(phrases: seq<seq<Segment>>): (n: nat)
    ensures n <= |phrases|
    ensures n == |phrases| <==> forall k :: 0 <= k < |phrases| ==> DetectAccentPattern(phrases[k])
    ensures n == 0 <==> forall k :: 0 <= k < |phrases| ==> !DetectAccentPattern(phrases[k])
  {
    if |phrases| == 0 then 0
    else
      var rest := MatchCount(phrases[1..]);
      assert forall k :: 1 <= k < |phrases| ==> phrases[k] == phrases[1..][k - 1];
      (if DetectAccentPattern(phrases[0]) then 1 else 0) + rest
  }

  /** Every phrase brings 50 points, a matching one 50 more. */
  lemma {:induction false} VoteTotalCount(phrases: seq<seq<Segment>>)
    ensures VoteTotal(phrases) == 50.0 * |phrases| as real + 50.0 * MatchCount(phrases) as real
  {
    if |phrases| > 0 {
      VoteTotalCount(phrases[1..]);
    }
  }

  /** The mean vote: 50 plus 50 times the share of matching phrases. */
  function MeanVoteOf(phrases: seq<seq<Segment>>): (score: real)
    requires |phrases| > 0
    ensures 50.0 <= score <= 100.0
    ensures score == 50.0 + 50.0 * (MatchCount(phrases) as real / |phrases| as real)
    ensures score == 100.0 <==> forall k :: 0 <= k < |phrases| ==> DetectAccentPattern(phrases[k])
    ensures score == 50.0 <==> forall k :: 0 <= k < |phrases| ==> !DetectAccentPattern(phrases[k])
  {
    VoteTotalCount(phrases);
    MeanVote(|phrases|, MatchCount(phrases));
    VoteTotal(phrases) / |phrases| as real
  }

  /** Transposing every phrase keeps the number of matches. */
  lemma {:induction false} MatchCountTranspose(c: real, phrases: seq<seq<Segment>>)
    requires c > 0.0
    ensures MatchCount(TransposeAll(c, phrases)) == MatchCount(phrases)
  {
    if |phrases| > 0 {
      var moved := TransposeAll(c, phrases);
      assert moved[1..] == TransposeAll(c, phrases[1..]);
      AccentTransposeInvariant(c, phrases[0]);
      MatchCountTranspose(c, phrases[1..]);
    }
  }

  /** `analyzeAccentPatterns`: the mean vote over the phrases of the series. */
  function AccentPatternScore(segs: seq<Segment>): (score: real)
    requires |segs| > 0
    ensures 50.0 <= score <= 100.0
    ensures score == 100.0 <==> forall k :: 0 <= k < |SplitIntoPhrases(segs)| ==> DetectAccentPattern(SplitIntoPhrases(segs)[k])
  {
    MeanVoteOf(SplitIntoPhrases(segs))
  }

  /** The accent score of a transposed voice is unchanged: same phrases, same matches. */
  lemma AccentScoreTransposeInvariant(c: real, segs: seq<Segment>)
    requires c > 0.0
    requires |segs| > 0
    ensures AccentPatternScore(Transpose(c, segs)) == AccentPatternScore(segs)
  {
    var phrases := SplitIntoPhrases(segs);
    SplitIntoPhrasesTranspose(c, segs);
    MatchCountTranspose(c, phrases);
  }
}
