/**
 * Phrase segmentation: the series is cut after every segment whose intensity is below
 * 0.7 times the mean intensity of the whole series, and after the final segment.
 */
module Phrases {
  import opened Seqs
  import opened Segments

  /** Share of the mean intensity below which a segment closes its phrase. */
  const PhraseBreakRatio: real := 0.7

  /** The break threshold, computed once from the whole series. */
  function Threshold(segs: seq<Segment>): real
    requires |segs| > 0
  {
    Average(Intensities(segs)) * PhraseBreakRatio
  }

  /**
   * With a positive mean intensity the threshold lies strictly below the mean, so some
   * segment of the series never breaks.
   */
  lemma ThresholdSparesALoudSegment(segs: seq<Segment>)
    requires |segs| > 0
    requires Average(Intensities(segs)) > 0.0
    ensures exists i :: 0 <= i < |segs| && !Breaks(segs[i], Threshold(segs))
  {
    var levels := Intensities(segs);
    var threshold := Threshold(segs);
    assert threshold < Average(levels);
    AverageAtMost(levels, threshold);
    var i :| 0 <= i < |levels| && levels[i] > threshold;
    assert segs[i].intensity == levels[i];
  }

  predicate Breaks(s: Segment, threshold: real)
  {
    s.intensity < threshold
  }

  /**
   * `phrases` is the phrasing of `segs` at `threshold`: the phrases concatenate to
   * `segs`, none is empty, every phrase but the last ends with a breaking segment, and
   * no segment before the end of its phrase breaks.
   */
  ghost predicate IsPhrasing(segs: seq<Segment>, threshold: real, phrases: seq<seq<Segment>>)
  {
    && Flatten(phrases) == segs
    && (forall k :: 0 <= k < |phrases| ==> |phrases[k]| > 0)
    && (forall k :: 0 <= k < |phrases| - 1 ==> Breaks(phrases[k][|phrases[k]| - 1], threshold))
    && (forall k, i :: 0 <= k < |phrases| && 0 <= i < |phrases[k]| - 1 ==> !Breaks(phrases[k][i], threshold))
  }

  /** Position of the segment that closes the first phrase. */
  function CloseIndex(segs: seq<Segment>, threshold: real): (j: nat)
    requires |segs| > 0
    ensures j < |segs|
    ensures Breaks(segs[j], threshold) || j == |segs| - 1
    ensures forall i :: 0 <= i < j ==> !Breaks(segs[i], threshold)
  {
    if Breaks(segs[0], threshold) || |segs| == 1 then 0
    else 1 + CloseIndex(segs[1..], threshold)
  }

  /** The phrases of `segs` for a fixed threshold. */
  function Split(segs: seq<Segment>, threshold: real): (phrases: seq<seq<Segment>>)
    ensures IsPhrasing(segs, threshold, phrases)
    ensures |segs| > 0 <==> |phrases| > 0
    decreases |segs|
  {
    if |segs| == 0 then []
    else
      var j := CloseIndex(segs, threshold);
      var rest := Split(segs[j + 1..], threshold);
      PhrasingCons(segs, threshold, j, rest);
      [segs[..j + 1]] + rest
  }

  /** The first phrase closed at `j`, followed by a phrasing of the rest, is a phrasing. */
  lemma PhrasingCons(segs: seq<Segment>, threshold: real, j: nat, rest: seq<seq<Segment>>)
    requires j < |segs|
    requires Breaks(segs[j], threshold) || j == |segs| - 1
    requires forall i :: 0 <= i < j ==> !Breaks(segs[i], threshold)
    requires IsPhrasing(segs[j + 1..], threshold, rest)
    requires |segs[j + 1..]| > 0 <==> |rest| > 0
    ensures IsPhrasing(segs, threshold, [segs[..j + 1]] + rest)
  {
    var head := segs[..j + 1];
    var ps := [head] + rest;
    assert ps[1..] == rest;
    assert head + segs[j + 1..] == segs;
    assert Flatten(ps) == segs;
    forall k | 0 <= k < |ps|
      ensures |ps[k]| > 0
    {
      if k > 0 {
        assert ps[k] == rest[k - 1];
      }
    }
    forall k | 0 <= k < |ps| - 1
      ensures Breaks(ps[k][|ps[k]| - 1], threshold)
    {
      if k == 0 {
        assert ps[0][j] == segs[j];
      } else {
        assert ps[k] == rest[k - 1];
      }
    }
    forall k, i | 0 <= k < |ps| && 0 <= i < |ps[k]| - 1
      ensures !Breaks(ps[k][i], threshold)
    {
      if k == 0 {
        assert ps[0][i] == segs[i];
      } else {
        assert ps[k] == rest[k - 1];
      }
    }
  }

  /** A phrasing is unique: any sequence of phrases with the four properties is `Split`'s. */
  lemma {:induction false} PhrasingUnique(segs: seq<Segment>, threshold: real, phrases: seq<seq<Segment>>)
    requires IsPhrasing(segs, threshold, phrases)
    ensures phrases == Split(segs, threshold)
    decreases |segs|
  {
    if |phrases| == 0 {
      assert segs == [];
    } else {
      var m := |phrases[0]| - 1;
      PhrasingFirst(segs, threshold, phrases);
      PhrasingTail(segs, threshold, phrases);
      PhrasingUnique(segs[m + 1..], threshold, phrases[1..]);
      SplitUnfold(segs, threshold);
      assert phrases == [phrases[0]] + phrases[1..];
    }
  }

  /** The first phrase of a phrasing is the prefix that `CloseIndex` closes. */
  lemma PhrasingFirst(segs: seq<Segment>, threshold: real, phrases: seq<seq<Segment>>)
    requires IsPhrasing(segs, threshold, phrases)
    requires |phrases| > 0
    ensures |phrases[0]| <= |segs|
    ensures segs[..|phrases[0]|] == phrases[0]
    ensures CloseIndex(segs, threshold) == |phrases[0]| - 1
  {
    var p := phrases[0];
    var m := |p| - 1;
    assert segs == p + Flatten(phrases[1..]);
    assert segs[..m + 1] == p;
    if |phrases| == 1 {
      assert phrases[1..] == [];
      assert segs == p;
    }
    assert forall i :: 0 <= i < m ==> !Breaks(segs[i], threshold) by {
      assert forall i :: 0 <= i < m ==> segs[i] == phrases[0][i];
    }
    var j := CloseIndex(segs, threshold);
    assert j == m;
  }

  /** What follows the first phrase is phrased by the remaining phrases. */
  lemma PhrasingTail(segs: seq<Segment>, threshold: real, phrases: seq<seq<Segment>>)
    requires IsPhrasing(segs, threshold, phrases)
    requires |phrases| > 0
    ensures |phrases[0]| <= |segs|
    ensures IsPhrasing(segs[|phrases[0]|..], threshold, phrases[1..])
  {
    var p := phrases[0];
    var tail := phrases[1..];
    assert segs == p + Flatten(tail);
    assert segs[|p|..] == Flatten(tail);
    forall k | 0 <= k < |tail| ensures |tail[k]| > 0 {
      assert tail[k] == phrases[k + 1];
    }
    forall k | 0 <= k < |tail| - 1 ensures Breaks(tail[k][|tail[k]| - 1], threshold) {
      assert tail[k] == phrases[k + 1];
    }
    forall k, i | 0 <= k < |tail| && 0 <= i < |tail[k]| - 1 ensures !Breaks(tail[k][i], threshold) {
      assert tail[k] == phrases[k + 1];
    }
  }

  /** `splitIntoPhrases`: the phrasing at 0.7 times the mean intensity. */
  function SplitIntoPhrases(segs: seq<Segment>): (phrases: seq<seq<Segment>>)
    ensures |segs| > 0 ==> IsPhrasing(segs, Threshold(segs), phrases) && |phrases| > 0
    ensures |segs| == 0 ==> phrases == []
  {
    if |segs| == 0 then [] else Split(segs, Threshold(segs))
  }

  /** A series of steady, non-negative intensity never breaks early: it is one phrase. */
  lemma SteadyIntensityIsOnePhrase(segs: seq<Segment>)
    requires |segs| > 0
    requires segs[0].intensity >= 0.0
    requires forall i :: 0 <= i < |segs| ==> segs[i].intensity == segs[0].intensity
    ensures SplitIntoPhrases(segs) == [segs]
  {
    var level := segs[0].intensity;
    AverageConstant(Intensities(segs), level);
    var threshold := Threshold(segs);
    assert threshold == level * PhraseBreakRatio;
    assert Flatten([segs]) == segs + Flatten([segs][1..]);
    assert [segs][1..] == [];
    PhrasingUnique(segs, threshold, [segs]);
  }

  /** Where a phrase closes depends on intensities only, so transposition keeps it. */
  lemma {:induction false} CloseIndexTranspose(c: real, segs: seq<Segment>, threshold: real)
    requires c > 0.0 && |segs| > 0
    ensures CloseIndex(Transpose(c, segs), threshold) == CloseIndex(segs, threshold)
  {
    if !Breaks(segs[0], threshold) && |segs| > 1 {
      TransposeSuffix(c, segs, 1);
      CloseIndexTranspose(c, segs[1..], threshold);
    }
  }

  /** Splitting a transposed series gives the transposed phrases. */
  lemma {:induction false} SplitTranspose(c: real, segs: seq<Segment>, threshold: real)
    requires c > 0.0
    ensures Split(Transpose(c, segs), threshold) == TransposeAll(c, Split(segs, threshold))
    decreases |segs|
  {
    if |segs| > 0 {
      var j := CloseIndex(segs, threshold);
      var rest := segs[j + 1..];
      SplitTranspose(c, rest, threshold);
      SplitTransposeStep(c, segs, threshold, j);
    }
  }

  /** One phrase of `SplitTranspose`: the first phrase is transposed, the rest is left. */
  lemma SplitTransposeStep(c: real, segs: seq<Segment>, threshold: real, j: nat)
    requires c > 0.0 && |segs| > 0
    requires j == CloseIndex(segs, threshold)
    requires Split(Transpose(c, segs[j + 1..]), threshold) == TransposeAll(c, Split(segs[j + 1..], threshold))
    ensures Split(Transpose(c, segs), threshold) == TransposeAll(c, Split(segs, threshold))
  {
    var t := Transpose(c, segs);
    CloseIndexTranspose(c, segs, threshold);
    TransposePrefix(c, segs, j + 1);
    TransposeSuffix(c, segs, j + 1);
    var head := segs[..j + 1];
    var rest := Split(segs[j + 1..], threshold);
    SplitUnfold(t, threshold);
    SplitUnfold(segs, threshold);
    TransposeAllCons(c, head, rest);
  }

  /** `Split` as the first phrase followed by the phrases of the rest. */
  lemma SplitUnfold(segs: seq<Segment>, threshold: real)
    requires |segs| > 0
    ensures var j := CloseIndex(segs, threshold);
      Split(segs, threshold) == [segs[..j + 1]] + Split(segs[j + 1..], threshold)
  {
  }

  /** The threshold, and with it the phrasing, is the same for a transposed voice. */
  lemma SplitIntoPhrasesTranspose(c: real, segs: seq<Segment>)
    requires c > 0.0
    ensures SplitIntoPhrases(Transpose(c, segs)) == TransposeAll(c, SplitIntoPhrases(segs))
  {
    if |segs| > 0 {
      TransposeIntensities(c, segs);
      assert Threshold(Transpose(c, segs)) == Threshold(segs);
      SplitTranspose(c, segs, Threshold(segs));
    }
  }

  predicate EndsWithBreak(phrase: seq<Segment>, threshold: real)
  {
    |phrase| > 0 && Breaks(phrase[|phrase| - 1], threshold)
  }

  /** Closing one more phrase after phrases that all ended with a break keeps a phrasing. */
  lemma PhrasingSnoc(prefix: seq<Segment>, threshold: real, phrases: seq<seq<Segment>>, phrase: seq<Segment>)
    requires IsPhrasing(prefix, threshold, phrases)
    requires forall k :: 0 <= k < |phrases| ==> EndsWithBreak(phrases[k], threshold)
    requires |phrase| > 0
    requires forall i :: 0 <= i < |phrase| - 1 ==> !Breaks(phrase[i], threshold)
    ensures IsPhrasing(prefix + phrase, threshold, phrases + [phrase])
  {
    var ps := phrases + [phrase];
    FlattenAppend(phrases, [phrase]);
    assert Flatten([phrase]) == phrase + Flatten([phrase][1..]);
    assert [phrase][1..] == [];
    forall k | 0 <= k < |ps|
      ensures |ps[k]| > 0
    {
      if k < |phrases| {
        assert ps[k] == phrases[k];
      }
    }
    forall k | 0 <= k < |ps| - 1
      ensures Breaks(ps[k][|ps[k]| - 1], threshold)
    {
      assert ps[k] == phrases[k];
      assert EndsWithBreak(phrases[k], threshold);
    }
    forall k, i | 0 <= k < |ps| && 0 <= i < |ps[k]| - 1
      ensures !Breaks(ps[k][i], threshold)
    {
      if k < |phrases| {
        assert ps[k] == phrases[k];
      }
    }
  }

  /** The source's `forEach` loop, with its mutable current phrase. */
  method SplitIntoPhrasesLoop(segs: seq<Segment>) returns (phrases: seq<seq<Segment>>)
    ensures phrases == SplitIntoPhrases(segs)
  {
    phrases := [];
    if |segs| == 0 {
      return;
    }
    var current: seq<Segment> := [];
    var threshold := Threshold(segs);
    var i := 0;
    assert Flatten(phrases) == segs[..0];
    while i < |segs|
      invariant 0 <= |current| <= i <= |segs|
      invariant current == segs[i - |current|..i]
      invariant IsPhrasing(segs[..i - |current|], threshold, phrases)
      invariant i < |segs| ==> forall k :: 0 <= k < |phrases| ==> EndsWithBreak(phrases[k], threshold)
      invariant forall j :: 0 <= j < |current| ==> !Breaks(current[j], threshold)
      invariant i == |segs| ==> current == []
    {
      var segment := segs[i];
      var start := i - |current|;
      current := current + [segment];
      assert current == segs[start..i + 1];
      if Breaks(segment, threshold) || i == |segs| - 1 {
        if |current| > 0 {
          PhrasingSnoc(segs[..start], threshold, phrases, current);
          assert segs[..start] + current == segs[..i + 1];
          phrases := phrases + [current];
          current := [];
        }
      }
      i := i + 1;
    }
    assert segs[..i] == segs;
    PhrasingUnique(segs, threshold, phrases);
  }
}
