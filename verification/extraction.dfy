/**
 * Pitch extraction: the decoded samples are cut into non-overlapping windows of 2048
 * samples (the last one may be shorter), the pitch detector runs on each, and a
 * segment is kept, in window order, for every window where it reports a pitch.
 */
module Extraction {
  import opened Wrappers
  import opened Seqs
  import opened Segments
  import opened Arith

  const WindowSize: nat := 2048

  /**
   * The YIN detector configured for 44100 Hz. `None` stands for every falsy
   * result (`null`, 0, NaN); otherwise it reports a positive frequency.
   */
  type Detector = seq<real> -> Option<Hz>

  /** `Math.sqrt`, applied to the mean square of a window. */
  type Root = real -> real

  /** The windows, in order: 2048 samples each, the last one whatever remains. */
  function Windows(samples: seq<real>): (ws: seq<seq<real>>)
    ensures |ws| == (|samples| + WindowSize - 1) / WindowSize
    decreases |samples|
  {
    if |samples| == 0 then []
    else if |samples| <= WindowSize then [samples]
    else [samples[..WindowSize]] + Windows(samples[WindowSize..])
  }

  /** Window `k` starts at sample `2048 * k`; there are just enough windows to cover every sample. */
  lemma {:induction false} WindowsAt(samples: seq<real>)
    ensures |samples| <= |Windows(samples)| * WindowSize
    ensures forall k :: 0 <= k < |Windows(samples)| ==> k * WindowSize < |samples|
    ensures forall k :: 0 <= k < |Windows(samples)| ==>
      Windows(samples)[k] == samples[k * WindowSize .. MinInt((k + 1) * WindowSize, |samples|)]
    decreases |samples|
  {
    if |samples| > WindowSize {
      var rest := samples[WindowSize..];
      WindowsAt(rest);
      WindowsShift(samples, Windows(rest));
    }
  }

  lemma WindowsShift(samples: seq<real>, tail: seq<seq<real>>)
    requires |samples| > WindowSize
    requires forall k :: 0 <= k < |tail| ==> k * WindowSize < |samples| - WindowSize
    requires forall k :: 0 <= k < |tail| ==>
      tail[k] == samples[WindowSize..][k * WindowSize .. MinInt((k + 1) * WindowSize, |samples| - WindowSize)]
    ensures forall k :: 1 <= k < |tail| + 1 ==> k * WindowSize < |samples|
    ensures forall k :: 1 <= k < |tail| + 1 ==>
      ([samples[..WindowSize]] + tail)[k] == samples[k * WindowSize .. MinInt((k + 1) * WindowSize, |samples|)]
  {
    var rest := samples[WindowSize..];
    forall k | 1 <= k < |tail| + 1
      ensures k * WindowSize < |samples|
    {
      assert (k - 1) * WindowSize < |samples| - WindowSize;
      assert (k - 1) * WindowSize + WindowSize == k * WindowSize;
    }
    forall k | 1 <= k < |tail| + 1
      ensures ([samples[..WindowSize]] + tail)[k] == samples[k * WindowSize .. MinInt((k + 1) * WindowSize, |samples|)]
    {
      var lo := (k - 1) * WindowSize;
      var hi := MinInt(k * WindowSize, |rest|);
      assert WindowSize + lo == k * WindowSize;
      assert WindowSize + hi == MinInt((k + 1) * WindowSize, |samples|);
      assert rest[lo..hi] == samples[WindowSize + lo .. WindowSize + hi];
    }
  }

  /** The windows tile the samples: no gap, no overlap, nothing dropped. */
  lemma {:induction false} WindowsPartition(samples: seq<real>)
    ensures Flatten(Windows(samples)) == samples
    ensures forall k :: 0 <= k < |Windows(samples)| ==> 0 < |Windows(samples)[k]| <= WindowSize
    decreases |samples|
  {
    if |samples| > WindowSize {
      var rest := samples[WindowSize..];
      WindowsPartition(rest);
      assert Windows(samples)[1..] == Windows(rest);
      assert samples == samples[..WindowSize] + rest;
    }
  }

  /** Sum of squares; grouped from the right, equal over exact reals to the source's `reduce`. */
  function SumSquares(w: seq<real>): (total: real)
    ensures total >= 0.0
  {
    if |w| == 0 then 0.0 else w[0] * w[0] + SumSquares(w[1..])
  }

  /** The divisor is always the full window size, also for a shorter last window. */
  function MeanSquare(w: seq<real>): (ms: real)
    ensures ms >= 0.0
    ensures ms == 0.0 <==> Silent(w)
  {
    SilentSumSquares(w);
    SumSquares(w) / WindowSize as real
  }

  /** Every sample is zero. */
  ghost predicate Silent(w: seq<real>)
  {
    forall i :: 0 <= i < |w| ==> w[i] == 0.0
  }

  lemma {:induction false} SilentSumSquares(w: seq<real>)
    ensures SumSquares(w) == 0.0 <==> Silent(w)
  {
    if |w| > 0 {
      SilentSumSquares(w[1..]);
      assert Silent(w) <==> w[0] == 0.0 && Silent(w[1..]);
      Square(w[0]);
    }
  }

  /**
   * A window of constant amplitude `a` has mean square `a * a` scaled by its share of a
   * full window: a short last window reads quieter than the same sound in a full one.
   */
  lemma {:induction false} ConstantWindowMeanSquare(w: seq<real>, a: real)
    requires forall i :: 0 <= i < |w| ==> w[i] == a
    ensures MeanSquare(w) == (|w| as real / WindowSize as real) * (a * a)
  {
    ConstantSumSquares(w, a);
  }

  lemma {:induction false} ConstantSumSquares(w: seq<real>, a: real)
    requires forall i :: 0 <= i < |w| ==> w[i] == a
    ensures SumSquares(w) == |w| as real * (a * a)
  {
    if |w| > 0 {
      ConstantSumSquares(w[1..], a);
    }
  }

  /** Zero or one segment for one window, depending on the detector. */
  function Detect(w: seq<real>, detect: Detector, root: Root): seq<Segment>
  {
    match detect(w)
    case None => []
    case Some(p) => [Segment(p, root(MeanSquare(w)))]
  }

  /** The segments of a run of windows, in window order. */
  function Detections(ws: seq<seq<real>>, detect: Detector, root: Root): (segs: seq<Segment>)
    ensures |segs| <= |ws|
  {
    if |ws| == 0 then [] else Detect(ws[0], detect, root) + Detections(ws[1..], detect, root)
  }

  /** Detection is window-local: splitting the windows splits the segments, order kept. */
  lemma {:induction false} DetectionsAppend(a: seq<seq<real>>, b: seq<seq<real>>, detect: Detector, root: Root)
    ensures Detections(a + b, detect, root) == Detections(a, detect, root) + Detections(b, detect, root)
  {
    if |a| == 0 {
      assert a + b == b;
    } else {
      var first := Detect(a[0], detect, root);
      assert (a + b)[0] == a[0];
      assert (a + b)[1..] == a[1..] + b;
      assert Detections(a + b, detect, root) == first + Detections(a[1..] + b, detect, root);
      DetectionsAppend(a[1..], b, detect, root);
      Reassociate(first, Detections(a[1..], detect, root), Detections(b, detect, root),
        Detections(a + b, detect, root));
    }
  }

  /** No segment at all exactly when the detector finds no pitch in any window. */
  lemma {:induction false} DetectionsEmptyIff(ws: seq<seq<real>>, detect: Detector, root: Root)
    ensures Detections(ws, detect, root) == [] <==> forall k :: 0 <= k < |ws| ==> detect(ws[k]).None?
  {
    if |ws| > 0 {
      DetectionsEmptyIff(ws[1..], detect, root);
      assert forall k :: 1 <= k < |ws| ==> ws[1..][k - 1] == ws[k];
    }
  }

  /** The pitch/intensity series of a decoded recording. */
  function PitchTrack(samples: seq<real>, detect: Detector, root: Root): (segs: seq<Segment>)
    ensures |segs| <= |Windows(samples)|
    ensures |segs| == 0 <==> forall k :: 0 <= k < |Windows(samples)| ==> detect(Windows(samples)[k]).None?
  {
    DetectionsEmptyIff(Windows(samples), detect, root);
    Detections(Windows(samples), detect, root)
  }

  /** `Math.sqrt` never returns a negative number for a non-negative argument. */
  ghost predicate RootNonNegative(root: Root)
  {
    forall x :: x >= 0.0 ==> root(x) >= 0.0
  }

  /** With such a root every intensity of the track is non-negative. */
  lemma {:induction false} DetectionsIntensities(ws: seq<seq<real>>, detect: Detector, root: Root)
    requires RootNonNegative(root)
    ensures forall i :: 0 <= i < |Detections(ws, detect, root)| ==> Detections(ws, detect, root)[i].intensity >= 0.0
  {
    if |ws| > 0 {
      DetectionsIntensities(ws[1..], detect, root);
      var here := Detect(ws[0], detect, root);
      assert forall i :: 0 <= i < |here| ==> here[i].intensity == root(MeanSquare(ws[0]));
    }
  }

  lemma PitchTrackIntensities(samples: seq<real>, detect: Detector, root: Root)
    requires RootNonNegative(root)
    ensures forall i :: 0 <= i < |PitchTrack(samples, detect, root)| ==> PitchTrack(samples, detect, root)[i].intensity >= 0.0
  {
    DetectionsIntensities(Windows(samples), detect, root);
  }

  /** A detector that reports no pitch for an all-zero window. */
  ghost predicate QuietOnSilence(detect: Detector)
  {
    forall w :: Silent(w) ==> detect(w).None?
  }

  /** Every window of a silent recording is silent. */
  lemma SilentWindows(samples: seq<real>)
    requires Silent(samples)
    ensures forall k :: 0 <= k < |Windows(samples)| ==> Silent(Windows(samples)[k])
  {
    WindowsAt(samples);
    forall k | 0 <= k < |Windows(samples)|
      ensures Silent(Windows(samples)[k])
    {
      var lo := k * WindowSize;
      var hi := MinInt((k + 1) * WindowSize, |samples|);
      assert forall i :: 0 <= i < hi - lo ==> samples[lo..hi][i] == samples[lo + i];
    }
  }

  function Rest(samples: seq<real>, i: nat): seq<real>
  {
    if i < |samples| then samples[i..] else []
  }

  /** One turn of the window loop consumes exactly the window starting at `i`. */
  lemma ExtractStep(samples: seq<real>, i: nat, detect: Detector, root: Root)
    requires i < |samples|
    ensures Detections(Windows(Rest(samples, i)), detect, root)
      == Detect(samples[i .. MinInt(i + WindowSize, |samples|)], detect, root)
         + Detections(Windows(Rest(samples, i + WindowSize)), detect, root)
  {
    var rest := samples[i..];
    var ws := Windows(rest);
    assert ws[0] == samples[i .. MinInt(i + WindowSize, |samples|)];
    if |rest| <= WindowSize {
      assert Rest(samples, i + WindowSize) == [];
      assert ws[1..] == [];
    } else {
      assert rest[WindowSize..] == Rest(samples, i + WindowSize);
      assert ws[1..] == Windows(Rest(samples, i + WindowSize));
    }
  }

  /** The loop invariant survives one turn: the window at `i` is done, the rest is left. */
  lemma ExtractInvariantStep(samples: seq<real>, i: nat, segs: seq<Segment>, detect: Detector, root: Root)
    requires i < |samples|
    requires segs + Detections(Windows(Rest(samples, i)), detect, root) == PitchTrack(samples, detect, root)
    ensures (segs + Detect(samples[i .. MinInt(i + WindowSize, |samples|)], detect, root))
      + Detections(Windows(Rest(samples, i + WindowSize)), detect, root) == PitchTrack(samples, detect, root)
  {
    var here := Detect(samples[i .. MinInt(i + WindowSize, |samples|)], detect, root);
    var later := Detections(Windows(Rest(samples, i + WindowSize)), detect, root);
    ExtractStep(samples, i, detect, root);
    Reassociate(segs, here, later, PitchTrack(samples, detect, root));
  }

  /** The source's window loop: `i` advances by 2048 and the window is clipped at the end. */
  method ExtractSegments(samples: seq<real>, detect: Detector, root: Root) returns (segs: seq<Segment>)
    ensures segs == PitchTrack(samples, detect, root)
  {
    segs := [];
    var i: nat := 0;
    assert Rest(samples, 0) == samples;
    while i < |samples|
      invariant segs + Detections(Windows(Rest(samples, i)), detect, root) == PitchTrack(samples, detect, root)
      decreases |samples| - i
    {
      var window := samples[i .. MinInt(i + WindowSize, |samples|)];
      ExtractInvariantStep(samples, i, segs, detect, root);
      var found := detect(window);
      if found.Some? {
        assert Detect(window, detect, root) == [Segment(found.value, root(MeanSquare(window)))];
        segs := segs + [Segment(found.value, root(MeanSquare(window)))];
      } else {
        assert Detect(window, detect, root) == [];
        assert segs + [] == segs;
      }
      i := i + WindowSize;
    }
    assert Rest(samples, i) == [];
  }
}
