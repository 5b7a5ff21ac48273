/** The pitch/intensity series that every scoring stage consumes. */
module Segments {
  import opened Seqs

  /** A fundamental frequency in hertz. The detector reports only positive values. */
  type Hz = r: real | r > 0.0 witness 1.0

  /** One analysis window in which a pitch was detected. */
  datatype Segment = Segment(pitch: Hz, intensity: real)

  function Pitches(segs: seq<Segment>): seq<Hz>
  {
    seq(|segs|, i requires 0 <= i < |segs| => segs[i].pitch)
  }

  /** Mean of a non-empty pitch sequence; again a frequency. */
  function MeanPitch(ps: seq<Hz>): Hz
    requires |ps| > 0
  {
    AveragePositive(ps);
    Average(ps)
  }

  function Intensities(segs: seq<Segment>): seq<real>
  {
    seq(|segs|, i requires 0 <= i < |segs| => segs[i].intensity)
  }

  /** The same series with every pitch multiplied by `c` (a transposition of the voice). */
  function Transpose(c: real, segs: seq<Segment>): seq<Segment>
    requires c > 0.0
  {
    seq(|segs|, i requires 0 <= i < |segs| => Segment(c * segs[i].pitch, segs[i].intensity))
  }

  lemma TransposePitches(c: real, segs: seq<Segment>)
    requires c > 0.0
    ensures Pitches(Transpose(c, segs)) == Scale(c, Pitches(segs))
  {
    var lhs := Pitches(Transpose(c, segs));
    var rhs := Scale(c, Pitches(segs));
    assert |lhs| == |segs| == |rhs|;
    assert forall i :: 0 <= i < |segs| ==> lhs[i] == c * segs[i].pitch == rhs[i];
  }

  lemma TransposeSuffix(c: real, segs: seq<Segment>, lo: nat)
    requires c > 0.0 && lo <= |segs|
    ensures Transpose(c, segs)[lo..] == Transpose(c, segs[lo..])
  {
  }

  lemma TransposePrefix(c: real, segs: seq<Segment>, hi: nat)
    requires c > 0.0 && hi <= |segs|
    ensures Transpose(c, segs)[..hi] == Transpose(c, segs[..hi])
  {
  }

  /** Transposition changes no intensity. */
  lemma TransposeIntensities(c: real, segs: seq<Segment>)
    requires c > 0.0
    ensures Intensities(Transpose(c, segs)) == Intensities(segs)
  {
    assert forall i :: 0 <= i < |segs| ==> Intensities(Transpose(c, segs))[i] == segs[i].intensity;
  }

  /** Every series of a list transposed by the same factor. */
  function TransposeAll(c: real, phrases: seq<seq<Segment>>): (r: seq<seq<Segment>>)
    requires c > 0.0
    ensures |r| == |phrases|
  {
    seq(|phrases|, k requires 0 <= k < |phrases| => Transpose(c, phrases[k]))
  }

  lemma TransposeAllCons(c: real, phrase: seq<Segment>, rest: seq<seq<Segment>>)
    requires c > 0.0
    ensures TransposeAll(c, [phrase] + rest) == [Transpose(c, phrase)] + TransposeAll(c, rest)
  {
  }
}
