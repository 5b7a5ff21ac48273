# Kansai intonation scorer — a Dafny model

The backend of the Kansai-dialect practice app scores how "Kansai-like" the intonation
of a recording is. `measureKansaiIntonation` takes the uploaded bytes and returns an
integer from 0 to 100. It works in five stages:

1. **Decode.** The bytes are read as signed 16-bit little-endian PCM and each sample is
   divided by 32768. A buffer that starts with the EBML Element ID `1A 45 DF A3` is
   taken for a WebM container, and its first 4000 bytes are skipped blindly.
2. **Extract.** The samples are cut into consecutive windows of 2048 (the last one may be
   shorter). A pitch detector runs on each window. Each window with a detected pitch
   gives a segment: the pitch, plus an intensity equal to the square root of the sum of
   squares divided by 2048.
3. **Short-circuit.** With no segment at all the result is 0.
4. **Score.** Three scorers run on the segment series:
   - *phrase-final contour*: the relative change between the two halves of the last 20 %;
   - *pitch range*: max minus min pitch, scaled 80 points per 100 Hz and capped at 100;
   - *accent pattern*: the series is split into phrases wherever intensity drops below
     0.7 times its mean, and each phrase votes 100 if its first or last third is 10 %
     above the phrase mean, 50 otherwise.
5. **Fuse.** `0.4 · contour + 0.3 · range + 0.3 · accent` is clamped to [0, 100] and
   rounded half up. Any exception yields 0.

The model follows this pipeline module by module:

- `Pcm`: the bytes and decoding.
- `Extraction`: the windows and detections, with a method that mirrors the window loop.
- `Phrases`: phrase splitting. It has a declarative characterisation (`IsPhrasing`), a
  recursive splitter proved to be its unique solution, and a method that mirrors the
  `forEach` loop.
- `Scorers`: the three sub-scores.
- `Intonation`: fusion, the whole analysis, and a method that mirrors
  `measureKansaiIntonation` statement by statement.
- `Seqs`, `Segments`, `Arith` and `Wrappers` hold the shared vocabulary: sums, averages,
  max/min, scaling, the segment type, real-arithmetic facts, and `Option`/`Result`.

Properties proved about the model:

- Decoding is the inverse of little-endian encoding, both without a header and after a
  skipped 4000-byte header.
- The windows partition the samples.
- Detection is window-local and keeps order.
- Phrase splitting has exactly one solution.
- The phrase-final and accent scores do not change when the voice is transposed: the
  phrasing depends on intensities only, and every phrase keeps its accent verdict.
- Every computed score lies between 15 and 100, so a result of 0 means exactly that
  nothing was scored.
- Concrete utterances get concrete scores:
  - digital silence scores 0 for a detector that reports no pitch on an all-zero window
    (`QuietOnSilence`);
  - a voice on one pitch scores 43;
  - a 150 Hz → 250 Hz step of at least two segments per level, at one non-negative
    intensity, scores 82, and with one segment per level it scores 67.

A step tone that ends high scores 70 on the phrase-final contour, not more: the code
looks only at the last 20 % of the segments, and those lie flat on the upper step
(`Intonation.StepUpScores82`).

## Model

| member | source | states |
|---|---|---|
| Pcm.HeaderOffset | backend/src/utils/intonationAnalyzer.ts:28-34 | the offset is 4000 exactly when the first four bytes are the EBML magic, and 0 otherwise (also for buffers shorter than four bytes) |
| Pcm.SampleCount | backend/src/utils/intonationAnalyzer.ts:37 | the count is the floor of half the bytes after the offset (an odd trailing byte is dropped); it is negative exactly for a tagged buffer shorter than 4000 bytes |
| Pcm.Int16Bytes | backend/src/utils/intonationAnalyzer.ts:49 | reading back the little-endian byte pair of any 16-bit value gives that value |
| Pcm.Int16LE | backend/src/utils/intonationAnalyzer.ts:49 | the signed value read from a byte pair agrees with `lo + 256·hi` modulo 2^16 |
| Pcm.Normalize | backend/src/utils/intonationAnalyzer.ts:49 | dividing by 32768 maps every 16-bit sample into [-1, 1) |
| Pcm.Decode | backend/src/utils/intonationAnalyzer.ts:28-50 | decoding fails exactly when a tagged buffer is shorter than its header skip (the negative array length throws); otherwise it yields `SampleCount` samples, all in [-1, 1) |
| Pcm.DecodeEncodePcm | backend/src/utils/intonationAnalyzer.ts:37-50 | headerless PCM decodes to exactly the samples it encodes, in order, unless its first bytes happen to be the magic |
| Pcm.DecodeSkipsHeader | backend/src/utils/intonationAnalyzer.ts:30-50 | after the magic and any 3996 further bytes, the following PCM decodes intact: exactly the first 4000 bytes are skipped |
| Pcm.MagicCollision | backend/src/utils/intonationAnalyzer.ts:30-34 | the two ordinary samples 17690, -23585 encode to the magic, so such raw PCM is taken for WebM, and a short buffer of it is unscorable |
| Extraction.WindowsAt | backend/src/utils/intonationAnalyzer.ts:66-67 | window `k` is the slice from `2048k` to `min(2048(k+1), length)`, and there are just enough windows to cover every sample |
| Extraction.Windows | backend/src/utils/intonationAnalyzer.ts:66-67 | stepping by 2048 over the samples gives the ceiling of length/2048 windows |
| Extraction.WindowsPartition | backend/src/utils/intonationAnalyzer.ts:66-67 | the windows concatenate back to the samples and each holds between 1 and 2048 of them |
| Extraction.ConstantWindowMeanSquare | backend/src/utils/intonationAnalyzer.ts:72 | the mean square divides by 2048 even for a short last window, so a constant signal reads quieter in a short window |
| Extraction.MeanSquare | backend/src/utils/intonationAnalyzer.ts:72 | the mean square is non-negative, and zero exactly for a window of zeros |
| Extraction.DetectionsAppend | backend/src/utils/intonationAnalyzer.ts:66-75 | detection is window-local: the segments of two runs of windows are the two runs' segments concatenated, in order |
| Extraction.DetectionsEmptyIff | backend/src/utils/intonationAnalyzer.ts:68-74 | there is no segment exactly when the detector reports no pitch for any window |
| Extraction.ExtractSegments | backend/src/utils/intonationAnalyzer.ts:63-75 | the window loop, stepping by 2048 and clipping the last window, yields exactly the pitch track: one segment per detected window, in order |
| Extraction.PitchTrack | backend/src/utils/intonationAnalyzer.ts:63-75 | there are at most as many segments as windows, and none exactly when no window yields a pitch |
| Extraction.PitchTrackIntensities | backend/src/utils/intonationAnalyzer.ts:72 | with a square root that is non-negative on non-negative input, every intensity of the track is non-negative |
| Extraction.SilentWindows | backend/src/utils/intonationAnalyzer.ts:66-67 | every window cut from an all-zero recording is all zeros |
| Phrases.CloseIndex | backend/src/utils/intonationAnalyzer.ts:178-185 | a phrase closes at the first segment quieter than the threshold, or at the last segment |
| Phrases.Split | backend/src/utils/intonationAnalyzer.ts:173-189 | the phrases are non-empty and concatenate to the series; every phrase but the last ends on a break, and no break occurs inside a phrase |
| Phrases.PhrasingUnique | backend/src/utils/intonationAnalyzer.ts:173-189 | any phrasing with those properties is the one the splitter returns |
| Phrases.SplitIntoPhrases | backend/src/utils/intonationAnalyzer.ts:173-189 | a non-empty series splits, at 0.7 times its mean intensity, into at least one phrase satisfying the phrasing properties |
| Phrases.SplitIntoPhrasesLoop | backend/src/utils/intonationAnalyzer.ts:173-189 | the `forEach` loop with its current-phrase buffer produces the same phrases as the recursive splitter |
| Phrases.SteadyIntensityIsOnePhrase | backend/src/utils/intonationAnalyzer.ts:176-186 | a series of constant non-negative intensity is one phrase |
| Phrases.ThresholdSparesALoudSegment | backend/src/utils/intonationAnalyzer.ts:176-180 | with a positive mean intensity, the 0.7-of-mean threshold leaves at least one segment that does not break |
| Phrases.SplitTranspose | backend/src/utils/intonationAnalyzer.ts:173-189 | splitting a transposed series at a threshold gives the transposed phrases of the original |
| Phrases.SplitIntoPhrasesTranspose | backend/src/utils/intonationAnalyzer.ts:173-189 | transposing the voice keeps the threshold and hence the phrasing, phrase by phrase |
| Scorers.TailStart | backend/src/utils/intonationAnalyzer.ts:119 | the tail starts at the floor of 80 % of the length |
| Scorers.PercentChange | backend/src/utils/intonationAnalyzer.ts:166 | the relative change is above -100 %, positive exactly for a rise, and zero exactly for no change |
| Scorers.PitchMovement | backend/src/utils/intonationAnalyzer.ts:162-167 | fewer than two pitches give 0; otherwise the movement is positive exactly when the mean of the last half exceeds that of the first half |
| Scorers.MovementIgnoresMiddle | backend/src/utils/intonationAnalyzer.ts:164-165 | in an odd-length contour the middle pitch does not affect the movement |
| Scorers.SteadyPitchNoMovement | backend/src/utils/intonationAnalyzer.ts:162-167 | a constant contour has movement 0 |
| Scorers.MovementScaleInvariant | backend/src/utils/intonationAnalyzer.ts:162-167 | scaling every pitch by a positive factor leaves the movement unchanged |
| Scorers.ContourScore | backend/src/utils/intonationAnalyzer.ts:128-134 | the score is in [0, 100]; it is above 80 exactly for a rise, exactly 70 for a fall under 10 %, at most 50 exactly for a fall of 10 % or more, and 100 exactly for a rise of 10 % or more |
| Scorers.ContourScoreMonotone | backend/src/utils/intonationAnalyzer.ts:128-134 | a larger movement never scores lower |
| Scorers.PhraseFinalScore | backend/src/utils/intonationAnalyzer.ts:117-135 | the phrase-final score is in [0, 100], and exactly 70 for series of at most five segments |
| Scorers.SteadyTailScoresSeventy | backend/src/utils/intonationAnalyzer.ts:117-135 | a flat last 20 % scores exactly 70, whatever precedes it |
| Scorers.PhraseFinalTransposeInvariant | backend/src/utils/intonationAnalyzer.ts:117-135 | transposing the voice by a positive factor leaves the phrase-final score unchanged |
| Scorers.PitchRange | backend/src/utils/intonationAnalyzer.ts:138-141 | the range is the largest difference between two pitches of the series |
| Scorers.RangeScore | backend/src/utils/intonationAnalyzer.ts:145 | the score is in [0, 100], 100 exactly from 125 Hz up, and below that 80 points per 100 Hz |
| Scorers.RangeScoreMonotone | backend/src/utils/intonationAnalyzer.ts:145 | a wider range never scores lower |
| Scorers.PitchRangeScore | backend/src/utils/intonationAnalyzer.ts:137-146 | the range score is in [0, 100], and 100 exactly when some two pitches are at least 125 Hz apart |
| Scorers.StandsOutScale | backend/src/utils/intonationAnalyzer.ts:199 | the "10 % above the mean" test is unit-free |
| Scorers.DetectAccentPattern | backend/src/utils/intonationAnalyzer.ts:191-200 | a phrase of fewer than three segments never matches |
| Scorers.StandingOutNeedsAPeak | backend/src/utils/intonationAnalyzer.ts:194-199 | the third test can hold only if some pitch of the phrase lies more than 10 % above the phrase mean |
| Scorers.SteadyPhraseHasNoAccent | backend/src/utils/intonationAnalyzer.ts:191-200 | a phrase on one pitch never matches the accent pattern |
| Scorers.ThirdStandsOutScale | backend/src/utils/intonationAnalyzer.ts:194-199 | scaling a contour by a positive factor does not change whether its first or last third stands out |
| Scorers.AccentTransposeInvariant | backend/src/utils/intonationAnalyzer.ts:191-200 | transposing a phrase leaves its accent verdict unchanged |
| Scorers.MatchCountTranspose | backend/src/utils/intonationAnalyzer.ts:153-157 | transposing every phrase keeps the number of matching phrases |
| Scorers.AccentScoreTransposeInvariant | backend/src/utils/intonationAnalyzer.ts:148-160 | the accent score of a transposed voice equals that of the original |
| Scorers.MatchCount | backend/src/utils/intonationAnalyzer.ts:153-157 | the number of matching phrases equals the number of phrases exactly when all match, and is 0 exactly when none matches |
| Scorers.MeanVoteOf | backend/src/utils/intonationAnalyzer.ts:152-159 | the mean vote is 50 plus 50 times the share of matching phrases: in [50, 100], 100 exactly when all match, 50 exactly when none matches |
| Scorers.AccentPatternScore | backend/src/utils/intonationAnalyzer.ts:148-160 | the accent score is in [50, 100], and 100 exactly when every phrase of the series matches |
| Seqs.Max | backend/src/utils/intonationAnalyzer.ts:139 | `Math.max` of a non-empty list bounds every element and is one of them |
| Seqs.Min | backend/src/utils/intonationAnalyzer.ts:140 | `Math.min` of a non-empty list is below every element and is one of them |
| Seqs.AverageScale | backend/src/utils/intonationAnalyzer.ts:169-171 | the mean of scaled values is the scaled mean |
| Seqs.AverageConstant | backend/src/utils/intonationAnalyzer.ts:169-171 | the mean of a constant list is that constant |
| Seqs.AverageWithin | backend/src/utils/intonationAnalyzer.ts:169-171 | the mean of values within given bounds lies within them |
| Seqs.AverageAtMost | backend/src/utils/intonationAnalyzer.ts:169-171 | a mean above a bound needs an element above that bound |
| Intonation.Clamp | backend/src/utils/intonationAnalyzer.ts:107 | the clamped value lies in the bounds: it is the input when the input lies within them, the lower bound below them and the upper bound above them |
| Intonation.RoundHalfUp | backend/src/utils/intonationAnalyzer.ts:107 | `Math.round` gives the integer within half a unit, halves going up |
| Intonation.Fuse | backend/src/utils/intonationAnalyzer.ts:101-107 | the fused score is an integer in [0, 100]; with in-range sub-scores it is the weighted sum rounded to the nearest integer |
| Intonation.FuseBounds | backend/src/utils/intonationAnalyzer.ts:101-107 | with the scorers' ranges the weighted sum lies in [15, 100], so the clamp never bites and the score is at least 15 |
| Intonation.SubScoresOf | backend/src/utils/intonationAnalyzer.ts:90-92 | for a non-empty series the three sub-scores lie in their proved ranges |
| Intonation.ScoreSeries | backend/src/utils/intonationAnalyzer.ts:84-107 | the series is unscored exactly when it is empty, and a scored one scores between 15 and 100 |
| Intonation.Analyze | backend/src/utils/intonationAnalyzer.ts:19-115 | the analysis fails on the header exactly for a tagged buffer shorter than 4000 bytes, and any score it computes lies in [15, 100] |
| Intonation.IntonationScore | backend/src/utils/intonationAnalyzer.ts:19-115 | the result is in [0, 100] and is 0 exactly when nothing could be scored |
| Intonation.MeasureKansaiIntonation | backend/src/utils/intonationAnalyzer.ts:19-115 | the decode loop, the window loop and the early returns compute exactly the analysis result |
| Intonation.EmptyBufferScoresZero | backend/src/utils/intonationAnalyzer.ts:37-87 | an empty upload scores 0 whatever the detector |
| Intonation.SilenceScoresZero | backend/src/utils/intonationAnalyzer.ts:66-87 | if the detector finds no pitch anywhere, any upload scores 0 |
| Intonation.ZeroBufferScoresZero | backend/src/utils/intonationAnalyzer.ts:28-87 | an all-zero upload of any length scores 0 with any detector that finds no pitch in an all-zero window |
| Intonation.SteadyPitchScores43 | backend/src/utils/intonationAnalyzer.ts:90-107 | a series on one pitch gets sub-scores 70, 0 and 50, and scores 43 |
| Intonation.StepUpScores82 | backend/src/utils/intonationAnalyzer.ts:90-107 | `n ≥ 2` segments at 150 Hz then `n` at 250 Hz, at one intensity, get sub-scores 70, 80 and 100, and score 82 |
| Intonation.ShortStepScores67 | backend/src/utils/intonationAnalyzer.ts:90-107 | one segment at 150 Hz then one at 250 Hz, at one intensity, get sub-scores 70, 80 and 50 (the single phrase is too short for the accent test), and score 67 |

## Left out

- Pitch detection: the YIN detector from the `pitchfinder` package (configured for 44100 Hz) is outside the model. It is a parameter `detect`, and its falsy results (`null`, 0, NaN) are `None`. A negative frequency is assumed never to be reported. The silence result (`Intonation.ZeroBufferScoresZero`) assumes that the detector reports no pitch on an all-zero window (`QuietOnSilence`); the model does not show this of YIN, which may report a pitch for such a window, and then the score of silence need not be 0.
- Square root: `Math.sqrt` is a parameter `root`. The model states the mean square it is applied to, and no scorer depends on its value beyond the phrase threshold. The predicate `RootNonNegative` states what the model knows of it (non-negative for non-negative input); the segment-level lemmas that need non-negative intensity take it as a premise on the segments instead.
- Floating point: all arithmetic is over exact reals, so double and `Float32Array` rounding is not modelled. Dividing a 16-bit sample by 32768 is exact in single precision. `Math.floor(n * 0.8)` is modelled as `floor(4n / 5)`, which agrees for every length an array can have.
- Logging: the `console.log` and `console.error` calls, including a percentage that divides by zero for short recordings, have no effect on the result.
- Exceptions: the only exception the model carries is the negative array length of a short tagged buffer. `Math.max(...pitches)` on an extremely long series could overflow the call stack, and the resulting 0 is not modelled. Neither is an exception raised inside the detector, which the catch at backend/src/utils/intonationAnalyzer.ts:111-114 would also turn into 0.
- Scorers.PitchRangeScore: requires a non-empty series. The source would compute `-Infinity - Infinity` (NaN) for an empty one, but its only caller runs it after the empty-series short-circuit.
- Scorers.AccentPatternScore: requires a non-empty series. The source would divide 0 by 0 for an empty one, and its only caller runs it after the empty-series short-circuit.
- The request handler that averages this score with the text score (backend/src/index.ts) is not part of this model, and neither are the frontend, the recorder or the practice texts.
