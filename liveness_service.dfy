/** The liveness engine of services/enhanced_liveness_service.py: the
    movement analyser, the fail-open blink check and the fusion of both.

    The face service is taken as given: `extract` is the embedding extractor
    (None when no face is found), `similarity` the cosine similarity and
    `stdDev` numpy's population standard deviation. The mean is exact real
    arithmetic. `decode` is what the blink detector makes of a frame. */
module EnhancedLiveness {
  import opened Common
  import opened BlinkDetection

  const MinFrames: nat := 10
  const MinEmbeddings: nat := 5

  // ---------------------------------------------------------------------
  // Sampling

  /** max(1, n // 10) */
  function Stride(n: nat): (s: nat)
    ensures 1 <= s
  {
    if n / 10 > 1 then n / 10 else 1
  }

  /** Python's range(start, stop, step). */
  function Range(start: nat, stop: nat, step: nat): (r: seq<nat>)
    requires 1 <= step
    ensures forall k :: 0 <= k < |r| ==> r[k] == start + k * step
    ensures forall k :: 0 <= k < |r| ==> r[k] < stop
    decreases stop - start
  {
    if start >= stop then []
    else
      var rest := Range(start + step, stop, step);
      var r := [start] + rest;
      forall k | 1 <= k < |r|
        ensures r[k] == start + k * step
      {
        assert r[k] == rest[k - 1] == start + step + (k - 1) * step;
        MulStep(k - 1, step);
      }
      r
  }

  lemma MulStep(a: int, b: int)
    ensures (a + 1) * b == a * b + b
  {
  }

  /** range(start, stop, step) has ceil((stop - start) / step) elements. */
  lemma {:induction false} RangeLength(start: nat, stop: nat, step: nat)
    requires 1 <= step
    ensures |Range(start, stop, step)| * step >= stop - start
    ensures start < stop ==> (|Range(start, stop, step)| - 1) * step < stop - start
    ensures start >= stop ==> |Range(start, stop, step)| == 0
    decreases stop - start
  {
    if start < stop {
      var rest := Range(start + step, stop, step);
      RangeLength(start + step, stop, step);
      assert |Range(start, stop, step)| == |rest| + 1;
      MulStep(|rest|, step);
      if start + step < stop {
        MulStep(|rest| - 1, step);
      }
    }
  }

  /** The frame indices the movement analyser extracts embeddings from. */
  function SampleIndices(n: nat): seq<nat> {
    Range(0, n, Stride(n))
  }

  /** A burst of at least ten frames gives between ten and nineteen samples,
      all inside the burst and evenly spaced. */
  lemma SampleCountBounds(n: nat)
    requires n >= MinFrames
    ensures 10 <= |SampleIndices(n)| <= 19
    ensures forall k :: 0 <= k < |SampleIndices(n)| ==>
      SampleIndices(n)[k] == k * Stride(n) && SampleIndices(n)[k] < n
  {
    var s := Stride(n);
    var c := |SampleIndices(n)|;
    RangeLength(0, n, s);
    assert s == n / 10;
    CountBetween(c, s, n);
  }

  /** c steps of s cover [0, n) with the last one inside, and 10·s <= n < 10·s + 10. */
  lemma CountBetween(c: int, s: int, n: int)
    requires s >= 1 && 10 * s <= n < 10 * s + 10
    requires c * s >= n && (c - 1) * s < n
    ensures 10 <= c <= 19
  {
    if c < 10 {
      MulLe(c, 9, s);
    } else if c > 19 {
      MulLe(19, c - 1, s);
    }
  }

  lemma MulLe(a: int, b: int, s: int)
    requires a <= b && s >= 0
    ensures a * s <= b * s
  {
  }

  // ---------------------------------------------------------------------
  // Statistics

  function Sum(s: seq<real>): real
    decreases |s|
  {
    if s == [] then 0.0 else Sum(s[..|s| - 1]) + s[|s| - 1]
  }

  /** numpy.mean, in exact arithmetic. */
  function Mean(s: seq<real>): real
    requires |s| > 0
  {
    Sum(s) / |s| as real
  }

  lemma {:induction false} SumOfZeros(s: seq<real>)
    requires forall i :: 0 <= i < |s| ==> s[i] == 0.0
    ensures Sum(s) == 0.0
    ensures |s| > 0 ==> Mean(s) == 0.0
    decreases |s|
  {
    if s != [] {
      SumOfZeros(s[..|s| - 1]);
      assert Mean(s) == 0.0 / |s| as real;
    }
  }

  /** 1 - similarity of each consecutive pair of embeddings. */
  function Variations<E>(embeddings: seq<E>, similarity: (E, E) -> real): (v: seq<real>)
    ensures |v| == if embeddings == [] then 0 else |embeddings| - 1
  {
    seq(if embeddings == [] then 0 else |embeddings| - 1,
        i requires 0 <= i < |embeddings| - 1 => 1.0 - similarity(embeddings[i], embeddings[i + 1]))
  }

  /** The movement decision rule. */
  predicate NaturalMovement(avgVariation: real, stdVariation: real) {
    0.002 < avgVariation < 0.2 && stdVariation < 0.08
  }

  // ---------------------------------------------------------------------
  // Movement analyser

  /** The dictionary check_movement_liveness returns: an early rejection
      (passed False, confidence 0.0), or the measured statistics, whose
      confidence is the average variation. */
  datatype MovementResult =
    | Rejected(reason: string)
    | Analyzed(passed: bool, avgVariation: real, stdVariation: real, framesAnalyzed: nat, reason: string)
  {
    function Passed(): bool {
      Analyzed? && passed
    }

    function Confidence(): real {
      if Analyzed? then avgVariation else 0.0
    }
  }

  /** Frame `i` exists and no embedding can be extracted from it. */
  function Missing<F, E>(frames: seq<F>, extract: F -> Option<E>): nat -> bool {
    (i: nat) => i < |frames| && extract(frames[i]).None?
  }

  function Sampled<F, E>(frames: seq<F>, indices: seq<nat>, extract: F -> Option<E>): (embeddings: seq<E>)
    requires forall k :: 0 <= k < |indices| ==> indices[k] < |frames| && extract(frames[indices[k]]).Some?
    ensures |embeddings| == |indices|
  {
    seq(|indices|, k requires 0 <= k < |indices| => extract(frames[indices[k]]).value)
  }

  /** check_movement_liveness as a function of the burst and the face service. */
  function MovementCheck<F, E>(frames: seq<F>, extract: F -> Option<E>, similarity: (E, E) -> real,
                               stdDev: seq<real> -> real): (r: MovementResult)
    ensures r.Passed() ==> |frames| >= MinFrames && NaturalMovement(r.avgVariation, r.stdVariation)
    ensures r.Analyzed? ==>
      r.passed == NaturalMovement(r.avgVariation, r.stdVariation)
      && (r.reason == "Natural movement detected" <==> r.passed)
      && r.framesAnalyzed == |SampleIndices(|frames|)|
      && |frames| >= MinFrames
      && forall k :: 0 <= k < |SampleIndices(|frames|)| ==> extract(frames[SampleIndices(|frames|)[k]]).Some?
  {
    if |frames| < MinFrames then Rejected("Insufficient frames (need at least 10)")
    else
      var indices := SampleIndices(|frames|);
      match FirstMatch(indices, Missing(frames, extract))
      case Some(k) => Rejected("Face not detected in frame " + NatToString(indices[k] + 1))
      case None =>
        var embeddings := Sampled(frames, indices, extract);
        if |embeddings| < MinEmbeddings then Rejected("Not enough valid face detections")
        else
          var variations := Variations(embeddings, similarity);
          var avg := Mean(variations);
          var std := stdDev(variations);
          var passed := NaturalMovement(avg, std);
          Analyzed(passed, avg, std, |embeddings|,
                   if passed then "Natural movement detected" else "Suspicious movement pattern")
  }

  /** Short bursts fail closed. */
  lemma ShortBurstFailsMovement<F, E>(frames: seq<F>, extract: F -> Option<E>, similarity: (E, E) -> real,
                                      stdDev: seq<real> -> real)
    requires |frames| < MinFrames
    ensures !MovementCheck(frames, extract, similarity, stdDev).Passed()
    ensures MovementCheck(frames, extract, similarity, stdDev).Confidence() == 0.0
  {
  }

  /** On a full burst the analyser either names the first sampled frame without
      a face, or analyses every sample: the "not enough valid detections" guard
      can never fire. When it analyses, there is one variation fewer than
      samples, `passed` is the decision rule and confidence is the mean. */
  lemma MovementOnFullBurst<F, E>(frames: seq<F>, extract: F -> Option<E>, similarity: (E, E) -> real,
                                  stdDev: seq<real> -> real)
    requires |frames| >= MinFrames
    ensures var r := MovementCheck(frames, extract, similarity, stdDev);
      var indices := SampleIndices(|frames|);
      match FirstMatch(indices, Missing(frames, extract))
      case Some(k) =>
        r == Rejected("Face not detected in frame " + NatToString(indices[k] + 1))
        && extract(frames[indices[k]]).None?
        && forall j :: 0 <= j < k ==> extract(frames[indices[j]]).Some?
      case None =>
        var embeddings := Sampled(frames, indices, extract);
        var variations := Variations(embeddings, similarity);
        r.Analyzed?
        && 10 <= r.framesAnalyzed == |embeddings| <= 19
        && |variations| == r.framesAnalyzed - 1
        && (forall i :: 0 <= i < |variations| ==>
              variations[i] == 1.0 - similarity(embeddings[i], embeddings[i + 1]))
        && r.avgVariation == Mean(variations) && r.stdVariation == stdDev(variations)
        && (r.passed <==> NaturalMovement(r.avgVariation, r.stdVariation))
        && r.Confidence() == r.avgVariation
  {
    SampleCountBounds(|frames|);
  }

  /** The analyser looks at no frame after the first sampled frame without a
      face: two extractors that agree up to that frame give the same result. */
  lemma MovementStopsAtFirstMissing<F, E>(frames: seq<F>, extract: F -> Option<E>, other: F -> Option<E>,
                                          similarity: (E, E) -> real, stdDev: seq<real> -> real, k: nat)
    requires |frames| >= MinFrames && k < |SampleIndices(|frames|)|
    requires extract(frames[SampleIndices(|frames|)[k]]).None?
    requires forall j :: 0 <= j < k ==> extract(frames[SampleIndices(|frames|)[j]]).Some?
    requires forall j :: 0 <= j <= k ==>
      other(frames[SampleIndices(|frames|)[j]]) == extract(frames[SampleIndices(|frames|)[j]])
    ensures MovementCheck(frames, other, similarity, stdDev) == MovementCheck(frames, extract, similarity, stdDev)
    ensures MovementCheck(frames, extract, similarity, stdDev)
         == Rejected("Face not detected in frame " + NatToString(SampleIndices(|frames|)[k] + 1))
  {
    var indices := SampleIndices(|frames|);
    FirstMatchAt(indices, Missing(frames, extract), k);
    FirstMatchAt(indices, Missing(frames, other), k);
  }

  /** Identical embeddings do not drift. */
  lemma ConstantDriftIsZero<E>(embeddings: seq<E>, similarity: (E, E) -> real, e: E)
    requires forall k :: 0 <= k < |embeddings| ==> embeddings[k] == e
    requires similarity(e, e) == 1.0
    ensures forall i :: 0 <= i < |Variations(embeddings, similarity)| ==> Variations(embeddings, similarity)[i] == 0.0
  {
  }

  /** A static image (the same embedding in every frame) never passes. */
  lemma StaticBurstFails<F, E>(frames: seq<F>, extract: F -> Option<E>, similarity: (E, E) -> real,
                               stdDev: seq<real> -> real, e: E)
    requires forall i :: 0 <= i < |frames| ==> extract(frames[i]) == Some(e)
    requires similarity(e, e) == 1.0
    ensures !MovementCheck(frames, extract, similarity, stdDev).Passed()
    ensures MovementCheck(frames, extract, similarity, stdDev).reason != "Natural movement detected"
  {
    if |frames| >= MinFrames {
      var indices := SampleIndices(|frames|);
      SampleCountBounds(|frames|);
      assert forall k :: 0 <= k < |indices| ==> !Missing(frames, extract)(indices[k]);
      assert FirstMatch(indices, Missing(frames, extract)).None?;
      var embeddings := Sampled(frames, indices, extract);
      assert forall k :: 0 <= k < |embeddings| ==> embeddings[k] == e;
      var variations := Variations(embeddings, similarity);
      ConstantDriftIsZero(embeddings, similarity, e);
      SumOfZeros(variations);
    }
  }

  /** Moderate, steady drift passes the rule. */
  lemma ModerateDriftPasses()
    ensures NaturalMovement(0.05, 0.01)
    ensures !NaturalMovement(0.0, 0.0) && !NaturalMovement(0.25, 0.01) && !NaturalMovement(0.05, 0.1)
  {
  }

  // ---------------------------------------------------------------------
  // Blink check

  /** The dictionary check_blink_liveness returns; `requiredBlinks` is absent
      on the fail-open paths. */
  datatype BlinkResult = BlinkResult(passed: bool, blinks: nat, requiredBlinks: Option<nat>, reason: string)

  /** check_blink_liveness: fails open when the detector has no landmark model
      or the analysis raises, otherwise reports the analysis. */
  function BlinkCheck(cfg: Config, frames: seq<FrameInput>): (r: BlinkResult)
    ensures r.requiredBlinks.Some? <==> cfg.initialized && Analysis(cfg, frames).Success?
    ensures r.requiredBlinks.None? ==> r.passed && r.blinks == 0
    ensures !r.passed ==> r.blinks == 0 && r.requiredBlinks == Some(1)
  {
    if !cfg.initialized then BlinkResult(true, 0, None, "Blink detection not available")
    else match Analysis(cfg, frames)
      case Failure(error) => BlinkResult(true, 0, None, "Blink detection error: " + error)
      case Success(summary) =>
        BlinkResult(summary.isLive, summary.totalBlinks, Some(summary.requiredBlinks), summary.reason)
  }

  lemma BlinkCheckCases(cfg: Config, frames: seq<FrameInput>)
    ensures var r := BlinkCheck(cfg, frames);
      (!cfg.initialized || Analysis(cfg, frames).Failure? ==> r.passed && r.blinks == 0)
      && (cfg.initialized && Analysis(cfg, frames).Success? ==>
            r.passed == Analysis(cfg, frames).value.isLive
            && r.blinks == Analysis(cfg, frames).value.totalBlinks
            && (r.passed <==> r.blinks > 0))
      && r.blinks <= |frames|
  {
    if cfg.initialized && Analysis(cfg, frames).Success? {
      AnalysisSummary(cfg, frames);
    }
  }

  // ---------------------------------------------------------------------
  // Fusion

  datatype Details = Details(movement: MovementResult, blink: BlinkResult, totalFrames: nat)

  /** The dictionary check_liveness returns; `details` is empty on a short burst. */
  datatype Verdict = Verdict(isLive: bool, confidence: real, reason: string, details: Option<Details>)

  /** The four confidence tiers. */
  function FusedConfidence(movementPassed: bool, blinkPassed: bool, blinkCount: nat): (c: real)
    ensures 0.0 <= c <= 1.0
    ensures movementPassed && blinkPassed ==> c >= 0.85
    ensures !(movementPassed && blinkPassed) ==> c <= 0.6
    ensures c == 0.0 <==> !movementPassed && !blinkPassed
  {
    if movementPassed && blinkPassed && blinkCount > 0 then 0.95
    else if movementPassed && blinkPassed then 0.85
    else if movementPassed || blinkPassed then 0.6
    else 0.0
  }

  lemma ConfidenceTable(blinkCount: nat)
    ensures FusedConfidence(true, true, blinkCount) == if blinkCount > 0 then 0.95 else 0.85
    ensures FusedConfidence(true, false, blinkCount) == 0.6
    ensures FusedConfidence(false, true, blinkCount) == 0.6
    ensures FusedConfidence(false, false, blinkCount) == 0.0
  {
  }

  /** The failing sub-reasons, movement first, or the all-passed summary. */
  function FusedReasons(movement: MovementResult, blink: BlinkResult): seq<string> {
    var failing := (if movement.Passed() then [] else [movement.reason])
                   + (if blink.passed then [] else [blink.reason]);
    if failing == [] then ["All checks passed - " + NatToString(blink.blinks) + " blink(s) detected"]
    else failing
  }

  function Fuse(movement: MovementResult, blink: BlinkResult, totalFrames: nat): (v: Verdict)
    ensures v.isLive <==> movement.Passed() && blink.passed
    ensures 0.0 <= v.confidence <= 1.0
    ensures v.isLive ==> v.confidence >= 0.85
    ensures !v.isLive ==> v.confidence <= 0.6
    ensures v.details == Some(Details(movement, blink, totalFrames))
  {
    Verdict(movement.Passed() && blink.passed,
            FusedConfidence(movement.Passed(), blink.passed, blink.blinks),
            Join(FusedReasons(movement, blink), "; "),
            Some(Details(movement, blink, totalFrames)))
  }

  lemma FusedReasonCases(movement: MovementResult, blink: BlinkResult, totalFrames: nat)
    ensures var reason := Fuse(movement, blink, totalFrames).reason;
      (movement.Passed() && blink.passed ==>
         reason == "All checks passed - " + NatToString(blink.blinks) + " blink(s) detected")
      && (!movement.Passed() && blink.passed ==> reason == movement.reason)
      && (movement.Passed() && !blink.passed ==> reason == blink.reason)
      && (!movement.Passed() && !blink.passed ==> reason == movement.reason + "; " + blink.reason)
  {
    if !movement.Passed() && !blink.passed {
      JoinTwo(movement.reason, blink.reason, "; ");
    }
  }

  /** Builds the verdict from the two partial results, appending the failing
      reasons one by one. */
  method Combine(movement: MovementResult, blink: BlinkResult, totalFrames: nat) returns (verdict: Verdict)
    ensures verdict == Fuse(movement, blink, totalFrames)
    ensures verdict.isLive == (movement.Passed() && blink.passed)
    ensures 0.0 <= verdict.confidence <= 1.0
    ensures verdict.isLive ==> verdict.confidence >= 0.85
    ensures !verdict.isLive ==> verdict.confidence <= 0.6
  {
    var movementPassed := movement.Passed();
    var blinkPassed := blink.passed;
    var blinkCount := blink.blinks;
    var isLive := movementPassed && blinkPassed;
    var confidence := 0.0;
    if movementPassed && blinkPassed && blinkCount > 0 {
      confidence := 0.95;
    } else if movementPassed && blinkPassed {
      confidence := 0.85;
    } else if movementPassed || blinkPassed {
      confidence := 0.6;
    }
    var reasons: seq<string> := [];
    if !movementPassed {
      reasons := reasons + [movement.reason];
    }
    if !blinkPassed {
      reasons := reasons + [blink.reason];
    }
    if reasons == [] {
      reasons := reasons + ["All checks passed - " + NatToString(blinkCount) + " blink(s) detected"];
    }
    verdict := Verdict(isLive, confidence, Join(reasons, "; "), Some(Details(movement, blink, totalFrames)));
  }

  /** What the blink detector makes of each frame of the burst. */
  function DecodeAll<F>(frames: seq<F>, decode: F -> FrameInput): (inputs: seq<FrameInput>)
    ensures |inputs| == |frames|
  {
    seq(|frames|, i requires 0 <= i < |frames| => decode(frames[i]))
  }

  /** check_liveness as a function of the burst and the injected capabilities. */
  function LivenessVerdict<F, E>(frames: seq<F>, extract: F -> Option<E>, similarity: (E, E) -> real,
                                 stdDev: seq<real> -> real, decode: F -> FrameInput, cfg: Config): (v: Verdict)
    ensures v.details.Some? <==> |frames| >= MinFrames
    ensures |frames| < MinFrames ==> !v.isLive && v.confidence == 0.0
    ensures v.isLive ==>
      MovementCheck(frames, extract, similarity, stdDev).Passed() && BlinkCheck(cfg, DecodeAll(frames, decode)).passed
  {
    if |frames| < MinFrames then
      Verdict(false, 0.0, "Need at least 10 frames (got " + NatToString(|frames|) + ")", None)
    else
      Fuse(MovementCheck(frames, extract, similarity, stdDev), BlinkCheck(cfg, DecodeAll(frames, decode)), |frames|)
  }

  /** A short burst is rejected without consulting either analyser: the
      verdict is the same whatever the capabilities are. */
  lemma ShortBurstRejected<F, E>(frames: seq<F>, extract: F -> Option<E>, similarity: (E, E) -> real,
                                 stdDev: seq<real> -> real, decode: F -> FrameInput, cfg: Config,
                                 extract': F -> Option<E>, similarity': (E, E) -> real,
                                 stdDev': seq<real> -> real, decode': F -> FrameInput, cfg': Config)
    requires |frames| < MinFrames
    ensures var v := LivenessVerdict(frames, extract, similarity, stdDev, decode, cfg);
      !v.isLive && v.confidence == 0.0 && v.details.None?
      && v.reason == "Need at least 10 frames (got " + NatToString(|frames|) + ")"
      && v == LivenessVerdict(frames, extract', similarity', stdDev', decode', cfg')
  {
  }

  /** On a full burst: live exactly when both analysers pass, with the
      confidence tier of the fusion table. */
  lemma FullBurstVerdict<F, E>(frames: seq<F>, extract: F -> Option<E>, similarity: (E, E) -> real,
                               stdDev: seq<real> -> real, decode: F -> FrameInput, cfg: Config)
    requires |frames| >= MinFrames
    ensures var v := LivenessVerdict(frames, extract, similarity, stdDev, decode, cfg);
      var m := MovementCheck(frames, extract, similarity, stdDev);
      var b := BlinkCheck(cfg, DecodeAll(frames, decode));
      v.isLive == (m.Passed() && b.passed)
      && v.confidence == FusedConfidence(m.Passed(), b.passed, b.blinks)
      && 0.0 <= v.confidence <= 1.0
      && (v.isLive ==> v.confidence >= 0.85)
      && (!v.isLive ==> v.confidence <= 0.6)
      && v.details == Some(Details(m, b, |frames|))
      && v == Fuse(m, b, |frames|)
  {
  }

  /** Fusion with a blink check that failed open: the movement result decides. */
  lemma FuseFailOpen(m: MovementResult, b: BlinkResult, totalFrames: nat)
    requires b.passed && b.blinks == 0
    ensures var v := Fuse(m, b, totalFrames);
      v.isLive == m.Passed()
      && v.confidence == (if m.Passed() then 0.85 else 0.6)
      && (m.Passed() ==> v.reason == "All checks passed - 0 blink(s) detected")
      && (!m.Passed() ==> v.reason == m.reason)
  {
    assert NatToString(0) == "0";
    FusedReasonCases(m, b, totalFrames);
  }

  /** Without the landmark model the blink check is bypassed: the verdict is
      driven by the movement analyser alone. */
  lemma FailOpenWithoutLandmarks<F, E>(frames: seq<F>, extract: F -> Option<E>, similarity: (E, E) -> real,
                                       stdDev: seq<real> -> real, decode: F -> FrameInput, cfg: Config)
    requires |frames| >= MinFrames && !cfg.initialized
    ensures var v := LivenessVerdict(frames, extract, similarity, stdDev, decode, cfg);
      var m := MovementCheck(frames, extract, similarity, stdDev);
      v.isLive == m.Passed()
      && v.confidence == (if m.Passed() then 0.85 else 0.6)
      && (m.Passed() ==> v.reason == "All checks passed - 0 blink(s) detected")
      && (!m.Passed() ==> v.reason == m.reason)
  {
    var m := MovementCheck(frames, extract, similarity, stdDev);
    var b := BlinkCheck(cfg, DecodeAll(frames, decode));
    FuseFailOpen(m, b, |frames|);
  }

  // ---------------------------------------------------------------------
  // The service object

  class LivenessService<F, E> {
    const extract: F -> Option<E>
    const similarity: (E, E) -> real
    const stdDev: seq<real> -> real
    const decode: F -> FrameInput
    const blinkDetector: BlinkDetector

    /** __init__: the face service's capabilities and a blink detector with the
        default constants. */
    constructor (extract: F -> Option<E>, similarity: (E, E) -> real, stdDev: seq<real> -> real,
                 decode: F -> FrameInput, landmarkModelLoaded: bool)
      ensures this.extract == extract && this.similarity == similarity && this.stdDev == stdDev
      ensures this.decode == decode
      ensures fresh(blinkDetector)
      ensures blinkDetector.Cfg() == Config(DefaultEarThreshold, DefaultConsecFrames, landmarkModelLoaded)
      ensures blinkDetector.State() == Counters(0, 0)
    {
      this.extract := extract;
      this.similarity := similarity;
      this.stdDev := stdDev;
      this.decode := decode;
      blinkDetector := new BlinkDetector(DefaultEarThreshold, DefaultConsecFrames, landmarkModelLoaded);
    }

    method CheckMovementLiveness(frames: seq<F>) returns (r: MovementResult)
      ensures r == MovementCheck(frames, extract, similarity, stdDev)
    {
      if |frames| < MinFrames {
        return Rejected("Insufficient frames (need at least 10)");
      }
      var embeddings: seq<E> := [];
      var indices := SampleIndices(|frames|);
      for k := 0 to |indices|
        invariant |embeddings| == k
        invariant forall j :: 0 <= j < k ==>
          extract(frames[indices[j]]).Some? && embeddings[j] == extract(frames[indices[j]]).value
      {
        var i := indices[k];
        var embedding := extract(frames[i]);
        if embedding.None? {
          FirstMatchAt(indices, Missing(frames, extract), k);
          return Rejected("Face not detected in frame " + NatToString(i + 1));
        }
        embeddings := embeddings + [embedding.value];
      }
      assert FirstMatch(indices, Missing(frames, extract)).None?;
      assert embeddings == Sampled(frames, indices, extract);
      if |embeddings| < MinEmbeddings {
        return Rejected("Not enough valid face detections");
      }
      var variations := Drifts(embeddings);
      var avgVariation := Mean(variations);
      var stdVariation := stdDev(variations);
      var passed := 0.002 < avgVariation < 0.2 && stdVariation < 0.08;
      return Analyzed(passed, avgVariation, stdVariation, |embeddings|,
                      if passed then "Natural movement detected" else "Suspicious movement pattern");
    }

    /** The variation loop of check_movement_liveness: 1 - similarity of each
        consecutive pair of sampled embeddings. */
    method Drifts(embeddings: seq<E>) returns (variations: seq<real>)
      requires embeddings != []
      ensures variations == Variations(embeddings, similarity)
    {
      variations := [];
      for i := 0 to |embeddings| - 1
        invariant |variations| == i
        invariant forall j :: 0 <= j < i ==> variations[j] == 1.0 - similarity(embeddings[j], embeddings[j + 1])
      {
        var sim := similarity(embeddings[i], embeddings[i + 1]);
        variations := variations + [1.0 - sim];
      }
      ghost var expected := Variations(embeddings, similarity);
      assert forall j :: 0 <= j < |expected| ==> variations[j] == expected[j];
    }

    method CheckBlinkLiveness(frames: seq<F>) returns (r: BlinkResult)
      modifies blinkDetector
      ensures r == BlinkCheck(blinkDetector.Cfg(), DecodeAll(frames, decode))
      ensures !blinkDetector.initialized ==> blinkDetector.State() == old(blinkDetector.State())
      ensures blinkDetector.initialized ==>
        var inputs := DecodeAll(frames, decode);
        blinkDetector.State() == Run(blinkDetector.Cfg(), Observations(inputs)[..DecodedCount(inputs)])
    {
      if !blinkDetector.initialized {
        return BlinkResult(true, 0, None, "Blink detection not available");
      }
      var result := blinkDetector.AnalyzeVideoFrames(DecodeAll(frames, decode));
      match result
      case Failure(error) =>
        return BlinkResult(true, 0, None, "Blink detection error: " + error);
      case Success(summary) =>
        return BlinkResult(summary.isLive, summary.totalBlinks, Some(summary.requiredBlinks), summary.reason);
    }

    /** The verdict depends only on the burst: calling it twice on the same
        frames gives the same verdict, whatever the detector held before. */
    method CheckLiveness(frames: seq<F>) returns (verdict: Verdict)
      modifies blinkDetector
      ensures verdict == LivenessVerdict(frames, extract, similarity, stdDev, decode, blinkDetector.Cfg())
      ensures |frames| < MinFrames ==> blinkDetector.State() == old(blinkDetector.State())
      ensures !blinkDetector.initialized ==> blinkDetector.State() == old(blinkDetector.State())
      ensures |frames| >= MinFrames && blinkDetector.initialized ==>
        var inputs := DecodeAll(frames, decode);
        blinkDetector.State() == Run(blinkDetector.Cfg(), Observations(inputs)[..DecodedCount(inputs)])
    {
      var totalFrames := |frames|;
      if totalFrames < MinFrames {
        return Verdict(false, 0.0, "Need at least 10 frames (got " + NatToString(totalFrames) + ")", None);
      }
      var movementResult := CheckMovementLiveness(frames);
      var blinkResult := CheckBlinkLiveness(frames);
      verdict := Combine(movementResult, blinkResult, totalFrames);
    }
  }
}
