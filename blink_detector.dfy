/** The eye-aspect-ratio blink detector (services/blink_detector.py).

    The landmark step (grayscale conversion, dlib face detection and the
    68-point shape predictor) is abstracted: a decoded frame yields an
    `Observation`, either no face or the eye aspect ratios of both eyes.
    What remains is a two-counter state machine driven frame by frame. */
module BlinkDetection {
  import opened Common

  datatype Point = Point(x: real, y: real)

  /** Result of the landmark step on one decoded frame. */
  datatype Observation = NoFace | Ear(left: real, right: real)

  /** A frame as handed to analyze_video_frames: either its decoding raises
      (bad base64 or an unreadable image, with the exception's text), or it
      decodes to an image on which the landmark step yields an observation. */
  datatype FrameInput = Corrupt(error: string) | Image(observation: Observation)

  /** The detector's constants: EAR_THRESHOLD, CONSEC_FRAMES, and whether the
      landmark model could be loaded. */
  datatype Config = Config(earThreshold: real, consecFrames: int, initialized: bool)

  /** blink_counter and frame_counter (the length of the current closed run). */
  datatype Counters = Counters(blinks: nat, closedRun: nat)

  /** The dictionary detect_blink_in_frame returns. */
  datatype FrameOutcome =
    | NotInitialized
    | NoFaceDetected(totalBlinks: nat)
    | Measured(blinkDetected: bool, totalBlinks: nat, earLeft: real, earRight: real,
               avgEar: real, eyesClosed: bool)
  {
    function BlinkDetected(): bool {
      Measured? && blinkDetected
    }

    function TotalBlinks(): nat {
      match this
      case NotInitialized => 0
      case NoFaceDetected(n) => n
      case Measured(_, n, _, _, _, _) => n
    }
  }

  /** One element of 'frame_results': the per-frame dictionary plus its 'frame_idx'. */
  datatype FrameReport = FrameReport(outcome: FrameOutcome, frameIdx: nat)

  /** The dictionary analyze_video_frames returns. */
  datatype Summary = Summary(hasBlinks: bool, totalBlinks: nat, requiredBlinks: nat, isLive: bool,
                             frameResults: seq<FrameReport>, reason: string)

  const DefaultEarThreshold: real := 0.3
  const DefaultConsecFrames: int := 1
  /** Indices of the two eyes in the 68-point landmark layout. */
  const LeftEyeStart: nat := 42
  const RightEyeStart: nat := 36

  // ---------------------------------------------------------------------
  // Eye aspect ratio

  /** calculate_ear: (|p1-p5| + |p2-p4|) / (2 |p0-p3|) for the six points of
      one eye, under a distance function `dist`. The source does not guard the
      division, so a zero horizontal distance is excluded here. */
  function EyeAspectRatio(dist: (Point, Point) -> real, eye: seq<Point>): (ear: real)
    requires |eye| == 6 && dist(eye[0], eye[3]) > 0.0
    ensures ear * (2.0 * dist(eye[0], eye[3])) == dist(eye[1], eye[5]) + dist(eye[2], eye[4])
    ensures dist(eye[1], eye[5]) >= 0.0 && dist(eye[2], eye[4]) >= 0.0 ==> ear >= 0.0
  {
    (dist(eye[1], eye[5]) + dist(eye[2], eye[4])) / (2.0 * dist(eye[0], eye[3]))
  }

  /** An eye whose two vertical distances equal its horizontal one has EAR 1. */
  lemma EarOfEvenEye(dist: (Point, Point) -> real, eye: seq<Point>)
    requires |eye| == 6 && dist(eye[0], eye[3]) > 0.0
    requires dist(eye[1], eye[5]) == dist(eye[0], eye[3]) == dist(eye[2], eye[4])
    ensures EyeAspectRatio(dist, eye) == 1.0
  {
    var c := dist(eye[0], eye[3]);
    assert EyeAspectRatio(dist, eye) == (c + c) / (2.0 * c);
  }

  function Translate(p: Point, dx: real, dy: real): Point {
    Point(p.x + dx, p.y + dy)
  }

  function TranslateEye(eye: seq<Point>, dx: real, dy: real): (moved: seq<Point>)
    ensures |moved| == |eye|
    ensures forall i :: 0 <= i < |eye| ==> moved[i] == Translate(eye[i], dx, dy)
  {
    seq(|eye|, i requires 0 <= i < |eye| => Translate(eye[i], dx, dy))
  }

  /** For a translation-invariant distance (Euclidean distance is one),
      moving all six points by the same offset leaves the EAR unchanged. */
  lemma EarTranslationInvariant(dist: (Point, Point) -> real, eye: seq<Point>, dx: real, dy: real)
    requires |eye| == 6 && dist(eye[0], eye[3]) > 0.0
    requires forall p, q :: dist(Translate(p, dx, dy), Translate(q, dx, dy)) == dist(p, q)
    ensures dist(TranslateEye(eye, dx, dy)[0], TranslateEye(eye, dx, dy)[3]) > 0.0
    ensures EyeAspectRatio(dist, TranslateEye(eye, dx, dy)) == EyeAspectRatio(dist, eye)
  {
    var moved := TranslateEye(eye, dx, dy);
    assert dist(moved[0], moved[3]) == dist(eye[0], eye[3]);
    assert dist(moved[1], moved[5]) == dist(eye[1], eye[5]);
    assert dist(moved[2], moved[4]) == dist(eye[2], eye[4]);
  }

  /** The landmark step for a frame in which the detector found `faces`
      (each a list of 68 landmark points): no face, or the EARs of the first
      face's left eye (points 42-47) and right eye (points 36-41). */
  function ObservationOf(dist: (Point, Point) -> real, faces: seq<seq<Point>>): (obs: Observation)
    requires faces != [] ==> |faces[0]| == 68
    requires faces != [] ==> dist(faces[0][LeftEyeStart], faces[0][LeftEyeStart + 3]) > 0.0
    requires faces != [] ==> dist(faces[0][RightEyeStart], faces[0][RightEyeStart + 3]) > 0.0
    ensures obs.NoFace? <==> faces == []
    ensures obs.Ear? ==> obs.left == EyeAspectRatio(dist, faces[0][LeftEyeStart..LeftEyeStart + 6])
    ensures obs.Ear? ==> obs.right == EyeAspectRatio(dist, faces[0][RightEyeStart..RightEyeStart + 6])
  {
    if faces == [] then NoFace
    else
      var landmarks := faces[0];
      Ear(EyeAspectRatio(dist, landmarks[LeftEyeStart..LeftEyeStart + 6]),
          EyeAspectRatio(dist, landmarks[RightEyeStart..RightEyeStart + 6]))
  }

  // ---------------------------------------------------------------------
  // The state machine, as functions

  function AvgEar(left: real, right: real): real {
    (left + right) / 2.0
  }

  /** The detector sees the eyes closed in this frame. */
  predicate IsClosed(cfg: Config, obs: Observation) {
    cfg.initialized && obs.Ear? && AvgEar(obs.left, obs.right) < cfg.earThreshold
  }

  /** The detector sees the eyes open in this frame. */
  predicate IsOpen(cfg: Config, obs: Observation) {
    cfg.initialized && obs.Ear? && !(AvgEar(obs.left, obs.right) < cfg.earThreshold)
  }

  /** The counters after detect_blink_in_frame on one frame. */
  function Step(cfg: Config, c: Counters, obs: Observation): (next: Counters)
    ensures c.blinks <= next.blinks <= c.blinks + 1
    ensures next.blinks + next.closedRun <= c.blinks + c.closedRun + 1
    ensures next.blinks == c.blinks + 1 <==> IsOpen(cfg, obs) && c.closedRun >= cfg.consecFrames
    ensures IsClosed(cfg, obs) ==> next.closedRun == c.closedRun + 1
    ensures IsOpen(cfg, obs) ==> next.closedRun == 0
    ensures !IsClosed(cfg, obs) && !IsOpen(cfg, obs) ==> next == c
  {
    if !cfg.initialized then c
    else match obs
      case NoFace => c
      case Ear(left, right) =>
        if AvgEar(left, right) < cfg.earThreshold then Counters(c.blinks, c.closedRun + 1)
        else if c.closedRun >= cfg.consecFrames then Counters(c.blinks + 1, 0)
        else Counters(c.blinks, 0)
  }

  /** The dictionary detect_blink_in_frame returns, from the counters before the frame. */
  function Outcome(cfg: Config, c: Counters, obs: Observation): (out: FrameOutcome)
    ensures out.NotInitialized? <==> !cfg.initialized
    ensures out.BlinkDetected() <==> Step(cfg, c, obs).blinks == c.blinks + 1
    ensures out.TotalBlinks() == if cfg.initialized then Step(cfg, c, obs).blinks else 0
  {
    if !cfg.initialized then NotInitialized
    else match obs
      case NoFace => NoFaceDetected(c.blinks)
      case Ear(left, right) =>
        var avg := AvgEar(left, right);
        var blinked := !(avg < cfg.earThreshold) && c.closedRun >= cfg.consecFrames;
        Measured(blinked, Step(cfg, c, obs).blinks, left, right, avg, avg < cfg.earThreshold)
  }

  /** Every per-frame transition, spelled out. */
  lemma StepCases(cfg: Config, c: Counters, obs: Observation)
    ensures !cfg.initialized ==>
      Step(cfg, c, obs) == c && Outcome(cfg, c, obs) == NotInitialized
      && !Outcome(cfg, c, obs).BlinkDetected() && Outcome(cfg, c, obs).TotalBlinks() == 0
    ensures cfg.initialized && obs.NoFace? ==>
      Step(cfg, c, obs) == c && Outcome(cfg, c, obs) == NoFaceDetected(c.blinks)
    ensures IsClosed(cfg, obs) ==>
      Step(cfg, c, obs) == Counters(c.blinks, c.closedRun + 1)
      && !Outcome(cfg, c, obs).BlinkDetected() && Outcome(cfg, c, obs).eyesClosed
    ensures IsOpen(cfg, obs) ==>
      Step(cfg, c, obs).closedRun == 0
      && !Outcome(cfg, c, obs).eyesClosed
      && (Outcome(cfg, c, obs).BlinkDetected() <==> c.closedRun >= cfg.consecFrames)
      && Step(cfg, c, obs).blinks == (if c.closedRun >= cfg.consecFrames then c.blinks + 1 else c.blinks)
    ensures Outcome(cfg, c, obs).TotalBlinks() == (if cfg.initialized then Step(cfg, c, obs).blinks else 0)
    ensures obs.Ear? && cfg.initialized ==>
      Outcome(cfg, c, obs).avgEar == (obs.left + obs.right) / 2.0
      && Outcome(cfg, c, obs).earLeft == obs.left && Outcome(cfg, c, obs).earRight == obs.right
      && (Outcome(cfg, c, obs).eyesClosed <==> IsClosed(cfg, obs))
  {
  }

  /** The counters after feeding `obs` in order to a freshly reset detector. */
  function Run(cfg: Config, obs: seq<Observation>): (c: Counters)
    ensures c.blinks + c.closedRun <= |obs|
    decreases |obs|
  {
    if obs == [] then Counters(0, 0)
    else Step(cfg, Run(cfg, obs[..|obs| - 1]), obs[|obs| - 1])
  }

  /** The first `n` per-frame reports of a run over `obs`. */
  function Reports(cfg: Config, obs: seq<Observation>, n: nat): seq<FrameReport>
    requires n <= |obs|
  {
    seq(n, i requires 0 <= i < n => FrameReport(Outcome(cfg, Run(cfg, obs[..i]), obs[i]), i))
  }

  /** One more frame takes one more step. */
  lemma RunExtend(cfg: Config, obs: seq<Observation>, n: nat)
    requires n < |obs|
    ensures Run(cfg, obs[..n + 1]) == Step(cfg, Run(cfg, obs[..n]), obs[n])
  {
    assert obs[..n + 1][..n] == obs[..n];
  }

  /** One more frame appends its report. */
  lemma ReportsExtend(cfg: Config, obs: seq<Observation>, n: nat)
    requires n < |obs|
    ensures Reports(cfg, obs, n + 1) == Reports(cfg, obs, n) + [FrameReport(Outcome(cfg, Run(cfg, obs[..n]), obs[n]), n)]
  {
  }

  /** Number of leading frames that decode; the first corrupt frame stops the run. */
  function DecodedCount(frames: seq<FrameInput>): (k: nat)
    ensures k <= |frames|
    ensures forall i :: 0 <= i < k ==> frames[i].Image?
    ensures k < |frames| ==> frames[k].Corrupt?
  {
    match FirstMatch(frames, (f: FrameInput) => f.Corrupt?)
    case Some(k) => k
    case None => |frames|
  }

  /** What the landmark step sees in each frame (a corrupt frame is never reached). */
  function Observations(frames: seq<FrameInput>): (obs: seq<Observation>)
    ensures |obs| == |frames|
  {
    seq(|frames|, i requires 0 <= i < |frames| =>
      match frames[i] case Image(o) => o case Corrupt(_) => NoFace)
  }

  function BlinkReason(totalBlinks: nat): string {
    if totalBlinks > 0 then "Detected " + NatToString(totalBlinks) + " blink(s)"
    else "No blinks detected - possible photo/video"
  }

  /** analyze_video_frames on a reset detector: the error of the first corrupt
      frame, or the summary of the whole run. */
  function Analysis(cfg: Config, frames: seq<FrameInput>): (r: Result<Summary, string>)
    ensures r.Failure? <==> DecodedCount(frames) < |frames|
    ensures r.Failure? ==> r.error == frames[DecodedCount(frames)].error
    ensures r.Success? ==>
      r.value.totalBlinks == Run(cfg, Observations(frames)).blinks <= |frames|
      && r.value.isLive == (r.value.totalBlinks > 0)
      && |r.value.frameResults| == |frames|
  {
    var k := DecodedCount(frames);
    if k < |frames| then Failure(frames[k].error)
    else
      var obs := Observations(frames);
      var n := Run(cfg, obs).blinks;
      Success(Summary(n > 0, n, 1, n > 0, Reports(cfg, obs, |obs|), BlinkReason(n)))
  }

  // ---------------------------------------------------------------------
  // Properties of the state machine

  function CountWhere(cfg: Config, obs: seq<Observation>, p: (Config, Observation) -> bool): nat
    decreases |obs|
  {
    if obs == [] then 0
    else CountWhere(cfg, obs[..|obs| - 1], p) + (if p(cfg, obs[|obs| - 1]) then 1 else 0)
  }

  function ClosedFrames(cfg: Config, obs: seq<Observation>): nat {
    CountWhere(cfg, obs, IsClosed)
  }

  function OpenFrames(cfg: Config, obs: seq<Observation>): nat {
    CountWhere(cfg, obs, IsOpen)
  }

  /** Each blink is completed by a distinct open frame. */
  lemma {:induction false} BlinksAtMostOpenFrames(cfg: Config, obs: seq<Observation>)
    ensures Run(cfg, obs).blinks <= OpenFrames(cfg, obs)
    ensures OpenFrames(cfg, obs) <= |obs|
    decreases |obs|
  {
    if obs != [] {
      BlinksAtMostOpenFrames(cfg, obs[..|obs| - 1]);
    }
  }

  /** With CONSEC_FRAMES >= 1, every blink consumed a closed run of at least
      CONSEC_FRAMES frames, and the current run is made of closed frames too. */
  lemma {:induction false} BlinksNeedClosedRuns(cfg: Config, obs: seq<Observation>)
    requires cfg.consecFrames >= 1
    ensures cfg.consecFrames * Run(cfg, obs).blinks + Run(cfg, obs).closedRun <= ClosedFrames(cfg, obs)
    decreases |obs|
  {
    if obs != [] {
      var prev := obs[..|obs| - 1];
      BlinksNeedClosedRuns(cfg, prev);
      var c := Run(cfg, prev);
      var o := obs[|obs| - 1];
      if IsOpen(cfg, o) && c.closedRun >= cfg.consecFrames {
        assert Run(cfg, obs) == Counters(c.blinks + 1, 0);
        assert cfg.consecFrames * (c.blinks + 1) == cfg.consecFrames * c.blinks + cfg.consecFrames;
      }
    }
  }

  /** blink_counter never decreases and grows by at most one per frame. */
  lemma {:induction false} BlinksMonotone(cfg: Config, obs: seq<Observation>, i: nat, j: nat)
    requires i <= j <= |obs|
    ensures Run(cfg, obs[..i]).blinks <= Run(cfg, obs[..j]).blinks <= Run(cfg, obs[..i]).blinks + (j - i)
    decreases j - i
  {
    if i < j {
      BlinksMonotone(cfg, obs, i, j - 1);
      assert obs[..j][..j - 1] == obs[..j - 1];
    }
  }

  /** Eyes never seen closed: no blink. */
  lemma AllOpenNoBlinks(cfg: Config, obs: seq<Observation>)
    requires cfg.consecFrames >= 1
    requires forall i :: 0 <= i < |obs| ==> !IsClosed(cfg, obs[i])
    ensures Run(cfg, obs).blinks == 0
  {
    NoClosedFrames(cfg, obs);
    BlinksNeedClosedRuns(cfg, obs);
  }

  lemma {:induction false} NoClosedFrames(cfg: Config, obs: seq<Observation>)
    requires forall i :: 0 <= i < |obs| ==> !IsClosed(cfg, obs[i])
    ensures ClosedFrames(cfg, obs) == 0
    decreases |obs|
  {
    if obs != [] {
      NoClosedFrames(cfg, obs[..|obs| - 1]);
    }
  }

  /** Eyes never seen reopening: no completed blink. */
  lemma AllClosedNoBlinks(cfg: Config, obs: seq<Observation>)
    requires forall i :: 0 <= i < |obs| ==> !IsOpen(cfg, obs[i])
    ensures Run(cfg, obs).blinks == 0
  {
    NoOpenFrames(cfg, obs);
    BlinksAtMostOpenFrames(cfg, obs);
  }

  lemma {:induction false} NoOpenFrames(cfg: Config, obs: seq<Observation>)
    requires forall i :: 0 <= i < |obs| ==> !IsOpen(cfg, obs[i])
    ensures OpenFrames(cfg, obs) == 0
    decreases |obs|
  {
    if obs != [] {
      NoOpenFrames(cfg, obs[..|obs| - 1]);
    }
  }

  /** The summary reports what the run counted: has_blinks and is_live both
      mean at least one blink, one result per frame with its index, and no
      more blinks than frames. */
  lemma AnalysisSummary(cfg: Config, frames: seq<FrameInput>)
    requires Analysis(cfg, frames).Success?
    ensures var s := Analysis(cfg, frames).value;
      s.hasBlinks == s.isLive == (s.totalBlinks > 0)
      && s.requiredBlinks == 1
      && s.totalBlinks == Run(cfg, Observations(frames)).blinks
      && s.totalBlinks <= |frames|
      && |s.frameResults| == |frames|
      && (forall i :: 0 <= i < |frames| ==> s.frameResults[i].frameIdx == i)
  {
    BlinksAtMostOpenFrames(cfg, Observations(frames));
  }

  /** Without the landmark model nothing is ever counted. */
  lemma {:induction false} NotInitializedNeverCounts(cfg: Config, obs: seq<Observation>)
    requires !cfg.initialized
    ensures Run(cfg, obs) == Counters(0, 0)
    decreases |obs|
  {
    if obs != [] {
      NotInitializedNeverCounts(cfg, obs[..|obs| - 1]);
    }
  }

  /** Open, closed, closed, open with threshold 0.3 and one required frame: one blink. */
  lemma OneBlinkExample()
    ensures Run(Config(0.3, 1, true), [Ear(0.35, 0.35), Ear(0.20, 0.20), Ear(0.20, 0.20), Ear(0.35, 0.35)]).blinks == 1
  {
    var cfg := Config(0.3, 1, true);
    var obs := [Ear(0.35, 0.35), Ear(0.20, 0.20), Ear(0.20, 0.20), Ear(0.35, 0.35)];
    assert obs[..1][..0] == [];
    assert Run(cfg, obs[..1]) == Counters(0, 0);
    assert obs[..2][..1] == obs[..1];
    assert Run(cfg, obs[..2]) == Counters(0, 1);
    assert obs[..3][..2] == obs[..2];
    assert Run(cfg, obs[..3]) == Counters(0, 2);
    assert obs[..3] == obs[..|obs| - 1];
  }

  /** Three open frames, or three closed frames: no blink. */
  lemma NoBlinkExamples()
    ensures Run(Config(0.3, 1, true), [Ear(0.35, 0.35), Ear(0.35, 0.35), Ear(0.35, 0.35)]).blinks == 0
    ensures Run(Config(0.3, 1, true), [Ear(0.20, 0.20), Ear(0.20, 0.20), Ear(0.20, 0.20)]).blinks == 0
  {
    var cfg := Config(0.3, 1, true);
    var open := [Ear(0.35, 0.35), Ear(0.35, 0.35), Ear(0.35, 0.35)];
    var closed := [Ear(0.20, 0.20), Ear(0.20, 0.20), Ear(0.20, 0.20)];
    assert forall i :: 0 <= i < |open| ==> !IsClosed(cfg, open[i]);
    AllOpenNoBlinks(cfg, open);
    assert forall i :: 0 <= i < |closed| ==> !IsOpen(cfg, closed[i]);
    AllClosedNoBlinks(cfg, closed);
  }

  // ---------------------------------------------------------------------
  // The detector object

  class BlinkDetector {
    const earThreshold: real
    const consecFrames: int
    const initialized: bool
    var blinkCounter: nat
    var frameCounter: nat

    function Cfg(): Config {
      Config(earThreshold, consecFrames, initialized)
    }

    function State(): Counters
      reads this
    {
      Counters(blinkCounter, frameCounter)
    }

    /** __init__; `landmarkModelLoaded` stands for whether dlib and the shape
        predictor could be loaded. */
    constructor (earThreshold: real, consecFrames: int, landmarkModelLoaded: bool)
      ensures Cfg() == Config(earThreshold, consecFrames, landmarkModelLoaded)
      ensures State() == Counters(0, 0)
    {
      this.earThreshold := earThreshold;
      this.consecFrames := consecFrames;
      this.initialized := landmarkModelLoaded;
      blinkCounter := 0;
      frameCounter := 0;
    }

    method DetectBlinkInFrame(obs: Observation) returns (outcome: FrameOutcome)
      modifies this
      ensures State() == Step(Cfg(), old(State()), obs)
      ensures outcome == Outcome(Cfg(), old(State()), obs)
    {
      if !initialized {
        return NotInitialized;
      }
      match obs
      case NoFace =>
        return NoFaceDetected(blinkCounter);
      case Ear(leftEar, rightEar) =>
        var avgEar := (leftEar + rightEar) / 2.0;
        var blinkDetected := false;
        if avgEar < earThreshold {
          frameCounter := frameCounter + 1;
        } else {
          if frameCounter >= consecFrames {
            blinkCounter := blinkCounter + 1;
            blinkDetected := true;
          }
          frameCounter := 0;
        }
        return Measured(blinkDetected, blinkCounter, leftEar, rightEar, avgEar, avgEar < earThreshold);
    }

    method Reset()
      modifies this
      ensures State() == Counters(0, 0)
    {
      blinkCounter := 0;
      frameCounter := 0;
    }

    /** Resets, then feeds the frames in order. The result depends only on the
        frames (and the constants), never on the counters left by earlier calls. */
    method AnalyzeVideoFrames(frames: seq<FrameInput>) returns (r: Result<Summary, string>)
      modifies this
      ensures r == Analysis(Cfg(), frames)
      ensures State() == Run(Cfg(), Observations(frames)[..DecodedCount(frames)])
    {
      Reset();
      ghost var obs := Observations(frames);
      var results: seq<FrameReport> := [];
      var i := 0;
      while i < |frames|
        invariant i <= |frames|
        invariant forall j :: 0 <= j < i ==> frames[j].Image?
        invariant State() == Run(Cfg(), obs[..i])
        invariant results == Reports(Cfg(), obs, i)
      {
        match frames[i]
        case Corrupt(error) =>
          assert DecodedCount(frames) == i by {
            FirstMatchAt(frames, (f: FrameInput) => f.Corrupt?, i);
          }
          assert Analysis(Cfg(), frames) == Failure(error);
          return Failure(error);
        case Image(frame) =>
          assert obs[i] == frame;
          var outcome := DetectBlinkInFrame(frame);
          RunExtend(Cfg(), obs, i);
          ReportsExtend(Cfg(), obs, i);
          results := results + [FrameReport(outcome, i)];
        i := i + 1;
      }
      assert obs[..|frames|] == obs;
      assert DecodedCount(frames) == |frames|;
      var totalBlinks := blinkCounter;
      var hasBlinks := totalBlinks > 0;
      var reason := if hasBlinks then "Detected " + NatToString(totalBlinks) + " blink(s)"
                    else "No blinks detected - possible photo/video";
      assert reason == BlinkReason(totalBlinks);
      assert Analysis(Cfg(), frames) == Success(Summary(hasBlinks, totalBlinks, 1, hasBlinks, results, reason));
      return Success(Summary(hasBlinks, totalBlinks, 1, hasBlinks, results, reason));
    }
  }
}
