# Face authentication liveness engine — Dafny model

This project models the core of a face-authentication web service:

- the **blink detector**: the eye aspect ratio (EAR) formula and a two-counter state machine. It keeps `blink_counter` and `frame_counter` (the current closed run) and updates them once per frame. It is a class whose methods update those counters in place (`blink_detector.dfy`);
- the **liveness service**: the movement analyser, the fail-open blink check and the fusion of both into a verdict (`liveness_service.dfy`). The analyser samples frames with stride `max(1, n // 10)`, stops at the first sampled frame without a face, and applies a threshold rule to the mean and standard deviation of embedding drift. The fusion gives `is_live`, a four-tier confidence and a `"; "`-joined reason;
- the **user table**: an append-only list of user records with find-first lookups and an in-place `last_login` update (`user_database.dfy`);
- the **request handlers** that carry logic (`api.dfy`): username bounds, rejection of a taken name and of an already registered face during registration, the best-match scan of authentication with its 0.6 threshold, the 3-frame guard of the liveness endpoint, and the user listing without face encodings.

`common.dfy` holds the shared pieces: `Option`/`Result`, find-first search (`FirstMatch`), Python's `str()` on non-negative integers (`NatToString`, proved to read back as the same number) and `str.join` (`Join`).

Some capabilities are parameters rather than code. The embedding extractor is `extract` (None when no face is found). Cosine similarity is `similarity`, and numpy's standard deviation is `stdDev`. The landmark step is `decode`: a frame is either undecodable, with the exception text, or decoded to `NoFace` or `Ear(left, right)`. The mean is exact real arithmetic. Ids and timestamps are supplied by the caller.

Each imperative operation is a method proved against a function of its inputs (`MovementCheck`, `BlinkCheck`, `Fuse`, `LivenessVerdict`, `Analysis`, `Step`/`Run`, `Scan`, `RegisterOutcome`, `LastLoginUpdated`). The properties are proved about those functions.

Where the source's comments or naming and its code disagree, the model follows the code:

- The comment at services/enhanced_liveness_service.py:35 says the analyser takes every third frame. The code samples with stride `max(1, n // 10)`, which is 3 only for bursts of 30 to 39 frames, and gives between 10 and 19 samples for any n ≥ 10 (`SampleCountBounds`).
- services/blink_detector.py:85 divides by twice the horizontal eye width without a guard. The model states the EAR only for a positive width (see "## Left out").
- The "Skip if …" comments at services/enhanced_liveness_service.py:90 and :111 describe the missing-model and error paths as skipping the blink check. In the code both return `passed = True` with 0 blinks, so they count as a pass toward `is_live`. Only the confidence tier (0.85 rather than 0.95, `FuseFailOpen`), the reason text and the missing `required_blinks` set them apart from a real pass. A real pass always has at least one blink (`BlinkCheckCases`). The model does the same.

## Model

| member | source | states |
|---|---|---|
| Common.FirstMatch | database/db.py:45-50 | the index found is the first element satisfying the predicate; None exactly when no element does |
| Common.NatToString | services/blink_detector.py:208 | decimal digits, no leading zero, and they read back as the same number |
| Common.Join | services/enhanced_liveness_service.py:169 | joining no parts gives the empty string, and one part gives that part |
| Common.JoinTwo | services/enhanced_liveness_service.py:169 | two parts are joined as first + separator + second |
| BlinkDetection.EyeAspectRatio | services/blink_detector.py:73-87 | EAR times twice the horizontal distance equals the sum of the two vertical distances; non-negative for non-negative distances |
| BlinkDetection.EarOfEvenEye | services/blink_detector.py:79-85 | an eye whose vertical distances equal its horizontal distance has EAR exactly 1 |
| BlinkDetection.EarTranslationInvariant | services/blink_detector.py:79-85 | under a translation-invariant distance, moving all six points by one offset leaves the EAR unchanged |
| BlinkDetection.ObservationOf | services/blink_detector.py:119-140 | no face gives NoFace; otherwise the left EAR is from points 42-47 and the right EAR from points 36-41 of the first face |
| BlinkDetection.StepCases | services/blink_detector.py:103-164 | not initialised: counters unchanged, no blink, total 0. No face: counters unchanged, current total. Closed frame: run +1, no blink. Open frame: blink iff run ≥ CONSEC_FRAMES, run reset to 0. avg_ear is the mean, ear_left and ear_right are the two EARs, eyes_closed is avg_ear < threshold |
| BlinkDetection.BlinksAtMostOpenFrames | services/blink_detector.py:147-155 | total blinks ≤ open frames ≤ frames |
| BlinkDetection.BlinksNeedClosedRuns | services/blink_detector.py:147-155 | with CONSEC_FRAMES ≥ 1: CONSEC_FRAMES × blinks + current run ≤ closed frames seen |
| BlinkDetection.BlinksMonotone | services/blink_detector.py:147-155 | blink_counter never decreases and grows by at most one per frame |
| BlinkDetection.AllOpenNoBlinks | services/blink_detector.py:147-155 | a burst with no closed frame yields 0 blinks |
| BlinkDetection.AllClosedNoBlinks | services/blink_detector.py:147-155 | a burst with no open frame yields 0 blinks |
| BlinkDetection.NotInitializedNeverCounts | services/blink_detector.py:103-108 | without the landmark model the counters stay at zero |
| BlinkDetection.AnalysisSummary | services/blink_detector.py:182-208 | has_blinks = is_live = (total > 0), required_blinks = 1, total ≤ frames, one result per frame with frame_idx = i |
| BlinkDetection.OneBlinkExample | services/blink_detector.py:147-155 | EARs 0.35, 0.20, 0.20, 0.35 with threshold 0.3 and one required frame give exactly 1 blink |
| BlinkDetection.NoBlinkExamples | services/blink_detector.py:147-155 | three open frames, or three closed frames, give 0 blinks |
| BlinkDetection.Step | services/blink_detector.py:103-155 | blink_counter grows by at most one per frame, and by one exactly when the eyes are open after a closed run of at least CONSEC_FRAMES; a closed frame lengthens the run, an open one ends it; no face or no model changes nothing |
| BlinkDetection.Outcome | services/blink_detector.py:103-164 | the dictionary is "not initialized" exactly without the model; blink_detected holds exactly when the counter grew; total_blinks is the new counter |
| BlinkDetection.Run | services/blink_detector.py:174-198 | from reset counters, blinks plus the current closed run never exceed the number of frames |
| BlinkDetection.Analysis | services/blink_detector.py:170-209 | fails exactly when some frame does not decode, with the first such frame's error; otherwise total_blinks is the run's count (at most the frames), is_live = total > 0 and one result per frame |
| BlinkDetection.BlinkDetector.constructor | services/blink_detector.py:10-22 | the constants are stored and both counters start at 0 |
| BlinkDetection.BlinkDetector.DetectBlinkInFrame | services/blink_detector.py:89-164 | the new counters are Step of the old ones and the returned dictionary is Outcome of the old counters |
| BlinkDetection.BlinkDetector.Reset | services/blink_detector.py:166-168 | both counters become 0 |
| BlinkDetection.BlinkDetector.AnalyzeVideoFrames | services/blink_detector.py:170-209 | the result is Analysis of the frames alone, whatever the counters held before; the counters end as the run over the frames decoded before the first undecodable one |
| EnhancedLiveness.Range | services/enhanced_liveness_service.py:37 | the k-th sample index is start + k·step and every index is below stop, so the break at line 40 never fires |
| EnhancedLiveness.RangeLength | services/enhanced_liveness_service.py:37 | the range has ⌈(stop − start)/step⌉ elements, and none when start ≥ stop |
| EnhancedLiveness.SampleCountBounds | services/enhanced_liveness_service.py:37-56 | for n ≥ 10 there are between 10 and 19 samples, all below n; hence the "< 5" guard cannot fire |
| EnhancedLiveness.ShortBurstFailsMovement | services/enhanced_liveness_service.py:26-31 | fewer than 10 frames: not passed, confidence 0.0 |
| EnhancedLiveness.MovementOnFullBurst | services/enhanced_liveness_service.py:37-81 | either the first sampled frame without a face is named as frame i+1, or every sample is analysed: one variation fewer than samples, each 1 − similarity, passed iff the rule, confidence = avg_variation |
| EnhancedLiveness.MovementStopsAtFirstMissing | services/enhanced_liveness_service.py:39-49 | when sample k is the first without a face, the result names frame index+1, and no frame after it influences the result |
| EnhancedLiveness.MovementCheck | services/enhanced_liveness_service.py:21-81 | passes only on a burst of at least 10 frames whose drift meets the rule; when analysed, every sampled frame had a face, frames_analyzed is the number of samples and the reason names the decision |
| EnhancedLiveness.StaticBurstFails | services/enhanced_liveness_service.py:59-80 | the same embedding in every frame (zero drift) never passes |
| EnhancedLiveness.SumOfZeros | services/enhanced_liveness_service.py:68 | all-zero variations sum to 0 and have mean 0 |
| EnhancedLiveness.ModerateDriftPasses | services/enhanced_liveness_service.py:72 | avg 0.05 with std 0.01 passes; zero drift, avg 0.25 and std 0.1 fail |
| EnhancedLiveness.BlinkCheck | services/enhanced_liveness_service.py:83-114 | required_blinks is present exactly when the analysis ran and succeeded; without it the check passes with 0 blinks; a failing check saw 0 blinks and required 1 |
| EnhancedLiveness.BlinkCheckCases | services/enhanced_liveness_service.py:83-114 | no landmark model or an analysis error: passed with 0 blinks; otherwise passed = is_live and blinks = total_blinks, so passed iff blinks > 0 |
| EnhancedLiveness.FusedConfidence | services/enhanced_liveness_service.py:148-154 | confidence in [0,1], ≥ 0.85 when both pass, ≤ 0.6 otherwise, 0.0 exactly when neither passes |
| EnhancedLiveness.ConfidenceTable | services/enhanced_liveness_service.py:148-154 | the exact tiers 0.95 / 0.85 / 0.6 / 0.0 |
| EnhancedLiveness.FusedReasonCases | services/enhanced_liveness_service.py:157-169 | the reason is the movement and/or blink failure reason (movement first, "; " between), or "All checks passed - N blink(s) detected" |
| EnhancedLiveness.Fuse | services/enhanced_liveness_service.py:139-175 | is_live iff both partial checks pass; confidence in [0,1], ≥ 0.85 when live and ≤ 0.6 when not; details carry both partial results and the frame count |
| EnhancedLiveness.LivenessVerdict | services/enhanced_liveness_service.py:116-180 | details are present exactly for bursts of at least 10 frames; a shorter burst is not live with confidence 0.0; a live verdict implies both analysers passed |
| EnhancedLiveness.Combine | services/enhanced_liveness_service.py:140-175 | is_live = movement passed ∧ blink passed; confidence in [0,1], ≥ 0.85 when live, ≤ 0.6 when not; equals Fuse |
| EnhancedLiveness.FuseFailOpen | services/enhanced_liveness_service.py:139-175 | fusing with a blink check that passed with 0 blinks: live iff movement passed, confidence 0.85 or 0.6, and the reason is movement's or "All checks passed - 0 blink(s) detected" |
| EnhancedLiveness.ShortBurstRejected | services/enhanced_liveness_service.py:123-129 | fewer than 10 frames: not live, confidence 0.0, no details, reason "Need at least 10 frames (got N)", and the verdict does not depend on any capability (neither analyser runs) |
| EnhancedLiveness.FullBurstVerdict | services/enhanced_liveness_service.py:131-175 | on ≥ 10 frames: live iff both analysers pass, with the fused confidence tier and both partial results in details; the verdict is Fuse of the two partial results, so its reason is the one FusedReasonCases gives |
| EnhancedLiveness.FailOpenWithoutLandmarks | services/enhanced_liveness_service.py:87-93 | without the landmark model the verdict follows the movement analyser alone (confidence 0.85 or 0.6) |
| EnhancedLiveness.LivenessService.constructor | services/enhanced_liveness_service.py:12-14 | the face service capabilities are stored and a fresh detector with threshold 0.3 and one consecutive frame is created, with both counters at 0 |
| EnhancedLiveness.LivenessService.CheckMovementLiveness | services/enhanced_liveness_service.py:21-81 | the result equals MovementCheck of the burst |
| EnhancedLiveness.LivenessService.Drifts | services/enhanced_liveness_service.py:58-66 | one variation per consecutive pair of samples, each 1 − similarity: the Variations of the embeddings |
| EnhancedLiveness.LivenessService.CheckBlinkLiveness | services/enhanced_liveness_service.py:83-114 | the result equals BlinkCheck of the decoded burst; without the landmark model the detector's counters are untouched, otherwise they end as the run over the frames decoded before the first undecodable one |
| EnhancedLiveness.LivenessService.CheckLiveness | services/enhanced_liveness_service.py:116-180 | the verdict equals LivenessVerdict of the burst and the capabilities, so two calls on one burst give the same verdict; a burst under 10 frames, or a detector without the landmark model, leaves the detector's counters untouched; on a longer burst with the landmark model they end as the run over the frames decoded before the first undecodable one |
| UserDatabase.LastLoginUpdated | database/db.py:59-65 | same length; only the first record with the id gets the new last_login; nothing changes when no id matches |
| UserDatabase.LastLoginUpdatedAt | database/db.py:59-65 | with unique ids, updating record k's id changes record k only |
| UserDatabase.Database.constructor | database/db.py:15-18 | a fresh database holds no users |
| UserDatabase.Database.CreateUser | database/db.py:28-43 | exactly one record is appended with last_login None, earlier records unchanged, its id returned; no uniqueness check |
| UserDatabase.Database.GetUserByUsername | database/db.py:45-50 | the first record with the username, None iff there is none |
| UserDatabase.Database.GetUserById | database/db.py:52-57 | the first record with the id, None iff there is none |
| UserDatabase.Database.UpdateLastLogin | database/db.py:59-65 | the table becomes LastLoginUpdated of the old table |
| UserDatabase.Database.GetAllUsers | database/db.py:67-69 | the whole list in insertion order |
| Api.RegisterOutcome | main.py:73-106 | success returns the given id and username and implies a 3-50 character name and a detected face; every error is 400 or 409, and a 409 implies a valid-length name |
| Api.Register | main.py:73-106 | the outcome follows the source's order of checks; on success exactly one user is appended, on any error the table is unchanged |
| Api.TakenUsernameRejectedFirst | main.py:81-89 | a taken username is rejected with 409 whatever the extractor returns |
| Api.DuplicateFaceNamesFirstMatch | main.py:92-99 | a face with similarity ≥ 0.6 to a stored user is rejected with 409 naming the first such user |
| Api.RegisterSucceedsWhenClear | main.py:77-106 | a 3-50 character unused username with a detected face that no stored face matches at ≥ 0.6 is registered under the given id |
| Api.RegisterNoFace | main.py:77-89 | a valid, unused username whose image has no detectable face gets 400 "No face detected in image" |
| Api.RegisterSuccessConditions | main.py:77-99 | a successful registration had a 3-50 character unused username, a detected face and no stored face at similarity ≥ 0.6 |
| Api.RegisterKeepsUsernamesUnique | main.py:81-106 | registering keeps usernames unique in the table |
| Api.Scan | main.py:141-152 | best_similarity is max(−1, every similarity); best_match is the earliest user attaining it (strict >), None iff no similarity exceeds −1 |
| Api.AcceptedScanHasMatch | main.py:141-156 | a best similarity ≥ 0.6 always comes with a match, so best_match is never used while None |
| Api.Authenticate | main.py:127-176 | no face: 400; best similarity < 0.6 (including no users): 401, table unchanged; otherwise the earliest best user is returned with similarity ≥ 0.6 and its id's last_login updated |
| Api.LoginTouchesOnlyMatch | main.py:159 | with unique ids, a successful login changes only the matched user's last_login |
| Api.LivenessCheck | main.py:184-198 | fewer than 3 frames: 400; otherwise the liveness verdict of the burst; under 10 frames or without the landmark model the detector's counters are untouched, and on a longer burst with the landmark model they end as the run over the decoded frames |
| Api.GetUsers | main.py:226-238 | every user in order without face_encoding, and total_users = number of users |

## Left out

- BlinkDetection.EyeAspectRatio: requires a positive horizontal distance. The source divides without a guard; what numpy returns for a zero distance (inf/nan) is not modelled.
- Loading dlib and the shape predictor, including the download of the model file (network, bz2, file system): the constructor takes whether the model loaded as a parameter. Because services/blink_detector.py:4 imports dlib at module level, a missing dlib fails the import of the whole module before the `except ImportError` at :46-48 is reached; so `initialized = False` can in practice only come from an ImportError inside the try block, such as the `urllib.request` or `bz2` imports at :54-55. The parameter covers every way loading can end. Exceptions other than ImportError during loading are not modelled.
- Grayscale conversion, face detection and landmark prediction: abstracted as a per-frame observation (`ObservationOf` shows how the EARs come from the 68 landmarks under an abstract distance). Euclidean distance itself (square root) is not modelled.
- Base64 and PIL decoding: a frame either decodes or raises; any other exception inside the blink analysis (from cv2 or dlib) is not modelled.
- The face service (MTCNN and FaceNet inference, vector normalisation and dot product) and numpy's standard deviation: opaque parameters. An exception raised by `calculate_similarity` is not modelled.
- Floating point: all EAR, similarity and variation arithmetic is over exact reals.
- CheckMovementLiveness: the `i >= len(frames)` break (line 40 of the liveness service) is not written out, because `Range` proves every sampled index is inside the burst.
- Token generation and verification (the JWT wrapper, wall-clock expiry), the `verify_token` endpoint, and the `token` field of responses.
- The catch-all handlers that turn unexpected exceptions into HTTP 500, the FastAPI app setup, CORS, static files, the HTML page, the health endpoint and logging.
- The JSON file itself: an existing file's contents at start-up, and the read/write I/O, `uuid4` and `datetime.now` (ids and timestamps are parameters).
- Api.GetUsers: the source removes `face_encoding` from freshly read dictionaries in place. The model builds the list of records without the encoding. The stored table is unaffected in both.
- Concurrency: the liveness service shares one detector between requests. The model shows only that each analysis resets it first.
