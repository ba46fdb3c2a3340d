/** The request handlers of main.py that carry logic: registration rules,
    the best-match scan of authentication, the liveness endpoint's frame
    guard and the user listing.

    HTTP errors are result values. The face service is given as `extract`
    (None when no face is found) and `similarity` (cosine similarity);
    token generation is not part of this model. */
module Api {
  import opened Common
  import opened UserDatabase
  import opened EnhancedLiveness
  import opened BlinkDetection

  datatype HttpError = HttpError(status: nat, detail: string)

  datatype Registered = Registered(userId: string, username: string)

  datatype Authenticated = Authenticated(userId: string, username: string, similarity: real)

  const MinUsernameLength: nat := 3
  const MaxUsernameLength: nat := 50
  /** Cosine similarity at or above which two faces are the same person. */
  const MatchThreshold: real := 0.6
  const MinLivenessFrames: nat := 3

  predicate ValidUsernameLength(username: string) {
    MinUsernameLength <= |username| <= MaxUsernameLength
  }

  /** The stored face of `u` matches `embedding`. */
  predicate SameFace(similarity: (Embedding, Embedding) -> real, embedding: Embedding, u: User) {
    similarity(embedding, u.faceEncoding) >= MatchThreshold
  }

  // ---------------------------------------------------------------------
  // Registration

  /** The outcome of register, checked in the source's order: length, taken
      username, face present, face already registered. */
  function RegisterOutcome<I>(users: seq<User>, username: string, image: I, extract: I -> Option<Embedding>,
                              similarity: (Embedding, Embedding) -> real, userId: string): (r: Result<Registered, HttpError>)
    ensures r.Success? ==> r.value == Registered(userId, username) && ValidUsernameLength(username) && extract(image).Some?
    ensures r.Failure? ==> r.error.status == 400 || r.error.status == 409
    ensures r.Failure? && r.error.status == 409 ==> ValidUsernameLength(username)
  {
    if !ValidUsernameLength(username) then Failure(HttpError(400, "Username must be 3-50 characters"))
    else if FirstMatch(users, u => HasUsername(username, u)).Some? then Failure(HttpError(409, "Username already exists"))
    else match extract(image)
      case None => Failure(HttpError(400, "No face detected in image"))
      case Some(embedding) =>
        match FirstMatch(users, u => SameFace(similarity, embedding, u))
        case Some(k) => Failure(HttpError(409, "Face already registered to user: " + users[k].username))
        case None => Success(Registered(userId, username))
  }

  method Register<I>(db: Database, username: string, email: Option<string>, image: I,
                     extract: I -> Option<Embedding>, similarity: (Embedding, Embedding) -> real,
                     userId: string, now: string) returns (r: Result<Registered, HttpError>)
    modifies db
    ensures r == RegisterOutcome(old(db.users), username, image, extract, similarity, userId)
    ensures r.Success? ==> db.users == old(db.users) + [User(userId, username, email, extract(image).value, now, None)]
    ensures r.Failure? ==> db.users == old(db.users)
  {
    if |username| < MinUsernameLength || |username| > MaxUsernameLength {
      return Failure(HttpError(400, "Username must be 3-50 characters"));
    }
    var existing := db.GetUserByUsername(username);
    if existing.Some? {
      return Failure(HttpError(409, "Username already exists"));
    }
    var faceEmbedding := extract(image);
    if faceEmbedding.None? {
      return Failure(HttpError(400, "No face detected in image"));
    }
    var embedding := faceEmbedding.value;
    var allUsers := db.GetAllUsers();
    for i := 0 to |allUsers|
      invariant forall j :: 0 <= j < i ==> !SameFace(similarity, embedding, allUsers[j])
    {
      var sim := similarity(embedding, allUsers[i].faceEncoding);
      if sim >= MatchThreshold {
        FirstMatchAt(allUsers, u => SameFace(similarity, embedding, u), i);
        return Failure(HttpError(409, "Face already registered to user: " + allUsers[i].username));
      }
    }
    var id := db.CreateUser(username, email, embedding, userId, now);
    return Success(Registered(id, username));
  }

  /** A taken username is rejected before any embedding is extracted: the
      outcome does not depend on the extractor. */
  lemma TakenUsernameRejectedFirst<I>(users: seq<User>, username: string, image: I,
                                      extract: I -> Option<Embedding>, extract': I -> Option<Embedding>,
                                      similarity: (Embedding, Embedding) -> real, userId: string, k: nat)
    requires ValidUsernameLength(username)
    requires k < |users| && users[k].username == username
    ensures RegisterOutcome(users, username, image, extract, similarity, userId)
         == RegisterOutcome(users, username, image, extract', similarity, userId)
         == Failure(HttpError(409, "Username already exists"))
  {
    assert HasUsername(username, users[k]);
  }

  /** A face matching a stored user is refused, naming the first such user. */
  lemma DuplicateFaceNamesFirstMatch<I>(users: seq<User>, username: string, image: I,
                                        extract: I -> Option<Embedding>, similarity: (Embedding, Embedding) -> real,
                                        userId: string, k: nat)
    requires ValidUsernameLength(username)
    requires forall i :: 0 <= i < |users| ==> users[i].username != username
    requires extract(image).Some?
    requires k < |users| && similarity(extract(image).value, users[k].faceEncoding) >= MatchThreshold
    requires forall j :: 0 <= j < k ==> similarity(extract(image).value, users[j].faceEncoding) < MatchThreshold
    ensures RegisterOutcome(users, username, image, extract, similarity, userId)
         == Failure(HttpError(409, "Face already registered to user: " + users[k].username))
  {
    FirstMatchAt(users, u => SameFace(similarity, extract(image).value, u), k);
  }

  /** A successful registration had a valid, unused username and a face no
      stored user matches. */
  lemma RegisterSuccessConditions<I>(users: seq<User>, username: string, image: I,
                                     extract: I -> Option<Embedding>, similarity: (Embedding, Embedding) -> real,
                                     userId: string)
    requires RegisterOutcome(users, username, image, extract, similarity, userId).Success?
    ensures ValidUsernameLength(username)
    ensures forall i :: 0 <= i < |users| ==> users[i].username != username
    ensures extract(image).Some?
    ensures forall i :: 0 <= i < |users| ==> similarity(extract(image).value, users[i].faceEncoding) < MatchThreshold
  {
    assert forall i :: 0 <= i < |users| ==> !HasUsername(username, users[i]);
    assert forall i :: 0 <= i < |users| ==> !SameFace(similarity, extract(image).value, users[i]);
  }

  /** A valid, unused username with a detected face that matches no stored
      user is registered. */
  lemma RegisterSucceedsWhenClear<I>(users: seq<User>, username: string, image: I,
                                     extract: I -> Option<Embedding>, similarity: (Embedding, Embedding) -> real,
                                     userId: string)
    requires ValidUsernameLength(username)
    requires forall i :: 0 <= i < |users| ==> users[i].username != username
    requires extract(image).Some?
    requires forall i :: 0 <= i < |users| ==> similarity(extract(image).value, users[i].faceEncoding) < MatchThreshold
    ensures RegisterOutcome(users, username, image, extract, similarity, userId) == Success(Registered(userId, username))
  {
    assert forall i :: 0 <= i < |users| ==> !HasUsername(username, users[i]);
    assert forall i :: 0 <= i < |users| ==> !SameFace(similarity, extract(image).value, users[i]);
  }

  /** A valid, unused username without a detectable face gets 400. */
  lemma RegisterNoFace<I>(users: seq<User>, username: string, image: I,
                          extract: I -> Option<Embedding>, similarity: (Embedding, Embedding) -> real,
                          userId: string)
    requires ValidUsernameLength(username)
    requires forall i :: 0 <= i < |users| ==> users[i].username != username
    requires extract(image).None?
    ensures RegisterOutcome(users, username, image, extract, similarity, userId)
         == Failure(HttpError(400, "No face detected in image"))
  {
    assert forall i :: 0 <= i < |users| ==> !HasUsername(username, users[i]);
  }

  predicate UniqueUsernames(users: seq<User>) {
    forall i, j :: 0 <= i < j < |users| ==> users[i].username != users[j].username
  }

  /** Registration through the endpoint keeps usernames unique (the table
      itself does not enforce it). */
  lemma RegisterKeepsUsernamesUnique<I>(users: seq<User>, username: string, email: Option<string>, image: I,
                                        extract: I -> Option<Embedding>, similarity: (Embedding, Embedding) -> real,
                                        userId: string, now: string)
    requires UniqueUsernames(users)
    requires RegisterOutcome(users, username, image, extract, similarity, userId).Success?
    ensures UniqueUsernames(users + [User(userId, username, email, extract(image).value, now, None)])
  {
    RegisterSuccessConditions(users, username, image, extract, similarity, userId);
  }

  // ---------------------------------------------------------------------
  // Authentication

  /** best_match (as an index) and best_similarity after the scan. */
  datatype Match = Match(index: Option<nat>, similarity: real)

  /** The scan of authenticate: start from (None, -1) and take a user only
      when strictly more similar than the best so far. The result is the
      maximum similarity (or -1) and the earliest user attaining it. */
  function Scan(scores: seq<real>): (m: Match)
    ensures -1.0 <= m.similarity
    ensures forall i :: 0 <= i < |scores| ==> scores[i] <= m.similarity
    ensures m.index.None? <==> forall i :: 0 <= i < |scores| ==> scores[i] <= -1.0
    ensures m.index.None? ==> m.similarity == -1.0
    ensures m.index.Some? ==> m.index.value < |scores| && scores[m.index.value] == m.similarity
    ensures m.index.Some? ==> forall j :: 0 <= j < m.index.value ==> scores[j] < m.similarity
    decreases |scores|
  {
    if scores == [] then Match(None, -1.0)
    else
      var best := Scan(scores[..|scores| - 1]);
      var last := scores[|scores| - 1];
      if last > best.similarity then Match(Some(|scores| - 1), last) else best
  }

  function Scores(users: seq<User>, embedding: Embedding, similarity: (Embedding, Embedding) -> real): (s: seq<real>)
    ensures |s| == |users|
  {
    seq(|users|, i requires 0 <= i < |users| => similarity(embedding, users[i].faceEncoding))
  }

  /** An accepted match is never the empty initial best. */
  lemma AcceptedScanHasMatch(scores: seq<real>)
    requires Scan(scores).similarity >= MatchThreshold
    ensures Scan(scores).index.Some?
    ensures scores != []
  {
  }

  method Authenticate<I>(db: Database, image: I, extract: I -> Option<Embedding>,
                         similarity: (Embedding, Embedding) -> real, now: string)
    returns (r: Result<Authenticated, HttpError>)
    modifies db
    ensures extract(image).None? ==>
      r == Failure(HttpError(400, "No face detected in image")) && db.users == old(db.users)
    ensures extract(image).Some? ==>
      var m := Scan(Scores(old(db.users), extract(image).value, similarity));
      if m.similarity < MatchThreshold then
        r == Failure(HttpError(401, "Face not recognized")) && db.users == old(db.users)
      else
        m.index.Some? &&
        var u := old(db.users)[m.index.value];
        r == Success(Authenticated(u.userId, u.username, m.similarity))
        && db.users == LastLoginUpdated(old(db.users), u.userId, now)
    ensures r.Success? ==> r.value.similarity >= MatchThreshold
  {
    var faceEmbedding := extract(image);
    if faceEmbedding.None? {
      return Failure(HttpError(400, "No face detected in image"));
    }
    var embedding := faceEmbedding.value;
    var allUsers := db.GetAllUsers();
    ghost var scores := Scores(allUsers, embedding, similarity);
    var bestMatch: Option<User> := None;
    var bestSimilarity: real := -1.0;
    for i := 0 to |allUsers|
      invariant var m := Scan(scores[..i]);
        bestSimilarity == m.similarity && bestMatch == RecordAt(allUsers, m.index)
    {
      assert scores[..i + 1][..i] == scores[..i];
      var sim := similarity(embedding, allUsers[i].faceEncoding);
      if sim > bestSimilarity {
        bestSimilarity := sim;
        bestMatch := Some(allUsers[i]);
      }
    }
    assert scores[..|allUsers|] == scores;
    if bestSimilarity < MatchThreshold {
      return Failure(HttpError(401, "Face not recognized"));
    }
    var user := bestMatch.value;
    db.UpdateLastLogin(user.userId, now);
    return Success(Authenticated(user.userId, user.username, bestSimilarity));
  }

  /** With unique ids, a successful login changes only the matched user's
      last_login. */
  lemma LoginTouchesOnlyMatch(users: seq<User>, embedding: Embedding, similarity: (Embedding, Embedding) -> real,
                              now: string)
    requires UniqueIds(users)
    requires Scan(Scores(users, embedding, similarity)).similarity >= MatchThreshold
    ensures var k := Scan(Scores(users, embedding, similarity)).index.value;
      LastLoginUpdated(users, users[k].userId, now) == users[k := users[k].(lastLogin := Some(now))]
  {
    var k := Scan(Scores(users, embedding, similarity)).index.value;
    LastLoginUpdatedAt(users, k, now);
  }

  // ---------------------------------------------------------------------
  // Liveness endpoint

  method LivenessCheck<F, E>(service: LivenessService<F, E>, frames: seq<F>) returns (r: Result<Verdict, HttpError>)
    modifies service.blinkDetector
    ensures |frames| < MinLivenessFrames ==> r == Failure(HttpError(400, "Minimum 3 frames required"))
    ensures |frames| < MinFrames ==> service.blinkDetector.State() == old(service.blinkDetector.State())
    ensures !service.blinkDetector.initialized ==> service.blinkDetector.State() == old(service.blinkDetector.State())
    ensures |frames| >= MinFrames && service.blinkDetector.initialized ==>
      var inputs := DecodeAll(frames, service.decode);
      service.blinkDetector.State() == Run(service.blinkDetector.Cfg(), Observations(inputs)[..DecodedCount(inputs)])
    ensures |frames| >= MinLivenessFrames ==>
      r == Success(LivenessVerdict(frames, service.extract, service.similarity, service.stdDev, service.decode,
                                   service.blinkDetector.Cfg()))
  {
    if |frames| < MinLivenessFrames {
      return Failure(HttpError(400, "Minimum 3 frames required"));
    }
    var result := service.CheckLiveness(frames);
    return Success(result);
  }

  // ---------------------------------------------------------------------
  // User listing

  /** A user record with face_encoding removed. */
  datatype PublicUser = PublicUser(userId: string, username: string, email: Option<string>,
                                   registeredAt: string, lastLogin: Option<string>)

  function WithoutEncoding(u: User): PublicUser {
    PublicUser(u.userId, u.username, u.email, u.registeredAt, u.lastLogin)
  }

  datatype UsersResponse = UsersResponse(totalUsers: nat, users: seq<PublicUser>)

  /** Every user, in order, without its face encoding, and their number. */
  method GetUsers(db: Database) returns (response: UsersResponse)
    ensures response.totalUsers == |response.users| == |db.users|
    ensures forall i :: 0 <= i < |db.users| ==> response.users[i] == WithoutEncoding(db.users[i])
  {
    var users := db.GetAllUsers();
    var listed: seq<PublicUser> := [];
    for i := 0 to |users|
      invariant |listed| == i
      invariant forall j :: 0 <= j < i ==> listed[j] == WithoutEncoding(users[j])
    {
      listed := listed + [WithoutEncoding(users[i])];
    }
    return UsersResponse(|listed|, listed);
  }
}
