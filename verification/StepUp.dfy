/** Step-up verification (controller/secure_verification.go, controller/passkey.go and the middleware beside them):
    a passkey login leaves a short-lived marker, verification consumes it and leaves a longer-lived proof, and
    sensitive operations require a fresh proof of the right kind.  The session travels in a signed cookie: a request
    presents some session that was issued before, and saving issues a new one with the answer. */
module StepUp {
  import opened Options

  const VERIFICATION_TIMEOUT := 300
  const READY_TIMEOUT := 60

  const TWO_FA := "2fa"
  const PASSKEY := "passkey"

  /** A session value that should be a time. */
  datatype Stamp = Absent | At(time: int) | Malformed

  datatype Session = Session(readyAt: Stamp, verifiedAt: Stamp, method': Option<string>)

  function NewSession(): Session { Session(Absent, Absent, None) }

  // ---------- The handlers as functions ----------

  /** The end of PasskeyVerifyFinish. */
  function Finish(s: Session, now: int, saved: bool): Session {
    if saved then Session(At(now), Absent, None) else s
  }

  datatype Consumed = Consumed(session: Session, fresh': bool)

  /** consumePasskeyReady */
  function Consume(s: Session, now: int, saved: bool): Consumed {
    match s.readyAt
    case Absent => Consumed(s, false)
    case Malformed => Consumed(if saved then s.(readyAt := Absent) else s, false)
    case At(t) => if saved then Consumed(s.(readyAt := Absent), now - t < READY_TIMEOUT) else Consumed(s, false)
  }

  /** What UniversalVerify is asked for and learns about the user. */
  datatype VerifyRequest = VerifyRequest(method': string, has2FA: bool, hasPasskey: bool, codeGiven: bool,
                                         codeValid: bool)

  datatype Outcome = Outcome(session: Session, ok: bool)

  /** UniversalVerify: it reads the clock once for the marker and once for the proof, and saves after each. */
  function Verify(s: Session, r: VerifyRequest, markerNow: int, proofNow: int, savedMarker: bool,
                  savedProof: bool): Outcome {
    if !r.has2FA && !r.hasPasskey then Outcome(s, false)
    else if r.method' == TWO_FA then
      if !r.has2FA || !r.codeGiven || !r.codeValid then Outcome(s, false) else Prove(s, r.method', proofNow, savedProof)
    else if r.method' == PASSKEY then
      if !r.hasPasskey then Outcome(s, false)
      else
        var c := Consume(s, markerNow, savedMarker);
        if !c.fresh' then Outcome(c.session, false) else Prove(c.session, r.method', proofNow, savedProof)
    else Outcome(s, false)
  }

  /** setSecureVerificationSession */
  function Prove(s: Session, m: string, now: int, saved: bool): Outcome {
    if saved then Outcome(Session(Absent, At(now), Some(m)), true) else Outcome(s, false)
  }

  function ClearProof(s: Session, saved: bool): Session {
    if saved then s.(verifiedAt := Absent, method' := None) else s
  }

  predicate ProofFresh(s: Session, now: int) {
    s.verifiedAt.At? && now - s.verifiedAt.time < VERIFICATION_TIMEOUT
  }

  /** requireSecureVerificationMethod */
  function Require(s: Session, m: string, now: int, saved: bool): Outcome {
    if !ProofFresh(s, now) then Outcome(ClearProof(s, saved), false)
    else Outcome(s, s.method' == Some(m))
  }

  /** The middleware that asks for any proof: an expired or malformed one is cleared. */
  function RequireAny(s: Session, now: int, saved: bool): Outcome {
    if s.verifiedAt.Absent? then Outcome(s, false)
    else if !ProofFresh(s, now) then Outcome(ClearProof(s, saved), false)
    else Outcome(s, true)
  }

  /** What verifies a user: a code that is given and valid where two-factor authentication is on, or a marker less than
      a minute old where there is a passkey; and then the answer holds a proof of that method and no marker. */
  lemma VerifiesIff(s: Session, r: VerifyRequest, markerNow: int, proofNow: int, savedMarker: bool, savedProof: bool)
    ensures var v := Verify(s, r, markerNow, proofNow, savedMarker, savedProof);
            && (v.ok <==>
                  && savedProof
                  && ((r.method' == "2fa" && r.has2FA && r.codeGiven && r.codeValid)
                      || (r.method' == "passkey" && r.hasPasskey && savedMarker
                          && s.readyAt.At? && markerNow < s.readyAt.time + 60)))
            && (v.ok ==> v.session == Session(Absent, At(proofNow), Some(r.method')))
            && (!v.ok ==> v.session.verifiedAt == s.verifiedAt && v.session.method' == s.method')
            && (r.method' != "passkey" && !v.ok ==> v.session == s)
  {
    assert TWO_FA[0] != PASSKEY[0];
  }

  /** The middleware lets pass any proof less than five minutes old, a requirement one of its own method, and nothing
      else; a proof that has expired or is no time is taken out of the session when that can be saved. */
  lemma ProofsPassIff(s: Session, m: string, now: int, saved: bool)
    ensures var any, one := RequireAny(s, now, saved), Require(s, m, now, saved);
            && (any.ok <==> s.verifiedAt.At? && now < s.verifiedAt.time + 300)
            && (one.ok <==> any.ok && s.method' == Some(m))
            && (any.ok ==> any.session == one.session == s)
            && (!any.ok && saved && !s.verifiedAt.Absent? ==>
                  any.session == one.session == s.(verifiedAt := Absent, method' := None))
            && (!any.ok && !saved ==> any.session == one.session == s)
  {
  }

  // ---------- The handlers as methods ----------

  /** The session of one request: what its cookie presented, and after a save what the answer's cookie issues. */
  class RequestSession {
    var session: Session

    constructor (presented: Session)
      ensures session == presented
    {
      session := presented;
    }

    method Save(pending: Session, saved: bool) returns (ok: bool)
      modifies this
      ensures ok == saved && session == if saved then pending else old(session)
    {
      if saved {
        session := pending;
      }
      ok := saved;
    }

    method PasskeyVerifyFinish(now: int, saved: bool) returns (ok: bool)
      modifies this
      ensures session == Finish(old(session), now, saved) && ok == saved
    {
      var pending := session.(readyAt := At(now));
      pending := pending.(verifiedAt := Absent);
      pending := pending.(method' := None);
      ok := Save(pending, saved);
    }

    method ConsumePasskeyReady(now: int, saved: bool) returns (fresh': bool)
      modifies this
      ensures Consumed(session, fresh') == Consume(old(session), now, saved)
    {
      var ready := session.readyAt;
      if ready.Absent? {
        return false;
      }
      if ready.Malformed? {
        var ignored := Save(session.(readyAt := Absent), saved);
        return false;
      }
      var ok := Save(session.(readyAt := Absent), saved);
      if !ok {
        return false;
      }
      if now - ready.time >= READY_TIMEOUT {
        return false;
      }
      fresh' := true;
    }

    method SetSecureVerificationSession(m: string, now: int, saved: bool) returns (ok: bool)
      modifies this
      ensures Outcome(session, ok) == Prove(old(session), m, now, saved)
    {
      var pending := session.(readyAt := Absent);
      pending := pending.(verifiedAt := At(now));
      pending := pending.(method' := Some(m));
      ok := Save(pending, saved);
    }

    method UniversalVerify(r: VerifyRequest, markerNow: int, proofNow: int, savedMarker: bool, savedProof: bool)
        returns (ok: bool)
      modifies this
      ensures Outcome(session, ok) == Verify(old(session), r, markerNow, proofNow, savedMarker, savedProof)
    {
      if !r.has2FA && !r.hasPasskey {
        return false;
      }
      var verified := false;
      if r.method' == TWO_FA {
        if !r.has2FA {
          return false;
        }
        if !r.codeGiven {
          return false;
        }
        verified := r.codeValid;
      } else if r.method' == PASSKEY {
        if !r.hasPasskey {
          return false;
        }
        verified := ConsumePasskeyReady(markerNow, savedMarker);
        if !verified {
          return false;
        }
      } else {
        return false;
      }
      if !verified {
        return false;
      }
      ok := SetSecureVerificationSession(r.method', proofNow, savedProof);
    }

    method RequireSecureVerificationMethod(m: string, now: int, saved: bool) returns (ok: bool)
      modifies this
      ensures Outcome(session, ok) == Require(old(session), m, now, saved)
    {
      var verifiedAt := session.verifiedAt;
      if !verifiedAt.At? || now - verifiedAt.time >= VERIFICATION_TIMEOUT {
        var pending := session.(verifiedAt := Absent);
        pending := pending.(method' := None);
        var ignored := Save(pending, saved);
        return false;
      }
      if session.method'.None? || session.method'.value != m {
        return false;
      }
      ok := true;
    }
  }

  // ---------- Runs ----------

  datatype Event =
    | Finished(now: int, saved: bool)
    | Verified(request: VerifyRequest, markerNow: int, proofNow: int, savedMarker: bool, savedProof: bool)
    | Required(method': string, now: int, saved: bool)
    | AnyRequired(now: int, saved: bool)
    | Cleared(saved: bool)

  function Respond(s: Session, e: Event): Outcome {
    match e
    case Finished(now, saved) => Outcome(Finish(s, now, saved), saved)
    case Verified(r, markerNow, proofNow, savedMarker, savedProof) =>
      Verify(s, r, markerNow, proofNow, savedMarker, savedProof)
    case Required(m, now, saved) => Require(s, m, now, saved)
    case AnyRequired(now, saved) => RequireAny(s, now, saved)
    case Cleared(saved) => Outcome(ClearProof(s, saved), true)
  }

  /** A request presents the session that was issued at some place: 0 is a session without marker or proof, i + 1 is
      the one that request i left (the presented one itself when nothing was saved). */
  datatype Request = Request(presents: nat, event: Event)

  type Requests = seq<Request>

  /** Cookies are signed, so only issued sessions can be presented. */
  ghost predicate OnlyIssued(run: Requests) {
    forall i | 0 <= i < |run| :: run[i].presents <= i
  }

  ghost function Issued(run: Requests, k: nat): Session
    requires OnlyIssued(run) && k <= |run|
  {
    if k == 0 then NewSession() else Respond(Issued(run, run[k - 1].presents), run[k - 1].event).session
  }

  ghost function Presented(run: Requests, i: nat): Session
    requires OnlyIssued(run) && i < |run|
  {
    Issued(run, run[i].presents)
  }

  ghost predicate Succeeds(run: Requests, i: nat)
    requires OnlyIssued(run) && i < |run|
  {
    Respond(Presented(run, i), run[i].event).ok
  }

  // ---------- Where markers and proofs come from ----------

  predicate IsFinish(e: Event) { e.Finished? && e.saved }

  /** The answer no longer holds the marker that was presented. */
  ghost predicate TakesMarker(run: Requests, i: nat)
    requires OnlyIssued(run) && i < |run|
  {
    Presented(run, i).readyAt.At? && Issued(run, i + 1).readyAt.Absent?
  }

  ghost predicate VerifiesBy(run: Requests, i: nat, m: string)
    requires OnlyIssued(run) && i < |run|
  {
    run[i].event.Verified? && run[i].event.request.method' == m && Succeeds(run, i)
  }

  /** The passkey login that wrote the marker of an issued session. */
  ghost function MarkerSource(run: Requests, k: nat): (w: Option<nat>)
    requires OnlyIssued(run) && k <= |run|
    ensures w.Some? ==> w.value < k && IsFinish(run[w.value].event)
  {
    if k == 0 then None
    else if IsFinish(run[k - 1].event) then Some(k - 1)
    else if TakesMarker(run, k - 1) then None
    else MarkerSource(run, run[k - 1].presents)
  }

  /** The verification that left the proof of an issued session. */
  ghost function ProofSource(run: Requests, k: nat): (v: Option<nat>)
    requires OnlyIssued(run) && k <= |run|
    ensures v.Some? ==> v.value < k && run[v.value].event.Verified? && Succeeds(run, v.value)
  {
    if k == 0 then None
    else if run[k - 1].event.Verified? && Succeeds(run, k - 1) then Some(k - 1)
    else if Issued(run, k).verifiedAt.Absent? then None
    else ProofSource(run, run[k - 1].presents)
  }

  /** Session k was left by request a or goes back to it. */
  ghost predicate Derives(run: Requests, k: nat, a: nat)
    requires OnlyIssued(run) && k <= |run|
  {
    k > 0 && (k - 1 == a || Derives(run, run[k - 1].presents, a))
  }

  /** Session k goes back to request a, and no request in between is a passkey login that was saved. */
  ghost predicate NoLoginSince(run: Requests, k: nat, a: nat)
    requires OnlyIssued(run) && k <= |run|
  {
    k > 0 && (k - 1 == a || (!IsFinish(run[k - 1].event) && NoLoginSince(run, run[k - 1].presents, a)))
  }

  /** Every marker was written by one saved passkey login and has been in every session since. */
  lemma {:induction false} MarkerHasSource(run: Requests, k: nat)
    requires OnlyIssued(run) && k <= |run|
    ensures match MarkerSource(run, k)
            case None => Issued(run, k).readyAt.Absent?
            case Some(w) => Issued(run, k).readyAt == At(run[w].event.now) && NoLoginSince(run, k, w)
  {
    if k > 0 {
      MarkerHasSource(run, run[k - 1].presents);
    }
  }

  /** Every proof was left by one successful verification, and no passkey login lies on the way from it. */
  lemma {:induction false} ProofHasSource(run: Requests, k: nat)
    requires OnlyIssued(run) && k <= |run|
    ensures match ProofSource(run, k)
            case None => Issued(run, k).verifiedAt.Absent?
            case Some(v) =>
              && NoLoginSince(run, k, v)
              && Issued(run, k).verifiedAt == At(run[v].event.proofNow)
              && Issued(run, k).method' == Some(run[v].event.request.method')
  {
    if k > 0 {
      ProofHasSource(run, run[k - 1].presents);
    }
  }

  // ---------- What backs a requirement ----------

  /** A requirement passes exactly when the presented session goes back to a verification of that method less than
      300 seconds old. */
  lemma RequirementPassesIff(run: Requests, n: nat)
    requires OnlyIssued(run) && n < |run| && run[n].event.Required?
    ensures var e, source := run[n].event, ProofSource(run, run[n].presents);
            Succeeds(run, n) <==> source.Some? && run[source.value].event.request.method' == e.method'
                                  && e.now - run[source.value].event.proofNow < VERIFICATION_TIMEOUT
  {
    ProofHasSource(run, run[n].presents);
  }

  /** A passkey verification succeeds exactly when the user has a passkey, both saves work and the presented session
      holds a marker less than 60 seconds old. */
  predicate CanVerify(e: Event) {
    e.Verified? && e.request.method' == PASSKEY && e.request.hasPasskey && e.savedMarker && e.savedProof
  }

  lemma VerificationSucceedsIff(run: Requests, v: nat)
    requires OnlyIssued(run) && v < |run| && run[v].event.Verified?
    ensures var e, source := run[v].event, MarkerSource(run, run[v].presents);
            VerifiesBy(run, v, PASSKEY) <==> CanVerify(e) && source.Some?
                                             && e.markerNow - run[source.value].event.now < READY_TIMEOUT
    ensures VerifiesBy(run, v, PASSKEY) ==> TakesMarker(run, v)
  {
    MarkerHasSource(run, run[v].presents);
  }

  /** Main result: whenever a passkey requirement passes, the presented session goes back to a successful passkey
      verification less than 300 seconds before; that one was presented a marker, and took it, that a passkey login
      had written less than 60 seconds before it; and no passkey login lies on the way from the verification. */
  lemma PasskeyRequirementIsBacked(run: Requests, n: nat) returns (v: nat, w: nat)
    requires OnlyIssued(run) && n < |run|
    requires run[n].event.Required? && run[n].event.method' == PASSKEY && Succeeds(run, n)
    ensures w < v < n && VerifiesBy(run, v, PASSKEY) && IsFinish(run[w].event) && TakesMarker(run, v)
    ensures run[n].event.now - run[v].event.proofNow < VERIFICATION_TIMEOUT
    ensures run[v].event.markerNow - run[w].event.now < READY_TIMEOUT
    ensures NoLoginSince(run, run[n].presents, v) && MarkerSource(run, run[v].presents) == Some(w)
  {
    RequirementPassesIff(run, n);
    ProofHasSource(run, run[n].presents);
    v := ProofSource(run, run[n].presents).value;
    VerificationSucceedsIff(run, v);
    MarkerHasSource(run, run[v].presents);
    w := MarkerSource(run, run[v].presents).value;
  }

  /** A 2FA requirement is backed in the same way by a code that was accepted. */
  lemma TwoFactorRequirementIsBacked(run: Requests, n: nat) returns (v: nat)
    requires OnlyIssued(run) && n < |run|
    requires run[n].event.Required? && run[n].event.method' == TWO_FA && Succeeds(run, n)
    ensures v < n && VerifiesBy(run, v, TWO_FA) && run[v].event.request.has2FA && run[v].event.request.codeValid
    ensures run[n].event.now - run[v].event.proofNow < VERIFICATION_TIMEOUT
    ensures NoLoginSince(run, run[n].presents, v)
  {
    RequirementPassesIff(run, n);
    ProofHasSource(run, run[n].presents);
    v := ProofSource(run, run[n].presents).value;
  }

  /** Over every run, the middleware lets a request pass exactly when the presented session goes back to some successful
      verification less than five minutes old. */
  lemma AnyRequirementPassesIff(run: Requests, n: nat)
    requires OnlyIssued(run) && n < |run| && run[n].event.AnyRequired?
    ensures var e, source := run[n].event, ProofSource(run, run[n].presents);
            Succeeds(run, n) <==> source.Some? && e.now < run[source.value].event.proofNow + 300
  {
    ProofHasSource(run, run[n].presents);
  }

  // ---------- How often a marker serves ----------

  /** Verification v was granted on the marker that login w wrote. */
  ghost predicate Serves(run: Requests, v: nat, w: nat)
    requires OnlyIssued(run) && v < |run|
  {
    VerifiesBy(run, v, PASSKEY) && MarkerSource(run, run[v].presents) == Some(w)
  }

  ghost predicate ServesOnce(run: Requests, w: nat)
    requires OnlyIssued(run)
  {
    forall v1, v2 | 0 <= v1 < v2 < |run| :: !(Serves(run, v1, w) && Serves(run, v2, w))
  }

  /** Request v presents a session that holds the marker of w, in time and able to verify. */
  ghost predicate Offers(run: Requests, v: nat, w: nat)
    requires OnlyIssued(run) && v < |run|
  {
    && CanVerify(run[v].event) && MarkerSource(run, run[v].presents) == Some(w)
    && w < |run| && run[w].event.Finished? && run[v].event.markerNow - run[w].event.now < READY_TIMEOUT
  }

  lemma ServesIffOffers(run: Requests, v: nat, w: nat)
    requires OnlyIssued(run) && v < |run|
    ensures Serves(run, v, w) <==> Offers(run, v, w)
  {
    MarkerHasSource(run, run[v].presents);
    if run[v].event.Verified? {
      VerificationSucceedsIff(run, v);
    }
  }

  /** A marker serves at most once exactly when no two requests offer it: taking the marker out of the answer does not
      take it out of the sessions that were issued before. */
  lemma MarkerServesOnceIff(run: Requests, w: nat)
    requires OnlyIssued(run)
    ensures ServesOnce(run, w) <==> forall v1, v2 | 0 <= v1 < v2 < |run| :: !(Offers(run, v1, w) && Offers(run, v2, w))
  {
    forall v | 0 <= v < |run| ensures Serves(run, v, w) <==> Offers(run, v, w) {
      ServesIffOffers(run, v, w);
    }
  }

  /** No session that holds the marker of w is presented by two requests. */
  ghost predicate PresentedOnce(run: Requests, w: nat)
    requires OnlyIssued(run)
  {
    forall i, j | 0 <= i < j < |run| :: !BothPresent(run, i, j, w)
  }

  ghost predicate BothPresent(run: Requests, i: nat, j: nat, w: nat)
    requires OnlyIssued(run) && i < |run| && j < |run|
  {
    run[i].presents == run[j].presents && MarkerSource(run, run[i].presents) == Some(w)
  }

  lemma PresentsDiffer(run: Requests, i: nat, j: nat, w: nat)
    requires OnlyIssued(run) && PresentedOnce(run, w) && i < j < |run| && MarkerSource(run, run[i].presents) == Some(w)
    ensures run[i].presents != run[j].presents
  {
    assert !BothPresent(run, i, j, w);
  }

  /** On the way back to the login that wrote it, nothing took the marker. */
  lemma {:induction false} NothingTook(run: Requests, k: nat, a: nat, w: nat)
    requires OnlyIssued(run) && k <= |run| && a < |run|
    requires MarkerSource(run, k) == Some(w) && Derives(run, k, a) && a > w
    ensures !TakesMarker(run, a) && MarkerSource(run, a + 1) == Some(w)
  {
    MarkerHasSource(run, k);
    if k - 1 != a {
      if k - 1 == w {
        DerivesEarlier(run, run[w].presents, a);
      }
      NothingTook(run, run[k - 1].presents, a, w);
    }
  }

  lemma {:induction false} DerivesEarlier(run: Requests, k: nat, a: nat)
    requires OnlyIssued(run) && k <= |run| && Derives(run, k, a)
    ensures a < k
  {
    if k - 1 != a {
      DerivesEarlier(run, run[k - 1].presents, a);
    }
  }

  /** A session goes back to the login that wrote its marker. */
  lemma {:induction false} MarkerDerives(run: Requests, k: nat, w: nat)
    requires OnlyIssued(run) && k <= |run| && MarkerSource(run, k) == Some(w)
    ensures Derives(run, k, w)
  {
    if k - 1 != w {
      MarkerDerives(run, run[k - 1].presents, w);
    }
  }

  /** Between a session and a later one that goes back to it, some request presented the first. */
  lemma {:induction false} StepAfter(run: Requests, k: nat, a: nat) returns (d: nat)
    requires OnlyIssued(run) && k <= |run| && Derives(run, k, a) && k != a + 1
    ensures d < k && run[d].presents == a + 1
  {
    if run[k - 1].presents == a + 1 {
      d := k - 1;
    } else {
      d := StepAfter(run, run[k - 1].presents, a);
    }
  }

  /** Request b presents the session that c left, so no earlier request can be presented one that goes back to c. */
  lemma NotBetween(run: Requests, w: nat, a: nat, b: nat, c: nat)
    requires OnlyIssued(run) && PresentedOnce(run, w) && a < b < |run|
    requires run[b].presents == c + 1 && MarkerSource(run, c + 1) == Some(w)
    ensures !Derives(run, run[a].presents, c)
  {
    if Derives(run, run[a].presents, c) {
      if run[a].presents != c + 1 {
        var d := StepAfter(run, run[a].presents, c);
        PresentsDiffer(run, d, b, w);
      } else {
        PresentsDiffer(run, a, b, w);
      }
    }
  }

  lemma MarkerStep(run: Requests, k: nat, w: nat)
    requires OnlyIssued(run) && k <= |run| && MarkerSource(run, k) == Some(w) && k - 1 != w
    ensures w < k - 1 < k && MarkerSource(run, run[k - 1].presents) == Some(w)
  {
  }

  lemma DerivesVia(run: Requests, k: nat, a: nat)
    requires OnlyIssued(run) && 0 < k <= |run| && (k - 1 == a || Derives(run, run[k - 1].presents, a))
    ensures Derives(run, k, a)
  {
  }

  /** When no session with the marker is presented twice, the requests that are presented it lie on one line. */
  lemma {:induction false} OneLine(run: Requests, w: nat, a: nat, b: nat)
    requires OnlyIssued(run) && PresentedOnce(run, w) && a < b < |run|
    requires MarkerSource(run, run[a].presents) == Some(w) && MarkerSource(run, run[b].presents) == Some(w)
    ensures Derives(run, run[b].presents, a)
    decreases b
  {
    var k := run[b].presents;
    var c := k - 1;
    if c == w {
      MarkerDerives(run, run[a].presents, w);
      NotBetween(run, w, a, b, w);
    } else {
      MarkerStep(run, k, w);
      if c < a {
        OneLine(run, w, c, a);
        NotBetween(run, w, a, b, c);
      } else {
        if a < c {
          OneLine(run, w, a, c);
        }
        DerivesVia(run, k, a);
      }
    }
  }

  /** A marker serves at most once as long as no session that holds it is presented twice. */
  lemma MarkerServesOnce(run: Requests, w: nat)
    requires OnlyIssued(run) && PresentedOnce(run, w)
    ensures ServesOnce(run, w)
  {
    forall v1, v2 | 0 <= v1 < v2 < |run| ensures !(Serves(run, v1, w) && Serves(run, v2, w)) {
      if Serves(run, v1, w) && Serves(run, v2, w) {
        OneLine(run, w, v1, v2);
        MarkerHasSource(run, run[v1].presents);
        NothingTook(run, run[v2].presents, v1, w);
        VerificationSucceedsIff(run, v1);
        assert false;
      }
    }
  }

  // ---------- Presenting a session again ----------

  lemma {:induction false} IssuedInPrefix(run: Requests, more: Requests, k: nat)
    requires OnlyIssued(run) && OnlyIssued(run + more) && k <= |run|
    ensures Issued(run + more, k) == Issued(run, k)
    ensures MarkerSource(run + more, k) == MarkerSource(run, k)
  {
    if k > 0 {
      IssuedInPrefix(run, more, run[k - 1].presents);
    }
  }

  /** A request that is repeated at any later time gets the same answer: what happened in between does not reach the
      session it presents. */
  lemma RepeatedRequestAnswersAlike(run: Requests, between: Requests, n: nat)
    requires OnlyIssued(run + between) && n < |run|
    ensures var all := run + between + [run[n]];
            OnlyIssued(run) && OnlyIssued(all) && Succeeds(all, |run| + |between|) == Succeeds(run, n)
    ensures var all := run + between + [run[n]];
            forall w :: Serves(all, |run| + |between|, w) <==> Serves(run, n, w)
  {
    var all, more := run + between + [run[n]], between + [run[n]];
    assert all == run + more;
    assert forall i | 0 <= i < |run| + |between| :: all[i] == (run + between)[i];
    assert forall i | 0 <= i < |run| :: run[i] == (run + between)[i];
    IssuedInPrefix(run, more, run[n].presents);
  }

  /** So a marker that served serves again when its session is presented again in time. */
  lemma MarkerServesAgain(run: Requests, v: nat, w: nat)
    requires OnlyIssued(run) && v < |run| && Serves(run, v, w)
    ensures OnlyIssued(run + [run[v]]) && !ServesOnce(run + [run[v]], w)
  {
    assert run + [] == run;
    RepeatedRequestAnswersAlike(run, [], v);
    var all := run + [run[v]];
    assert run + [] + [run[v]] == all;
    IssuedInPrefix(run, [run[v]], run[v].presents);
    assert Serves(all, v, w) && Serves(all, |run|, w);
  }

  /** Looking at verifications alone is not enough: requests that leave the marker in place issue further sessions that
      hold it, and here each of two sessions is presented to one verification. */
  lemma TwoSessionsHoldOneMarker(now: int)
    ensures var ask := VerifyRequest(PASSKEY, false, true, false, false);
            var run := [Request(0, Finished(now, true)), Request(1, Required(TWO_FA, now, true)),
                        Request(1, Verified(ask, now, now, true, true)), Request(2, Verified(ask, now, now, true,
                            true))];
            OnlyIssued(run) && Serves(run, 2, 0) && Serves(run, 3, 0) && run[2].presents != run[3].presents
  {
    var ask := VerifyRequest(PASSKEY, false, true, false, false);
    var run := [Request(0, Finished(now, true)), Request(1, Required(TWO_FA, now, true)),
                Request(1, Verified(ask, now, now, true, true)), Request(2, Verified(ask, now, now, true, true))];
    assert Issued(run, 1) == Session(At(now), Absent, None);
    assert Issued(run, 2) == Session(At(now), Absent, None);
    assert MarkerSource(run, 1) == Some(0);
    assert MarkerSource(run, 2) == Some(0);
  }

  // ---------- Clients that present the newest session ----------

  /** Every request presents the session that the one before it left. */
  ghost predicate Sequential(run: Requests) {
    forall i | 0 <= i < |run| :: run[i].presents == i
  }

  lemma {:induction false} SequentialNoLogin(run: Requests, k: nat, a: nat)
    requires Sequential(run) && k <= |run|
    ensures NoLoginSince(run, k, a) <==> a < k && forall j | a < j < k :: !IsFinish(run[j].event)
  {
    if k > 0 {
      SequentialNoLogin(run, k - 1, a);
    }
  }

  /** For such a client "on the way" is "in between", and a marker serves once. */
  lemma SequentialRequirementIsBacked(run: Requests, n: nat) returns (v: nat, w: nat)
    requires Sequential(run) && n < |run|
    requires run[n].event.Required? && run[n].event.method' == PASSKEY && Succeeds(run, n)
    ensures w < v < n && VerifiesBy(run, v, PASSKEY) && IsFinish(run[w].event)
    ensures run[n].event.now - run[v].event.proofNow < VERIFICATION_TIMEOUT
    ensures run[v].event.markerNow - run[w].event.now < READY_TIMEOUT
    ensures (forall j | v < j < n :: !IsFinish(run[j].event)) && (forall j | w < j < v :: !IsFinish(run[j].event))
    ensures ServesOnce(run, w)
  {
    v, w := PasskeyRequirementIsBacked(run, n);
    SequentialNoLogin(run, n, v);
    MarkerHasSource(run, v);
    SequentialNoLogin(run, v, w);
    MarkerServesOnce(run, w);
  }
}
