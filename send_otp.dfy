/** supabase/functions/send-otp/index.ts: the `send` and `verify` actions of
    the e-mail one-time-code flow over the challenge and session tables. */
module SendOtp {
  import opened Wrappers
  import opened Json
  import opened Text
  import opened Hex
  import opened Html
  import opened Seqs
  import opened Bookings
  import opened Http
  import opened RateLimit
  import opened Store

  const MaxRequests: int := 5
  const WindowMs: int := 3600000
  const MaxEmailLength: nat := 255
  const OtpLifetimeMs: int := 600000       // 10 minutes
  const SessionLifetimeMs: int := 1800000  // 30 minutes
  const MaxAttempts: int := 5

  const MsgRateLimited := "För många försök. Vänligen försök igen senare."
  const MsgBadAction := "Ogiltig åtgärd"
  const MsgBadEmail := "Ogiltig e-postadress"
  const MsgFailed := "Kunde inte behandla förfrågan"
  const MsgMaybeSent := "Om det finns bokningar för denna e-post får du en kod."
  const MsgMailNotConfigured := "E-posttjänsten är inte konfigurerad"
  const MsgCodeSent := "Verifieringskod skickad till din e-post."
  const MsgBadCode := "Ogiltig verifieringskod"
  const MsgNoChallenge := "Ingen verifieringskod hittades. Begär en ny kod."
  const MsgExpired := "Verifieringskoden har gått ut. Begär en ny kod."
  const MsgTooMany := "För många felaktiga försök. Begär en ny kod."
  const MsgWrongCode := "Felaktig verifieringskod. Försök igen."
  const MsgVerified := "Verifierad!"

  /** `Math.floor(Math.random() * 900000)`, the random part of a code. */
  type OtpDraw = d: int | 0 <= d < 900000

  /** What the handler takes from outside: the SHA-256 digest of a string's
      UTF-8 bytes, zod's `.email()` test, the random draw for the code, the
      value of `crypto.randomUUID()`, whether `RESEND_API_KEY` is set, and
      whether the mail provider's call throws. */
  datatype Env = Env(
    digest: string -> seq<byte>,
    isEmail: string -> bool,
    otpDraw: OtpDraw,
    sessionToken: string,
    mailConfigured: bool,
    mailThrows: bool)

  /** The message handed to the mail provider: recipient and the code as it
      is interpolated into the HTML body. */
  datatype Mail = Mail(to: string, escapedCode: string)

  /** `otpSchema`: `z.string().length(6).regex(/^\d{6}$/)`. */
  predicate IsOtpCode(s: string)
  {
    |s| == 6 && forall i :: 0 <= i < 6 ==> IsAsciiDigit(s[i])
  }

  function ParseOtp(v: Option<Json>): (r: Option<string>)
    ensures r.Some? <==> v.Some? && v.value.JStr? && IsOtpCode(v.value.s)
    ensures r.Some? ==> r.value == v.value.s
  {
    match v
    case Some(JStr(s)) => if IsOtpCode(s) then Some(s) else None
    case _ => None
  }

  /** `generateOTP`: `Math.floor(100000 + Math.random() * 900000).toString()`.
      Every generated code passes the six-digit check. */
  function GenerateOtp(draw: OtpDraw): (code: string)
    ensures IsOtpCode(code)
    ensures DecimalValue(code) == 100000 + draw
  {
    var n := 100000 + draw;
    assert Pow10(5) == 100000 && Pow10(6) == 1000000 by {
      assert Pow10(1) == 10 && Pow10(2) == 100 && Pow10(3) == 1000 && Pow10(4) == 10000;
    }
    DecimalLength(n, 6);
    DecimalRoundTrip(n);
    Decimal(n)
  }

  /** `sha256Hex`: the digest formatted as lower-case hex. */
  function Sha256Hex(digest: string -> seq<byte>, input: string): string
  {
    ToHex(digest(input))
  }

  /** `emailSchema`: a string that zod accepts as an e-mail address, of at
      most 255 characters, then trimmed and lower-cased. */
  function NormalizeEmail(v: Option<Json>, isEmail: string -> bool): Option<string>
  {
    match v
    case Some(JStr(s)) => if isEmail(s) && |s| <= MaxEmailLength then Some(ToLower(Trim(s))) else None
    case _ => None
  }

  /** The request as the handler classifies it before touching any table. */
  datatype Command =
    | Unreadable                                  // req.json() or `body.action` throws
    | BadAction
    | BadEmail
    | SendCommand(email: string)
    | VerifyCommand(email: string, otp: Option<Json>)

  /** `actionSchema` first, then `emailSchema`. */
  function Parse(body: Option<Json>, isEmail: string -> bool): Command
  {
    match body
    case None => Unreadable
    case Some(JNull) => Unreadable
    case Some(b) =>
      var action := Field(b, "action");
      if action != Some(JStr("send")) && action != Some(JStr("verify")) then BadAction
      else match NormalizeEmail(Field(b, "email"), isEmail)
        case None => BadEmail
        case Some(e) => if action == Some(JStr("send")) then SendCommand(e) else VerifyCommand(e, Field(b, "otp"))
  }

  /** A readable body is refused for its action before its email is looked at, and
      a valid action with an address that fails the email check is refused for the
      address. */
  lemma ParseClassifies(b: Json, isEmail: string -> bool)
    requires b != JNull
    ensures var c := Parse(Some(b), isEmail); var action := Field(b, "action");
      (c == BadAction <==> action != Some(JStr("send")) && action != Some(JStr("verify")))
      && (c == BadEmail <==> (action == Some(JStr("send")) || action == Some(JStr("verify")))
                             && NormalizeEmail(Field(b, "email"), isEmail).None?)
      && (c.SendCommand? ==> action == Some(JStr("send")))
      && (c.VerifyCommand? ==> action == Some(JStr("verify")) && c.otp == Field(b, "otp"))
  {
  }

  /** An accepted command carries the trimmed, lower-cased form of a string that
      passed the email check and the length bound; normalising it again changes
      nothing. */
  lemma ParseNormalizes(b: Json, isEmail: string -> bool)
    requires b != JNull
    requires Parse(Some(b), isEmail).SendCommand? || Parse(Some(b), isEmail).VerifyCommand?
    ensures var e := Parse(Some(b), isEmail).email; var v := Field(b, "email");
      v.Some? && v.value.JStr? && isEmail(v.value.s) && |v.value.s| <= MaxEmailLength
      && e == ToLower(Trim(v.value.s)) && IsTrimmed(e) && ToLower(Trim(e)) == e
  {
    var e := Parse(Some(b), isEmail).email;
    var s := Field(b, "email").value.s;
    assert NormalizeEmail(Field(b, "email"), isEmail) == Some(e);
    assert e == ToLower(Trim(s));
    ToLowerKeepsTrimmed(Trim(s));
    TrimFixesTrimmed(e);
    ToLowerIdempotent(Trim(s));
  }

  /** The row `send` inserts: the hash of the code, no attempts, ten minutes. */
  function IssuedChallenge(t: OtpTables, email: string, now: int, env: Env): Challenge
  {
    Challenge(t.nextId, email, Sha256Hex(env.digest, GenerateOtp(env.otpDraw)), now + OtpLifetimeMs, 0, now)
  }

  /** The `send` branch: tables afterwards, response and the mail handed to
      the provider. */
  function Send(bookings: seq<Booking>, t: OtpTables, email: string, now: int, env: Env)
    : (OtpTables, Response, Option<Mail>)
  {
    if WithEmail(bookings, email) == [] then
      (t, Response(200, None, MessageBody(MsgMaybeSent)), None)
    else
      var mail := Mail(email, EscapeHtml(GenerateOtp(env.otpDraw)));
      var issued := t.(challenges := WithoutChallengesFor(t.challenges, email) + [IssuedChallenge(t, email, now, env)],
                       nextId := t.nextId + 1);
      if !env.mailConfigured then (issued, Error(500, MsgMailNotConfigured), None)
      else if env.mailThrows then (issued, Error(500, MsgFailed), Some(mail))
      else (issued, Response(200, None, MessageBody(MsgCodeSent)), Some(mail))
  }

  datatype VerifyOutcome = BadCode | NoChallenge | Expired | TooManyAttempts | WrongCode | Verified

  /** The `verify` branch: tables afterwards and the outcome. */
  function Verify(t: OtpTables, email: string, otp: Option<Json>, digest: string -> seq<byte>,
                  token: string, now: int): (OtpTables, VerifyOutcome)
  {
    match ParseOtp(otp)
    case None => (t, BadCode)
    case Some(code) =>
      match LatestChallenge(t.challenges, email)
      case None => (t, NoChallenge)
      case Some(c) => Judge(t, c, email, code, digest, token, now)
  }

  /** The `verify` branch once the latest challenge `c` for `email` is found:
      expiry, then the attempt limit, then the code's digest. */
  function Judge(t: OtpTables, c: Challenge, email: string, code: string,
                 digest: string -> seq<byte>, token: string, now: int): (OtpTables, VerifyOutcome)
  {
    if c.expiresAt < now then
      (t.(challenges := WithoutChallenge(t.challenges, c.id)), Expired)
    else if c.attempts >= MaxAttempts then
      (t.(challenges := WithoutChallenge(t.challenges, c.id)), TooManyAttempts)
    else if Sha256Hex(digest, code) != c.otpHash then
      (t.(challenges := WithAttempts(t.challenges, c.id, c.attempts + 1)), WrongCode)
    else
      (OtpTables(WithoutChallenge(t.challenges, c.id),
                 WithoutSessionsFor(t.sessions, email) + [Session(t.nextId, email, Sha256Hex(digest, token), now + SessionLifetimeMs)],
                 t.nextId + 1),
       Verified)
  }

  function VerifyResponse(outcome: VerifyOutcome, token: string): Response
  {
    match outcome
    case BadCode => Error(400, MsgBadCode)
    case NoChallenge => Error(400, MsgNoChallenge)
    case Expired => Error(400, MsgExpired)
    case TooManyAttempts => Error(400, MsgTooMany)
    case WrongCode => Error(400, MsgWrongCode)
    case Verified => Response(200, None, SessionBody(token, MsgVerified))
  }

  /** The whole handler: rate-limit map, tables, response and mail. */
  function Handle(records: map<string, RateRecord>, t: OtpTables, bookings: seq<Booking>,
                  req: Request, now: int, env: Env)
    : (map<string, RateRecord>, OtpTables, Response, Option<Mail>)
  {
    if req.verb == "OPTIONS" then (records, t, Preflight(), None)
    else
      var step := Step(records, ClientIp(req.headers), MaxRequests, WindowMs, now);
      if !step.1.allowed then (step.0, t, TooManyRequests(MsgRateLimited), None)
      else match Parse(req.body, env.isEmail)
        case Unreadable => (step.0, t, Error(500, MsgFailed), None)
        case BadAction => (step.0, t, Error(400, MsgBadAction), None)
        case BadEmail => (step.0, t, Error(400, MsgBadEmail), None)
        case SendCommand(e) =>
          var s := Send(bookings, t, e, now, env);
          (step.0, s.0, s.1, s.2)
        case VerifyCommand(e, otp) =>
          var v := Verify(t, e, otp, env.digest, env.sessionToken, now);
          (step.0, v.0, VerifyResponse(v.1, env.sessionToken), None)
  }

  /** `Deno.serve` callback of send-otp. */
  method HandleRequest(limiter: RateLimiter, db: Database, req: Request, now: int, env: Env)
    returns (resp: Response, mail: Option<Mail>)
    requires db.Valid()
    modifies limiter, db
    ensures db.Valid()
    ensures (limiter.records, db.Otp(), resp, mail)
         == Handle(old(limiter.records), old(db.Otp()), old(db.bookings), req, now, env)
    ensures db.bookings == old(db.bookings)
  {
    if req.verb == "OPTIONS" {
      return Preflight(), None;
    }
    var decision := limiter.Check(ClientIp(req.headers), MaxRequests, WindowMs, now);
    if !decision.allowed {
      return TooManyRequests(MsgRateLimited), None;
    }
    match Parse(req.body, env.isEmail)
    case Unreadable =>
      resp, mail := Error(500, MsgFailed), None;
    case BadAction =>
      resp, mail := Error(400, MsgBadAction), None;
    case BadEmail =>
      resp, mail := Error(400, MsgBadEmail), None;
    case SendCommand(email) =>
      resp, mail := SendCode(db, email, now, env);
    case VerifyCommand(email, otp) =>
      resp := VerifyCode(db, email, otp, now, env);
      mail := None;
  }

  method SendCode(db: Database, email: string, now: int, env: Env) returns (resp: Response, mail: Option<Mail>)
    requires db.Valid()
    modifies db
    ensures db.Valid()
    ensures (db.Otp(), resp, mail) == Send(old(db.bookings), old(db.Otp()), email, now, env)
    ensures db.bookings == old(db.bookings)
  {
    if WithEmail(db.bookings, email) == [] {
      return Response(200, None, MessageBody(MsgMaybeSent)), None;
    }
    var otp := GenerateOtp(env.otpDraw);
    var otpHash := Sha256Hex(env.digest, otp);
    var expiresAt := now + OtpLifetimeMs;
    db.DeleteChallengesFor(email);
    db.InsertChallenge(email, otpHash, expiresAt, 0, now);
    if !env.mailConfigured {
      return Error(500, MsgMailNotConfigured), None;
    }
    mail := Some(Mail(email, EscapeHtml(otp)));
    if env.mailThrows {
      return Error(500, MsgFailed), mail;
    }
    resp := Response(200, None, MessageBody(MsgCodeSent));
  }

  method VerifyCode(db: Database, email: string, otp: Option<Json>, now: int, env: Env) returns (resp: Response)
    requires db.Valid()
    modifies db
    ensures db.Valid()
    ensures var v := Verify(old(db.Otp()), email, otp, env.digest, env.sessionToken, now);
      db.Otp() == v.0 && resp == VerifyResponse(v.1, env.sessionToken)
    ensures db.bookings == old(db.bookings)
  {
    var code := ParseOtp(otp);
    if code.None? {
      return Error(400, MsgBadCode);
    }
    var challenge := LatestChallenge(db.challenges, email);
    if challenge.None? {
      return Error(400, MsgNoChallenge);
    }
    resp := JudgeCode(db, challenge.value, email, code.value, now, env);
  }

  /** The database steps of `Judge`. */
  method JudgeCode(db: Database, c: Challenge, email: string, code: string, now: int, env: Env)
    returns (resp: Response)
    requires db.Valid()
    modifies db
    ensures db.Valid()
    ensures var v := Judge(old(db.Otp()), c, email, code, env.digest, env.sessionToken, now);
      db.Otp() == v.0 && resp == VerifyResponse(v.1, env.sessionToken)
    ensures db.bookings == old(db.bookings)
  {
    ghost var v := Judge(db.Otp(), c, email, code, env.digest, env.sessionToken, now);
    if c.expiresAt < now {
      db.DeleteChallenge(c.id);
      return Error(400, MsgExpired);
    }
    if c.attempts >= MaxAttempts {
      db.DeleteChallenge(c.id);
      return Error(400, MsgTooMany);
    }
    if Sha256Hex(env.digest, code) != c.otpHash {
      assert v.1 == WrongCode;
      db.SetAttempts(c.id, c.attempts + 1);
      return Error(400, MsgWrongCode);
    }
    assert v.1 == Verified;
    OpenSession(db, c, email, now, env);
    resp := Response(200, None, SessionBody(env.sessionToken, MsgVerified));
  }

  /** The database steps after a matching code: the challenge is consumed and
      the address's sessions are replaced by one for the new token. */
  method OpenSession(db: Database, c: Challenge, email: string, now: int, env: Env)
    requires db.Valid()
    modifies db
    ensures db.Valid()
    ensures db.challenges == WithoutChallenge(old(db.challenges), c.id)
    ensures db.sessions == WithoutSessionsFor(old(db.sessions), email)
                           + [Session(old(db.nextId), email, Sha256Hex(env.digest, env.sessionToken), now + SessionLifetimeMs)]
    ensures db.nextId == old(db.nextId) + 1 && db.bookings == old(db.bookings)
  {
    db.DeleteChallenge(c.id);
    var tokenHash := Sha256Hex(env.digest, env.sessionToken);
    db.DeleteSessionsFor(email);
    db.InsertSession(email, tokenHash, now + SessionLifetimeMs);
  }

  // ----- Properties -----

  /** The code handed to the mail provider is the generated code itself:
      six digits contain nothing `escapeHtml` rewrites. */
  lemma MailCarriesCode(bookings: seq<Booking>, t: OtpTables, email: string, now: int, env: Env)
    requires Send(bookings, t, email, now, env).2.Some?
    ensures Send(bookings, t, email, now, env).2.value == Mail(email, GenerateOtp(env.otpDraw))
  {
    var code := GenerateOtp(env.otpDraw);
    assert forall i :: 0 <= i < |code| ==> !IsSpecial(code[i]) by {
      forall i | 0 <= i < |code| ensures !IsSpecial(code[i]) {
        assert IsAsciiDigit(code[i]);
      }
    }
    EscapeIdentity(code);
  }

  /** No plaintext code is stored because `Challenge` has no column for it;
      the one column derived from the code, `otpHash`, is 64 hex characters
      when the digest has SHA-256's 32 bytes, so it is never the six-digit
      code itself. */
  lemma StoredHashIsNotTheCode(t: OtpTables, email: string, now: int, env: Env)
    requires |env.digest(GenerateOtp(env.otpDraw))| == 32
    ensures var h := IssuedChallenge(t, email, now, env).otpHash;
      |h| == 64 && (forall i :: 0 <= i < |h| ==> IsHexChar(h[i])) && h != GenerateOtp(env.otpDraw)
  {
  }

  /** Without a booking for the address nothing is stored or sent and the
      answer gives nothing away. */
  lemma SendWithoutBookings(bookings: seq<Booking>, t: OtpTables, email: string, now: int, env: Env)
    requires forall b :: b in bookings ==> !EmailMatches(b, email)
    ensures Send(bookings, t, email, now, env) == (t, Response(200, None, MessageBody(MsgMaybeSent)), None)
  {
    FilterKeepsNone(bookings, Matching(email));
  }

  /** The two 200 answers of `send` are told apart by their text. */
  lemma SendAnswersDiffer(bookings: seq<Booking>, t: OtpTables, email: string, bookings': seq<Booking>,
                          t': OtpTables, email': string, now: int, env: Env)
    requires WithEmail(bookings, email) == [] && WithEmail(bookings', email') != []
    requires env.mailConfigured && !env.mailThrows
    ensures var r := Send(bookings, t, email, now, env).1;
      var r' := Send(bookings', t', email', now, env).1;
      r.status == 200 && r'.status == 200 && r.body.MessageBody? && r'.body.MessageBody? && r != r'
  {
  }

  ghost predicate OnlyChallengeFor(cs: seq<Challenge>, email: string, c: Challenge)
  {
    c in cs && c.email == email && forall d :: d in cs && d.email == email ==> d == c
  }

  ghost predicate OnlySessionFor(ss: seq<Session>, email: string, s: Session)
  {
    s in ss && s.email == email && forall d :: d in ss && d.email == email ==> d == s
  }

  function ChallengeEmailsDiffer(): (Challenge, Challenge) -> bool
  {
    (a: Challenge, b: Challenge) => a.email != b.email
  }

  function SessionEmailsDiffer(): (Session, Session) -> bool
  {
    (a: Session, b: Session) => a.email != b.email
  }

  /** At most one outstanding challenge and one session per address. */
  ghost predicate OnePerEmail(t: OtpTables)
  {
    Pairwise(t.challenges, ChallengeEmailsDiffer()) && Pairwise(t.sessions, SessionEmailsDiffer())
  }

  /** `send` leaves exactly one challenge for the address, fresh, with no
      attempts and ten minutes to live; other addresses keep theirs. */
  lemma SendIssuesOneChallenge(bookings: seq<Booking>, t: OtpTables, email: string, now: int, env: Env)
    requires WithEmail(bookings, email) != []
    ensures var t' := Send(bookings, t, email, now, env).0;
      var c := IssuedChallenge(t, email, now, env);
      && OnlyChallengeFor(t'.challenges, email, c)
      && c.attempts == 0 && c.expiresAt == now + OtpLifetimeMs && c.createdAt == now
      && (forall d: Challenge :: d.email != email ==> (d in t'.challenges <==> d in t.challenges))
      && t'.sessions == t.sessions
  {
    var c := IssuedChallenge(t, email, now, env);
    var kept := WithoutChallengesFor(t.challenges, email);
    var r := kept + [c];
    assert r[|kept|] == c;
    forall d | d in r ensures d in kept || d == c {
      var j :| 0 <= j < |r| && r[j] == d;
      if j < |kept| {
        assert r[j] == kept[j];
      }
    }
  }

  lemma SendKeepsOnePerEmail(bookings: seq<Booking>, t: OtpTables, email: string, now: int, env: Env)
    requires OnePerEmail(t)
    ensures OnePerEmail(Send(bookings, t, email, now, env).0)
  {
    if WithEmail(bookings, email) != [] {
      var kept := WithoutChallengesFor(t.challenges, email);
      FilterPairwise(t.challenges, ChallengeEmailIsNot(email), ChallengeEmailsDiffer());
      AppendKeepsPairwise(kept, IssuedChallenge(t, email, now, env), ChallengeEmailsDiffer());
    }
  }

  /** Precedence of the checks: an expired challenge is reported as expired
      whatever its attempts and the code; a used-up one as such whatever the
      code; only a live challenge with attempts left and a matching hash
      verifies. */
  lemma VerifyPrecedence(t: OtpTables, email: string, otp: Option<Json>, digest: string -> seq<byte>,
                         token: string, now: int)
    requires ParseOtp(otp).Some? && LatestChallenge(t.challenges, email).Some?
    ensures var c := LatestChallenge(t.challenges, email).value;
      var outcome := Verify(t, email, otp, digest, token, now).1;
      var matches := Sha256Hex(digest, otp.value.s) == c.otpHash;
      && (c.expiresAt < now ==> outcome == Expired)
      && (now <= c.expiresAt && c.attempts >= MaxAttempts ==> outcome == TooManyAttempts)
      && (outcome == WrongCode <==> now <= c.expiresAt && c.attempts < MaxAttempts && !matches)
      && (outcome == Verified <==> now <= c.expiresAt && c.attempts < MaxAttempts && matches)
  {
  }

  /** A malformed code is rejected before any lookup, and a missing challenge
      changes nothing. */
  lemma VerifyRejectsWithoutChanges(t: OtpTables, email: string, otp: Option<Json>,
                                    digest: string -> seq<byte>, token: string, now: int)
    requires ParseOtp(otp).None? || forall c :: c in t.challenges ==> c.email != email
    ensures var v := Verify(t, email, otp, digest, token, now);
      v.0 == t && (v.1 == BadCode <==> ParseOtp(otp).None?) && (ParseOtp(otp).Some? ==> v.1 == NoChallenge)
  {
  }

  lemma OnlyChallengeIsLatest(cs: seq<Challenge>, email: string, c: Challenge)
    requires OnlyChallengeFor(cs, email, c)
    ensures LatestChallenge(cs, email) == Some(c)
  {
  }

  /** A wrong code on a live challenge with attempts left counts one attempt
      on that challenge and changes nothing else. */
  lemma WrongCodeCountsAttempt(t: OtpTables, email: string, c: Challenge, otp: Option<Json>,
                               digest: string -> seq<byte>, token: string, now: int)
    requires OnlyChallengeFor(t.challenges, email, c)
    requires ParseOtp(otp).Some? && Sha256Hex(digest, otp.value.s) != c.otpHash
    requires now <= c.expiresAt && c.attempts < MaxAttempts
    ensures var v := Verify(t, email, otp, digest, token, now);
      && v.1 == WrongCode
      && OnlyChallengeFor(v.0.challenges, email, c.(attempts := c.attempts + 1))
      && (IdsIssued(t) ==> forall d: Challenge :: d.email != email ==> (d in v.0.challenges <==> d in t.challenges))
      && v.0.sessions == t.sessions && v.0.nextId == t.nextId
  {
    OnlyChallengeIsLatest(t.challenges, email, c);
    AttemptsOnOnlyChallenge(t.challenges, email, c, c.attempts + 1);
    if IdsIssued(t) {
      AttemptsKeepOthers(t.challenges, email, c, c.attempts + 1);
    }
  }

  /** The attempts update names one row by its key, so with distinct ids the
      rows of other addresses stay as they are. */
  lemma AttemptsKeepOthers(cs: seq<Challenge>, email: string, c: Challenge, n: int)
    requires OnlyChallengeFor(cs, email, c) && Pairwise(cs, ChallengeIdsDiffer())
    ensures forall d: Challenge :: d.email != email ==> (d in WithAttempts(cs, c.id, n) <==> d in cs)
  {
    var r := WithAttempts(cs, c.id, n);
    var i :| 0 <= i < |cs| && cs[i] == c;
    forall d: Challenge | d.email != email ensures d in r <==> d in cs {
      if d in r {
        var k :| 0 <= k < |r| && r[k] == d;
        assert cs[k] in cs;
      }
      if d in cs {
        var k :| 0 <= k < |cs| && cs[k] == d;
        assert k != i;
        assert ChallengeIdsDiffer()(cs[if k < i then k else i], cs[if k < i then i else k]);
        assert r[k] == d;
      }
    }
  }

  lemma AttemptsOnOnlyChallenge(cs: seq<Challenge>, email: string, c: Challenge, n: int)
    requires OnlyChallengeFor(cs, email, c)
    ensures OnlyChallengeFor(WithAttempts(cs, c.id, n), email, c.(attempts := n))
  {
    var r := WithAttempts(cs, c.id, n);
    var j :| 0 <= j < |cs| && cs[j] == c;
    assert r[j] == c.(attempts := n);
    forall d | d in r && d.email == email ensures d == c.(attempts := n) {
      var k :| 0 <= k < |r| && r[k] == d;
      assert cs[k].email == email;
      assert cs[k] in cs;
    }
  }

  /** After a successful verification the challenge is gone, so the same or
      any other code gets "no challenge" next time. */
  lemma SingleUse(t: OtpTables, email: string, c: Challenge, otp: Option<Json>, otp': Option<Json>,
                  digest: string -> seq<byte>, token: string, token': string, now: int, now': int)
    requires OnlyChallengeFor(t.challenges, email, c)
    requires Verify(t, email, otp, digest, token, now).1 == Verified
    requires ParseOtp(otp').Some?
    ensures var t' := Verify(t, email, otp, digest, token, now).0;
      Verify(t', email, otp', digest, token', now') == (t', NoChallenge)
  {
    OnlyChallengeIsLatest(t.challenges, email, c);
    var t' := Verify(t, email, otp, digest, token, now).0;
    assert t'.challenges == WithoutChallenge(t.challenges, c.id);
    forall d | d in t'.challenges ensures d.email != email {
      assert d in t.challenges && d.id != c.id;
    }
  }

  /** A successful verification leaves exactly one session for the address,
      holding the digest of the token and thirty minutes to live; other
      addresses keep their sessions. */
  lemma VerifiedSession(t: OtpTables, email: string, otp: Option<Json>, digest: string -> seq<byte>,
                        token: string, now: int)
    requires Verify(t, email, otp, digest, token, now).1 == Verified
    ensures var t' := Verify(t, email, otp, digest, token, now).0;
      && OnlySessionFor(t'.sessions, email, Session(t.nextId, email, Sha256Hex(digest, token), now + SessionLifetimeMs))
      && (forall s: Session :: s.email != email ==> (s in t'.sessions <==> s in t.sessions))
      && var c := LatestChallenge(t.challenges, email).value;
      && c !in t'.challenges
      && (forall d :: d in t'.challenges ==> d in t.challenges)
      && (IdsIssued(t) ==> forall d :: d in t.challenges && d != c ==> d in t'.challenges)
      && |t'.challenges| < |t.challenges|
  {
    var c := LatestChallenge(t.challenges, email).value;
    var s := Session(t.nextId, email, Sha256Hex(digest, token), now + SessionLifetimeMs);
    var kept := WithoutSessionsFor(t.sessions, email);
    var r := kept + [s];
    assert r[|kept|] == s;
    forall d | d in r ensures d in kept || d == s {
      var j :| 0 <= j < |r| && r[j] == d;
      if j < |kept| {
        assert r[j] == kept[j];
      }
    }
    var rest := WithoutChallenge(t.challenges, c.id);
    assert c !in rest;
    if IdsIssued(t) {
      forall d | d in t.challenges && d != c ensures d in rest {
        var i :| 0 <= i < |t.challenges| && t.challenges[i] == c;
        var k :| 0 <= k < |t.challenges| && t.challenges[k] == d;
        assert ChallengeIdsDiffer()(t.challenges[if k < i then k else i], t.challenges[if k < i then i else k]);
      }
    }
    assert |rest| < |t.challenges| by {
      if |rest| == |t.challenges| {
        var i :| 0 <= i < |t.challenges| && t.challenges[i] == c;
        RemainingSmaller(t.challenges, c.id, i);
      }
    }
  }

  lemma {:induction false} RemainingSmaller(cs: seq<Challenge>, id: nat, i: nat)
    requires i < |cs| && cs[i].id == id
    ensures |WithoutChallenge(cs, id)| < |cs|
  {
    assert cs == [cs[0]] + cs[1..];
    if i > 0 {
      RemainingSmaller(cs[1..], id, i - 1);
    }
  }

  lemma JudgeKeepsOnePerEmail(t: OtpTables, c: Challenge, email: string, code: string,
                              digest: string -> seq<byte>, token: string, now: int)
    requires OnePerEmail(t)
    ensures OnePerEmail(Judge(t, c, email, code, digest, token, now).0)
  {
    if c.expiresAt < now || c.attempts >= MaxAttempts {
      FilterPairwise(t.challenges, ChallengeIdIsNot(c.id), ChallengeEmailsDiffer());
    } else if Sha256Hex(digest, code) != c.otpHash {
      var r := WithAttempts(t.challenges, c.id, c.attempts + 1);
      forall i, j | 0 <= i < j < |r| ensures ChallengeEmailsDiffer()(r[i], r[j]) {
        assert ChallengeEmailsDiffer()(t.challenges[i], t.challenges[j]);
      }
    } else {
      FilterPairwise(t.challenges, ChallengeIdIsNot(c.id), ChallengeEmailsDiffer());
      var kept := WithoutSessionsFor(t.sessions, email);
      FilterPairwise(t.sessions, SessionEmailIsNot(email), SessionEmailsDiffer());
      AppendKeepsPairwise(kept, Session(t.nextId, email, Sha256Hex(digest, token), now + SessionLifetimeMs),
                          SessionEmailsDiffer());
    }
  }

  lemma VerifyKeepsOnePerEmail(t: OtpTables, email: string, otp: Option<Json>, digest: string -> seq<byte>,
                               token: string, now: int)
    requires OnePerEmail(t)
    ensures OnePerEmail(Verify(t, email, otp, digest, token, now).0)
  {
    match ParseOtp(otp)
    case None =>
    case Some(code) =>
      match LatestChallenge(t.challenges, email)
      case None =>
      case Some(c) => JudgeKeepsOnePerEmail(t, c, email, code, digest, token, now);
  }

  /** The handler keeps at most one challenge and one session per address. */
  lemma HandleKeepsOnePerEmail(records: map<string, RateRecord>, t: OtpTables, bookings: seq<Booking>,
                               req: Request, now: int, env: Env)
    requires OnePerEmail(t)
    ensures OnePerEmail(Handle(records, t, bookings, req, now, env).1)
  {
    if req.verb != "OPTIONS" && Step(records, ClientIp(req.headers), MaxRequests, WindowMs, now).1.allowed {
      match Parse(req.body, env.isEmail)
      case SendCommand(e) => SendKeepsOnePerEmail(bookings, t, e, now, env);
      case VerifyCommand(e, otp) => VerifyKeepsOnePerEmail(t, e, otp, env.digest, env.sessionToken, now);
      case _ =>
    }
  }

  lemma SendKeepsIdsIssued(bookings: seq<Booking>, t: OtpTables, email: string, now: int, env: Env)
    requires IdsIssued(t)
    ensures IdsIssued(Send(bookings, t, email, now, env).0)
  {
    if WithEmail(bookings, email) != [] {
      var kept := WithoutChallengesFor(t.challenges, email);
      FilterPairwise(t.challenges, ChallengeEmailIsNot(email), ChallengeIdsDiffer());
      AppendKeepsPairwise(kept, IssuedChallenge(t, email, now, env), ChallengeIdsDiffer());
    }
  }

  lemma JudgeKeepsIdsIssued(t: OtpTables, c: Challenge, email: string, code: string,
                            digest: string -> seq<byte>, token: string, now: int)
    requires IdsIssued(t)
    ensures IdsIssued(Judge(t, c, email, code, digest, token, now).0)
  {
    FilterPairwise(t.challenges, ChallengeIdIsNot(c.id), ChallengeIdsDiffer());
    if c.expiresAt < now || c.attempts >= MaxAttempts {
    } else if Sha256Hex(digest, code) != c.otpHash {
      AttemptsKeepIds(t.challenges, c.id, c.attempts + 1, t.nextId);
    } else {
      var kept := WithoutSessionsFor(t.sessions, email);
      FilterPairwise(t.sessions, SessionEmailIsNot(email), SessionIdsDiffer());
      AppendKeepsPairwise(kept, Session(t.nextId, email, Sha256Hex(digest, token), now + SessionLifetimeMs),
                          SessionIdsDiffer());
    }
  }

  /** The attempts update leaves every id as it was. */
  lemma AttemptsKeepIds(cs: seq<Challenge>, id: nat, n: int, bound: nat)
    requires (forall c :: c in cs ==> c.id < bound) && Pairwise(cs, ChallengeIdsDiffer())
    ensures var r := WithAttempts(cs, id, n);
      (forall c :: c in r ==> c.id < bound) && Pairwise(r, ChallengeIdsDiffer())
  {
    var r := WithAttempts(cs, id, n);
    forall d | d in r ensures d.id < bound {
      var k :| 0 <= k < |r| && r[k] == d;
      assert cs[k] in cs;
    }
    forall i, j | 0 <= i < j < |r| ensures ChallengeIdsDiffer()(r[i], r[j]) {
      assert ChallengeIdsDiffer()(cs[i], cs[j]);
    }
  }

  lemma VerifyKeepsIdsIssued(t: OtpTables, email: string, otp: Option<Json>, digest: string -> seq<byte>,
                             token: string, now: int)
    requires IdsIssued(t)
    ensures IdsIssued(Verify(t, email, otp, digest, token, now).0)
  {
    match ParseOtp(otp)
    case None =>
    case Some(code) =>
      match LatestChallenge(t.challenges, email)
      case None =>
      case Some(c) => JudgeKeepsIdsIssued(t, c, email, code, digest, token, now);
  }

  /** Every row the handler inserts gets an id no row in the tables has, so
      the deletes and the attempts update by id touch one row each. */
  lemma HandleKeepsIdsIssued(records: map<string, RateRecord>, t: OtpTables, bookings: seq<Booking>,
                             req: Request, now: int, env: Env)
    requires IdsIssued(t)
    ensures IdsIssued(Handle(records, t, bookings, req, now, env).1)
  {
    if req.verb != "OPTIONS" && Step(records, ClientIp(req.headers), MaxRequests, WindowMs, now).1.allowed {
      match Parse(req.body, env.isEmail)
      case SendCommand(e) => SendKeepsIdsIssued(bookings, t, e, now, env);
      case VerifyCommand(e, otp) => VerifyKeepsIdsIssued(t, e, otp, env.digest, env.sessionToken, now);
      case _ =>
    }
  }

  /** The issued code, entered within its ten minutes, verifies: the
      challenge is consumed and a session is opened. */
  lemma CodeRoundTrip(bookings: seq<Booking>, t: OtpTables, email: string, now: int, env: Env,
                      later: int, token: string)
    requires WithEmail(bookings, email) != []
    requires later <= now + OtpLifetimeMs
    ensures var sent := Send(bookings, t, email, now, env).0;
      var v := Verify(sent, email, Some(JStr(GenerateOtp(env.otpDraw))), env.digest, token, later);
      && v.1 == Verified
      && (forall d :: d in v.0.challenges ==> d.email != email)
      && OnlySessionFor(v.0.sessions, email, Session(t.nextId + 1, email, Sha256Hex(env.digest, token), later + SessionLifetimeMs))
  {
    var sent := Send(bookings, t, email, now, env).0;
    var c := IssuedChallenge(t, email, now, env);
    SendIssuesOneChallenge(bookings, t, email, now, env);
    OnlyChallengeIsLatest(sent.challenges, email, c);
    var otp := Some(JStr(GenerateOtp(env.otpDraw)));
    VerifiedSession(sent, email, otp, env.digest, token, later);
    var v := Verify(sent, email, otp, env.digest, token, later);
    forall d | d in v.0.challenges ensures d.email != email {
      assert d in sent.challenges && d.id != c.id;
    }
  }

  /** The issued code entered after its ten minutes is refused as expired,
      and the challenge is gone. */
  lemma ExpiredCodeRefused(bookings: seq<Booking>, t: OtpTables, email: string, now: int, env: Env,
                           later: int, otp: Option<Json>)
    requires WithEmail(bookings, email) != []
    requires later > now + OtpLifetimeMs && ParseOtp(otp).Some?
    ensures var sent := Send(bookings, t, email, now, env).0;
      var v := Verify(sent, email, otp, env.digest, env.sessionToken, later);
      && v.1 == Expired
      && (forall d :: d in v.0.challenges ==> d.email != email)
      && v.0.sessions == t.sessions
  {
    var sent := Send(bookings, t, email, now, env).0;
    var c := IssuedChallenge(t, email, now, env);
    SendIssuesOneChallenge(bookings, t, email, now, env);
    OnlyChallengeIsLatest(sent.challenges, email, c);
    var v := Verify(sent, email, otp, env.digest, env.sessionToken, later);
    forall d | d in v.0.challenges ensures d.email != email {
      assert d in sent.challenges && d.id != c.id;
    }
  }

  /** A sequence of verification attempts, each a code and a time. */
  function VerifyRun(t: OtpTables, email: string, tries: seq<(Option<Json>, int)>,
                     digest: string -> seq<byte>, token: string): (r: (OtpTables, seq<VerifyOutcome>))
    ensures |r.1| == |tries|
    decreases |tries|
  {
    if tries == [] then (t, [])
    else
      var v := Verify(t, email, tries[0].0, digest, token, tries[0].1);
      var rest := VerifyRun(v.0, email, tries[1..], digest, token);
      (rest.0, [v.1] + rest.1)
  }

  /** A well-formed code that does not match `c`, entered before `c` expires. */
  predicate WrongTry(try: (Option<Json>, int), digest: string -> seq<byte>, c: Challenge)
  {
    ParseOtp(try.0).Some? && Sha256Hex(digest, try.0.value.s) != c.otpHash && try.1 <= c.expiresAt
  }

  lemma {:induction false} WrongCodesRun(t: OtpTables, email: string, c: Challenge,
                                         tries: seq<(Option<Json>, int)>, digest: string -> seq<byte>, token: string)
    requires OnlyChallengeFor(t.challenges, email, c)
    requires c.attempts + |tries| <= MaxAttempts
    requires forall i :: 0 <= i < |tries| ==> WrongTry(tries[i], digest, c)
    ensures var r := VerifyRun(t, email, tries, digest, token);
      && (forall i :: 0 <= i < |tries| ==> r.1[i] == WrongCode)
      && OnlyChallengeFor(r.0.challenges, email, c.(attempts := c.attempts + |tries|))
      && r.0.sessions == t.sessions
    decreases |tries|
  {
    if tries == [] {
      assert c.(attempts := c.attempts + 0) == c;
    } else {
      WrongCodeCountsAttempt(t, email, c, tries[0].0, digest, token, tries[0].1);
      var v := Verify(t, email, tries[0].0, digest, token, tries[0].1);
      var rest := VerifyRun(v.0, email, tries[1..], digest, token);
      assert VerifyRun(t, email, tries, digest, token) == (rest.0, [v.1] + rest.1);
      var c1 := c.(attempts := c.attempts + 1);
      assert c1.otpHash == c.otpHash && c1.expiresAt == c.expiresAt;
      var tail := tries[1..];
      assert forall i :: 0 <= i < |tail| ==> tail[i] == tries[i + 1];
      WrongCodesRun(v.0, email, c1, tail, digest, token);
      assert c1.(attempts := c1.attempts + |tail|) == c.(attempts := c.attempts + |tries|);
      var r := VerifyRun(t, email, tries, digest, token);
      forall i | 0 <= i < |tries| ensures r.1[i] == WrongCode {
        if i > 0 { assert r.1[i] == rest.1[i - 1]; }
      }
    }
  }

  /** Five wrong codes within the ten minutes are each answered "wrong code";
      the next attempt is refused as too many, even with the right code, and
      the challenge is gone. */
  lemma LockedAfterFiveWrongCodes(bookings: seq<Booking>, t: OtpTables, email: string, now: int, env: Env,
                                  tries: seq<(Option<Json>, int)>, last: (Option<Json>, int))
    requires WithEmail(bookings, email) != []
    requires |tries| == MaxAttempts
    requires forall i :: 0 <= i < |tries| ==> WrongTry(tries[i], env.digest, IssuedChallenge(t, email, now, env))
    requires ParseOtp(last.0).Some? && last.1 <= now + OtpLifetimeMs
    ensures var sent := Send(bookings, t, email, now, env).0;
      var run := VerifyRun(sent, email, tries, env.digest, env.sessionToken);
      var final := Verify(run.0, email, last.0, env.digest, env.sessionToken, last.1);
      && (forall i :: 0 <= i < |tries| ==> run.1[i] == WrongCode)
      && final.1 == TooManyAttempts
      && (forall d :: d in final.0.challenges ==> d.email != email)
      && final.0.sessions == t.sessions
  {
    var sent := Send(bookings, t, email, now, env).0;
    var c := IssuedChallenge(t, email, now, env);
    SendIssuesOneChallenge(bookings, t, email, now, env);
    WrongCodesRun(sent, email, c, tries, env.digest, env.sessionToken);
    var run := VerifyRun(sent, email, tries, env.digest, env.sessionToken);
    var c5 := c.(attempts := c.attempts + |tries|);
    OnlyChallengeIsLatest(run.0.challenges, email, c5);
    var final := Verify(run.0, email, last.0, env.digest, env.sessionToken, last.1);
    forall d | d in final.0.challenges ensures d.email != email {
      assert d in run.0.challenges && d.id != c5.id;
    }
  }

  /** A refused request changes no table, whatever its body. */
  lemma RateLimitedTouchesNothing(records: map<string, RateRecord>, t: OtpTables, bookings: seq<Booking>,
                                  req: Request, now: int, env: Env)
    requires req.verb != "OPTIONS"
    requires !Step(records, ClientIp(req.headers), MaxRequests, WindowMs, now).1.allowed
    ensures var h := Handle(records, t, bookings, req, now, env);
      h.1 == t && h.2.status == 429 && h.2.retryAfter == Some(RetryAfterSeconds) && h.3.None?
  {
  }
}
