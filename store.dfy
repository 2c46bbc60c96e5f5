/** The Supabase tables the handlers use, as in-memory sequences:
    `bookings`, `booking_otp_challenges` and `booking_sessions`, with the
    queries the handlers run on them. */
module Store {
  import opened Wrappers
  import opened Seqs
  import opened Json
  import opened Bookings

  /** A `booking_otp_challenges` row; `otpHash` is the hex digest of the code
      and the code itself is not a column. */
  datatype Challenge = Challenge(id: nat, email: string, otpHash: string, expiresAt: int, attempts: int, createdAt: int)

  /** A `booking_sessions` row; only the digest of the token is stored. */
  datatype Session = Session(id: nat, email: string, tokenHash: string, expiresAt: int)

  /** The two tables of the OTP flow and the generator of their row ids. */
  datatype OtpTables = OtpTables(challenges: seq<Challenge>, sessions: seq<Session>, nextId: nat)

  function ChallengeEmailIsNot(email: string): Challenge -> bool
  {
    (c: Challenge) => c.email != email
  }

  function ChallengeIdIsNot(id: nat): Challenge -> bool
  {
    (c: Challenge) => c.id != id
  }

  function SessionEmailIsNot(email: string): Session -> bool
  {
    (s: Session) => s.email != email
  }

  function ChallengeIdsDiffer(): (Challenge, Challenge) -> bool
  {
    (a: Challenge, b: Challenge) => a.id != b.id
  }

  function SessionIdsDiffer(): (Session, Session) -> bool
  {
    (a: Session, b: Session) => a.id != b.id
  }

  /** The ids are primary keys handed out by the generator: every row's id
      has been issued already and no two rows of a table share one. */
  ghost predicate IdsIssued(t: OtpTables)
  {
    && (forall c :: c in t.challenges ==> c.id < t.nextId)
    && (forall s :: s in t.sessions ==> s.id < t.nextId)
    && Pairwise(t.challenges, ChallengeIdsDiffer())
    && Pairwise(t.sessions, SessionIdsDiffer())
  }

  /** `.delete().eq('email', email)` on the challenges. */
  function WithoutChallengesFor(cs: seq<Challenge>, email: string): seq<Challenge>
  {
    Filter(cs, ChallengeEmailIsNot(email))
  }

  /** `.delete().eq('id', id)` on the challenges. */
  function WithoutChallenge(cs: seq<Challenge>, id: nat): seq<Challenge>
  {
    Filter(cs, ChallengeIdIsNot(id))
  }

  /** `.update({ attempts: n }).eq('id', id)` on the challenges. */
  function WithAttempts(cs: seq<Challenge>, id: nat, n: int): (r: seq<Challenge>)
    ensures |r| == |cs|
    ensures forall j :: 0 <= j < |cs| ==>
      r[j] == if cs[j].id == id then cs[j].(attempts := n) else cs[j]
  {
    seq(|cs|, j requires 0 <= j < |cs| => if cs[j].id == id then cs[j].(attempts := n) else cs[j])
  }

  /** `.delete().eq('email', email)` on the sessions. */
  function WithoutSessionsFor(ss: seq<Session>, email: string): seq<Session>
  {
    Filter(ss, SessionEmailIsNot(email))
  }

  /** `.eq('email', email).order('created_at', { ascending: false }).limit(1)
      .maybeSingle()`: the newest challenge for the email (on equal creation
      times, the first in table order). */
  function LatestChallenge(cs: seq<Challenge>, email: string): (r: Option<Challenge>)
    ensures r.None? <==> forall c :: c in cs ==> c.email != email
    ensures r.Some? ==> r.value in cs && r.value.email == email
    ensures r.Some? ==> forall c :: c in cs && c.email == email ==> c.createdAt <= r.value.createdAt
  {
    if cs == [] then None
    else
      var rest := LatestChallenge(cs[1..], email);
      assert cs == [cs[0]] + cs[1..];
      if cs[0].email != email then rest
      else if rest.Some? && rest.value.createdAt > cs[0].createdAt then rest
      else Some(cs[0])
  }

  /** The Supabase database shared by the three handlers. */
  class Database {
    var bookings: seq<Booking>
    var challenges: seq<Challenge>
    var sessions: seq<Session>
    var nextId: nat

    /** The primary keys of the three tables. */
    ghost predicate Valid()
      reads this
    {
      UniqueIds(bookings) && IdsIssued(Otp())
    }

    function Otp(): OtpTables
      reads this
    {
      OtpTables(challenges, sessions, nextId)
    }

    constructor (initial: seq<Booking>)
      requires UniqueIds(initial)
      ensures Valid()
      ensures bookings == initial && challenges == [] && sessions == [] && nextId == 0
    {
      bookings := initial;
      challenges := [];
      sessions := [];
      nextId := 0;
    }

    method DeleteChallengesFor(email: string)
      requires Valid()
      modifies this
      ensures Valid()
      ensures challenges == WithoutChallengesFor(old(challenges), email)
      ensures bookings == old(bookings) && sessions == old(sessions) && nextId == old(nextId)
    {
      FilterPairwise(challenges, ChallengeEmailIsNot(email), ChallengeIdsDiffer());
      challenges := WithoutChallengesFor(challenges, email);
    }

    /** `.insert(...)`; the database assigns the id and `created_at`. */
    method InsertChallenge(email: string, otpHash: string, expiresAt: int, attempts: int, now: int)
      requires Valid()
      modifies this
      ensures Valid()
      ensures challenges == old(challenges) + [Challenge(old(nextId), email, otpHash, expiresAt, attempts, now)]
      ensures nextId == old(nextId) + 1
      ensures bookings == old(bookings) && sessions == old(sessions)
    {
      AppendKeepsPairwise(challenges, Challenge(nextId, email, otpHash, expiresAt, attempts, now), ChallengeIdsDiffer());
      challenges := challenges + [Challenge(nextId, email, otpHash, expiresAt, attempts, now)];
      nextId := nextId + 1;
    }

    method DeleteChallenge(id: nat)
      requires Valid()
      modifies this
      ensures Valid()
      ensures challenges == WithoutChallenge(old(challenges), id)
      ensures bookings == old(bookings) && sessions == old(sessions) && nextId == old(nextId)
    {
      FilterPairwise(challenges, ChallengeIdIsNot(id), ChallengeIdsDiffer());
      challenges := WithoutChallenge(challenges, id);
    }

    method SetAttempts(id: nat, n: int)
      requires Valid()
      modifies this
      ensures Valid()
      ensures challenges == WithAttempts(old(challenges), id, n)
      ensures bookings == old(bookings) && sessions == old(sessions) && nextId == old(nextId)
    {
      challenges := WithAttempts(challenges, id, n);
    }

    method DeleteSessionsFor(email: string)
      requires Valid()
      modifies this
      ensures Valid()
      ensures sessions == WithoutSessionsFor(old(sessions), email)
      ensures bookings == old(bookings) && challenges == old(challenges) && nextId == old(nextId)
    {
      FilterPairwise(sessions, SessionEmailIsNot(email), SessionIdsDiffer());
      sessions := WithoutSessionsFor(sessions, email);
    }

    method InsertSession(email: string, tokenHash: string, expiresAt: int)
      requires Valid()
      modifies this
      ensures Valid()
      ensures sessions == old(sessions) + [Session(old(nextId), email, tokenHash, expiresAt)]
      ensures nextId == old(nextId) + 1
      ensures bookings == old(bookings) && challenges == old(challenges)
    {
      AppendKeepsPairwise(sessions, Session(nextId, email, tokenHash, expiresAt), SessionIdsDiffer());
      sessions := sessions + [Session(nextId, email, tokenHash, expiresAt)];
      nextId := nextId + 1;
    }

    method DeleteBooking(id: string)
      requires Valid()
      modifies this
      ensures Valid()
      ensures bookings == WithoutId(old(bookings), id)
      ensures Otp() == old(Otp())
    {
      FilterPairwise(bookings, OtherId(id), DistinctIds);
      bookings := WithoutId(bookings, id);
    }

    method UpdateBooking(id: string, updates: map<string, Json>)
      requires Valid()
      modifies this
      ensures Valid()
      ensures bookings == UpdateId(old(bookings), id, updates)
      ensures Otp() == old(Otp())
    {
      UpdateKeepsUniqueIds(bookings, id, updates);
      bookings := UpdateId(bookings, id, updates);
    }

    /** `.insert(row)`; the caller has checked that the key is free. */
    method InsertBooking(b: Booking)
      requires Valid() && IndexOfId(bookings, b.id).None?
      modifies this
      ensures Valid()
      ensures bookings == old(bookings) + [b]
      ensures Otp() == old(Otp())
    {
      AppendFreshKeepsUniqueIds(bookings, b);
      bookings := bookings + [b];
    }
  }
}
