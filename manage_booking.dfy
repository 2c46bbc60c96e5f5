/** supabase/functions/manage-booking/index.ts: search, update and delete of
    a customer's bookings, keyed by nothing but the e-mail address given in
    the request. */
module ManageBooking {
  import opened Wrappers
  import opened Json
  import opened Text
  import opened Seqs
  import opened Bookings
  import opened Http
  import opened RateLimit
  import opened Store

  const MaxRequests: int := 10
  const WindowMs: int := 3600000

  const MsgRateLimited := "Too many requests. Please try again later."
  const MsgBadEmail := "Valid email is required"
  const MsgFailed := "Unable to process request"
  const MsgMissingId := "Booking ID is required"
  const MsgInaccessible := "Unable to find or access this booking"
  const MsgBadAction := "Invalid action"

  /** A character `[^\s@]` accepts. */
  predicate PlainChar(c: char)
  {
    !IsWhitespace(c) && c != '@'
  }

  /** `/^[^\s@]+@[^\s@]+\.[^\s@]+$/.test(s)`: one `@` after a non-empty
      part, a non-empty part, a dot, a non-empty rest, and no white space. */
  predicate IsEmailShaped(s: string)
  {
    exists i, j :: 0 < i < |s| && 0 < j < |s| && ShapedAt(s, i, j)
  }

  /** The `@` of the pattern at `i`, the dot it needs at `j`. */
  predicate ShapedAt(s: string, i: int, j: int)
  {
    && 0 < i && i + 1 < j && j + 1 < |s|
    && s[i] == '@' && s[j] == '.'
    && forall k :: 0 <= k < |s| && k != i ==> PlainChar(s[k])
  }

  /** `String(v)`, which `RegExp.prototype.test` applies to its argument. */
  function JsString(v: Json): string
  {
    match v
    case JNull => "null"
    case JBool(b) => if b then "true" else "false"
    case JNum(n) => if n < 0 then "-" + Decimal(-n) else Decimal(n)
    case JStr(s) => s
    case JArr(items) =>
      JoinWithCommas(seq(|items|, i requires 0 <= i < |items| =>
        if items[i].JNull? then "" else JsString(items[i])))
    case JObj(_) => "[object Object]"
  }

  /** `Array.prototype.join(',')`. */
  function JoinWithCommas(parts: seq<string>): string
  {
    if parts == [] then ""
    else if |parts| == 1 then parts[0]
    else parts[0] + "," + JoinWithCommas(parts[1..])
  }

  /** The request as the handler classifies it before touching the table. */
  datatype Command =
    | Unreadable                        // req.json(), the destructuring or `email.trim` throws
    | BadEmail
    | SearchCommand(email: string)
    | UpdateCommand(email: string, bookingId: Option<Json>, updates: Option<Json>)
    | DeleteCommand(email: string, bookingId: Option<Json>)
    | BadAction

  function Parse(body: Option<Json>): Command
  {
    match body
    case None => Unreadable
    case Some(JNull) => Unreadable
    case Some(b) => Classify(Field(b, "action"), Field(b, "email"), Field(b, "bookingId"), Field(b, "updates"))
  }

  /** `const { action, email, bookingId, updates } = body`, then the checks. */
  function Classify(action: Option<Json>, email: Option<Json>, bookingId: Option<Json>, updates: Option<Json>): Command
  {
    if !Truthy(email) || !IsEmailShaped(JsString(email.value)) then BadEmail
    else if !email.value.JStr? then Unreadable
    else
      var normalized := ToLower(Trim(email.value.s));
      if action == Some(JStr("search")) then SearchCommand(normalized)
      else if action == Some(JStr("update")) then UpdateCommand(normalized, bookingId, updates)
      else if action == Some(JStr("delete")) then DeleteCommand(normalized, bookingId)
      else BadAction
  }

  /** The `search` branch: the address's rows, newest first. */
  function Search(table: seq<Booking>, email: string): (r: seq<Booking>)
    ensures multiset(r) == multiset(WithEmail(table, email))
    ensures forall b :: b in r <==> b in table && EmailMatches(b, email)
    ensures forall b :: multiset(r)[b] == if EmailMatches(b, email) then multiset(table)[b] else 0
  {
    var rows := WithEmail(table, email);
    FilterCount(table, Matching(email));
    var r := SortNewestFirst(rows);
    assert forall b :: b in r <==> b in multiset(rows);
    r
  }

  /** The ownership check shared by `update` and `delete`. */
  datatype Access =
    | NoBookingId               // `!bookingId`
    | Inaccessible              // lookup failed, no row, or another owner
    | OwnerUnreadable           // `booking.email.toLowerCase()` throws
    | Owned(index: nat)

  /** The row belongs to the (normalised) address. */
  predicate OwnedBy(b: Booking, email: string)
  {
    OwnerEmail(b).Some? && ToLower(OwnerEmail(b).value) == email
  }

  /** The id names a row, found by the primary-key lookup. */
  predicate Names(table: seq<Booking>, bookingId: Option<Json>)
  {
    Truthy(bookingId) && bookingId.value.JStr? && IndexOfId(table, bookingId.value.s).Some?
  }

  /** Access is granted exactly for the row the id names when its lower-cased
      address is the normalised one; a missing id and an unreadable owner
      address are told apart, every other failure is the same refusal. */
  function Authorize(table: seq<Booking>, email: string, bookingId: Option<Json>): (r: Access)
    ensures r == NoBookingId <==> !Truthy(bookingId)
    ensures r == OwnerUnreadable <==>
      Names(table, bookingId) && OwnerEmail(table[IndexOfId(table, bookingId.value.s).value]).None?
    ensures r.Owned? <==>
      Names(table, bookingId) && OwnedBy(table[IndexOfId(table, bookingId.value.s).value], email)
    ensures r.Owned? ==>
      && r.index < |table| && bookingId == Some(JStr(table[r.index].id))
      && IndexOfId(table, table[r.index].id) == Some(r.index) && OwnedBy(table[r.index], email)
  {
    if !Truthy(bookingId) then NoBookingId
    else if !bookingId.value.JStr? then Inaccessible
    else match IndexOfId(table, bookingId.value.s)
      case None => Inaccessible
      case Some(i) =>
        match OwnerEmail(table[i])
        case None => OwnerUnreadable
        case Some(owner) => if ToLower(owner) != email then Inaccessible else Owned(i)
  }

  /** The response of a failed ownership check. */
  function Refusal(access: Access): Response
  {
    match access
    case NoBookingId => Error(400, MsgMissingId)
    case OwnerUnreadable => Error(500, MsgFailed)
    case _ => Error(404, MsgInaccessible)
  }

  /** The `update` branch: the table afterwards and the response. */
  function Update(table: seq<Booking>, email: string, bookingId: Option<Json>, updates: Option<Json>)
    : (seq<Booking>, Response)
  {
    match Authorize(table, email, bookingId)
    case Owned(i) =>
      if updates.Some? && updates.value.JObj? then
        (UpdateId(table, table[i].id, updates.value.fields),
         Response(200, None, BookingBody(Merge(table[i], updates.value.fields))))
      else (table, Error(500, MsgFailed))
    case access => (table, Refusal(access))
  }

  /** The `delete` branch: the table afterwards and the response. */
  function Delete(table: seq<Booking>, email: string, bookingId: Option<Json>): (seq<Booking>, Response)
  {
    match Authorize(table, email, bookingId)
    case Owned(i) => (WithoutId(table, table[i].id), Response(200, None, SuccessBody))
    case access => (table, Refusal(access))
  }

  /** The whole handler: rate-limit map, table and response. */
  function Handle(records: map<string, RateRecord>, table: seq<Booking>, req: Request, now: int)
    : (map<string, RateRecord>, seq<Booking>, Response)
  {
    if req.verb == "OPTIONS" then (records, table, Preflight())
    else
      var step := Step(records, ClientIp(req.headers), MaxRequests, WindowMs, now);
      if !step.1.allowed then (step.0, table, TooManyRequests(MsgRateLimited))
      else
        var d := Dispatch(table, Parse(req.body));
        (step.0, d.0, d.1)
  }

  /** What an admitted request does to the table and answers. */
  function Dispatch(table: seq<Booking>, command: Command): (seq<Booking>, Response)
  {
    match command
    case Unreadable => (table, Error(500, MsgFailed))
    case BadEmail => (table, Error(400, MsgBadEmail))
    case BadAction => (table, Error(400, MsgBadAction))
    case SearchCommand(e) => (table, Response(200, None, BookingsBody(Search(table, e))))
    case UpdateCommand(e, id, updates) => Update(table, e, id, updates)
    case DeleteCommand(e, id) => Delete(table, e, id)
  }

  /** `Deno.serve` callback of manage-booking. */
  method HandleRequest(limiter: RateLimiter, db: Database, req: Request, now: int) returns (resp: Response)
    requires db.Valid()
    modifies limiter, db
    ensures db.Valid()
    ensures (limiter.records, db.bookings, resp) == Handle(old(limiter.records), old(db.bookings), req, now)
    ensures db.Otp() == old(db.Otp())
  {
    if req.verb == "OPTIONS" {
      return Preflight();
    }
    var decision := limiter.Check(ClientIp(req.headers), MaxRequests, WindowMs, now);
    if !decision.allowed {
      return TooManyRequests(MsgRateLimited);
    }
    resp := Execute(db, Parse(req.body));
  }

  /** The admitted request against the table. */
  method Execute(db: Database, command: Command) returns (resp: Response)
    requires db.Valid()
    modifies db
    ensures db.Valid()
    ensures (db.bookings, resp) == Dispatch(old(db.bookings), command)
    ensures db.Otp() == old(db.Otp())
  {
    match command
    case Unreadable =>
      resp := Error(500, MsgFailed);
    case BadEmail =>
      resp := Error(400, MsgBadEmail);
    case BadAction =>
      resp := Error(400, MsgBadAction);
    case SearchCommand(email) =>
      resp := Response(200, None, BookingsBody(Search(db.bookings, email)));
    case UpdateCommand(email, bookingId, updates) =>
      var access := Authorize(db.bookings, email, bookingId);
      if !access.Owned? {
        resp := Refusal(access);
      } else if updates.Some? && updates.value.JObj? {
        var before := db.bookings[access.index];
        db.UpdateBooking(before.id, updates.value.fields);
        resp := Response(200, None, BookingBody(Merge(before, updates.value.fields)));
      } else {
        resp := Error(500, MsgFailed);
      }
    case DeleteCommand(email, bookingId) =>
      var access := Authorize(db.bookings, email, bookingId);
      if !access.Owned? {
        resp := Refusal(access);
      } else {
        db.DeleteBooking(db.bookings[access.index].id);
        resp := Response(200, None, SuccessBody);
      }
  }

  // ----- Properties -----

  /** An address the pattern accepts has no white space, so the `trim()` of
      the normalisation never changes it. */
  lemma EmailShapeIsTrimmed(s: string)
    requires IsEmailShaped(s)
    ensures Trim(s) == s
  {
    var i, j :| 0 < i < |s| && 0 < j < |s| && ShapedAt(s, i, j);
    forall k | 0 <= k < |s| ensures !IsWhitespace(s[k]) {
      if k != i { assert PlainChar(s[k]); }
    }
    TrimWithoutWhitespace(s);
  }

  /** An address the pattern accepts has exactly one `@`, neither first nor
      last. */
  lemma EmailShapeHasOneAt(s: string)
    requires IsEmailShaped(s)
    ensures exists i :: 0 < i < |s| - 1 && s[i] == '@' && forall k :: 0 <= k < |s| && s[k] == '@' ==> k == i
  {
    var i, j :| 0 < i < |s| && 0 < j < |s| && ShapedAt(s, i, j);
    assert forall k :: 0 <= k < |s| && s[k] == '@' ==> k == i by {
      forall k | 0 <= k < |s| && s[k] == '@' ensures k == i {
        assert !PlainChar(s[k]);
      }
    }
  }

  /** The pattern on three addresses: accepted with a dotted domain, refused
      without a dot after the `@`, refused with two `@`. */
  lemma EmailShapeExamples()
    ensures IsEmailShaped("anna@example.se")
    ensures !IsEmailShaped("anna@example")
    ensures !IsEmailShaped("a@@b.se")
  {
    var s := "anna@example.se";
    assert ShapedAt(s, 4, 12);
    var t := "anna@example";
    assert forall j :: 0 <= j < |t| ==> t[j] != '.';
    var u := "a@@b.se";
    assert forall i :: 0 < i < |u| && u[i] == '@' ==> (i == 1 || i == 2);
    assert !PlainChar(u[1]) && !PlainChar(u[2]);
  }

  /** The refusals that need no table: a missing address or one the
      pattern rejects, and an unknown action. */
  lemma ClassifyRefusals(action: Option<Json>, email: Option<Json>, bookingId: Option<Json>, updates: Option<Json>)
    ensures var c := Classify(action, email, bookingId, updates);
      && (c == BadEmail <==> !Truthy(email) || !IsEmailShaped(JsString(email.value)))
      && (c == BadAction <==>
            && Truthy(email) && IsEmailShaped(JsString(email.value)) && email.value.JStr?
            && action != Some(JStr("search")) && action != Some(JStr("update")) && action != Some(JStr("delete")))
      && (c.UpdateCommand? ==> c.bookingId == bookingId && c.updates == updates)
      && (c.DeleteCommand? ==> c.bookingId == bookingId)
  {
  }

  /** Each of those refusals, and `update` or `delete` without a booking id,
      answers 400 and leaves the table as it was. */
  lemma RefusalsKeepTable(table: seq<Booking>, email: string, bookingId: Option<Json>, updates: Option<Json>)
    ensures Dispatch(table, BadEmail) == (table, Error(400, MsgBadEmail))
    ensures Dispatch(table, BadAction) == (table, Error(400, MsgBadAction))
    ensures !Truthy(bookingId) ==>
      && Dispatch(table, UpdateCommand(email, bookingId, updates)) == (table, Error(400, MsgMissingId))
      && Dispatch(table, DeleteCommand(email, bookingId)) == (table, Error(400, MsgMissingId))
  {
  }

  /** Search answers come newest first. */
  lemma SearchIsNewestFirst(table: seq<Booking>, email: string)
    ensures NewestFirst(Search(table, email))
  {
    SortIsNewestFirst(WithEmail(table, email));
  }

  /** A row of another address is refused exactly as an id that does not
      exist, and nothing changes: the answer does not tell the two apart. */
  lemma UniformRefusal(table: seq<Booking>, email: string, i: nat, missing: string,
                       updates: Option<Json>, updates': Option<Json>)
    requires i < |table| && table[i].id != "" && OwnerEmail(table[i]).Some? && !OwnedBy(table[i], email)
    requires UniqueIds(table)
    requires missing != "" && forall j :: 0 <= j < |table| ==> table[j].id != missing
    ensures var refused := (table, Error(404, MsgInaccessible));
      && Update(table, email, Some(JStr(table[i].id)), updates) == refused
      && Update(table, email, Some(JStr(missing)), updates') == refused
      && Delete(table, email, Some(JStr(table[i].id))) == refused
      && Delete(table, email, Some(JStr(missing))) == refused
  {
    IndexOfUniqueId(table, i);
  }

  /** Deleting an owned row removes that row and keeps every other row in
      order. */
  lemma DeleteOwnedRow(table: seq<Booking>, email: string, i: nat)
    requires UniqueIds(table) && i < |table| && table[i].id != "" && OwnedBy(table[i], email)
    ensures Delete(table, email, Some(JStr(table[i].id))) == (table[..i] + table[i + 1..], Response(200, None, SuccessBody))
  {
    IndexOfUniqueId(table, i);
    DeleteRemovesRow(table, table[i].id, i);
  }

  /** Updating an owned row merges the given columns into that row only,
      and the answer carries the row as now stored, with its id and creation
      time unchanged. */
  lemma UpdateOwnedRow(table: seq<Booking>, email: string, i: nat, updates: map<string, Json>)
    requires UniqueIds(table) && i < |table| && table[i].id != "" && OwnedBy(table[i], email)
    ensures var u := Update(table, email, Some(JStr(table[i].id)), Some(JObj(updates)));
      && u.0 == table[i := Merge(table[i], updates)]
      && u.1 == Response(200, None, BookingBody(u.0[i]))
      && u.0[i].id == table[i].id && u.0[i].createdAt == table[i].createdAt
      && forall k :: k in updates && k != "id" && k != "created_at" ==> u.0[i].columns[k] == updates[k]
  {
    IndexOfUniqueId(table, i);
    UpdateChangesRow(table, table[i].id, updates, i);
  }

  /** `table'` is `table` with one row of the address deleted or changed in
      place under its own id. */
  ghost predicate ChangedOneRowOf(table: seq<Booking>, table': seq<Booking>, email: string)
  {
    exists i :: 0 <= i < |table| && OwnedBy(table[i], email) &&
      (table' == table[..i] + table[i + 1..] ||
       (|table'| == |table| && table'[i].id == table[i].id
        && forall j :: 0 <= j < |table| && j != i ==> table'[j] == table[j]))
  }

  lemma UpdateChangesOnlyOwnedRow(table: seq<Booking>, email: string, bookingId: Option<Json>, updates: Option<Json>)
    requires UniqueIds(table)
    ensures var t' := Update(table, email, bookingId, updates).0;
      t' == table || ChangedOneRowOf(table, t', email)
  {
    var access := Authorize(table, email, bookingId);
    if access.Owned? && updates.Some? && updates.value.JObj? {
      var i := access.index;
      UpdateOwnedRow(table, email, i, updates.value.fields);
      var t' := Update(table, email, bookingId, updates).0;
      assert |t'| == |table| && t'[i].id == table[i].id;
      assert forall j :: 0 <= j < |table| && j != i ==> t'[j] == table[j];
    }
  }

  lemma DeleteChangesOnlyOwnedRow(table: seq<Booking>, email: string, bookingId: Option<Json>)
    requires UniqueIds(table)
    ensures var t' := Delete(table, email, bookingId).0;
      t' == table || ChangedOneRowOf(table, t', email)
  {
    var access := Authorize(table, email, bookingId);
    if access.Owned? {
      DeleteOwnedRow(table, email, access.index);
    }
  }

  /** The only change a request can make is to one row of the address it
      names; every other request leaves the table as it was. */
  lemma HandleChangesOnlyOwnedRow(records: map<string, RateRecord>, table: seq<Booking>, req: Request, now: int)
    requires UniqueIds(table)
    ensures var h := Handle(records, table, req, now);
      var c := Parse(req.body);
      h.1 == table || ((c.UpdateCommand? || c.DeleteCommand?) && ChangedOneRowOf(table, h.1, c.email))
  {
    DispatchChangesOnlyOwnedRow(table, Parse(req.body));
  }

  lemma DispatchChangesOnlyOwnedRow(table: seq<Booking>, c: Command)
    requires UniqueIds(table)
    ensures var t' := Dispatch(table, c).0;
      t' == table || ((c.UpdateCommand? || c.DeleteCommand?) && ChangedOneRowOf(table, t', c.email))
  {
    match c
    case UpdateCommand(e, id, updates) => UpdateChangesOnlyOwnedRow(table, e, id, updates);
    case DeleteCommand(e, id) => DeleteChangesOnlyOwnedRow(table, e, id);
    case _ =>
  }

  /** Fields other than the four the handler destructures are never read. */
  lemma ParseIgnoresOtherFields(fields: map<string, Json>, key: string, v: Json)
    requires key !in {"action", "email", "bookingId", "updates"}
    ensures Parse(Some(JObj(fields[key := v]))) == Parse(Some(JObj(fields)))
  {
    var b := JObj(fields);
    var b' := JObj(fields[key := v]);
    assert Field(b', "email") == Field(b, "email");
    assert Field(b', "action") == Field(b, "action");
    assert Field(b', "bookingId") == Field(b, "bookingId");
    assert Field(b', "updates") == Field(b, "updates");
  }

  /** No session is consulted: a `sessionToken` field in the body or an
      `authorization` header changes nothing, so the address alone opens a
      booking. */
  lemma SessionTokenIgnored(records: map<string, RateRecord>, table: seq<Booking>, req: Request, now: int,
                            fields: map<string, Json>, token: Json, auth: string)
    requires req.body == Some(JObj(fields))
    ensures var req' := req.(body := Some(JObj(fields["sessionToken" := token])),
                            headers := req.headers["authorization" := auth]);
      Handle(records, table, req', now) == Handle(records, table, req, now)
  {
    var req' := req.(body := Some(JObj(fields["sessionToken" := token])),
                     headers := req.headers["authorization" := auth]);
    assert ClientIp(req'.headers) == ClientIp(req.headers);
    ParseIgnoresOtherFields(fields, "sessionToken", token);
  }

  /** A refused request changes nothing in the table, whatever it asks. */
  lemma RateLimitedTouchesNothing(records: map<string, RateRecord>, table: seq<Booking>, req: Request, now: int)
    requires req.verb != "OPTIONS"
    requires !Step(records, ClientIp(req.headers), MaxRequests, WindowMs, now).1.allowed
    ensures var h := Handle(records, table, req, now);
      h.1 == table && h.2 == Response(429, Some(RetryAfterSeconds), ErrorBody(MsgRateLimited))
  {
  }

  // ----- The wildcard search -----

  /** The search as written, `.ilike('email', normalizedEmail)`. */
  function SearchAsWritten(table: seq<Booking>, email: string): (r: seq<Booking>)
    ensures multiset(r) == multiset(WithEmailLike(table, email))
    ensures forall b :: multiset(r)[b] == if EmailLike(b, email) then multiset(table)[b] else 0
  {
    FilterCount(table, LikeMatching(email));
    SortNewestFirst(WithEmailLike(table, email))
  }

  lemma LowerOfLower(s: string)
    requires forall i :: 0 <= i < |s| ==> !IsUpper(s[i])
    ensures ToLower(s) == s
  {
  }

  /** `%@%.%` matches every address the pattern accepts, in any case. */
  lemma WildcardMatchesEveryAddress(s: string)
    requires IsEmailShaped(s)
    ensures Like(ToLower(s), "%@%.%")
  {
    var i, j :| 0 < i < |s| && 0 < j < |s| && ShapedAt(s, i, j);
    var t := ToLower(s);
    assert t[i] == '@' && t[j] == '.';
    var mid := t[i + 1..j];
    var tail := t[j + 1..];
    assert t == t[..i] + (['@'] + (mid + (['.'] + tail)));
    LikeAnyDotted(t[..i], mid, tail);
  }

  /** `%@%.%` accepts any text made of a run, an `@`, a run, a dot and a run. */
  lemma LikeAnyDotted(head: string, mid: string, tail: string)
    ensures Like(head + (['@'] + (mid + (['.'] + tail))), "%@%.%")
  {
    var dotted := ['.'] + "%";
    var at := ['@'] + ("%" + dotted);
    LikeAnyAfterDot(tail);
    LikeSkip(mid, ['.'] + tail, dotted);
    LikeLiteralStep('@', mid + (['.'] + tail), "%" + dotted);
    LikeSkip(head, ['@'] + (mid + (['.'] + tail)), at);
    assert ['%'] + at == "%@%.%";
  }

  /** `.%` accepts a dot followed by any run. */
  lemma LikeAnyAfterDot(tail: string)
    ensures Like(['.'] + tail, ['.'] + "%")
  {
    LikeSkip(tail, "", "");
    assert tail + "" == tail && ['%'] + "" == "%";
    LikeLiteralStep('.', tail, "%");
  }

  /** An address the pattern accepts and `LIKE` reads as "anything with an
      `@` and a later dot". */
  const WildcardAddress: string := "%@%.%"

  /** `%@%.%` passes the address check and the normalisation keeps it. */
  lemma WildcardAddressAccepted()
    ensures IsEmailShaped(WildcardAddress) && ToLower(Trim(WildcardAddress)) == WildcardAddress
  {
    var q := WildcardAddress;
    assert ShapedAt(q, 1, 3);
    EmailShapeIsTrimmed(q);
    LowerOfLower(q);
  }

  /** The search as written for `%@%.%` returns every row whose owner address
      the pattern accepts. */
  lemma WildcardSearchReturnsAll(table: seq<Booking>)
    ensures forall b :: b in table && OwnerEmail(b).Some? && IsEmailShaped(OwnerEmail(b).value) ==>
      b in SearchAsWritten(table, WildcardAddress)
  {
    var q := WildcardAddress;
    LowerOfLower(q);
    var rows := WithEmailLike(table, q);
    forall b | b in table && OwnerEmail(b).Some? && IsEmailShaped(OwnerEmail(b).value)
      ensures b in rows
    {
      WildcardMatchesEveryAddress(OwnerEmail(b).value);
      assert EmailLike(b, q);
    }
    assert forall b :: b in rows ==> b in multiset(SearchAsWritten(table, q));
  }

  /** For `%@%.%` the search as written returns every row of a table of
      well-formed addresses, while the intended search returns none. */
  lemma WildcardSearchIgnoresOwner(table: seq<Booking>)
    requires forall b :: b in table ==>
      OwnerEmail(b).Some? && IsEmailShaped(OwnerEmail(b).value) && ToLower(OwnerEmail(b).value) != WildcardAddress
    ensures multiset(SearchAsWritten(table, WildcardAddress)) == multiset(table)
    ensures Search(table, WildcardAddress) == []
  {
    var q := WildcardAddress;
    LowerOfLower(q);
    forall j | 0 <= j < |table| ensures LikeMatching(q)(table[j]) {
      assert table[j] in table;
      WildcardMatchesEveryAddress(OwnerEmail(table[j]).value);
    }
    FilterKeepsAll(table, LikeMatching(q));
    FilterKeepsNone(table, Matching(q));
    assert multiset(Search(table, q)) == multiset{};
  }

  /** Two customers' bookings. */
  const TwoCustomers: seq<Booking> :=
    [Booking("1", 1, map["email" := JStr("a@b.se")]), Booking("2", 2, map["email" := JStr("c@d.se")])]

  /** On `TwoCustomers` the search as written for `%@%.%` returns both rows,
      the intended search neither. */
  lemma WildcardSearchLeaks()
    ensures |SearchAsWritten(TwoCustomers, WildcardAddress)| == 2
    ensures Search(TwoCustomers, WildcardAddress) == []
  {
    var table := TwoCustomers;
    forall b | b in table
      ensures OwnerEmail(b).Some? && IsEmailShaped(OwnerEmail(b).value) && ToLower(OwnerEmail(b).value) != WildcardAddress
    {
      var e := OwnerEmail(b).value;
      assert |e| == 6 && ShapedAt(e, 1, 3);
    }
    WildcardSearchIgnoresOwner(table);
    assert |multiset(SearchAsWritten(table, WildcardAddress))| == |multiset(table)|;
  }

  /** Without `%`, `*`, `_` or a backslash in the address, the search as
      written and the intended search return the same rows. */
  lemma LikeSearchAgreesWithoutWildcards(table: seq<Booking>, email: string)
    requires forall i :: 0 <= i < |email| ==> !IsLikeSpecial(email[i])
    ensures WithEmailLike(table, email) == WithEmail(table, email)
  {
    var p := ToLower(email);
    forall i | 0 <= i < |p| ensures !IsLikeSpecial(p[i]) {
      assert p[i] == LowerChar(email[i]);
    }
    forall b | b in table ensures LikeMatching(email)(b) == Matching(email)(b) {
      if OwnerEmail(b).Some? {
        LikeLiteral(ToLower(OwnerEmail(b).value), p);
      }
    }
    FilterAgree(table, LikeMatching(email), Matching(email));
  }
}
