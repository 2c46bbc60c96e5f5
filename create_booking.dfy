/** supabase/functions/create-booking/index.ts: validation of a booking
    request against `createBookingSchema` and the row it inserts. */
module CreateBooking {
  import opened Wrappers
  import opened Json
  import opened Text
  import opened Seqs
  import opened Bookings
  import opened Http
  import opened RateLimit
  import opened Store
  import ManageBooking

  const MaxRequests: int := 10
  const WindowMs: int := 3600000

  const MsgRateLimited := "Too many requests. Please try again later."
  const MsgInvalid := "Invalid booking data"
  const MsgInsertFailed := "Unable to create booking"
  const MsgFailed := "Unable to process request"

  const MaxName: nat := 100
  const MaxEmail: nat := 255
  const MinPhone: nat := 3
  const MaxPhone: nat := 20
  const MaxServices: nat := 10
  const MaxServiceItem: nat := 120
  const MaxService: nat := 500
  const MaxMessage: nat := 1000

  /** The keys `.strict()` admits. */
  const AllowedKeys: set<string> := {"name", "email", "phone", "services", "service", "date", "time", "message"}

  /** The schema's output. `message` is None when absent or null. */
  datatype BookingInput = BookingInput(
    name: string,
    email: string,
    phone: string,
    services: Option<seq<string>>,
    service: Option<string>,
    date: string,
    time: string,
    message: Option<string>)

  /** The rule `z.string().trim().min(lo).max(hi)` checks: a string whose
      trimmed form is within the bounds. */
  predicate TextRule(v: Option<Json>, lo: nat, hi: nat)
  {
    v.Some? && v.value.JStr? && lo <= |Trim(v.value.s)| <= hi
  }

  /** The rule of `z.array(z.string().trim().min(1).max(120)).min(1).max(10)`. */
  predicate ListRule(v: Json)
  {
    v.JArr? && 1 <= |v.items| <= MaxServices && forall i :: 0 <= i < |v.items| ==> IsTrimmedItem(v.items[i])
  }

  /** The rule of `z.string().email().max(255)`, checked before the transform. */
  predicate EmailRule(v: Option<Json>, isEmail: string -> bool)
  {
    v.Some? && v.value.JStr? && isEmail(v.value.s) && |v.value.s| <= MaxEmail
  }

  /** `z.string().trim().min(lo).max(hi)`: the trimmed string, within bounds. */
  function TrimmedText(v: Option<Json>, lo: nat, hi: nat): (r: Option<string>)
    ensures r.Some? <==> TextRule(v, lo, hi)
    ensures r.Some? ==> r.value == Trim(v.value.s) && lo <= |r.value| <= hi && IsTrimmed(r.value)
  {
    match v
    case Some(JStr(s)) =>
      var t := Trim(s);
      if lo <= |t| <= hi then Some(t) else None
    case _ => None
  }

  /** The same with `.optional()`: Some(None) when the key is absent. */
  function OptionalText(v: Option<Json>, lo: nat, hi: nat): (r: Option<Option<string>>)
    ensures r == Some(None) <==> v.None?
    ensures r.Some? && r.value.Some? <==> TextRule(v, lo, hi)
    ensures r.Some? && r.value.Some? ==>
      r.value.value == Trim(v.value.s) && lo <= |r.value.value| <= hi && IsTrimmed(r.value.value)
  {
    if v.None? then Some(None)
    else match TrimmedText(v, lo, hi)
      case None => None
      case Some(t) => Some(Some(t))
  }

  predicate IsTrimmedItem(v: Json)
  {
    v.JStr? && 1 <= |Trim(v.s)| <= MaxServiceItem
  }

  /** The trimmed text of one list item. */
  function ItemText(v: Json): string
  {
    if v.JStr? then Trim(v.s) else ""
  }

  /** `z.array(z.string().trim().min(1).max(120)).min(1).max(10).optional()`. */
  function ServiceList(v: Option<Json>): (r: Option<Option<seq<string>>>)
    ensures r.Some? && r.value.Some? <==> v.Some? && ListRule(v.value)
    ensures r.Some? && r.value.Some? ==>
      && |r.value.value| == |v.value.items|
      && (forall i :: 0 <= i < |r.value.value| ==> r.value.value[i] == Trim(v.value.items[i].s))
      && 1 <= |r.value.value| <= MaxServices
      && forall i :: 0 <= i < |r.value.value| ==>
           1 <= |r.value.value[i]| <= MaxServiceItem && IsTrimmed(r.value.value[i])
    ensures r == Some(None) <==> v.None?
  {
    match v
    case None => Some(None)
    case Some(JArr(items)) =>
      if 1 <= |items| <= MaxServices && forall i :: 0 <= i < |items| ==> IsTrimmedItem(items[i]) then
        var names := seq(|items|, i requires 0 <= i < |items| => ItemText(items[i]));
        assert forall i :: 0 <= i < |names| ==> 1 <= |names[i]| <= MaxServiceItem && IsTrimmed(names[i]) by {
          forall i | 0 <= i < |names| ensures 1 <= |names[i]| <= MaxServiceItem && IsTrimmed(names[i]) {
            assert IsTrimmedItem(items[i]) && names[i] == Trim(items[i].s);
          }
        }
        Some(Some(names))
      else None
    case Some(_) => None
  }

  /** `z.string().trim().max(1000).nullable().optional()`. */
  function MessageText(v: Option<Json>): (r: Option<Option<string>>)
    ensures r == Some(None) <==> v.None? || v == Some(JNull)
    ensures r.Some? && r.value.Some? <==> TextRule(v, 0, MaxMessage)
    ensures r.Some? && r.value.Some? ==>
      r.value.value == Trim(v.value.s) && |r.value.value| <= MaxMessage && IsTrimmed(r.value.value)
  {
    match v
    case None => Some(None)
    case Some(JNull) => Some(None)
    case _ =>
      match TrimmedText(v, 0, MaxMessage)
      case None => None
      case Some(t) => Some(Some(t))
  }

  /** `/^\d{4}-\d{2}-\d{2}$/`: the shape of a date only. */
  predicate IsDateShaped(s: string)
  {
    && |s| == 10 && s[4] == '-' && s[7] == '-'
    && forall i :: 0 <= i < 10 && i != 4 && i != 7 ==> IsAsciiDigit(s[i])
  }

  /** `/^\d{2}:\d{2}$/`: the shape of a time only. */
  predicate IsTimeShaped(s: string)
  {
    |s| == 5 && s[2] == ':' && forall i :: 0 <= i < 5 && i != 2 ==> IsAsciiDigit(s[i])
  }

  function ShapedText(v: Option<Json>, shaped: string -> bool): (r: Option<string>)
    ensures r.Some? <==> v.Some? && v.value.JStr? && shaped(v.value.s)
    ensures r.Some? ==> r.value == v.value.s
  {
    match v
    case Some(JStr(s)) => if shaped(s) then Some(s) else None
    case _ => None
  }

  /** `z.string().email().max(255).transform((v) => v.trim().toLowerCase())`. */
  function EmailText(v: Option<Json>, isEmail: string -> bool): (r: Option<string>)
    ensures r.Some? <==> EmailRule(v, isEmail)
    ensures r.Some? ==> r.value == ToLower(Trim(v.value.s)) && IsLowerCase(r.value) && IsTrimmed(r.value)
  {
    match v
    case Some(JStr(s)) =>
      if isEmail(s) && |s| <= MaxEmail then
        NormalizedIsStable(s);
        Some(ToLower(Trim(s)))
      else None
    case _ => None
  }

  predicate IsLowerCase(s: string)
  {
    forall i :: 0 <= i < |s| ==> !IsUpper(s[i])
  }

  /** The normalised address is lower-case and trimmed. */
  lemma NormalizedIsStable(s: string)
    ensures IsLowerCase(ToLower(Trim(s))) && IsTrimmed(ToLower(Trim(s)))
  {
    ToLowerKeepsTrimmed(Trim(s));
  }

  /** What the schema guarantees of its output. */
  ghost predicate WellFormed(input: BookingInput)
  {
    && 1 <= |input.name| <= MaxName && IsTrimmed(input.name)
    && IsLowerCase(input.email) && IsTrimmed(input.email)
    && MinPhone <= |input.phone| <= MaxPhone && IsTrimmed(input.phone)
    && (input.services.Some? ==>
         && 1 <= |input.services.value| <= MaxServices
         && forall i :: 0 <= i < |input.services.value| ==>
              1 <= |input.services.value[i]| <= MaxServiceItem
              && IsTrimmed(input.services.value[i]))
    && (input.service.Some? ==> 1 <= |input.service.value| <= MaxService && IsTrimmed(input.service.value))
    && (input.services.Some? || input.service.Some?)
    && IsDateShaped(input.date) && IsTimeShaped(input.time)
    && (input.message.Some? ==> |input.message.value| <= MaxMessage && IsTrimmed(input.message.value))
  }

  /** `createBookingSchema.safeParse(body)`: the output on success. */
  function Validate(body: Json, isEmail: string -> bool): (r: Option<BookingInput>)
    ensures r.Some? ==> WellFormed(r.value)
    ensures r.Some? ==> body.JObj? && body.fields.Keys <= AllowedKeys
  {
    if !body.JObj? || !(body.fields.Keys <= AllowedKeys) then None
    else
      var name := TrimmedText(Field(body, "name"), 1, MaxName);
      var email := EmailText(Field(body, "email"), isEmail);
      var phone := TrimmedText(Field(body, "phone"), MinPhone, MaxPhone);
      var services := ServiceList(Field(body, "services"));
      var service := OptionalText(Field(body, "service"), 1, MaxService);
      var date := ShapedText(Field(body, "date"), IsDateShaped);
      var time := ShapedText(Field(body, "time"), IsTimeShaped);
      var message := MessageText(Field(body, "message"));
      if name.None? || email.None? || phone.None? || services.None? || service.None?
         || date.None? || time.None? || message.None? then None
      // superRefine: a service list or a single service is required
      else if services.value.None? && service.value.None? then None
      else Some(BookingInput(name.value, email.value, phone.value, services.value, service.value,
                             date.value, time.value, message.value))
  }

  /** `Array.prototype.join(', ')`. */
  function JoinWithComma(parts: seq<string>): string
  {
    if parts == [] then ""
    else if |parts| == 1 then parts[0]
    else parts[0] + ", " + JoinWithComma(parts[1..])
  }

  /** `input.services?.length ? input.services.join(', ') : input.service!`. */
  function ServiceString(input: BookingInput): string
    requires input.services.Some? || input.service.Some?
  {
    if input.services.Some? && |input.services.value| > 0 then JoinWithComma(input.services.value)
    else if input.service.Some? then input.service.value
    else ""
  }

  /** The row handed to `.insert(...)`. */
  function InsertedRow(input: BookingInput): map<string, Json>
    requires input.services.Some? || input.service.Some?
  {
    map[
      "name" := JStr(input.name),
      "email" := JStr(input.email),
      "phone" := JStr(input.phone),
      "service" := JStr(ServiceString(input)),
      "date" := JStr(input.date),
      "time" := JStr(input.time),
      "message" := if input.message.Some? then JStr(input.message.value) else JNull,
      "status" := JStr("pending"),
      "payment_method" := JStr("store"),
      "payment_status" := JStr("pending")]
  }

  /** The whole handler: rate-limit map, table and response. `newId` is the
      key the database would assign, `now` its `created_at`. */
  function Handle(records: map<string, RateRecord>, table: seq<Booking>, req: Request, now: int,
                  isEmail: string -> bool, newId: string)
    : (map<string, RateRecord>, seq<Booking>, Response)
  {
    if req.verb == "OPTIONS" then (records, table, Preflight())
    else
      var step := Step(records, ClientIp(req.headers), MaxRequests, WindowMs, now);
      if !step.1.allowed then (step.0, table, TooManyRequests(MsgRateLimited))
      else
        var c := Create(table, req.body, now, isEmail, newId);
        (step.0, c.0, c.1)
  }

  /** What an admitted request does to the table and answers. */
  function Create(table: seq<Booking>, body: Option<Json>, now: int, isEmail: string -> bool, newId: string)
    : (seq<Booking>, Response)
  {
    if body.None? then (table, Error(500, MsgFailed))
    else match Validate(body.value, isEmail)
      case None => (table, Error(400, MsgInvalid))
      case Some(input) =>
        if IndexOfId(table, newId).Some? then (table, Error(500, MsgInsertFailed))
        else (table + [Booking(newId, now, InsertedRow(input))], Response(200, None, CreatedBody(newId)))
  }

  /** `Deno.serve` callback of create-booking. */
  method HandleRequest(limiter: RateLimiter, db: Database, req: Request, now: int,
                       isEmail: string -> bool, newId: string) returns (resp: Response)
    requires db.Valid()
    modifies limiter, db
    ensures db.Valid()
    ensures (limiter.records, db.bookings, resp) == Handle(old(limiter.records), old(db.bookings), req, now, isEmail, newId)
    ensures db.Otp() == old(db.Otp())
  {
    if req.verb == "OPTIONS" {
      return Preflight();
    }
    var decision := limiter.Check(ClientIp(req.headers), MaxRequests, WindowMs, now);
    if !decision.allowed {
      return TooManyRequests(MsgRateLimited);
    }
    if req.body.None? {
      return Error(500, MsgFailed);
    }
    var parsed := Validate(req.body.value, isEmail);
    if parsed.None? {
      return Error(400, MsgInvalid);
    }
    if IndexOfId(db.bookings, newId).Some? {
      return Error(500, MsgInsertFailed);
    }
    db.InsertBooking(Booking(newId, now, InsertedRow(parsed.value)));
    resp := Response(200, None, CreatedBody(newId));
  }

  // ----- Properties -----

  /** Every rule of `createBookingSchema`, read off the raw body: `.strict()`,
      each field's rule (an optional field may be absent, the message may also
      be null), and the refinement that a service list or a service is given. */
  predicate Conforms(body: Json, isEmail: string -> bool)
  {
    && body.JObj? && body.fields.Keys <= AllowedKeys
    && TextRule(Field(body, "name"), 1, MaxName)
    && EmailRule(Field(body, "email"), isEmail)
    && TextRule(Field(body, "phone"), MinPhone, MaxPhone)
    && (Field(body, "services").None? || ListRule(Field(body, "services").value))
    && (Field(body, "service").None? || TextRule(Field(body, "service"), 1, MaxService))
    && Field(body, "date").Some? && Field(body, "date").value.JStr? && IsDateShaped(Field(body, "date").value.s)
    && Field(body, "time").Some? && Field(body, "time").value.JStr? && IsTimeShaped(Field(body, "time").value.s)
    && (Field(body, "message").None? || Field(body, "message") == Some(JNull)
        || TextRule(Field(body, "message"), 0, MaxMessage))
    && (Field(body, "services").Some? || Field(body, "service").Some?)
  }

  /** `safeParse` succeeds exactly on the bodies that meet every rule. */
  lemma ValidateConforms(body: Json, isEmail: string -> bool)
    ensures Validate(body, isEmail).Some? <==> Conforms(body, isEmail)
  {
  }

  /** On success the output is the body's own values: trimmed texts, the
      trimmed and lower-cased address, the trimmed list items, the date and
      time verbatim, and no message exactly when it was absent or null. */
  lemma ValidateOutput(body: Json, isEmail: string -> bool)
    requires Validate(body, isEmail).Some?
    ensures var input := Validate(body, isEmail).value;
      var services := Field(body, "services"); var service := Field(body, "service");
      var message := Field(body, "message");
      && input.name == Trim(Field(body, "name").value.s)
      && input.email == ToLower(Trim(Field(body, "email").value.s))
      && input.phone == Trim(Field(body, "phone").value.s)
      && (input.services.Some? <==> services.Some?)
      && (input.services.Some? ==>
            && |input.services.value| == |services.value.items|
            && forall i :: 0 <= i < |services.value.items| ==> input.services.value[i] == Trim(services.value.items[i].s))
      && (input.service.Some? <==> service.Some?)
      && (input.service.Some? ==> input.service.value == Trim(service.value.s))
      && input.date == Field(body, "date").value.s && input.time == Field(body, "time").value.s
      && (input.message.None? <==> message.None? || message == Some(JNull))
      && (input.message.Some? ==> input.message.value == Trim(message.value.s))
  {
  }

  /** `.strict()`: one key outside the schema rejects the whole body. */
  lemma StrictRejectsUnknownKey(body: Json, isEmail: string -> bool, key: string)
    requires body.JObj? && key in body.fields && key !in AllowedKeys
    ensures Validate(body, isEmail).None?
  {
  }

  /** Only the shapes of date and time are checked: a thirteenth month, a
      45th day and the time 99:99 pass, a one-digit hour does not. */
  lemma DateTimeShapeOnly()
    ensures IsDateShaped("2024-13-45") && IsTimeShaped("99:99") && !IsTimeShaped("9:30")
  {
  }

  lemma {:induction false} JoinLength(parts: seq<string>, lo: nat, hi: nat)
    requires |parts| >= 1
    requires forall i :: 0 <= i < |parts| ==> lo <= |parts[i]| <= hi
    ensures lo <= |JoinWithComma(parts)| <= |parts| * hi + 2 * (|parts| - 1)
  {
    if |parts| > 1 {
      var tail := parts[1..];
      assert forall i :: 0 <= i < |tail| ==> tail[i] == parts[i + 1];
      JoinLength(tail, lo, hi);
    }
  }

  /** The stored `service` column is never empty and holds at most ten items
      of 120 characters and their nine separators, or one 500-character
      service. */
  lemma ServiceStringBounds(input: BookingInput)
    requires WellFormed(input)
    ensures 1 <= |ServiceString(input)| <= MaxServices * MaxServiceItem + 2 * (MaxServices - 1)
  {
    if input.services.Some? {
      var parts := input.services.value;
      JoinLength(parts, 1, MaxServiceItem);
      assert |parts| * MaxServiceItem <= MaxServices * MaxServiceItem;
    }
  }

  /** A one-item list is stored as that item, and a list wins over a single
      `service`. */
  lemma ServiceStringChoice(input: BookingInput)
    requires input.services.Some? && |input.services.value| >= 1
    ensures ServiceString(input) == JoinWithComma(input.services.value)
    ensures |input.services.value| == 1 ==> ServiceString(input) == input.services.value[0]
  {
  }

  /** The table changes only when the answer is "created", and then by one
      new row under the fresh key holding the validated input. */
  lemma CreateOutcome(table: seq<Booking>, body: Option<Json>, now: int, isEmail: string -> bool, newId: string)
    ensures var c := Create(table, body, now, isEmail, newId);
      && (c.0 != table <==> c.1.body.CreatedBody?)
      && (c.1.body.CreatedBody? ==>
           && body.Some? && Validate(body.value, isEmail).Some? && IndexOfId(table, newId).None?
           && c.0 == table + [Booking(newId, now, InsertedRow(Validate(body.value, isEmail).value))]
           && c.1 == Response(200, None, CreatedBody(newId)))
  {
    var c := Create(table, body, now, isEmail, newId);
    if c.1.body.CreatedBody? {
      assert |c.0| == |table| + 1;
    }
  }

  /** An admitted body the schema rejects answers 400 and inserts nothing. */
  lemma InvalidBodyRejected(table: seq<Booking>, body: Json, now: int, isEmail: string -> bool, newId: string)
    requires Validate(body, isEmail).None?
    ensures Create(table, Some(body), now, isEmail, newId) == (table, Error(400, MsgInvalid))
  {
  }

  /** The inserted row holds the validated fields as given, the fixed status
      columns, and `null` for a message that is absent. */
  lemma InsertedRowColumns(input: BookingInput)
    requires input.services.Some? || input.service.Some?
    ensures var row := InsertedRow(input);
      && row.Keys == {"name", "email", "phone", "service", "date", "time", "message",
                      "status", "payment_method", "payment_status"}
      && row["name"] == JStr(input.name) && row["email"] == JStr(input.email)
      && row["phone"] == JStr(input.phone) && row["date"] == JStr(input.date) && row["time"] == JStr(input.time)
      && row["service"] == JStr(ServiceString(input))
      && (row["message"] == JNull <==> input.message.None?)
      && (input.message.Some? ==> row["message"] == JStr(input.message.value))
      && row["status"] == JStr("pending") && row["payment_method"] == JStr("store")
      && row["payment_status"] == JStr("pending")
  {
  }

  /** The new row keeps the primary key, is pending with payment in store,
      and belongs to the normalised address, so that a later search or code
      request for that address finds it. */
  lemma CreatedBookingIsFound(table: seq<Booking>, input: BookingInput, newId: string, now: int)
    requires UniqueIds(table) && IndexOfId(table, newId).None?
    requires input.services.Some? || input.service.Some?
    ensures var b := Booking(newId, now, InsertedRow(input));
      var table' := table + [b];
      && UniqueIds(table')
      && b.columns["status"] == JStr("pending") && b.columns["payment_method"] == JStr("store")
      && b.columns["payment_status"] == JStr("pending")
      && b.columns["service"] == JStr(ServiceString(input))
      && OwnerEmail(b) == Some(input.email)
      && b in ManageBooking.Search(table', input.email)
      && WithEmail(table', input.email) != []
  {
    var b := Booking(newId, now, InsertedRow(input));
    var table' := table + [b];
    AppendFreshKeepsUniqueIds(table, b);
    assert b in table' && EmailMatches(b, input.email);
    assert b in WithEmail(table', input.email);
  }

  /** The handler keeps the primary key. */
  lemma HandleKeepsUniqueIds(records: map<string, RateRecord>, table: seq<Booking>, req: Request, now: int,
                             isEmail: string -> bool, newId: string)
    requires UniqueIds(table)
    ensures UniqueIds(Handle(records, table, req, now, isEmail, newId).1)
  {
    CreateOutcome(table, req.body, now, isEmail, newId);
    var c := Create(table, req.body, now, isEmail, newId);
    if c.1.body.CreatedBody? {
      CreatedBookingIsFound(table, Validate(req.body.value, isEmail).value, newId, now);
    }
  }

  /** A refused request changes nothing, whatever its body. */
  lemma RateLimitedTouchesNothing(records: map<string, RateRecord>, table: seq<Booking>, req: Request, now: int,
                                  isEmail: string -> bool, newId: string)
    requires req.verb != "OPTIONS"
    requires !Step(records, ClientIp(req.headers), MaxRequests, WindowMs, now).1.allowed
    ensures var h := Handle(records, table, req, now, isEmail, newId);
      h.1 == table && h.2 == Response(429, Some(RetryAfterSeconds), ErrorBody(MsgRateLimited))
  {
  }
}
