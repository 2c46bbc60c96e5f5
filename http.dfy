/** Requests and responses of the three Deno handlers, reduced to what the
    handlers read and what each branch returns, and the client-IP rule
    `getClientIP` (identical in all three handlers). */
module Http {
  import opened Wrappers
  import opened Json
  import opened Text
  import opened Bookings

  /** A request: its HTTP method, its headers by lower-case name, and its body as
      `req.json()` would parse it (None when parsing throws). */
  datatype Request = Request(verb: string, headers: map<string, string>, body: Option<Json>)

  /** The JSON object each branch returns. */
  datatype Body =
    | NoBody                                           // CORS preflight answer
    | ErrorBody(error: string)                         // { error }
    | MessageBody(message: string)                     // { success: true, message }
    | SessionBody(sessionToken: string, message: string) // { success: true, sessionToken, message }
    | BookingsBody(bookings: seq<Booking>)           // { bookings }
    | BookingBody(booking: Booking)                    // { booking }
    | SuccessBody                                      // { success: true }
    | CreatedBody(bookingId: string)                   // { success: true, bookingId }

  /** Status, the `Retry-After` header in seconds when present, and the body. */
  datatype Response = Response(status: nat, retryAfter: Option<nat>, body: Body)

  /** Every handler's rate-limit answer advertises the one-hour window. */
  const RetryAfterSeconds: nat := 3600

  function Preflight(): Response
  {
    Response(200, None, NoBody)
  }

  function Error(status: nat, message: string): Response
  {
    Response(status, None, ErrorBody(message))
  }

  function TooManyRequests(message: string): Response
  {
    Response(429, Some(RetryAfterSeconds), ErrorBody(message))
  }

  /** A header that is present and not the empty string (JavaScript truthy). */
  predicate HasHeader(headers: map<string, string>, name: string)
  {
    name in headers && headers[name] != ""
  }

  /** `getClientIP`: the trimmed first entry of `x-forwarded-for`, else
      `x-real-ip`, else the shared sentinel `unknown`. */
  function ClientIp(headers: map<string, string>): string
  {
    if HasHeader(headers, "x-forwarded-for") then Trim(BeforeFirst(headers["x-forwarded-for"], ','))
    else if HasHeader(headers, "x-real-ip") then headers["x-real-ip"]
    else "unknown"
  }

  /** The selection rule, header by header: a forwarded list `first, rest...`
      yields its trimmed first entry, whatever the other headers hold. */
  lemma ClientIpForwarded(headers: map<string, string>, first: string, rest: string)
    requires ',' !in first
    requires "x-forwarded-for" in headers && headers["x-forwarded-for"] == first + "," + rest
    ensures ClientIp(headers) == Trim(first)
  {
    assert first + "," + rest == first + [','] + rest;
    BeforeFirstOfJoin(first, ',', rest);
  }

  /** The client identifier never contains a comma when it comes from the
      forwarded list, and has no white space at either end. */
  lemma ClientIpForwardedShape(headers: map<string, string>)
    requires HasHeader(headers, "x-forwarded-for")
    ensures var ip := ClientIp(headers);
      ',' !in ip && IsTrimmed(ip)
  {
    TrimKeepsAbsent(BeforeFirst(headers["x-forwarded-for"], ','), ',');
  }

  /** Without a forwarded list the real-IP header is used verbatim, and
      without either header every caller shares `unknown`. */
  lemma ClientIpFallbacks(headers: map<string, string>)
    requires !HasHeader(headers, "x-forwarded-for")
    ensures HasHeader(headers, "x-real-ip") ==> ClientIp(headers) == headers["x-real-ip"]
    ensures !HasHeader(headers, "x-real-ip") ==> ClientIp(headers) == "unknown"
  {
  }
}
