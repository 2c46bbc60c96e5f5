# Booking edge functions of the salon site, in Dafny

This project models the three Supabase edge functions that the salon's
booking pages call:

- **send-otp**: e-mail one-time codes. `send` looks up whether the address
  has bookings. If it does, `send` replaces the address's challenge with a
  new one and mails a six-digit code. The challenge holds the SHA-256 hex
  digest of the code, an expiry ten minutes away and an attempt counter.
  `verify` looks up the newest challenge for the address and refuses it if
  it has expired or has had five wrong tries. It counts a wrong code as an
  attempt. A right code consumes the challenge and opens the address's only
  session, lasting thirty minutes.
- **manage-booking**: search, update and delete of bookings by e-mail
  address. The address is checked against a simple regular expression,
  then trimmed and lower-cased. Update and delete check that the booking's
  stored address matches, and answer a uniform 404 when it does not. As in
  the code, no session is checked and `updates` is written unfiltered.
- **create-booking**: `createBookingSchema` validation, including
  `.strict()` and the service refinement. It also covers the
  `serviceString` choice and the row inserted with status `pending`,
  payment method `store` and payment status `pending`.

All three share two things. One is the per-IP fixed-window rate limiter
over an in-memory map: five requests an hour for send-otp, ten for the
other two, with a sweep of expired entries past 10000 records. The other is
the client-IP rule: the first `x-forwarded-for` entry, then `x-real-ip`,
then `unknown`.

Each handler has two layers:

- a pure function `Handle`, which gives the new rate-limit map, the new
  tables and the response;
- a method `HandleRequest`, which performs the same steps on a
  `RateLimit.RateLimiter` object and a `Store.Database` object. Its
  contract states that the new state and the response are what `Handle`
  gives for the old state.

The properties are proved about `Handle` and its parts.

Modules follow the source:

| module | contents |
|---|---|
| `Wrappers`, `Seqs`, `Json` | the `Option` type, filtering, JSON values |
| `Text` | `trim`, `toLowerCase`, the decimal form of a number |
| `Hex` | the hex formatting in `sha256Hex` |
| `Html` | `escapeHtml` |
| `Http` | requests, responses and `getClientIP` |
| `RateLimit` | `checkRateLimit` |
| `Bookings` | booking rows, `ilike`, `order` and the row updates |
| `Store` | the database tables as an object; its invariant holds the primary keys: booking ids are unique, and every challenge and session id has been issued by the id generator and is held by one row only |
| `SendOtp`, `ManageBooking`, `CreateBooking` | the three handlers |

Several things the code reads from outside are parameters of the model:

- the SHA-256 digest of a string, as a function from strings to bytes;
- zod's `.email()` test, as a predicate;
- the random draw behind a code, as a number below 900000;
- the UUID from `crypto.randomUUID()`;
- the id the database assigns to a new booking;
- whether `RESEND_API_KEY` is set, and whether the mail call throws;
- the current time.

The body of a request is an `Option<Json>`, where `None` means that
`req.json()` throws.

## Model

| member | source | states |
|---|---|---|
| `RateLimit.RateLimiter.constructor` | supabase/functions/send-otp/index.ts:16 | The limiter starts with an empty map. |
| `RateLimit.RateLimiter.Check` | supabase/functions/send-otp/index.ts:26-49 | The new map and the decision are those of `Step` on the old map. |
| `RateLimit.RateLimiter.PruneExpired` | supabase/functions/send-otp/index.ts:34-38 | After the sweep loop the map holds exactly the entries whose reset time is not before now. |
| `RateLimit.StepCases` | supabase/functions/send-otp/index.ts:26-49 | A missing or elapsed record (reset time strictly before now) restarts at count 1, with remaining max−1. A full window refuses with remaining 0 and keeps the record. Otherwise the count rises by one and remaining is max minus the new count. Other clients keep their records, except that with more than 10000 records exactly the expired ones are dropped. |
| `RateLimit.StepKeepsBound` | supabase/functions/send-otp/index.ts:45-48 | With a limit of at least one, every stored count stays between 1 and the limit. |
| `RateLimit.RunInWindow` | supabase/functions/send-otp/index.ts:40-48 | Within one window, starting at count c, call i is allowed exactly when c+i is below the limit, with the matching remaining count. The count saturates at the limit and the reset time does not move. |
| `RateLimit.FreshClientRun` | supabase/functions/send-otp/index.ts:40-48 | A client with no live record is allowed its first `max` calls inside one window, with remaining max−1 down to 0, and refused after that. |
| `Http.ClientIpForwarded` | supabase/functions/send-otp/index.ts:19-20 | With a non-empty `x-forwarded-for` of the form `first,rest`, the client IP is `first` trimmed. |
| `Http.ClientIpForwardedShape` | supabase/functions/send-otp/index.ts:20 | An IP taken from `x-forwarded-for` contains no comma and is trimmed. |
| `Http.ClientIpFallbacks` | supabase/functions/send-otp/index.ts:21-23 | Without `x-forwarded-for`, a non-empty `x-real-ip` is the IP verbatim, and otherwise the IP is `unknown`. |
| `Text.TrimStart` | supabase/functions/send-otp/index.ts:20 | The result is a suffix of the input, everything it drops is whitespace, and it does not start with whitespace. |
| `Text.TrimEnd` | supabase/functions/send-otp/index.ts:20 | The result is a prefix of the input, everything it drops is whitespace, and it does not end with whitespace. |
| `Text.Trim` | supabase/functions/send-otp/index.ts:20 | The result neither starts nor ends with whitespace. |
| `Text.TrimFixesTrimmed` | supabase/functions/manage-booking/index.ts:103 | Trimming leaves a string unchanged exactly when it has no leading or trailing whitespace. |
| `Text.TrimIdempotent` | supabase/functions/send-otp/index.ts:11 | Trimming twice is trimming once. |
| `Text.TrimWithoutWhitespace` | supabase/functions/manage-booking/index.ts:103 | A string with no whitespace is its own trim. |
| `Text.TrimKeepsAbsent` | supabase/functions/send-otp/index.ts:20 | Trimming adds no character that was not there. |
| `Text.ToLower` | supabase/functions/manage-booking/index.ts:103 | Lower-casing keeps the length and every character that is not a capital. Each capital becomes its own lower-case letter, 32 code points above it, so no capital is left. |
| `Text.ToLowerIdempotent` | supabase/functions/send-otp/index.ts:11 | Lower-casing twice is lower-casing once. |
| `Text.ToLowerKeepsWhitespace` | supabase/functions/send-otp/index.ts:11 | Lower-casing neither creates nor removes whitespace at any position. |
| `Text.ToLowerKeepsTrimmed` | supabase/functions/send-otp/index.ts:11 | A trimmed string stays trimmed when lower-cased. |
| `Text.BeforeFirst` | supabase/functions/send-otp/index.ts:20 | `split(',')[0]` is the prefix up to the first comma: it holds no comma, and the next character, if any, is the comma. |
| `Text.BeforeFirstOfJoin` | supabase/functions/send-otp/index.ts:20 | For a comma-free `a`, the first entry of `a + ',' + b` is `a`. |
| `Text.Decimal` | supabase/functions/send-otp/index.ts:52 | `toString()` of a natural number is a non-empty string of digits, with no leading zero unless the number is 0. |
| `Text.DecimalRoundTrip` | supabase/functions/send-otp/index.ts:52 | Reading the decimal string back gives the number. |
| `Text.DecimalLength` | supabase/functions/send-otp/index.ts:52 | A number between 10^(k−1) and 10^k has exactly k digits, so every code is six characters. |
| `Hex.ByteHexNibbles` | supabase/functions/send-otp/index.ts:70 | `b.toString(16).padStart(2, '0')` is the high nibble's digit followed by the low nibble's. |
| `Hex.ToHex` | supabase/functions/send-otp/index.ts:69-71 | The hex string has two lower-case hex characters per byte, the high and low nibble of byte i at positions 2i and 2i+1. |
| `Hex.HexRoundTrip` | supabase/functions/send-otp/index.ts:66-72 | Decoding the hex string gives back the digest's bytes. |
| `Html.Entity` | supabase/functions/send-otp/index.ts:56-63 | A character's replacement contains no markup character. It is longer than one character exactly for `& < > " '`, and is the character itself otherwise. |
| `Html.EscapeHtml` | supabase/functions/send-otp/index.ts:55-64 | The escaped text is never shorter and contains none of `< > " '`. |
| `Html.EscapeConcat` | supabase/functions/send-otp/index.ts:63 | Escaping distributes over concatenation, because the global replace works character by character. |
| `Html.EscapeIdentity` | supabase/functions/send-otp/index.ts:63 | Escaping leaves a text unchanged exactly when it has none of the five special characters. |
| `Html.UnescapeEscape` | supabase/functions/send-otp/index.ts:55-64 | Replacing the entities back restores the original text, so escaping loses nothing. |
| `Json.Field` | supabase/functions/manage-booking/index.ts:91 | A property read is defined exactly when the body is an object that has the key, and then it is the key's value. |
| `Bookings.LikeLiteral` | supabase/functions/manage-booking/index.ts:112 | A pattern with no `%`, `_`, `*` or `\` matches exactly the equal string. |
| `Bookings.WithEmailLike` | supabase/functions/manage-booking/index.ts:112 | `.ilike('email', p)` keeps exactly the rows whose lower-cased address the lower-cased pattern matches as a LIKE pattern. |
| `Bookings.WithEmail` | supabase/functions/send-otp/index.ts:124-128 | The lookup keeps exactly the rows whose address equals the given one, ignoring case. |
| `Bookings.IndexOfId` | supabase/functions/manage-booking/index.ts:143-147 | The lookup by id finds nothing exactly when no row has the id, and otherwise the first row that has it. |
| `Bookings.IndexOfUniqueId` | supabase/functions/manage-booking/index.ts:146 | With the primary key unique, the lookup by a row's id finds that row. |
| `Bookings.AppendFreshKeepsUniqueIds` | supabase/functions/create-booking/index.ts:100-115 | Inserting a row with a new id keeps the ids unique. |
| `Bookings.Merge` | supabase/functions/manage-booking/index.ts:159-162 | Applying updates never changes the row's `id` or `created_at`. |
| `Bookings.UpdateId` | supabase/functions/manage-booking/index.ts:159-162 | The table keeps its length. Rows with the id get the updates merged in, and all other rows are unchanged. |
| `Bookings.UpdateChangesRow` | supabase/functions/manage-booking/index.ts:159-162 | Under a unique id, the update changes exactly row i, to the merged row. |
| `Bookings.UpdateKeepsUniqueIds` | supabase/functions/manage-booking/index.ts:159-162 | An update keeps the ids unique. |
| `Bookings.DeleteRemovesRow` | supabase/functions/manage-booking/index.ts:207-210 | Under a unique id, the delete removes exactly row i and keeps the others in order. |
| `Bookings.InsertNewestFirst` | supabase/functions/manage-booking/index.ts:113 | Inserting into the sorted list adds exactly the new row. |
| `Bookings.InsertKeepsOrder` | supabase/functions/manage-booking/index.ts:113 | Inserting into a newest-first list keeps it newest first. |
| `Bookings.SortNewestFirst` | supabase/functions/manage-booking/index.ts:113 | The sorted rows are a permutation of the input. |
| `Bookings.SortIsNewestFirst` | supabase/functions/manage-booking/index.ts:113 | The sorted rows are ordered by `created_at`, newest first. |
| `Store.WithAttempts` | supabase/functions/send-otp/index.ts:252-255 | The attempt update keeps the table's length. It sets the counter of the rows with the id and leaves everything else unchanged. |
| `Store.LatestChallenge` | supabase/functions/send-otp/index.ts:215-221 | The lookup finds nothing exactly when no challenge has the address. Otherwise it finds a challenge for the address with no newer one. |
| `Store.Database.DeleteChallengesFor` | supabase/functions/send-otp/index.ts:153 | Removes the address's challenges and leaves the other tables alone. The database keeps its keys. |
| `Store.Database.InsertChallenge` | supabase/functions/send-otp/index.ts:155-160 | Appends the challenge under the next id, which no row has (the invariant keeps every id issued and distinct), with the insertion time. |
| `Store.Database.DeleteChallenge` | supabase/functions/send-otp/index.ts:234 | Removes the challenge with the id and nothing else. The database keeps its keys. |
| `Store.Database.SetAttempts` | supabase/functions/send-otp/index.ts:252-255 | Sets the attempt counter of the challenge with the id and nothing else. The database keeps its keys. |
| `Store.Database.DeleteSessionsFor` | supabase/functions/send-otp/index.ts:271 | Removes the address's sessions and nothing else. The database keeps its keys. |
| `Store.Database.InsertSession` | supabase/functions/send-otp/index.ts:273-277 | Appends the session under the next id, which no row has (the invariant keeps every id issued and distinct). |
| `Store.Database.DeleteBooking` | supabase/functions/manage-booking/index.ts:207-210 | Removes the rows with the id, keeps the ids unique and leaves the code tables alone. |
| `Store.Database.UpdateBooking` | supabase/functions/manage-booking/index.ts:159-164 | Merges the updates into the rows with the id, keeps the ids unique and leaves the code tables alone. |
| `Store.Database.InsertBooking` | supabase/functions/create-booking/index.ts:100-115 | Appends a row with a fresh id and keeps the ids unique. |
| `SendOtp.ParseOtp` | supabase/functions/send-otp/index.ts:12 | A code is accepted exactly when it is a string of six ASCII digits, and it is kept as given. |
| `SendOtp.GenerateOtp` | supabase/functions/send-otp/index.ts:51-53 | Every generated code passes the six-digit check, and its value is 100000 plus the draw. |
| `SendOtp.ParseClassifies` | supabase/functions/send-otp/index.ts:100-116 | The action is checked before the address. A body whose action is neither `send` nor `verify` is refused for its action. A valid action with an address that fails the check is refused for the address. A verify command carries the body's `otp`. |
| `SendOtp.ParseNormalizes` | supabase/functions/send-otp/index.ts:11 | An accepted command's address is the trimmed, lower-cased form of a string that passed the e-mail check and is at most 255 characters long. It is trimmed, and normalising it again changes nothing. |
| `SendOtp.HandleRequest` | supabase/functions/send-otp/index.ts:74-303 | The new limiter map, code tables, response and mail are those of `Handle` on the old state, and the bookings are untouched. The database keeps its keys. |
| `SendOtp.SendCode` | supabase/functions/send-otp/index.ts:122-203 | The new code tables, response and mail are those of `Send` on the old state. The database keeps its keys. |
| `SendOtp.VerifyCode` | supabase/functions/send-otp/index.ts:205-290 | The new code tables and response are those of `Verify` on the old state. The database keeps its keys. |
| `SendOtp.JudgeCode` | supabase/functions/send-otp/index.ts:230-289 | Once the challenge is found, the new tables and response are those of `Judge` on the old tables. The database keeps its keys. |
| `SendOtp.OpenSession` | supabase/functions/send-otp/index.ts:263-277 | Removes the challenge by its id, replaces the address's sessions with one for the token's digest under the next id, and keeps the keys. |
| `SendOtp.MailCarriesCode` | supabase/functions/send-otp/index.ts:180-198 | Any mail sent goes to the normalised address and carries the generated code, HTML-escaped. |
| `SendOtp.StoredHashIsNotTheCode` | supabase/functions/send-otp/index.ts:149 | The code has no column; the stored digest is 64 hex characters and so differs from the code itself. |
| `SendOtp.SendWithoutBookings` | supabase/functions/send-otp/index.ts:140-145 | An address with no bookings gets the neutral 200 answer, no table changes and no mail. |
| `SendOtp.SendAnswersDiffer` | supabase/functions/send-otp/index.ts:140-202 | Both successful `send` answers are 200 with a message, but the two messages differ. |
| `SendOtp.SendIssuesOneChallenge` | supabase/functions/send-otp/index.ts:147-160 | With bookings, the address ends with exactly one challenge: zero attempts, created now, expiring in ten minutes. Other addresses' challenges and all sessions are unchanged. |
| `SendOtp.SendKeepsOnePerEmail` | supabase/functions/send-otp/index.ts:152-160 | `send` keeps at most one challenge and one session per address. |
| `SendOtp.VerifyPrecedence` | supabase/functions/send-otp/index.ts:233-261 | Expiry is checked first, then the five-attempt limit, then the digest. A wrong code and a verification each happen exactly when the earlier checks pass and the digest differs or matches. |
| `SendOtp.VerifyRejectsWithoutChanges` | supabase/functions/send-otp/index.ts:206-228 | A malformed code, or an address without a challenge, is refused with the matching message and no table changes. |
| `SendOtp.OnlyChallengeIsLatest` | supabase/functions/send-otp/index.ts:215-221 | When an address has a single challenge, that challenge is the one found. |
| `SendOtp.WrongCodeCountsAttempt` | supabase/functions/send-otp/index.ts:249-261 | A live challenge under the limit, given a wrong code, gains exactly one attempt. When the ids are keys, other addresses' challenges are exactly as before. Sessions and ids are unchanged. |
| `SendOtp.SingleUse` | supabase/functions/send-otp/index.ts:264 | After a successful verify, a second verify for the address finds no challenge. |
| `SendOtp.VerifiedSession` | supabase/functions/send-otp/index.ts:263-277 | A successful verify leaves the address one session, holding the token's digest and expiring in thirty minutes. It leaves other addresses' sessions alone. It removes the challenge it checked, adds none, and when the ids are keys keeps every other challenge. |
| `SendOtp.JudgeKeepsOnePerEmail` | supabase/functions/send-otp/index.ts:233-277 | Each verify outcome keeps at most one challenge and one session per address. |
| `SendOtp.VerifyKeepsOnePerEmail` | supabase/functions/send-otp/index.ts:205-290 | `verify` keeps at most one challenge and one session per address. |
| `SendOtp.HandleKeepsOnePerEmail` | supabase/functions/send-otp/index.ts:74-303 | Every request keeps at most one challenge and one session per address. |
| `SendOtp.AttemptsKeepOthers` | supabase/functions/send-otp/index.ts:252-255 | With distinct ids, the attempts update by id changes no other address's challenge. |
| `SendOtp.AttemptsKeepIds` | supabase/functions/send-otp/index.ts:252-255 | The attempts update keeps every id issued and distinct. |
| `SendOtp.SendKeepsIdsIssued` | supabase/functions/send-otp/index.ts:152-160 | `send`'s insert takes an id no row has, so the ids stay issued and distinct. |
| `SendOtp.JudgeKeepsIdsIssued` | supabase/functions/send-otp/index.ts:233-277 | Each verify outcome keeps the challenge and session ids issued and distinct. |
| `SendOtp.VerifyKeepsIdsIssued` | supabase/functions/send-otp/index.ts:205-290 | `verify` keeps the challenge and session ids issued and distinct. |
| `SendOtp.HandleKeepsIdsIssued` | supabase/functions/send-otp/index.ts:74-303 | Every request keeps the challenge and session ids issued and distinct, so the deletes and the update by id touch one row each. |
| `SendOtp.CodeRoundTrip` | supabase/functions/send-otp/index.ts:147-289 | The mailed code, entered within ten minutes, verifies. Afterwards the address has no challenge and exactly one session for the new token. |
| `SendOtp.ExpiredCodeRefused` | supabase/functions/send-otp/index.ts:233-239 | After ten minutes any well-formed code is refused as expired, the challenge is gone and no session is opened. |
| `SendOtp.WrongCodesRun` | supabase/functions/send-otp/index.ts:241-261 | A run of wrong codes under the limit is refused each time and raises the counter by the run's length. |
| `SendOtp.LockedAfterFiveWrongCodes` | supabase/functions/send-otp/index.ts:241-247 | After five wrong codes the next try is refused for too many attempts, even with the right code, and the challenge is deleted. |
| `SendOtp.RateLimitedTouchesNothing` | supabase/functions/send-otp/index.ts:80-96 | A refused request gets 429 with `Retry-After: 3600`, no table changes and no mail. |
| `ManageBooking.EmailShapeIsTrimmed` | supabase/functions/manage-booking/index.ts:94 | An address the regular expression accepts has no whitespace, so trimming leaves it unchanged. |
| `ManageBooking.EmailShapeHasOneAt` | supabase/functions/manage-booking/index.ts:94 | An accepted address has exactly one `@`, neither first nor last. |
| `ManageBooking.EmailShapeExamples` | supabase/functions/manage-booking/index.ts:94 | `anna@example.se` is accepted; `anna@example` and `a@@b.se` are refused. |
| `ManageBooking.ClassifyRefusals` | supabase/functions/manage-booking/index.ts:91-107 | A falsy address, or one whose string form fails the expression, is refused for the address. Among well-formed string addresses, exactly the actions other than `search`, `update` and `delete` are refused for the action. Update and delete carry the body's `bookingId` and `updates`. |
| `ManageBooking.RefusalsKeepTable` | supabase/functions/manage-booking/index.ts:135-140 | A bad address, a bad action, and an update or delete without a booking id each get their 400 message and change no row. |
| `ManageBooking.Search` | supabase/functions/manage-booking/index.ts:107-131 | The search, reading `.ilike` as equality ignoring case, returns exactly the rows of the address. Each row appears as often as in the table, and rows of any other address do not appear. |
| `ManageBooking.SearchIsNewestFirst` | supabase/functions/manage-booking/index.ts:113 | Search results are newest first. |
| `ManageBooking.Authorize` | supabase/functions/manage-booking/index.ts:135-156 | A falsy id is refused as missing. Access is granted exactly when the id names a row whose lower-cased address equals the normalised one, and then it is granted for that row. A named row with no readable address is the one failure told apart. |
| `ManageBooking.UniformRefusal` | supabase/functions/manage-booking/index.ts:149-156 | Someone else's booking and a missing booking get the same 404 for update and for delete, and the table is unchanged. |
| `ManageBooking.UpdateOwnedRow` | supabase/functions/manage-booking/index.ts:159-179 | The owner's update changes exactly that row. Every given column except `id` and `created_at` takes the given value, and the answer is the updated row. |
| `ManageBooking.DeleteOwnedRow` | supabase/functions/manage-booking/index.ts:207-225 | The owner's delete removes exactly that row and answers `success`. |
| `ManageBooking.UpdateChangesOnlyOwnedRow` | supabase/functions/manage-booking/index.ts:134-180 | An update either leaves the table unchanged or changes only one row owned by the address. |
| `ManageBooking.DeleteChangesOnlyOwnedRow` | supabase/functions/manage-booking/index.ts:182-226 | A delete either leaves the table unchanged or removes only one row owned by the address. |
| `ManageBooking.DispatchChangesOnlyOwnedRow` | supabase/functions/manage-booking/index.ts:107-231 | Any admitted command changes no row, or changes one row owned by its address. |
| `ManageBooking.HandleChangesOnlyOwnedRow` | supabase/functions/manage-booking/index.ts:61-239 | Any request changes no row, or changes one row owned by the address in its body. |
| `ManageBooking.ParseIgnoresOtherFields` | supabase/functions/manage-booking/index.ts:91 | Fields other than `action`, `email`, `bookingId` and `updates` do not affect the request's meaning. |
| `ManageBooking.SessionTokenIgnored` | supabase/functions/manage-booking/index.ts:91 | A `sessionToken` field and an `authorization` header change nothing: the handler checks no session. |
| `ManageBooking.RateLimitedTouchesNothing` | supabase/functions/manage-booking/index.ts:69-85 | A refused request gets 429 with `Retry-After: 3600` and changes no row. |
| `ManageBooking.HandleRequest` | supabase/functions/manage-booking/index.ts:61-239 | The new limiter map, bookings and response are those of `Handle` on the old state, and the code tables are untouched. |
| `ManageBooking.Execute` | supabase/functions/manage-booking/index.ts:107-231 | The new bookings and response are those of `Dispatch` on the old table. |
| `ManageBooking.SearchAsWritten` | supabase/functions/manage-booking/index.ts:109-113 | The search as written returns exactly the rows `.ilike` selects. Each row appears as often as in the table. |
| `ManageBooking.WildcardAddressAccepted` | supabase/functions/manage-booking/index.ts:94-103 | `%@%.%` passes the regular expression and normalises to itself. |
| `ManageBooking.WildcardMatchesEveryAddress` | supabase/functions/manage-booking/index.ts:112 | The pattern `%@%.%` matches every address that the expression accepts. |
| `ManageBooking.WildcardSearchReturnsAll` | supabase/functions/manage-booking/index.ts:109-113 | The search as written for `%@%.%` returns every row with a well-formed address. |
| `ManageBooking.WildcardSearchIgnoresOwner` | supabase/functions/manage-booking/index.ts:109-113 | On a table of well-formed addresses, the search as written for `%@%.%` returns the whole table. The corrected search returns nothing. |
| `ManageBooking.WildcardSearchLeaks` | supabase/functions/manage-booking/index.ts:112 | For two different customers, the search as written for `%@%.%` returns both bookings, while the corrected search returns none. |
| `ManageBooking.LikeSearchAgreesWithoutWildcards` | supabase/functions/manage-booking/index.ts:112 | For an address with no LIKE special characters, the search as written and the corrected search select the same rows. |
| `CreateBooking.TrimmedText` | supabase/functions/create-booking/index.ts:11 | A value is accepted exactly when it is a string whose trimmed form is within the bounds. The result is that trimmed form. |
| `CreateBooking.OptionalText` | supabase/functions/create-booking/index.ts:15 | An absent value is accepted as absent. A present one is accepted exactly when it is a string whose trimmed form is within the bounds, and the result is that trimmed form. |
| `CreateBooking.ServiceList` | supabase/functions/create-booking/index.ts:14 | An absent list is accepted as absent. A present one is accepted exactly when it is an array of 1 to 10 strings, each 1 to 120 characters once trimmed. The result is the trimmed items, in order. |
| `CreateBooking.MessageText` | supabase/functions/create-booking/index.ts:18 | An absent or null message is accepted as no message. Otherwise a message is accepted exactly when it is a string of at most 1000 characters once trimmed, and the result is the trimmed text. |
| `CreateBooking.EmailText` | supabase/functions/create-booking/index.ts:12 | An address is accepted exactly when it is a string that passes the e-mail check and is at most 255 characters long. The result is its trimmed, lower-cased form. |
| `CreateBooking.ShapedText` | supabase/functions/create-booking/index.ts:16-17 | A date or time is accepted exactly when it is a string of the required shape, and it is kept verbatim. |
| `CreateBooking.NormalizedIsStable` | supabase/functions/create-booking/index.ts:12 | Trimming and lower-casing any string gives a lower-case, trimmed string. |
| `CreateBooking.Validate` | supabase/functions/create-booking/index.ts:9-25 | An accepted body is an object with only the allowed keys, and its parsed input meets every field rule and the service refinement. |
| `CreateBooking.ValidateConforms` | supabase/functions/create-booking/index.ts:9-25 | `safeParse` succeeds exactly on the bodies that meet every rule, read off the raw body. The rules are: only the allowed keys; each field's rule, where optional fields may be absent and the message may be null; and a service list or a service present. |
| `CreateBooking.ValidateOutput` | supabase/functions/create-booking/index.ts:9-25 | On success the output holds the body's values: the trimmed name, phone and service, the trimmed and lower-cased address, the trimmed list items, the date and time verbatim, and no message exactly when it was absent or null. |
| `CreateBooking.StrictRejectsUnknownKey` | supabase/functions/create-booking/index.ts:20 | A body with any key outside the schema is rejected. |
| `CreateBooking.DateTimeShapeOnly` | supabase/functions/create-booking/index.ts:16-17 | The date and time checks look at shape only: `2024-13-45` and `99:99` pass, and `9:30` does not. |
| `CreateBooking.ServiceStringBounds` | supabase/functions/create-booking/index.ts:94 | The stored service text is 1 to 1218 characters long: ten items of 120 and nine separators at most. |
| `CreateBooking.ServiceStringChoice` | supabase/functions/create-booking/index.ts:94 | A non-empty list wins over `service` and is joined with `, `. A one-item list is stored as that item. |
| `CreateBooking.InsertedRowColumns` | supabase/functions/create-booking/index.ts:100-113 | The inserted row has exactly the ten columns, with the input's values. `message` is null exactly when none was given. Status, payment method and payment status are `pending`, `store` and `pending`. |
| `CreateBooking.InvalidBodyRejected` | supabase/functions/create-booking/index.ts:83-91 | A body the schema rejects gets 400 `Invalid booking data`, and the table is unchanged. |
| `CreateBooking.CreateOutcome` | supabase/functions/create-booking/index.ts:82-129 | The table changes exactly when the answer carries the new id. That happens only for a valid body and a fresh id, and then exactly the inserted row is appended. |
| `CreateBooking.CreatedBookingIsFound` | supabase/functions/create-booking/index.ts:100-115 | A created booking keeps ids unique, is pending in store, and is found by a search for its address. |
| `CreateBooking.HandleKeepsUniqueIds` | supabase/functions/create-booking/index.ts:62-137 | Every request keeps booking ids unique. |
| `CreateBooking.RateLimitedTouchesNothing` | supabase/functions/create-booking/index.ts:69-80 | A refused request gets 429 with `Retry-After: 3600` and no row is inserted. |
| `CreateBooking.HandleRequest` | supabase/functions/create-booking/index.ts:62-137 | The new limiter map, bookings and response are those of `Handle` on the old state, and the code tables are untouched. |

## Left out

- Database failures are not modelled (the `error` results of the queries, inserts, updates and deletes). The one exception is create-booking's insert, which fails when the assigned id is already taken. Every other call to the database succeeds.
- Console logging, the CORS headers and the HTML template of the mail are left out. A mail is its recipient and the escaped code; the Resend call is reduced to two inputs: whether it is configured and whether it throws.
- SHA-256, zod's `.email()`, `Math.random`, `crypto.randomUUID`, the database's id and `Date.now()` are parameters, as listed above. Each request sees a single `now`, although the code reads the clock several times.
- Concurrency between requests and the cold-start reset of the in-memory rate-limit maps are left out. So is the spoofing of `x-forwarded-for`, which is taken as given.
- `Text.ToLower`: only ASCII and Latin-1 capitals are mapped, not the full Unicode case mapping of `toLowerCase`. String lengths count characters, not UTF-16 code units.
- JSON numbers are integers.
- An `updates` value that is not an object becomes a 500 answer, standing for the failed update call.
- A `bookingId` that is not a string is treated as matching no row.
- `Bookings.Merge`: columns not in the booking table are accepted as given. The database would reject them; the model only keeps `id` and `created_at` fixed.
- `Bookings.SortNewestFirst`: rows with an equal `created_at` keep their table order. The database leaves that order open.
- `Store.LatestChallenge`: when two challenges are equally new, the first in table order is taken.
- The code range is 100000 to 999999, as `generateOTP` computes it, not every six-digit string.
- The two successful `send` answers differ, as in the code (`SendOtp.SendAnswersDiffer`).
- `ManageBooking.Search`: the handler (`Dispatch`, and through it `Handle`, `Execute` and `HandleRequest`) reads `.ilike` as equality ignoring case. It therefore answers a search for `%@%.%` with no rows, where the code returns every customer's bookings. The LIKE reading is `ManageBooking.SearchAsWritten`, which is not wired into the handler; see the finding below.
- `Bookings.WithEmail`: send-otp's bookings lookup is modelled as an exact match ignoring case. Its `.ilike` would also treat a `_` as a wildcard, and zod's `.email()` lets `_` through. This is the same defect as the finding below, which is modelled only for manage-booking.
- send-booking-notification, send-sms-confirmation and the front-end pages are not part of this model.

## Findings

| source | as written | input that shows it | evidently intended | confidence | as-written member | corrected member |
|---|---|---|---|---|---|---|
| supabase/functions/manage-booking/index.ts:112 | The search passes the normalised address to `.ilike`, so the LIKE wildcards `%` and `_` in it act as wildcards. The expression at line 94 admits both characters. | `{"action": "search", "email": "%@%.%"}` returns the bookings of every customer with a well-formed address. | Return only the bookings whose address equals the given one, ignoring case. | not executed | `ManageBooking.WildcardSearchLeaks` | `ManageBooking.Search` |
