# One Time Note: a verified model

One Time Note stores a note that the browser has encrypted, hands it out once, and forgets it. This project models the
parts of it that have to be right and proves what they promise: the service that creates, opens and cleans up notes,
the signed tickets that pay for a creation, the rate limiter in front of both, and the encodings that carry keys,
tokens and payloads between the creating page, the server and the reading page.

`dafny verify dfyconfig.toml` checks everything.

## How it is modelled

- **Two layers.** Each operation is a function from contents and inputs to contents and answer (`NoteStore`,
  `RateLimits`, `Viewers`). The classes `NoteService`, `RateLimiter` and `NotePage` update their fields in place, loops and rollbacks
  included, and every method is proved to do exactly what that function says. The theorems are about the functions.
- **Inputs.** Clock readings, random draws, what the database makes of a transaction (it commits, the file is full, it
  fails) and the bucket that a map iteration picks among equally old ones are inputs. Times are nanoseconds since Go's
  zero time, so 0 is the time for which `IsZero` holds.
- **Cryptography and JSON** are records of functions under stated laws: a MAC has 32 bytes (`CryptoLaws`) and, where burn
  tokens must be told apart, differs for different tokens (`MacTellsTokens`); AES-GCM opens what it sealed and adds 16
  bytes (`AeadLaws`); a printed time has at most 35 plain characters and is read back (`JsonLaws`). Of the JSON parsers it
  is assumed only that they agree, on objects of strings and numbers, with a reader that is written out in `JsonObjects`
  (`JsonLaws`, `ParserLaw`). `Consistency.LawsCanHold` shows that all these laws can hold at once. Base64url, UTF-8, the
  dotted ticket and the JSON printers are concrete.
- **Hypotheses on runs.** The clock does not go back and is positive, drawn identifiers are new, and a well signed text
  is one that was signed for an issued ticket (`Unforged`).

| file | content |
|---|---|
| `Base64Url`, `Json`, `JsonObjects`, `Utf8` | strict and lax base64url, JSON text with exact lengths and a reader for it, UTF-8 with its byte order mark |
| `Tickets` | issuing and verifying tickets |
| `NoteStore`, `NoteService` | the four buckets, the transactions on them, and the class that runs them |
| `Traces`, `Runs` | whole runs of atomic operations against a ledger that never forgets |
| `Interleavings`, `SingleUse` | requests in flight, with transactions that come later than the clock readings they use |
| `Linearization`, `Atomicity` | requests in flight against that ledger, and whole operations among the interleavings |
| `RateLimits`, `LimiterRuns`, `LimiterBounds` | the keyed limiter in exact units, and its bounds |
| `Forgetting`, `Noticing`, `Divisibility` | the limiter against one that never forgets a key, and exactly when the two differ |
| `SecretLink`, `Envelopes` | note links, encrypted payloads, size checks |
| `Viewers`, `EndToEnd` | pages after one note, and a note's way from writer to reader |
| `Consistency` | a service that meets all assumed laws |

## What came out false, and what holds instead

- **A ticket is not single-use under every interleaving.** The insert transaction does not read the clock again. If two
  requests verify one ticket at its last valid instant, the first stores a note that is opened, and a cleanup then
  drops the expired marker, the second request stores another note under the same identifier
  (`SingleUse.LateInsertionMakesTwo`). Tickets are single-use exactly when no insertion commits after its ticket's expiry
  (`SingleUse.SingleUseExactly`); in runs of atomic operations that is always so.
- **Capacity eviction can be noticed.** The bounded map decides like a limiter that never forgets exactly when a whole
  burst, and the largest debt that an admission can leave, refill within one minute, or two minutes if the map holds a
  single bucket (`Noticing.ForgettingIsInvisibleExactly`). The default of 60 requests a minute with bursts of 120 does not
  (`Noticing.DefaultLimiterForgetsTooSoon`), and a burst that refills in just that minute need not do either
  (`Noticing.BurstAloneIsNotEnough`). The admission bound does not depend on this.
- **The retry hint alone can fall short.** `AllowN` admits a request when less than a nanosecond's refill is missing, and
  the bucket is then in debt by that much. The hint is computed as if the debt were not there. If debt and the part of a
  nanosecond that the hint rounds away make up a whole one, a client that waits exactly its hint is refused again
  (`LimiterBounds.RetryHintWorks`); `LimiterBounds.HintFallsShort` shows one with thirteen requests in ten minutes.
  Waiting longer than the hint always suffices.
- **A text that begins with U+FEFF comes back without it**, and an empty text does not come back at all; every other
  text does (`Envelopes.EnvelopeRoundTripExactly`).
- **A full file is not always answered with `ErrStorageFull`.** If the cleanup that should make room finds the file full
  too, the database's own error is returned, which the handler answers as an internal error. That happens exactly if an
  admitted, unused ticket meets a full file in its first transaction and in the cleanup (`NoteStore.FullFileExactly`), and
  `Runs.FullFileSurfaces` gives such a request.
- **A bucket does not always live for two windows.** Above half the range of a 64-bit duration the doubled window wraps
  around and the bucket lives for an hour (`LimiterRuns.TTLCoversTwoWindowsExactly`); `LimiterRuns.LongWindowIsCutShort`
  gives a valid specification for which it does.

## Model

| member | source | states |
|---|---|---|
| Base64Url.StrictDecodeIsInverse | common.go:12-31 | The strict decoder gives `b` for `s` exactly when `b` is not empty and `s` is its encoding: a bijection, although the decoder underneath skips line breaks and stray bits |
| Base64Url.StrictDecodeAcceptsExactly | common.go:12-27 | Which texts are accepted, told from the text: alphabet, length, and zero unused bits |
| Base64Url.LengthTestIsExact | common.go:16-18 | The length test refuses exactly the lengths congruent to 1 modulo 4, and those are exactly the lengths no byte string encodes to |
| Base64Url.LineBreaksAreRefused | common.go:19-25 | A line break inserted anywhere into an accepted text leaves Go's decoding the same and makes the strict decoder refuse |
| Base64Url.StrictIsCanonicalBrowser | web/static/crypto-utils.js:58-80 | The server accepts exactly those texts the browser accepts that are the encoding of what the browser read, with the same bytes |
| Base64Url.JoinSplit | common.go:29-31 | Cutting bytes into six-bit groups and joining them again is the identity |
| Base64Url.EncodeShape | common.go:29-31 | Alphabet and exact length of every encoding |
| Base64Url.DigitsFollowTheTable | common.go:29-31 | The digits are those of table 2 of RFC 4648, in its order |
| Base64Url.SplitKeepsTheNumber | common.go:29-31 | The groups of six bits, read as a number, are the bytes' own number followed by the zeros that fill the last group: no bit is moved |
| JsonObjects.ReadsObject | ticket.go:128-132 | Every printed object of strings and numbers, whatever has to be escaped, is read back member by member |
| Utf8.BitsAreInPlace | web/static/crypto-utils.js:119-120 | Every character's bits stand where section 3 of RFC 3629 puts them |
| Base.FourDigitYears | note_service.go:111-118 | The times that can be marshalled are exactly those of the years 0 to 9999 |
| Base.SubIsClamped | ticket.go:162-164 | Differences of times are exact within 64 bits and clamped beyond |
| Tickets.VerifyTicketAcceptsExactly | ticket.go:64-126 | Verification succeeds exactly for the tickets of the design, told without any of its helpers: version, payload, MAC over both under the subkey for tickets, validity window, and the MAC of the token under the subkey for burn tokens |
| Tickets.ExpiredExactly | ticket.go:64-126 | "Ticket expired" is reported for every readable ticket of the note past its time, whatever its signature, and for nothing else |
| Tickets.RootKeyUnavailableExactly | ticket.go:64-126 | A missing, unreadable or invalid root key is reported for every readable, unexpired ticket of the note with a 32-byte verifier, and for nothing else |
| Tickets.OneTextPerPayload | ticket.go:128-140 | Two payloads have the same sealed text only if they are the same: one acceptable text for each payload |
| Tickets.SignatureIsBound | ticket.go:104-116 | A signature moved to a payload with another MAC is refused, at every time and for every identifier and token |
| Tickets.IssuedDataParses | ticket.go:128-132 | What is marshalled for a ticket, field under field name, is read back |
| Tickets.IssueFailsExactly | ticket.go:30-62 | When no ticket is issued, and with which error |
| Tickets.CutIsExact | ticket.go:72-82 | The dotted text is cut at its first dot and nowhere else |
| Tickets.IssueThenVerify | ticket.go:30-62 | What is issued, verified with the identifier and the token that were handed out with it: at most 512 characters, accepted exactly from a minute before issue to fifteen minutes after, and with which error before and after |
| Tickets.IssuedTicketIsBound | ticket.go:64-126 | An issued ticket is refused, at every time, for another identifier or another token |
| Tickets.IssuedTicketLength | ticket.go:128-140 | Issued payloads have at most 207 bytes and issued tickets at most 323 characters |
| Tickets.ValidityIsShort | ticket.go:152-170 | Whatever times a signed payload names, it is not valid at two instants more than sixteen minutes apart, nor for two identifiers |
| Tickets.AcceptedWasIssued | ticket.go:64-126 | Given unforged signatures, what verification accepts is the data of the one ticket issued for the path's identifier |
| NoteStore.FullFileExactly | note_service.go:144-155 | On any contents: "storage full" exactly if the cleanup commits and the retry finds the file full, the database's own error exactly if the cleanup finds it full |
| Runs.FullFileSurfaces | note_service.go:144-155 | A request that is answered with the database's own error, on any service that does not know its identifier |
| NoteStore.ChecksInOrder | note_service.go:85-119 | Which check refuses a creation, in the order in which they are made, and what is written otherwise |
| NoteStore.CleanupExactly | note_service.go:232-274 | What a committed cleanup leaves on any contents: exactly the well-formed unexpired notes and the readable unexpired markers, unchanged |
| NoteStore.StartLeavesNothingStale | note_service.go:75-83 | After a start that succeeds nothing expired or malformed is left, and the root key is the one that was there or the one that was drawn |
| NoteStore.KeysExactly | root_key.go:20-67 | What becomes of the root key, whatever is stored under its name |
| NoteStore.OpenExactly | note_service.go:160-206 | An open on any contents: when the note is handed out and which, when its records are removed, and what is reported |
| NoteStore.HandlerAgreesOnLifetimes | handlers.go:243-248 | The handler lets through 3600 to 1209600 seconds and asks for just as long; it refuses exactly what the service's own test refuses, and no product overflows |
| NoteService.NoteService.constructor | note_service.go:66-73 | A service over an empty database with a lifetime limit of fourteen days |
| NoteService.NoteService.CreateTicket | ticket.go:30-62 | Answers as the specification does and changes nothing |
| NoteService.NoteService.Prepare | note_service.go:85-117 | Every check before the first transaction, in order, with its error |
| NoteService.NoteService.Insert | note_service.go:120-142 | The insert transaction: all three buckets or none of them |
| NoteService.NoteService.CreateNote | note_service.go:85-158 | The whole of `CreateNote` with cleanup and one retry: exact new contents and exact answer |
| NoteService.NoteService.OpenNote | note_service.go:160-206 | Exact new contents and answer of an open; a payload only together with its committed deletion |
| NoteService.NoteService.DeleteNoteRecords | note_service.go:276-285 | Payload and metadata go together |
| NoteService.NoteService.FindStaleNotes | note_service.go:236-250 | The loop collects exactly the unreadable, invalid and expired notes |
| NoteService.NoteService.DropStaleNotes | note_service.go:251-257 | Exactly those notes are deleted |
| NoteService.NoteService.FindStaleMarkers | note_service.go:259-268 | The loop collects exactly the unreadable and expired markers |
| NoteService.NoteService.DropStaleMarkers | note_service.go:269-271 | Exactly those markers are deleted |
| NoteService.NoteService.Cleanup | note_service.go:232-274 | Exact contents after a cleanup, or unchanged contents if it does not commit |
| NoteService.NoteService.EnsureRootKeys | root_key.go:20-37 | A missing key is created, a valid one kept, an invalid one reported and kept |
| NoteService.NoteService.StartupMaintenance | note_service.go:75-83 | Keys first, then a cleanup, stopping at the first error |
| Traces.CleanupIsInvisible | note_service.go:85-274 | On every run of atomic operations the service answers like a ledger that keeps every note and marker forever |
| Traces.OperationAgrees | note_service.go:85-274 | One operation answers like the ledger and keeps buckets and ledger in agreement |
| Traces.CreateAgrees | note_service.go:85-158 | A creation succeeds exactly when it is admitted, its identifier never made a note, and the file takes it at once or after a cleanup |
| Traces.OpenAgrees | note_service.go:160-206 | An open succeeds exactly for the note's token, once, and no later than its expiry, whatever was cleaned up before |
| Traces.CleanupAgrees | note_service.go:232-274 | A cleanup changes nothing that the ledger could tell |
| Traces.SpentTicketIsRefused | note_service.go:122-125 | The marker of a used ticket is still there as long as the ticket has not expired |
| Traces.AdmittedFacts | note_service.go:97-119 | What passes the checks carries the ticket's own identifier and expiry, and metadata that is valid when read back |
| Runs.AtMostOnce | note_service.go:85-206 | On every run a ticket makes at most one note and a note is handed out at most once |
| Runs.HandsWhatWasMade | note_service.go:192-197 | What is handed out was stored, byte for byte, by an earlier successful creation of that identifier |
| Runs.LiveNoteSurvives | note_service.go:160-274 | After any operations at all, the creator's token opens the note exactly when it has not expired and was not opened before, and gives the stored bytes |
| Runs.WrongTokenOpensNothing | note_service.go:184-190 | After a note was created with one token, and whatever happened since, any other token opens nothing and changes nothing that a later answer depends on |
| Runs.FailedCreateIsInvisible | note_service.go:144-157 | After a failed creation, with or without its cleanup, every later answer is as if it had not been tried |
| Runs.FailedCreateOnlyForgets | note_service.go:144-157 | On any contents, a failed creation adds nothing and loses no unexpired note or marker |
| Runs.RecordsStayReadable | note_service.go:219-230 | On every run the records stay readable, valid and paired, so the branches for corrupt records are not taken, and the root key stays |
| Runs.RootKeyIsNeverReplaced | root_key.go:20-37 | On any contents and any run a stored root key, even an unreadable one, is not replaced |
| Runs.FirstStartAgrees | root_key.go:20-51 | A new database after its first start agrees with the empty ledger of the key it drew |
| Runs.TicketWorksOnce | ticket.go:30-126 | An issued ticket, properly used after any operations and restarts, makes its note exactly when it has not expired and made none before, with the error in each other case |
| Interleavings.StartIsSound | note_service.go:75-83 | The invariant of the concurrent service holds after the first start |
| Interleavings.ActionKeeps | note_service.go:85-285 | Every step of a request in flight, every commit, failure and crash keeps the invariant |
| Interleavings.RunKeeps | note_service.go:85-285 | So does every run |
| Interleavings.Conservation | note_service.go:120-205 | In every interleaving, creations = successful opens + deletions of expired notes + (1 if stored), for each identifier; no note is removed in any other way, and the two note buckets keep the same keys |
| Interleavings.LiveNoteStays | note_service.go:160-274 | In every interleaving, a note that has not expired and was not handed out is stored with the bytes and metadata it had |
| Interleavings.HandsWhatIsStored | note_service.go:188-197 | In every interleaving, the first open of a live note that commits hands out exactly the stored note to its token, and nothing to another |
| Interleavings.PromptInsertionIsFirst | note_service.go:120-142 | An insertion that goes through before its ticket expires is the first of that ticket |
| Interleavings.PromptTicketsAreSingleUse | note_service.go:100-150 | If insertions commit no later than the ticket expires, the ticket makes at most one note in every interleaving |
| Linearization.FirstStartMirrors | note_service.go:75-83 | After the first start, the concurrent service and the empty ledger agree |
| Linearization.AnyStepMirrors | note_service.go:85-285 | Every step that settles a call settles it with the ledger's answer, and no step breaks the agreement |
| Linearization.AnswersLikeSomeOrder | note_service.go:85-285 | If insertions get past their checks before their tickets expire, every interleaving answers like whole operations one after the other on the ledger that keeps everything |
| Linearization.OpensAreSettledInTime | note_service.go:160-206 | Each open counts as of a reading of the clock between its start and its commit, and as of its own if it hands out the note |
| Atomicity.OperationsAreRuns | note_service.go:85-285 | Every whole operation is a run of the steps of one request: the same contents, nothing left in flight, and one call settled, with the operation's answer |
| Atomicity.RunsAreInterleavings | note_service.go:85-285 | So the interleavings include every run of whole operations, with its contents and all its answers |
| SingleUse.LateInsertionMakesTwo | note_service.go:100-150 | From any sound state, a run in which one ticket makes two notes, as soon as one insertion may commit later than its expiry |
| SingleUse.SingleUseExactly | note_service.go:258-271 | Single use in all interleavings if and only if insertions commit no later than the expiry |
| LimiterRuns.TTLCoversTwoWindowsExactly | rate_limiter.go:120-126 | For valid specs, a bucket lives for two windows, at least an hour, exactly as long as two windows fit 64 bits; beyond that it lives an hour |
| LimiterRuns.LongWindowIsCutShort | rate_limiter.go:120-126 | A valid spec whose buckets are dropped long before one window has passed |
| LimiterRuns.ValidSpecExactly | config.go:476-488 | A spec is valid exactly if its rate is between 1 and 1000 a minute, as a quotient, and its burst between 1 and 5000 |
| LimiterRuns.SweepExactly | rate_limiter.go:103-114 | A sweep comes with the first request and then at most every five minutes, and removes exactly the buckets unused for their time-to-live |
| LimiterRuns.BurstExactly | rate_limiter.go:62-64 | A full bucket admits exactly its burst at one instant |
| RateLimits.RateLimiter.constructor | rate_limiter.go:32-39 | An empty limiter for 4096 buckets |
| RateLimits.RateLimiter.AllowRequest | rate_limiter.go:41-76 | Exact new map and exact answer of a request, with the admission rule of `AllowN`: a request passes if less than a nanosecond's refill is missing |
| RateLimits.RateLimiter.EnsureBucketCapacity | rate_limiter.go:78-101 | The loop finds an evictable bucket of minimal `lastSeen`, or there is none |
| RateLimits.RateLimiter.SweepExpiredBuckets | rate_limiter.go:103-114 | At most every five minutes, exactly the outdated buckets go |
| LimiterRuns.ServeKeeps | rate_limiter.go:41-76 | Every level stays at most full and less than a nanosecond's refill in debt, and every bucket is seen no earlier than it last admitted |
| LimiterBounds.MapStaysBounded | rate_limiter.go:78-101 | On every run the map stays within a positive bound |
| LimiterBounds.SaturationExactly | rate_limiter.go:78-101 | A request is turned away for want of room, with a hint of a second, exactly when its key is new, the map full and every bucket seen within the last minute; it adds nothing |
| LimiterBounds.EvictionIsLeastRecent | rate_limiter.go:83-97 | An eviction removes one bucket, idle for a minute or more, and no idle one was seen earlier |
| LimiterBounds.FirstRequestIsAdmitted | rate_limiter.go:41-64 | The first request of all is answered with true and no hint |
| LimiterBounds.Replies | rate_limiter.go:41-76 | What a client is told: true for a new key that finds room, no hint with an admission, and with a refusal one between a second and a minute |
| LimiterBounds.RetryHintInRange | rate_limiter.go:66-75 | For every valid spec the hint is between a second and a minute |
| LimiterBounds.AdmitsOnceRefilled | rate_limiter.go:62-75 | A bucket that refused admits after a wait exactly when less than a nanosecond's refill is then missing |
| LimiterBounds.RetryHintWorks | rate_limiter.go:66-75 | Waiting longer than the hint always suffices; the hint itself fails exactly if the bucket is in debt, debt and rounding make up a nanosecond's refill, and the hint is not the one-second minimum |
| LimiterBounds.HintFallsShort | rate_limiter.go:66-75 | A valid spec and three requests, the last of them refused, after which the hint is waited for in vain |
| LimiterBounds.HintIsHonoured | rate_limiter.go:62-75 | On every run, a client that was told no and waits longer than it was told is told yes, whatever other keys do meanwhile; if its bucket was dropped it can only be turned away for want of room |
| LimiterBounds.AdmissionBound | rate_limiter.go:41-114 | On every run, with any sweeps and evictions, one key is told yes at most for a burst, and the debt that a bucket may leave, for each minute begun in an interval, plus what refills in it |
| Forgetting.ForgettingIsInvisible | rate_limiter.go:41-126 | If a burst and the largest possible debt refill within the grace, the sweeping, evicting limiter decides like one that never forgets, fed the same requests minus the saturation denials |
| Noticing.ForgettingIsInvisibleExactly | rate_limiter.go:41-126 | And only then, for every valid spec and every bound on the map: the condition is `burst * window + requests - gcd(window, requests) <= requests * grace` |
| Noticing.DefaultLimiterForgetsTooSoon | config.go:125 | The default configuration does not meet the condition |
| Noticing.BurstAloneIsNotEnough | rate_limiter.go:41-126 | 7 requests a minute with bursts of 7: the burst refills in exactly the grace, and forgetting still shows |
| SecretLink.UnmarshalText | burn_token.go:39-49 | The receiver is filled when the text parses and left alone when it does not |
| SecretLink.ParseBytes32IsInverse | note_id.go:20-39 | Printer and parser of identifiers and tokens are inverse both ways |
| SecretLink.ParseBytes32AcceptsExactly | note_id.go:29-39 | The server accepts exactly the texts of the browser's 43-character pattern whose last digit has no stray bits |
| SecretLink.BrowserTokenReachesServerExactly | web/static/crypto-utils.js:90-96 | A token text that the browser takes is one that the server takes exactly when it is canonical, with the same bytes |
| SecretLink.FragmentRoundTrip | web/static/crypto-utils.js:109-147 | The parsed fragment gives back key, token bytes and token text, for every key and token |
| SecretLink.FragmentIsRead | web/static/crypto-utils.js:109-121 | What a link carries: version 1 and, in base64url, an object with the key under "k" and the token under "b" |
| SecretLink.ParseFragmentExactly | web/static/crypto-utils.js:123-147 | Which fragments are read and as what: exactly those of an object of the two members, each 32 bytes in base64url |
| SecretLink.BurnTokenJourney | web/static/crypto-utils.js:90-147 | Server, creator's browser, link, reader's browser, server: the identity on every token |
| Utf8.TextDecodeInvertsExactly | web/static/crypto-utils.js:184 | Text survives encoder and decoder exactly when it does not begin with a byte order mark, and otherwise comes back without it |
| Envelopes.DecryptsWhatWasSealed | web/static/crypto-utils.js:149-211 | What the reader's page makes of a payload that the creator's page made, for every text |
| Envelopes.EnvelopeRoundTripExactly | web/static/crypto-utils.js:149-211 | The text comes back exactly when it is not empty and does not begin with a byte order mark; with a mark it comes back without it, and empty text does not come back |
| Envelopes.OtherNoteOtherData | web/static/crypto-utils.js:229-234 | The authenticated data differ exactly when identifier or header do |
| Envelopes.HeaderIsRead | web/static/crypto-utils.js:5 | The protected header reads as version 1 and A256GCM |
| Envelopes.DecryptsExactly | web/static/crypto-utils.js:172-211 | Which payloads the reader's page decrypts, and with which key, vector and data |
| Envelopes.EncodedLengthAgrees | web/static/create-note.js:450-456 | The page's length formula is the length of a real encoding |
| Envelopes.EstimateIsSixteenOver | web/static/create-note.js:440-448 | The page's estimate is the true payload length plus exactly 16, for every text |
| Envelopes.BodyLength | web/static/create-note.js:199-204 | The escaped request body is at most 123 characters longer than its ticket and payload |
| Envelopes.BodyIsRead | web/static/create-note.js:199-204 | The request body reads as ticket, burn token, payload and seconds, each under its name |
| Envelopes.BodyLimit | handlers.go:235-237 | The body limit is the payload limit and 811 more |
| Envelopes.SizeCheckIsSafe | handlers.go:235-237 | A text that passes the page's check fits the payload limit and its whole body the body limit; the check errs by exactly 16 |
| Viewers.NotePage.constructor | web/static/view-note.js:38-42 | A loaded page has read and sent nothing |
| Viewers.NotePage.BeginOpening | web/static/view-note.js:78-94 | The fragment is read and cleared once |
| Viewers.NotePage.Click | web/static/view-note.js:96-126 | What is sent, if anything, is the token of the secret read at the first click |
| Viewers.NotePage.Receive | web/static/view-note.js:131-172 | Shown, failed or ready to try again |
| Viewers.FirstClick | web/static/view-note.js:78-126 | The first click sends the token of the fragment's secret, once, or ends the opening if there is none |
| Viewers.RetriesWithTheSameToken | web/static/view-note.js:119-142 | A refusal that may be retried leads to the same token again, whatever the location says by then; other refusals and garbled responses end the opening |
| Viewers.OpeningRuns | web/static/view-note.js:78-172 | Load, click, handling and delivery in the world of many pages: the page ends with what the service answers to the token in its link |
| Viewers.LostResponseIsRetried | web/static/view-note.js:119-142 | After a lost response the next click sends the same token, whatever the location says by then |
| Viewers.PayloadIsShown | web/static/view-note.js:147-163 | A payload is shown as what it decrypts to, and ends the opening otherwise |
| Viewers.HandlerAnswers | handlers.go:156-195 | The payload, a terminal refusal, or one that may be retried: which answer of the service becomes which |
| Viewers.ActionKeeps | web/static/view-note.js:78-172 | Every click, loss, retry, navigation and service operation, refused creations of the same identifier included, keeps the payload in at most one place and each page with its one secret |
| Viewers.AtMostOneViewerShows | web/static/view-note.js:78-172 | With any number of pages, retries and lost responses, as long as no second creation succeeds: one open is answered with the payload, one page shows the note, every request of a page carries the token read before its first |
| Viewers.PossibleRunsRun | note_service.go:120-142 | No second creation of the identifier succeeds on any possible run, whoever tries |
| Viewers.CreatedNoteIsShownOnce | web/static/view-note.js:78-172 | So, from a note's creation on, at most one open gets the payload and at most one page shows it, namely what the uploaded bytes decrypt to |
| EndToEnd.SizeCheckMeetsServer | note_service.go:85-117 | With an issued ticket the server finds a payload too large exactly when the page's estimate exceeds the limit by more than 16; a text that passes the page's check fits the body limit, is admitted while its ticket is valid, and expires after the seconds that were asked for |
| EndToEnd.UploadDecrypts | web/static/create-note.js:195-204 | The uploaded bytes decrypt on the reader's page to the text, exactly under the condition of the envelope |
| EndToEnd.NoteReachesReader | note_service.go:85-206 | A note encrypted, stored and linked reaches the holder of the link, after any other operations, exactly if not opened before and not expired |
| EndToEnd.NoteIsShown | web/static/view-note.js:78-172 | And a page loaded with the link shows it: exactly the text that was written, or without a leading byte order mark, or a failure if the note is gone or empty |

## Left out

- HTTP handlers, middleware, headers, logging, views, static assets and shutdown: plumbing; of the handlers only the size and lifetime checks and the answers to an open are modelled.
- The database library: transactions are atomic and serialised, and a full file or a failing commit is an input.
- Cryptographic strength: no claim that signatures or ciphertexts are hard to forge; `Unforged` is a hypothesis.
- General JSON: only the texts that the protocol prints are read back by law; malformed texts are refused by whatever the parser answers.
- Calendar formatting: a time encodes to JSON if its year in UTC is between 0 and 9999; time zone offsets are not modelled.
- Floating point: levels, waits and hints are exact until they are truncated to whole nanoseconds, so the rounding of their `float64` values, and of the check of a rate specification, is not captured, nor is elapsed time beyond 292 years in a refill. `golang.org/x/time/rate` itself is not part of this model beyond the rule that `AllowN` admits when the wait it computes, in whole nanoseconds, is zero.
- The mutex of the limiter: requests of one limiter are taken one at a time.
- An empty client key, which the eviction loop would take for "none found": keys are non-empty.
- `parseByteSize`, proxy and origin parsing, route classification, schema version: single-branch facts that no other theorem needs.
- Bytes that are not UTF-8: the fragment and the plaintext decoder refuse them here, where the browser's decoder puts replacement characters; for the fragment both end in a refusal.
- Text with lone surrogates: characters are Unicode scalar values.
- Page events other than clicks and responses (`pageActive`, focus, clipboard, sharing, download): user interface.
- Linearization.AnswersLikeSomeOrder: requires that insertions get past their checks in time, for the same reason as the next.
- Interleavings.PromptTicketsAreSingleUse: requires that insertions commit in time, because without it the property is false (`SingleUse.SingleUseExactly`).
- Runs.WrongTokenOpensNothing: assumes that different tokens have different MACs (`MacTellsTokens`), which HMAC-SHA256 makes practically certain and no proof can give.
