# Booking chatbot dialogue, modelled in Dafny

The server behind the Hawa Co booking chatbot walks a customer through a fixed set
of questions. In order they are: full name, age, mobile number, WhatsApp number,
governorate, district, motorcycle model, payment method, an optional down payment,
and the preferred contact time. Each `/chat` request carries a session id and one
message. The handler trims the message, checks it against the session's current
step, updates an in-memory session record and answers with a reply and a `done`
flag. When the last answer arrives, the whole record is posted to an automation
webhook.

This project models that handler as a pure function, `Dialogue.Turn`. It takes the
session store, a request and an environment value (`Env`) and returns:

- the new store;
- a status (`Ok`, or `BadRequest` for the input-error branch);
- an abstract reply tag;
- the `done` flag;
- the payload handed to the webhook, if any.

The project then proves what the handler promises.

- `Text`: the string primitives the handler relies on.
  - `trim` strips the ECMAScript whitespace and line-terminator set.
  - `toLowerCase` lower-cases ASCII letters only.
  - `includes` searches for a substring.
  - `split(/\s+/).filter(Boolean)` splits on whitespace runs and drops empty pieces.
  - Each primitive is a plain recursive function. A separate lemma characterises it,
    for example `ContainsMeansSubstring` and `SplitShape`.
- `Validators`: the brand allowlist, `isAllowedBike` and `isValidFullName`.
- `Sessions`: the step enumeration, the session record, the store, and `getSession`.
- `Dialogue`: the handler.
  - The input guard comes first, then the `__start__` sentinel, then the "no step
    yet" default, then the `finished` short-circuit, then the step `switch`
    (`Advance`).
  - The address reconciliation service is `Env.reconcile`. It yields
    `Option<AddressResult>`, which is `None` when the call fails or its answer does
    not parse.
  - The webhook is `Env.deliver`. It yields `NetworkFailure` or `Responded(status)`.
  - The ISO timestamp is `Env.now`.
- `DialogueProperties`: what one turn does at each step, stated against the whole
  handler, plus whole-turn facts: when `done` is set, when the webhook is called,
  and the transition order.
- `Reachability`: a per-step invariant (`Consistent`) saying which answers a session
  must already hold at each step, including the down payment of an installment
  booking once the contact-time question is reached. It is preserved by every turn.
  Therefore every store reached from the empty store by any sequence of requests
  (`Run`) satisfies it, whatever the services answer.
- `BookingTrace`: a whole booking from the empty store. Answers that pass every check
  at the first attempt, paid in cash, lead to the contact-time question with every
  answer stored. The last answer then posts the complete record. An example
  conversation in Arabic is one instance. So the reachable stores the invariant speaks
  about include sessions that post a record.

Two behaviours of the code differ from what its own comments and replies suggest.
The model follows the code:

- The comments at server.js:116-118 describe `__start__` as the signal the page
  sends when it opens, which only sets the step. The comment at server.js:128 says
  a booking that is already finished gets the "already registered" reply. But the
  sentinel is checked before the `finished` test (server.js:119-136). So
  `__start__` re-arms a finished session at the name question and keeps its data,
  instead of being absorbed. `StartArmsSession` states this.
  `FinishedAbsorbsMessages` covers every other message. A second pass through the
  questions therefore starts from the first booking's answers. If it answers the
  payment question with cash, the record it posts still carries the first booking's
  down payment (server.js:262, 270, 291). Completing it calls the webhook a second
  time.
- The reply says the request was sent successfully whenever `fetch` resolves
  (server.js:315-330). `fetch` resolves on any HTTP response, including a non-2xx
  status. Only a network failure produces the failure notice. `ContactTimeCompletes` states this.

## Model

| member | source | states |
|---|---|---|
| Text.TrimStartShape | server.js:112 | the leading part `trim` removes is all whitespace, and what remains starts with a non-whitespace character |
| Text.TrimEndShape | server.js:112 | the trailing part `trim` removes is all whitespace, and what remains ends with a non-whitespace character |
| Text.TrimShape | server.js:112 | the message is leading whitespace, then the trimmed text, then trailing whitespace; the trimmed text neither starts nor ends with whitespace |
| Text.TrimIdempotent | server.js:112 | trimming an already trimmed text changes nothing |
| Text.LowerShape | server.js:44 | `Lower`, the model's `toLowerCase`, keeps the length and lower-cases every character in place (ASCII letters only; see the case-mapping line under "Left out") |
| Text.LowerAppend | server.js:44 | lower-casing a concatenation is concatenating the lower-cased parts |
| Text.LowerIdempotent | server.js:44 | lower-casing twice is lower-casing once, and it never turns whitespace into non-whitespace or back |
| Text.NormalizeShape | server.js:62-64 | a normalized text is no longer than the input and has no whitespace at either end |
| Text.NormalizeIdempotent | server.js:62-64 | normalizing a normalized text changes nothing |
| Text.ContainsMeansSubstring | server.js:46 | `includes` is true exactly when the needle occurs at some position of the text |
| Text.SubstringOfSuperstring | server.js:46 | a text found in `m` is found in any text that contains `m` |
| Text.SplitShape | server.js:58 | `split(/\s+/)` cuts the text exactly at its whitespace runs: the text is the pieces woven with runs, with nothing before the first piece or after the last, a non-empty whitespace run between two pieces, no whitespace inside a piece, and only the first or last piece empty (`SplitCuts`); there is at least one piece, and together the pieces hold every non-whitespace character in order |
| Text.NonEmptyPartsShape | server.js:58 | `filter(Boolean)` keeps no more pieces than it is given, only non-empty pieces of the list, and loses no character; `Text.NonEmptyPartsLaws` fixes which pieces and in what order |
| Text.NonEmptyPartsLaws | server.js:58 | `filter(Boolean)` maps the empty list to itself, drops an empty piece, keeps a non-empty one, and distributes over concatenation, which fixes its result, order included, on every list |
| Text.SplitCountsWords | server.js:58 | split-then-filter yields exactly one piece per maximal whitespace-free run of the text |
| Text.TrimKeepsWordCount | server.js:58 | trimming before splitting does not change the number of words |
| Text.TrimKeepsWords | server.js:58 | a text has the same words as its trimmed form: the removed whitespace joins the first and last gaps |
| Text.WordsAreUnique | server.js:58 | a text can be laid out as non-empty whitespace-free words separated by non-empty whitespace runs in one way only, so its words are determined by the text |
| Validators.AnyBrandInMeans | server.js:45-47 | the `some` scan over a brand list succeeds exactly when some lower-cased brand occurs in the lower-cased text |
| Validators.AllowedBikeMeansBrand | server.js:30-48 | a bike answer is accepted exactly when one of the 24 allowlisted brands, lower-cased, occurs in the lower-cased answer |
| Validators.AllowedBikeSuperstring | server.js:43-48 | adding any text before or after an accepted answer keeps it accepted |
| Validators.AllowedBikeExample | server.js:30-48 | "عايز دايون 150" is accepted because it mentions the brand "دايون" |
| Validators.UnlistedBikeRejected | server.js:30-48 | "Honda CBR" is refused: no brand of the allowlist occurs in it |
| Validators.NamePartsAreWords | server.js:58 | the pieces of a name answer are its whitespace-separated words, in order: the answer is the pieces woven with whitespace runs, every inner run non-empty, and no other list of words fits the answer; there is one piece per word, each non-empty and free of whitespace |
| Validators.FullNameMeansThreeWords | server.js:57-60 | a name is accepted exactly when it holds at least three whitespace-separated words |
| Validators.BlankNameRejected | server.js:57-60 | an empty or whitespace-only name is refused |
| Validators.TwoWordNameRejected | server.js:57-60 | the two-word name "احمد محمد" is refused |
| Validators.ThreeWordNameAccepted | server.js:57-60 | the three-word name "احمد محمد علي" is accepted |
| Validators.ThreeWordCount | server.js:57-60 | any three non-empty whitespace-free words joined by single spaces count as three words |
| Sessions.GetSession | server.js:50-55 | the store gains at most the key `id`; no present record changes; a missing id gets `{step: null, data: {}}`; a present id leaves the store as it was; the record returned is the one stored under `id` |
| Dialogue.ChangeGovernorateIsNormalized | server.js:207 | comparing with `normalize("تغيير المحافظة")` is comparing with the command itself |
| Dialogue.InstallmentMeansWord | server.js:263-265 | the payment answer asks for installments exactly when its normalized form contains "قسط" or "تقسيط" |
| DialogueProperties.TurnAdvances | server.js:111-141 | a non-sentinel message to an unfinished session is decided by the step `switch` alone, and its outcome is written back under the session id |
| DialogueProperties.AdvanceShape | server.js:141-344 | only the contact-time case sets `done` and posts to the webhook, and every case moves to one of the step's successors |
| DialogueProperties.MalformedRequestRefused | server.js:107-109 | a missing or empty session id, or a non-string message, gets the input-error reply with `done = false`; no session is created, nothing is posted, and the services are not consulted |
| DialogueProperties.TurnTouchesOnlyItsSession | server.js:111 | a well-formed turn succeeds, adds at most its own id to the store and leaves every other session unchanged |
| DialogueProperties.StartArmsSession | server.js:119-122 | the trimmed sentinel sets the step to the name question whatever it was, keeps the data, and answers with an empty reply and `done = false` |
| DialogueProperties.FinishedAbsorbsMessages | server.js:129-136 | any other message to a finished session answers "already submitted" with `done = true`, changes nothing and posts nothing |
| DialogueProperties.NameAnswer | server.js:143-154 | at the name question (or with no step yet), an invalid name leaves the step at the name question with the data unchanged; a valid one stores `name` only and moves to the age question |
| DialogueProperties.FreeTextAnswer | server.js:157-200 | age, phone and governorate store the answer in their own field only and move to the next question |
| DialogueProperties.WhatsappAnswer | server.js:174-190 | one of the four "same number" phrases, after normalizing, copies `phone`; any other answer is stored as given; only `whatsapp` changes and the governorate question follows |
| DialogueProperties.DistrictChangeGovernorate | server.js:203-211 | the "change governorate" command returns to the governorate question with the data unchanged, without consulting the service |
| DialogueProperties.AdvanceDistrict | server.js:213-241 | the district is stored; both normalized names replace governorate and district only when both are present and non-empty; the step stays at the district question exactly when `is_match` is `false`, and otherwise moves to the bike question |
| DialogueProperties.DistrictAnswer | server.js:203-241 | the same district rules, stated against the whole handler |
| DialogueProperties.BikeAnswer | server.js:245-258 | an answer naming no allowed brand leaves the session unchanged; an allowed one stores `bikeModel` only and moves to the payment question |
| DialogueProperties.AdvancePayment | server.js:261-274 | the payment method is stored; the down-payment question follows exactly when the answer mentions installments, and the contact-time question follows otherwise |
| DialogueProperties.PaymentAnswer | server.js:261-274 | the same payment rules, stated against the whole handler |
| DialogueProperties.DownPaymentAnswer | server.js:277-282 | the down payment is stored in its own field and the contact-time question follows |
| DialogueProperties.ContactTimeCompletes | server.js:285-335 | the contact time is stored, the full record (source, session id, data, timestamp) is posted once, and the session finishes with `done = true` whatever the webhook does; the summary reports success exactly when the webhook call did not fail at the network level |
| DialogueProperties.UnrecognisedStepRestarts | server.js:337-343 | an unknown step value goes back to the name question with the data kept |
| DialogueProperties.DoneExactly | server.js:105-346 | `done` is true exactly for a non-sentinel message to a session at the contact-time question or already finished |
| DialogueProperties.DispatchExactly | server.js:285-335 | the webhook is called exactly when a session answers the contact-time question |
| DialogueProperties.StepFollowsOrder | server.js:119-343 | the sentinel leads to the name question; any other message leads to one of the successors of the step it found |
| Reachability.AdvanceKeepsConsistency | server.js:141-344 | the step `switch` keeps every answer a session holds, keeps the per-step invariant, and never takes the `default` branch from a consistent session |
| Reachability.TurnKeepsServedSession | server.js:111-346 | the session a turn serves stays consistent and loses none of its answers |
| Reachability.TurnKeepsConsistency | server.js:105-346 | a turn keeps every session of a consistent store consistent |
| Reachability.RunKeepsConsistency | server.js:103-354 | any sequence of requests keeps a consistent store consistent |
| Reachability.ReachableBikeIsAllowed | server.js:245-258 | in every reachable store, a session at the payment, down-payment, contact-time or finished step holds an allowed bike model |
| Reachability.ReachableNeverRestarts | server.js:337-343 | from every reachable store, no request reaches the `default` branch |
| Reachability.SubmittedRecordIsComplete | server.js:261-293 | a record posted from a reachable store has a full name, age, phone, WhatsApp number, governorate, district, an allowed bike model, a payment method and a contact time, and an installment booking's record has its down payment |
| BookingTrace.CashBookingPosts | server.js:105-335 | a new session whose answers all pass their checks at the first attempt, with a "same number" WhatsApp reply, a district the service does not flag and a payment without installments, reaches the contact-time question holding every answer; its contact-time answer then posts the whole record once, sets `done`, and replies with the summary of that record |
| BookingTrace.DesignedBookingPosts | server.js:105-335 | the example conversation "أحمد محمد علي", "25", a phone number, "نفس الرقم", "الجيزة", "الهرم" (confirmed by the service), "دايون", "كاش", "بعد الظهر" ends with `done = true` and posts and summarises the record holding all of them, with the phone number as the WhatsApp number |
| BookingTrace.PostingIsReachable | server.js:103-354 | some sequence of requests from the empty store posts a record, and some leaves a session past the bike question, so the two reachability statements above are not vacuous |

## Left out

- The transport and process setup are left out: Express, `cors`, `dotenv`, JSON body parsing, static files and `listen` (server.js:1-20, 355-370). They are infrastructure, not dialogue logic.
- The internals of the address check are left out: the prompt, the model call and `JSON.parse` (server.js:69-98). Only their outcome, an optional parsed answer, is a parameter.
- A truthy non-string value in the parsed answer's normalized fields is left out. The code would store it as is. The model's answer fields are strings or absent.
- The webhook payload encoding, `JSON.stringify`, `console.error` and `new Date().toISOString()` are left out. They are I/O, logging and the clock. The payload is the abstract `Submission`, delivery is `Env.deliver` and the timestamp is `Env.now`.
- The top-level `catch` that answers with status 500 (server.js:347-352) is left out. A total function has no runtime faults to catch.
- Concurrency between requests for one session is left out, because each turn is atomic here. The unbounded growth of the session table is left out too.
- Session ids that clash with inherited JavaScript object properties (`__proto__`, `constructor`) are left out. They are an artefact of using a plain object as the map. A non-string truthy `sessionId` is taken to be the string key it converts to. A truthy `sessionId` whose key is empty, such as `[]` or `[""]`, is left out: the code passes it through the guard and serves it under the key `""`, while the model's `Some("")` is the falsy empty string and is refused. The posted record carries the raw `sessionId` value (server.js:290), which the model represents by its key.
- Full Unicode case mapping is left out. `Text.LowerChar` lower-cases A-Z only and leaves Arabic text unchanged, as `toLowerCase` does. Two non-ASCII capitals do fold into a brand's letters under `toLowerCase`: U+212A KELVIN SIGN becomes "k", and U+0130 (capital I with dot above) becomes "i" followed by U+0307. So the code accepts "\u212AEEWAY" and "BENELL\u0130", and the model refuses both.
- Strings are modelled as sequences of Unicode scalar values, not of UTF-16 code units. A lone surrogate, such as one sent as "\ud800" in the JSON body, has no counterpart here. No decision of the handler depends on the difference, because every whitespace character, brand, phrase and command it tests for lies in the Basic Multilingual Plane.
- The exact reply texts are left out. Replies are tags that carry the values the text interpolates: the name, the address conflict with its note, the submitted record, and whether delivery succeeded.
