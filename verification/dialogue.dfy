/** One turn of the booking dialogue: the `/chat` handler as a pure function from the
    session store and one request to the new store, a reply and a `done` flag. The
    address reconciliation service, the webhook and the clock are inputs (`Env`). */
module Dialogue {
  import opened Wrappers
  import opened Text
  import opened Validators
  import opened Sessions

  /** The parsed answer of the address reconciliation service. A key the answer lacks,
      or holds with a JSON type other than the expected one, is `None`. */
  datatype AddressResult = AddressResult(
    normalizedGovernorate: Option<string>,
    normalizedDistrict: Option<string>,
    isMatch: Option<bool>,
    note: Option<string>)

  /** What `fetch` did with the webhook post: it rejects only when no HTTP response
      arrives; any response resolves it, whatever its status code. */
  datatype FetchOutcome = NetworkFailure | Responded(status: int)

  /** The payload posted to the webhook when a booking completes. */
  datatype Submission = Submission(source: string, sessionId: string, data: Data, createdAt: string)

  const SubmissionSource: string := "hawa-co-bot"

  /** The world a turn consults: the reconciliation service's answer for a governorate
      and a district (`None` when the call fails or its answer does not parse), the
      webhook's reaction to a payload, and the current time as an ISO timestamp. */
  datatype Env = Env(
    reconcile: (Option<string>, string) -> Option<AddressResult>,
    deliver: Submission -> FetchOutcome,
    now: string)

  /** The request body. `sessionId` is `None` when it is missing or a falsy
      non-string. `Some(k)` stands for the string id `k`, or for a truthy non-string
      id whose property key `k` is non-empty; a truthy id whose key is empty (`[]`,
      `[""]`) has no counterpart. `message` is `None` when it is not a string. */
  datatype Request = Request(sessionId: Option<string>, message: Option<string>)

  datatype Status = Ok | BadRequest

  /** The reply text, as the message it carries rather than its exact wording. */
  datatype Reply =
    | InvalidRequest
    | Silent
    | AlreadySubmitted
    | PromptFullName
    | Welcome(name: string)
    | PromptPhone
    | PromptWhatsapp
    | PromptGovernorate
    | PromptDistrict
    | PromptCorrectGovernorate
    | AddressConflict(governorate: Option<string>, district: Option<string>, note: Option<string>)
    | PromptBike
    | BikeNotAllowed
    | PromptPaymentMethod
    | PromptDownPayment
    | PromptContactTime
    | PromptContactTimeToConfirm
    | Summary(record: Submission, delivered: bool)
    | StartOver

  /** What the step `switch` decides: the session's next step and data, the reply,
      `done`, and the payload posted to the webhook, if any. */
  datatype Outcome = Outcome(step: Step, data: Data, reply: Reply, done: bool, dispatched: Option<Submission>)

  datatype TurnResult = TurnResult(store: Store, status: Status, reply: Reply, done: bool, dispatched: Option<Submission>)

  /** The message the front end sends when the page opens. */
  const StartSentinel: string := "__start__"

  /** The command that sends a user back from the district question. */
  const ChangeGovernorateCommand: string := "تغيير المحافظة"

  /** Answers meaning "my WhatsApp number is the phone number I gave". */
  const SameNumberPhrases: set<string> := {"نفس الرقم", "نفس", "هو", "نفسه"}

  const InstallmentWord: string := "قسط"
  const InstallmentNoun: string := "تقسيط"

  /** JavaScript truthiness of an optional string: present and not empty. */
  predicate Truthy(o: Option<string>)
  {
    o.Some? && o.value != ""
  }

  predicate IsSameNumber(text: string)
  {
    Normalize(text) in SameNumberPhrases
  }

  /** The answer is the "change governorate" command once normalized. The handler
      compares with the normalized command, which is the command itself. */
  predicate IsChangeGovernorate(text: string)
  {
    Normalize(text) == ChangeGovernorateCommand
  }

  /** The "change governorate" command is already normalized: comparing with it is
      comparing with its normalized form, as the handler does. */
  lemma ChangeGovernorateIsNormalized(command: string)
    requires command == ChangeGovernorateCommand
    ensures Normalize(command) == command
  {
    assert TrimStart(command) == command;
    assert TrimEnd(command) == command;
    LowerWithoutCapitals(command);
  }

  /** The payment answer check of the handler. */
  predicate IsInstallment(text: string)
  {
    Contains(Normalize(text), InstallmentWord) || Contains(Normalize(text), InstallmentNoun)
  }

  /** A payment answer asks for installments exactly when, once normalized, it
      contains one of the two installment words. */
  lemma InstallmentMeansWord(text: string)
    ensures IsInstallment(text) <==>
      IsSubstring(InstallmentWord, Normalize(text)) || IsSubstring(InstallmentNoun, Normalize(text))
  {
    ContainsMeansSubstring(Normalize(text), InstallmentWord);
    ContainsMeansSubstring(Normalize(text), InstallmentNoun);
  }

  /** The reconciliation answer replaces both address fields when it carries both
      normalized names; otherwise the data is kept. */
  function ApplyReconciliation(d: Data, ai: Option<AddressResult>): Data
  {
    if ai.Some? && Truthy(ai.value.normalizedGovernorate) && Truthy(ai.value.normalizedDistrict)
    then d.(governorate := ai.value.normalizedGovernorate, district := ai.value.normalizedDistrict)
    else d
  }

  /** The step `switch` for one trimmed message `text` of session `id`. Every step
      value without a `case` (`Unset`, `Finished`, `Unrecognised`) takes `default`. */
  function Advance(step: Step, d: Data, text: string, id: string, env: Env): Outcome
  {
    match step
    case AskName =>
      if !IsValidFullName(text) then Outcome(AskName, d, PromptFullName, false, None)
      else Outcome(AskAge, d.(name := Some(text)), Welcome(text), false, None)
    case AskAge =>
      Outcome(AskPhone, d.(age := Some(text)), PromptPhone, false, None)
    case AskPhone =>
      Outcome(AskWhatsapp, d.(phone := Some(text)), PromptWhatsapp, false, None)
    case AskWhatsapp =>
      var whatsapp := if IsSameNumber(text) then d.phone else Some(text);
      Outcome(AskGovernorate, d.(whatsapp := whatsapp), PromptGovernorate, false, None)
    case AskGovernorate =>
      Outcome(AskDistrict, d.(governorate := Some(text)), PromptDistrict, false, None)
    case AskDistrict =>
      if IsChangeGovernorate(text) then Outcome(AskGovernorate, d, PromptCorrectGovernorate, false, None)
      else
        var ai := env.reconcile(d.governorate, text);
        var d' := ApplyReconciliation(d.(district := Some(text)), ai);
        if ai.Some? && ai.value.isMatch == Some(false) then
          Outcome(AskDistrict, d', AddressConflict(d'.governorate, d'.district, ai.value.note), false, None)
        else
          Outcome(AskBike, d', PromptBike, false, None)
    case AskBike =>
      if !IsAllowedBike(text) then Outcome(AskBike, d, BikeNotAllowed, false, None)
      else Outcome(AskPayment, d.(bikeModel := Some(text)), PromptPaymentMethod, false, None)
    case AskPayment =>
      var d' := d.(paymentMethod := Some(text));
      if IsInstallment(text) then Outcome(AskDownPayment, d', PromptDownPayment, false, None)
      else Outcome(AskContactTime, d', PromptContactTime, false, None)
    case AskDownPayment =>
      Outcome(AskContactTime, d.(downPayment := Some(text)), PromptContactTimeToConfirm, false, None)
    case AskContactTime =>
      var d' := d.(contactTime := Some(text));
      var record := Submission(SubmissionSource, id, d', env.now);
      Outcome(Finished, d', Summary(record, env.deliver(record).Responded?), true, Some(record))
    case _ =>
      Outcome(AskName, d, StartOver, false, None)
  }

  /** The step the `switch` sees: an unset step is first set to the name question. */
  function Effective(s: Step): Step
  {
    if s == Unset then AskName else s
  }

  /** The request guard: a truthy session id (the empty string is the one falsy
      string) and a string message. */
  predicate WellFormed(req: Request)
  {
    req.sessionId.Some? && req.sessionId.value != "" && req.message.Some?
  }

  /** The `/chat` handler. A malformed request is refused before any session exists.
      Otherwise the session is fetched (or created), the sentinel re-arms it at the
      name question, an unset step counts as the name question, a finished session
      answers that the booking is already recorded, and any other step goes through
      the step `switch`. */
  function Turn(store: Store, req: Request, env: Env): TurnResult
  {
    if !WellFormed(req) then TurnResult(store, BadRequest, InvalidRequest, false, None)
    else
      var id := req.sessionId.value;
      var (store', session) := GetSession(store, id);
      var text := Trim(req.message.value);
      if text == StartSentinel then
        TurnResult(store'[id := session.(step := AskName)], Ok, Silent, false, None)
      else
        var step := Effective(session.step);
        if step == Finished then
          TurnResult(store', Ok, AlreadySubmitted, true, None)
        else
          var o := Advance(step, session.data, text, id, env);
          TurnResult(store'[id := Session(o.step, o.data)], Ok, o.reply, o.done, o.dispatched)
  }
}
