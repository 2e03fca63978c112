/** What one turn does, step by step, stated against the whole `/chat` handler. */
module DialogueProperties {
  import opened Wrappers
  import opened Text
  import opened Validators
  import opened Sessions
  import opened Dialogue

  /** The record a turn for `id` starts from: the stored one, or a fresh one. */
  function Prior(store: Store, id: string): Session
  {
    if id in store then store[id] else FreshSession
  }

  /** The trimmed message of a request whose message is a string. */
  function TextOf(req: Request): string
    requires req.message.Some?
  {
    Trim(req.message.value)
  }

  /** A well-formed request, other than the sentinel, for a session at step `s`. */
  predicate AnswersAt(store: Store, req: Request, s: Step)
  {
    WellFormed(req) && TextOf(req) != StartSentinel && Prior(store, req.sessionId.value).step == s
  }

  /** The transitions of the dialogue, read off its question order: each step, the
      steps one non-sentinel message can lead to from it. */
  function Successors(s: Step): set<Step>
  {
    match s
    case Unset => {AskName, AskAge}
    case AskName => {AskName, AskAge}
    case AskAge => {AskPhone}
    case AskPhone => {AskWhatsapp}
    case AskWhatsapp => {AskGovernorate}
    case AskGovernorate => {AskDistrict}
    case AskDistrict => {AskDistrict, AskGovernorate, AskBike}
    case AskBike => {AskBike, AskPayment}
    case AskPayment => {AskDownPayment, AskContactTime}
    case AskDownPayment => {AskContactTime}
    case AskContactTime => {Finished}
    case Finished => {Finished}
    case Unrecognised => {AskName}
  }

  /** A non-sentinel message to a session that is not finished is decided by the step
      `switch` alone, and its outcome is written back under the session id. */
  lemma TurnAdvances(store: Store, req: Request, env: Env)
    requires WellFormed(req) && TextOf(req) != StartSentinel
    requires Prior(store, req.sessionId.value).step != Finished
    ensures var id := req.sessionId.value; var p := Prior(store, id);
      var o := Advance(Effective(p.step), p.data, TextOf(req), id, env);
      var r := Turn(store, req, env);
      && r.store == store[id := Session(o.step, o.data)]
      && r.status == Ok && r.reply == o.reply && r.done == o.done && r.dispatched == o.dispatched
  {
    var id := req.sessionId.value;
    var g := GetSession(store, id);
    assert g.1 == Prior(store, id);
    var o := Advance(Effective(g.1.step), g.1.data, Trim(req.message.value), id, env);
    TurnUnfolds(store, req, env);
    WriteAfterGet(store, id, Session(o.step, o.data));
  }

  /** The last branch of the handler, written against the store `GetSession` returns. */
  lemma TurnUnfolds(store: Store, req: Request, env: Env)
    requires WellFormed(req) && TextOf(req) != StartSentinel
    requires Effective(GetSession(store, req.sessionId.value).1.step) != Finished
    ensures var id := req.sessionId.value; var g := GetSession(store, id);
      var o := Advance(Effective(g.1.step), g.1.data, Trim(req.message.value), id, env);
      Turn(store, req, env) == TurnResult(g.0[id := Session(o.step, o.data)], Ok, o.reply, o.done, o.dispatched)
  {
  }

  /** Writing a session back makes the record `GetSession` may have added irrelevant. */
  lemma WriteAfterGet(store: Store, id: string, v: Session)
    ensures GetSession(store, id).0[id := v] == store[id := v]
  {
  }

  /** The shape of every `switch` outcome: only the contact-time question completes
      the booking and posts to the webhook, and the next step is a successor. */
  lemma AdvanceShape(step: Step, d: Data, text: string, id: string, env: Env)
    requires step != Finished && step != Unset
    ensures var o := Advance(step, d, text, id, env);
      && (o.done <==> step == AskContactTime)
      && (o.dispatched.Some? <==> step == AskContactTime)
      && o.step in Successors(step)
  {
    match step
    case AskDistrict =>
      var ai := env.reconcile(d.governorate, text);
      if !IsChangeGovernorate(text) && ai.Some? && ai.value.isMatch == Some(false) {
        assert Advance(step, d, text, id, env).step == AskDistrict;
      }
    case _ =>
  }

  // ------------------------------------------------------------ guard and store

  /** A request without a session id or without a string message is refused with the
      input-error status; no session is created and nothing outside is consulted. */
  lemma MalformedRequestRefused(store: Store, req: Request, env: Env, other: Env)
    requires !WellFormed(req)
    ensures var r := Turn(store, req, env);
      && r.store == store && r.status == BadRequest && r.reply == InvalidRequest
      && !r.done && r.dispatched == None
      && r == Turn(store, req, other)
  {
  }

  /** A well-formed turn succeeds, adds at most its own session id to the store and
      leaves every other session's record as it was. */
  lemma TurnTouchesOnlyItsSession(store: Store, req: Request, env: Env)
    requires WellFormed(req)
    ensures var r := Turn(store, req, env);
      && r.status == Ok
      && r.store.Keys == store.Keys + {req.sessionId.value}
      && forall k :: k in store && k != req.sessionId.value ==> r.store[k] == store[k]
  {
  }

  // ------------------------------------------------------------ sentinel and finished

  /** The sentinel, once trimmed, puts the session at the name question whatever its
      step (a finished booking included), keeps its data, and answers with an empty
      reply and `done = false`. */
  lemma StartArmsSession(store: Store, req: Request, env: Env, other: Env)
    requires WellFormed(req) && TextOf(req) == StartSentinel
    ensures var r := Turn(store, req, env); var id := req.sessionId.value;
      && r.store[id] == Session(AskName, Prior(store, id).data)
      && r.reply == Silent && !r.done && r.dispatched == None
      && r == Turn(store, req, other)
  {
  }

  /** A finished booking answers every other message with the already-submitted reply
      and `done = true`, changes nothing and posts nothing. */
  lemma FinishedAbsorbsMessages(store: Store, req: Request, env: Env, other: Env)
    requires AnswersAt(store, req, Finished)
    ensures var r := Turn(store, req, env);
      && r.store == store && r.reply == AlreadySubmitted && r.done && r.dispatched == None
      && r == Turn(store, req, other)
  {
  }

  // ------------------------------------------------------------ validated answers

  /** At the name question (or with no step yet), an answer that is not a full name
      leaves the step and data unchanged; a full name is stored as `name`, nothing
      else changes, and the step moves to the age question. */
  lemma NameAnswer(store: Store, req: Request, env: Env)
    requires AnswersAt(store, req, Unset) || AnswersAt(store, req, AskName)
    ensures var r := Turn(store, req, env); var p := Prior(store, req.sessionId.value);
      var s := r.store[req.sessionId.value]; var text := TextOf(req);
      && (!IsValidFullName(text) ==> s == Session(AskName, p.data) && r.reply == PromptFullName)
      && (IsValidFullName(text) ==>
            && s.step == AskAge && s.data.name == Some(text) && s.data.(name := p.data.name) == p.data
            && r.reply == Welcome(text))
      && !r.done && r.dispatched == None
  {
    var id := req.sessionId.value;
    var p := Prior(store, id);
    var o := Advance(AskName, p.data, TextOf(req), id, env);
    TurnAdvances(store, req, env);
    assert Turn(store, req, env).store[id] == Session(o.step, o.data);
  }

  /** At the bike question, an answer naming no allowed brand leaves the step and data
      unchanged; an allowed one is stored as `bikeModel`, nothing else changes, and the
      step moves to the payment question. */
  lemma BikeAnswer(store: Store, req: Request, env: Env)
    requires AnswersAt(store, req, AskBike)
    ensures var r := Turn(store, req, env); var p := Prior(store, req.sessionId.value);
      var s := r.store[req.sessionId.value]; var text := TextOf(req);
      && (!IsAllowedBike(text) ==> s == p && r.reply == BikeNotAllowed)
      && (IsAllowedBike(text) ==>
            && s.step == AskPayment && s.data.bikeModel == Some(text)
            && s.data.(bikeModel := p.data.bikeModel) == p.data && r.reply == PromptPaymentMethod)
      && !r.done && r.dispatched == None
  {
  }

  /** Age, phone and governorate take any answer: it is stored verbatim (trimmed) in
      that question's field alone and the next question follows. */
  lemma FreeTextAnswer(store: Store, req: Request, env: Env)
    requires AnswersAt(store, req, AskAge) || AnswersAt(store, req, AskPhone) || AnswersAt(store, req, AskGovernorate)
    ensures var r := Turn(store, req, env); var p := Prior(store, req.sessionId.value);
      var s := r.store[req.sessionId.value]; var t := Some(TextOf(req));
      && (p.step == AskAge ==> s == Session(AskPhone, p.data.(age := t)) && r.reply == PromptPhone)
      && (p.step == AskPhone ==> s == Session(AskWhatsapp, p.data.(phone := t)) && r.reply == PromptWhatsapp)
      && (p.step == AskGovernorate ==>
            s == Session(AskDistrict, p.data.(governorate := t)) && r.reply == PromptDistrict)
      && !r.done && r.dispatched == None
  {
  }

  /** The down payment takes any answer: it is stored as `downPayment` alone and the
      contact-time question follows. */
  lemma DownPaymentAnswer(store: Store, req: Request, env: Env)
    requires AnswersAt(store, req, AskDownPayment)
    ensures var r := Turn(store, req, env); var p := Prior(store, req.sessionId.value);
      && r.store[req.sessionId.value] == Session(AskContactTime, p.data.(downPayment := Some(TextOf(req))))
      && r.reply == PromptContactTimeToConfirm && !r.done && r.dispatched == None
  {
  }

  /** At the WhatsApp question, one of the "same number" phrases (after trimming and
      lower-casing) copies the phone number; any other answer is stored as given. Only
      `whatsapp` changes and the governorate question follows. */
  lemma WhatsappAnswer(store: Store, req: Request, env: Env)
    requires AnswersAt(store, req, AskWhatsapp)
    ensures var r := Turn(store, req, env); var p := Prior(store, req.sessionId.value);
      var s := r.store[req.sessionId.value]; var text := TextOf(req);
      && s.step == AskGovernorate
      && (Normalize(text) in SameNumberPhrases ==> s.data.whatsapp == p.data.phone)
      && (Normalize(text) !in SameNumberPhrases ==> s.data.whatsapp == Some(text))
      && s.data.(whatsapp := p.data.whatsapp) == p.data
      && !r.done && r.dispatched == None
  {
  }

  // ------------------------------------------------------------ address

  /** At the district question, the "change governorate" command returns to the
      governorate question without touching the data or consulting the service. */
  lemma DistrictChangeGovernorate(store: Store, req: Request, env: Env, other: Env)
    requires AnswersAt(store, req, AskDistrict) && IsChangeGovernorate(TextOf(req))
    ensures var r := Turn(store, req, env); var p := Prior(store, req.sessionId.value);
      && r.store[req.sessionId.value] == Session(AskGovernorate, p.data)
      && r.reply == PromptCorrectGovernorate && !r.done
      && r == Turn(store, req, other)
  {
  }

  /** Any other answer at the district question is the district. The service is asked
      about the stored governorate and that district; when its answer carries both
      normalized names they replace both fields. The dialogue holds at the district
      question, reporting the conflict, exactly when the answer says `is_match: false`;
      a missing answer or verdict moves on to the bike question. */
  lemma AdvanceDistrict(d: Data, text: string, id: string, env: Env)
    requires !IsChangeGovernorate(text)
    ensures var o := Advance(AskDistrict, d, text, id, env);
      var ai := env.reconcile(d.governorate, text);
      var normalized := ai.Some? && Truthy(ai.value.normalizedGovernorate) && Truthy(ai.value.normalizedDistrict);
      && (normalized ==>
            o.data.governorate == ai.value.normalizedGovernorate && o.data.district == ai.value.normalizedDistrict)
      && (!normalized ==> o.data.governorate == d.governorate && o.data.district == Some(text))
      && o.data.(governorate := d.governorate, district := d.district) == d
      && (o.step == AskDistrict <==> ai.Some? && ai.value.isMatch == Some(false))
      && (o.step != AskDistrict ==> o.step == AskBike && o.reply == PromptBike)
      && (o.step == AskDistrict ==>
            o.reply == AddressConflict(o.data.governorate, o.data.district, ai.value.note))
      && !o.done && o.dispatched == None
  {
  }

  lemma DistrictAnswer(store: Store, req: Request, env: Env)
    requires AnswersAt(store, req, AskDistrict) && !IsChangeGovernorate(TextOf(req))
    ensures var r := Turn(store, req, env); var p := Prior(store, req.sessionId.value);
      var s := r.store[req.sessionId.value]; var text := TextOf(req);
      var ai := env.reconcile(p.data.governorate, text);
      var normalized := ai.Some? && Truthy(ai.value.normalizedGovernorate) && Truthy(ai.value.normalizedDistrict);
      && (normalized ==>
            s.data.governorate == ai.value.normalizedGovernorate && s.data.district == ai.value.normalizedDistrict)
      && (!normalized ==> s.data.governorate == p.data.governorate && s.data.district == Some(text))
      && s.data.(governorate := p.data.governorate, district := p.data.district) == p.data
      && (s.step == AskDistrict <==> ai.Some? && ai.value.isMatch == Some(false))
      && (s.step != AskDistrict ==> s.step == AskBike && r.reply == PromptBike)
      && (s.step == AskDistrict ==>
            r.reply == AddressConflict(s.data.governorate, s.data.district, ai.value.note))
      && !r.done && r.dispatched == None
  {
    var id := req.sessionId.value;
    var p := Prior(store, id);
    var o := Advance(AskDistrict, p.data, TextOf(req), id, env);
    TurnAdvances(store, req, env);
    assert Turn(store, req, env).store[id] == Session(o.step, o.data);
    AdvanceDistrict(p.data, TextOf(req), id, env);
  }

  // ------------------------------------------------------------ payment and completion

  /** At the payment question the answer is stored as the payment method; the down
      payment question follows exactly when the normalized answer contains one of the
      two installment words, else the contact-time question. */
  lemma AdvancePayment(d: Data, text: string, id: string, env: Env)
    ensures var o := Advance(AskPayment, d, text, id, env); var norm := Normalize(text);
      && o.data == d.(paymentMethod := Some(text))
      && (o.step == AskDownPayment <==> IsInstallment(text))
      && (o.step != AskDownPayment ==> o.step == AskContactTime)
      && !o.done && o.dispatched == None
  {
  }

  lemma PaymentAnswer(store: Store, req: Request, env: Env)
    requires AnswersAt(store, req, AskPayment)
    ensures var r := Turn(store, req, env); var p := Prior(store, req.sessionId.value);
      var s := r.store[req.sessionId.value];
      && s.data == p.data.(paymentMethod := Some(TextOf(req)))
      && (s.step == AskDownPayment <==> IsInstallment(TextOf(req)))
      && (s.step != AskDownPayment ==> s.step == AskContactTime)
      && !r.done && r.dispatched == None
  {
    var id := req.sessionId.value;
    var p := Prior(store, id);
    var o := Advance(AskPayment, p.data, TextOf(req), id, env);
    TurnAdvances(store, req, env);
    assert Turn(store, req, env).store[id] == Session(o.step, o.data);
    AdvancePayment(p.data, TextOf(req), id, env);
  }

  /** At the contact-time question the answer is stored, the whole record is posted
      once to the webhook, and the session finishes with `done = true` whatever the
      webhook does. The summary reports delivery whenever an HTTP response came back,
      whatever its status, and a failure only when none did. */
  lemma ContactTimeCompletes(store: Store, req: Request, env: Env)
    requires AnswersAt(store, req, AskContactTime)
    ensures var r := Turn(store, req, env); var id := req.sessionId.value; var p := Prior(store, id);
      var d := p.data.(contactTime := Some(TextOf(req)));
      var record := Submission(SubmissionSource, id, d, env.now);
      && r.store[id] == Session(Finished, d)
      && r.done && r.dispatched == Some(record)
      && r.reply.Summary? && r.reply.record == record
      && (r.reply.delivered <==> env.deliver(record) != NetworkFailure)
  {
  }

  /** A step value the dialogue does not know sends the user back to the name question
      with the data kept. */
  lemma UnrecognisedStepRestarts(store: Store, req: Request, env: Env)
    requires AnswersAt(store, req, Unrecognised)
    ensures var r := Turn(store, req, env); var p := Prior(store, req.sessionId.value);
      && r.store[req.sessionId.value] == Session(AskName, p.data)
      && r.reply == StartOver && !r.done && r.dispatched == None
  {
  }

  // ------------------------------------------------------------ whole-turn properties

  /** `done` is true exactly for a non-sentinel message to a session at the
      contact-time question or already finished. */
  lemma DoneExactly(store: Store, req: Request, env: Env)
    ensures Turn(store, req, env).done <==>
      AnswersAt(store, req, AskContactTime) || AnswersAt(store, req, Finished)
  {
    WholeTurnShape(store, req, env);
  }

  /** The webhook is posted to exactly when a session answers the contact-time question. */
  lemma DispatchExactly(store: Store, req: Request, env: Env)
    ensures Turn(store, req, env).dispatched.Some? <==> AnswersAt(store, req, AskContactTime)
  {
    WholeTurnShape(store, req, env);
  }

  /** Every turn moves the session along the question order: the sentinel to the name
      question, any other message to one of the successors of the step it found. */
  lemma StepFollowsOrder(store: Store, req: Request, env: Env)
    requires WellFormed(req)
    ensures var id := req.sessionId.value; var s := Turn(store, req, env).store[id].step;
      && (TextOf(req) == StartSentinel ==> s == AskName)
      && (TextOf(req) != StartSentinel ==> s in Successors(Prior(store, id).step))
  {
    WholeTurnShape(store, req, env);
  }

  lemma WholeTurnShape(store: Store, req: Request, env: Env)
    ensures var r := Turn(store, req, env);
      && (r.done <==> AnswersAt(store, req, AskContactTime) || AnswersAt(store, req, Finished))
      && (r.dispatched.Some? <==> AnswersAt(store, req, AskContactTime))
      && (WellFormed(req) && TextOf(req) == StartSentinel ==> r.store[req.sessionId.value].step == AskName)
      && (WellFormed(req) && TextOf(req) != StartSentinel ==>
            r.store[req.sessionId.value].step in Successors(Prior(store, req.sessionId.value).step))
  {
    if WellFormed(req) && TextOf(req) != StartSentinel {
      var id := req.sessionId.value;
      var p := Prior(store, id);
      if p.step != Finished {
        TurnAdvances(store, req, env);
        AdvanceShape(Effective(p.step), p.data, TextOf(req), id, env);
      }
    }
  }
}
