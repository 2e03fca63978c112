/** A booking carried from an empty store to the webhook: the questions can all be
    answered, so the reachable stores the invariant speaks about include ones that
    post a record. */
module BookingTrace {
  import opened Wrappers
  import opened Text
  import opened Validators
  import opened Sessions
  import opened Dialogue
  import opened DialogueProperties
  import opened Reachability

  /** The answers a customer types, one per question, on a booking paid in cash. */
  datatype Answers = Answers(
    name: string,
    age: string,
    phone: string,
    whatsapp: string,
    governorate: string,
    district: string,
    bike: string,
    payment: string,
    contactTime: string)

  /** A request from session `id` carrying `text`. */
  function Ask(id: string, text: string): Request
  {
    Request(Some(id), Some(text))
  }

  /** A message `trim` leaves as it is and that is not the sentinel. */
  predicate Settled(text: string)
  {
    Trim(text) == text && text != StartSentinel
  }

  /** The name and contact answers, as requests from session `id`. */
  function ContactInputs(id: string, x: Answers, env: Env): seq<Input>
  {
    [Input(Ask(id, x.name), env)] + ([Input(Ask(id, x.age), env)]
      + ([Input(Ask(id, x.phone), env)] + [Input(Ask(id, x.whatsapp), env)]))
  }

  /** The address, bike and payment answers, as requests from session `id`. */
  function OrderInputs(id: string, x: Answers, env: Env): seq<Input>
  {
    [Input(Ask(id, x.governorate), env)] + ([Input(Ask(id, x.district), env)]
      + ([Input(Ask(id, x.bike), env)] + [Input(Ask(id, x.payment), env)]))
  }

  /** Every answer up to the payment question, in the order the bot asks for them. */
  function CashBookingInputs(id: string, x: Answers, env: Env): seq<Input>
  {
    ContactInputs(id, x, env) + OrderInputs(id, x, env)
  }

  /** The record a cash booking with answers `x` ends with: every answer in its field,
      the WhatsApp number copied from the phone, the address as the reconciliation
      service leaves it, and no down payment. */
  function CashBookingRecord(x: Answers, env: Env): Data
  {
    var typed := EmptyData.(governorate := Some(x.governorate), district := Some(x.district));
    var address := ApplyReconciliation(typed, env.reconcile(Some(x.governorate), x.district));
    Data(Some(x.name), Some(x.age), Some(x.phone), Some(x.phone), address.governorate,
         address.district, Some(x.bike), Some(x.payment), None, Some(x.contactTime))
  }

  /** Answers that every check lets through at the first attempt: a full name, a
      "same number" reply, a district the service does not flag, an allowed bike and
      a payment method without installments. */
  predicate CashPath(id: string, x: Answers, env: Env)
  {
    var ai := env.reconcile(Some(x.governorate), x.district);
    && id != ""
    && Settled(x.name) && Settled(x.age) && Settled(x.phone) && Settled(x.whatsapp)
    && Settled(x.governorate) && Settled(x.district) && Settled(x.bike)
    && Settled(x.payment) && Settled(x.contactTime)
    && IsValidFullName(x.name)
    && IsSameNumber(x.whatsapp)
    && !IsChangeGovernorate(x.district)
    && !(ai.Some? && ai.value.isMatch == Some(false))
    && IsAllowedBike(x.bike)
    && !IsInstallment(x.payment)
  }

  // ------------------------------------------------------------ one turn each

  lemma NameStep(store: Store, id: string, t: string, env: Env)
    requires id != "" && Settled(t) && IsValidFullName(t) && id !in store
    ensures var s := Turn(store, Ask(id, t), env).store;
      id in s && s[id] == Session(AskAge, EmptyData.(name := Some(t)))
  {
    assert TextOf(Ask(id, t)) == t;
    NameAnswer(store, Ask(id, t), env);
    TurnTouchesOnlyItsSession(store, Ask(id, t), env);
  }

  lemma FreeStep(store: Store, id: string, t: string, env: Env)
    requires id != "" && Settled(t) && id in store
    requires store[id].step in {AskAge, AskPhone, AskGovernorate}
    ensures var s := Turn(store, Ask(id, t), env).store; var d := store[id].data;
      && id in s
      && (store[id].step == AskAge ==> s[id] == Session(AskPhone, d.(age := Some(t))))
      && (store[id].step == AskPhone ==> s[id] == Session(AskWhatsapp, d.(phone := Some(t))))
      && (store[id].step == AskGovernorate ==> s[id] == Session(AskDistrict, d.(governorate := Some(t))))
  {
    assert TextOf(Ask(id, t)) == t;
    FreeTextAnswer(store, Ask(id, t), env);
    TurnTouchesOnlyItsSession(store, Ask(id, t), env);
  }

  lemma WhatsappStep(store: Store, id: string, t: string, env: Env)
    requires id != "" && Settled(t) && IsSameNumber(t) && id in store && store[id].step == AskWhatsapp
    ensures var s := Turn(store, Ask(id, t), env).store; var d := store[id].data;
      id in s && s[id] == Session(AskGovernorate, d.(whatsapp := d.phone))
  {
    assert TextOf(Ask(id, t)) == t;
    WhatsappAnswer(store, Ask(id, t), env);
    TurnTouchesOnlyItsSession(store, Ask(id, t), env);
  }

  lemma DistrictStep(store: Store, id: string, t: string, env: Env)
    requires id != "" && Settled(t) && !IsChangeGovernorate(t) && id in store && store[id].step == AskDistrict
    requires var ai := env.reconcile(store[id].data.governorate, t); !(ai.Some? && ai.value.isMatch == Some(false))
    ensures var s := Turn(store, Ask(id, t), env).store; var d := store[id].data;
      && id in s
      && s[id] == Session(AskBike, ApplyReconciliation(d.(district := Some(t)), env.reconcile(d.governorate, t)))
  {
    var req := Ask(id, t);
    assert TextOf(req) == t;
    var o := Advance(AskDistrict, store[id].data, t, id, env);
    TurnAdvances(store, req, env);
    assert Turn(store, req, env).store[id] == Session(o.step, o.data);
  }

  lemma BikeStep(store: Store, id: string, t: string, env: Env)
    requires id != "" && Settled(t) && IsAllowedBike(t) && id in store && store[id].step == AskBike
    ensures var s := Turn(store, Ask(id, t), env).store; var d := store[id].data;
      id in s && s[id] == Session(AskPayment, d.(bikeModel := Some(t)))
  {
    assert TextOf(Ask(id, t)) == t;
    BikeAnswer(store, Ask(id, t), env);
    TurnTouchesOnlyItsSession(store, Ask(id, t), env);
  }

  lemma CashStep(store: Store, id: string, t: string, env: Env)
    requires id != "" && Settled(t) && !IsInstallment(t) && id in store && store[id].step == AskPayment
    ensures var s := Turn(store, Ask(id, t), env).store; var d := store[id].data;
      id in s && s[id] == Session(AskContactTime, d.(paymentMethod := Some(t)))
  {
    assert TextOf(Ask(id, t)) == t;
    PaymentAnswer(store, Ask(id, t), env);
    TurnTouchesOnlyItsSession(store, Ask(id, t), env);
  }

  // ------------------------------------------------------------ the whole booking

  /** Running a list that starts with one input is running that input first. */
  lemma RunFirst(store: Store, i: Input, rest: seq<Input>)
    ensures Run(store, [i] + rest) == Run(Turn(store, i.req, i.env).store, rest)
  {
    assert ([i] + rest)[1..] == rest;
  }

  /** Running a one-input list is that input's turn. */
  lemma RunOne(store: Store, i: Input)
    ensures Run(store, [i]) == Turn(store, i.req, i.env).store
  {
    assert [i][1..] == [];
  }

  /** Running two lists one after the other is running their concatenation. */
  lemma {:induction false} RunAppend(store: Store, xs: seq<Input>, ys: seq<Input>)
    ensures Run(store, xs + ys) == Run(Run(store, xs), ys)
    decreases |xs|
  {
    if xs == [] {
      assert xs + ys == ys;
    } else {
      assert (xs + ys)[0] == xs[0] && (xs + ys)[1..] == xs[1..] + ys;
      RunAppend(Turn(store, xs[0].req, xs[0].env).store, xs[1..], ys);
    }
  }

  /** The name and contact answers bring a new session to the governorate question. */
  lemma ContactPart(id: string, x: Answers, env: Env)
    requires CashPath(id, x, env)
    ensures var store := Run(map[], ContactInputs(id, x, env));
      && id in store
      && store[id] == Session(AskGovernorate,
           EmptyData.(name := Some(x.name), age := Some(x.age), phone := Some(x.phone), whatsapp := Some(x.phone)))
  {
    var i1, i2, i3, i4 := Input(Ask(id, x.name), env), Input(Ask(id, x.age), env),
      Input(Ask(id, x.phone), env), Input(Ask(id, x.whatsapp), env);
    var s1 := Turn(map[], i1.req, env).store;
    NameStep(map[], id, x.name, env);
    var s2 := Turn(s1, i2.req, env).store;
    FreeStep(s1, id, x.age, env);
    var s3 := Turn(s2, i3.req, env).store;
    FreeStep(s2, id, x.phone, env);
    WhatsappStep(s3, id, x.whatsapp, env);
    RunFirst(map[], i1, [i2] + ([i3] + [i4]));
    RunFirst(s1, i2, [i3] + [i4]);
    RunFirst(s2, i3, [i4]);
    RunOne(s3, i4);
  }

  /** The address, bike and payment answers bring a session at the governorate
      question on to the contact-time question. */
  lemma OrderPart(store: Store, id: string, x: Answers, env: Env)
    requires CashPath(id, x, env)
    requires id in store && store[id].step == AskGovernorate && store[id].data.governorate == None
    ensures var after := Run(store, OrderInputs(id, x, env)); var d := store[id].data;
      var address := ApplyReconciliation(d.(governorate := Some(x.governorate), district := Some(x.district)),
                                         env.reconcile(Some(x.governorate), x.district));
      && id in after
      && after[id] == Session(AskContactTime, address.(bikeModel := Some(x.bike), paymentMethod := Some(x.payment)))
  {
    var i5, i6, i7, i8 := Input(Ask(id, x.governorate), env), Input(Ask(id, x.district), env),
      Input(Ask(id, x.bike), env), Input(Ask(id, x.payment), env);
    var s5 := Turn(store, i5.req, env).store;
    FreeStep(store, id, x.governorate, env);
    var s6 := Turn(s5, i6.req, env).store;
    DistrictStep(s5, id, x.district, env);
    var s7 := Turn(s6, i7.req, env).store;
    BikeStep(s6, id, x.bike, env);
    CashStep(s7, id, x.payment, env);
    RunFirst(store, i5, [i6] + ([i7] + [i8]));
    RunFirst(s5, i6, [i7] + [i8]);
    RunFirst(s6, i7, [i8]);
    RunOne(s7, i8);
  }

  /** The booking brings a new session to the contact-time question with every
      answer but the contact time in the record. */
  lemma BookingPart(id: string, x: Answers, env: Env)
    requires CashPath(id, x, env)
    ensures var store := Run(map[], CashBookingInputs(id, x, env));
      id in store && store[id] == Session(AskContactTime, CashBookingRecord(x, env).(contactTime := None))
  {
    var mid := Run(map[], ContactInputs(id, x, env));
    ContactPart(id, x, env);
    OrderPart(mid, id, x, env);
    RunAppend(map[], ContactInputs(id, x, env), OrderInputs(id, x, env));
  }

  /** A new session whose answers all pass the checks at the first attempt reaches
      the contact-time question with every answer stored. Its contact-time answer
      then posts the whole record once, ends the booking with `done = true`, and
      the summary lists the record. */
  lemma CashBookingPosts(id: string, x: Answers, env: Env)
    requires CashPath(id, x, env)
    ensures var store := Run(map[], CashBookingInputs(id, x, env));
      var r := Turn(store, Ask(id, x.contactTime), env);
      var record := Submission(SubmissionSource, id, CashBookingRecord(x, env), env.now);
      && id in store && store[id] == Session(AskContactTime, CashBookingRecord(x, env).(contactTime := None))
      && r.done && r.dispatched == Some(record)
      && r.reply == Summary(record, env.deliver(record) != NetworkFailure)
      && r.store[id] == Session(Finished, CashBookingRecord(x, env))
  {
    var store := Run(map[], CashBookingInputs(id, x, env));
    BookingPart(id, x, env);
    var req := Ask(id, x.contactTime);
    assert TextOf(req) == x.contactTime;
    assert CashBookingRecord(x, env).(contactTime := None).(contactTime := Some(x.contactTime))
        == CashBookingRecord(x, env);
    ContactTimeCompletes(store, req, env);
  }

  // ------------------------------------------------------------ an example conversation

  /** The example conversation: a three-part name, an age, a phone number, "same
      number" for WhatsApp, Giza and Al Haram, a Dayun bike, cash, and an afternoon
      contact time. */
  const DesignedAnswers: Answers := Answers(
    "أحمد محمد علي", "25", "01012345678", "نفس الرقم", "الجيزة", "الهرم", "دايون", "كاش", "بعد الظهر")

  /** A text without whitespace at either end is its own trimmed form. */
  lemma EdgeFree(t: string)
    requires t != [] && !IsSpace(t[0]) && !IsSpace(t[|t| - 1])
    ensures Trim(t) == t
  {
    assert TrimStart(t) == t;
    assert TrimEnd(t) == t;
  }

  /** ... and, without ASCII capitals, its own normalized form. */
  lemma NormalizedAlready(t: string)
    requires t != [] && !IsSpace(t[0]) && !IsSpace(t[|t| - 1])
    requires forall i :: 0 <= i < |t| ==> !('A' <= t[i] <= 'Z')
    ensures Normalize(t) == t
  {
    EdgeFree(t);
    LowerWithoutCapitals(t);
  }

  lemma DesignedNameIsFull(name: string)
    requires name == "أحمد محمد علي"
    ensures IsValidFullName(name)
  {
    var first, father, family := "أحمد", "محمد", "علي";
    ThreeWordCount(first, father, family);
    assert name == first + " " + father + " " + family;
    FullNameMeansThreeWords(name);
  }

  lemma DesignedBikeIsAllowed(bike: string)
    requires bike == "دايون"
    ensures IsAllowedBike(bike)
  {
    assert Brands[2] == bike;
    LowerWithoutCapitals(bike);
    assert OccursAt(Lower(Brands[2]), Lower(bike), 0);
    AllowedBikeMeansBrand(bike);
  }

  lemma DesignedPaymentIsCash(payment: string)
    requires payment == "كاش"
    ensures !IsInstallment(payment)
  {
    NormalizedAlready(payment);
    InstallmentMeansWord(payment);
    MissingCharNotSubstring(InstallmentWord, payment, 0);
    MissingCharNotSubstring(InstallmentNoun, payment, 0);
  }

  lemma DesignedTextsSettle(x: Answers)
    requires x == DesignedAnswers
    ensures Settled(x.name) && Settled(x.age) && Settled(x.phone) && Settled(x.whatsapp)
    ensures Settled(x.governorate) && Settled(x.district) && Settled(x.bike)
    ensures Settled(x.payment) && Settled(x.contactTime)
  {
    EdgeFree(x.name);
    EdgeFree(x.age);
    EdgeFree(x.phone);
    EdgeFree(x.whatsapp);
    EdgeFree(x.governorate);
    EdgeFree(x.district);
    EdgeFree(x.bike);
    EdgeFree(x.payment);
    EdgeFree(x.contactTime);
  }

  lemma DesignedWhatsappIsSame(whatsapp: string)
    requires whatsapp == "نفس الرقم"
    ensures IsSameNumber(whatsapp)
  {
    NormalizedAlready(whatsapp);
  }

  lemma DesignedDistrictIsNoCommand(district: string)
    requires district == "الهرم"
    ensures !IsChangeGovernorate(district)
  {
    NormalizedAlready(district);
  }

  lemma DesignedAnswersPass(id: string, env: Env)
    requires id != ""
    requires env.reconcile(Some("الجيزة"), "الهرم") == Some(AddressResult(None, None, Some(true), None))
    ensures CashPath(id, DesignedAnswers, env)
  {
    var x := DesignedAnswers;
    DesignedTextsSettle(x);
    DesignedNameIsFull(x.name);
    DesignedWhatsappIsSame(x.whatsapp);
    DesignedDistrictIsNoCommand(x.district);
    DesignedBikeIsAllowed(x.bike);
    DesignedPaymentIsCash(x.payment);
  }

  /** An example conversation: a new session that answers "أحمد محمد علي", "25", a
      phone number, "نفس الرقم", "الجيزة", "الهرم" (which the service confirms),
      "دايون", "كاش" and "بعد الظهر" ends with `done = true`, and posts and
      summarises the record holding all of them, the phone number doubling as the
      WhatsApp number. */
  lemma DesignedBookingPosts(id: string, env: Env)
    requires id != ""
    requires env.reconcile(Some("الجيزة"), "الهرم") == Some(AddressResult(None, None, Some(true), None))
    ensures var x := DesignedAnswers;
      var r := Turn(Run(map[], CashBookingInputs(id, x, env)), Ask(id, x.contactTime), env);
      var record := Submission(SubmissionSource, id,
        Data(Some("أحمد محمد علي"), Some("25"), Some("01012345678"), Some("01012345678"),
             Some("الجيزة"), Some("الهرم"), Some("دايون"), Some("كاش"), None, Some("بعد الظهر")),
        env.now);
      && r.done && r.dispatched == Some(record)
      && r.reply == Summary(record, env.deliver(record) != NetworkFailure)
  {
    DesignedAnswersPass(id, env);
    CashBookingPosts(id, DesignedAnswers, env);
  }

  /** Some run from the empty store posts a record, and some leaves a session past
      the bike question, so the hypotheses of `Reachability.SubmittedRecordIsComplete`
      and `Reachability.ReachableBikeIsAllowed` can be met. */
  lemma PostingIsReachable(id: string, env: Env)
    requires id != ""
    requires env.reconcile(Some("الجيزة"), "الهرم") == Some(AddressResult(None, None, Some(true), None))
    ensures exists inputs: seq<Input>, req: Request :: Turn(Run(map[], inputs), req, env).dispatched.Some?
    ensures exists inputs: seq<Input> :: id in Run(map[], inputs) && Run(map[], inputs)[id].step == AskContactTime
  {
    var inputs := CashBookingInputs(id, DesignedAnswers, env);
    DesignedAnswersPass(id, env);
    CashBookingPosts(id, DesignedAnswers, env);
    assert Turn(Run(map[], inputs), Ask(id, DesignedAnswers.contactTime), env).dispatched.Some?;
  }
}
