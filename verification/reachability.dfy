/** What holds of every session the dialogue can produce, from an empty store and
    any sequence of requests. */
module Reachability {
  import opened Wrappers
  import opened Validators
  import opened Sessions
  import opened Dialogue
  import opened DialogueProperties

  /** The answers of the questions up to and including the name: a full name. */
  predicate HasName(d: Data)
  {
    d.name.Some? && IsValidFullName(d.name.value)
  }

  /** The answers up to and including the WhatsApp question. */
  predicate HasContact(d: Data)
  {
    HasName(d) && d.age.Some? && d.phone.Some? && d.whatsapp.Some?
  }

  /** The answers up to and including the district question. */
  predicate HasAddress(d: Data)
  {
    HasContact(d) && d.governorate.Some? && d.district.Some?
  }

  /** The answers up to and including the bike question: an allowed model. */
  predicate HasBike(d: Data)
  {
    HasAddress(d) && d.bikeModel.Some? && IsAllowedBike(d.bikeModel.value)
  }

  /** The answers up to and including the payment question. */
  predicate HasPayment(d: Data)
  {
    HasBike(d) && d.paymentMethod.Some?
  }

  /** An installment booking has its down payment. */
  predicate HasDownPaymentIfInstallment(d: Data)
    requires d.paymentMethod.Some?
  {
    IsInstallment(d.paymentMethod.value) ==> d.downPayment.Some?
  }

  /** A session at a question holds the answers of every earlier question: a full
      name, an allowed bike model, an installment answer when the down payment is
      asked, the down payment of an installment booking past that question, and so
      on. Its step is never an unknown value, and an unset step means
      nothing has been collected yet. */
  predicate Consistent(s: Session)
  {
    var d := s.data;
    match s.step
    case Unset => d == EmptyData
    case AskName => true
    case AskAge => HasName(d)
    case AskPhone => HasName(d) && d.age.Some?
    case AskWhatsapp => HasName(d) && d.age.Some? && d.phone.Some?
    case AskGovernorate => HasContact(d)
    case AskDistrict => HasContact(d) && d.governorate.Some?
    case AskBike => HasAddress(d)
    case AskPayment => HasBike(d)
    case AskDownPayment => HasPayment(d) && IsInstallment(d.paymentMethod.value)
    case AskContactTime => HasPayment(d) && HasDownPaymentIfInstallment(d)
    case Finished => HasPayment(d) && HasDownPaymentIfInstallment(d) && d.contactTime.Some?
    case Unrecognised => false
  }

  predicate StoreConsistent(store: Store)
  {
    forall id :: id in store ==> Consistent(store[id])
  }

  /** Every answer present in `d` is still present in `d'`. */
  predicate KeepsAnswers(d: Data, d': Data)
  {
    && (d.name.Some? ==> d'.name.Some?)
    && (d.age.Some? ==> d'.age.Some?)
    && (d.phone.Some? ==> d'.phone.Some?)
    && (d.whatsapp.Some? ==> d'.whatsapp.Some?)
    && (d.governorate.Some? ==> d'.governorate.Some?)
    && (d.district.Some? ==> d'.district.Some?)
    && (d.bikeModel.Some? ==> d'.bikeModel.Some?)
    && (d.paymentMethod.Some? ==> d'.paymentMethod.Some?)
    && (d.downPayment.Some? ==> d'.downPayment.Some?)
    && (d.contactTime.Some? ==> d'.contactTime.Some?)
  }

  /** The `switch` outcome for a consistent session is consistent, keeps every answer
      it had, and is not the `default` branch's. */
  predicate AdvanceKeeps(step: Step, d: Data, text: string, id: string, env: Env)
  {
    var o := Advance(step, d, text, id, env);
    Consistent(Session(o.step, o.data)) && KeepsAnswers(d, o.data) && o.reply != StartOver
  }

  /** The step `switch` keeps a consistent session consistent and erases no answer. */
  lemma AdvanceKeepsConsistency(step: Step, d: Data, text: string, id: string, env: Env)
    requires step != Unset && step != Finished && Consistent(Session(step, d))
    ensures AdvanceKeeps(step, d, text, id, env)
  {
    if step in {AskName, AskAge, AskPhone, AskWhatsapp, AskGovernorate} {
      ContactAnswersKeepConsistency(step, d, text, id, env);
    } else if step == AskDistrict {
      DistrictKeepsConsistency(d, text, id, env);
    } else if step == AskBike {
      BikeKeepsConsistency(d, text, id, env);
    } else {
      PaymentAnswersKeepConsistency(step, d, text, id, env);
    }
  }

  /** The name and contact questions. */
  lemma ContactAnswersKeepConsistency(step: Step, d: Data, text: string, id: string, env: Env)
    requires step in {AskName, AskAge, AskPhone, AskWhatsapp, AskGovernorate}
    requires Consistent(Session(step, d))
    ensures AdvanceKeeps(step, d, text, id, env)
  {
  }

  /** The district question, with or without a reconciliation answer. */
  lemma DistrictKeepsConsistency(d: Data, text: string, id: string, env: Env)
    requires Consistent(Session(AskDistrict, d))
    ensures AdvanceKeeps(AskDistrict, d, text, id, env)
  {
    if !IsChangeGovernorate(text) {
      AdvanceDistrict(d, text, id, env);
    }
  }

  /** The bike question: only an allowed model is stored. */
  lemma BikeKeepsConsistency(d: Data, text: string, id: string, env: Env)
    requires Consistent(Session(AskBike, d))
    ensures AdvanceKeeps(AskBike, d, text, id, env)
  {
    var o := Advance(AskBike, d, text, id, env);
    if IsAllowedBike(text) {
      var d' := d.(bikeModel := Some(text));
      assert o == Outcome(AskPayment, d', PromptPaymentMethod, false, None);
      assert HasAddress(d');
    } else {
      assert o.step == AskBike && o.data == d;
    }
  }

  /** The payment, down payment and contact-time questions. */
  lemma PaymentAnswersKeepConsistency(step: Step, d: Data, text: string, id: string, env: Env)
    requires step in {AskPayment, AskDownPayment, AskContactTime}
    requires Consistent(Session(step, d))
    ensures AdvanceKeeps(step, d, text, id, env)
  {
    if step == AskPayment {
      AdvancePayment(d, text, id, env);
    }
  }

  /** The session a well-formed turn serves stays consistent, loses none of its
      answers, and the turn does not take the `default` branch. */
  lemma TurnKeepsServedSession(store: Store, req: Request, env: Env)
    requires WellFormed(req) && Consistent(Prior(store, req.sessionId.value))
    ensures var id := req.sessionId.value; var r := Turn(store, req, env);
      && Consistent(r.store[id])
      && KeepsAnswers(Prior(store, id).data, r.store[id].data)
      && r.reply != StartOver
  {
    var id := req.sessionId.value;
    var p := Prior(store, id);
    if TextOf(req) == StartSentinel {
      StartArmsSession(store, req, env, env);
    } else if p.step == Finished {
      FinishedAbsorbsMessages(store, req, env, env);
      assert id in store;
    } else {
      TurnAdvances(store, req, env);
      AdvanceKeepsConsistency(Effective(p.step), p.data, TextOf(req), id, env);
    }
  }

  /** One turn keeps every session of a consistent store consistent, erases none of
      the answers of the session it serves, and never takes the `default` branch. */
  lemma TurnKeepsConsistency(store: Store, req: Request, env: Env)
    requires StoreConsistent(store)
    ensures var r := Turn(store, req, env);
      && StoreConsistent(r.store)
      && (WellFormed(req) ==>
            KeepsAnswers(Prior(store, req.sessionId.value).data, r.store[req.sessionId.value].data))
      && r.reply != StartOver
  {
    var r := Turn(store, req, env);
    if !WellFormed(req) {
      MalformedRequestRefused(store, req, env, env);
    } else {
      var id := req.sessionId.value;
      assert Consistent(Prior(store, id));
      TurnKeepsServedSession(store, req, env);
      TurnTouchesOnlyItsSession(store, req, env);
      forall k | k in r.store
        ensures Consistent(r.store[k])
      {
        if k != id {
          assert k in store;
        }
      }
    }
  }

  /** One request of a run: the request and the world it meets. */
  datatype Input = Input(req: Request, env: Env)

  /** The store after handling `inputs` one after the other, starting from `store`. */
  function Run(store: Store, inputs: seq<Input>): Store
    decreases |inputs|
  {
    if inputs == [] then store
    else Run(Turn(store, inputs[0].req, inputs[0].env).store, inputs[1..])
  }

  /** Any run keeps a consistent store consistent. */
  lemma {:induction false} RunKeepsConsistency(store: Store, inputs: seq<Input>)
    requires StoreConsistent(store)
    ensures StoreConsistent(Run(store, inputs))
    decreases |inputs|
  {
    if inputs != [] {
      TurnKeepsConsistency(store, inputs[0].req, inputs[0].env);
      RunKeepsConsistency(Turn(store, inputs[0].req, inputs[0].env).store, inputs[1..]);
    }
  }

  /** In every session reachable from the empty store, a step at or past the payment
      question means a bike model is stored and it is an allowed one. */
  lemma ReachableBikeIsAllowed(inputs: seq<Input>, id: string)
    ensures var store := Run(map[], inputs);
      id in store && store[id].step in {AskPayment, AskDownPayment, AskContactTime, Finished} ==>
        store[id].data.bikeModel.Some? && IsAllowedBike(store[id].data.bikeModel.value)
  {
    var store := Run(map[], inputs);
    RunKeepsConsistency(map[], inputs);
    if id in store {
      assert Consistent(store[id]);
    }
  }

  /** In every store reachable from the empty one, no turn ever takes the `default`
      branch: the step is never an unknown value. */
  lemma ReachableNeverRestarts(inputs: seq<Input>, req: Request, env: Env)
    ensures Turn(Run(map[], inputs), req, env).reply != StartOver
  {
    RunKeepsConsistency(map[], inputs);
    TurnKeepsConsistency(Run(map[], inputs), req, env);
  }

  /** A record posted from a reachable store is complete: a full name, age, phone,
      WhatsApp number, governorate, district, an allowed bike model, payment method
      and contact time are all present, and so is the down payment of an installment
      booking. */
  lemma SubmittedRecordIsComplete(inputs: seq<Input>, req: Request, env: Env)
    ensures var r := Turn(Run(map[], inputs), req, env);
      r.dispatched.Some? ==>
        var d := r.dispatched.value.data;
        && d.name.Some? && IsValidFullName(d.name.value)
        && d.age.Some? && d.phone.Some? && d.whatsapp.Some?
        && d.governorate.Some? && d.district.Some?
        && d.bikeModel.Some? && IsAllowedBike(d.bikeModel.value)
        && d.paymentMethod.Some? && d.contactTime.Some?
        && (IsInstallment(d.paymentMethod.value) ==> d.downPayment.Some?)
  {
    var store := Run(map[], inputs);
    RunKeepsConsistency(map[], inputs);
    DispatchExactly(store, req, env);
    if Turn(store, req, env).dispatched.Some? {
      ContactTimeCompletes(store, req, env);
      assert Consistent(Prior(store, req.sessionId.value));
    }
  }
}
