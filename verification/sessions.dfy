/** The in-memory session store: one record per session id, created on first use. */
module Sessions {
  import opened Wrappers

  /** Where a session stands in the booking dialogue. `Unset` is the `null` step of
      a freshly created session; `Unrecognised` is any other non-empty step value,
      which the dialogue's `default` branch handles. */
  datatype Step =
    | Unset
    | AskName
    | AskAge
    | AskPhone
    | AskWhatsapp
    | AskGovernorate
    | AskDistrict
    | AskBike
    | AskPayment
    | AskDownPayment
    | AskContactTime
    | Finished
    | Unrecognised

  /** The answers collected so far; `None` is a property the record does not have yet. */
  datatype Data = Data(
    name: Option<string>,
    age: Option<string>,
    phone: Option<string>,
    whatsapp: Option<string>,
    governorate: Option<string>,
    district: Option<string>,
    bikeModel: Option<string>,
    paymentMethod: Option<string>,
    downPayment: Option<string>,
    contactTime: Option<string>)

  const EmptyData: Data := Data(None, None, None, None, None, None, None, None, None, None)

  datatype Session = Session(step: Step, data: Data)

  /** The record `{ step: null, data: {} }` a new session id starts with. */
  const FreshSession: Session := Session(Unset, EmptyData)

  type Store = map<string, Session>

  /** Looks `id` up, adding a fresh record when it is absent. The store gains at most
      the key `id`, no record already present changes, and the record handed back is
      the one stored under `id`: the existing one, or a fresh one. */
  function GetSession(store: Store, id: string): (r: (Store, Session))
    ensures r.0.Keys == store.Keys + {id}
    ensures forall k :: k in store ==> r.0[k] == store[k]
    ensures r.1 == r.0[id]
    ensures id !in store ==> r.1 == FreshSession
    ensures id in store ==> r.0 == store
  {
    if id !in store then (store[id := FreshSession], FreshSession) else (store, store[id])
  }
}
