/** Vocabulary shared by the broker, the order tables and the execution services. */
module BrokerModels {

  datatype Option<+T> = None | Some(value: T)

  datatype Side = Buy | Sell

  /** A broker's order status (app/brokers/base.py). */
  datatype OrderStatus = New | Accepted | Filled | Partial | Canceled | Rejected

  datatype ReconResult = InSync | MinorDrift | MaterialDrift | BrokerUnavailable | LocalStateInvalid

  /** Order-type codes as they arrive, before folding. */
  datatype OrderCode =
    | Mkt | Market | Lmt | Limit | Stp | Stop
    | StpLmtSpaced | StpLmt | StopLimit | Trail | TrailingStop
    | OtherCode(name: string)

  /** The canonical order type of a code; unknown codes pass through. */
  function Canonical(code: OrderCode): OrderCode {
    match code
    case Mkt => Market
    case Lmt => Limit
    case Stp => Stop
    case StpLmtSpaced => StopLimit
    case StpLmt => StopLimit
    case Trail => TrailingStop
    case _ => code
  }

  /** Client order ids. A digest of the submission's identity is modelled by that identity,
      a generated close id by the slot it was generated for, an adopted order by its broker id. */
  datatype Key =
    | ClientKey(text: string)
    | IntentKey(intent: nat, attempt: nat)
    | CloseKey(slot: nat)
    | AdoptedKey(oid: nat)

  /** The first entry with a client order id. */
  function FirstWith<T>(xs: seq<T>, keyOf: T -> Key, k: Key): (r: Option<nat>)
    ensures r.Some? ==> r.value < |xs| && keyOf(xs[r.value]) == k
    ensures r.Some? ==> forall i :: 0 <= i < r.value ==> keyOf(xs[i]) != k
    ensures r.None? ==> forall i :: 0 <= i < |xs| ==> keyOf(xs[i]) != k
  {
    if xs == [] then None
    else
      var r := FirstWith(xs[..|xs| - 1], keyOf, k);
      if r.Some? then r else if keyOf(xs[|xs| - 1]) == k then Some(|xs| - 1) else None
  }

  /** Python's `x or y` on an optional number: absent and zero both fall through. */
  function Or(x: Option<real>, y: real): real {
    if x.None? || x.value == 0.0 then y else x.value
  }
}
