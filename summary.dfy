/**
 * The summary cards of app.js (`loadSummary`): each of the four totals is
 * shown as received unless it is falsy, in which case 0 is shown.
 */
module Summary {
  import opened Wrappers

  /**
   * A JSON value as a summary property may carry it. Amounts are opaque: the
   * model only needs to tell the falsy number 0 from every other number.
   */
  datatype JsonValue = Undefined | Null | Bool(b: bool) | Number(n: int) | NotANumber | Text(s: string)

  /** JavaScript falsiness for the values above. */
  predicate Falsy(v: JsonValue) {
    v.Undefined? || v.Null? || v == Bool(false) || v == Number(0) || v.NotANumber? || v == Text("")
  }

  /** `v || 0`. */
  function OrZero(v: JsonValue): (r: JsonValue)
    ensures !Falsy(r) || r == Number(0)
    ensures !Falsy(v) ==> r == v
    ensures r != v ==> Falsy(v) && r == Number(0)
  {
    if Falsy(v) then Number(0) else v
  }

  /** Defaulting twice is the same as defaulting once. */
  lemma OrZeroIdempotent(v: JsonValue)
    ensures OrZero(OrZero(v)) == OrZero(v)
  {
  }

  /** The four summary figures, as received or as shown. */
  datatype Totals = Totals(totalMembers: JsonValue, totalUSD: JsonValue, totalZWL: JsonValue, outstandingMonths: JsonValue)

  /** "Nothing missing": every figure is either truthy or the number 0. */
  predicate Displayable(t: Totals) {
    && (!Falsy(t.totalMembers) || t.totalMembers == Number(0))
    && (!Falsy(t.totalUSD) || t.totalUSD == Number(0))
    && (!Falsy(t.totalZWL) || t.totalZWL == Number(0))
    && (!Falsy(t.outstandingMonths) || t.outstandingMonths == Number(0))
  }

  /**
   * What the summary cards show after a `loadSummary` call: each figure after
   * `|| 0`, or, when the fetch or the decoding failed, what they showed before.
   */
  function Shown(prior: Totals, response: Fetch<Totals>): (shown: Totals)
    ensures response.Failed? ==> shown == prior
    ensures response.Received? ==> Displayable(shown)
    ensures response.Received? ==> shown.totalMembers == (if Falsy(response.body.totalMembers) then Number(0) else response.body.totalMembers)
    ensures response.Received? ==> shown.totalUSD == (if Falsy(response.body.totalUSD) then Number(0) else response.body.totalUSD)
    ensures response.Received? ==> shown.totalZWL == (if Falsy(response.body.totalZWL) then Number(0) else response.body.totalZWL)
    ensures response.Received? ==> shown.outstandingMonths == (if Falsy(response.body.outstandingMonths) then Number(0) else response.body.outstandingMonths)
  {
    match response
    case Failed => prior
    case Received(t) => Totals(OrZero(t.totalMembers), OrZero(t.totalUSD), OrZero(t.totalZWL), OrZero(t.outstandingMonths))
  }

  /** A received summary replaces the cards entirely, whatever they showed before. */
  lemma ReceivedIgnoresPrior(p1: Totals, p2: Totals, t: Totals)
    ensures Shown(p1, Received(t)) == Shown(p2, Received(t))
  {
  }

  /** A received summary with every figure truthy is shown exactly as received. */
  lemma TruthyShownAsIs(prior: Totals, t: Totals)
    requires !Falsy(t.totalMembers) && !Falsy(t.totalUSD) && !Falsy(t.totalZWL) && !Falsy(t.outstandingMonths)
    ensures Shown(prior, Received(t)) == t
  {
  }
}
