/** What the marketable-limit shaping asks for (app/brokers/venue_orders.py, app/brokers/pricing.py), on the
    quotes' and tickets' own fields. */
module VenueRules {
  import opened BrokerModels
  import opened Rounding
  import opened VenueOrders

  /** A price inside the range that counts as a quote. */
  predicate Usable(p: Option<real>) { p.Some? && 0.0 < p.value < 1000000.0 }

  /** The side of the market to lean through: the bid for a sell, the ask for a buy, else the last print,
      else the other side; absent when none is usable. */
  lemma ReferenceIs(side: Side, t: Tape)
    ensures
      var near, far := if side.Buy? then t.ask else t.bid, if side.Buy? then t.bid else t.ask;
      && (Usable(near) ==> ReferencePrice(side, t) == near)
      && (!Usable(near) && Usable(t.last) ==> ReferencePrice(side, t) == t.last)
      && (!Usable(near) && !Usable(t.last) && Usable(far) ==> ReferencePrice(side, t) == far)
      && (ReferencePrice(side, t).None? <==> !Usable(near) && !Usable(t.last) && !Usable(far))
  {
  }

  /** So many ticks to the dollar: cents from a dollar up, hundredths of a cent below. */
  function TicksPerDollar(price: real): real { if price < 1.0 then 10000.0 else 100.0 }

  lemma TickIs(price: real)
    ensures Tick(price) * TicksPerDollar(price) == 1.0
  {
  }

  /** The nearest tick, and of two equally near the higher one. */
  predicate NearestTick(price: real, tick: real) {
    var n := TicksPerDollar(price);
    (tick * n).Floor as real == tick * n && price * n - 0.5 < tick * n <= price * n + 0.5
  }

  lemma NearestOf(price: real, n: real)
    requires n > 0.0
    ensures
      var tick := HalfUp(price * n) as real / n;
      tick * n == HalfUp(price * n) as real && (tick * n).Floor as real == tick * n
  {
    var k := HalfUp(price * n);
    assert k as real / n * n == k as real;
  }

  lemma RoundEquityIsNearestTick(price: real)
    requires price > 0.0
    ensures NearestTick(price, RoundEquity(price))
  {
    if price < 1.0 { NearestOf(price, 10000.0); } else { NearestOf(price, 100.0); }
  }

  lemma NearestTickIsUnique(price: real, a: real, b: real)
    requires NearestTick(price, a) && NearestTick(price, b)
    ensures a == b
  {
    var n := TicksPerDollar(price);
    var i, j := (a * n).Floor, (b * n).Floor;
    assert i == j;
  }

  /** Two cents through the reference, or 2.5 percent where that is more; 8 percent for a flatten. A sell
      never asks for less than a cent. */
  predicate LeansTo(side: Side, last: real, flatten: bool, target: real) {
    var ahead := if flatten then (if last <= 0.25 then last + 0.02 else 1.08 * last)
                 else if last <= 0.8 then last + 0.02 else 1.025 * last;
    target == if side.Buy? then ahead else Max(2.0 * last - ahead, 0.01)
  }

  lemma RawLimitLeans(side: Side, last: real, flatten: bool)
    requires last > 0.0
    ensures LeansTo(side, last, flatten, RawLimit(side, last, flatten))
  {
  }

  /** A limit is set exactly at the tick nearest to the price leant to, where that is still a price. */
  lemma LimitIff(side: Side, last: real, flatten: bool, target: real, limit: real)
    requires LeansTo(side, last, flatten, target)
    ensures Aggressive(side, last, flatten) == Some(limit) <==>
      Usable(Some(last)) && NearestTick(target, limit) && Usable(Some(limit))
  {
    if 0.0 < last {
      RawLimitLeans(side, last, flatten);
      RoundEquityIsNearestTick(target);
      if NearestTick(target, limit) { NearestTickIsUnique(target, limit, RoundEquity(target)); }
    }
  }

  predicate IsStopCode(code: OrderCode) {
    code in {Stp, Stop, StpLmtSpaced, StpLmt, StopLimit, Trail, TrailingStop}
  }

  predicate IsLimitCode(code: OrderCode) { code == Lmt || code == Limit }

  /** The ticket already leans at least as far as the price wanted. */
  predicate LeansAlready(side: Side, ticket: Ticket, want: real) {
    && IsLimitCode(ticket.code) && Usable(ticket.limit)
    && (side.Buy? ==> ticket.limit.value >= want) && (side.Sell? ==> ticket.limit.value <= want)
  }

  /** Which orders are refused, and what limit the others get: their own where they already lean at least
      that far, else the aggressive one. */
  lemma ShapingIs(marketableVenue: bool, side: Side, ticket: Ticket, t: Tape, flatten: bool)
    ensures
      var out, reference := ApplyMarketable(marketableVenue, side, ticket, t, flatten), ReferencePrice(side, t);
      var want := if reference.Some? then Aggressive(side, reference.value, flatten) else None;
      && (out.RefusedStop? <==> IsStopCode(ticket.code))
      && (out.RefusedVenue? <==> !IsStopCode(ticket.code) && !marketableVenue)
      && (out.NoPrice? <==> !IsStopCode(ticket.code) && marketableVenue && want.None?)
      && (out.Shaped? ==> out == Shaped(if LeansAlready(side, ticket, want.value) then ticket.limit.value else want.value))
  {
  }

  /** The order manager looks at the live print alone and keeps the ticket as it was when there is none, or
      when the ticket cannot be shaped. */
  lemma ManagerPassIs(side: Side, ticket: Ticket, last: Option<real>, flatten: bool)
    ensures
      var out := ApplyMarketable(true, side, ticket, Tape(last, None, None), flatten);
      RunPass(side, ticket, ManagerPass(last, flatten)) ==
        Some(if out.Shaped? && last != Some(0.0) then Ticket(Limit, Some(out.limit)) else ticket)
  {
  }

  /** The adapter looks at the whole tape, never flattens, sends a resting stop as written and rejects what
      it cannot shape. */
  lemma AdapterPassIs(side: Side, ticket: Ticket, t: Tape)
    ensures
      var out := ApplyMarketable(true, side, ticket, t, false);
      && (IsStopCode(ticket.code) ==> RunPass(side, ticket, AdapterPass(t)) == Some(ticket))
      && (out.Shaped? ==> RunPass(side, ticket, AdapterPass(t)) == Some(Ticket(Limit, Some(out.limit))))
      && (out.NoPrice? ==> RunPass(side, ticket, AdapterPass(t)) == None)
  {
  }
}
