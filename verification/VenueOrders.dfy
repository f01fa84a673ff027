/** Price ticks (app/brokers/pricing.py) and the marketable-limit shaping of orders for the
    Australian venue (app/brokers/venue_orders.py). Non-finite prices are absent prices. */
module VenueOrders {
  import opened BrokerModels
  import opened Rounding

  // ----- Ticks -----

  /** One cent from a dollar up, a hundredth of a cent below. */
  function Tick(price: real): real { if price >= 1.0 then 0.01 else 0.0001 }

  function RoundEquity(price: real): real {
    if price <= 0.0 then price
    else if price >= 1.0 then HalfUp(price * 100.0) as real / 100.0
    else HalfUp(price * 10000.0) as real / 10000.0
  }

  lemma RoundEquityWithinHalfTick(p: real)
    requires p > 0.0
    ensures p - Tick(p) / 2.0 < RoundEquity(p) <= p + Tick(p) / 2.0
  {
  }

  /** Rounding never crosses the dollar at which the tick changes. */
  lemma RoundEquityKeepsSideOfDollar(p: real)
    ensures p >= 1.0 ==> RoundEquity(p) >= 1.0
    ensures p < 1.0 ==> RoundEquity(p) <= 1.0
  {
    if p >= 1.0 {
      HalfUpMonotone(100.0, p * 100.0);
    } else {
      HalfUpMonotone(p * 10000.0, 10000.0);
    }
  }

  lemma RoundEquityMonotone(p: real, q: real)
    requires p <= q
    ensures RoundEquity(p) <= RoundEquity(q)
  {
    RoundEquityKeepsSideOfDollar(p);
    RoundEquityKeepsSideOfDollar(q);
    HalfUpMonotone(p * 100.0, q * 100.0);
    HalfUpMonotone(p * 10000.0, q * 10000.0);
  }

  lemma RoundEquityIdempotent(p: real)
    ensures RoundEquity(RoundEquity(p)) == RoundEquity(p)
  {
    RoundEquityKeepsSideOfDollar(p);
    if p >= 1.0 {
      HalfUpOfInt(HalfUp(p * 100.0));
      assert RoundEquity(p) * 100.0 == HalfUp(p * 100.0) as real;
    } else if p > 0.0 {
      HalfUpOfInt(HalfUp(p * 10000.0));
      assert RoundEquity(p) * 10000.0 == HalfUp(p * 10000.0) as real;
    }
  }

  // ----- Aggressive limits -----

  predicate SanePrice(p: real) { 0.0 < p < 1000000.0 }

  predicate Sane(p: Option<real>) { p.Some? && SanePrice(p.value) }

  datatype Tape = Tape(last: Option<real>, bid: Option<real>, ask: Option<real>)

  function FirstSane(a: Option<real>, b: Option<real>, c: Option<real>): Option<real> {
    if Sane(a) then a else if Sane(b) then b else if Sane(c) then c else None
  }

  /** The price to lean through: bid for sells, ask for buys, else the last print. */
  function ReferencePrice(side: Side, t: Tape): (r: Option<real>)
    ensures r.Some? ==> SanePrice(r.value)
  {
    if side.Sell? then FirstSane(t.bid, t.last, t.ask) else FirstSane(t.ask, t.last, t.bid)
  }

  function Slip(last: real, flatten: bool): real {
    Max(if flatten then last * 0.08 else last * 0.025, 0.02)
  }

  function RawLimit(side: Side, last: real, flatten: bool): real {
    Max(0.01, if side.Sell? then last - Slip(last, flatten) else last + Slip(last, flatten))
  }

  /** The limit through the market; absent where the source raises. */
  function Aggressive(side: Side, last: real, flatten: bool): (r: Option<real>)
    ensures r.Some? ==> SanePrice(r.value)
  {
    if !SanePrice(last) then None
    else
      var out := RoundEquity(RawLimit(side, last, flatten));
      if SanePrice(out) then Some(out) else None
  }

  /** The limit is strictly through the reference and within 10% of it. */
  predicate InsideCollar(side: Side, last: real, limit: real) {
    if side.Sell? then 0.9 * last < limit < last else last < limit < 1.1 * last
  }

  /** A whole number of hundredths of a cent, as every tick below a dollar is. */
  predicate OnFineTick(p: real) { (p * 10000.0).Floor as real == p * 10000.0 }

  lemma FineTickRounds(p: real)
    requires 0.0 < p < 1.0 && OnFineTick(p)
    ensures RoundEquity(p) == p
  {
    HalfUpOfInt((p * 10000.0).Floor);
  }

  lemma TwoCentsOffFineTick(p: real)
    requires OnFineTick(p)
    ensures OnFineTick(p - 0.02) && OnFineTick(p + 0.02)
  {
    var k := (p * 10000.0).Floor;
    assert (p - 0.02) * 10000.0 == (k - 200) as real && (p + 0.02) * 10000.0 == (k + 200) as real;
  }

  /** Below 25 cents the minimum slip rules in both modes, so on the tick grid the limit is exact. */
  lemma PennyLimitIsExact(side: Side, last: real, flatten: bool)
    requires 0.03 <= last < 0.25 && OnFineTick(last)
    ensures Aggressive(side, last, flatten) == Some(if side.Sell? then last - 0.02 else last + 0.02)
  {
    TwoCentsOffFineTick(last);
    FineTickRounds(if side.Sell? then last - 0.02 else last + 0.02);
  }

  /** Just above a cent the one-cent floor of the limit is itself within 10% of the reference. */
  predicate FloorCatchesSell(side: Side, last: real) { side.Sell? && 0.01 < last && 0.9 * last < 0.01 }

  lemma LimitUnderThreeCents(side: Side, last: real, flatten: bool)
    requires 0.0 < last < 0.03
    ensures Aggressive(side, last, flatten).Some?
    ensures InsideCollar(side, last, Aggressive(side, last, flatten).value) <==> FloorCatchesSell(side, last)
  {
    CentIsATick();
    RoundEquityWithinHalfTick(RawLimit(side, last, flatten));
  }

  /** For references on the tick grid, in both normal and flatten mode, the aggressive limit stays
      inside the collar if and only if the reference is above 20 cents, or a sell is caught by the
      one-cent floor. Off the grid half a tick of rounding blurs the 20 cents by half a mill on
      either side. */
  lemma AggressiveInsideCollar(side: Side, last: real, flatten: bool)
    requires Aggressive(side, last, flatten).Some?
    ensures
      var inside := InsideCollar(side, last, Aggressive(side, last, flatten).value);
      && (last > 0.2005 || FloorCatchesSell(side, last) ==> inside)
      && (inside ==> last > 0.1995 || FloorCatchesSell(side, last))
      && (OnFineTick(last) ==> (inside <==> last > 0.2 || FloorCatchesSell(side, last)))
  {
    if last < 0.03 {
      LimitUnderThreeCents(side, last, flatten);
    } else {
      RoundEquityWithinHalfTick(RawLimit(side, last, flatten));
      if last < 0.25 && OnFineTick(last) { PennyLimitIsExact(side, last, flatten); }
    }
  }

  lemma CentIsATick()
    ensures RoundEquity(0.01) == 0.01
  {
    HalfUpOfInt(100);
  }

  // ----- Shaping one order -----

  datatype Ticket = Ticket(code: OrderCode, limit: Option<real>)

  predicate RestingStop(code: OrderCode) {
    Canonical(code).Stop? || Canonical(code).StopLimit? || Canonical(code).TrailingStop?
  }

  datatype Shaping = Shaped(limit: real) | RefusedStop | RefusedVenue | NoPrice

  predicate LimitCode(code: OrderCode) { code.Limit? || code.Lmt? }

  function Target(side: Side, t: Tape, flatten: bool): (r: Option<real>)
    ensures r.Some? ==> SanePrice(r.value)
  {
    var ref := ReferencePrice(side, t);
    if ref.None? then None else Aggressive(side, ref.value, flatten)
  }

  predicate AtLeastAsAggressive(side: Side, a: real, b: real) {
    if side.Sell? then a <= b else a >= b
  }

  /** A sane limit that already leans through the target is kept. */
  function Lean(side: Side, ticket: Ticket, want: real): real {
    if LimitCode(ticket.code) && Sane(ticket.limit) && AtLeastAsAggressive(side, ticket.limit.value, want)
    then ticket.limit.value
    else want
  }

  /** Always a limit order, never a market order; resting stops are refused. */
  function ApplyMarketable(marketableVenue: bool, side: Side, ticket: Ticket, t: Tape, flatten: bool): Shaping {
    if RestingStop(ticket.code) then RefusedStop
    else if !marketableVenue then RefusedVenue
    else
      var want := Target(side, t, flatten);
      if want.None? then NoPrice else Shaped(Lean(side, ticket, want.value))
  }

  // ----- Sequences of passes: the order manager, then the broker adapter -----

  /** The order manager shapes with the live last print and keeps the ticket when shaping fails;
      the adapter shapes with the whole tape and rejects the order when it fails. */
  datatype Pass = ManagerPass(last: Option<real>, flatten: bool) | AdapterPass(tape: Tape)

  function ManagerShape(side: Side, ticket: Ticket, last: Option<real>, flatten: bool): Ticket {
    if RestingStop(ticket.code) || last.None? || last.value == 0.0 then ticket
    else
      match ApplyMarketable(true, side, ticket, Tape(last, None, None), flatten)
      case Shaped(limit) => Ticket(Limit, Some(limit))
      case _ => ticket
  }

  function RunPass(side: Side, ticket: Ticket, p: Pass): Option<Ticket> {
    match p
    case ManagerPass(last, flatten) => Some(ManagerShape(side, ticket, last, flatten))
    case AdapterPass(tape) =>
      if RestingStop(ticket.code) then Some(ticket)
      else
        match ApplyMarketable(true, side, ticket, tape, false)
        case Shaped(limit) => Some(Ticket(Limit, Some(limit)))
        case _ => None
  }

  function RunPasses(side: Side, ticket: Ticket, ps: seq<Pass>): Option<Ticket>
    decreases |ps|
  {
    if ps == [] then Some(ticket)
    else
      var before := RunPasses(side, ticket, ps[..|ps| - 1]);
      if before.None? then None else RunPass(side, before.value, ps[|ps| - 1])
  }

  /** The target price a pass brings, if its tape has one. */
  function TargetOf(side: Side, p: Pass): (r: Option<real>)
    ensures r.Some? ==> SanePrice(r.value)
  {
    match p
    case ManagerPass(last, flatten) => Target(side, Tape(last, None, None), flatten)
    case AdapterPass(tape) => Target(side, tape, false)
  }

  function Targets(side: Side, ps: seq<Pass>): (r: seq<real>)
    ensures forall i :: 0 <= i < |r| ==> SanePrice(r[i])
    decreases |ps|
  {
    if ps == [] then []
    else
      var t := TargetOf(side, ps[|ps| - 1]);
      Targets(side, ps[..|ps| - 1]) + (if t.Some? then [t.value] else [])
  }

  /** The limit a ticket competes with before any pass. */
  function OwnLimit(ticket: Ticket): seq<real> {
    if LimitCode(ticket.code) && Sane(ticket.limit) then [ticket.limit.value] else []
  }

  /** The most aggressive of a set of prices. */
  predicate Best(side: Side, v: real, xs: seq<real>) {
    v in xs && forall i :: 0 <= i < |xs| ==> AtLeastAsAggressive(side, v, xs[i])
  }

  predicate ShapedTo(side: Side, ticket: Ticket, targets: seq<real>, out: Ticket) {
    if targets == [] then out == ticket
    else out.code.Limit? && Sane(out.limit) && Best(side, out.limit.value, OwnLimit(ticket) + targets)
  }

  lemma PassIsLean(side: Side, ticket: Ticket, p: Pass)
    requires !RestingStop(ticket.code)
    ensures TargetOf(side, p).Some? ==>
      RunPass(side, ticket, p) == Some(Ticket(Limit, Some(Lean(side, ticket, TargetOf(side, p).value))))
    ensures TargetOf(side, p).None? ==>
      RunPass(side, ticket, p) == if p.ManagerPass? then Some(ticket) else None
  {
  }

  lemma LeanIsBest(side: Side, ticket: Ticket, targets: seq<real>, mid: Ticket, want: real)
    requires ShapedTo(side, ticket, targets, mid) && SanePrice(want)
    ensures ShapedTo(side, ticket, targets + [want], Ticket(Limit, Some(Lean(side, mid, want))))
  {
    var xs, ys := OwnLimit(ticket) + targets, OwnLimit(ticket) + (targets + [want]);
    assert ys == xs + [want];
    assert ys[|xs|] == want;
    if targets == [] { assert xs == OwnLimit(ticket); }
    assert forall v :: v in xs ==> v in ys;
  }

  /** Any sequence of passes that is not rejected leaves a limit order at the most aggressive of
      its own sane limit and every target, or the untouched ticket when no pass had a price. */
  lemma {:induction false} PassesCompose(side: Side, ticket: Ticket, ps: seq<Pass>)
    requires !RestingStop(ticket.code)
    requires RunPasses(side, ticket, ps).Some?
    ensures ShapedTo(side, ticket, Targets(side, ps), RunPasses(side, ticket, ps).value)
    decreases |ps|
  {
    if ps != [] {
      var init, p := ps[..|ps| - 1], ps[|ps| - 1];
      PassesCompose(side, ticket, init);
      var mid := RunPasses(side, ticket, init).value;
      PassIsLean(side, mid, p);
      if TargetOf(side, p).Some? {
        LeanIsBest(side, ticket, Targets(side, init), mid, TargetOf(side, p).value);
      } else {
        assert Targets(side, ps) == Targets(side, init);
      }
    }
  }

  /** A later pass never relaxes the limit an earlier one set. */
  lemma LaterPassNeverRelaxes(side: Side, ticket: Ticket, ps: seq<Pass>, p: Pass)
    requires !RestingStop(ticket.code) && Targets(side, ps) != []
    requires RunPasses(side, ticket, ps + [p]).Some?
    ensures
      && RunPasses(side, ticket, ps).Some?
      && var a := RunPasses(side, ticket, ps).value.limit;
         var b := RunPasses(side, ticket, ps + [p]).value.limit;
         a.Some? && b.Some? && AtLeastAsAggressive(side, b.value, a.value)
  {
    assert (ps + [p])[..|ps|] == ps;
    PassesCompose(side, ticket, ps);
    PassIsLean(side, RunPasses(side, ticket, ps).value, p);
  }

  /** An order the adapter lets through is a limit order unless it is a resting stop, and a
      resting stop reaches the broker exactly as written. */
  lemma NothingReachesMarketUnshaped(side: Side, ticket: Ticket, ps: seq<Pass>, tape: Tape)
    ensures
      var out := RunPasses(side, ticket, ps + [AdapterPass(tape)]);
      if RestingStop(ticket.code) then out == Some(ticket) else out.Some? ==> out.value.code.Limit?
    ensures RestingStop(ticket.code) ==> ApplyMarketable(true, side, ticket, tape, false).RefusedStop?
  {
    var all := ps + [AdapterPass(tape)];
    assert all[..|ps|] == ps;
    if RestingStop(ticket.code) {
      StopsPassThrough(side, ticket, all);
    } else if RunPasses(side, ticket, all).Some? {
      var mid := RunPasses(side, ticket, ps).value;
      PassesCompose(side, ticket, ps);
      PassIsLean(side, mid, AdapterPass(tape));
    }
  }

  lemma {:induction false} StopsPassThrough(side: Side, ticket: Ticket, ps: seq<Pass>)
    requires RestingStop(ticket.code)
    ensures RunPasses(side, ticket, ps) == Some(ticket)
    decreases |ps|
  {
    if ps != [] {
      StopsPassThrough(side, ticket, ps[..|ps| - 1]);
    }
  }
}
