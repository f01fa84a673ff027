/** The CIO's cash and sleeve allocator (app/agents/cio.py) over the standing sleeve budgets
    (app/universe/allocation.py) and per-horizon position caps (app/universe/caps.py). The book
    rules that decide whether a view is a setup at all arrive as data on the view and as lookup
    functions; percentages are reals, rounded to hundredths where the source rounds. */
module CioAllocators {
  import opened BrokerModels
  import opened Rounding
  import opened StableSort

  // ----- Sleeves -----

  function SleeveTarget(horizon: string): real {
    if horizon == "scalp" || horizon == "day" || horizon == "short" || horizon == "medium" then 20.0 else 0.0
  }

  function SleeveCeiling(horizon: string): real {
    if SleeveTarget(horizon) <= 0.0 then 0.0 else Round2(SleeveTarget(horizon) + 5.0)
  }

  function SleeveRoom(horizon: string, used: real): real { Max(0.0, Round2(SleeveCeiling(horizon) - used)) }

  /** One new name, capped by the room left in its sleeve, the position cap and the book's size. */
  function EntryNotional(horizon: string, used: real, maxPosition: real, targetSize: real): real {
    var room, cap := SleeveRoom(horizon, used), Min(maxPosition, targetSize);
    if room <= 0.0 || cap <= 0.0 then 0.0 else Round2(Min(cap, room))
  }

  function Deployable(cash: real, floor: real): real { Max(0.0, Round2(cash - floor)) }

  // ----- Entry plans -----

  datatype Playbook = Playbook(maxNew: nat, targetSize: real)

  datatype Rules = Rules(
    horizonOf: string -> string, playbook: string -> Option<Playbook>,
    maxPositions: string -> Option<nat>, maxPositionPct: real, allowlist: Option<set<string>>)

  datatype View = View(
    symbol: string, probability: real, sideways: bool, accumulating: bool, proposed: bool, priced: bool)

  datatype Plan = Plan(symbol: string, horizon: string, size: real)

  datatype Ledger = Ledger(
    plans: seq<Plan>, held: set<string>, newByBook: map<string, nat>, used: map<string, real>, cash: Option<real>)

  function Count(m: map<string, nat>, h: string): nat { if h in m then m[h] else 0 }

  function Used(m: map<string, real>, h: string): real { if h in m then m[h] else 0.0 }

  function Negated(v: View): SortKey { (0.0, -v.probability) }

  /** The horizon's book is full. */
  predicate CapReached(r: Rules, held: set<string>, horizon: string) {
    var cap := r.maxPositions(horizon);
    cap.Some? && |set s | s in held && r.horizonOf(s) == horizon| >= cap.value
  }

  /** The gates in front of sizing. */
  predicate Considered(r: Rules, st: Ledger, v: View) {
    && v.symbol != "" && v.symbol !in st.held
    && (r.allowlist.Some? && r.allowlist.value != {} ==> v.symbol in r.allowlist.value)
    && r.playbook(r.horizonOf(v.symbol)).Some?
    && !(v.sideways && !v.accumulating) && v.proposed && v.priced
    && Count(st.newByBook, r.horizonOf(v.symbol)) < r.playbook(r.horizonOf(v.symbol)).value.maxNew
    && !CapReached(r, st.held, r.horizonOf(v.symbol))
  }

  /** What the sleeve and the book allow. */
  function RawSize(r: Rules, st: Ledger, v: View): real {
    var h := r.horizonOf(v.symbol);
    if r.playbook(h).None? then 0.0
    else EntryNotional(h, Used(st.used, h), r.maxPositionPct, r.playbook(h).value.targetSize)
  }

  function SizeFor(r: Rules, st: Ledger, v: View): real {
    if st.cash.None? then RawSize(r, st, v) else Round2(Min(RawSize(r, st, v), st.cash.value))
  }

  function Enter(st: Ledger, symbol: string, h: string, size: real): Ledger {
    Ledger(st.plans + [Plan(symbol, h, size)], st.held + {symbol},
           st.newByBook[h := Count(st.newByBook, h) + 1],
           st.used[h := Used(st.used, h) + size],
           if st.cash.None? then None else Some(Round2(st.cash.value - size)))
  }

  function Consider(r: Rules, st: Ledger, v: View): Ledger {
    if !Considered(r, st, v) || SizeFor(r, st, v) < 1.0 then st
    else Enter(st, v.symbol, r.horizonOf(v.symbol), SizeFor(r, st, v))
  }

  function ConsiderAll(r: Rules, st: Ledger, vs: seq<View>): Ledger {
    if vs == [] then st else Consider(r, ConsiderAll(r, st, vs[..|vs| - 1]), vs[|vs| - 1])
  }

  /** Views in order of falling probability, each taken if it still fits. */
  method QuantEntryPlans(r: Rules, views: seq<View>, start: Ledger) returns (st: Ledger)
    ensures st == ConsiderAll(r, start, SortBy(views, Negated))
  {
    var ranked := SortBy(views, Negated);
    st := start;
    var n := 0;
    while n < |ranked|
      invariant 0 <= n <= |ranked|
      invariant st == ConsiderAll(r, start, ranked[..n])
    {
      assert ranked[..n + 1][..n] == ranked[..n];
      var v := ranked[n];
      n := n + 1;
      if !Considered(r, st, v) {
        continue;
      }
      var h := r.horizonOf(v.symbol);
      var size := EntryNotional(h, Used(st.used, h), r.maxPositionPct, r.playbook(h).value.targetSize);
      if st.cash.Some? {
        size := Round2(Min(size, st.cash.value));
      }
      if size < 1.0 {
        continue;
      }
      st := Enter(st, v.symbol, h, size);
    }
    assert ranked[..n] == ranked;
  }

  // ----- Conservation -----

  function Total(ps: seq<Plan>): real {
    if ps == [] then 0.0 else Total(ps[..|ps| - 1]) + ps[|ps| - 1].size
  }

  function TotalOf(ps: seq<Plan>, h: string): real {
    if ps == [] then 0.0
    else TotalOf(ps[..|ps| - 1], h) + (if ps[|ps| - 1].horizon == h then ps[|ps| - 1].size else 0.0)
  }

  function NumberOf(ps: seq<Plan>, h: string): nat {
    if ps == [] then 0 else NumberOf(ps[..|ps| - 1], h) + (if ps[|ps| - 1].horizon == h then 1 else 0)
  }

  ghost predicate Conserved(r: Rules, room: real, st: Ledger) {
    && st.cash.Some? && OnGrid2(st.cash.value) && st.cash.value >= 0.0
    && OnGrid2(Total(st.plans))
    && Total(st.plans) + st.cash.value == room
    && (forall i :: 0 <= i < |st.plans| ==> st.plans[i].size >= 1.0)
  }

  ghost predicate Fair(r: Rules, start: Ledger, st: Ledger) {
    && st.held == start.held + (set i | 0 <= i < |st.plans| :: st.plans[i].symbol)
    && (forall i :: 0 <= i < |st.plans| ==>
          st.plans[i].symbol !in start.held && st.plans[i].horizon == r.horizonOf(st.plans[i].symbol))
    && (forall i, j :: 0 <= i < j < |st.plans| ==> st.plans[i].symbol != st.plans[j].symbol)
  }

  ghost predicate Bounded(r: Rules, start: Ledger, st: Ledger) {
    forall h ::
      && Count(st.newByBook, h) == Count(start.newByBook, h) + NumberOf(st.plans, h)
      && (NumberOf(st.plans, h) > 0 ==> r.playbook(h).Some? && Count(st.newByBook, h) <= r.playbook(h).value.maxNew)
      && Used(st.used, h) == Used(start.used, h) + TotalOf(st.plans, h)
      && (NumberOf(st.plans, h) > 0 ==> Used(st.used, h) <= SleeveCeiling(h) + 0.005)
  }

  lemma TotalSnoc(ps: seq<Plan>, p: Plan, h: string)
    ensures Total(ps + [p]) == Total(ps) + p.size
    ensures TotalOf(ps + [p], h) == TotalOf(ps, h) + (if p.horizon == h then p.size else 0.0)
    ensures NumberOf(ps + [p], h) == NumberOf(ps, h) + (if p.horizon == h then 1 else 0)
  {
    assert (ps + [p])[..|ps|] == ps;
  }

  lemma CashPays(raw: real, cash: real)
    requires OnGrid2(cash)
    ensures
      var size := Round2(Min(raw, cash));
      && OnGrid2(size) && size <= cash && Round2(cash - size) == cash - size
  {
    var size := Round2(Min(raw, cash));
    Round2Facts(Min(raw, cash));
    Round2Monotone(Min(raw, cash), cash);
    Grid2Closed(cash, size);
  }

  lemma SizeIsPayable(r: Rules, st: Ledger, v: View)
    requires st.cash.Some? && OnGrid2(st.cash.value)
    ensures
      var size := SizeFor(r, st, v);
      OnGrid2(size) && size <= st.cash.value && Round2(st.cash.value - size) == st.cash.value - size
  {
    CashPays(RawSize(r, st, v), st.cash.value);
  }

  lemma EnterConserves(r: Rules, room: real, st: Ledger, symbol: string, h: string, size: real)
    requires Conserved(r, room, st) && OnGrid2(size) && 1.0 <= size <= st.cash.value
    requires Round2(st.cash.value - size) == st.cash.value - size
    ensures Conserved(r, room, Enter(st, symbol, h, size))
  {
    TotalSnoc(st.plans, Plan(symbol, h, size), h);
    Grid2Closed(Total(st.plans), size);
    Grid2Closed(st.cash.value, size);
  }

  lemma {:induction false} PlansConserve(r: Rules, start: Ledger, vs: seq<View>, room: real)
    requires start.plans == [] && start.cash == Some(room) && OnGrid2(room) && room >= 0.0
    ensures Conserved(r, room, ConsiderAll(r, start, vs))
    decreases |vs|
  {
    if vs == [] {
      assert OnGrid2(0.0) by { HalfEvenOfInt(0); }
    } else {
      PlansConserve(r, start, vs[..|vs| - 1], room);
      var st, v := ConsiderAll(r, start, vs[..|vs| - 1]), vs[|vs| - 1];
      if Considered(r, st, v) && SizeFor(r, st, v) >= 1.0 {
        SizeIsPayable(r, st, v);
        EnterConserves(r, room, st, v.symbol, r.horizonOf(v.symbol), SizeFor(r, st, v));
      }
    }
  }

  lemma EnterIsFair(r: Rules, start: Ledger, st: Ledger, symbol: string, size: real)
    requires Fair(r, start, st) && symbol !in st.held
    ensures Fair(r, start, Enter(st, symbol, r.horizonOf(symbol), size))
  {
    var st' := Enter(st, symbol, r.horizonOf(symbol), size);
    var names, names' := set i | 0 <= i < |st.plans| :: st.plans[i].symbol, set i | 0 <= i < |st'.plans| :: st'.plans[i].symbol;
    assert st'.plans[|st.plans|].symbol == symbol;
    assert forall i :: 0 <= i < |st.plans| ==> st'.plans[i] == st.plans[i];
    assert names' == names + {symbol} by {
      forall s | s in names ensures s in names' {
        var i :| 0 <= i < |st.plans| && st.plans[i].symbol == s;
        assert st'.plans[i].symbol == s;
      }
    }
    assert forall i :: 0 <= i < |st.plans| ==> st.plans[i].symbol in names;
  }

  lemma RawFits(r: Rules, st: Ledger, v: View)
    ensures OnGrid2(RawSize(r, st, v))
    ensures RawSize(r, st, v) >= 1.0 ==>
      var h := r.horizonOf(v.symbol); Used(st.used, h) + RawSize(r, st, v) <= SleeveCeiling(h) + 0.005
  {
    var h := r.horizonOf(v.symbol);
    if r.playbook(h).Some? {
      EntryFitsSleeve(h, Used(st.used, h), r.maxPositionPct, r.playbook(h).value.targetSize);
    } else {
      HalfEvenOfInt(0);
    }
  }

  lemma SleeveFits(r: Rules, st: Ledger, v: View)
    requires SizeFor(r, st, v) >= 1.0
    ensures
      var h := r.horizonOf(v.symbol);
      Used(st.used, h) + SizeFor(r, st, v) <= SleeveCeiling(h) + 0.005
  {
    RawFits(r, st, v);
    if st.cash.Some? {
      RoundedMinimum(RawSize(r, st, v), st.cash.value);
    }
  }

  /** Rounding the smaller of a grid amount and anything never exceeds the grid amount. */
  lemma RoundedMinimum(grid: real, x: real)
    requires OnGrid2(grid)
    ensures Round2(Min(grid, x)) <= grid
  {
    Round2Monotone(Min(grid, x), grid);
  }

  lemma EntryFitsSleeve(h: string, used: real, maxPosition: real, targetSize: real)
    ensures OnGrid2(EntryNotional(h, used, maxPosition, targetSize))
    ensures EntryNotional(h, used, maxPosition, targetSize) >= 1.0 ==>
      EntryNotional(h, used, maxPosition, targetSize) <= SleeveCeiling(h) - used + 0.005
  {
    var room, cap := SleeveRoom(h, used), Min(maxPosition, targetSize);
    Round2Facts(SleeveCeiling(h) - used);
    Round2Facts(Min(cap, room));
    assert OnGrid2(0.0) by { HalfEvenOfInt(0); }
    RoundedMinimum(room, cap);
    assert Min(room, cap) == Min(cap, room);
  }

  lemma EnterIsBounded(r: Rules, start: Ledger, st: Ledger, symbol: string, size: real)
    requires Bounded(r, start, st)
    requires
      var h := r.horizonOf(symbol);
      && r.playbook(h).Some? && Count(st.newByBook, h) < r.playbook(h).value.maxNew
      && Used(st.used, h) + size <= SleeveCeiling(h) + 0.005
    ensures Bounded(r, start, Enter(st, symbol, r.horizonOf(symbol), size))
  {
    forall g
      ensures NumberOf(st.plans + [Plan(symbol, r.horizonOf(symbol), size)], g) ==
        NumberOf(st.plans, g) + (if g == r.horizonOf(symbol) then 1 else 0)
      ensures TotalOf(st.plans + [Plan(symbol, r.horizonOf(symbol), size)], g) ==
        TotalOf(st.plans, g) + (if g == r.horizonOf(symbol) then size else 0.0)
    {
      TotalSnoc(st.plans, Plan(symbol, r.horizonOf(symbol), size), g);
    }
  }

  lemma {:induction false} PlansAreFair(r: Rules, start: Ledger, vs: seq<View>)
    requires start.plans == []
    ensures Fair(r, start, ConsiderAll(r, start, vs))
    ensures Bounded(r, start, ConsiderAll(r, start, vs))
    decreases |vs|
  {
    if vs != [] {
      PlansAreFair(r, start, vs[..|vs| - 1]);
      var st, v := ConsiderAll(r, start, vs[..|vs| - 1]), vs[|vs| - 1];
      if Considered(r, st, v) && SizeFor(r, st, v) >= 1.0 {
        EnterIsFair(r, start, st, v.symbol, SizeFor(r, st, v));
        SleeveFits(r, st, v);
        EnterIsBounded(r, start, st, v.symbol, SizeFor(r, st, v));
      }
    }
  }

  /** For any views and any room in whole hundredths: the plans' sizes plus the remaining cash are
      the room, remaining cash is not negative, no held name is entered and none twice, a book's
      per-cycle count is not exceeded, and a sleeve ceiling by no more than half a hundredth. */
  lemma AllocatorTheorem(r: Rules, views: seq<View>, start: Ledger, room: real)
    requires start.plans == [] && start.cash == Some(room) && OnGrid2(room) && room >= 0.0
    ensures
      var st := ConsiderAll(r, start, SortBy(views, Negated));
      Conserved(r, room, st) && Fair(r, start, st) && Bounded(r, start, st)
  {
    PlansConserve(r, start, SortBy(views, Negated), room);
    PlansAreFair(r, start, SortBy(views, Negated));
  }

  // ----- Topping up the decision -----

  /** An action on a symbol; `entry` marks STRONG_BUY, BUY and SCALE_IN. */
  datatype Action = Action(symbol: string, entry: bool, pct: real)

  datatype Decision = Decision(actions: seq<Action>, cashTarget: real, riskApproval: bool)

  datatype Holding = Holding(symbol: string, qty: real, weight: real)

  /** Percent of equity the entries of a list deploy. */
  function Deployed(acts: seq<Action>): real {
    if acts == [] then 0.0
    else Deployed(acts[..|acts| - 1]) + (if acts[|acts| - 1].entry then acts[|acts| - 1].pct else 0.0)
  }

  function CashTarget(cash: real, floor: real, acts: seq<Action>): real {
    Round2(Max(floor, Min(100.0, cash - Deployed(acts))))
  }

  method CashTargetAfterPlans(cash: real, floor: real, acts: seq<Action>) returns (target: real)
    ensures target == CashTarget(cash, floor, acts)
  {
    var deployed := 0.0;
    var i := 0;
    while i < |acts|
      invariant 0 <= i <= |acts|
      invariant deployed == Deployed(acts[..i])
    {
      assert acts[..i + 1][..i] == acts[..i];
      if acts[i].entry {
        deployed := deployed + acts[i].pct;
      }
      i := i + 1;
    }
    assert acts[..i] == acts;
    target := Round2(Max(floor, Min(100.0, cash - deployed)));
  }

  predicate IsHeld(p: Holding) { Abs(p.qty) > 0.000000001 }

  function Names(ps: seq<Holding>): set<string> { set i | 0 <= i < |ps| && IsHeld(ps[i]) :: ps[i].symbol }

  function Entering(acts: seq<Action>): set<string> { set i | 0 <= i < |acts| && acts[i].entry :: acts[i].symbol }

  function UsedByHoldings(r: Rules, ps: seq<Holding>): map<string, real> {
    if ps == [] then map[]
    else
      var m, p := UsedByHoldings(r, ps[..|ps| - 1]), ps[|ps| - 1];
      var h := r.horizonOf(p.symbol);
      if !IsHeld(p) then m else m[h := Used(m, h) + (if Abs(p.weight) <= 0.0 then r.maxPositionPct else Abs(p.weight))]
  }

  function UsedWithEntries(r: Rules, m: map<string, real>, acts: seq<Action>): map<string, real> {
    if acts == [] then m
    else
      var rest, a := UsedWithEntries(r, m, acts[..|acts| - 1]), acts[|acts| - 1];
      var h := r.horizonOf(a.symbol);
      if a.entry then rest[h := Used(rest, h) + a.pct] else rest
  }

  function EntriesByBook(r: Rules, acts: seq<Action>): map<string, nat> {
    if acts == [] then map[]
    else
      var rest, a := EntriesByBook(r, acts[..|acts| - 1]), acts[|acts| - 1];
      var h := r.horizonOf(a.symbol);
      if a.entry then rest[h := Count(rest, h) + 1] else rest
  }

  function Opening(r: Rules, d: Decision, ps: seq<Holding>, room: real): Ledger {
    Ledger([], Names(ps) + Entering(d.actions), EntriesByBook(r, d.actions),
           UsedWithEntries(r, UsedByHoldings(r, ps), d.actions), Some(room))
  }

  /** What the deployable cash leaves beside the entries already decided. */
  function RoomBeside(deployed: real, cash: real, floor: real): real { Round2(Deployable(cash, floor) - deployed) }

  function Room(d: Decision, cash: real, floor: real): real { RoomBeside(Deployed(d.actions), cash, floor) }

  function Extras(r: Rules, d: Decision, views: seq<View>, ps: seq<Holding>, cash: real, floor: real): seq<Plan> {
    ConsiderAll(r, Opening(r, d, ps, Room(d, cash, floor)), SortBy(views, Negated)).plans
  }

  function AsAction(p: Plan): Action { Action(p.symbol, true, p.size) }

  function AsActions(ps: seq<Plan>): seq<Action> {
    if ps == [] then [] else AsActions(ps[..|ps| - 1]) + [AsAction(ps[|ps| - 1])]
  }

  function PlanNames(ps: seq<Plan>): set<string> { set i | 0 <= i < |ps| :: ps[i].symbol }

  function NotIn(taken: set<string>): Action -> bool { (a: Action) => a.symbol !in taken }

  function Merged(acts: seq<Action>, extras: seq<Plan>): seq<Action> {
    Filter(acts, NotIn(PlanNames(extras))) + AsActions(extras)
  }

  /** The decision is topped up only when the firm allows it, there is room, and a setup fits. */
  function EnsureSetups(
    r: Rules, go: bool, d: Decision, views: seq<View>, ps: seq<Holding>, cash: real, floor: real): Decision
  {
    if !go || !d.riskApproval || Room(d, cash, floor) < 1.0 then d
    else
      var extras := Extras(r, d, views, ps, cash, floor);
      if extras == [] then d
      else d.(actions := Merged(d.actions, extras), cashTarget := CashTarget(cash, floor, Merged(d.actions, extras)))
  }

  method EnsureCioTakesSetups(
    r: Rules, go: bool, d: Decision, views: seq<View>, ps: seq<Holding>, cash: real, floor: real) returns (out: Decision)
    ensures out == EnsureSetups(r, go, d, views, ps, cash, floor)
  {
    if !go || !d.riskApproval {
      return d;
    }
    var cashLeft := Room(d, cash, floor);
    if cashLeft < 1.0 {
      return d;
    }
    var ledger := QuantEntryPlans(r, views, Opening(r, d, ps, cashLeft));
    if ledger.plans == [] {
      return d;
    }
    var merged := Merged(d.actions, ledger.plans);
    var target := CashTargetAfterPlans(cash, floor, merged);
    out := d.(actions := merged, cashTarget := target);
  }

  lemma {:induction false} DeployedConcat(a: seq<Action>, b: seq<Action>)
    ensures Deployed(a + b) == Deployed(a) + Deployed(b)
    decreases |b|
  {
    if b == [] {
      assert a + b == a;
    } else {
      DeployedConcat(a, b[..|b| - 1]);
      assert (a + b)[..|a + b| - 1] == a + b[..|b| - 1];
    }
  }

  lemma {:induction false} DeployedByExtras(ps: seq<Plan>)
    ensures Deployed(AsActions(ps)) == Total(ps)
    decreases |ps|
  {
    if ps != [] {
      DeployedByExtras(ps[..|ps| - 1]);
      var init := AsActions(ps[..|ps| - 1]);
      assert (init + [AsAction(ps[|ps| - 1])])[..|init|] == init;
    }
  }

  lemma FilterOneAction(a: Action, taken: set<string>)
    requires a.entry ==> a.symbol !in taken
    ensures Deployed(Filter([a], NotIn(taken))) == Deployed([a])
  {
    assert [a][..0] == [] && [a][1..] == [];
    assert Filter([a], NotIn(taken)) == if a.symbol !in taken then [a] else [];
  }

  /** Dropping actions on taken names drops no entry, because no entering name is ever taken. */
  lemma {:induction false} FilterKeepsDeployed(acts: seq<Action>, taken: set<string>)
    requires forall i :: 0 <= i < |acts| && acts[i].entry ==> acts[i].symbol !in taken
    ensures Deployed(Filter(acts, NotIn(taken))) == Deployed(acts)
    decreases |acts|
  {
    if acts != [] {
      var init, last := acts[..|acts| - 1], acts[|acts| - 1];
      FilterKeepsDeployed(init, taken);
      assert acts == init + [last];
      FilterConcat(init, [last], NotIn(taken));
      DeployedConcat(Filter(init, NotIn(taken)), Filter([last], NotIn(taken)));
      FilterOneAction(last, taken);
      DeployedConcat(init, [last]);
    }
  }

  lemma EnteringNotTaken(r: Rules, d: Decision, ps: seq<Holding>, st: Ledger, room: real)
    requires Fair(r, Opening(r, d, ps, room), st)
    ensures forall i :: 0 <= i < |d.actions| && d.actions[i].entry ==> d.actions[i].symbol !in PlanNames(st.plans)
  {
    forall i | 0 <= i < |d.actions| && d.actions[i].entry ensures d.actions[i].symbol !in PlanNames(st.plans) {
      assert d.actions[i].symbol in Entering(d.actions);
    }
  }

  /** The merged entries deploy what the decision already did plus the extras, and the extras fit
      the room. */
  lemma MergeAddsUp(r: Rules, d: Decision, views: seq<View>, ps: seq<Holding>, cash: real, floor: real)
    requires Room(d, cash, floor) >= 0.0
    ensures
      var extras := Extras(r, d, views, ps, cash, floor);
      && Deployed(Merged(d.actions, extras)) == Deployed(d.actions) + Total(extras)
      && Total(extras) <= Room(d, cash, floor) && OnGrid2(Total(extras))
  {
    var room := Room(d, cash, floor);
    var start := Opening(r, d, ps, room);
    Round2Facts(Deployable(cash, floor) - Deployed(d.actions));
    AllocatorTheorem(r, views, start, room);
    var st := ConsiderAll(r, start, SortBy(views, Negated));
    EnteringNotTaken(r, d, ps, st, room);
    FilterKeepsDeployed(d.actions, PlanNames(st.plans));
    DeployedByExtras(st.plans);
    DeployedConcat(Filter(d.actions, NotIn(PlanNames(st.plans))), AsActions(st.plans));
  }

  predicate GridActions(acts: seq<Action>) { forall i :: 0 <= i < |acts| ==> OnGrid2(acts[i].pct) }

  lemma {:induction false} DeployedOnGrid(acts: seq<Action>)
    requires GridActions(acts)
    ensures OnGrid2(Deployed(acts))
    decreases |acts|
  {
    HalfEvenOfInt(0);
    if acts != [] {
      DeployedOnGrid(acts[..|acts| - 1]);
      Grid2Closed(Deployed(acts[..|acts| - 1]), acts[|acts| - 1].pct);
    }
  }

  /** A decision that is topped up at all keeps the cash floor to within the two roundings of the
      room. */
  lemma ToppedUpKeepsFloor(
    r: Rules, d: Decision, views: seq<View>, ps: seq<Holding>, cash: real, floor: real)
    requires Deployed(d.actions) >= 0.0
    ensures
      var out := EnsureSetups(r, true, d, views, ps, cash, floor);
      out == d || cash - Deployed(out.actions) >= floor - 0.01
  {
    if Room(d, cash, floor) >= 1.0 {
      MergeAddsUp(r, d, views, ps, cash, floor);
      Round2Facts(cash - floor);
      Round2Facts(Deployable(cash, floor) - Deployed(d.actions));
    }
  }

  lemma TargetWithinBounds(floor: real, left: real)
    requires OnGrid2(floor) && floor <= left && floor <= 100.0
    ensures
      var target := Round2(Max(floor, Min(100.0, left)));
      target == Round2(Min(100.0, left)) && target >= floor
  {
    Round2Monotone(floor, Min(100.0, left));
  }

  /** The room is no more than what cash, floor and the entries already decided really leave. */
  predicate RoomIsReal(deployed: real, cash: real, floor: real) {
    RoomBeside(deployed, cash, floor) <= cash - floor - deployed
  }

  /** For any decision and any cash: when the room is real, a topped-up decision leaves the floor
      untouched, and its cash target is the cash left after every entry, rounded and at most 100%,
      at or above the floor. */
  lemma ToppedUpTargetIsExact(
    r: Rules, d: Decision, views: seq<View>, ps: seq<Holding>, cash: real, floor: real)
    requires OnGrid2(floor) && floor <= 100.0 && RoomIsReal(Deployed(d.actions), cash, floor)
    ensures
      var out := EnsureSetups(r, true, d, views, ps, cash, floor);
      var left := cash - Deployed(out.actions);
      out == d || (left >= floor && out.cashTarget == Round2(Min(100.0, left)) && out.cashTarget >= floor)
  {
    if Room(d, cash, floor) >= 1.0 {
      MergeAddsUp(r, d, views, ps, cash, floor);
      var out := EnsureSetups(r, true, d, views, ps, cash, floor);
      if out != d { TargetWithinBounds(floor, cash - Deployed(out.actions)); }
    }
  }

  /** With entries in hundredths the room is real exactly when the deployable cash is. */
  lemma RoomIsRealInHundredths(d: Decision, cash: real, floor: real)
    requires GridActions(d.actions)
    ensures RoomIsReal(Deployed(d.actions), cash, floor) <==> Deployable(cash, floor) <= cash - floor
  {
    DeployedOnGrid(d.actions);
    Round2Facts(cash - floor);
    HalfEvenOfInt(0);
    Grid2Closed(Deployable(cash, floor), Deployed(d.actions));
  }
}
