/** What the CIO's allocator takes, how much of it, and that it leaves nothing out that still fits
    (app/agents/cio.py, app/universe/allocation.py, app/universe/caps.py), on the views' own fields. */
module CioRules {
  import opened BrokerModels
  import opened Rounding
  import opened StableSort
  import opened CioAllocators

  // ----- One view -----

  /** Of the equity, in percent: the four books may hold 25 each, any other nothing. */
  function CeilingOf(h: string): real { if h in {"scalp", "day", "short", "medium"} then 25.0 else 0.0 }

  lemma CeilingIs(h: string)
    ensures SleeveCeiling(h) == CeilingOf(h)
  {
    HalfEvenOfInt(2500);
  }

  /** The least of the position cap, the book's size and the room in the sleeve, in hundredths; nothing
      where one of them leaves nothing. */
  function SleeveFit(h: string, used: real, maxPosition: real, targetSize: real): real {
    var room := Round2(CeilingOf(h) - used);
    if room <= 0.0 || maxPosition <= 0.0 || targetSize <= 0.0 then 0.0
    else if room <= maxPosition && room <= targetSize then Round2(room)
    else if maxPosition <= targetSize then Round2(maxPosition)
    else Round2(targetSize)
  }

  lemma EntryIs(h: string, used: real, maxPosition: real, targetSize: real)
    ensures EntryNotional(h, used, maxPosition, targetSize) == SleeveFit(h, used, maxPosition, targetSize)
  {
    CeilingIs(h);
  }

  /** Symbols held in one book. */
  function HeldIn(r: Rules, held: set<string>, h: string): set<string> { set s | s in held && r.horizonOf(s) == h }

  /** What a view must meet before it is sized: a name that is new and allowed, a book with a playbook, a
      setup (in a box only when it accumulates) with a price zone and a stop, and room in the book for one
      more this cycle and one more in all. */
  predicate Admissible(r: Rules, st: Ledger, v: View) {
    var h := r.horizonOf(v.symbol);
    && |v.symbol| > 0 && v.symbol !in st.held
    && (r.allowlist == None || r.allowlist == Some({}) || v.symbol in r.allowlist.value)
    && r.playbook(h).Some? && (v.accumulating || !v.sideways) && v.proposed && v.priced
    && r.playbook(h).value.maxNew > Count(st.newByBook, h)
    && (r.maxPositions(h) == None || |HeldIn(r, st.held, h)| < r.maxPositions(h).value)
  }

  /** What its sleeve and the cash that is left allow, in hundredths. */
  function Amount(r: Rules, st: Ledger, v: View): real {
    var h := r.horizonOf(v.symbol);
    if r.playbook(h).None? then 0.0
    else
      var fit := SleeveFit(h, Used(st.used, h), r.maxPositionPct, r.playbook(h).value.targetSize);
      if st.cash == None then fit else if st.cash.value <= fit then Round2(st.cash.value) else Round2(fit)
  }

  lemma SizeIs(r: Rules, st: Ledger, v: View)
    requires r.playbook(r.horizonOf(v.symbol)).Some?
    ensures SizeFor(r, st, v) == Amount(r, st, v)
  {
    var h := r.horizonOf(v.symbol);
    EntryIs(h, Used(st.used, h), r.maxPositionPct, r.playbook(h).value.targetSize);
  }

  lemma AdmissibleIff(r: Rules, st: Ledger, v: View)
    ensures Considered(r, st, v) <==> Admissible(r, st, v)
  {
    var h := r.horizonOf(v.symbol);
    assert HeldIn(r, st.held, h) == (set s | s in st.held && r.horizonOf(s) == h);
    assert |v.symbol| > 0 <==> v.symbol != "";
  }

  /** One name more, in its book's count and sleeve, and paid for. */
  ghost predicate EnteredOne(st: Ledger, symbol: string, h: string, size: real, st': Ledger) {
    && st'.plans == st.plans + [Plan(symbol, h, size)] && st'.held == st.held + {symbol}
    && (forall g :: Count(st'.newByBook, g) == Count(st.newByBook, g) + (if g == h then 1 else 0))
    && (forall g :: Used(st'.used, g) == Used(st.used, g) + (if g == h then size else 0.0))
    && st'.cash == if st.cash.Some? then Some(Round2(st.cash.value - size)) else None
  }

  lemma EnterIs(st: Ledger, symbol: string, h: string, size: real)
    ensures EnteredOne(st, symbol, h, size, Enter(st, symbol, h, size)) && Enter(st, symbol, h, size) != st
  {
    assert |Enter(st, symbol, h, size).plans| == |st.plans| + 1;
  }

  /** A view is taken if and only if it is admissible and at least one percent fits, and then for exactly
      what fits. */
  lemma TakenIff(r: Rules, st: Ledger, v: View)
    ensures
      var st' := Consider(r, st, v);
      && (st' != st <==> Admissible(r, st, v) && Amount(r, st, v) >= 1.0)
      && (st' != st ==> EnteredOne(st, v.symbol, r.horizonOf(v.symbol), Amount(r, st, v), st'))
  {
    AdmissibleIff(r, st, v);
    if Considered(r, st, v) {
      SizeIs(r, st, v);
      EnterIs(st, v.symbol, r.horizonOf(v.symbol), Amount(r, st, v));
    }
  }

  // ----- All views -----

  /** Most probable first, views of equal probability in the order given. */
  lemma RankingIs(views: seq<View>)
    ensures
      var ranked := SortBy(views, Negated);
      && multiset(ranked) == multiset(views)
      && (forall i, j :: 0 <= i < j < |ranked| ==> ranked[i].probability >= ranked[j].probability)
      && (forall p: real ::
            var same := HasKey(Negated, (0.0, p));
            Filter(ranked, same) == Filter(views, same))
  {
    SortSorted(views, Negated);
    var ranked := SortBy(views, Negated);
    forall i, j | 0 <= i < j < |ranked| ensures ranked[i].probability >= ranked[j].probability {
      assert KeyLe(Negated(ranked[i]), Negated(ranked[j]));
    }
    forall p: real ensures Filter(ranked, HasKey(Negated, (0.0, p))) == Filter(views, HasKey(Negated, (0.0, p))) {
      SortStable(views, Negated, (0.0, p));
    }
  }

  /** Every plan past the first is for one of the views. */
  predicate PlansFor(ps: seq<Plan>, first: nat, vs: seq<View>) {
    forall i :: first <= i < |ps| ==> exists n :: 0 <= n < |vs| && vs[n].symbol == ps[i].symbol
  }

  lemma {:induction false} AddedFor(r: Rules, st: Ledger, vs: seq<View>)
    ensures
      var all := ConsiderAll(r, st, vs).plans;
      st.plans <= all && PlansFor(all, |st.plans|, vs)
    decreases |vs|
  {
    if vs != [] {
      var init, v := vs[..|vs| - 1], vs[|vs| - 1];
      AddedFor(r, st, init);
      var before, all := ConsiderAll(r, st, init).plans, ConsiderAll(r, st, vs).plans;
      forall i | |st.plans| <= i < |all| ensures exists n :: 0 <= n < |vs| && vs[n].symbol == all[i].symbol {
        if i < |before| {
          var n :| 0 <= n < |init| && init[n].symbol == before[i].symbol;
          assert vs[n].symbol == all[i].symbol;
        } else {
          assert vs[|vs| - 1].symbol == all[i].symbol;
        }
      }
    }
  }

  lemma {:induction false} ConsiderConcat(r: Rules, st: Ledger, a: seq<View>, b: seq<View>)
    ensures ConsiderAll(r, st, a + b) == ConsiderAll(r, ConsiderAll(r, st, a), b)
    decreases |b|
  {
    if b == [] {
      assert a + b == a;
    } else {
      ConsiderConcat(r, st, a, b[..|b| - 1]);
      assert (a + b)[..|a + b| - 1] == a + b[..|b| - 1];
    }
  }

  /** What the more probable views were given does not depend on the less probable ones. */
  lemma ProbableFirst(r: Rules, views: seq<View>, start: Ledger, k: nat)
    requires k <= |SortBy(views, Negated)|
    ensures
      var ranked := SortBy(views, Negated);
      var first, all := ConsiderAll(r, start, ranked[..k]).plans, ConsiderAll(r, start, ranked).plans;
      first <= all && PlansFor(all, |first|, ranked[k..])
  {
    var ranked := SortBy(views, Negated);
    assert ranked == ranked[..k] + ranked[k..];
    ConsiderConcat(r, start, ranked[..k], ranked[k..]);
    AddedFor(r, ConsiderAll(r, start, ranked[..k]), ranked[k..]);
  }

  // ----- Nothing that fits is left -----

  lemma FitShrinks(h: string, used: real, more: real, maxPosition: real, targetSize: real)
    requires used <= more
    ensures SleeveFit(h, more, maxPosition, targetSize) <= SleeveFit(h, used, maxPosition, targetSize)
  {
    Round2Monotone(CeilingOf(h) - more, CeilingOf(h) - used);
    var room, less := Round2(CeilingOf(h) - used), Round2(CeilingOf(h) - more);
    if less > 0.0 && maxPosition > 0.0 && targetSize > 0.0 {
      Round2Monotone(Min(less, Min(maxPosition, targetSize)), Min(room, Min(maxPosition, targetSize)));
    } else if room > 0.0 && maxPosition > 0.0 && targetSize > 0.0 {
      HalfEvenOfInt(0);
      Round2Monotone(0.0, Min(room, Min(maxPosition, targetSize)));
    }
  }

  /** One ledger is at least as spent as another. */
  ghost predicate MoreSpent(st: Ledger, st': Ledger) {
    && st.held <= st'.held && (st.cash.Some? <==> st'.cash.Some?)
    && (forall g :: Count(st.newByBook, g) <= Count(st'.newByBook, g))
    && (forall g :: Used(st.used, g) <= Used(st'.used, g))
    && (st.cash.Some? ==> st'.cash.value <= st.cash.value)
  }

  lemma TakingSpends(r: Rules, st: Ledger, v: View)
    ensures MoreSpent(st, Consider(r, st, v))
  {
    TakenIff(r, st, v);
    if Consider(r, st, v) != st && st.cash.Some? { Round2Facts(st.cash.value - Amount(r, st, v)); }
  }

  lemma AmountShrinks(r: Rules, st: Ledger, st': Ledger, v: View)
    requires MoreSpent(st, st')
    ensures Amount(r, st', v) <= Amount(r, st, v)
  {
    var h := r.horizonOf(v.symbol);
    if r.playbook(h).Some? {
      var book := r.playbook(h).value;
      FitShrinks(h, Used(st.used, h), Used(st'.used, h), r.maxPositionPct, book.targetSize);
      if st.cash.Some? {
        var a := SleeveFit(h, Used(st.used, h), r.maxPositionPct, book.targetSize);
        var b := SleeveFit(h, Used(st'.used, h), r.maxPositionPct, book.targetSize);
        Round2Monotone(Min(st'.cash.value, b), Min(st.cash.value, a));
      }
    }
  }

  lemma GatesClose(r: Rules, st: Ledger, st': Ledger, v: View)
    requires MoreSpent(st, st') && Admissible(r, st', v)
    ensures Admissible(r, st, v)
  {
    var h := r.horizonOf(v.symbol);
    var a, b := HeldIn(r, st.held, h), HeldIn(r, st'.held, h);
    SubsetSize(a, b);
  }

  lemma SubsetSize(a: set<string>, b: set<string>)
    requires a <= b
    ensures |a| <= |b|
  {
    assert b == a + (b - a);
  }

  /** The ledger takes no more of this view. */
  predicate Refused(r: Rules, st: Ledger, v: View) { Consider(r, st, v) == st }

  lemma StaysRefused(r: Rules, st: Ledger, st': Ledger, v: View)
    requires MoreSpent(st, st') && Refused(r, st, v)
    ensures Refused(r, st', v)
  {
    TakenIff(r, st, v);
    TakenIff(r, st', v);
    AmountShrinks(r, st, st', v);
    if !Refused(r, st', v) { GatesClose(r, st, st', v); }
  }

  lemma OnceIsEnough(r: Rules, st: Ledger, v: View)
    ensures Refused(r, Consider(r, st, v), v)
  {
    TakenIff(r, st, v);
    TakenIff(r, Consider(r, st, v), v);
  }

  lemma {:induction false} AllRefused(r: Rules, st: Ledger, vs: seq<View>)
    ensures forall n :: 0 <= n < |vs| ==> Refused(r, ConsiderAll(r, st, vs), vs[n])
    decreases |vs|
  {
    if vs != [] {
      var init, v := vs[..|vs| - 1], vs[|vs| - 1];
      AllRefused(r, st, init);
      var before := ConsiderAll(r, st, init);
      TakingSpends(r, before, v);
      OnceIsEnough(r, before, v);
      forall n | 0 <= n < |init| ensures Refused(r, Consider(r, before, v), vs[n]) {
        assert Refused(r, before, init[n]);
        StaysRefused(r, before, Consider(r, before, v), vs[n]);
      }
    }
  }

  /** The plans are as full as they can be: in the end every view is entered, not admissible, or too small
      to enter with what is left. */
  lemma NothingElseFits(r: Rules, views: seq<View>, start: Ledger, v: View)
    requires v in views
    ensures
      var st := ConsiderAll(r, start, SortBy(views, Negated));
      !Admissible(r, st, v) || Amount(r, st, v) < 1.0
  {
    var ranked := SortBy(views, Negated);
    SortMembers(views, Negated);
    var n :| 0 <= n < |ranked| && ranked[n] == v;
    AllRefused(r, start, ranked);
    TakenIff(r, ConsiderAll(r, start, ranked), v);
  }

  // ----- The ledger a decision starts from -----

  predicate IsOpen(p: Holding) { p.qty > 0.000000001 || p.qty < -0.000000001 }

  /** Weight of the open positions of one book; a position without a weight counts for the position cap. */
  function WeightIn(r: Rules, ps: seq<Holding>, h: string): real {
    if ps == [] then 0.0
    else
      var p := ps[|ps| - 1];
      WeightIn(r, ps[..|ps| - 1], h) +
        if !IsOpen(p) || r.horizonOf(p.symbol) != h then 0.0
        else if p.weight > 0.0 then p.weight else if p.weight < 0.0 then -p.weight else r.maxPositionPct
  }

  function EntryWeightIn(r: Rules, acts: seq<Action>, h: string): real {
    if acts == [] then 0.0
    else
      var a := acts[|acts| - 1];
      EntryWeightIn(r, acts[..|acts| - 1], h) + if a.entry && r.horizonOf(a.symbol) == h then a.pct else 0.0
  }

  function EntriesIn(r: Rules, acts: seq<Action>, h: string): nat {
    if acts == [] then 0
    else
      var a := acts[|acts| - 1];
      EntriesIn(r, acts[..|acts| - 1], h) + if a.entry && r.horizonOf(a.symbol) == h then 1 else 0
  }

  lemma {:induction false} UsedByHoldingsIs(r: Rules, ps: seq<Holding>, h: string)
    ensures Used(UsedByHoldings(r, ps), h) == WeightIn(r, ps, h)
    decreases |ps|
  {
    if ps != [] { UsedByHoldingsIs(r, ps[..|ps| - 1], h); }
  }

  lemma {:induction false} UsedWithEntriesIs(r: Rules, m: map<string, real>, acts: seq<Action>, h: string)
    ensures Used(UsedWithEntries(r, m, acts), h) == Used(m, h) + EntryWeightIn(r, acts, h)
    decreases |acts|
  {
    if acts != [] { UsedWithEntriesIs(r, m, acts[..|acts| - 1], h); }
  }

  lemma {:induction false} EntriesByBookIs(r: Rules, acts: seq<Action>, h: string)
    ensures Count(EntriesByBook(r, acts), h) == EntriesIn(r, acts, h)
    decreases |acts|
  {
    if acts != [] { EntriesByBookIs(r, acts[..|acts| - 1], h); }
  }

  /** Held is what is open or being entered. */
  predicate HeldOrEntering(d: Decision, ps: seq<Holding>, s: string) {
    || (exists i :: 0 <= i < |ps| && IsOpen(ps[i]) && ps[i].symbol == s)
    || (exists i :: 0 <= i < |d.actions| && d.actions[i].entry && d.actions[i].symbol == s)
  }

  lemma OpeningIs(r: Rules, d: Decision, ps: seq<Holding>, room: real, h: string, s: string)
    ensures
      var st := Opening(r, d, ps, room);
      && st.plans == [] && st.cash == Some(room)
      && (s in st.held <==> HeldOrEntering(d, ps, s))
      && Count(st.newByBook, h) == EntriesIn(r, d.actions, h)
      && Used(st.used, h) == WeightIn(r, ps, h) + EntryWeightIn(r, d.actions, h)
  {
    UsedByHoldingsIs(r, ps, h);
    UsedWithEntriesIs(r, UsedByHoldings(r, ps), d.actions, h);
    EntriesByBookIs(r, d.actions, h);
    forall i | 0 <= i < |ps| ensures IsHeld(ps[i]) <==> IsOpen(ps[i]) {}
  }

  // ----- The decision that comes out -----

  /** The cash left, never above everything, and never below the floor. */
  lemma CashTargetIs(cash: real, floor: real, acts: seq<Action>)
    ensures
      var left, target := cash - Deployed(acts), CashTarget(cash, floor, acts);
      && (floor <= left <= 100.0 ==> target == Round2(left))
      && (floor <= 100.0 < left ==> target == 100.0)
      && (left <= floor || 100.0 <= floor ==> target == Round2(floor))
  {
    HalfEvenOfInt(10000);
  }

  /** Old actions on names that are not entered, then one entry for each plan. */
  lemma MergedIs(acts: seq<Action>, extras: seq<Plan>)
    ensures
      var kept := |Merged(acts, extras)| - |extras|;
      && 0 <= kept <= |acts|
      && (forall a :: a in Merged(acts, extras)[..kept] <==> a in acts && NoPlanFor(extras, a.symbol))
      && (forall i :: 0 <= i < |extras| ==>
            Merged(acts, extras)[kept + i] == Action(extras[i].symbol, true, extras[i].size))
  {
    ActionsIs(extras);
    var keeps := Filter(acts, NotIn(PlanNames(extras)));
    FilterNeverGrows(acts, NotIn(PlanNames(extras)));
    assert Merged(acts, extras)[..|keeps|] == keeps;
    forall a: Action ensures NotIn(PlanNames(extras))(a) <==> NoPlanFor(extras, a.symbol) {}
  }

  predicate NoPlanFor(extras: seq<Plan>, symbol: string) {
    forall i :: 0 <= i < |extras| ==> extras[i].symbol != symbol
  }

  lemma {:induction false} FilterNeverGrows(acts: seq<Action>, p: Action -> bool)
    ensures |Filter(acts, p)| <= |acts|
  {
    if acts != [] { FilterNeverGrows(acts[1..], p); }
  }

  lemma {:induction false} ActionsIs(ps: seq<Plan>)
    ensures |AsActions(ps)| == |ps|
    ensures forall i :: 0 <= i < |ps| ==> AsActions(ps)[i] == Action(ps[i].symbol, true, ps[i].size)
    decreases |ps|
  {
    if ps != [] { ActionsIs(ps[..|ps| - 1]); }
  }

  lemma {:induction false} TotalOfSome(ps: seq<Plan>)
    requires forall i :: 0 <= i < |ps| ==> ps[i].size >= 1.0
    ensures Total(ps) >= |ps| as real
    decreases |ps|
  {
    if ps != [] { TotalOfSome(ps[..|ps| - 1]); }
  }

  /** Plans that are taken deploy more than the decision did. */
  lemma TakenDeploysMore(r: Rules, d: Decision, views: seq<View>, ps: seq<Holding>, cash: real, floor: real)
    requires Room(d, cash, floor) >= 1.0 && Extras(r, d, views, ps, cash, floor) != []
    ensures Merged(d.actions, Extras(r, d, views, ps, cash, floor)) != d.actions
  {
    var room := Room(d, cash, floor);
    MergeAddsUp(r, d, views, ps, cash, floor);
    Round2Facts(Deployable(cash, floor) - Deployed(d.actions));
    AllocatorTheorem(r, views, Opening(r, d, ps, room), room);
    TotalOfSome(Extras(r, d, views, ps, cash, floor));
  }

  function RoomLeft(d: Decision, cash: real, floor: real): real {
    Round2(Max(Round2(cash - floor), 0.0) - Deployed(d.actions))
  }

  lemma RoomIs(d: Decision, cash: real, floor: real)
    ensures Room(d, cash, floor) == RoomLeft(d, cash, floor)
  {
  }

  /** The decision changes if and only if the pass is enabled and nothing vetoes it, the deployable cash
      leaves at least one percent beside its entries, and some view is taken; then only its actions and
      its cash target change. */
  lemma ToppedUpIff(
    r: Rules, go: bool, d: Decision, views: seq<View>, ps: seq<Holding>, cash: real, floor: real)
    ensures
      var out, room := EnsureSetups(r, go, d, views, ps, cash, floor), RoomLeft(d, cash, floor);
      var extras := ConsiderAll(r, Opening(r, d, ps, room), SortBy(views, Negated)).plans;
      && (out != d <==> go && d.riskApproval && room >= 1.0 && extras != [])
      && (out != d ==> out == Decision(Merged(d.actions, extras), CashTarget(cash, floor, out.actions), true))
  {
    RoomIs(d, cash, floor);
    var extras := Extras(r, d, views, ps, cash, floor);
    if Room(d, cash, floor) >= 1.0 && extras != [] { TakenDeploysMore(r, d, views, ps, cash, floor); }
  }
}
