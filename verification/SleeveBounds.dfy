/** When sleeve ceilings hold exactly (app/agents/cio.py, app/universe/allocation.py): always where a
    sleeve's use starts in hundredths, and otherwise unless rounding lifts the room left in it. */
module SleeveBounds {
  import opened BrokerModels
  import opened Rounding
  import opened StableSort
  import opened CioAllocators

  /** A sleeve whose use starts in hundredths keeps to its ceiling exactly. */
  predicate SleeveExact(start: Ledger, st: Ledger, h: string) {
    OnGrid2(Used(start.used, h)) ==>
      OnGrid2(Used(st.used, h)) && (NumberOf(st.plans, h) > 0 ==> Used(st.used, h) <= SleeveCeiling(h))
  }

  ghost predicate SleevesExact(start: Ledger, st: Ledger) { forall h :: SleeveExact(start, st, h) }

  lemma CeilingOnGrid(h: string)
    ensures OnGrid2(SleeveCeiling(h))
  {
    HalfEvenOfInt(0);
    Round2Facts(SleeveTarget(h) + 5.0);
  }

  /** In hundredths an entry fits what is left of its sleeve. */
  lemma EntryFitsExactly(h: string, used: real, maxPosition: real, targetSize: real)
    requires OnGrid2(used)
    ensures EntryNotional(h, used, maxPosition, targetSize) >= 1.0 ==>
      used + EntryNotional(h, used, maxPosition, targetSize) <= SleeveCeiling(h)
  {
    var room := SleeveRoom(h, used);
    CeilingOnGrid(h);
    Grid2Closed(SleeveCeiling(h), used);
    HalfEvenOfInt(0);
    RoundedMinimum(room, Min(maxPosition, targetSize));
    assert Min(room, Min(maxPosition, targetSize)) == Min(Min(maxPosition, targetSize), room);
  }

  /** This book and position cap let an entry in that takes the sleeve over its ceiling. */
  predicate Overruns(h: string, used: real, maxPosition: real, targetSize: real) {
    var size := EntryNotional(h, used, maxPosition, targetSize);
    size >= 1.0 && used + size > SleeveCeiling(h)
  }

  /** Some book and position cap overrun a sleeve if and only if rounding lifts the room left in it
      above the real one. */
  lemma SleeveOverrunIff(h: string, used: real)
    ensures (exists cap, size :: Overruns(h, used, cap, size)) <==>
      SleeveRoom(h, used) >= 1.0 && SleeveRoom(h, used) > SleeveCeiling(h) - used
  {
    var room := SleeveRoom(h, used);
    Round2Facts(SleeveCeiling(h) - used);
    HalfEvenOfInt(0);
    assert EntryNotional(h, used, room, room) == if room <= 0.0 then 0.0 else room;
    assert Overruns(h, used, room, room) <==> room >= 1.0 && room > SleeveCeiling(h) - used;
    forall cap, size | Overruns(h, used, cap, size) ensures room >= 1.0 && room > SleeveCeiling(h) - used {
      RoundedMinimum(room, Min(cap, size));
      assert Min(room, Min(cap, size)) == Min(Min(cap, size), room);
    }
  }

  lemma EnterOneIsExact(start: Ledger, st: Ledger, symbol: string, h: string, size: real)
    requires SleeveExact(start, st, h) && OnGrid2(size)
    requires OnGrid2(Used(st.used, h)) ==> Used(st.used, h) + size <= SleeveCeiling(h)
    ensures SleeveExact(start, Enter(st, symbol, h, size), h)
  {
    if OnGrid2(Used(start.used, h)) { Grid2Closed(Used(st.used, h), size); }
  }

  lemma EnterLeavesSleeve(start: Ledger, st: Ledger, symbol: string, h: string, size: real, g: string)
    requires SleeveExact(start, st, g) && g != h
    ensures SleeveExact(start, Enter(st, symbol, h, size), g)
  {
    TotalSnoc(st.plans, Plan(symbol, h, size), g);
  }

  lemma EnterIsExact(start: Ledger, st: Ledger, symbol: string, h: string, size: real)
    requires SleevesExact(start, st) && OnGrid2(size)
    requires OnGrid2(Used(st.used, h)) ==> Used(st.used, h) + size <= SleeveCeiling(h)
    ensures SleevesExact(start, Enter(st, symbol, h, size))
  {
    forall g ensures SleeveExact(start, Enter(st, symbol, h, size), g) {
      assert SleeveExact(start, st, g);
      if g == h { EnterOneIsExact(start, st, symbol, h, size); } else { EnterLeavesSleeve(start, st, symbol, h, size, g); }
    }
  }

  lemma SizeIsExact(r: Rules, st: Ledger, v: View)
    requires SizeFor(r, st, v) >= 1.0
    ensures OnGrid2(SizeFor(r, st, v))
    ensures
      var h := r.horizonOf(v.symbol);
      OnGrid2(Used(st.used, h)) ==> Used(st.used, h) + SizeFor(r, st, v) <= SleeveCeiling(h)
  {
    var h := r.horizonOf(v.symbol);
    RawFits(r, st, v);
    if st.cash.Some? {
      RoundedMinimum(RawSize(r, st, v), st.cash.value);
      Round2Facts(Min(RawSize(r, st, v), st.cash.value));
    }
    if r.playbook(h).Some? && OnGrid2(Used(st.used, h)) {
      EntryFitsExactly(h, Used(st.used, h), r.maxPositionPct, r.playbook(h).value.targetSize);
    }
  }

  lemma {:induction false} PlansAreExact(r: Rules, start: Ledger, vs: seq<View>)
    requires start.plans == []
    ensures SleevesExact(start, ConsiderAll(r, start, vs))
    decreases |vs|
  {
    if vs != [] {
      PlansAreExact(r, start, vs[..|vs| - 1]);
      var st, v := ConsiderAll(r, start, vs[..|vs| - 1]), vs[|vs| - 1];
      if Considered(r, st, v) && SizeFor(r, st, v) >= 1.0 {
        SizeIsExact(r, st, v);
        EnterIsExact(start, st, v.symbol, r.horizonOf(v.symbol), SizeFor(r, st, v));
      }
    }
  }

  /** Whatever the views: sleeves whose use starts in hundredths never exceed their ceiling. */
  lemma CeilingsHoldInHundredths(r: Rules, views: seq<View>, start: Ledger)
    requires start.plans == []
    ensures SleevesExact(start, ConsiderAll(r, start, SortBy(views, Negated)))
  {
    PlansAreExact(r, start, SortBy(views, Negated));
  }
}
