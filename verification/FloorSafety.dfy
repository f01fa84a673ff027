/** When the CIO's top-up keeps the cash floor (app/agents/cio.py): exactly when rounding does not lift
    the room above what is really left. */
module FloorSafety {
  import opened BrokerModels
  import opened Rounding
  import opened StableSort
  import opened CioAllocators

  predicate KeepsFloor(r: Rules, d: Decision, views: seq<View>, ps: seq<Holding>, cash: real, floor: real) {
    var out := EnsureSetups(r, true, d, views, ps, cash, floor);
    out == d || cash - Deployed(out.actions) >= floor
  }

  function Hundredths(n: int): real { n as real / 100.0 }

  lemma HundredthsOnGrid(n: int)
    ensures OnGrid2(Hundredths(n))
  {
    HalfEvenOfInt(n);
    assert Hundredths(n) * 100.0 == n as real;
  }

  /** How a room is spread over the four sleeves, in hundredths; zero leaves a sleeve out. */
  datatype Spread = Spread(scalp: nat, day: nat, short: nat, medium: nat)

  predicate Fits(size: nat) { size == 0 || 100 <= size <= 2500 }

  predicate Spreads(x: Spread, room: nat) {
    && Fits(x.scalp) && Fits(x.day) && Fits(x.short) && Fits(x.medium)
    && x.scalp + x.day + x.short + x.medium == room
  }

  /** One sleeve takes up to 25 percent, four quarters take up to 100. */
  function SpreadOf(room: nat): (x: Spread)
    requires 100 <= room <= 10000
    ensures Spreads(x, room)
  {
    var q := (room + 3) / 4;
    if room <= 2500 then Spread(room, 0, 0, 0) else Spread(q, q, q, room - 3 * q)
  }

  function BookOf(symbol: string): string {
    if symbol == "S" then "scalp" else if symbol == "D" then "day"
    else if symbol == "H" then "short" else if symbol == "M" then "medium" else ""
  }

  function BookSize(x: Spread, h: string): nat {
    if h == "scalp" then x.scalp else if h == "day" then x.day
    else if h == "short" then x.short else if h == "medium" then x.medium else 0
  }

  /** A book per sleeve that takes one name of the spread's size. */
  function SpreadRules(x: Spread): Rules {
    Rules(BookOf, h => Some(Playbook(1, Hundredths(BookSize(x, h)))), h => None, 100.0, None)
  }

  function Setup(symbol: string): View { View(symbol, 1.0, false, false, true, true) }

  const SETUPS := [Setup("S"), Setup("D"), Setup("H"), Setup("M")]

  lemma SetupsAreSorted()
    ensures SortBy(SETUPS, Negated) == SETUPS
  {
    assert SETUPS[1..] == [Setup("D"), Setup("H"), Setup("M")];
    assert SETUPS[1..][1..] == [Setup("H"), Setup("M")];
    assert SETUPS[1..][1..][1..] == [Setup("M")];
    assert [Setup("M")][1..] == [];
    assert SortBy([Setup("M")], Negated) == [Setup("M")];
    assert SortBy([Setup("H"), Setup("M")], Negated) == [Setup("H"), Setup("M")];
    assert SortBy([Setup("D"), Setup("H"), Setup("M")], Negated) == [Setup("D"), Setup("H"), Setup("M")];
  }

  /** The sleeve has not been touched. */
  predicate Untouched(st: Ledger, symbol: string) {
    symbol !in st.held && Count(st.newByBook, BookOf(symbol)) == 0 && Used(st.used, BookOf(symbol)) == 0.0
  }

  predicate IsSetup(symbol: string) { symbol == "S" || symbol == "D" || symbol == "H" || symbol == "M" }

  lemma UnusedSleeveEntry(h: string, size: nat)
    requires SleeveTarget(h) == 20.0 && Fits(size)
    ensures EntryNotional(h, 0.0, 100.0, Hundredths(size)) == Hundredths(size)
  {
    HalfEvenOfInt(2500);
    assert SleeveCeiling(h) == 25.0 && SleeveRoom(h, 0.0) == 25.0;
    HundredthsOnGrid(size);
  }

  lemma SetupSize(x: Spread, st: Ledger, symbol: string, left: nat)
    requires IsSetup(symbol) && Untouched(st, symbol) && Fits(BookSize(x, BookOf(symbol)))
    requires st.cash == Some(Hundredths(left)) && BookSize(x, BookOf(symbol)) <= left
    ensures SizeFor(SpreadRules(x), st, Setup(symbol)) == Hundredths(BookSize(x, BookOf(symbol)))
  {
    var h := BookOf(symbol);
    UnusedSleeveEntry(h, BookSize(x, h));
    assert RawSize(SpreadRules(x), st, Setup(symbol)) == Hundredths(BookSize(x, h));
    HundredthsOnGrid(BookSize(x, h));
  }

  /** So many hundredths of the room are left, the rest is spent on plans. */
  ghost predicate Left(st: Ledger, room: nat, left: int) {
    0 <= left <= room && st.cash == Some(Hundredths(left)) && Total(st.plans) == Hundredths(room - left)
  }

  /** A setup in an untouched sleeve of its own is admitted. */
  lemma SetupIsConsidered(x: Spread, st: Ledger, symbol: string)
    requires IsSetup(symbol) && Untouched(st, symbol)
    ensures Considered(SpreadRules(x), st, Setup(symbol))
  {
  }

  lemma SpendSize(st: Ledger, symbol: string, h: string, room: nat, left: nat, n: nat)
    requires Left(st, room, left) && n <= left
    ensures Left(Enter(st, symbol, h, Hundredths(n)), room, left - n)
  {
    TotalSnoc(st.plans, Plan(symbol, h, Hundredths(n)), h);
    HundredthsOnGrid(left - n);
    assert Hundredths(left) - Hundredths(n) == Hundredths(left - n);
  }

  /** A setup in an untouched sleeve is entered at the spread's size, or left out at zero. */
  lemma SpendOne(x: Spread, room: nat, st: Ledger, symbol: string, left: nat)
    requires IsSetup(symbol) && Untouched(st, symbol) && Fits(BookSize(x, BookOf(symbol)))
    requires Left(st, room, left) && BookSize(x, BookOf(symbol)) <= left
    ensures Left(Consider(SpreadRules(x), st, Setup(symbol)), room, left - BookSize(x, BookOf(symbol)))
  {
    var h := BookOf(symbol);
    SetupIsConsidered(x, st, symbol);
    SetupSize(x, st, symbol, left);
    SpendSize(st, symbol, h, room, left, BookSize(x, h));
  }

  lemma OthersStayUntouched(x: Spread, st: Ledger, symbol: string, other: string)
    requires IsSetup(symbol) && IsSetup(other) && other != symbol && Untouched(st, other)
    ensures Untouched(Consider(SpreadRules(x), st, Setup(symbol)), other)
  {
    assert BookOf(symbol) != BookOf(other);
  }

  lemma ConsiderTake(r: Rules, st: Ledger, vs: seq<View>, k: nat)
    requires k < |vs|
    ensures ConsiderAll(r, st, vs[..k + 1]) == Consider(r, ConsiderAll(r, st, vs[..k]), vs[k])
  {
    assert vs[..k + 1][..k] == vs[..k];
  }

  const NAMES := ["S", "D", "H", "M"]

  /** What the first setups take of the spread. */
  function Taken(x: Spread, k: nat): nat {
    (if k > 0 then x.scalp else 0) + (if k > 1 then x.day else 0)
    + (if k > 2 then x.short else 0) + (if k > 3 then x.medium else 0)
  }

  /** After the first k setups their sizes are spent and the other sleeves are untouched. */
  ghost predicate FilledTo(x: Spread, room: nat, st: Ledger, k: nat) {
    Left(st, room, room - Taken(x, k)) && forall j :: k <= j < 4 ==> Untouched(st, NAMES[j])
  }

  lemma RestStaysUntouched(x: Spread, st: Ledger, k: nat)
    requires k < 4 && forall j :: k <= j < 4 ==> Untouched(st, NAMES[j])
    ensures forall j :: k + 1 <= j < 4 ==> Untouched(Consider(SpreadRules(x), st, Setup(NAMES[k])), NAMES[j])
  {
    forall j | k + 1 <= j < 4 ensures Untouched(Consider(SpreadRules(x), st, Setup(NAMES[k])), NAMES[j]) {
      OthersStayUntouched(x, st, NAMES[k], NAMES[j]);
    }
  }

  /** The k-th setup takes its own part of the spread. */
  lemma TakenGrows(x: Spread, room: nat, k: nat)
    requires Spreads(x, room) && k < 4
    ensures
      var n := BookSize(x, BookOf(NAMES[k]));
      IsSetup(NAMES[k]) && Fits(n) && Taken(x, k + 1) == Taken(x, k) + n <= room
  {
  }

  lemma FillNext(x: Spread, room: nat, st: Ledger, k: nat)
    requires Spreads(x, room) && k < 4 && FilledTo(x, room, st, k)
    ensures FilledTo(x, room, Consider(SpreadRules(x), st, Setup(NAMES[k])), k + 1)
  {
    var symbol, left := NAMES[k], room - Taken(x, k);
    TakenGrows(x, room, k);
    assert Untouched(st, symbol);
    SpendOne(x, room, st, symbol, left);
    RestStaysUntouched(x, st, k);
  }

  lemma {:induction false} FillUpTo(x: Spread, room: nat, st: Ledger, k: nat)
    requires Spreads(x, room) && k <= 4 && FilledTo(x, room, st, 0)
    ensures FilledTo(x, room, ConsiderAll(SpreadRules(x), st, SETUPS[..k]), k)
  {
    if k > 0 {
      FillUpTo(x, room, st, k - 1);
      ConsiderTake(SpreadRules(x), st, SETUPS, k - 1);
      assert SETUPS[k - 1] == Setup(NAMES[k - 1]);
      FillNext(x, room, ConsiderAll(SpreadRules(x), st, SETUPS[..k - 1]), k - 1);
    }
  }

  lemma SetupsFillTheRoom(x: Spread, room: nat, st: Ledger)
    requires Spreads(x, room) && FilledTo(x, room, st, 0)
    ensures Total(ConsiderAll(SpreadRules(x), st, SETUPS).plans) == Hundredths(room)
  {
    FillUpTo(x, room, st, 4);
    assert SETUPS[..4] == SETUPS;
  }

  /** A decision that has entered one other name. */
  function Entered(deployed: real): Decision { Decision([Action("A", true, deployed)], 0.0, true) }

  lemma DeployedOfOne(a: Action)
    ensures Deployed([a]) == if a.entry then a.pct else 0.0
  {
    assert [a][..0] == [];
  }

  lemma OpeningIsUntouched(x: Spread, deployed: real, room: nat)
    ensures FilledTo(x, room, Opening(SpreadRules(x), Entered(deployed), [], Hundredths(room)), 0)
  {
    var acts := Entered(deployed).actions;
    assert acts[..0] == [] && acts[0].symbol == "A";
    assert EntriesByBook(SpreadRules(x), acts) == map["" := 1];
    assert UsedWithEntries(SpreadRules(x), map[], acts) == map["" := 0.0 + deployed];
  }

  lemma RoomInHundredths(deployed: real, cash: real, floor: real) returns (n: int)
    ensures RoomBeside(deployed, cash, floor) == Hundredths(n)
  {
    n := HalfEven((Deployable(cash, floor) - deployed) * 100.0);
  }

  /** Whatever is already deployed, setups can fill the whole room. */
  lemma RoomIsFilled(deployed: real, cash: real, floor: real, n: nat)
    requires RoomBeside(deployed, cash, floor) == Hundredths(n) && 100 <= n <= 10000
    ensures
      var d := Entered(deployed);
      var out := EnsureSetups(SpreadRules(SpreadOf(n)), true, d, SETUPS, [], cash, floor);
      && Deployed(d.actions) == deployed && out != d
      && Deployed(out.actions) == deployed + RoomBeside(deployed, cash, floor)
  {
    var d, r := Entered(deployed), SpreadRules(SpreadOf(n));
    DeployedOfOne(d.actions[0]);
    OpeningIsUntouched(SpreadOf(n), deployed, n);
    SetupsAreSorted();
    SetupsFillTheRoom(SpreadOf(n), n, Opening(r, d, [], Hundredths(n)));
    MergeAddsUp(r, d, SETUPS, [], cash, floor);
    assert Total(Extras(r, d, SETUPS, [], cash, floor)) == Hundredths(n);
  }

  /** For given cash, floor and amount already deployed, with a room the sleeves can hold: every
      decision keeps the floor whatever the books, views and holdings, if and only if the room is
      real or too small for any entry. */
  lemma FloorIsSafeIff(deployed: real, cash: real, floor: real)
    requires RoomBeside(deployed, cash, floor) <= 100.0
    ensures
      (forall r, d: Decision, views, ps :: Deployed(d.actions) == deployed ==> KeepsFloor(r, d, views, ps, cash, floor)) <==>
      RoomBeside(deployed, cash, floor) < 1.0 || RoomIsReal(deployed, cash, floor)
  {
    var room := RoomBeside(deployed, cash, floor);
    forall r, d: Decision, views, ps | Deployed(d.actions) == deployed && (room < 1.0 || RoomIsReal(deployed, cash, floor))
      ensures KeepsFloor(r, d, views, ps, cash, floor)
    {
      if room >= 1.0 { MergeAddsUp(r, d, views, ps, cash, floor); }
    }
    if room >= 1.0 {
      var n := RoomInHundredths(deployed, cash, floor);
      RoomIsFilled(deployed, cash, floor, n);
      if forall r, d: Decision, views, ps :: Deployed(d.actions) == deployed ==> KeepsFloor(r, d, views, ps, cash, floor) {
        assert KeepsFloor(SpreadRules(SpreadOf(n)), Entered(deployed), SETUPS, [], cash, floor);
      }
    }
  }

  /** 30.006% cash with a 10% floor and nothing deployed: 20.01% is deployed and 9.996% is left. */
  lemma RoundedCashBreaksFloor()
    ensures
      var out := EnsureSetups(SpreadRules(SpreadOf(2001)), true, Entered(0.0), SETUPS, [], 30.006, 10.0);
      out != Entered(0.0) && 30.006 - Deployed(out.actions) == 9.996 < 10.0
  {
    assert HalfEven(20.006 * 100.0) == 2001;
    Round2Facts(20.006);
    RoomIsFilled(0.0, 30.006, 10.0, 2001);
  }

  /** 30% cash, a 10% floor and an entry of 19.004%: the deployable cash is exact, the room is
      rounded up from 0.996%, one percent is added and 9.996% is left. */
  lemma RoundedRoomBreaksFloor()
    ensures
      var out := EnsureSetups(SpreadRules(SpreadOf(100)), true, Entered(19.004), SETUPS, [], 30.0, 10.0);
      && Deployable(30.0, 10.0) == 20.0 <= 30.0 - 10.0
      && out != Entered(19.004) && 30.0 - Deployed(out.actions) == 9.996 < 10.0
  {
    assert HalfEven(20.0 * 100.0) == 2000 by { HalfEvenOfInt(2000); }
    assert HalfEven(0.996 * 100.0) == 100;
    RoomIsFilled(19.004, 30.0, 10.0, 100);
  }
}
