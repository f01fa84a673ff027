/** The local position table as a mirror of the broker's positions
    (app/execution/position_manager.py): an upsert through two indexes, then a delete pass.
    Rows are identified by their place in the table; symbols and venues are already normalised. */
module PositionMirrors {
  import opened BrokerModels

  type Pair = (string, string)

  datatype PositionRow = PositionRow(
    symbol: string, venue: string, qty: real, avgEntry: real, marketValue: real, costBasis: real,
    unrealized: real, currency: Option<string>, exchange: Option<string>, conId: Option<nat>)

  /** A position in the broker's list, with the venue resolved from exchange and currency. */
  datatype Report = Report(
    symbol: string, venue: string, qty: real, avgEntry: real, marketValue: real, costBasis: real,
    unrealized: real, currency: Option<string>, exchange: Option<string>, conId: Option<nat>)

  function KeyOf(r: PositionRow): Pair { (r.symbol, r.venue) }

  function PairOf(x: Report): Pair { (x.symbol, x.venue) }

  predicate Live(x: Report) { x.symbol != "" && x.qty != 0.0 }

  function LiveReports(xs: seq<Report>): (r: seq<Report>)
    ensures forall i :: 0 <= i < |r| ==> Live(r[i]) && r[i] in xs
    ensures forall x :: x in xs && Live(x) ==> x in r
  {
    if xs == [] then []
    else LiveReports(xs[..|xs| - 1]) + (if Live(xs[|xs| - 1]) then [xs[|xs| - 1]] else [])
  }

  datatype Sync = Sync(
    rows: seq<PositionRow>, byKey: map<Pair, nat>, byCon: map<nat, nat>, seen: set<Pair>, seenCon: set<nat>)

  function IndexKeys(rows: seq<PositionRow>): map<Pair, nat> {
    if rows == [] then map[]
    else IndexKeys(rows[..|rows| - 1])[KeyOf(rows[|rows| - 1]) := |rows| - 1]
  }

  function IndexCons(rows: seq<PositionRow>): map<nat, nat> {
    if rows == [] then map[]
    else
      var rest, last := IndexCons(rows[..|rows| - 1]), rows[|rows| - 1];
      if last.conId.Some? then rest[last.conId.value := |rows| - 1] else rest
  }

  function Begin(rows: seq<PositionRow>): Sync { Sync(rows, IndexKeys(rows), IndexCons(rows), {}, {}) }

  function NewRow(x: Report): PositionRow {
    PositionRow(x.symbol, x.venue, x.qty, x.avgEntry, x.marketValue, x.costBasis, x.unrealized,
                x.currency, x.exchange, x.conId)
  }

  /** An update writes every field but the symbol, and the contract id only when one is reported. */
  function Refreshed(row: PositionRow, x: Report): PositionRow {
    NewRow(x).(symbol := row.symbol, conId := if x.conId.Some? then x.conId else row.conId)
  }

  /** Contract id first, then (symbol, venue). */
  function RowFor(st: Sync, x: Report): Option<nat> {
    if x.conId.Some? && x.conId.value in st.byCon then Some(st.byCon[x.conId.value])
    else if PairOf(x) in st.byKey then Some(st.byKey[PairOf(x)])
    else None
  }

  function ConSet(x: Report): set<nat> { if x.conId.Some? then {x.conId.value} else {} }

  function Upsert(st: Sync, x: Report): Sync {
    var seen, seenCon := st.seen + {PairOf(x)}, st.seenCon + ConSet(x);
    var at := RowFor(st, x);
    if at.None? || at.value >= |st.rows| then
      st.(rows := st.rows + [NewRow(x)], seen := seen, seenCon := seenCon)
    else
      Sync(st.rows[at.value := Refreshed(st.rows[at.value], x)],
           st.byKey[PairOf(x) := at.value],
           if x.conId.Some? then st.byCon[x.conId.value := at.value] else st.byCon,
           seen, seenCon)
  }

  function Upserts(st: Sync, xs: seq<Report>): Sync
    decreases |xs|
  {
    if xs == [] then st else Upsert(Upserts(st, xs[..|xs| - 1]), xs[|xs| - 1])
  }

  /** The index entry is dropped: not seen under its key, nor its contract id under any. */
  predicate Gone(st: Sync, k: Pair)
    requires k in st.byKey
  {
    var i := st.byKey[k];
    i < |st.rows| && !(st.rows[i].conId.Some? && st.rows[i].conId.value in st.seenCon) && k !in st.seen
  }

  function Doomed(st: Sync): set<nat> { set k | k in st.byKey && Gone(st, k) :: st.byKey[k] }

  function Keep(rows: seq<PositionRow>, doomed: set<nat>): seq<PositionRow> {
    if rows == [] then []
    else Keep(rows[..|rows| - 1], doomed) + (if |rows| - 1 in doomed then [] else [rows[|rows| - 1]])
  }

  function SyncTable(rows: seq<PositionRow>, xs: seq<Report>): seq<PositionRow> {
    var st := Upserts(Begin(rows), LiveReports(xs));
    Keep(st.rows, Doomed(st))
  }

  lemma LiveSnoc(xs: seq<Report>, x: Report)
    ensures LiveReports(xs + [x]) == if Live(x) then LiveReports(xs) + [x] else LiveReports(xs)
  {
    assert (xs + [x])[..|xs|] == xs;
  }

  lemma UpsertsSnoc(st: Sync, xs: seq<Report>, x: Report)
    ensures Upserts(st, xs + [x]) == Upsert(Upserts(st, xs), x)
  {
    assert (xs + [x])[..|xs|] == xs;
  }

  lemma UpsertLive(st: Sync, xs: seq<Report>, n: nat)
    requires n < |xs|
    ensures
      var before := Upserts(st, LiveReports(xs[..n]));
      Upserts(st, LiveReports(xs[..n + 1])) == if Live(xs[n]) then Upsert(before, xs[n]) else before
  {
    assert xs[..n + 1] == xs[..n] + [xs[n]];
    LiveSnoc(xs[..n], xs[n]);
    UpsertsSnoc(st, LiveReports(xs[..n]), xs[n]);
  }

  // ----- The manager -----

  class PositionManager {
    var table: seq<PositionRow>

    method BuildIndexes() returns (byKey: map<Pair, nat>, byCon: map<nat, nat>)
      ensures byKey == IndexKeys(table) && byCon == IndexCons(table)
    {
      byKey, byCon := map[], map[];
      var i := 0;
      while i < |table|
        invariant 0 <= i <= |table|
        invariant byKey == IndexKeys(table[..i]) && byCon == IndexCons(table[..i])
      {
        assert table[..i + 1][..i] == table[..i];
        byKey := byKey[KeyOf(table[i]) := i];
        if table[i].conId.Some? {
          byCon := byCon[table[i].conId.value := i];
        }
        i := i + 1;
      }
      assert table[..i] == table;
    }

    method UpsertAll(xs: seq<Report>, start: Sync) returns (st: Sync)
      ensures st == Upserts(start, LiveReports(xs))
    {
      st := start;
      var n := 0;
      while n < |xs|
        invariant 0 <= n <= |xs|
        invariant st == Upserts(start, LiveReports(xs[..n]))
      {
        UpsertLive(start, xs, n);
        if Live(xs[n]) {
          st := Upsert(st, xs[n]);
        }
        n := n + 1;
      }
      assert xs[..n] == xs;
    }

    method DeleteRows(rows: seq<PositionRow>, doomed: set<nat>) returns (kept: seq<PositionRow>)
      ensures kept == Keep(rows, doomed)
    {
      kept := [];
      var i := 0;
      while i < |rows|
        invariant 0 <= i <= |rows|
        invariant kept == Keep(rows[..i], doomed)
      {
        assert rows[..i + 1][..i] == rows[..i];
        if i !in doomed {
          kept := kept + [rows[i]];
        }
        i := i + 1;
      }
      assert rows[..i] == rows;
    }

    method SyncFromBroker(xs: seq<Report>)
      modifies this
      ensures table == SyncTable(old(table), xs)
    {
      var byKey, byCon := BuildIndexes();
      var st := UpsertAll(xs, Sync(table, byKey, byCon, {}, {}));
      table := DeleteRows(st.rows, Doomed(st));
    }
  }

  // ----- When the table mirrors the broker -----

  predicate UniqueKeys(rows: seq<PositionRow>) {
    forall i, j :: 0 <= i < j < |rows| ==> KeyOf(rows[i]) != KeyOf(rows[j])
  }

  predicate UniqueCons(rows: seq<PositionRow>) {
    forall i, j :: 0 <= i < j < |rows| && rows[i].conId.Some? ==> rows[i].conId != rows[j].conId
  }

  /** The broker lists each (symbol, venue) pair and each contract id once. */
  predicate WellListed(xs: seq<Report>) {
    && (forall i, j :: 0 <= i < j < |xs| ==> PairOf(xs[i]) != PairOf(xs[j]))
    && (forall i, j :: 0 <= i < j < |xs| && xs[i].conId.Some? ==> xs[i].conId != xs[j].conId)
  }

  /** Every field reported, and the contract id where one is. */
  predicate Matches(row: PositionRow, x: Report) {
    && row.symbol == x.symbol && row.venue == x.venue
    && row.qty == x.qty && row.avgEntry == x.avgEntry
    && row.marketValue == x.marketValue && row.costBasis == x.costBasis && row.unrealized == x.unrealized
    && row.currency == x.currency && row.exchange == x.exchange
    && (x.conId.Some? ==> row.conId == x.conId)
  }

  predicate HasRow(table: seq<PositionRow>, x: Report) { exists r :: r in table && Matches(r, x) }

  predicate HasReport(xs: seq<Report>, r: PositionRow) { exists x :: x in xs && Matches(r, x) }

  /** One row per report and one report per row, equal in every field reported. */
  predicate Mirrors(table: seq<PositionRow>, xs: seq<Report>) {
    && UniqueKeys(table)
    && (forall j :: 0 <= j < |xs| ==> HasRow(table, xs[j]))
    && (forall i :: 0 <= i < |table| ==> HasReport(xs, table[i]))
  }

  /** The row of the table a report is for: by contract id, else by pair. */
  function Target(base: seq<PositionRow>, x: Report): Option<nat> { RowFor(Begin(base), x) }

  predicate IsTarget(base: seq<PositionRow>, x: Report, i: nat) { Target(base, x) == Some(i) }

  predicate OneToOne(base: seq<PositionRow>, xs: seq<Report>) {
    forall j, k :: 0 <= j < k < |xs| && Target(base, xs[j]).Some? ==> Target(base, xs[j]) != Target(base, xs[k])
  }

  predicate KeepsSymbols(base: seq<PositionRow>, xs: seq<Report>) {
    forall i, j :: 0 <= i < |base| && 0 <= j < |xs| && IsTarget(base, xs[j], i) ==> base[i].symbol == xs[j].symbol
  }

  predicate IsTargeted(base: seq<PositionRow>, xs: seq<Report>, i: nat) {
    exists j :: 0 <= j < |xs| && IsTarget(base, xs[j], i)
  }

  predicate ReachesReported(base: seq<PositionRow>, xs: seq<Report>) {
    forall i, j :: 0 <= i < |base| && 0 <= j < |xs| && KeyOf(base[i]) == PairOf(xs[j]) ==> IsTargeted(base, xs, i)
  }

  /** Checked before the sync: no two reports are for one row, no report changes a row's symbol, and
      every row whose pair is reported is some report's row. */
  predicate Faithful(base: seq<PositionRow>, xs: seq<Report>) {
    OneToOne(base, xs) && KeepsSymbols(base, xs) && ReachesReported(base, xs)
  }

  // ----- The indexes -----

  ghost predicate KeyIndex(rows: seq<PositionRow>, m: map<Pair, nat>) {
    && (forall k :: k in m ==> m[k] < |rows| && KeyOf(rows[m[k]]) == k)
    && (forall i :: 0 <= i < |rows| ==> KeyOf(rows[i]) in m && m[KeyOf(rows[i])] == i)
  }

  ghost predicate ConIndex(rows: seq<PositionRow>, m: map<nat, nat>) {
    && (forall c :: c in m ==> m[c] < |rows| && rows[m[c]].conId == Some(c))
    && (forall i :: 0 <= i < |rows| && rows[i].conId.Some? ==> rows[i].conId.value in m && m[rows[i].conId.value] == i)
  }

  lemma {:induction false} KeysAreIndexed(rows: seq<PositionRow>)
    requires UniqueKeys(rows)
    ensures KeyIndex(rows, IndexKeys(rows))
    decreases |rows|
  {
    if rows != [] {
      assert forall i :: 0 <= i < |rows| - 1 ==> rows[..|rows| - 1][i] == rows[i];
      KeysAreIndexed(rows[..|rows| - 1]);
    }
  }

  lemma {:induction false} ConsAreIndexed(rows: seq<PositionRow>)
    requires UniqueCons(rows)
    ensures ConIndex(rows, IndexCons(rows))
    decreases |rows|
  {
    if rows != [] {
      assert forall i :: 0 <= i < |rows| - 1 ==> rows[..|rows| - 1][i] == rows[i];
      ConsAreIndexed(rows[..|rows| - 1]);
    }
  }

  /** What a target is, without the indexes. */
  lemma TargetMeaning(base: seq<PositionRow>, x: Report)
    requires UniqueKeys(base) && UniqueCons(base)
    ensures Target(base, x).Some? ==>
      var i := Target(base, x).value;
      && i < |base|
      && ((x.conId.Some? && base[i].conId == x.conId) || KeyOf(base[i]) == PairOf(x))
      && (x.conId.None? ==> KeyOf(base[i]) == PairOf(x))
    ensures forall i :: 0 <= i < |base| && x.conId.Some? && base[i].conId == x.conId ==> Target(base, x) == Some(i)
    ensures forall i :: 0 <= i < |base| && KeyOf(base[i]) == PairOf(x) ==> Target(base, x).Some?
    ensures forall i :: 0 <= i < |base| && KeyOf(base[i]) == PairOf(x) && x.conId.None? ==> Target(base, x) == Some(i)
  {
    KeysAreIndexed(base);
    ConsAreIndexed(base);
  }

  // ----- The upsert loop, report by report -----

  function Pairs(xs: seq<Report>): set<Pair> { set j | 0 <= j < |xs| :: PairOf(xs[j]) }

  function Cons(xs: seq<Report>): set<nat> { set j | 0 <= j < |xs| && xs[j].conId.Some? :: xs[j].conId.value }

  lemma PairsSnoc(xs: seq<Report>, x: Report)
    ensures Pairs(xs + [x]) == Pairs(xs) + {PairOf(x)}
    ensures Cons(xs + [x]) == Cons(xs) + ConSet(x)
  {
    var ys := xs + [x];
    assert ys[|xs|] == x;
    assert forall j :: 0 <= j < |xs| ==> ys[j] == xs[j];
    forall p | p in Pairs(xs) ensures p in Pairs(ys) {
      var j :| 0 <= j < |xs| && PairOf(xs[j]) == p;
      assert PairOf(ys[j]) == p;
    }
    forall c | c in Cons(xs) ensures c in Cons(ys) {
      var j :| 0 <= j < |xs| && xs[j].conId == Some(c);
      assert ys[j].conId == Some(c);
    }
  }

  /** The last report for a row. */
  function LastFor(base: seq<PositionRow>, xs: seq<Report>, i: nat): (r: Option<nat>)
    ensures r.Some? ==> r.value < |xs| && IsTarget(base, xs[r.value], i)
    ensures r.Some? ==> forall j :: r.value < j < |xs| ==> !IsTarget(base, xs[j], i)
    ensures r.None? ==> forall j :: 0 <= j < |xs| ==> !IsTarget(base, xs[j], i)
    decreases |xs|
  {
    if xs == [] then None
    else if IsTarget(base, xs[|xs| - 1], i) then Some(|xs| - 1)
    else LastFor(base, xs[..|xs| - 1], i)
  }

  lemma LastForSnoc(base: seq<PositionRow>, xs: seq<Report>, x: Report, i: nat)
    ensures LastFor(base, xs + [x], i) == if IsTarget(base, x, i) then Some(|xs|) else LastFor(base, xs, i)
  {
    assert (xs + [x])[..|xs|] == xs;
  }

  /** The contract id a row ends with is its own or that of a report for it. */
  ghost predicate ConIsOwn(base: seq<PositionRow>, xs: seq<Report>, i: nat, con: Option<nat>)
    requires i < |base|
  {
    con == base[i].conId || exists j :: 0 <= j < |xs| && IsTarget(base, xs[j], i) && xs[j].conId == con
  }

  /** The symbol stays, everything else comes from the last report for the row. */
  ghost predicate RowAfter(base: seq<PositionRow>, xs: seq<Report>, i: nat, row: PositionRow)
    requires i < |base|
  {
    var last := LastFor(base, xs, i);
    && row.symbol == base[i].symbol
    && (last.None? ==> row == base[i])
    && (last.Some? ==>
          && row == NewRow(xs[last.value]).(symbol := base[i].symbol, conId := row.conId)
          && (xs[last.value].conId.Some? ==> row.conId == xs[last.value].conId))
    && ConIsOwn(base, xs, i, row.conId)
  }

  ghost predicate Inserted(base: seq<PositionRow>, xs: seq<Report>, row: PositionRow) {
    exists j :: 0 <= j < |xs| && Target(base, xs[j]).None? && row == NewRow(xs[j])
  }

  ghost predicate RowsAfter(base: seq<PositionRow>, xs: seq<Report>, rows: seq<PositionRow>) {
    && |base| <= |rows|
    && (forall i :: 0 <= i < |base| ==> RowAfter(base, xs, i, rows[i]))
  }

  ghost predicate NewAfter(base: seq<PositionRow>, xs: seq<Report>, added: seq<PositionRow>) {
    && (forall i :: 0 <= i < |added| ==> Inserted(base, xs, added[i]))
    && (forall j :: 0 <= j < |xs| && Target(base, xs[j]).None? ==> NewRow(xs[j]) in added)
    && (forall i, j :: 0 <= i < j < |added| ==> KeyOf(added[i]) != KeyOf(added[j]))
  }

  /** A report with a row points its pair at that row; all other pairs stay where they were. */
  ghost predicate KeysAfter(base: seq<PositionRow>, xs: seq<Report>, byKey: map<Pair, nat>) {
    && (forall j :: 0 <= j < |xs| && Target(base, xs[j]).Some? ==>
          PairOf(xs[j]) in byKey && byKey[PairOf(xs[j])] == Target(base, xs[j]).value)
    && (forall k :: k !in Pairs(xs) ==> (k in byKey <==> k in IndexKeys(base)))
    && (forall k :: k !in Pairs(xs) && k in byKey ==> byKey[k] == IndexKeys(base)[k])
  }

  ghost predicate ConsAfter(base: seq<PositionRow>, xs: seq<Report>, byCon: map<nat, nat>) {
    && (forall c :: c !in Cons(xs) ==> (c in byCon <==> c in IndexCons(base)))
    && (forall c :: c !in Cons(xs) && c in byCon ==> byCon[c] == IndexCons(base)[c])
  }

  ghost predicate After(base: seq<PositionRow>, xs: seq<Report>, st: Sync) {
    && RowsAfter(base, xs, st.rows)
    && NewAfter(base, xs, st.rows[|base|..])
    && KeysAfter(base, xs, st.byKey)
    && ConsAfter(base, xs, st.byCon)
    && st.seen == Pairs(xs) && st.seenCon == Cons(xs)
  }

  lemma ConStaysOwn(base: seq<PositionRow>, xs: seq<Report>, x: Report, i: nat, con: Option<nat>)
    requires i < |base| && ConIsOwn(base, xs, i, con)
    ensures ConIsOwn(base, xs + [x], i, con)
  {
    if con != base[i].conId {
      var j :| 0 <= j < |xs| && IsTarget(base, xs[j], i) && xs[j].conId == con;
      assert (xs + [x])[j] == xs[j];
    }
  }

  lemma RowStays(base: seq<PositionRow>, xs: seq<Report>, x: Report, i: nat, row: PositionRow)
    requires i < |base| && RowAfter(base, xs, i, row) && !IsTarget(base, x, i)
    ensures RowAfter(base, xs + [x], i, row)
  {
    LastForSnoc(base, xs, x, i);
    ConStaysOwn(base, xs, x, i, row.conId);
  }

  lemma RowIsRefreshed(base: seq<PositionRow>, xs: seq<Report>, x: Report, i: nat, row: PositionRow)
    requires i < |base| && RowAfter(base, xs, i, row) && IsTarget(base, x, i)
    ensures RowAfter(base, xs + [x], i, Refreshed(row, x))
  {
    LastForSnoc(base, xs, x, i);
    assert (xs + [x])[|xs|] == x;
    if x.conId.None? { ConStaysOwn(base, xs, x, i, row.conId); }
  }

  lemma UpsertRows(base: seq<PositionRow>, xs: seq<Report>, st: Sync, x: Report)
    requires RowsAfter(base, xs, st.rows) && RowFor(st, x) == Target(base, x)
    requires Target(base, x).Some? ==> Target(base, x).value < |base|
    ensures RowsAfter(base, xs + [x], Upsert(st, x).rows)
  {
    var rows := Upsert(st, x).rows;
    forall i | 0 <= i < |base| ensures RowAfter(base, xs + [x], i, rows[i]) {
      if IsTarget(base, x, i) {
        RowIsRefreshed(base, xs, x, i, st.rows[i]);
      } else {
        RowStays(base, xs, x, i, st.rows[i]);
      }
    }
  }

  lemma InsertedStays(base: seq<PositionRow>, xs: seq<Report>, x: Report, row: PositionRow)
    requires Inserted(base, xs, row)
    ensures Inserted(base, xs + [x], row)
  {
    var j :| 0 <= j < |xs| && Target(base, xs[j]).None? && row == NewRow(xs[j]);
    assert (xs + [x])[j] == xs[j];
  }

  /** An inserted row does not carry the pair of a report that comes later. */
  lemma InsertedUnderOtherPair(base: seq<PositionRow>, xs: seq<Report>, x: Report, row: PositionRow)
    requires Inserted(base, xs, row) && PairOf(x) !in Pairs(xs)
    ensures KeyOf(row) != PairOf(x)
  {
    var j :| 0 <= j < |xs| && Target(base, xs[j]).None? && row == NewRow(xs[j]);
    assert PairOf(xs[j]) in Pairs(xs);
  }

  lemma NewRowStays(base: seq<PositionRow>, xs: seq<Report>, added: seq<PositionRow>, x: Report)
    requires NewAfter(base, xs, added) && Target(base, x).Some?
    ensures NewAfter(base, xs + [x], added)
  {
    forall i | 0 <= i < |added| ensures Inserted(base, xs + [x], added[i]) { InsertedStays(base, xs, x, added[i]); }
    forall j | 0 <= j < |xs + [x]| && Target(base, (xs + [x])[j]).None? ensures NewRow((xs + [x])[j]) in added {
      assert j < |xs| && (xs + [x])[j] == xs[j];
    }
  }

  lemma NewRowIsAdded(base: seq<PositionRow>, xs: seq<Report>, added: seq<PositionRow>, x: Report)
    requires NewAfter(base, xs, added) && PairOf(x) !in Pairs(xs) && Target(base, x).None?
    ensures NewAfter(base, xs + [x], added + [NewRow(x)])
  {
    var ys, rows := xs + [x], added + [NewRow(x)];
    assert ys[|xs|] == x;
    forall i | 0 <= i < |rows| ensures Inserted(base, ys, rows[i]) {
      if i < |added| { InsertedStays(base, xs, x, added[i]); }
    }
    forall j | 0 <= j < |ys| && Target(base, ys[j]).None? ensures NewRow(ys[j]) in rows {
      if j < |xs| { assert NewRow(xs[j]) in added; }
    }
    forall i | 0 <= i < |added| ensures KeyOf(added[i]) != PairOf(x) { InsertedUnderOtherPair(base, xs, x, added[i]); }
  }

  lemma UpsertNewRows(base: seq<PositionRow>, xs: seq<Report>, st: Sync, x: Report)
    requires |base| <= |st.rows| && NewAfter(base, xs, st.rows[|base|..]) && PairOf(x) !in Pairs(xs)
    requires RowFor(st, x) == Target(base, x)
    requires Target(base, x).Some? ==> Target(base, x).value < |base|
    ensures |base| <= |Upsert(st, x).rows| && NewAfter(base, xs + [x], Upsert(st, x).rows[|base|..])
  {
    var rows := Upsert(st, x).rows;
    if Target(base, x).None? {
      NewRowIsAdded(base, xs, st.rows[|base|..], x);
      assert rows[|base|..] == st.rows[|base|..] + [NewRow(x)];
    } else {
      NewRowStays(base, xs, st.rows[|base|..], x);
      assert rows[|base|..] == st.rows[|base|..];
    }
  }

  lemma UpsertKeys(base: seq<PositionRow>, xs: seq<Report>, st: Sync, x: Report)
    requires KeysAfter(base, xs, st.byKey) && PairOf(x) !in Pairs(xs) && RowFor(st, x) == Target(base, x)
    requires Target(base, x).Some? ==> Target(base, x).value < |st.rows|
    ensures KeysAfter(base, xs + [x], Upsert(st, x).byKey)
  {
    var ys, byKey := xs + [x], Upsert(st, x).byKey;
    PairsSnoc(xs, x);
    forall j | 0 <= j < |ys| && Target(base, ys[j]).Some?
      ensures PairOf(ys[j]) in byKey && byKey[PairOf(ys[j])] == Target(base, ys[j]).value
    {
      if j < |xs| { assert ys[j] == xs[j] && PairOf(xs[j]) in Pairs(xs); }
    }
  }

  lemma UpsertCons(base: seq<PositionRow>, xs: seq<Report>, st: Sync, x: Report)
    requires ConsAfter(base, xs, st.byCon)
    ensures ConsAfter(base, xs + [x], Upsert(st, x).byCon)
  {
    PairsSnoc(xs, x);
  }

  lemma {:induction false} AfterUpserts(base: seq<PositionRow>, xs: seq<Report>)
    requires UniqueKeys(base) && UniqueCons(base) && WellListed(xs)
    ensures After(base, xs, Upserts(Begin(base), xs))
    decreases |xs|
  {
    if xs == [] {
      assert base[|base|..] == [];
    } else {
      var init, x := xs[..|xs| - 1], xs[|xs| - 1];
      assert xs == init + [x];
      assert forall j :: 0 <= j < |init| ==> init[j] == xs[j];
      AfterUpserts(base, init);
      var st := Upserts(Begin(base), init);
      TargetMeaning(base, x);
      UpsertRows(base, init, st, x);
      UpsertNewRows(base, init, st, x);
      UpsertKeys(base, init, st, x);
      UpsertCons(base, init, st, x);
      PairsSnoc(init, x);
    }
  }

  // ----- The delete pass -----

  /** A row is deleted exactly when no report is for it and its pair is not reported. */
  lemma DoomedMeaning(base: seq<PositionRow>, xs: seq<Report>, st: Sync, i: nat)
    requires UniqueKeys(base) && UniqueCons(base) && After(base, xs, st) && i < |st.rows|
    ensures i in Doomed(st) <==> i < |base| && LastFor(base, xs, i).None? && KeyOf(base[i]) !in Pairs(xs)
  {
    KeysAreIndexed(base);
    assert forall j :: 0 <= j < |xs| ==> PairOf(xs[j]) in Pairs(xs);
    assert forall j :: 0 <= j < |xs| && xs[j].conId.Some? ==> xs[j].conId.value in Cons(xs);
    if i in Doomed(st) {
      var k :| k in st.byKey && Gone(st, k) && st.byKey[k] == i;
      assert RowAfter(base, xs, i, st.rows[i]);
      if LastFor(base, xs, i).Some? { TargetMeaning(base, xs[LastFor(base, xs, i).value]); }
    }
    if i < |base| && LastFor(base, xs, i).None? && KeyOf(base[i]) !in Pairs(xs) {
      var k := KeyOf(base[i]);
      assert RowAfter(base, xs, i, st.rows[i]);
      if st.rows[i].conId.Some? && st.rows[i].conId.value in st.seenCon {
        var j :| 0 <= j < |xs| && xs[j].conId.Some? && xs[j].conId.value == base[i].conId.value;
        TargetMeaning(base, xs[j]);
        assert false;
      }
      assert Gone(st, k);
    }
  }

  /** Two places of the kept list come from two places of the table, in order. */
  lemma {:induction false} KeptFrom(rows: seq<PositionRow>, doomed: set<nat>, i: nat, j: nat) returns (a: nat, b: nat)
    requires i < j < |Keep(rows, doomed)|
    ensures a < b < |rows| && a !in doomed && b !in doomed
    ensures rows[a] == Keep(rows, doomed)[i] && rows[b] == Keep(rows, doomed)[j]
    decreases |rows|
  {
    var init := rows[..|rows| - 1];
    if j < |Keep(init, doomed)| {
      a, b := KeptFrom(init, doomed, i, j);
    } else {
      b := |rows| - 1;
      a := KeptOneFrom(init, doomed, i);
    }
  }

  lemma {:induction false} KeptOneFrom(rows: seq<PositionRow>, doomed: set<nat>, i: nat) returns (a: nat)
    requires i < |Keep(rows, doomed)|
    ensures a < |rows| && a !in doomed && rows[a] == Keep(rows, doomed)[i]
    decreases |rows|
  {
    var init := rows[..|rows| - 1];
    if i < |Keep(init, doomed)| { a := KeptOneFrom(init, doomed, i); } else { a := |rows| - 1; }
  }

  /** ... and back. */
  lemma {:induction false} KeptAt(rows: seq<PositionRow>, doomed: set<nat>, a: nat) returns (i: nat)
    requires a < |rows| && a !in doomed
    ensures i < |Keep(rows, doomed)| && Keep(rows, doomed)[i] == rows[a]
    ensures i <= a
    decreases |rows|
  {
    if a == |rows| - 1 {
      i := |Keep(rows[..|rows| - 1], doomed)|;
      KeepIsShorter(rows[..|rows| - 1], doomed);
    } else {
      i := KeptAt(rows[..|rows| - 1], doomed, a);
    }
  }

  lemma {:induction false} KeepIsShorter(rows: seq<PositionRow>, doomed: set<nat>)
    ensures |Keep(rows, doomed)| <= |rows|
    decreases |rows|
  {
    if rows != [] { KeepIsShorter(rows[..|rows| - 1], doomed); }
  }

  lemma {:induction false} KeptBothAt(rows: seq<PositionRow>, doomed: set<nat>, a: nat, b: nat) returns (i: nat, j: nat)
    requires a < b < |rows| && a !in doomed && b !in doomed
    ensures i < j < |Keep(rows, doomed)| && Keep(rows, doomed)[i] == rows[a] && Keep(rows, doomed)[j] == rows[b]
    decreases |rows|
  {
    var init := rows[..|rows| - 1];
    if b == |rows| - 1 {
      i := KeptAt(init, doomed, a);
      j := |Keep(init, doomed)|;
    } else {
      i, j := KeptBothAt(init, doomed, a, b);
    }
  }

  // ----- Faithful reports give a mirror -----

  /** What a survivor of a faithful sync is: the row of one report, with that report's pair. */
  ghost predicate StandsFor(base: seq<PositionRow>, xs: seq<Report>, st: Sync, i: nat, j: nat) {
    && i < |st.rows| && j < |xs| && Matches(st.rows[i], xs[j]) && KeyOf(st.rows[i]) == PairOf(xs[j])
    && (if i < |base| then IsTarget(base, xs[j], i) else Target(base, xs[j]).None?)
  }

  lemma OnlyReportIsLast(base: seq<PositionRow>, xs: seq<Report>, i: nat, j: nat)
    requires OneToOne(base, xs) && j < |xs| && IsTarget(base, xs[j], i)
    ensures LastFor(base, xs, i) == Some(j)
  {
  }

  lemma ReportedIsTargeted(base: seq<PositionRow>, xs: seq<Report>, i: nat)
    requires ReachesReported(base, xs) && i < |base| && KeyOf(base[i]) in Pairs(xs)
    ensures LastFor(base, xs, i).Some?
  {
    var k :| 0 <= k < |xs| && PairOf(xs[k]) == KeyOf(base[i]);
    assert IsTargeted(base, xs, i);
  }

  /** Rows beyond the old table are inserted ones. */
  lemma NewRowOrigins(base: seq<PositionRow>, xs: seq<Report>, st: Sync)
    requires After(base, xs, st)
    ensures forall m :: |base| <= m < |st.rows| ==> Inserted(base, xs, st.rows[m])
    ensures forall a, b :: |base| <= a < b < |st.rows| ==> KeyOf(st.rows[a]) != KeyOf(st.rows[b])
  {
    var added := st.rows[|base|..];
    forall m | |base| <= m < |st.rows| ensures Inserted(base, xs, st.rows[m]) {
      assert Inserted(base, xs, added[m - |base|]);
    }
    forall a, b | |base| <= a < b < |st.rows| ensures KeyOf(st.rows[a]) != KeyOf(st.rows[b]) {
      assert KeyOf(added[a - |base|]) != KeyOf(added[b - |base|]);
    }
  }

  lemma SurvivorStands(base: seq<PositionRow>, xs: seq<Report>, st: Sync, i: nat) returns (j: nat)
    requires UniqueKeys(base) && UniqueCons(base) && After(base, xs, st) && Faithful(base, xs)
    requires i < |st.rows| && i !in Doomed(st)
    ensures StandsFor(base, xs, st, i, j)
  {
    if i < |base| {
      DoomedMeaning(base, xs, st, i);
      assert RowAfter(base, xs, i, st.rows[i]);
      if KeyOf(base[i]) in Pairs(xs) { ReportedIsTargeted(base, xs, i); }
      j := LastFor(base, xs, i).value;
    } else {
      NewRowOrigins(base, xs, st);
      j :| 0 <= j < |xs| && Target(base, xs[j]).None? && st.rows[i] == NewRow(xs[j]);
    }
  }

  lemma ReportSurvives(base: seq<PositionRow>, xs: seq<Report>, st: Sync, j: nat) returns (i: nat)
    requires UniqueKeys(base) && UniqueCons(base) && After(base, xs, st) && Faithful(base, xs) && j < |xs|
    ensures i < |st.rows| && i !in Doomed(st) && Matches(st.rows[i], xs[j])
  {
    TargetMeaning(base, xs[j]);
    if Target(base, xs[j]).Some? {
      i := Target(base, xs[j]).value;
      OnlyReportIsLast(base, xs, i, j);
      assert RowAfter(base, xs, i, st.rows[i]);
    } else {
      var added := st.rows[|base|..];
      assert NewRow(xs[j]) in added;
      var k :| 0 <= k < |added| && added[k] == NewRow(xs[j]);
      i := |base| + k;
    }
    DoomedMeaning(base, xs, st, i);
  }

  lemma OneSurvivorPerReport(base: seq<PositionRow>, xs: seq<Report>, st: Sync, a: nat, b: nat, x: nat, y: nat)
    requires After(base, xs, st) && a < b && StandsFor(base, xs, st, a, x) && StandsFor(base, xs, st, b, y)
    ensures x != y
  {
    NewRowOrigins(base, xs, st);
  }

  lemma FaithfulTableIsUnique(base: seq<PositionRow>, xs: seq<Report>, st: Sync)
    requires UniqueKeys(base) && UniqueCons(base) && WellListed(xs) && After(base, xs, st) && Faithful(base, xs)
    ensures UniqueKeys(Keep(st.rows, Doomed(st))) && UniqueCons(Keep(st.rows, Doomed(st)))
  {
    var table := Keep(st.rows, Doomed(st));
    forall i, j | 0 <= i < j < |table|
      ensures KeyOf(table[i]) != KeyOf(table[j]) && (table[i].conId.Some? ==> table[i].conId != table[j].conId)
    {
      var a, b := KeptFrom(st.rows, Doomed(st), i, j);
      var x := SurvivorStands(base, xs, st, a);
      var y := SurvivorStands(base, xs, st, b);
      OneSurvivorPerReport(base, xs, st, a, b, x, y);
      DifferentCons(base, xs, st, a, b, x, y);
    }
  }

  /** The contract id of a survivor of a faithful sync: the report's, or the row's own where the
      report has none. */
  lemma SurvivorCon(base: seq<PositionRow>, xs: seq<Report>, st: Sync, a: nat, x: nat)
    requires UniqueKeys(base) && UniqueCons(base) && After(base, xs, st) && OneToOne(base, xs)
    requires StandsFor(base, xs, st, a, x)
    ensures st.rows[a].conId == xs[x].conId || (a < |base| && st.rows[a].conId == base[a].conId)
  {
    if a < |base| {
      assert RowAfter(base, xs, a, st.rows[a]);
      OnlyReportIsLast(base, xs, a, x);
      if st.rows[a].conId != base[a].conId {
        var j :| 0 <= j < |xs| && IsTarget(base, xs[j], a) && xs[j].conId == st.rows[a].conId;
      }
    } else {
      NewRowOrigins(base, xs, st);
      var j :| 0 <= j < |xs| && Target(base, xs[j]).None? && st.rows[a] == NewRow(xs[j]);
    }
  }

  lemma DifferentCons(base: seq<PositionRow>, xs: seq<Report>, st: Sync, a: nat, b: nat, x: nat, y: nat)
    requires UniqueKeys(base) && UniqueCons(base) && WellListed(xs) && After(base, xs, st) && OneToOne(base, xs)
    requires StandsFor(base, xs, st, a, x) && StandsFor(base, xs, st, b, y) && a < b && x != y
    ensures st.rows[a].conId.Some? ==> st.rows[a].conId != st.rows[b].conId
  {
    SurvivorCon(base, xs, st, a, x);
    SurvivorCon(base, xs, st, b, y);
    TargetMeaning(base, xs[x]);
    TargetMeaning(base, xs[y]);
  }

  lemma FaithfulMirrors(base: seq<PositionRow>, xs: seq<Report>, st: Sync)
    requires UniqueKeys(base) && UniqueCons(base) && WellListed(xs) && After(base, xs, st) && Faithful(base, xs)
    ensures Mirrors(Keep(st.rows, Doomed(st)), xs)
  {
    var table := Keep(st.rows, Doomed(st));
    FaithfulTableIsUnique(base, xs, st);
    forall j | 0 <= j < |xs| ensures HasRow(table, xs[j]) {
      var a := ReportSurvives(base, xs, st, j);
      var i := KeptAt(st.rows, Doomed(st), a);
      assert table[i] in table;
    }
    forall i | 0 <= i < |table| ensures HasReport(xs, table[i]) {
      var a := KeptOneFrom(st.rows, Doomed(st), i);
      var j := SurvivorStands(base, xs, st, a);
      assert xs[j] in xs;
    }
  }

  // ----- A mirror needs faithful reports -----

  /** Only the report's own row can end with its contract id. */
  lemma OnlyHolder(base: seq<PositionRow>, xs: seq<Report>, st: Sync, j: nat, m: nat)
    requires UniqueKeys(base) && UniqueCons(base) && WellListed(xs) && After(base, xs, st)
    requires j < |xs| && xs[j].conId.Some? && Target(base, xs[j]).Some?
    requires m < |st.rows| && st.rows[m].conId == xs[j].conId
    ensures Target(base, xs[j]) == Some(m)
  {
    TargetMeaning(base, xs[j]);
    NewRowOrigins(base, xs, st);
    if m < |base| {
      assert RowAfter(base, xs, m, st.rows[m]);
      if st.rows[m].conId != base[m].conId {
        var k :| 0 <= k < |xs| && IsTarget(base, xs[k], m) && xs[k].conId == st.rows[m].conId;
        assert k == j;
      }
    }
  }

  lemma MirroredAt(table: seq<PositionRow>, xs: seq<Report>, j: nat) returns (i: nat)
    requires Mirrors(table, xs) && j < |xs|
    ensures i < |table| && Matches(table[i], xs[j])
  {
    assert HasRow(table, xs[j]);
    var r :| r in table && Matches(r, xs[j]);
    i :| 0 <= i < |table| && table[i] == r;
  }

  /** The row that answers for a report in a mirror. */
  lemma Answer(xs: seq<Report>, st: Sync, j: nat) returns (m: nat)
    requires Mirrors(Keep(st.rows, Doomed(st)), xs) && j < |xs|
    ensures m < |st.rows| && m !in Doomed(st) && Matches(st.rows[m], xs[j])
  {
    var i := MirroredAt(Keep(st.rows, Doomed(st)), xs, j);
    m := KeptOneFrom(st.rows, Doomed(st), i);
  }

  lemma MirrorKeepsSymbols(base: seq<PositionRow>, xs: seq<Report>, st: Sync)
    requires UniqueKeys(base) && UniqueCons(base) && WellListed(xs) && After(base, xs, st)
    requires Mirrors(Keep(st.rows, Doomed(st)), xs)
    ensures KeepsSymbols(base, xs)
  {
    forall i, j | 0 <= i < |base| && 0 <= j < |xs| && IsTarget(base, xs[j], i) ensures base[i].symbol == xs[j].symbol {
      TargetMeaning(base, xs[j]);
      if xs[j].conId.Some? {
        var m := Answer(xs, st, j);
        OnlyHolder(base, xs, st, j, m);
        assert RowAfter(base, xs, i, st.rows[i]);
      }
    }
  }

  /** Where symbols are kept, a row ends under the pair of its last report. */
  lemma KeyIsLastPair(base: seq<PositionRow>, xs: seq<Report>, st: Sync, m: nat)
    requires After(base, xs, st) && KeepsSymbols(base, xs) && m < |st.rows|
    ensures m < |base| && LastFor(base, xs, m).Some? ==> KeyOf(st.rows[m]) == PairOf(xs[LastFor(base, xs, m).value])
    ensures m < |base| && LastFor(base, xs, m).None? ==> st.rows[m] == base[m]
    ensures m >= |base| ==> exists k :: 0 <= k < |xs| && Target(base, xs[k]).None? && KeyOf(st.rows[m]) == PairOf(xs[k])
  {
    if m < |base| {
      assert RowAfter(base, xs, m, st.rows[m]);
    } else {
      NewRowOrigins(base, xs, st);
      var k :| 0 <= k < |xs| && Target(base, xs[k]).None? && st.rows[m] == NewRow(xs[k]);
      assert KeyOf(st.rows[m]) == PairOf(xs[k]);
    }
  }

  /** A report that has a row to answer for it was the last one for its own row. */
  lemma AnsweredIsLast(base: seq<PositionRow>, xs: seq<Report>, st: Sync, i: nat, j: nat, m: nat)
    requires UniqueKeys(base) && UniqueCons(base) && WellListed(xs) && After(base, xs, st) && KeepsSymbols(base, xs)
    requires j < |xs| && IsTarget(base, xs[j], i) && m < |st.rows| && Matches(st.rows[m], xs[j])
    ensures LastFor(base, xs, i) == Some(j)
  {
    TargetMeaning(base, xs[j]);
    KeyIsLastPair(base, xs, st, m);
    KeyIsLastPair(base, xs, st, i);
    assert KeyOf(st.rows[m]) == PairOf(xs[j]);
    if xs[j].conId.Some? {
      OnlyHolder(base, xs, st, j, m);
    } else if m < |base| && LastFor(base, xs, m).Some? {
      assert LastFor(base, xs, m).value == j;
    }
  }

  lemma MirroredIsLast(base: seq<PositionRow>, xs: seq<Report>, st: Sync, j: nat)
    requires UniqueKeys(base) && UniqueCons(base) && WellListed(xs) && After(base, xs, st)
    requires Mirrors(Keep(st.rows, Doomed(st)), xs) && KeepsSymbols(base, xs)
    requires j < |xs| && Target(base, xs[j]).Some?
    ensures LastFor(base, xs, Target(base, xs[j]).value) == Some(j)
  {
    var m := Answer(xs, st, j);
    AnsweredIsLast(base, xs, st, Target(base, xs[j]).value, j, m);
  }

  ghost predicate EachIsLast(base: seq<PositionRow>, xs: seq<Report>) {
    forall j :: 0 <= j < |xs| && Target(base, xs[j]).Some? ==> LastFor(base, xs, Target(base, xs[j]).value) == Some(j)
  }

  lemma MirrorIsOneToOne(base: seq<PositionRow>, xs: seq<Report>, st: Sync)
    requires UniqueKeys(base) && UniqueCons(base) && WellListed(xs) && After(base, xs, st)
    requires Mirrors(Keep(st.rows, Doomed(st)), xs) && KeepsSymbols(base, xs)
    ensures OneToOne(base, xs)
  {
    forall j | 0 <= j < |xs| && Target(base, xs[j]).Some?
      ensures LastFor(base, xs, Target(base, xs[j]).value) == Some(j)
    {
      MirroredIsLast(base, xs, st, j);
    }
  }

  lemma TwoRowsOfOnePair(st: Sync, a: nat, b: nat)
    requires a < |st.rows| && b < |st.rows| && a != b && a !in Doomed(st) && b !in Doomed(st)
    requires KeyOf(st.rows[a]) == KeyOf(st.rows[b])
    ensures !UniqueKeys(Keep(st.rows, Doomed(st)))
  {
    var i, j := KeptBothAt(st.rows, Doomed(st), if a < b then a else b, if a < b then b else a);
    assert KeyOf(Keep(st.rows, Doomed(st))[i]) == KeyOf(Keep(st.rows, Doomed(st))[j]);
  }

  /** A row that no report is for, though its pair is reported, survives beside the row that took
      over its pair. */
  lemma UnreachedIsDoubled(base: seq<PositionRow>, xs: seq<Report>, st: Sync, i: nat, j: nat)
    requires UniqueKeys(base) && UniqueCons(base) && After(base, xs, st) && KeepsSymbols(base, xs) && OneToOne(base, xs)
    requires i < |base| && j < |xs| && KeyOf(base[i]) == PairOf(xs[j]) && LastFor(base, xs, i).None?
    ensures !UniqueKeys(Keep(st.rows, Doomed(st)))
  {
    TargetMeaning(base, xs[j]);
    var m := Target(base, xs[j]).value;
    OnlyReportIsLast(base, xs, m, j);
    KeyIsLastPair(base, xs, st, i);
    KeyIsLastPair(base, xs, st, m);
    assert PairOf(xs[j]) in Pairs(xs);
    DoomedMeaning(base, xs, st, i);
    DoomedMeaning(base, xs, st, m);
    TwoRowsOfOnePair(st, i, m);
  }

  lemma MirrorReachesReported(base: seq<PositionRow>, xs: seq<Report>, st: Sync)
    requires UniqueKeys(base) && UniqueCons(base) && After(base, xs, st) && KeepsSymbols(base, xs) && OneToOne(base, xs)
    requires UniqueKeys(Keep(st.rows, Doomed(st)))
    ensures ReachesReported(base, xs)
  {
    forall i, j | 0 <= i < |base| && 0 <= j < |xs| && KeyOf(base[i]) == PairOf(xs[j]) ensures IsTargeted(base, xs, i) {
      if LastFor(base, xs, i).None? { UnreachedIsDoubled(base, xs, st, i, j); }
    }
  }

  /** For any table and broker list with unique pairs and contract ids on each side: the table after
      the sync equals the broker's non-zero positions exactly if and only if the reports are
      faithful to the table before it. */
  lemma SyncMirrorsIff(rows: seq<PositionRow>, xs: seq<Report>)
    requires UniqueKeys(rows) && UniqueCons(rows) && WellListed(LiveReports(xs))
    ensures Mirrors(SyncTable(rows, xs), LiveReports(xs)) <==> Faithful(rows, LiveReports(xs))
    ensures Faithful(rows, LiveReports(xs)) ==> UniqueKeys(SyncTable(rows, xs)) && UniqueCons(SyncTable(rows, xs))
  {
    var live := LiveReports(xs);
    AfterUpserts(rows, live);
    var st := Upserts(Begin(rows), live);
    if Faithful(rows, live) {
      FaithfulMirrors(rows, live, st);
      FaithfulTableIsUnique(rows, live, st);
    }
    if Mirrors(Keep(st.rows, Doomed(st)), live) {
      MirrorKeepsSymbols(rows, live, st);
      MirrorIsOneToOne(rows, live, st);
      MirrorReachesReported(rows, live, st);
    }
  }

  predicate Position(x: Report) { x.symbol != "" && x.qty != 0.0 }

  predicate HasPosition(xs: seq<Report>, r: PositionRow) { exists x :: x in xs && Position(x) && Matches(r, x) }

  lemma MirrorHasRow(table: seq<PositionRow>, xs: seq<Report>, x: Report)
    requires Mirrors(table, LiveReports(xs)) && x in xs && Position(x)
    ensures HasRow(table, x)
  {
    assert x in LiveReports(xs);
    var j :| 0 <= j < |LiveReports(xs)| && LiveReports(xs)[j] == x;
    assert HasRow(table, LiveReports(xs)[j]);
  }

  lemma MirrorHasPosition(table: seq<PositionRow>, xs: seq<Report>, i: nat)
    requires Mirrors(table, LiveReports(xs)) && i < |table|
    ensures HasPosition(xs, table[i])
  {
    assert HasReport(LiveReports(xs), table[i]);
    var x :| x in LiveReports(xs) && Matches(table[i], x);
    assert Position(x);
  }

  /** So after a faithful sync the table has a row for each report of a named symbol with a non-zero
      quantity, and no row for anything else. */
  lemma SyncListsPositions(rows: seq<PositionRow>, xs: seq<Report>)
    requires UniqueKeys(rows) && UniqueCons(rows) && WellListed(LiveReports(xs)) && Faithful(rows, LiveReports(xs))
    ensures
      var table := SyncTable(rows, xs);
      && (forall x :: x in xs && Position(x) ==> HasRow(table, x))
      && (forall i :: 0 <= i < |table| ==> HasPosition(xs, table[i]))
  {
    SyncMirrorsIff(rows, xs);
    var table := SyncTable(rows, xs);
    forall x | x in xs && Position(x) ensures HasRow(table, x) { MirrorHasRow(table, xs, x); }
    forall i | 0 <= i < |table| ensures HasPosition(xs, table[i]) { MirrorHasPosition(table, xs, i); }
  }

  // ----- Sequences of syncs -----

  function SyncTables(rows: seq<PositionRow>, lists: seq<seq<Report>>): seq<PositionRow> {
    if lists == [] then rows else SyncTable(SyncTables(rows, lists[..|lists| - 1]), lists[|lists| - 1])
  }

  /** After every sync the table mirrors the list it was given. */
  ghost predicate AlwaysMirrors(rows: seq<PositionRow>, lists: seq<seq<Report>>)
    decreases |lists|
  {
    lists == [] ||
    (AlwaysMirrors(rows, lists[..|lists| - 1]) && Mirrors(SyncTables(rows, lists), LiveReports(lists[|lists| - 1])))
  }

  /** Every list is faithful to the table it meets. */
  predicate AlwaysFaithful(rows: seq<PositionRow>, lists: seq<seq<Report>>)
    decreases |lists|
  {
    lists == [] ||
    (AlwaysFaithful(rows, lists[..|lists| - 1]) &&
     Faithful(SyncTables(rows, lists[..|lists| - 1]), LiveReports(lists[|lists| - 1])))
  }

  /** Over every sequence of syncs the table mirrors the broker after each of them if and only if
      each list is faithful to the table it meets. */
  lemma {:induction false} EverySyncMirrorsIff(rows: seq<PositionRow>, lists: seq<seq<Report>>)
    requires UniqueKeys(rows) && UniqueCons(rows)
    requires forall n :: 0 <= n < |lists| ==> WellListed(LiveReports(lists[n]))
    ensures AlwaysMirrors(rows, lists) <==> AlwaysFaithful(rows, lists)
    ensures AlwaysFaithful(rows, lists) ==> UniqueKeys(SyncTables(rows, lists)) && UniqueCons(SyncTables(rows, lists))
    decreases |lists|
  {
    if lists != [] {
      EverySyncMirrorsIff(rows, lists[..|lists| - 1]);
      if AlwaysFaithful(rows, lists[..|lists| - 1]) {
        SyncMirrorsIff(SyncTables(rows, lists[..|lists| - 1]), lists[|lists| - 1]);
      }
    }
  }

  // ----- Contract ids that stay with their pair -----

  /** Each contract id belongs to one (symbol, venue) pair. */
  predicate Owned(rows: seq<PositionRow>, xs: seq<Report>, owner: map<nat, Pair>) {
    && (forall i :: 0 <= i < |rows| && rows[i].conId.Some? ==>
          rows[i].conId.value in owner && owner[rows[i].conId.value] == KeyOf(rows[i]))
    && (forall j :: 0 <= j < |xs| && xs[j].conId.Some? ==>
          xs[j].conId.value in owner && owner[xs[j].conId.value] == PairOf(xs[j]))
  }

  predicate DistinctPairs(xs: seq<Report>) {
    forall i, j :: 0 <= i < j < |xs| ==> PairOf(xs[i]) != PairOf(xs[j])
  }

  lemma OwnedIsUnique(rows: seq<PositionRow>, xs: seq<Report>, owner: map<nat, Pair>)
    requires UniqueKeys(rows) && DistinctPairs(xs) && Owned(rows, xs, owner)
    ensures UniqueCons(rows) && WellListed(xs)
  {
  }

  /** Then every report is for the row of its own pair. */
  lemma OwnedTarget(rows: seq<PositionRow>, xs: seq<Report>, owner: map<nat, Pair>, j: nat)
    requires UniqueKeys(rows) && UniqueCons(rows) && Owned(rows, xs, owner) && j < |xs|
    ensures forall i :: 0 <= i < |rows| ==> (IsTarget(rows, xs[j], i) <==> KeyOf(rows[i]) == PairOf(xs[j]))
    ensures Target(rows, xs[j]).Some? ==> Target(rows, xs[j]).value < |rows|
  {
    TargetMeaning(rows, xs[j]);
  }

  lemma OwnedIsFaithful(rows: seq<PositionRow>, xs: seq<Report>, owner: map<nat, Pair>)
    requires UniqueKeys(rows) && UniqueCons(rows) && DistinctPairs(xs) && Owned(rows, xs, owner)
    ensures Faithful(rows, xs)
  {
    forall j | 0 <= j < |xs|
      ensures forall i :: 0 <= i < |rows| ==> (IsTarget(rows, xs[j], i) <==> KeyOf(rows[i]) == PairOf(xs[j]))
      ensures Target(rows, xs[j]).Some? ==> Target(rows, xs[j]).value < |rows|
    {
      OwnedTarget(rows, xs, owner, j);
    }
    forall j, k | 0 <= j < k < |xs| && Target(rows, xs[j]).Some? ensures Target(rows, xs[j]) != Target(rows, xs[k]) {
      assert IsTarget(rows, xs[j], Target(rows, xs[j]).value);
      if Target(rows, xs[j]) == Target(rows, xs[k]) { assert IsTarget(rows, xs[k], Target(rows, xs[j]).value); }
    }
  }

  lemma OwnedStays(base: seq<PositionRow>, xs: seq<Report>, owner: map<nat, Pair>)
    requires UniqueKeys(base) && DistinctPairs(xs) && Owned(base, xs, owner)
    ensures
      var st := Upserts(Begin(base), xs);
      Owned(Keep(st.rows, Doomed(st)), [], owner)
  {
    OwnedIsUnique(base, xs, owner);
    OwnedIsFaithful(base, xs, owner);
    AfterUpserts(base, xs);
    var st := Upserts(Begin(base), xs);
    var table := Keep(st.rows, Doomed(st));
    forall i | 0 <= i < |table| && table[i].conId.Some?
      ensures table[i].conId.value in owner && owner[table[i].conId.value] == KeyOf(table[i])
    {
      var a := KeptOneFrom(st.rows, Doomed(st), i);
      var x := SurvivorStands(base, xs, st, a);
      SurvivorCon(base, xs, st, a, x);
      OwnedTarget(base, xs, owner, x);
    }
  }

  /** A broker list with each pair once and each contract id under its owner. */
  ghost predicate OwnedList(xs: seq<Report>, owner: map<nat, Pair>) {
    DistinctPairs(LiveReports(xs)) && Owned([], LiveReports(xs), owner)
  }

  /** As long as contract ids keep their pairs every list is faithful, so the table is the mirror of
      the latest list after every sync of every sequence of syncs. */
  lemma {:induction false} EverySyncMirrors(rows: seq<PositionRow>, lists: seq<seq<Report>>, owner: map<nat, Pair>)
    requires UniqueKeys(rows) && Owned(rows, [], owner)
    requires forall n :: 0 <= n < |lists| ==> OwnedList(lists[n], owner)
    ensures AlwaysMirrors(rows, lists)
    ensures UniqueKeys(SyncTables(rows, lists)) && Owned(SyncTables(rows, lists), [], owner)
    decreases |lists|
  {
    if lists != [] {
      EverySyncMirrors(rows, lists[..|lists| - 1], owner);
      assert OwnedList(lists[|lists| - 1], owner);
      var table, live := SyncTables(rows, lists[..|lists| - 1]), LiveReports(lists[|lists| - 1]);
      OwnedIsUnique(table, live, owner);
      OwnedIsFaithful(table, live, owner);
      SyncMirrorsIff(table, lists[|lists| - 1]);
      OwnedStays(table, live, owner);
    }
  }

  // ----- Unfaithful reports -----

  /** Row `at` and no other carries the contract id. */
  predicate HeldOnlyAt(rows: seq<PositionRow>, con: nat, at: nat) {
    at < |rows| && rows[at].conId == Some(con) && forall i :: 0 <= i < |rows| && i != at ==> rows[i].conId != Some(con)
  }

  /** The contract id leads to row `at`, which still has its old symbol, and to no other row. */
  ghost predicate Pinned(st: Sync, con: nat, at: nat, symbol: string) {
    && con in st.byCon && st.byCon[con] == at
    && at < |st.rows| && st.rows[at].symbol == symbol
    && forall i :: 0 <= i < |st.rows| && i != at ==> st.rows[i].conId != Some(con)
  }

  lemma {:induction false} ConIndexPoints(rows: seq<PositionRow>, con: nat, at: nat)
    requires HeldOnlyAt(rows, con, at)
    ensures con in IndexCons(rows) && IndexCons(rows)[con] == at
    decreases |rows|
  {
    if at < |rows| - 1 {
      assert forall i :: 0 <= i < |rows| - 1 ==> rows[..|rows| - 1][i] == rows[i];
      ConIndexPoints(rows[..|rows| - 1], con, at);
    }
  }

  lemma {:induction false} UpsertsStayPinned(st: Sync, xs: seq<Report>, con: nat, at: nat, symbol: string)
    requires Pinned(st, con, at, symbol)
    ensures Pinned(Upserts(st, xs), con, at, symbol)
    decreases |xs|
  {
    if xs != [] {
      UpsertsStayPinned(st, xs[..|xs| - 1], con, at, symbol);
    }
  }

  lemma {:induction false} KeptWereRows(rows: seq<PositionRow>, doomed: set<nat>, r: PositionRow)
    requires r in Keep(rows, doomed)
    ensures exists i :: 0 <= i < |rows| && rows[i] == r
    decreases |rows|
  {
    if r in Keep(rows[..|rows| - 1], doomed) {
      KeptWereRows(rows[..|rows| - 1], doomed, r);
      var i :| 0 <= i < |rows| - 1 && rows[..|rows| - 1][i] == r;
      assert rows[i] == r;
    } else {
      assert rows[|rows| - 1] == r;
    }
  }

  /** A renamed ticker keeps its contract id, and the update never writes the symbol: in any table
      where one row holds that id, and for any broker list that reports it under another symbol,
      the table goes on listing the old name and does not mirror the broker. */
  lemma RenamedTickerBreaksMirror(rows: seq<PositionRow>, xs: seq<Report>, con: nat, at: nat, x: Report)
    requires HeldOnlyAt(rows, con, at)
    requires x in xs && Live(x) && x.conId == Some(con) && x.symbol != rows[at].symbol
    ensures !Mirrors(SyncTable(rows, xs), LiveReports(xs))
  {
    ConIndexPoints(rows, con, at);
    UpsertsStayPinned(Begin(rows), LiveReports(xs), con, at, rows[at].symbol);
    var st := Upserts(Begin(rows), LiveReports(xs));
    var j :| 0 <= j < |LiveReports(xs)| && LiveReports(xs)[j] == x;
    forall r | r in SyncTable(rows, xs) ensures !Matches(r, x) {
      KeptWereRows(st.rows, Doomed(st), r);
      var i :| 0 <= i < |st.rows| && st.rows[i] == r;
    }
    assert !HasRow(SyncTable(rows, xs), LiveReports(xs)[j]);
  }

  /** Two reports for one row, no rename involved: the one without a contract id finds the row by
      its pair, the one that moved venue by its contract id, and one row is left for both. */
  lemma TwoReportsForOneRow(row: PositionRow, x: Report, y: Report)
    requires row.conId.Some? && KeyOf(row) == PairOf(x) && x.conId.None? && y.conId == row.conId
    requires PairOf(x) != PairOf(y) && Live(x) && Live(y)
    ensures !Mirrors(SyncTable([row], [x, y]), [x, y])
  {
    LiveOfTwo(x, y);
    TargetMeaning([row], x);
    TargetMeaning([row], y);
    assert [row][0] == row && [x, y][0] == x && [x, y][1] == y;
    assert !OneToOne([row], [x, y]);
    SyncMirrorsIff([row], [x, y]);
  }

  lemma LiveOfTwo(x: Report, y: Report)
    requires Live(x) && Live(y)
    ensures LiveReports([x, y]) == [x, y]
  {
    LiveSnoc([], x);
    LiveSnoc([x], y);
    assert [] + [x] == [x] && [x] + [y] == [x, y];
  }

  /** A contract id that only moves venue is followed. */
  lemma VenueMoveIsMirrored(row: PositionRow, x: Report)
    requires row.conId.Some? && x.conId == row.conId && x.symbol == row.symbol && Live(x)
    ensures Mirrors(SyncTable([row], [x]), [x])
  {
    LiveSnoc([], x);
    assert [] + [x] == [x] && [row][0] == row && [x][0] == x;
    TargetMeaning([row], x);
    assert IsTarget([row], [x][0], 0);
    assert IsTargeted([row], [x], 0);
    SyncMirrorsIff([row], [x]);
  }
}
