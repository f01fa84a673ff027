/** Broker to local reconciliation (app/execution/reconciliation.py). */
module Reconciliations {
  import opened BrokerModels
  import opened OrderTables

  const STREAK_TO_CLOSE := 3
  const LOOKBACK := 8

  /** An open order in a broker snapshot; some snapshots carry entries without an id. */
  datatype Remote = Remote(oid: Option<nat>, symbol: string, side: Side, qty: real, code: OrderCode, status: OrderStatus)

  function Ids(remote: seq<Remote>): set<nat> {
    set i | 0 <= i < |remote| && remote[i].oid.Some? :: remote[i].oid.value
  }

  function AdoptedRow(r: Remote): OrderRow
    requires r.oid.Some?
  {
    OrderRow(AdoptedKey(r.oid.value), r.symbol, r.side, r.qty, Canonical(r.code), None, None,
             FromBroker(r.status), r.oid)
  }

  /** Rows for the remote orders whose ids were unknown when the run began. */
  function Adopt(rows: seq<OrderRow>, remote: seq<Remote>, known: set<nat>): seq<OrderRow>
    decreases |remote|
  {
    if remote == [] then rows
    else
      var last := remote[|remote| - 1];
      var before := Adopt(rows, remote[..|remote| - 1], known);
      if last.oid.Some? && last.oid.value !in known then before + [AdoptedRow(last)] else before
  }

  /** The run extends a streak of empty snapshots. */
  predicate Counts(run: ReconRun) { run.issues.snapshot.EmptyRemote? }

  /** Newest-first count of empty-snapshot runs, within the last `limit` rows of the log. */
  function Streak(runs: seq<ReconRun>, limit: nat): nat
    decreases |runs|
  {
    if limit == 0 || runs == [] || !Counts(runs[|runs| - 1]) then 0
    else 1 + Streak(runs[..|runs| - 1], limit - 1)
  }

  function PriorStreak(runs: seq<ReconRun>): nat { Streak(runs, LOOKBACK) }

  function Closed(r: OrderRow): OrderRow { if Working(r.status) then r.(status := Cancelled) else r }

  /** Cancel every working row locally. */
  function CloseStale(rows: seq<OrderRow>): seq<OrderRow> {
    seq(|rows|, i requires 0 <= i < |rows| => Closed(rows[i]))
  }

  lemma WorkingSnoc(rows: seq<OrderRow>, i: nat)
    requires i < |rows|
    ensures |WorkingRows(rows[..i + 1])| == |WorkingRows(rows[..i])| + if Working(rows[i].status) then 1 else 0
  {
    assert rows[..i + 1][..i] == rows[..i];
  }

  /** Issue types that begin with `local_` or `remote_`. */
  predicate Material(x: Issues) { x.localMissingRemote != {} || x.remoteMissingLocal != {} }

  function Verdict(x: Issues): ReconResult {
    if x == NO_ISSUES then InSync else if Material(x) then MaterialDrift else MinorDrift
  }

  const NO_ISSUES := Issues({}, {}, NoSnapshotIssue, false)
  const UNREADABLE := ReconRun(BrokerUnavailable, NO_ISSUES.(fetchFailed := true))

  /** The run forces local opens closed. */
  predicate ForcesClose(runs: seq<ReconRun>) { PriorStreak(runs) + 1 >= STREAK_TO_CLOSE }

  function SnapshotIssueOf(rows: seq<OrderRow>, runs: seq<ReconRun>, remote: seq<Remote>): SnapshotIssue {
    if remote != [] || OpenIds(rows) == {} then NoSnapshotIssue
    else if ForcesClose(runs) then StaleCleared(|WorkingRows(rows)|, PriorStreak(runs) + 1)
    else EmptyRemote(|OpenIds(rows)|, PriorStreak(runs) + 1)
  }

  function IssuesOf(rows: seq<OrderRow>, runs: seq<ReconRun>, remote: seq<Remote>): Issues {
    Issues(if remote != [] then OpenIds(rows) - Ids(remote) else {}, Ids(remote) - BrokerIds(rows),
           SnapshotIssueOf(rows, runs, remote), false)
  }

  /** One run; `None` is a broker that could not be read. */
  function Reconcile(s: Store, remote: Option<seq<Remote>>): Store {
    if remote.None? then s.(runs := s.runs + [UNREADABLE])
    else
      var adopted := Adopt(s.rows, remote.value, BrokerIds(s.rows));
      var issues := IssuesOf(adopted, s.runs, remote.value);
      var rows :=
        if remote.value == [] && OpenIds(adopted) != {} && ForcesClose(s.runs) then CloseStale(adopted) else adopted;
      s.(rows := rows, runs := s.runs + [ReconRun(Verdict(issues), issues)])
  }

  // ----- The service -----

  class ReconciliationService {
    var db: Store

    method AdoptRemoteOrders(remote: seq<Remote>, known: set<nat>) returns (adopted: nat)
      modifies this
      ensures db == old(db).(rows := Adopt(old(db).rows, remote, known))
      ensures |db.rows| == |old(db).rows| + adopted
    {
      adopted := 0;
      var i := 0;
      while i < |remote|
        invariant 0 <= i <= |remote|
        invariant db == old(db).(rows := Adopt(old(db).rows, remote[..i], known))
        invariant |db.rows| == |old(db).rows| + adopted
      {
        assert remote[..i + 1][..i] == remote[..i];
        var r := remote[i];
        if r.oid.Some? && r.oid.value !in known {
          db := db.(rows := db.rows + [AdoptedRow(r)]);
          adopted := adopted + 1;
        }
        i := i + 1;
      }
      assert remote[..|remote|] == remote;
    }

    method PriorEmptyRemoteStreak() returns (streak: nat)
      ensures streak == PriorStreak(db.runs)
    {
      streak := 0;
      var n := |db.runs|;
      assert db.runs[..n] == db.runs;
      while n > 0 && streak < LOOKBACK && Counts(db.runs[n - 1])
        invariant 0 <= n <= |db.runs| && streak <= LOOKBACK && n + streak == |db.runs|
        invariant PriorStreak(db.runs) == streak + Streak(db.runs[..n], LOOKBACK - streak)
      {
        assert db.runs[..n][..n - 1] == db.runs[..n - 1];
        n, streak := n - 1, streak + 1;
      }
    }

    method CloseStaleLocalOpens() returns (closed: nat)
      modifies this
      ensures db == old(db).(rows := CloseStale(old(db).rows))
      ensures closed == |WorkingRows(old(db).rows)|
    {
      var before, rows := db.rows, db.rows;
      closed := 0;
      var i := 0;
      while i < |rows|
        invariant db == old(db) && 0 <= i <= |rows| == |before|
        invariant forall k :: 0 <= k < i ==> rows[k] == Closed(before[k])
        invariant forall k :: i <= k < |before| ==> rows[k] == before[k]
        invariant closed == |WorkingRows(before[..i])|
      {
        WorkingSnoc(before, i);
        if Working(rows[i].status) {
          rows := rows[i := Closed(rows[i])];
          closed := closed + 1;
        }
        i := i + 1;
      }
      assert before[..i] == before;
      assert rows == CloseStale(before);
      db := db.(rows := rows);
    }

    method Run(remote: Option<seq<Remote>>) returns (result: ReconResult)
      modifies this
      ensures db == Reconcile(old(db), remote)
      ensures result == db.runs[|db.runs| - 1].result
    {
      if remote.None? {
        db := db.(runs := db.runs + [UNREADABLE]);
        return BrokerUnavailable;
      }
      var remoteIds := Ids(remote.value);
      var _ := AdoptRemoteOrders(remote.value, BrokerIds(db.rows));
      var localOpen := OpenIds(db.rows);
      var known := BrokerIds(db.rows);
      var issues := NO_ISSUES;
      if remote.value != [] {
        issues := issues.(localMissingRemote := localOpen - remoteIds);
      } else if localOpen != {} {
        var streak := PriorEmptyRemoteStreak();
        streak := streak + 1;
        if streak >= STREAK_TO_CLOSE {
          var closed := CloseStaleLocalOpens();
          issues := issues.(snapshot := StaleCleared(closed, streak));
        } else {
          issues := issues.(snapshot := EmptyRemote(|localOpen|, streak));
        }
      }
      issues := issues.(remoteMissingLocal := remoteIds - known);
      result := Verdict(issues);
      db := db.(runs := db.runs + [ReconRun(result, issues)]);
    }
  }

  // ----- Closure -----

  lemma {:induction false} AdoptFacts(rows: seq<OrderRow>, remote: seq<Remote>, known: set<nat>)
    ensures rows <= Adopt(rows, remote, known)
    ensures forall i :: |rows| <= i < |Adopt(rows, remote, known)| ==>
      var r := Adopt(rows, remote, known)[i];
      r.brokerId.Some? && r.brokerId.value in Ids(remote) - known && r.key == AdoptedKey(r.brokerId.value)
    ensures forall oid :: oid in Ids(remote) && oid !in known ==> oid in BrokerIds(Adopt(rows, remote, known))
    decreases |remote|
  {
    if remote != [] {
      var init, last := remote[..|remote| - 1], remote[|remote| - 1];
      AdoptFacts(rows, init, known);
      var before, after := Adopt(rows, init, known), Adopt(rows, remote, known);
      assert forall i :: 0 <= i < |init| ==> init[i] == remote[i];
      forall oid | oid in Ids(remote) && oid !in known
        ensures oid in BrokerIds(after)
      {
        if last.oid == Some(oid) {
          assert after[|before|].brokerId == Some(oid);
        } else {
          assert oid in Ids(init);
          var i :| 0 <= i < |before| && before[i].brokerId == Some(oid);
          assert after[i].brokerId == Some(oid);
        }
      }
    }
  }

  lemma KnownAfterAdoption(rows: seq<OrderRow>, remote: seq<Remote>)
    ensures Ids(remote) <= BrokerIds(Adopt(rows, remote, BrokerIds(rows)))
  {
    var after := Adopt(rows, remote, BrokerIds(rows));
    AdoptFacts(rows, remote, BrokerIds(rows));
    forall oid | oid in Ids(remote)
      ensures oid in BrokerIds(after)
    {
      if oid in BrokerIds(rows) {
        var i :| 0 <= i < |rows| && rows[i].brokerId == Some(oid);
        assert after[i].brokerId == Some(oid);
      }
    }
  }

  lemma {:induction false} NothingToAdopt(rows: seq<OrderRow>, remote: seq<Remote>, known: set<nat>)
    requires Ids(remote) <= known
    ensures Adopt(rows, remote, known) == rows
    decreases |remote|
  {
    if remote != [] {
      var init := remote[..|remote| - 1];
      assert forall i :: 0 <= i < |init| ==> init[i] == remote[i];
      assert remote[|remote| - 1].oid.Some? ==> remote[|remote| - 1].oid.value in Ids(remote);
      NothingToAdopt(rows, init, known);
    }
  }

  lemma CloseStaleKeepsIds(rows: seq<OrderRow>)
    ensures BrokerIds(CloseStale(rows)) == BrokerIds(rows)
  {
    assert forall i :: 0 <= i < |rows| ==> CloseStale(rows)[i].brokerId == rows[i].brokerId;
  }

  /** After any run that read the broker, every remote open id has a local row, and a second run on
      the same snapshot adopts nothing. */
  lemma ReconcileIsClosed(s: Store, remote: seq<Remote>)
    ensures Ids(remote) <= BrokerIds(Reconcile(s, Some(remote)).rows)
    ensures |Reconcile(Reconcile(s, Some(remote)), Some(remote)).rows| == |Reconcile(s, Some(remote)).rows|
  {
    KnownAfterAdoption(s.rows, remote);
    CloseStaleKeepsIds(Adopt(s.rows, remote, BrokerIds(s.rows)));
    var s' := Reconcile(s, Some(remote));
    NothingToAdopt(s'.rows, remote, BrokerIds(s'.rows));
  }

  /** MATERIAL_DRIFT arises exactly when the snapshot is non-empty and misses a working local id. */
  lemma MaterialDriftMeaning(s: Store, remote: seq<Remote>)
    ensures
      var s' := Reconcile(s, Some(remote));
      s'.runs[|s.runs|].result == MaterialDrift <==> remote != [] && !(OpenIds(s.rows) <= Ids(remote))
  {
    var adopted := Adopt(s.rows, remote, BrokerIds(s.rows));
    KnownAfterAdoption(s.rows, remote);
    OpenAfterAdoption(s.rows, remote);
    assert Ids(remote) - BrokerIds(adopted) == {};
    assert OpenIds(adopted) - Ids(remote) == OpenIds(s.rows) - Ids(remote);
    SubsetByDifference(OpenIds(s.rows), Ids(remote));
  }

  lemma SubsetByDifference(a: set<nat>, b: set<nat>)
    ensures a <= b <==> a - b == {}
  {
    if !(a <= b) {
      var x :| x in a && x !in b;
      assert x in a - b;
    }
  }

  /** Adoption adds no working id that the snapshot does not list, and loses none. */
  lemma OpenAfterAdoption(rows: seq<OrderRow>, remote: seq<Remote>)
    ensures
      var adopted := Adopt(rows, remote, BrokerIds(rows));
      OpenIds(rows) <= OpenIds(adopted) <= OpenIds(rows) + Ids(remote)
  {
    var adopted := Adopt(rows, remote, BrokerIds(rows));
    AdoptFacts(rows, remote, BrokerIds(rows));
    forall oid | oid in OpenIds(rows) ensures oid in OpenIds(adopted) {
      var i :| 0 <= i < |rows| && Working(rows[i].status) && rows[i].brokerId == Some(oid);
      assert adopted[i] == rows[i];
    }
    forall oid | oid in OpenIds(adopted) ensures oid in OpenIds(rows) + Ids(remote) {
      var i :| 0 <= i < |adopted| && Working(adopted[i].status) && adopted[i].brokerId == Some(oid);
      assert i < |rows| ==> rows[i] == adopted[i];
    }
  }

  // ----- The streak is a plain consecutive counter -----

  /** What one run sees: the order table as it stands and the broker snapshot. */
  datatype Look = Look(rows: seq<OrderRow>, remote: Option<seq<Remote>>)

  /** An empty snapshot against a table with open broker ids. */
  predicate LooksEmpty(l: Look) { l.remote == Some([]) && OpenIds(l.rows) != {} }

  /** The log that a sequence of runs writes, whatever happens to the order table in between. */
  function LogAfter(looks: seq<Look>): seq<ReconRun>
    decreases |looks|
  {
    if looks == [] then []
    else
      var last := looks[|looks| - 1];
      Reconcile(Store(last.rows, [], LogAfter(looks[..|looks| - 1])), last.remote).runs
  }

  /** How many of the most recent looks, without a gap, were empty. */
  function Trailing(looks: seq<Look>): nat
    decreases |looks|
  {
    if looks == [] || !LooksEmpty(looks[|looks| - 1]) then 0 else 1 + Trailing(looks[..|looks| - 1])
  }

  lemma {:induction false} ShortStreakIgnoresLimit(runs: seq<ReconRun>, a: nat, b: nat)
    requires Streak(runs, a) < a <= b
    ensures Streak(runs, b) == Streak(runs, a)
    decreases a
  {
    if runs != [] && Counts(runs[|runs| - 1]) {
      ShortStreakIgnoresLimit(runs[..|runs| - 1], a - 1, b - 1);
    }
  }

  lemma StreakSnoc(runs: seq<ReconRun>, run: ReconRun)
    requires PriorStreak(runs) < LOOKBACK - 1
    ensures PriorStreak(runs + [run]) == if Counts(run) then 1 + PriorStreak(runs) else 0
  {
    assert (runs + [run])[..|runs|] == runs;
    if Streak(runs, LOOKBACK - 1) == LOOKBACK - 1 {
      StreakGrowsWithLimit(runs, LOOKBACK - 1, LOOKBACK);
    } else {
      StreakBounded(runs, LOOKBACK - 1);
      ShortStreakIgnoresLimit(runs, LOOKBACK - 1, LOOKBACK);
    }
  }

  lemma {:induction false} StreakBounded(runs: seq<ReconRun>, limit: nat)
    ensures Streak(runs, limit) <= limit
    decreases limit
  {
    if limit > 0 && runs != [] { StreakBounded(runs[..|runs| - 1], limit - 1); }
  }

  lemma {:induction false} StreakGrowsWithLimit(runs: seq<ReconRun>, a: nat, b: nat)
    requires a <= b
    ensures Streak(runs, a) <= Streak(runs, b)
    decreases a
  {
    if a > 0 && runs != [] && Counts(runs[|runs| - 1]) {
      StreakGrowsWithLimit(runs[..|runs| - 1], a - 1, b - 1);
    }
  }

  lemma LastRun(looks: seq<Look>) returns (run: ReconRun)
    requires looks != []
    ensures LogAfter(looks) == LogAfter(looks[..|looks| - 1]) + [run]
    ensures Counts(run) <==> LooksEmpty(looks[|looks| - 1]) && !ForcesClose(LogAfter(looks[..|looks| - 1]))
  {
    var runs := LogAfter(looks[..|looks| - 1]);
    run := LogAfter(looks)[|runs|];
  }

  lemma NextModulo(t: nat)
    ensures (t + 1) % 3 == if t % 3 == 2 then 0 else t % 3 + 1
  {
  }

  lemma StreakStep(runs: seq<ReconRun>, run: ReconRun, empty: bool, t: nat)
    requires PriorStreak(runs) == t % 3
    requires Counts(run) <==> empty && !ForcesClose(runs)
    ensures PriorStreak(runs + [run]) == if empty then (t + 1) % 3 else 0
  {
    StreakSnoc(runs, run);
    NextModulo(t);
  }

  /** Over every sequence of runs the streak read back from the last eight log rows equals the
      number of consecutive empty snapshots since the last forced close, and is at most two. */
  lemma {:induction false} StreakIsConsecutiveCount(looks: seq<Look>)
    ensures PriorStreak(LogAfter(looks)) == Trailing(looks) % STREAK_TO_CLOSE
    ensures PriorStreak(LogAfter(looks)) <= 2
    decreases |looks|
  {
    if looks != [] {
      var init := looks[..|looks| - 1];
      StreakIsConsecutiveCount(init);
      var run := LastRun(looks);
      StreakStep(LogAfter(init), run, LooksEmpty(looks[|looks| - 1]), Trailing(init));
    }
  }

  lemma RowsAfter(l: Look, runs: seq<ReconRun>)
    ensures
      var rows := Reconcile(Store(l.rows, [], runs), l.remote).rows;
      if LooksEmpty(l) && ForcesClose(runs) then rows == CloseStale(l.rows) && rows != l.rows else l.rows <= rows
  {
    if l.remote.Some? {
      AdoptFacts(l.rows, l.remote.value, BrokerIds(l.rows));
    }
    if LooksEmpty(l) {
      var oid :| oid in OpenIds(l.rows);
      var i :| 0 <= i < |l.rows| && Working(l.rows[i].status) && l.rows[i].brokerId == Some(oid);
      assert CloseStale(l.rows)[i].status == Cancelled;
    }
  }

  /** Local opens are force-closed exactly on every third consecutive empty snapshot; any other
      run leaves existing rows untouched, and any other kind of run resets the count. */
  lemma ForcedCloseIsThirdInARow(looks: seq<Look>, l: Look)
    ensures
      var rows := Reconcile(Store(l.rows, [], LogAfter(looks)), l.remote).rows;
      if LooksEmpty(l) && Trailing(looks + [l]) % STREAK_TO_CLOSE == 0
      then rows == CloseStale(l.rows) && rows != l.rows
      else l.rows <= rows
    ensures !LooksEmpty(l) ==> PriorStreak(LogAfter(looks + [l])) == 0
  {
    RowsAfter(l, LogAfter(looks));
    StreakIsConsecutiveCount(looks);
    StreakIsConsecutiveCount(looks + [l]);
    assert (looks + [l])[..|looks|] == looks;
    NextModulo(Trailing(looks));
  }
}
