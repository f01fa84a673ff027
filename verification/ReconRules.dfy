/** What a reconciliation run decides and changes, on the tables and the snapshot
    (app/execution/reconciliation.py). */
module ReconRules {
  import opened BrokerModels
  import opened OrderTables
  import opened RowStatuses
  import opened Reconciliations

  predicate OpenAt(rows: seq<OrderRow>, n: nat, oid: nat) {
    n < |rows| && WorkingStatus(rows[n].status) && rows[n].brokerId == Some(oid)
  }

  /** The id of a working local row. */
  ghost predicate LocalOpen(rows: seq<OrderRow>, oid: nat) { exists n: nat :: OpenAt(rows, n, oid) }

  predicate Lists(remote: seq<Remote>, oid: nat) { exists n :: 0 <= n < |remote| && remote[n].oid == Some(oid) }

  lemma OpenIdsAre(rows: seq<OrderRow>, oid: nat)
    ensures oid in OpenIds(rows) <==> LocalOpen(rows, oid)
  {
    forall n | 0 <= n < |rows| ensures Working(rows[n].status) <==> WorkingStatus(rows[n].status) { StatusKinds(rows[n].status); }
    if oid in OpenIds(rows) {
      var n :| 0 <= n < |rows| && Working(rows[n].status) && rows[n].brokerId == Some(oid);
      assert OpenAt(rows, n, oid);
    }
  }

  lemma IdsAre(remote: seq<Remote>, oid: nat)
    ensures oid in Ids(remote) <==> Lists(remote, oid)
  {
  }

  ghost predicate SomeOpen(rows: seq<OrderRow>) { exists oid: nat :: LocalOpen(rows, oid) }

  ghost predicate SomeMissing(rows: seq<OrderRow>, remote: seq<Remote>) {
    exists oid: nat :: LocalOpen(rows, oid) && !Lists(remote, oid)
  }

  lemma SomeOpenIff(rows: seq<OrderRow>)
    ensures SomeOpen(rows) <==> OpenIds(rows) != {}
  {
    if SomeOpen(rows) {
      var oid: nat :| LocalOpen(rows, oid);
      OpenIdsAre(rows, oid);
    }
    if OpenIds(rows) != {} {
      var oid :| oid in OpenIds(rows);
      OpenIdsAre(rows, oid);
    }
  }

  lemma SomeMissingIff(rows: seq<OrderRow>, remote: seq<Remote>)
    ensures SomeMissing(rows, remote) <==> !(OpenIds(rows) <= Ids(remote))
  {
    if SomeMissing(rows, remote) {
      var oid: nat :| LocalOpen(rows, oid) && !Lists(remote, oid);
      OpenIdsAre(rows, oid);
      IdsAre(remote, oid);
    }
    if !(OpenIds(rows) <= Ids(remote)) {
      var oid :| oid in OpenIds(rows) && oid !in Ids(remote);
      OpenIdsAre(rows, oid);
      IdsAre(remote, oid);
    }
  }

  /** The result that a run logs. */
  function ResultOf(s: Store, remote: Option<seq<Remote>>): ReconResult
    requires |Reconcile(s, remote).runs| == |s.runs| + 1
  {
    Reconcile(s, remote).runs[|s.runs|].result
  }

  lemma OneRunMore(s: Store, remote: Option<seq<Remote>>)
    ensures |Reconcile(s, remote).runs| == |s.runs| + 1 && Reconcile(s, remote).runs[..|s.runs|] == s.runs
    ensures Reconcile(s, remote).executions == s.executions
  {
  }

  lemma NothingToAdopt(rows: seq<OrderRow>, known: set<nat>)
    ensures Adopt(rows, [], known) == rows
  {
  }

  lemma EmptySnapshotVerdict(s: Store)
    ensures |Reconcile(s, Some([])).runs| == |s.runs| + 1
    ensures ResultOf(s, Some([])) == if OpenIds(s.rows) == {} then InSync else MinorDrift
  {
    OneRunMore(s, Some([]));
    NothingToAdopt(s.rows, BrokerIds(s.rows));
  }

  lemma FullSnapshotVerdict(s: Store, remote: seq<Remote>)
    requires remote != []
    ensures |Reconcile(s, Some(remote)).runs| == |s.runs| + 1
    ensures ResultOf(s, Some(remote)) == if OpenIds(s.rows) <= Ids(remote) then InSync else MaterialDrift
  {
    OneRunMore(s, Some(remote));
    KnownAfterAdoption(s.rows, remote);
    OpenAfterAdoption(s.rows, remote);
    var adopted := Adopt(s.rows, remote, BrokerIds(s.rows));
    assert Ids(remote) - BrokerIds(adopted) == {};
    assert OpenIds(adopted) - Ids(remote) == OpenIds(s.rows) - Ids(remote);
    SubsetByDifference(OpenIds(s.rows), Ids(remote));
  }

  /** The verdict of every run: unavailable exactly when the broker could not be read, and then no row
      changes; material drift exactly when a non-empty snapshot misses the id of a working row; minor
      drift exactly when an empty snapshot meets one; in sync otherwise. */
  lemma VerdictIs(s: Store, remote: Option<seq<Remote>>)
    ensures |Reconcile(s, remote).runs| == |s.runs| + 1
    ensures ResultOf(s, remote) == BrokerUnavailable <==> remote == None
    ensures remote == None ==> Reconcile(s, remote).rows == s.rows
    ensures ResultOf(s, remote) == MaterialDrift <==>
      remote.Some? && remote.value != [] && SomeMissing(s.rows, remote.value)
    ensures ResultOf(s, remote) == MinorDrift <==> remote == Some([]) && SomeOpen(s.rows)
    ensures ResultOf(s, remote) == InSync <==>
      remote.Some? && if remote.value == [] then !SomeOpen(s.rows) else !SomeMissing(s.rows, remote.value)
  {
    SomeOpenIff(s.rows);
    if remote.Some? && remote.value != [] {
      SomeMissingIff(s.rows, remote.value);
      FullSnapshotVerdict(s, remote.value);
    } else {
      EmptySnapshotVerdict(s);
    }
  }

  /** What every run logs: that the broker could not be read, or the working ids a non-empty snapshot
      misses. No remote order is ever logged as missing, because it was adopted. */
  lemma IssuesAre(s: Store, remote: Option<seq<Remote>>, oid: nat)
    ensures |Reconcile(s, remote).runs| == |s.runs| + 1
    ensures
      var x := Reconcile(s, remote).runs[|s.runs|].issues;
      && (x.fetchFailed <==> remote == None) && x.remoteMissingLocal == {}
      && (oid in x.localMissingRemote <==>
            remote.Some? && remote.value != [] && LocalOpen(s.rows, oid) && !Lists(remote.value, oid))
  {
    OneRunMore(s, remote);
    OpenIdsAre(s.rows, oid);
    if remote.Some? {
      IdsAre(remote.value, oid);
      KnownAfterAdoption(s.rows, remote.value);
      OpenAfterAdoption(s.rows, remote.value);
    }
  }

  // ----- What changes -----

  /** The row describes the broker's order, under a key of its own. */
  predicate Adopts(row: OrderRow, r: Remote) {
    && r.oid.Some? && row.brokerId == r.oid && row.key == AdoptedKey(r.oid.value)
    && row.symbol == r.symbol && row.side == r.side && row.qty == r.qty && row.code == Canonical(r.code)
    && row.limit.None? && row.stop.None? && FollowsStatus(row.status, r.status)
  }

  predicate KnownBefore(rows: seq<OrderRow>, oid: nat) { exists n :: 0 <= n < |rows| && rows[n].brokerId == Some(oid) }

  /** The entry is an open order that no row named before the run. */
  predicate NotYetKnown(rows: seq<OrderRow>, r: Remote) { r.oid.Some? && !KnownBefore(rows, r.oid.value) }

  lemma KnownIs(rows: seq<OrderRow>, oid: nat)
    ensures oid in BrokerIds(rows) <==> KnownBefore(rows, oid)
  {
  }

  ghost predicate AdoptsSome(row: OrderRow, rows: seq<OrderRow>, remote: seq<Remote>) {
    exists n :: 0 <= n < |remote| && NotYetKnown(rows, remote[n]) && Adopts(row, remote[n])
  }

  ghost predicate AdoptedBy(after: seq<OrderRow>, rows: seq<OrderRow>, r: Remote) {
    exists n :: |rows| <= n < |after| && Adopts(after[n], r)
  }

  /** Rows were added for exactly the unknown orders of a snapshot. */
  ghost predicate AdoptedExactly(after: seq<OrderRow>, rows: seq<OrderRow>, remote: seq<Remote>) {
    && rows <= after
    && (forall n :: |rows| <= n < |after| ==> AdoptsSome(after[n], rows, remote))
    && (forall m :: 0 <= m < |remote| && NotYetKnown(rows, remote[m]) ==> AdoptedBy(after, rows, remote[m]))
  }

  lemma StillAdoptsSome(row: OrderRow, rows: seq<OrderRow>, remote: seq<Remote>, last: Remote)
    requires AdoptsSome(row, rows, remote)
    ensures AdoptsSome(row, rows, remote + [last])
  {
    var m :| 0 <= m < |remote| && NotYetKnown(rows, remote[m]) && Adopts(row, remote[m]);
    assert (remote + [last])[m] == remote[m];
  }

  lemma StillAdoptedBy(after: seq<OrderRow>, more: seq<OrderRow>, rows: seq<OrderRow>, r: Remote)
    requires AdoptedBy(after, rows, r) && after <= more
    ensures AdoptedBy(more, rows, r)
  {
    var n :| |rows| <= n < |after| && Adopts(after[n], r);
    assert more[n] == after[n];
  }

  lemma AdoptOneMore(after: seq<OrderRow>, rows: seq<OrderRow>, remote: seq<Remote>, last: Remote, row: OrderRow)
    requires AdoptedExactly(after, rows, remote) && NotYetKnown(rows, last) && Adopts(row, last)
    ensures AdoptedExactly(after + [row], rows, remote + [last])
  {
    var more, all := after + [row], remote + [last];
    assert all[|remote|] == last && more[|after|] == row;
    forall n | |rows| <= n < |more| ensures AdoptsSome(more[n], rows, all) {
      if n < |after| { StillAdoptsSome(after[n], rows, remote, last); }
    }
    forall m | 0 <= m < |all| && NotYetKnown(rows, all[m]) ensures AdoptedBy(more, rows, all[m]) {
      if m < |remote| { StillAdoptedBy(after, more, rows, remote[m]); }
    }
  }

  lemma AdoptNoMore(after: seq<OrderRow>, rows: seq<OrderRow>, remote: seq<Remote>, last: Remote)
    requires AdoptedExactly(after, rows, remote) && !NotYetKnown(rows, last)
    ensures AdoptedExactly(after, rows, remote + [last])
  {
    var all := remote + [last];
    forall n | |rows| <= n < |after| ensures AdoptsSome(after[n], rows, all) {
      StillAdoptsSome(after[n], rows, remote, last);
    }
    forall m | 0 <= m < |all| && NotYetKnown(rows, all[m]) ensures AdoptedBy(after, rows, all[m]) {
      assert m < |remote| && all[m] == remote[m];
    }
  }

  /** Adoption appends a row for exactly the snapshot's unknown orders, and each describes its order. */
  lemma {:induction false} AdoptionIs(rows: seq<OrderRow>, remote: seq<Remote>)
    ensures AdoptedExactly(Adopt(rows, remote, BrokerIds(rows)), rows, remote)
    decreases |remote|
  {
    if remote != [] {
      var init, last := remote[..|remote| - 1], remote[|remote| - 1];
      AdoptionIs(rows, init);
      if last.oid.Some? { KnownIs(rows, last.oid.value); }
      FollowsBroker(last.status);
      assert remote == init + [last];
      if NotYetKnown(rows, last) {
        AdoptOneMore(Adopt(rows, init, BrokerIds(rows)), rows, init, last, AdoptedRow(last));
      } else {
        AdoptNoMore(Adopt(rows, init, BrokerIds(rows)), rows, init, last);
      }
    }
  }

  /** A forced close cancels exactly the working rows and changes nothing else about any row. */
  lemma ForcedCloseCancels(rows: seq<OrderRow>)
    ensures |CloseStale(rows)| == |rows|
    ensures forall n :: 0 <= n < |rows| ==>
      CloseStale(rows)[n] == rows[n].(status := if WorkingStatus(rows[n].status) then Cancelled else rows[n].status)
  {
    forall n | 0 <= n < |rows| ensures Working(rows[n].status) <==> WorkingStatus(rows[n].status) { StatusKinds(rows[n].status); }
  }

  function WorkingPlaces(rows: seq<OrderRow>): set<nat> { set n | 0 <= n < |rows| && WorkingStatus(rows[n].status) }

  lemma PlacesOfMore(rows: seq<OrderRow>, last: OrderRow)
    ensures WorkingPlaces(rows + [last]) == WorkingPlaces(rows) + if WorkingStatus(last.status) then {|rows|} else {}
    ensures |rows| !in WorkingPlaces(rows)
  {
  }

  lemma {:induction false} WorkingCount(rows: seq<OrderRow>)
    ensures |WorkingRows(rows)| == |WorkingPlaces(rows)|
    decreases |rows|
  {
    if rows != [] {
      var init, last := rows[..|rows| - 1], rows[|rows| - 1];
      WorkingCount(init);
      StatusKinds(last.status);
      PlacesOfMore(init, last);
      assert rows == init + [last];
    }
  }

  /** What a run logs about an empty snapshot, over any sequence of runs: while the count of empty
      snapshots since the last forced close is short of three it says how many ids are open and that
      count; the third says how many rows were closed, and three. Anything else logs neither. */
  lemma SnapshotIssueIs(looks: seq<Look>, l: Look)
    ensures |Reconcile(Store(l.rows, [], LogAfter(looks)), l.remote).runs| == |LogAfter(looks)| + 1
    ensures
      var issue := Reconcile(Store(l.rows, [], LogAfter(looks)), l.remote).runs[|LogAfter(looks)|].issues.snapshot;
      var count := Trailing(looks) % 3 + 1;
      issue ==
        if !(l.remote == Some([]) && SomeOpen(l.rows)) then NoSnapshotIssue
        else if count == 3 then StaleCleared(|WorkingPlaces(l.rows)|, 3)
        else EmptyRemote(|OpenIds(l.rows)|, count)
  {
    StreakIsConsecutiveCount(looks);
    SomeOpenIff(l.rows);
    WorkingCount(l.rows);
    NothingToAdopt(l.rows, BrokerIds(l.rows));
  }

  /** What counts towards the streak: an empty snapshot against a table with an open broker id. */
  lemma EmptyLookIs(l: Look)
    ensures LooksEmpty(l) <==> l.remote == Some([]) && SomeOpen(l.rows)
  {
    SomeOpenIff(l.rows);
  }
}
