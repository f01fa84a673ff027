/** Fingerprint-gated portfolio snapshots (app/execution/position_manager.py): a sync whose
    fingerprint is unchanged writes nothing, yet the latest row still tells the whole history. */
module Snapshots {
  import opened BrokerModels
  import opened Rounding

  /** A line of the fingerprint: symbol, venue, rounded quantity and market value. */
  datatype Holding = Holding(symbol: string, venue: string, qty: real, marketValue: real)

  datatype Fingerprint = Fingerprint(equity: real, cash: real, book: seq<Holding>)

  datatype Snapshot = Snapshot(equity: real, peak: real, drawdown: real, fingerprint: Fingerprint)

  /** What one sync sees; `book` is the sorted, rounded position list. */
  datatype Sighting = Sighting(equity: real, cash: real, book: seq<Holding>, force: bool)

  function Print(s: Sighting): Fingerprint { Fingerprint(Round4(s.equity), Round4(s.cash), s.book) }

  function Latest(log: seq<Snapshot>): Option<Snapshot> {
    if log == [] then None else Some(log[|log| - 1])
  }

  /** Percent below the peak; a peak that is not positive has no drawdown. */
  function Drawdown(peak: real, equity: real): real {
    if peak > 0.0 then Max(0.0, Over(peak - equity, peak) * 100.0) else 0.0
  }

  function Writes(log: seq<Snapshot>, s: Sighting): bool {
    s.force || log == [] || log[|log| - 1].fingerprint != Print(s)
  }

  function NextSnapshot(log: seq<Snapshot>, s: Sighting): Snapshot {
    var last := Latest(log);
    var peak := if last.Some? then Max(s.equity, last.value.peak) else s.equity;
    var carried := if last.Some? then last.value.drawdown else 0.0;
    Snapshot(s.equity, peak,
             if peak > 0.0 then Max(0.0, Over(peak - s.equity, peak) * 100.0) else carried,
             Print(s))
  }

  function Record(log: seq<Snapshot>, s: Sighting): seq<Snapshot> {
    if Writes(log, s) then log + [NextSnapshot(log, s)] else log
  }

  class SnapshotTable {
    var log: seq<Snapshot>

    constructor ()
      ensures log == []
    {
      log := [];
    }

    method Sync(s: Sighting) returns (written: bool)
      modifies this
      ensures log == Record(old(log), s) && written == Writes(old(log), s)
    {
      var last := Latest(log);
      if !s.force && last.Some? && last.value.fingerprint == Print(s) {
        return false;
      }
      var snap := Snapshot(s.equity, s.equity, 0.0, Print(s));
      if last.Some? {
        snap := snap.(drawdown := last.value.drawdown, peak := Max(s.equity, last.value.peak));
      }
      if snap.peak > 0.0 {
        snap := snap.(drawdown := Max(0.0, Over(snap.peak - s.equity, snap.peak) * 100.0));
      }
      log := log + [snap];
      return true;
    }
  }

  function LogAfter(ss: seq<Sighting>): seq<Snapshot>
    decreases |ss|
  {
    if ss == [] then [] else Record(LogAfter(ss[..|ss| - 1]), ss[|ss| - 1])
  }

  /** Highest equity of a run. */
  predicate IsMaximum(m: real, ss: seq<Sighting>) {
    && (exists i :: 0 <= i < |ss| && ss[i].equity == m)
    && (forall i :: 0 <= i < |ss| ==> ss[i].equity <= m)
  }

  predicate FourDecimals(ss: seq<Sighting>) {
    forall i :: 0 <= i < |ss| ==> OnGrid4(ss[i].equity)
  }

  ghost predicate TellsAll(s: Snapshot, ss: seq<Sighting>) {
    && ss != []
    && s.equity == ss[|ss| - 1].equity
    && IsMaximum(s.peak, ss)
    && s.drawdown == Drawdown(s.peak, s.equity)
    && s.fingerprint == Print(ss[|ss| - 1])
  }

  lemma MaximumSnoc(m: real, ss: seq<Sighting>, s: Sighting)
    requires IsMaximum(m, ss)
    ensures IsMaximum(Max(s.equity, m), ss + [s])
  {
    var all := ss + [s];
    assert all[|ss|] == s;
    var i :| 0 <= i < |ss| && ss[i].equity == m;
    assert all[i].equity == m;
  }

  lemma WrittenTellsAll(log: seq<Snapshot>, ss: seq<Sighting>, s: Sighting)
    requires log != [] && TellsAll(log[|log| - 1], ss)
    ensures TellsAll(NextSnapshot(log, s), ss + [s])
  {
    MaximumSnoc(log[|log| - 1].peak, ss, s);
  }

  /** One sync keeps the whole story if and only if it writes or sees the stored equity again. */
  lemma RecordTellsAllIff(log: seq<Snapshot>, ss: seq<Sighting>, s: Sighting)
    requires log != [] && TellsAll(log[|log| - 1], ss)
    ensures
      var log' := Record(log, s);
      TellsAll(log'[|log'| - 1], ss + [s]) <==> Writes(log, s) || s.equity == log[|log| - 1].equity
  {
    if Writes(log, s) {
      WrittenTellsAll(log, ss, s);
    } else if s.equity == log[|log| - 1].equity {
      MaximumSnoc(log[|log| - 1].peak, ss, s);
    }
  }

  /** For the peak alone it is enough that the unwritten equity is no new maximum. */
  lemma RecordKeepsPeakIff(log: seq<Snapshot>, ss: seq<Sighting>, s: Sighting)
    requires log != [] && IsMaximum(log[|log| - 1].peak, ss)
    ensures
      var log' := Record(log, s);
      IsMaximum(log'[|log'| - 1].peak, ss + [s]) <==> Writes(log, s) || s.equity <= log[|log| - 1].peak
  {
    MaximumSnoc(log[|log| - 1].peak, ss, s);
    assert (ss + [s])[|ss|] == s;
  }

  /** The second of two neighbouring sightings is not written. */
  predicate Skipped(prev: Sighting, s: Sighting) { !s.force && Print(s) == Print(prev) }

  /** ... which is when it is not forced and nothing it prints has changed: equity and cash to four
      decimals, and the book. */
  lemma SkippedIff(prev: Sighting, s: Sighting)
    ensures Skipped(prev, s) <==>
      !s.force && s.book == prev.book && Round4(s.equity) == Round4(prev.equity) && Round4(s.cash) == Round4(prev.cash)
  {
  }

  /** The newest row always carries the fingerprint last seen, so the gate compares neighbours. */
  lemma {:induction false} GateComparesNeighbours(ss: seq<Sighting>)
    requires ss != []
    ensures LogAfter(ss) != []
    ensures LogAfter(ss)[|LogAfter(ss)| - 1].fingerprint == Print(ss[|ss| - 1])
    ensures forall s :: Writes(LogAfter(ss), s) <==> !Skipped(ss[|ss| - 1], s)
    decreases |ss|
  {
    if |ss| > 1 {
      GateComparesNeighbours(ss[..|ss| - 1]);
    } else {
      assert ss[..0] == [];
    }
  }

  predicate SkippedAt(ss: seq<Sighting>, n: nat) { 0 < n < |ss| && Skipped(ss[n - 1], ss[n]) }

  predicate SameEquityAt(ss: seq<Sighting>, n: nat)
    requires 0 < n < |ss|
  {
    ss[n].equity == ss[n - 1].equity
  }

  /** An equity at least as high was seen before. */
  predicate ReachedBefore(ss: seq<Sighting>, n: nat)
    requires n < |ss|
  {
    exists m :: 0 <= m < n && ss[n].equity <= ss[m].equity
  }

  predicate SkipsSeeSameEquity(ss: seq<Sighting>) {
    forall n :: 0 <= n < |ss| && SkippedAt(ss, n) ==> SameEquityAt(ss, n)
  }

  predicate SkipsAreNoMaximum(ss: seq<Sighting>) {
    forall n :: 0 <= n < |ss| && SkippedAt(ss, n) ==> ReachedBefore(ss, n)
  }

  /** What happened before the last sighting does not depend on it. */
  lemma EarlierSkips(init: seq<Sighting>, s: Sighting, n: nat)
    requires n < |init|
    ensures SkippedAt(init + [s], n) == SkippedAt(init, n)
    ensures n > 0 ==> SameEquityAt(init + [s], n) == SameEquityAt(init, n)
    ensures ReachedBefore(init + [s], n) == ReachedBefore(init, n)
  {
    var ss := init + [s];
    assert forall m :: 0 <= m <= n ==> ss[m] == init[m];
    if ReachedBefore(init, n) {
      var m :| 0 <= m < n && init[n].equity <= init[m].equity;
      assert ss[n].equity <= ss[m].equity;
    }
  }

  ghost predicate Tells(ss: seq<Sighting>) {
    LogAfter(ss) != [] && TellsAll(LogAfter(ss)[|LogAfter(ss)| - 1], ss)
  }

  ghost predicate TellsPeak(ss: seq<Sighting>) {
    LogAfter(ss) != [] && IsMaximum(LogAfter(ss)[|LogAfter(ss)| - 1].peak, ss)
  }

  /** After every sync of the run the newest row tells the whole story so far. */
  ghost predicate AlwaysTells(ss: seq<Sighting>)
    decreases |ss|
  {
    ss == [] || (AlwaysTells(ss[..|ss| - 1]) && Tells(ss))
  }

  ghost predicate AlwaysTellsPeak(ss: seq<Sighting>)
    decreases |ss|
  {
    ss == [] || (AlwaysTellsPeak(ss[..|ss| - 1]) && TellsPeak(ss))
  }

  lemma FirstTells(s: Sighting)
    ensures Tells([s]) && TellsPeak([s])
  {
    assert [s][..0] == [];
    assert LogAfter([s]) == [NextSnapshot([], s)];
    assert [s][0].equity == s.equity;
  }

  lemma LogSnoc(init: seq<Sighting>, s: Sighting)
    ensures LogAfter(init + [s]) == Record(LogAfter(init), s)
  {
    assert (init + [s])[..|init|] == init;
  }

  lemma TellsStep(init: seq<Sighting>, s: Sighting)
    requires init != [] && Tells(init)
    ensures Tells(init + [s]) <==> (Skipped(init[|init| - 1], s) ==> s.equity == init[|init| - 1].equity)
  {
    LogSnoc(init, s);
    GateComparesNeighbours(init);
    RecordTellsAllIff(LogAfter(init), init, s);
  }

  lemma TellsPeakStep(init: seq<Sighting>, s: Sighting)
    requires init != [] && TellsPeak(init)
    ensures TellsPeak(init + [s]) <==> (Skipped(init[|init| - 1], s) ==> ReachedBefore(init + [s], |init|))
  {
    var log := LogAfter(init);
    LogSnoc(init, s);
    GateComparesNeighbours(init);
    ReachedMeansBelowPeak(init, s, log[|log| - 1].peak);
    RecordKeepsPeakIff(log, init, s);
  }

  lemma SkipsSnoc(init: seq<Sighting>, s: Sighting)
    requires init != []
    ensures
      var prev := init[|init| - 1];
      SkipsSeeSameEquity(init + [s]) <==> SkipsSeeSameEquity(init) && (Skipped(prev, s) ==> s.equity == prev.equity)
    ensures SkipsAreNoMaximum(init + [s]) <==>
      SkipsAreNoMaximum(init) && (Skipped(init[|init| - 1], s) ==> ReachedBefore(init + [s], |init|))
  {
    var ss := init + [s];
    forall n | 0 <= n < |init|
      ensures SkippedAt(ss, n) == SkippedAt(init, n)
      ensures n > 0 ==> SameEquityAt(ss, n) == SameEquityAt(init, n)
      ensures ReachedBefore(ss, n) == ReachedBefore(init, n)
    {
      EarlierSkips(init, s, n);
    }
    assert SkippedAt(ss, |init|) == Skipped(init[|init| - 1], s);
  }

  lemma ReachedMeansBelowPeak(init: seq<Sighting>, s: Sighting, peak: real)
    requires IsMaximum(peak, init)
    ensures ReachedBefore(init + [s], |init|) <==> s.equity <= peak
  {
    var ss := init + [s];
    var top :| 0 <= top < |init| && init[top].equity == peak;
    assert ss[top] == init[top] && ss[|init|] == s;
    if s.equity <= peak { assert ss[|init|].equity <= ss[top].equity; }
  }

  /** Over any run of syncs on any equities: compaction is lossless after every one of them - the
      newest row holds the equity last seen, the highest equity ever seen and the true drawdown
      between them - if and only if no unforced sync repeats the previous fingerprint with a
      different equity. */
  lemma {:induction false} LosslessIff(ss: seq<Sighting>)
    ensures AlwaysTells(ss) <==> SkipsSeeSameEquity(ss)
    decreases |ss|
  {
    if |ss| == 1 {
      FirstTells(ss[0]);
      assert ss == [ss[0]] && ss[..0] == [];
    } else if |ss| > 1 {
      var init, s := ss[..|ss| - 1], ss[|ss| - 1];
      assert ss == init + [s];
      LosslessIff(init);
      SkipsSnoc(init, s);
      if AlwaysTells(init) { TellsStep(init, s); }
    }
  }

  /** The stored peak alone is the running maximum after every sync if and only if no unforced sync
      reaches a new maximum under the previous fingerprint. */
  lemma {:induction false} PeakIsTrueIff(ss: seq<Sighting>)
    ensures AlwaysTellsPeak(ss) <==> SkipsAreNoMaximum(ss)
    decreases |ss|
  {
    if |ss| == 1 {
      FirstTells(ss[0]);
      assert ss == [ss[0]] && ss[..0] == [];
    } else if |ss| > 1 {
      var init, s := ss[..|ss| - 1], ss[|ss| - 1];
      assert ss == init + [s];
      PeakIsTrueIff(init);
      SkipsSnoc(init, s);
      if AlwaysTellsPeak(init) { TellsPeakStep(init, s); }
    }
  }

  /** On 4-decimal equities the fingerprint determines the equity, so compaction is lossless. */
  lemma CompactionIsLossless(ss: seq<Sighting>)
    requires FourDecimals(ss)
    ensures AlwaysTells(ss)
  {
    LosslessIff(ss);
  }

  /** For non-negative equity the drawdown is a percentage. */
  lemma DrawdownIsPercentage(peak: real, equity: real)
    requires 0.0 <= equity <= peak
    ensures 0.0 <= Drawdown(peak, equity) <= 100.0
    ensures Drawdown(peak, equity) == 0.0 <==> equity == peak
    ensures Times(Drawdown(peak, equity), peak) == 100.0 * (peak - equity)
  {
    if peak > 0.0 {
      var q := Over(peak - equity, peak);
      OverTimes(peak - equity, peak);
      assert Times(q, peak) == peak - equity;
      assert 0.0 <= q <= 1.0;
      assert q == 0.0 <==> peak - equity == 0.0;
    }
  }

  predicate NonNegative(ss: seq<Sighting>) { forall i :: 0 <= i < |ss| ==> ss[i].equity >= 0.0 }

  /** The row's drawdown is the true one for its own peak and equity. */
  predicate TrueRow(row: Snapshot) { row.equity <= row.peak && row.drawdown == Drawdown(row.peak, row.equity) }

  predicate Percentage(row: Snapshot) {
    && 0.0 <= row.equity && 0.0 <= row.drawdown <= 100.0
    && (row.drawdown == 0.0 <==> row.equity == row.peak)
    && Times(row.drawdown, row.peak) == 100.0 * (row.peak - row.equity)
  }

  lemma NextRowIsTrue(log: seq<Snapshot>, s: Sighting)
    requires log != [] ==> TrueRow(log[|log| - 1])
    ensures TrueRow(NextSnapshot(log, s))
    ensures s.equity >= 0.0 ==> Percentage(NextSnapshot(log, s))
  {
    var row := NextSnapshot(log, s);
    if s.equity >= 0.0 { DrawdownIsPercentage(row.peak, row.equity); }
  }

  /** In every row stored by any run the drawdown is the true one from the stored peak, a carried
      value never survives, and for non-negative equities it lies between 0 and 100 and is zero
      exactly at the peak. */
  lemma {:induction false} StoredDrawdownsAreTrue(ss: seq<Sighting>)
    ensures forall i :: 0 <= i < |LogAfter(ss)| ==> TrueRow(LogAfter(ss)[i])
    ensures NonNegative(ss) ==> forall i :: 0 <= i < |LogAfter(ss)| ==> Percentage(LogAfter(ss)[i])
    decreases |ss|
  {
    if ss != [] {
      var init, s := ss[..|ss| - 1], ss[|ss| - 1];
      StoredDrawdownsAreTrue(init);
      NextRowIsTrue(LogAfter(init), s);
      assert NonNegative(ss) ==> NonNegative(init) && s.equity >= 0.0;
    }
  }

  ghost predicate NearRun(log: seq<Snapshot>, ss: seq<Sighting>, slack: real) {
    && log != []
    && (forall i :: 0 <= i < |ss| ==> ss[i].equity <= log[|log| - 1].peak + slack)
    && (exists i :: 0 <= i < |ss| && ss[i].equity == log[|log| - 1].peak)
    && log[|log| - 1].equity <= log[|log| - 1].peak
    && log[|log| - 1].fingerprint.equity == Round4(log[|log| - 1].equity)
  }

  /** Off the 4-decimal grid a skipped write can hide at most one ten-thousandth of peak. */
  lemma {:induction false} CompactionIsNearlyLossless(ss: seq<Sighting>)
    requires ss != []
    ensures NearRun(LogAfter(ss), ss, 0.0001)
    decreases |ss|
  {
    var init, s := ss[..|ss| - 1], ss[|ss| - 1];
    assert forall i :: 0 <= i < |init| ==> init[i] == ss[i];
    var before := LogAfter(init);
    if init == [] {
      assert ss[0].equity == LogAfter(ss)[0].peak;
    } else {
      CompactionIsNearlyLossless(init);
      var last := before[|before| - 1];
      var i :| 0 <= i < |init| && init[i].equity == last.peak;
      assert ss[i].equity == last.peak;
      if Writes(before, s) {
        assert LogAfter(ss)[|before|] == NextSnapshot(before, s);
        assert ss[|ss| - 1].equity == s.equity;
      } else {
        Round4Facts(s.equity);
        Round4Facts(last.equity);
      }
    }
  }

  /** Two equities in one four-decimal bucket meet the condition and leave the stored peak behind. */
  lemma SkippedWriteHidesPeak(cash: real, book: seq<Holding>)
    ensures
      var ss := [Sighting(100.00001, cash, book, false), Sighting(100.00002, cash, book, false)];
      var log := LogAfter(ss);
      |log| == 1 && log[0].peak == 100.00001 && !IsMaximum(log[0].peak, ss)
  {
    var a, b := Sighting(100.00001, cash, book, false), Sighting(100.00002, cash, book, false);
    var ss := [a, b];
    assert ss[..1] == [a] && [a][..0] == [];
    assert LogAfter([a]) == [NextSnapshot([], a)];
    assert HalfEven(100.00001 * 10000.0) == 1000000 && HalfEven(100.00002 * 10000.0) == 1000000;
    assert Print(a) == Print(b);
    assert LogAfter(ss) == LogAfter([a]);
    assert ss[1].equity == 100.00002;
  }
}
