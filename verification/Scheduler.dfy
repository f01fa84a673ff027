/** Coalescing and prioritising due jobs (app/core/scheduler.py). A job key is already parsed into
    its venue and base name; times are whole seconds. */
module Schedulers {
  import opened StableSort

  datatype JobStatus = Pending | Running | Skipped | Finished

  datatype JobError = NoError | CoalescedStaleIntraday | SkippedAfterClosing

  class Job {
    const venue: string
    const base: string
    const plannedAt: int
    var status: JobStatus
    var error: JobError

    constructor (venue: string, base: string, plannedAt: int)
      ensures this.venue == venue && this.base == base && this.plannedAt == plannedAt
      ensures status == Pending && error == NoError
    {
      this.venue, this.base, this.plannedAt := venue, base, plannedAt;
      status, error := Pending, NoError;
    }
  }

  predicate IsIntraday(j: Job) { "intraday_eval" <= j.base }

  predicate NotIntraday(j: Job) { !IsIntraday(j) }

  predicate IsClosing(j: Job) { j.base == "closing_window" || j.base == "force_close" }

  function OfVenue(v: string): Job -> bool { (j: Job) => j.venue == v }

  function Is(k: Job): Job -> bool { (j: Job) => j == k }

  function OpenOnly(closing: set<string>): Job -> bool { (j: Job) => j.venue !in closing }

  function Planned(j: Job): SortKey { (0.0, j.plannedAt as real) }

  /** Venues in order of first appearance. */
  function Venues(js: seq<Job>): (vs: seq<string>)
    ensures forall j :: j in js ==> j.venue in vs
    ensures Distinct(vs)
  {
    if js == [] then []
    else
      var vs, v := Venues(js[..|js| - 1]), js[|js| - 1].venue;
      if v in vs then vs else vs + [v]
  }

  /** The first of the latest planned jobs. */
  function Latest(js: seq<Job>): (m: Job)
    requires js != []
    ensures m in js && forall j :: j in js ==> j.plannedAt <= m.plannedAt
  {
    if |js| == 1 then js[0]
    else
      var m, last := Latest(js[..|js| - 1]), js[|js| - 1];
      if last.plannedAt > m.plannedAt then last else m
  }

  function Group(js: seq<Job>, v: string): seq<Job> { Filter(js, OfVenue(v)) }

  function WinnersOf(js: seq<Job>, v: string): seq<Job> {
    var g := Group(js, v);
    if g == [] then [] else Filter(g, Is(Latest(g)))
  }

  function Winners(js: seq<Job>, vs: seq<string>): seq<Job> {
    if vs == [] then [] else Winners(js, vs[..|vs| - 1]) + WinnersOf(js, vs[|vs| - 1])
  }

  function ClosingVenues(js: seq<Job>): set<string> { set j | j in js && IsClosing(j) :: j.venue }

  function Coalesce(due: seq<Job>): seq<Job> {
    var others, intra := Filter(due, NotIntraday), Filter(due, IsIntraday);
    SortBy(others + Filter(Winners(intra, Venues(intra)), OpenOnly(ClosingVenues(others))), Planned)
  }

  /** Live venues first, then other work, then leftover evaluations of closed venues. */
  function Rank(live: set<string>): Job -> SortKey {
    (j: Job) => (if j.venue in live then 0.0 else if IsIntraday(j) then 2.0 else 1.0, j.plannedAt as real)
  }

  function Prioritize(due: seq<Job>, live: set<string>): seq<Job> { SortBy(due, Rank(live)) }

  // ----- Who is kept -----

  ghost predicate Closing(due: seq<Job>, v: string) { v in ClosingVenues(Filter(due, NotIntraday)) }

  /** The first of the latest planned evaluations of its venue. */
  predicate IsLatest(due: seq<Job>, j: Job) {
    var g := Group(Filter(due, IsIntraday), j.venue);
    g != [] && j == Latest(g)
  }

  ghost predicate Kept(due: seq<Job>, j: Job) {
    j in due && (NotIntraday(j) || (IsLatest(due, j) && !Closing(due, j.venue)))
  }

  /** Two evaluations of one venue. */
  predicate SameEvaluation(j: Job, k: Job) { IsIntraday(j) && IsIntraday(k) && j.venue == k.venue }

  lemma {:induction false} WinnersMembers(js: seq<Job>, vs: seq<string>, j: Job)
    ensures j in Winners(js, vs) <==> j.venue in vs && j in WinnersOf(js, j.venue)
    decreases |vs|
  {
    if vs != [] {
      WinnersMembers(js, vs[..|vs| - 1], j);
    }
  }

  lemma CoalesceMembers(due: seq<Job>, j: Job)
    ensures j in Coalesce(due) <==> Kept(due, j)
  {
    var others, intra := Filter(due, NotIntraday), Filter(due, IsIntraday);
    var keep := Filter(Winners(intra, Venues(intra)), OpenOnly(ClosingVenues(others)));
    SortMembers(others + keep, Planned);
    WinnersMembers(intra, Venues(intra), j);
    assert j in Coalesce(due) <==> j in others || j in keep;
  }

  /** The coalesced list is sorted by planned time and holds exactly: every other job, and for each
      venue that is not closing the latest planned of its evaluations. */
  lemma CoalesceMeaning(due: seq<Job>)
    ensures Sorted(Coalesce(due), Planned)
    ensures forall j :: j in Coalesce(due) ==> Kept(due, j)
    ensures forall j :: j in due && Kept(due, j) ==> j in Coalesce(due)
    ensures forall j, k :: j in Coalesce(due) && k in Coalesce(due) && SameEvaluation(j, k) ==> j == k
    ensures forall j, k :: j in Coalesce(due) && k in due && SameEvaluation(j, k) ==> k.plannedAt <= j.plannedAt
  {
    var others, intra := Filter(due, NotIntraday), Filter(due, IsIntraday);
    SortSorted(others + Filter(Winners(intra, Venues(intra)), OpenOnly(ClosingVenues(others))), Planned);
    forall j | j in Coalesce(due) ensures Kept(due, j) { CoalesceMembers(due, j); }
    forall j | j in due && Kept(due, j) ensures j in Coalesce(due) { CoalesceMembers(due, j); }
  }

  // ----- Idempotence -----

  lemma {:induction false} FilterIsSingle(s: seq<Job>, k: Job)
    requires Distinct(s) && k in s
    ensures Filter(s, Is(k)) == [k]
  {
    if s[0] == k {
      FilterNone(s[1..], Is(k));
    } else {
      FilterIsSingle(s[1..], k);
    }
  }

  ghost predicate OneEach(js: seq<Job>) {
    forall i, j :: 0 <= i < j < |js| ==> js[i].venue != js[j].venue
  }

  lemma {:induction false} GroupOfOne(js: seq<Job>, i: nat)
    requires OneEach(js) && i < |js|
    ensures Group(js, js[i].venue) == [js[i]]
  {
    if i == 0 {
      forall x | x in js[1..] ensures !OfVenue(js[0].venue)(x) {
        var k :| 0 <= k < |js[1..]| && js[1..][k] == x;
        assert js[k + 1] == x;
      }
      FilterNone(js[1..], OfVenue(js[0].venue));
    } else {
      GroupOfOne(js[1..], i - 1);
    }
  }

  lemma WinnerOfOne(js: seq<Job>, i: nat)
    requires OneEach(js) && i < |js|
    ensures WinnersOf(js, js[i].venue) == [js[i]]
  {
    GroupOfOne(js, i);
    FilterIsSingle([js[i]], js[i]);
  }

  lemma {:induction false} VenuesOfOneEach(js: seq<Job>)
    requires OneEach(js)
    ensures |Venues(js)| == |js| && forall i :: 0 <= i < |js| ==> Venues(js)[i] == js[i].venue
    decreases |js|
  {
    if js != [] {
      VenuesOfOneEach(js[..|js| - 1]);
    }
  }

  lemma WinnersSnoc(js: seq<Job>, vs: seq<string>, n: nat)
    requires n < |vs|
    ensures Winners(js, vs[..n + 1]) == Winners(js, vs[..n]) + WinnersOf(js, vs[n])
  {
    assert vs[..n + 1][..n] == vs[..n];
  }

  lemma WinnersStep(js: seq<Job>, vs: seq<string>, m: nat)
    requires m < |js| == |vs|
    requires Winners(js, vs[..m]) == js[..m] && WinnersOf(js, vs[m]) == [js[m]]
    ensures Winners(js, vs[..m + 1]) == js[..m + 1]
  {
    WinnersSnoc(js, vs, m);
    TakeSnoc(js, m);
  }

  lemma TakeSnoc(js: seq<Job>, m: nat)
    requires m < |js|
    ensures js[..m + 1] == js[..m] + [js[m]]
  {}

  ghost predicate EachWins(js: seq<Job>, vs: seq<string>) {
    |js| == |vs| && forall i {:trigger WinnersOf(js, vs[i])} :: 0 <= i < |vs| ==> WinnersOf(js, vs[i]) == [js[i]]
  }

  lemma {:induction false} WinnersPrefix(js: seq<Job>, vs: seq<string>, n: nat)
    requires EachWins(js, vs) && n <= |js|
    ensures Winners(js, vs[..n]) == js[..n]
  {
    if n > 0 {
      WinnersPrefix(js, vs, n - 1);
      WinnersStep(js, vs, n - 1);
    }
  }

  lemma AtMostOneWinner(js: seq<Job>, v: string)
    requires Distinct(js)
    ensures |WinnersOf(js, v)| <= 1
    ensures forall j :: j in WinnersOf(js, v) ==> j in js && j.venue == v
  {
    var g := Group(js, v);
    FilterDistinct(js, OfVenue(v));
    if g != [] { FilterIsSingle(g, Latest(g)); }
  }

  lemma {:induction false} WinnersOneEach(js: seq<Job>, vs: seq<string>)
    requires Distinct(js) && Distinct(vs)
    ensures OneEach(Winners(js, vs))
    ensures forall j :: j in Winners(js, vs) ==> j in js && j.venue in vs
    decreases |vs|
  {
    if vs != [] {
      var v := vs[|vs| - 1];
      WinnersOneEach(js, vs[..|vs| - 1]);
      AtMostOneWinner(js, v);
      var before := Winners(js, vs[..|vs| - 1]);
      forall i | 0 <= i < |before| ensures before[i].venue != v { assert before[i] in before; }
    }
  }

  lemma {:induction false} FilterOneEach(js: seq<Job>, p: Job -> bool)
    requires OneEach(js)
    ensures OneEach(Filter(js, p))
  {
    if js != [] {
      FilterOneEach(js[1..], p);
      var rest := Filter(js[1..], p);
      forall i | 0 <= i < |rest| ensures rest[i].venue != js[0].venue {
        assert rest[i] in js[1..];
        var k :| 0 <= k < |js[1..]| && js[1..][k] == rest[i];
        assert js[k + 1] == rest[i];
      }
    }
  }

  lemma ClosingOfSort(others: seq<Job>)
    ensures ClosingVenues(SortBy(others, Planned)) == ClosingVenues(others)
  {
    SortMembers(others, Planned);
    forall v | v in ClosingVenues(others) ensures v in ClosingVenues(SortBy(others, Planned)) {
      var j :| j in others && IsClosing(j) && j.venue == v;
      assert j in SortBy(others, Planned);
    }
  }

  lemma OneEachByCount(a: seq<Job>, b: seq<Job>)
    requires OneEach(a) && multiset(a) == multiset(b)
    ensures OneEach(b)
  {
    DistinctByCount(a, b);
    forall i, j | 0 <= i < j < |b| ensures b[i].venue != b[j].venue {
      assert b[i] in multiset(b) && b[j] in multiset(b);
      assert b[i] in a && b[j] in a;
      var m :| 0 <= m < |a| && a[m] == b[i];
      var n :| 0 <= n < |a| && a[n] == b[j];
      assert b[i] != b[j];
    }
  }

  lemma DistinctByCount(a: seq<Job>, b: seq<Job>)
    requires Distinct(a) && multiset(a) == multiset(b)
    ensures Distinct(b)
  {
    forall i, j | 0 <= i < j < |b| ensures b[i] != b[j] {
      if b[i] == b[j] {
        assert b == b[..i] + [b[i]] + b[i + 1..j] + [b[j]] + b[j + 1..];
        assert multiset(b)[b[i]] >= 2;
        DistinctCount(a, b[i]);
        assert false;
      }
    }
  }

  lemma {:induction false} DistinctCount(a: seq<Job>, x: Job)
    requires Distinct(a)
    ensures multiset(a)[x] <= 1
  {
    if a != [] {
      DistinctCount(a[1..], x);
      assert a == [a[0]] + a[1..];
      if a[0] == x {
        assert x !in a[1..];
        assert x !in multiset(a[1..]);
      }
    }
  }

  lemma WinnersOfOneEach(js: seq<Job>)
    requires OneEach(js)
    ensures Winners(js, Venues(js)) == js
  {
    VenuesOfOneEach(js);
    AlignedWinners(js, Venues(js));
  }

  lemma AlignedWinners(js: seq<Job>, vs: seq<string>)
    requires OneEach(js) && |js| == |vs|
    requires forall i :: 0 <= i < |js| ==> vs[i] == js[i].venue
    ensures Winners(js, vs) == js
  {
    forall i | 0 <= i < |vs| ensures WinnersOf(js, vs[i]) == [js[i]] { WinnerOfOne(js, i); }
    WinnersPrefix(js, vs, |js|);
    assert js[..|js|] == js;
    assert vs[..|js|] == vs;
  }

  lemma SurvivorsSurvive(keep: seq<Job>, closing: set<string>)
    requires OneEach(keep) && forall j :: j in keep ==> j.venue !in closing
    ensures
      var kept := SortBy(keep, Planned);
      Filter(Winners(kept, Venues(kept)), OpenOnly(closing)) == kept
  {
    var kept := SortBy(keep, Planned);
    SortSorted(keep, Planned);
    SortMembers(keep, Planned);
    OneEachByCount(keep, kept);
    WinnersOfOneEach(kept);
    FilterAll(kept, OpenOnly(closing));
  }

  /** Coalescing a coalesced list changes nothing, not even the order of ties. */
  lemma CoalesceIdempotent(due: seq<Job>)
    requires Distinct(due)
    ensures Coalesce(Coalesce(due)) == Coalesce(due)
  {
    var others, intra := Filter(due, NotIntraday), Filter(due, IsIntraday);
    var closing := ClosingVenues(others);
    var all := Winners(intra, Venues(intra));
    var keep := Filter(all, OpenOnly(closing));
    FilterDistinct(due, IsIntraday);
    WinnersOneEach(intra, Venues(intra));
    FilterOneEach(all, OpenOnly(closing));
    SplitOfSort(others, keep, NotIntraday, IsIntraday, Planned);
    ClosingOfSort(others);
    SurvivorsSurvive(keep, closing);
    ResortIsStable(others, keep, Planned);
  }

  /** Prioritising permutes the list, puts every live-venue job before every other, and every
      leftover evaluation of a closed venue last. */
  lemma PrioritizeMeaning(due: seq<Job>, live: set<string>)
    ensures multiset(Prioritize(due, live)) == multiset(due)
    ensures
      var out := Prioritize(due, live);
      forall i, j :: 0 <= i < j < |out| ==>
        && (out[j].venue in live ==> out[i].venue in live)
        && (out[i].venue !in live && IsIntraday(out[i]) ==> out[j].venue !in live && IsIntraday(out[j]))
        && (Rank(live)(out[i]).0 == Rank(live)(out[j]).0 ==> out[i].plannedAt <= out[j].plannedAt)
  {
    SortSorted(due, Rank(live));
  }

  // ----- The same on job objects, marking what is dropped -----

  method Partition(due: seq<Job>) returns (others: seq<Job>, intra: seq<Job>)
    ensures others == Filter(due, NotIntraday) && intra == Filter(due, IsIntraday)
  {
    others, intra := [], [];
    var i := 0;
    while i < |due|
      invariant 0 <= i <= |due|
      invariant others == Filter(due[..i], NotIntraday) && intra == Filter(due[..i], IsIntraday)
    {
      FilterTake(due, i, NotIntraday);
      FilterTake(due, i, IsIntraday);
      if IsIntraday(due[i]) { intra := intra + [due[i]]; } else { others := others + [due[i]]; }
      i := i + 1;
    }
    assert due[..i] == due;
  }

  method KeepLatestPerVenue(intra: seq<Job>) returns (keep: seq<Job>)
    ensures keep == Winners(intra, Venues(intra))
  {
    var vs := Venues(intra);
    keep := [];
    var n := 0;
    while n < |vs|
      invariant 0 <= n <= |vs|
      invariant keep == Winners(intra, vs[..n])
    {
      WinnersSnoc(intra, vs, n);
      keep := keep + WinnersOf(intra, vs[n]);
      n := n + 1;
    }
    assert vs[..n] == vs;
  }

  /** Why a job is dropped; `NoError` for a job that stays. */
  function Fate(winners: seq<Job>, closing: set<string>, j: Job): JobError {
    if NotIntraday(j) then NoError
    else if j !in winners then CoalescedStaleIntraday
    else if j.venue in closing then SkippedAfterClosing
    else NoError
  }

  method MarkDropped(due: seq<Job>, winners: seq<Job>, closing: set<string>)
    modifies due
    ensures forall j :: j in due && Fate(winners, closing, j).NoError? ==>
      j.status == old(j.status) && j.error == old(j.error)
    ensures forall j :: j in due && !Fate(winners, closing, j).NoError? ==>
      j.status == Skipped && j.error == Fate(winners, closing, j)
  {
    var i := 0;
    while i < |due|
      invariant 0 <= i <= |due|
      invariant forall k :: 0 <= k < |due| && Fate(winners, closing, due[k]).NoError? ==>
        due[k].status == old(due[k].status) && due[k].error == old(due[k].error)
      invariant forall k :: 0 <= k < i && !Fate(winners, closing, due[k]).NoError? ==>
        due[k].status == Skipped && due[k].error == Fate(winners, closing, due[k])
    {
      var why := Fate(winners, closing, due[i]);
      if !why.NoError? {
        due[i].status, due[i].error := Skipped, why;
      }
      i := i + 1;
    }
  }

  lemma FateMeaning(due: seq<Job>, j: Job)
    requires j in due
    ensures
      var others, intra := Filter(due, NotIntraday), Filter(due, IsIntraday);
      var winners := Winners(intra, Venues(intra));
      && (j in Coalesce(due) <==> Fate(winners, ClosingVenues(others), j).NoError?)
      && (IsIntraday(j) ==> (j in winners <==> IsLatest(due, j)))
  {
    var intra := Filter(due, IsIntraday);
    CoalesceMembers(due, j);
    WinnersMembers(intra, Venues(intra), j);
    if IsIntraday(j) {
      assert j in intra && j in Group(intra, j.venue);
    }
  }

  /** Returns the coalesced list and marks exactly the jobs it dropped as skipped, with the reason. */
  method CoalesceDueJobs(due: seq<Job>) returns (out: seq<Job>)
    modifies due
    ensures out == Coalesce(due)
    ensures forall j :: j in due && j in out ==> j.status == old(j.status) && j.error == old(j.error)
    ensures forall j :: j in due && j !in out ==>
      j.status == Skipped && j.error == if IsLatest(due, j) then SkippedAfterClosing else CoalescedStaleIntraday
  {
    var others, intra := Partition(due);
    var winners := KeepLatestPerVenue(intra);
    var closing := ClosingVenues(others);
    MarkDropped(due, winners, closing);
    out := SortBy(others + Filter(winners, OpenOnly(closing)), Planned);
    forall j | j in due
      ensures j in out <==> Fate(winners, closing, j).NoError?
      ensures IsIntraday(j) ==> (j in winners <==> IsLatest(due, j))
    {
      FateMeaning(due, j);
    }
  }
}
