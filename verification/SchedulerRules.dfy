/** Which due jobs survive coalescing, on the jobs' own fields (app/core/scheduler.py). */
module SchedulerRules {
  import opened StableSort
  import opened Schedulers

  predicate Evaluation(j: Job) { |j.base| >= 13 && j.base[..13] == "intraday_eval" }

  predicate EndsVenueDay(j: Job) { j.base == "closing_window" || j.base == "force_close" }

  /** No evaluation of its venue in the list is planned later, and none as late comes before it. */
  ghost predicate LatestOfVenue(due: seq<Job>, j: Job) {
    exists i :: 0 <= i < |due| && due[i] == j && LatestAt(due, i)
  }

  ghost predicate LatestAt(due: seq<Job>, i: nat)
    requires i < |due|
  {
    forall m :: 0 <= m < |due| && Evaluation(due[m]) && due[m].venue == due[i].venue ==>
      due[m].plannedAt < due[i].plannedAt || (due[m].plannedAt == due[i].plannedAt && i <= m)
  }

  lemma {:induction false} LatestOfSplit(a: seq<Job>, j: Job, b: seq<Job>)
    requires j !in a && j !in b
    ensures Latest(a + [j] + b) == j <==>
      (forall k :: k in a ==> k.plannedAt < j.plannedAt) && (forall k :: k in b ==> k.plannedAt <= j.plannedAt)
    decreases |b|
  {
    var all := a + [j] + b;
    if b == [] {
      assert all == a + [j];
      if a != [] { assert all[..|all| - 1] == a; }
    } else {
      var init, last := b[..|b| - 1], b[|b| - 1];
      LatestOfSplit(a, j, init);
      assert all[..|all| - 1] == a + [j] + init && all[|all| - 1] == last;
      assert b == init + [last];
    }
  }

  lemma GroupAround(pre: seq<Job>, j: Job, post: seq<Job>)
    requires IsIntraday(j)
    ensures
      Group(Filter(pre + [j] + post, IsIntraday), j.venue) ==
      Group(Filter(pre, IsIntraday), j.venue) + [j] + Group(Filter(post, IsIntraday), j.venue)
  {
    FilterAround(pre, j, post, IsIntraday);
    FilterAround(Filter(pre, IsIntraday), j, Filter(post, IsIntraday), OfVenue(j.venue));
  }

  lemma SplitAt(due: seq<Job>, i: nat)
    requires i < |due|
    ensures due == due[..i] + [due[i]] + due[i + 1..]
  {
  }

  lemma GroupSplit(due: seq<Job>, i: nat)
    requires i < |due| && IsIntraday(due[i])
    ensures
      var v := due[i].venue;
      Group(Filter(due, IsIntraday), v) ==
      Group(Filter(due[..i], IsIntraday), v) + [due[i]] + Group(Filter(due[i + 1..], IsIntraday), v)
  {
    var pre, j, post := due[..i], due[i], due[i + 1..];
    SplitAt(due, i);
    GroupAround(pre, j, post);
  }

  lemma GroupMember(part: seq<Job>, v: string, k: Job)
    ensures k in Group(Filter(part, IsIntraday), v) <==> k in part && Evaluation(k) && k.venue == v
  {
  }

  ghost predicate Beaten(part: seq<Job>, j: Job, tie: bool) {
    forall k :: k in part && Evaluation(k) && k.venue == j.venue ==>
      k.plannedAt < j.plannedAt || (tie && k.plannedAt == j.plannedAt)
  }

  lemma LatestByParts(due: seq<Job>, i: nat)
    requires i < |due|
    ensures LatestAt(due, i) <==> Beaten(due[..i], due[i], false) && Beaten(due[i + 1..], due[i], true)
  {
    var pre, post := due[..i], due[i + 1..];
    if LatestAt(due, i) {
      forall k | k in pre && Evaluation(k) && k.venue == due[i].venue ensures k.plannedAt < due[i].plannedAt {
        var m :| 0 <= m < |pre| && pre[m] == k;
        assert due[m] == k;
      }
      forall k | k in post && Evaluation(k) && k.venue == due[i].venue ensures k.plannedAt <= due[i].plannedAt {
        var m :| 0 <= m < |post| && post[m] == k;
        assert due[i + 1 + m] == k;
      }
    } else {
      var m :| 0 <= m < |due| && Evaluation(due[m]) && due[m].venue == due[i].venue &&
        !(due[m].plannedAt < due[i].plannedAt || (due[m].plannedAt == due[i].plannedAt && i <= m));
      assert if m < i then due[m] in pre else m > i && due[m] == post[m - i - 1] && due[m] in post;
    }
  }

  lemma IsLatestAt(due: seq<Job>, i: nat)
    requires Distinct(due) && i < |due| && IsIntraday(due[i])
    ensures IsLatest(due, due[i]) <==> LatestAt(due, i)
  {
    var j := due[i];
    var a, b := Group(Filter(due[..i], IsIntraday), j.venue), Group(Filter(due[i + 1..], IsIntraday), j.venue);
    GroupSplit(due, i);
    forall k ensures k in a <==> k in due[..i] && Evaluation(k) && k.venue == j.venue { GroupMember(due[..i], j.venue, k); }
    forall k ensures k in b <==> k in due[i + 1..] && Evaluation(k) && k.venue == j.venue { GroupMember(due[i + 1..], j.venue, k); }
    LatestOfSplit(a, j, b);
    LatestByParts(due, i);
  }

  lemma EvaluationIs(j: Job)
    ensures IsIntraday(j) <==> Evaluation(j)
    ensures EndsVenueDay(j) ==> !Evaluation(j)
  {
    assert "closing_window"[0] != "intraday_eval"[0] && "force_close"[0] != "intraday_eval"[0];
    if Evaluation(j) { assert j.base[0] == j.base[..13][0] == "intraday_eval"[0]; }
  }

  lemma ClosingIff(due: seq<Job>, v: string)
    ensures Closing(due, v) <==> exists k :: k in due && EndsVenueDay(k) && k.venue == v
  {
    var others := Filter(due, NotIntraday);
    if Closing(due, v) {
      var k :| k in others && IsClosing(k) && k.venue == v;
      assert k in due && EndsVenueDay(k);
    }
    if k :| k in due && EndsVenueDay(k) && k.venue == v {
      EvaluationIs(k);
      assert k in others && IsClosing(k);
    }
  }

  lemma IsLatestIff(due: seq<Job>, j: Job)
    requires Distinct(due) && j in due && IsIntraday(j)
    ensures IsLatest(due, j) <==> LatestOfVenue(due, j)
  {
    var i :| 0 <= i < |due| && due[i] == j;
    IsLatestAt(due, i);
  }

  ghost predicate VenueEnds(due: seq<Job>, v: string) { exists k :: k in due && EndsVenueDay(k) && k.venue == v }

  /** A job survives if and only if it is no intraday evaluation, or it is the first of the latest
      planned evaluations of its venue and no due job closes or liquidates that venue. */
  lemma SurvivesIff(due: seq<Job>, j: Job)
    requires Distinct(due) && j in due
    ensures j in Coalesce(due) <==> !Evaluation(j) || (LatestOfVenue(due, j) && !VenueEnds(due, j.venue))
  {
    CoalesceMembers(due, j);
    EvaluationIs(j);
    if IsIntraday(j) { IsLatestIff(due, j); }
    ClosingIff(due, j.venue);
  }

  /** The coalesced list is in order of planned time. */
  lemma CoalescedIsOrdered(due: seq<Job>)
    ensures
      var out := Coalesce(due);
      forall i, k :: 0 <= i < k < |out| ==> out[i].plannedAt <= out[k].plannedAt
  {
    CoalesceMeaning(due);
    var out := Coalesce(due);
    forall i, k | 0 <= i < k < |out| ensures out[i].plannedAt <= out[k].plannedAt {
      assert KeyLe(Planned(out[i]), Planned(out[k]));
    }
  }

  lemma DistinctParts(a: seq<Job>, b: seq<Job>)
    requires Distinct(a) && Distinct(b)
    requires forall k, m :: 0 <= k < |a| && 0 <= m < |b| ==> a[k] != b[m]
    ensures Distinct(a + b)
  {
  }

  lemma SurvivorsAreDistinct(due: seq<Job>, closing: set<string>)
    requires Distinct(due)
    ensures
      var intra := Filter(due, IsIntraday);
      Distinct(Filter(due, NotIntraday) + Filter(Winners(intra, Venues(intra)), OpenOnly(closing)))
  {
    var others, intra := Filter(due, NotIntraday), Filter(due, IsIntraday);
    var all := Winners(intra, Venues(intra));
    FilterDistinct(due, NotIntraday);
    FilterDistinct(due, IsIntraday);
    WinnersOneEach(intra, Venues(intra));
    FilterOneEach(all, OpenOnly(closing));
    var keep := Filter(all, OpenOnly(closing));
    forall k, m | 0 <= k < |others| && 0 <= m < |keep| ensures others[k] != keep[m] {
      assert others[k] in others && keep[m] in keep && keep[m] in intra;
    }
    DistinctParts(others, keep);
  }

  /** No job comes twice. */
  lemma CoalescedIsDistinct(due: seq<Job>)
    requires Distinct(due)
    ensures Distinct(Coalesce(due)) && forall j :: j in Coalesce(due) ==> j in due
  {
    var others, intra := Filter(due, NotIntraday), Filter(due, IsIntraday);
    var closing := ClosingVenues(others);
    var before := others + Filter(Winners(intra, Venues(intra)), OpenOnly(closing));
    SurvivorsAreDistinct(due, closing);
    SortSorted(before, Planned);
    DistinctByCount(before, Coalesce(due));
    forall j | j in Coalesce(due) ensures j in due { CoalesceMembers(due, j); }
  }

  /** Prioritising is a permutation: jobs of live venues, then other work, then evaluations of closed
      venues, each by planned time. */
  lemma PrioritizedIs(due: seq<Job>, live: set<string>)
    ensures multiset(Prioritize(due, live)) == multiset(due)
    ensures
      var out := Prioritize(due, live);
      forall i, k :: 0 <= i < k < |out| ==>
        && Class(out[i], live) <= Class(out[k], live)
        && (Class(out[i], live) == Class(out[k], live) ==> out[i].plannedAt <= out[k].plannedAt)
  {
    SortSorted(due, Rank(live));
    var out := Prioritize(due, live);
    forall i, k | 0 <= i < k < |out|
      ensures Class(out[i], live) <= Class(out[k], live)
      ensures Class(out[i], live) == Class(out[k], live) ==> out[i].plannedAt <= out[k].plannedAt
    {
      assert KeyLe(Rank(live)(out[i]), Rank(live)(out[k]));
    }
  }

  function Class(j: Job, live: set<string>): nat {
    if j.venue in live then 1 else if Evaluation(j) then 3 else 2
  }
}
