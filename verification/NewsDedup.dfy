/** News deduplication and clustering (app/data_quality/news_dedup.py). Items carry their
    normalised headline and url and upper-case symbols; the cluster digest is modelled by the
    values it is computed from. */
module NewsDedup {
  import opened BrokerModels

  datatype NewsItem = NewsItem(
    id: string, pid: Option<string>, url: Option<string>, headline: string,
    symbols: seq<string>, categories: seq<string>, published: int, updated: Option<int>, isCorrection: bool)

  datatype Fingerprint = Fingerprint(symbols: multiset<string>, categories: multiset<string>, head: string)

  datatype Method = Primary | ProviderId | Url | HeadlineHash | SimilarHeadline

  datatype Cluster = Cluster(
    primary: string, members: seq<string>, lastUpdated: int, how: Method, confidence: real)

  function Print(x: NewsItem): Fingerprint {
    Fingerprint(multiset(x.symbols), multiset(x.categories),
                if |x.headline| <= 80 then x.headline else x.headline[..80])
  }

  // ----- Similarity -----

  predicate WordChar(c: char) { 'a' <= c <= 'z' || '0' <= c <= '9' }

  function WordsFrom(h: string, word: string): set<string> {
    var done := if word == [] then {} else {word};
    if h == [] then done
    else if WordChar(h[0]) then WordsFrom(h[1..], word + [h[0]])
    else done + WordsFrom(h[1..], [])
  }

  /** Maximal runs of letters and digits. */
  function Words(h: string): set<string> { WordsFrom(h, []) }

  /** At least 60% of all words are shared. */
  predicate Similar(a: string, b: string) {
    var na, nb := Words(a), Words(b);
    na != {} && nb != {} && 10 * |na * nb| >= 6 * |na + nb|
  }

  predicate Overlap(a: NewsItem, b: NewsItem) { exists s :: s in a.symbols && s in b.symbols }

  predicate Near(a: NewsItem, b: NewsItem, window: nat) {
    -(window as int) <= a.published - b.published <= window
  }

  predicate SameStory(a: NewsItem, b: NewsItem, window: nat) {
    Overlap(a, b) && Similar(a.headline, b.headline) && Near(a, b, window)
  }

  lemma SameStorySymmetric(a: NewsItem, b: NewsItem, window: nat)
    ensures SameStory(a, b, window) == SameStory(b, a, window)
  {
    var na, nb := Words(a.headline), Words(b.headline);
    assert na * nb == nb * na && na + nb == nb + na;
    assert forall s :: (s in a.symbols && s in b.symbols) == (s in b.symbols && s in a.symbols);
  }

  // ----- State and steps -----

  /** Everything a decision depends on. */
  datatype Core = Core(
    byPid: map<string, NewsItem>, byUrl: map<string, NewsItem>, byHeadline: map<string, NewsItem>,
    unique: seq<NewsItem>)

  datatype State = State(core: Core, clusters: map<Fingerprint, Cluster>)

  const START := State(Core(map[], map[], map[], []), map[])

  /** First kept item that tells the same story. */
  function FirstSimilar(kept: seq<NewsItem>, x: NewsItem, window: nat): (r: Option<NewsItem>)
    ensures r.Some? ==> r.value in kept && SameStory(r.value, x, window)
    ensures r.None? ==> forall i :: 0 <= i < |kept| ==> !SameStory(kept[i], x, window)
  {
    if kept == [] then None
    else
      var r := FirstSimilar(kept[..|kept| - 1], x, window);
      if r.Some? then r else if SameStory(kept[|kept| - 1], x, window) then Some(kept[|kept| - 1]) else None
  }

  datatype Match = NoMatch | Match(primary: NewsItem, how: Method)

  function MatchOf(c: Core, x: NewsItem, window: nat): Match {
    if x.pid.Some? && x.pid.value in c.byPid then Match(c.byPid[x.pid.value], ProviderId)
    else if x.url.Some? && x.url.value in c.byUrl then Match(c.byUrl[x.url.value], Url)
    else if x.headline in c.byHeadline && Near(x, c.byHeadline[x.headline], window) then
      Match(c.byHeadline[x.headline], HeadlineHash)
    else
      var s := FirstSimilar(c.unique, x, window);
      if s.Some? then Match(s.value, SimilarHeadline) else NoMatch
  }

  function Admit(c: Core, x: NewsItem): Core {
    Core(if x.pid.Some? then c.byPid[x.pid.value := x] else c.byPid,
         if x.url.Some? then c.byUrl[x.url.value := x] else c.byUrl,
         c.byHeadline[x.headline := x],
         c.unique + [x])
  }

  function Enlarged(k: Cluster, x: NewsItem, how: Method): Cluster {
    Cluster(k.primary,
            if x.id in k.members then k.members else k.members + [x.id],
            if k.lastUpdated >= x.published then k.lastUpdated else x.published,
            how,
            if x.isCorrection && k.confidence > 0.9 then 0.9 else k.confidence)
  }

  function AddToCluster(cs: map<Fingerprint, Cluster>, primary: NewsItem, x: NewsItem, how: Method)
    : map<Fingerprint, Cluster>
  {
    var fp := Print(primary);
    if fp in cs then cs[fp := Enlarged(cs[fp], x, how)] else cs
  }

  function NewCluster(x: NewsItem): Cluster {
    Cluster(x.id, [x.id], if x.updated.Some? then x.updated.value else x.published, Primary, 1.0)
  }

  /** A new story starts a cluster, overwriting any earlier one with the same fingerprint. */
  function Process(st: State, x: NewsItem, window: nat): State {
    match MatchOf(st.core, x, window)
    case Match(primary, how) => st.(clusters := AddToCluster(st.clusters, primary, x, how))
    case NoMatch => State(Admit(st.core, x), st.clusters[Print(x) := NewCluster(x)])
  }

  function Dedup(items: seq<NewsItem>, window: nat): State {
    if items == [] then START else Process(Dedup(items[..|items| - 1], window), items[|items| - 1], window)
  }

  // ----- The loops -----

  method FindSimilar(kept: seq<NewsItem>, x: NewsItem, window: nat) returns (r: Option<NewsItem>)
    ensures r == FirstSimilar(kept, x, window)
  {
    var i := 0;
    while i < |kept|
      invariant 0 <= i <= |kept|
      invariant FirstSimilar(kept[..i], x, window).None?
    {
      assert kept[..i + 1][..i] == kept[..i];
      if SameStory(kept[i], x, window) {
        FirstOfPrefix(kept, i + 1, x, window);
        return Some(kept[i]);
      }
      i := i + 1;
    }
    assert kept[..i] == kept;
    return None;
  }

  lemma {:induction false} FirstOfPrefix(kept: seq<NewsItem>, n: nat, x: NewsItem, window: nat)
    requires n <= |kept| && FirstSimilar(kept[..n], x, window).Some?
    ensures FirstSimilar(kept, x, window) == FirstSimilar(kept[..n], x, window)
    decreases |kept|
  {
    if n == |kept| {
      assert kept[..n] == kept;
    } else {
      assert kept[..|kept| - 1][..n] == kept[..n];
      FirstOfPrefix(kept[..|kept| - 1], n, x, window);
    }
  }

  method ClusterNews(items: seq<NewsItem>, window: nat)
    returns (unique: seq<NewsItem>, clusters: map<Fingerprint, Cluster>)
    ensures unique == Dedup(items, window).core.unique
    ensures clusters == Dedup(items, window).clusters
  {
    var core := START.core;
    clusters := map[];
    var n := 0;
    while n < |items|
      invariant 0 <= n <= |items|
      invariant State(core, clusters) == Dedup(items[..n], window)
    {
      assert items[..n + 1][..n] == items[..n];
      var x := items[n];
      n := n + 1;
      if x.pid.Some? && x.pid.value in core.byPid {
        clusters := AddToCluster(clusters, core.byPid[x.pid.value], x, ProviderId);
        continue;
      }
      if x.url.Some? && x.url.value in core.byUrl {
        clusters := AddToCluster(clusters, core.byUrl[x.url.value], x, Url);
        continue;
      }
      if x.headline in core.byHeadline && Near(x, core.byHeadline[x.headline], window) {
        clusters := AddToCluster(clusters, core.byHeadline[x.headline], x, HeadlineHash);
        continue;
      }
      var matched := FindSimilar(core.unique, x, window);
      if matched.Some? {
        clusters := AddToCluster(clusters, matched.value, x, SimilarHeadline);
        continue;
      }
      core := Admit(core, x);
      clusters := clusters[Print(x) := NewCluster(x)];
    }
    assert items[..n] == items;
    unique := core.unique;
  }

  // ----- Kept items are pairwise different stories -----

  predicate Different(a: NewsItem, b: NewsItem, window: nat) {
    && (a.pid.Some? ==> a.pid != b.pid)
    && (a.url.Some? ==> a.url != b.url)
    && !SameStory(a, b, window)
  }

  ghost predicate Faithful(c: Core) {
    && (forall p :: p in c.byPid ==> c.byPid[p] in c.unique)
    && (forall u :: u in c.byUrl ==> c.byUrl[u] in c.unique)
    && (forall h :: h in c.byHeadline ==> c.byHeadline[h] in c.unique)
    && (forall i :: 0 <= i < |c.unique| && c.unique[i].pid.Some? ==> c.unique[i].pid.value in c.byPid)
    && (forall i :: 0 <= i < |c.unique| && c.unique[i].url.Some? ==> c.unique[i].url.value in c.byUrl)
  }

  ghost predicate AllDifferent(kept: seq<NewsItem>, window: nat) {
    forall i, j :: 0 <= i < j < |kept| ==> Different(kept[i], kept[j], window)
  }

  lemma AdmitKeeps(c: Core, x: NewsItem, window: nat)
    requires Faithful(c) && AllDifferent(c.unique, window) && MatchOf(c, x, window).NoMatch?
    ensures Faithful(Admit(c, x)) && AllDifferent(Admit(c, x).unique, window)
  {
    var c' := Admit(c, x);
    forall i | 0 <= i < |c'.unique|
      ensures c'.unique[i].pid.Some? ==> c'.unique[i].pid.value in c'.byPid
      ensures c'.unique[i].url.Some? ==> c'.unique[i].url.value in c'.byUrl
    {
      if i < |c.unique| { assert c'.unique[i] == c.unique[i]; }
    }
    forall i, j | 0 <= i < j < |c'.unique| ensures Different(c'.unique[i], c'.unique[j], window) {
      assert c'.unique[i] == c.unique[i];
    }
  }

  lemma {:induction false} DedupKeeps(items: seq<NewsItem>, window: nat)
    ensures Faithful(Dedup(items, window).core)
    ensures AllDifferent(Dedup(items, window).core.unique, window)
    decreases |items|
  {
    if items != [] {
      DedupKeeps(items[..|items| - 1], window);
      var st, x := Dedup(items[..|items| - 1], window), items[|items| - 1];
      if MatchOf(st.core, x, window).NoMatch? {
        AdmitKeeps(st.core, x, window);
      }
    }
  }

  /** For any input, kept items have pairwise distinct provider ids and urls, and no two with
      overlapping symbols and similar headlines lie within the window, in either order. */
  lemma KeptStoriesDiffer(items: seq<NewsItem>, window: nat)
    ensures
      var kept := Dedup(items, window).core.unique;
      forall i, j :: 0 <= i < |kept| && 0 <= j < |kept| && i != j ==> Different(kept[i], kept[j], window)
  {
    DedupKeeps(items, window);
    var kept := Dedup(items, window).core.unique;
    forall i, j | 0 <= i < |kept| && 0 <= j < |kept| && i != j
      ensures Different(kept[i], kept[j], window)
    {
      if j < i {
        assert Different(kept[j], kept[i], window);
        SameStorySymmetric(kept[i], kept[j], window);
      }
    }
  }

  // ----- Replay -----

  /** Running the filter on what it kept reproduces every decision: nothing is dropped again. */
  lemma {:induction false} ReplayIsIdentity(items: seq<NewsItem>, window: nat)
    ensures
      var kept := Dedup(items, window).core.unique;
      Dedup(kept, window).core == Dedup(items, window).core
    decreases |items|
  {
    if items != [] {
      var init, x := items[..|items| - 1], items[|items| - 1];
      ReplayIsIdentity(init, window);
      var st := Dedup(init, window);
      if MatchOf(st.core, x, window).NoMatch? {
        var kept := st.core.unique;
        assert (kept + [x])[..|kept|] == kept;
        assert Dedup(kept + [x], window) == Process(Dedup(kept, window), x, window);
      }
    }
  }

  // ----- Clusters -----

  predicate DistinctIds(items: seq<NewsItem>) {
    forall i, j :: 0 <= i < j < |items| ==> items[i].id != items[j].id
  }

  predicate DistinctPrints(kept: seq<NewsItem>) {
    forall i, j :: 0 <= i < j < |kept| ==> Print(kept[i]) != Print(kept[j])
  }

  predicate Owns(cs: map<Fingerprint, Cluster>, fp: Fingerprint, id: string) {
    fp in cs && id in cs[fp].members
  }

  ghost predicate InCluster(cs: map<Fingerprint, Cluster>, id: string) { exists fp :: Owns(cs, fp, id) }

  ghost predicate Processed(items: seq<NewsItem>, id: string) {
    exists i :: 0 <= i < |items| && items[i].id == id
  }

  ghost predicate Printed(kept: seq<NewsItem>, fp: Fingerprint) {
    exists i :: 0 <= i < |kept| && Print(kept[i]) == fp
  }

  /** Clusters hold only input ids and share none. */
  ghost predicate Disjoint(items: seq<NewsItem>, cs: map<Fingerprint, Cluster>) {
    && (forall fp, id :: Owns(cs, fp, id) ==> Processed(items, id))
    && (forall f, g, id :: Owns(cs, f, id) && Owns(cs, g, id) ==> f == g)
  }

  /** There is a cluster for each kept fingerprint and no other. */
  ghost predicate Keyed(items: seq<NewsItem>, kept: seq<NewsItem>, cs: map<Fingerprint, Cluster>) {
    && (forall i :: 0 <= i < |kept| ==> Print(kept[i]) in cs && Processed(items, kept[i].id))
    && (forall fp :: fp in cs ==> Printed(kept, fp))
  }

  /** A kept id can sit only in its own cluster, and if a later kept item reused the fingerprint it
      sits nowhere. */
  ghost predicate Housed(kept: seq<NewsItem>, cs: map<Fingerprint, Cluster>) {
    && (forall fp, i :: 0 <= i < |kept| && Owns(cs, fp, kept[i].id) ==> fp == Print(kept[i]))
    && (forall i, j :: 0 <= i < j < |kept| && Print(kept[i]) == Print(kept[j]) ==> !InCluster(cs, kept[i].id))
  }

  ghost predicate Covered(items: seq<NewsItem>, cs: map<Fingerprint, Cluster>) {
    forall i :: 0 <= i < |items| ==> InCluster(cs, items[i].id)
  }

  lemma ProcessedSnoc(items: seq<NewsItem>, x: NewsItem)
    requires DistinctIds(items + [x])
    ensures DistinctIds(items) && !Processed(items, x.id)
    ensures forall id :: Processed(items + [x], id) <==> Processed(items, id) || id == x.id
  {
    var all := items + [x];
    assert all[|items|] == x;
    assert forall i :: 0 <= i < |items| ==> all[i] == items[i];
    forall id ensures Processed(all, id) <==> Processed(items, id) || id == x.id {
      if Processed(items, id) {
        var i :| 0 <= i < |items| && items[i].id == id;
        assert all[i].id == id;
      }
      if id == x.id { assert all[|items|].id == id; }
    }
  }

  ghost predicate Joins(cs: map<Fingerprint, Cluster>, cs': map<Fingerprint, Cluster>, fp: Fingerprint, id: string) {
    && cs'.Keys == cs.Keys && fp in cs
    && forall f, i :: Owns(cs', f, i) <==> Owns(cs, f, i) || (f == fp && i == id)
  }

  ghost predicate Starts(cs: map<Fingerprint, Cluster>, cs': map<Fingerprint, Cluster>, fp: Fingerprint, id: string) {
    && cs'.Keys == cs.Keys + {fp}
    && forall f, i :: Owns(cs', f, i) <==> if f == fp then i == id else Owns(cs, f, i)
  }

  lemma AddJoins(cs: map<Fingerprint, Cluster>, primary: NewsItem, x: NewsItem, how: Method)
    requires Print(primary) in cs
    ensures Joins(cs, AddToCluster(cs, primary, x, how), Print(primary), x.id)
  {
  }

  lemma NewStarts(cs: map<Fingerprint, Cluster>, x: NewsItem)
    ensures Starts(cs, cs[Print(x) := NewCluster(x)], Print(x), x.id)
  {
  }

  lemma JoinCovers(cs: map<Fingerprint, Cluster>, cs': map<Fingerprint, Cluster>, fp: Fingerprint, id: string)
    requires Joins(cs, cs', fp, id)
    ensures forall i :: InCluster(cs', i) <==> InCluster(cs, i) || i == id
  {
    assert Owns(cs', fp, id);
    forall i ensures InCluster(cs', i) <==> InCluster(cs, i) || i == id {
      if InCluster(cs, i) {
        var f :| Owns(cs, f, i);
        assert Owns(cs', f, i);
      }
    }
  }

  lemma JoinKeepsDisjoint(items: seq<NewsItem>, cs: map<Fingerprint, Cluster>, cs': map<Fingerprint, Cluster>, fp: Fingerprint, x: NewsItem)
    requires Disjoint(items, cs) && Joins(cs, cs', fp, x.id) && DistinctIds(items + [x])
    ensures Disjoint(items + [x], cs')
  {
    ProcessedSnoc(items, x);
  }

  lemma JoinKeepsKeyed(items: seq<NewsItem>, kept: seq<NewsItem>, cs: map<Fingerprint, Cluster>, cs': map<Fingerprint, Cluster>, fp: Fingerprint, x: NewsItem)
    requires Keyed(items, kept, cs) && Housed(kept, cs) && Joins(cs, cs', fp, x.id) && DistinctIds(items + [x])
    ensures Keyed(items + [x], kept, cs') && Housed(kept, cs')
  {
    ProcessedSnoc(items, x);
    JoinCovers(cs, cs', fp, x.id);
    assert forall i :: 0 <= i < |kept| ==> kept[i].id != x.id;
  }

  lemma StartKeepsDisjoint(items: seq<NewsItem>, cs: map<Fingerprint, Cluster>, cs': map<Fingerprint, Cluster>, fp: Fingerprint, x: NewsItem)
    requires Disjoint(items, cs) && Starts(cs, cs', fp, x.id) && DistinctIds(items + [x])
    ensures Disjoint(items + [x], cs')
  {
    ProcessedSnoc(items, x);
  }

  lemma PrintedSnoc(kept: seq<NewsItem>, x: NewsItem)
    ensures forall fp :: Printed(kept + [x], fp) <==> Printed(kept, fp) || fp == Print(x)
  {
    var kept' := kept + [x];
    assert kept'[|kept|] == x;
    forall fp | Printed(kept, fp) ensures Printed(kept', fp) {
      var i :| 0 <= i < |kept| && Print(kept[i]) == fp;
      assert Print(kept'[i]) == fp;
    }
    assert Print(kept'[|kept|]) == Print(x);
  }

  lemma StartKeepsKeyed(items: seq<NewsItem>, kept: seq<NewsItem>, cs: map<Fingerprint, Cluster>, cs': map<Fingerprint, Cluster>, x: NewsItem)
    requires Keyed(items, kept, cs) && Starts(cs, cs', Print(x), x.id) && DistinctIds(items + [x])
    ensures Keyed(items + [x], kept + [x], cs')
  {
    ProcessedSnoc(items, x);
    PrintedSnoc(kept, x);
  }

  lemma StartKeepsHoused(items: seq<NewsItem>, kept: seq<NewsItem>, cs: map<Fingerprint, Cluster>, cs': map<Fingerprint, Cluster>, x: NewsItem)
    requires Disjoint(items, cs) && Keyed(items, kept, cs) && Housed(kept, cs)
    requires Starts(cs, cs', Print(x), x.id) && DistinctIds(items + [x])
    ensures Housed(kept + [x], cs')
  {
    var kept' := kept + [x];
    ProcessedSnoc(items, x);
    assert forall i :: 0 <= i < |kept| ==> kept'[i] == kept[i] && kept[i].id != x.id;
    forall fp, i | 0 <= i < |kept'| && Owns(cs', fp, kept'[i].id) ensures fp == Print(kept'[i]) {
      if fp != Print(x) { assert Owns(cs, fp, kept'[i].id); }
    }
    forall i, j | 0 <= i < j < |kept'| && Print(kept'[i]) == Print(kept'[j]) ensures !InCluster(cs', kept'[i].id) {
      NoOwnerAfterReuse(kept, cs, cs', x, i, j);
    }
  }

  lemma NoOwnerAfterReuse(kept: seq<NewsItem>, cs: map<Fingerprint, Cluster>, cs': map<Fingerprint, Cluster>, x: NewsItem, i: nat, j: nat)
    requires i < j <= |kept| && kept[i].id != x.id && Starts(cs, cs', Print(x), x.id)
    requires Print(kept[i]) == Print((kept + [x])[j])
    requires forall fp :: Owns(cs, fp, kept[i].id) ==> fp == Print(kept[i])
    requires j < |kept| ==> !InCluster(cs, kept[i].id)
    ensures !InCluster(cs', kept[i].id)
  {
    if fp :| Owns(cs', fp, kept[i].id) {
      assert fp != Print(x) && Owns(cs, fp, kept[i].id);
      assert InCluster(cs, kept[i].id);
      assert false;
    }
  }

  lemma MatchIsKept(c: Core, x: NewsItem, window: nat)
    requires Faithful(c) && MatchOf(c, x, window).Match?
    ensures MatchOf(c, x, window).primary in c.unique
  {
  }

  lemma {:induction false} ClustersStayTidy(items: seq<NewsItem>, window: nat)
    requires DistinctIds(items)
    ensures Disjoint(items, Dedup(items, window).clusters)
    ensures Keyed(items, Dedup(items, window).core.unique, Dedup(items, window).clusters)
    ensures Housed(Dedup(items, window).core.unique, Dedup(items, window).clusters)
    decreases |items|
  {
    if items != [] {
      var init, x := items[..|items| - 1], items[|items| - 1];
      assert items == init + [x];
      ClustersStayTidy(init, window);
      DedupKeeps(init, window);
      var st := Dedup(init, window);
      var m := MatchOf(st.core, x, window);
      if m.Match? {
        MatchIsKept(st.core, x, window);
        AddJoins(st.clusters, m.primary, x, m.how);
        JoinKeepsDisjoint(init, st.clusters, Dedup(items, window).clusters, Print(m.primary), x);
        JoinKeepsKeyed(init, st.core.unique, st.clusters, Dedup(items, window).clusters, Print(m.primary), x);
      } else {
        NewStarts(st.clusters, x);
        StartKeepsDisjoint(init, st.clusters, Dedup(items, window).clusters, Print(x), x);
        StartKeepsKeyed(init, st.core.unique, st.clusters, Dedup(items, window).clusters, x);
        StartKeepsHoused(init, st.core.unique, st.clusters, Dedup(items, window).clusters, x);
      }
    }
  }

  lemma JoinKeepsCovered(items: seq<NewsItem>, cs: map<Fingerprint, Cluster>, cs': map<Fingerprint, Cluster>, fp: Fingerprint, x: NewsItem)
    requires Covered(items, cs) && Joins(cs, cs', fp, x.id)
    ensures Covered(items + [x], cs')
  {
    JoinCovers(cs, cs', fp, x.id);
  }

  lemma StartKeepsCovered(items: seq<NewsItem>, cs: map<Fingerprint, Cluster>, cs': map<Fingerprint, Cluster>, x: NewsItem)
    requires Covered(items, cs) && Starts(cs, cs', Print(x), x.id) && Print(x) !in cs
    ensures Covered(items + [x], cs')
  {
    var all := items + [x];
    assert Owns(cs', Print(x), x.id);
    forall i | 0 <= i < |all| ensures InCluster(cs', all[i].id) {
      if i < |items| {
        assert InCluster(cs, items[i].id);
        var fp :| Owns(cs, fp, items[i].id);
        assert Owns(cs', fp, all[i].id);
      }
    }
  }

  lemma FreshPrint(items: seq<NewsItem>, kept: seq<NewsItem>, cs: map<Fingerprint, Cluster>, x: NewsItem)
    requires Keyed(items, kept, cs) && DistinctPrints(kept + [x])
    ensures DistinctPrints(kept) && Print(x) !in cs
  {
    assert forall i :: 0 <= i < |kept| ==> (kept + [x])[i] == kept[i];
    assert (kept + [x])[|kept|] == x;
  }

  lemma {:induction false} DistinctPrintsCover(items: seq<NewsItem>, window: nat)
    requires DistinctIds(items) && DistinctPrints(Dedup(items, window).core.unique)
    ensures Covered(items, Dedup(items, window).clusters)
    decreases |items|
  {
    if items != [] {
      var init, x := items[..|items| - 1], items[|items| - 1];
      assert items == init + [x];
      var st, st' := Dedup(init, window), Dedup(items, window);
      var m := MatchOf(st.core, x, window);
      ClustersStayTidy(init, window);
      if m.Match? {
        DedupKeeps(init, window);
        MatchIsKept(st.core, x, window);
        DistinctPrintsCover(init, window);
        AddJoins(st.clusters, m.primary, x, m.how);
        JoinKeepsCovered(init, st.clusters, st'.clusters, Print(m.primary), x);
      } else {
        FreshPrint(init, st.core.unique, st.clusters, x);
        DistinctPrintsCover(init, window);
        NewStarts(st.clusters, x);
        StartKeepsCovered(init, st.clusters, st'.clusters, x);
      }
    }
  }

  /** Clusters never share an article and hold only input articles; they cover every input article,
      and so partition the input, exactly when no two kept items have the same fingerprint. */
  lemma ClustersPartitionIff(items: seq<NewsItem>, window: nat)
    requires DistinctIds(items)
    ensures
      var st := Dedup(items, window);
      && Disjoint(items, st.clusters)
      && (Covered(items, st.clusters) <==> DistinctPrints(st.core.unique))
  {
    var st := Dedup(items, window);
    ClustersStayTidy(items, window);
    if DistinctPrints(st.core.unique) {
      DistinctPrintsCover(items, window);
    } else {
      var i, j :| 0 <= i < j < |st.core.unique| && Print(st.core.unique[i]) == Print(st.core.unique[j]);
      assert Processed(items, st.core.unique[i].id);
      var n :| 0 <= n < |items| && items[n].id == st.core.unique[i].id;
      assert !InCluster(st.clusters, items[n].id);
    }
  }
}
