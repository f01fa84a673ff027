/** When news items count as one story, and what a cluster records (app/data_quality/news_dedup.py). */
module NewsRules {
  import opened BrokerModels
  import opened NewsDedup

  // ----- Words -----

  /** A lower-case letter or a digit. */
  predicate IsLetterOrDigit(c: char) {
    c in "abcdefghijklm" || c in "nopqrstuvwxyz" || c in "0123456789"
  }

  predicate AllLetters(w: string) { forall k :: 0 <= k < |w| ==> IsLetterOrDigit(w[k]) }

  /** h[i..j] is a run of letters and digits that cannot be extended. */
  predicate MaximalRun(h: string, i: nat, j: nat) {
    && i < j <= |h| && AllLetters(h[i..j])
    && (i > 0 ==> !IsLetterOrDigit(h[i - 1])) && (j < |h| ==> !IsLetterOrDigit(h[j]))
  }

  ghost predicate IsWord(h: string, w: string) { exists i: nat, j: nat :: MaximalRun(h, i, j) && w == h[i..j] }

  lemma FirstHalfMatch(c: char)
    ensures 'a' <= c <= 'm' <==> c in "abcdefghijklm"
  {
    if 'a' <= c <= 'm' { assert "abcdefghijklm"[c as int - 'a' as int] == c; }
  }

  lemma SecondHalfMatch(c: char)
    ensures 'n' <= c <= 'z' <==> c in "nopqrstuvwxyz"
  {
    if 'n' <= c <= 'z' { assert "nopqrstuvwxyz"[c as int - 'n' as int] == c; }
  }

  lemma DigitsMatch(c: char)
    ensures '0' <= c <= '9' <==> c in "0123456789"
  {
    if '0' <= c <= '9' { assert "0123456789"[c as int - '0' as int] == c; }
  }

  lemma LettersMatch(c: char)
    ensures WordChar(c) <==> IsLetterOrDigit(c)
  {
    FirstHalfMatch(c);
    SecondHalfMatch(c);
    DigitsMatch(c);
  }

  /** A text of letters only is its own single word. */
  lemma OneWord(word: string, w: string)
    requires AllLetters(word)
    ensures IsWord(word, w) <==> word != [] && w == word
  {
    if word != [] { assert MaximalRun(word, 0, |word|) && word[0..|word|] == word; }
    if i: nat, j: nat :| MaximalRun(word, i, j) && w == word[i..j] {
      assert i == 0 && j == |word|;
      assert word[0..|word|] == word;
    }
  }

  lemma RunInPrefix(word: string, c: char, rest: string, i: nat, j: nat)
    requires AllLetters(word) && !IsLetterOrDigit(c) && i <= |word|
    ensures MaximalRun(word + [c] + rest, i, j) <==> word != [] && i == 0 && j == |word|
  {
    var all := word + [c] + rest;
    assert all[|word|] == c && forall k :: 0 <= k < |word| ==> all[k] == word[k];
    if i <= |word| < j <= |all| { assert all[i..j][|word| - i] == c; }
    if word != [] && i == 0 && j == |word| { assert all[0..|word|] == word; }
  }

  lemma RestOf(word: string, c: char, rest: string)
    ensures
      var all, n := word + [c] + rest, |word| + 1;
      && |all| == n + |rest| && all[n - 1] == c && (forall k :: 0 <= k < |rest| ==> all[n + k] == rest[k])
  {
  }

  lemma SliceOfRest(word: string, c: char, rest: string, i: nat, j: nat)
    requires i <= j <= |rest|
    ensures (word + [c] + rest)[i + |word| + 1..j + |word| + 1] == rest[i..j]
  {
  }

  /** A run of the rest is one of the whole, and after the separator there is no other. */
  lemma RunOfRest(word: string, c: char, rest: string, i: nat, j: nat)
    requires !IsLetterOrDigit(c) && MaximalRun(rest, i, j)
    ensures MaximalRun(word + [c] + rest, i + |word| + 1, j + |word| + 1)
  {
    RestOf(word, c, rest);
    SliceOfRest(word, c, rest, i, j);
  }

  lemma RunInRest(word: string, c: char, rest: string, i: nat, j: nat)
    requires |word| < i && MaximalRun(word + [c] + rest, i, j)
    ensures MaximalRun(rest, i - |word| - 1, j - |word| - 1)
  {
    RestOf(word, c, rest);
    SliceOfRest(word, c, rest, i - |word| - 1, j - |word| - 1);
  }

  lemma RunIsWord(word: string, c: char, rest: string, i: nat, j: nat)
    requires AllLetters(word) && !IsLetterOrDigit(c) && MaximalRun(word + [c] + rest, i, j)
    ensures
      var w := (word + [c] + rest)[i..j];
      (word != [] && w == word) || IsWord(rest, w)
  {
    var all, n := word + [c] + rest, |word| + 1;
    if i <= |word| {
      RunInPrefix(word, c, rest, i, j);
      assert all[0..|word|] == word;
    } else {
      RunInRest(word, c, rest, i, j);
      SliceOfRest(word, c, rest, i - n, j - n);
    }
  }

  lemma WordBeforeSeparator(word: string, c: char, rest: string)
    requires AllLetters(word) && !IsLetterOrDigit(c) && word != []
    ensures IsWord(word + [c] + rest, word)
  {
    RunInPrefix(word, c, rest, 0, |word|);
    assert (word + [c] + rest)[0..|word|] == word;
  }

  lemma WordAfterSeparator(word: string, c: char, rest: string, w: string)
    requires !IsLetterOrDigit(c) && IsWord(rest, w)
    ensures IsWord(word + [c] + rest, w)
  {
    var i: nat, j: nat :| MaximalRun(rest, i, j) && w == rest[i..j];
    var all, n := word + [c] + rest, |word| + 1;
    RunOfRest(word, c, rest, i, j);
    SliceOfRest(word, c, rest, i, j);
    assert MaximalRun(all, i + n, j + n) && w == all[i + n..j + n];
  }

  /** The words of two texts around a separator. */
  lemma WordsAroundSeparator(word: string, c: char, rest: string, w: string)
    requires AllLetters(word) && !IsLetterOrDigit(c)
    ensures IsWord(word + [c] + rest, w) <==> (word != [] && w == word) || IsWord(rest, w)
  {
    if IsWord(word + [c] + rest, w) {
      var i: nat, j: nat :| MaximalRun(word + [c] + rest, i, j) && w == (word + [c] + rest)[i..j];
      RunIsWord(word, c, rest, i, j);
    }
    if word != [] { WordBeforeSeparator(word, c, rest); }
    if IsWord(rest, w) { WordAfterSeparator(word, c, rest, w); }
  }

  lemma {:induction false} WordsFromMeaning(h: string, word: string, w: string)
    requires AllLetters(word)
    ensures w in WordsFrom(h, word) <==> IsWord(word + h, w)
    decreases |h|
  {
    if h == [] {
      assert word + h == word;
      OneWord(word, w);
    } else {
      LettersMatch(h[0]);
      if WordChar(h[0]) {
        WordsFromMeaning(h[1..], word + [h[0]], w);
        assert word + [h[0]] + h[1..] == word + h;
      } else {
        WordsFromMeaning(h[1..], [], w);
        assert [] + h[1..] == h[1..];
        assert word + [h[0]] + h[1..] == word + h;
        WordsAroundSeparator(word, h[0], h[1..], w);
      }
    }
  }

  /** The words of a headline are exactly its maximal runs of lower-case letters and digits. */
  lemma WordsMeaning(h: string, w: string)
    ensures w in Words(h) <==> IsWord(h, w)
  {
    WordsFromMeaning(h, [], w);
    assert [] + h == h;
  }

  // ----- One story -----

  /** Two headlines are similar when both have words and at least 60% of all their words are shared. */
  lemma SimilarIff(a: string, b: string, shared: set<string>, all: set<string>)
    requires forall w :: w in shared <==> IsWord(a, w) && IsWord(b, w)
    requires forall w :: w in all <==> IsWord(a, w) || IsWord(b, w)
    ensures Similar(a, b) <==>
      (exists w :: IsWord(a, w)) && (exists w :: IsWord(b, w)) && |shared| as real >= 0.6 * |all| as real
  {
    forall w ensures (w in Words(a) <==> IsWord(a, w)) && (w in Words(b) <==> IsWord(b, w)) {
      WordsMeaning(a, w);
      WordsMeaning(b, w);
    }
    assert shared == Words(a) * Words(b) && all == Words(a) + Words(b);
    if Words(a) != {} { var w :| w in Words(a); assert IsWord(a, w); }
    if Words(b) != {} { var w :| w in Words(b); assert IsWord(b, w); }
  }

  /** Two items tell one story when they share a symbol, have similar headlines and were published no
      further apart than the window. */
  lemma SameStoryIff(a: NewsItem, b: NewsItem, window: nat)
    ensures SameStory(a, b, window) <==>
      && (exists i, j :: 0 <= i < |a.symbols| && 0 <= j < |b.symbols| && a.symbols[i] == b.symbols[j])
      && Similar(a.headline, b.headline)
      && a.published <= b.published + window && b.published <= a.published + window
  {
    if Overlap(a, b) {
      var s :| s in a.symbols && s in b.symbols;
      var i :| 0 <= i < |a.symbols| && a.symbols[i] == s;
      var j :| 0 <= j < |b.symbols| && b.symbols[j] == s;
    }
    if i, j :| 0 <= i < |a.symbols| && 0 <= j < |b.symbols| && a.symbols[i] == b.symbols[j] {
      assert a.symbols[i] in a.symbols && a.symbols[i] in b.symbols;
    }
  }

  function First80(h: string): string { h[..if |h| < 80 then |h| else 80] }

  /** Fingerprints agree exactly when the symbols and the categories agree, order aside, and so do the
      first eighty characters of the headlines. */
  lemma SameFingerprintIff(a: NewsItem, b: NewsItem)
    ensures Print(a) == Print(b) <==>
      multiset(a.symbols) == multiset(b.symbols) && multiset(a.categories) == multiset(b.categories)
      && First80(a.headline) == First80(b.headline)
  {
    assert a.headline[..|a.headline|] == a.headline && b.headline[..|b.headline|] == b.headline;
  }

  // ----- Which item is dropped, and why -----

  /** The kept item last admitted under a headline. */
  predicate LastUnder(kept: seq<NewsItem>, i: nat, headline: string) {
    && i < |kept| && kept[i].headline == headline
    && forall j :: i < j < |kept| ==> kept[j].headline != headline
  }

  predicate CloseInTime(a: NewsItem, b: NewsItem, window: nat) {
    a.published <= b.published + window && b.published <= a.published + window
  }

  predicate SamePid(kept: seq<NewsItem>, x: NewsItem) {
    x.pid.Some? && exists i :: 0 <= i < |kept| && kept[i].pid == x.pid
  }

  predicate SameUrl(kept: seq<NewsItem>, x: NewsItem) {
    x.url.Some? && exists i :: 0 <= i < |kept| && kept[i].url == x.url
  }

  ghost predicate SameHeadline(kept: seq<NewsItem>, x: NewsItem, window: nat) {
    exists i: nat :: LastUnder(kept, i, x.headline) && CloseInTime(x, kept[i], window)
  }

  predicate ToldBefore(kept: seq<NewsItem>, x: NewsItem, window: nat) {
    exists i :: 0 <= i < |kept| && SameStory(kept[i], x, window)
  }

  ghost predicate Unheard(kept: seq<NewsItem>, x: NewsItem, window: nat) {
    !SamePid(kept, x) && !SameUrl(kept, x) && !SameHeadline(kept, x, window) && !ToldBefore(kept, x, window)
  }

  ghost predicate KnownPids(m: map<string, NewsItem>, kept: seq<NewsItem>) {
    && (forall p :: p in m ==> m[p] in kept && m[p].pid == Some(p))
    && (forall i :: 0 <= i < |kept| && kept[i].pid.Some? ==> kept[i].pid.value in m)
  }

  ghost predicate KnownUrls(m: map<string, NewsItem>, kept: seq<NewsItem>) {
    && (forall u :: u in m ==> m[u] in kept && m[u].url == Some(u))
    && (forall i :: 0 <= i < |kept| && kept[i].url.Some? ==> kept[i].url.value in m)
  }

  ghost predicate IsLastUnder(kept: seq<NewsItem>, h: string, x: NewsItem) {
    exists i: nat :: LastUnder(kept, i, h) && kept[i] == x
  }

  ghost predicate KnownHeadlines(m: map<string, NewsItem>, kept: seq<NewsItem>) {
    && (forall h :: h in m ==> IsLastUnder(kept, h, m[h]))
    && (forall i :: 0 <= i < |kept| ==> kept[i].headline in m)
  }

  /** The dictionaries know exactly the kept items. */
  ghost predicate Known(c: Core) {
    KnownPids(c.byPid, c.unique) && KnownUrls(c.byUrl, c.unique) && KnownHeadlines(c.byHeadline, c.unique)
  }

  lemma LastUnderSnoc(kept: seq<NewsItem>, x: NewsItem, i: nat, h: string)
    ensures LastUnder(kept + [x], i, h) <==> if x.headline == h then i == |kept| else LastUnder(kept, i, h)
  {
    var all := kept + [x];
    assert all[|kept|] == x && forall j :: 0 <= j < |kept| ==> all[j] == kept[j];
    if LastUnder(all, i, h) && i < |kept| { assert all[|kept|].headline != h; }
  }

  lemma HeadlinesSnoc(m: map<string, NewsItem>, kept: seq<NewsItem>, x: NewsItem)
    requires KnownHeadlines(m, kept)
    ensures KnownHeadlines(m[x.headline := x], kept + [x])
  {
    var all, m' := kept + [x], m[x.headline := x];
    assert all[|kept|] == x && forall j :: 0 <= j < |kept| ==> all[j] == kept[j];
    forall h | h in m' ensures IsLastUnder(all, h, m'[h]) {
      if h == x.headline {
        LastUnderSnoc(kept, x, |kept|, h);
        assert LastUnder(all, |kept|, h);
      } else {
        assert IsLastUnder(kept, h, m[h]);
        var i: nat :| LastUnder(kept, i, h) && kept[i] == m[h];
        LastUnderSnoc(kept, x, i, h);
        assert LastUnder(all, i, h) && all[i] == m[h];
      }
    }
  }

  lemma PidsSnoc(m: map<string, NewsItem>, kept: seq<NewsItem>, x: NewsItem)
    requires KnownPids(m, kept)
    ensures KnownPids(if x.pid.Some? then m[x.pid.value := x] else m, kept + [x])
  {
    OneMore(kept, x);
  }

  lemma UrlsSnoc(m: map<string, NewsItem>, kept: seq<NewsItem>, x: NewsItem)
    requires KnownUrls(m, kept)
    ensures KnownUrls(if x.url.Some? then m[x.url.value := x] else m, kept + [x])
  {
    OneMore(kept, x);
  }

  lemma AdmitKnown(c: Core, x: NewsItem)
    requires Known(c)
    ensures Known(Admit(c, x))
  {
    PidsSnoc(c.byPid, c.unique, x);
    UrlsSnoc(c.byUrl, c.unique, x);
    HeadlinesSnoc(c.byHeadline, c.unique, x);
  }

  lemma {:induction false} DedupKnown(items: seq<NewsItem>, window: nat)
    ensures Known(Dedup(items, window).core)
    decreases |items|
  {
    if items != [] {
      var init, x := items[..|items| - 1], items[|items| - 1];
      DedupKnown(init, window);
      if MatchOf(Dedup(init, window).core, x, window).NoMatch? { AdmitKnown(Dedup(init, window).core, x); }
    }
  }

  ghost function FirstReason(kept: seq<NewsItem>, x: NewsItem, window: nat): Method {
    if SamePid(kept, x) then ProviderId
    else if SameUrl(kept, x) then Url
    else if SameHeadline(kept, x, window) then HeadlineHash
    else SimilarHeadline
  }

  lemma HeadlineFound(c: Core, x: NewsItem, window: nat)
    requires KnownHeadlines(c.byHeadline, c.unique)
    ensures x.headline in c.byHeadline && Near(x, c.byHeadline[x.headline], window) <==> SameHeadline(c.unique, x, window)
  {
    if x.headline in c.byHeadline {
      assert IsLastUnder(c.unique, x.headline, c.byHeadline[x.headline]);
      var i: nat :| LastUnder(c.unique, i, x.headline) && c.unique[i] == c.byHeadline[x.headline];
      if k: nat :| LastUnder(c.unique, k, x.headline) && CloseInTime(x, c.unique[k], window) { assert k == i; }
    }
  }

  lemma PidFound(c: Core, x: NewsItem)
    requires KnownPids(c.byPid, c.unique)
    ensures x.pid.Some? && x.pid.value in c.byPid <==> SamePid(c.unique, x)
  {
    if x.pid.Some? && x.pid.value in c.byPid {
      var i :| 0 <= i < |c.unique| && c.unique[i] == c.byPid[x.pid.value];
      assert c.unique[i].pid == x.pid;
    }
  }

  lemma UrlFound(c: Core, x: NewsItem)
    requires KnownUrls(c.byUrl, c.unique)
    ensures x.url.Some? && x.url.value in c.byUrl <==> SameUrl(c.unique, x)
  {
    if x.url.Some? && x.url.value in c.byUrl {
      var i :| 0 <= i < |c.unique| && c.unique[i] == c.byUrl[x.url.value];
      assert c.unique[i].url == x.url;
    }
  }

  lemma StoryFound(kept: seq<NewsItem>, x: NewsItem, window: nat)
    ensures FirstSimilar(kept, x, window).Some? <==> ToldBefore(kept, x, window)
  {
    if FirstSimilar(kept, x, window).Some? {
      var i :| 0 <= i < |kept| && kept[i] == FirstSimilar(kept, x, window).value;
      assert SameStory(kept[i], x, window);
    }
  }

  lemma MatchMeaning(c: Core, x: NewsItem, window: nat)
    requires Known(c)
    ensures
      var m := MatchOf(c, x, window);
      && (m.NoMatch? <==> Unheard(c.unique, x, window))
      && (m.Match? ==> m.how == FirstReason(c.unique, x, window))
  {
    PidFound(c, x);
    UrlFound(c, x);
    HeadlineFound(c, x, window);
    StoryFound(c.unique, x, window);
  }

  /** After any items, the next one is dropped if and only if a kept item has its provider id or its
      url, or the item last kept under its headline lies within the window, or some kept item tells
      its story; and it joins for the first of these reasons that applies. */
  lemma DroppedIff(items: seq<NewsItem>, x: NewsItem, window: nat)
    ensures
      var core := Dedup(items, window).core;
      var kept, m := core.unique, MatchOf(core, x, window);
      && Dedup(items + [x], window).core.unique == (if m.Match? then kept else kept + [x])
      && (m.NoMatch? <==> Unheard(kept, x, window))
      && (m.Match? ==> m.how == FirstReason(kept, x, window))
  {
    assert (items + [x])[..|items|] == items;
    DedupKnown(items, window);
    MatchMeaning(Dedup(items, window).core, x, window);
  }

  // ----- What a cluster records -----

  /** The i-th input joined the cluster after its primary article. */
  predicate Joined(items: seq<NewsItem>, k: Cluster, i: nat) {
    i < |items| && items[i].id in k.members && items[i].id != k.primary
  }

  predicate HasCorrection(items: seq<NewsItem>, k: Cluster) {
    exists i :: 0 <= i < |items| && Joined(items, k, i) && items[i].isCorrection
  }

  predicate UpdatedBy(items: seq<NewsItem>, k: Cluster) {
    exists i :: 0 <= i < |items| && Joined(items, k, i) && items[i].published == k.lastUpdated
  }

  function FirstUpdate(x: NewsItem): int { if x.updated.Some? then x.updated.value else x.published }

  /** The primary article comes first; the cluster is called primary while it is alone, was last updated
      at the latest of its own update and the joiners' publication, and is fully trusted unless a
      correction joined, when it is trusted at 0.9. */
  ghost predicate Records(items: seq<NewsItem>, k: Cluster, x: NewsItem) {
    && x in items && k.primary == x.id && k.members != [] && k.members[0] == x.id
    && (k.how == Primary <==> |k.members| == 1)
    && k.confidence == (if HasCorrection(items, k) then 0.9 else 1.0)
    && FirstUpdate(x) <= k.lastUpdated
    && (forall i :: 0 <= i < |items| && Joined(items, k, i) ==> items[i].published <= k.lastUpdated)
    && (k.lastUpdated == FirstUpdate(x) || UpdatedBy(items, k))
    && (forall id :: id in k.members ==> Processed(items, id))
  }

  ghost predicate Recorded(items: seq<NewsItem>, k: Cluster) { exists x :: Records(items, k, x) }

  ghost predicate AllRecorded(items: seq<NewsItem>, cs: map<Fingerprint, Cluster>) {
    forall fp :: fp in cs ==> Recorded(items, cs[fp])
  }

  lemma OneMore(items: seq<NewsItem>, y: NewsItem)
    ensures (items + [y])[|items|] == y && forall i :: 0 <= i < |items| ==> (items + [y])[i] == items[i]
  {
  }

  lemma OthersKeepRecords(items: seq<NewsItem>, k: Cluster, x: NewsItem, y: NewsItem)
    requires Records(items, k, x) && DistinctIds(items + [y])
    ensures Records(items + [y], k, x)
  {
    ProcessedSnoc(items, y);
    OneMore(items, y);
    assert y.id !in k.members;
    forall i ensures Joined(items + [y], k, i) <==> Joined(items, k, i) {}
    if HasCorrection(items, k) {
      var i :| 0 <= i < |items| && Joined(items, k, i) && items[i].isCorrection;
      assert Joined(items + [y], k, i) && (items + [y])[i].isCorrection;
    }
    if UpdatedBy(items, k) {
      var i :| 0 <= i < |items| && Joined(items, k, i) && items[i].published == k.lastUpdated;
      assert Joined(items + [y], k, i) && (items + [y])[i].published == k.lastUpdated;
    }
  }

  lemma StartRecords(items: seq<NewsItem>, y: NewsItem)
    requires DistinctIds(items + [y])
    ensures Records(items + [y], NewCluster(y), y)
  {
    ProcessedSnoc(items, y);
    OneMore(items, y);
  }

  /** Whether a correction is among the joiners, once one more joins. */
  lemma CorrectionJoins(items: seq<NewsItem>, k: Cluster, x: NewsItem, y: NewsItem, how: Method)
    requires Records(items, k, x) && DistinctIds(items + [y])
    ensures HasCorrection(items + [y], Enlarged(k, y, how)) <==> HasCorrection(items, k) || y.isCorrection
  {
    var k' := Enlarged(k, y, how);
    ProcessedSnoc(items, y);
    OneMore(items, y);
    assert y.id !in k.members && y.id != x.id && k'.members == k.members + [y.id];
    assert Joined(items + [y], k', |items|);
    forall i | 0 <= i < |items| ensures Joined(items + [y], k', i) <==> Joined(items, k, i) {
      assert items[i].id != y.id;
    }
    if HasCorrection(items, k) {
      var i :| 0 <= i < |items| && Joined(items, k, i) && items[i].isCorrection;
      assert Joined(items + [y], k', i) && (items + [y])[i].isCorrection;
    }
  }

  lemma JoinRecords(items: seq<NewsItem>, k: Cluster, x: NewsItem, y: NewsItem, how: Method)
    requires Records(items, k, x) && DistinctIds(items + [y]) && how != Primary
    ensures Records(items + [y], Enlarged(k, y, how), x)
  {
    var k', all := Enlarged(k, y, how), items + [y];
    ProcessedSnoc(items, y);
    OneMore(items, y);
    CorrectionJoins(items, k, x, y, how);
    assert y.id !in k.members && k'.members == k.members + [y.id];
    assert Joined(all, k', |items|);
    forall i | 0 <= i < |items| ensures Joined(all, k', i) <==> Joined(items, k, i) {
      assert items[i].id != y.id;
    }
    if k'.lastUpdated == k.lastUpdated && UpdatedBy(items, k) {
      var i :| 0 <= i < |items| && Joined(items, k, i) && items[i].published == k.lastUpdated;
      assert Joined(all, k', i) && all[i].published == k'.lastUpdated;
    }
    if k'.lastUpdated != k.lastUpdated { assert all[|items|].published == k'.lastUpdated; }
  }

  lemma StepRecords(items: seq<NewsItem>, st: State, y: NewsItem, window: nat, fp: Fingerprint)
    requires DistinctIds(items + [y]) && AllRecorded(items, st.clusters)
    requires fp in Process(st, y, window).clusters
    ensures Recorded(items + [y], Process(st, y, window).clusters[fp])
  {
    var cs, m := st.clusters, MatchOf(st.core, y, window);
    StartRecords(items, y);
    if fp in cs {
      assert Recorded(items, cs[fp]);
      var x :| Records(items, cs[fp], x);
      OthersKeepRecords(items, cs[fp], x, y);
      if m.Match? { JoinRecords(items, cs[fp], x, y, m.how); }
    }
  }

  /** Every cluster of every run records its articles as stated. */
  lemma {:induction false} ClustersRecord(items: seq<NewsItem>, window: nat)
    requires DistinctIds(items)
    ensures AllRecorded(items, Dedup(items, window).clusters)
    decreases |items|
  {
    if items != [] {
      var init, y := items[..|items| - 1], items[|items| - 1];
      ClustersRecord(init, window);
      assert items == init + [y];
      var st := Dedup(init, window);
      forall fp | fp in Process(st, y, window).clusters ensures Recorded(items, Process(st, y, window).clusters[fp]) {
        StepRecords(init, st, y, window, fp);
      }
    }
  }
}
