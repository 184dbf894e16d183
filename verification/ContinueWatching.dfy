/** The continue-watching list: one resume target per series, newest activity first. */
module ContinueWatching {
  import opened Wrappers

  type EpisodeId = nat
  type SeriesId = nat

  const MAX_CONTINUE_ITEMS := 8

  datatype Progress = Progress(
    pk: nat, episode: EpisodeId, series: SeriesId, updatedAt: int, completed: bool, position: nat)

  datatype Item = Item(series: SeriesId, episode: EpisodeId, position: nat)

  /** One subject's progress table: primary keys are unique, and so is the row of an episode. */
  ghost predicate Stored(rows: seq<Progress>) {
    forall i, j :: 0 <= i < j < |rows| ==> rows[i].pk != rows[j].pk && rows[i].episode != rows[j].episode
  }

  predicate Newer(a: Progress, b: Progress) {
    a.updatedAt > b.updatedAt || (a.updatedAt == b.updatedAt && a.pk > b.pk)
  }

  ghost predicate IsLatest(rows: seq<Progress>, r: Progress) {
    r in rows && forall q :: q in rows && q.series == r.series && q != r ==> Newer(r, q)
  }

  ghost predicate Finished(rows: seq<Progress>, episode: EpisodeId) {
    exists r :: r in rows && r.episode == episode && r.completed
  }

  /** The position stored for an episode, or zero. */
  ghost predicate ResumesAt(rows: seq<Progress>, episode: EpisodeId, position: nat) {
    && (forall r :: r in rows && r.episode == episode ==> position == r.position)
    && ((forall r :: r in rows ==> r.episode != episode) ==> position == 0)
  }

  function Start(latest: Progress, episodes: seq<EpisodeId>): (start: nat)
    ensures start <= |episodes|
    ensures latest.episode in episodes ==> start > 0 && episodes[start - 1] == latest.episode
    ensures forall k :: 0 <= k < start - 1 ==> episodes[k] != latest.episode
    ensures latest.episode !in episodes ==> start == 0
  {
    if episodes == [] then 0
    else if episodes[0] == latest.episode then 1
    else
      var rest := Start(latest, episodes[1..]);
      if rest == 0 then 0 else rest + 1
  }

  ghost predicate FirstUnfinished(rows: seq<Progress>, episodes: seq<EpisodeId>, start: nat, k: nat) {
    && start <= k < |episodes| && !Finished(rows, episodes[k])
    && forall j :: start <= j < k ==> Finished(rows, episodes[j])
  }

  /** What a series' eligible episodes offer after its latest row: that row's episode while unfinished,
      else the first unfinished one from the resume point on, else nothing. */
  ghost predicate Resumes(rows: seq<Progress>, latest: Progress, episodes: seq<EpisodeId>, item: Option<Item>) {
    if latest.episode in episodes && !latest.completed
    then item == Some(Item(latest.series, latest.episode, latest.position))
    else if item.None?
    then forall k :: Start(latest, episodes) <= k < |episodes| ==> Finished(rows, episodes[k])
    else
      && item.value.series == latest.series
      && ResumesAt(rows, item.value.episode, item.value.position)
      && exists k: nat ::
           FirstUnfinished(rows, episodes, Start(latest, episodes), k) && item.value.episode == episodes[k]
  }

  ghost predicate IndexedBy(rows: seq<Progress>, byEpisode: map<EpisodeId, Progress>) {
    && (forall e :: e in byEpisode ==> byEpisode[e] in rows && byEpisode[e].episode == e)
    && (forall r :: r in rows ==> r.episode in byEpisode && byEpisode[r.episode] == r)
  }

  method ResumeItem(
    ghost rows: seq<Progress>, latest: Progress, byEpisode: map<EpisodeId, Progress>, episodes: seq<EpisodeId>)
    returns (item: Option<Item>)
    requires IndexedBy(rows, byEpisode)
    ensures Resumes(rows, latest, episodes, item)
  {
    var start := Start(latest, episodes);
    if start > 0 && !latest.completed {
      return Some(Item(latest.series, latest.episode, latest.position));
    }
    for k := start to |episodes|
      invariant forall j :: start <= j < k ==> Finished(rows, episodes[j])
    {
      var episode := episodes[k];
      if episode in byEpisode && byEpisode[episode].completed {
        assert Finished(rows, episode);
      } else {
        assert !Finished(rows, episode);
        assert FirstUnfinished(rows, episodes, start, k);
        return Some(Item(latest.series, episode, if episode in byEpisode then byEpisode[episode].position else 0));
      }
    }
    return None;
  }

  ghost predicate LatestOf(rows: seq<Progress>, latest: map<SeriesId, Progress>) {
    && (forall s :: s in latest ==> latest[s].series == s && IsLatest(rows, latest[s]))
    && (forall r :: r in rows ==> r.series in latest)
  }

  ghost predicate Distinct<T>(s: seq<T>) {
    forall i, j :: 0 <= i < j < |s| ==> s[i] != s[j]
  }

  ghost predicate NewestFirst(order: seq<SeriesId>, latest: map<SeriesId, Progress>) {
    && (forall i :: 0 <= i < |order| ==> order[i] in latest)
    && (forall i, j :: 0 <= i < j < |order| ==> Newer(latest[order[i]], latest[order[j]]))
  }

  /** Two series never tie: their latest rows have different keys. */
  lemma NoTies(rows: seq<Progress>, latest: map<SeriesId, Progress>, s: SeriesId, t: SeriesId)
    requires Stored(rows) && LatestOf(rows, latest) && s in latest && t in latest && s != t
    ensures Newer(latest[s], latest[t]) || Newer(latest[t], latest[s])
  {
    var i :| 0 <= i < |rows| && rows[i] == latest[s];
    var j :| 0 <= j < |rows| && rows[j] == latest[t];
    assert rows[if i < j then i else j].pk != rows[if i < j then j else i].pk;
  }

  method SortNewestFirst(ghost rows: seq<Progress>, order: seq<SeriesId>, latest: map<SeriesId, Progress>)
    returns (sorted: seq<SeriesId>)
    requires Stored(rows) && LatestOf(rows, latest) && Distinct(order) && forall s :: s in order ==> s in latest
    ensures NewestFirst(sorted, latest)
    ensures forall s :: s in sorted <==> s in order
  {
    sorted := [];
    for n := 0 to |order|
      invariant NewestFirst(sorted, latest)
      invariant forall s :: s in sorted <==> s in order[..n]
    {
      var series := order[n];
      assert series !in order[..n];
      var at := |sorted|;
      while at > 0 && Newer(latest[series], latest[sorted[at - 1]])
        invariant 0 <= at <= |sorted|
        invariant forall i :: at <= i < |sorted| ==> Newer(latest[series], latest[sorted[i]])
      {
        at := at - 1;
      }
      if at > 0 {
        NoTies(rows, latest, series, sorted[at - 1]);
      }
      InsertKeepsOrder(sorted, latest, series, at);
      InsertKeepsMembers(sorted, series, at);
      sorted := sorted[..at] + [series] + sorted[at..];
    }
    assert order[..|order|] == order;
  }

  /** Everything before a place is newer than what follows it. */
  lemma NewerAcross(sorted: seq<SeriesId>, latest: map<SeriesId, Progress>, series: SeriesId, at: nat, i: nat)
    requires NewestFirst(sorted, latest) && at <= |sorted| && series in latest && i < |sorted|
    requires at > 0 ==> Newer(latest[sorted[at - 1]], latest[series])
    requires at < |sorted| ==> Newer(latest[series], latest[sorted[at]])
    ensures if i < at then Newer(latest[sorted[i]], latest[series]) else Newer(latest[series], latest[sorted[i]])
  {
    if i < at - 1 {
      assert Newer(latest[sorted[i]], latest[sorted[at - 1]]);
    } else if i > at {
      assert Newer(latest[sorted[at]], latest[sorted[i]]);
    }
  }

  lemma InsertKeepsOrder(sorted: seq<SeriesId>, latest: map<SeriesId, Progress>, series: SeriesId, at: nat)
    requires NewestFirst(sorted, latest) && at <= |sorted| && series in latest
    requires at > 0 ==> Newer(latest[sorted[at - 1]], latest[series])
    requires at < |sorted| ==> Newer(latest[series], latest[sorted[at]])
    ensures NewestFirst(sorted[..at] + [series] + sorted[at..], latest)
  {
    var longer := sorted[..at] + [series] + sorted[at..];
    forall i | 0 <= i < |longer|
      ensures longer[i] == if i < at then sorted[i] else if i == at then series else sorted[i - 1]
    {
    }
    forall i, j | 0 <= i < j < |longer| ensures Newer(latest[longer[i]], latest[longer[j]]) {
      if i == at {
        NewerAcross(sorted, latest, series, at, j - 1);
      } else if j == at {
        NewerAcross(sorted, latest, series, at, i);
      }
    }
  }

  lemma InsertKeepsMembers(sorted: seq<SeriesId>, series: SeriesId, at: nat)
    requires at <= |sorted|
    ensures forall s :: s in sorted[..at] + [series] + sorted[at..] <==> s in sorted || s == series
  {
    assert sorted == sorted[..at] + sorted[at..];
  }

  lemma IndexGrows(rows: seq<Progress>, row: Progress, byEpisode: map<EpisodeId, Progress>)
    requires IndexedBy(rows, byEpisode) && forall r :: r in rows ==> r.episode != row.episode
    ensures IndexedBy(rows + [row], byEpisode[row.episode := row])
  {
  }

  lemma LatestGrows(rows: seq<Progress>, row: Progress, latest: map<SeriesId, Progress>)
    requires LatestOf(rows, latest) && forall r :: r in rows ==> r.pk != row.pk
    ensures var updates := row.series !in latest || Newer(row, latest[row.series]);
            LatestOf(rows + [row], if updates then latest[row.series := row] else latest)
  {
    var updates := row.series !in latest || Newer(row, latest[row.series]);
    var after := if updates then latest[row.series := row] else latest;
    forall s | s in after ensures after[s].series == s && IsLatest(rows + [row], after[s]) {
      if s == row.series && s in latest {
        assert latest[s] in rows;
      }
    }
  }

  method Tabulate(rows: seq<Progress>)
    returns (byEpisode: map<EpisodeId, Progress>, latest: map<SeriesId, Progress>, order: seq<SeriesId>)
    requires Stored(rows)
    ensures IndexedBy(rows, byEpisode) && LatestOf(rows, latest)
    ensures Distinct(order) && forall s :: s in order <==> s in latest
  {
    byEpisode, latest, order := map[], map[], [];
    for i := 0 to |rows|
      invariant IndexedBy(rows[..i], byEpisode) && LatestOf(rows[..i], latest)
      invariant Distinct(order) && forall s :: s in order <==> s in latest
    {
      var row := rows[i];
      assert rows[..i + 1] == rows[..i] + [row];
      IndexGrows(rows[..i], row, byEpisode);
      LatestGrows(rows[..i], row, latest);
      byEpisode := byEpisode[row.episode := row];
      if row.series !in latest {
        order := order + [row.series];
        latest := latest[row.series := row];
      } else if Newer(row, latest[row.series]) {
        latest := latest[row.series := row];
      }
    }
    assert rows[..|rows|] == rows;
  }

  function EpisodesOf(eligible: map<SeriesId, seq<EpisodeId>>, series: SeriesId): seq<EpisodeId> {
    if series in eligible then eligible[series] else []
  }

  predicate ComesFrom(latest: map<SeriesId, Progress>, sorted: seq<SeriesId>, k: nat, source: Progress) {
    k < |sorted| && sorted[k] in latest && source == latest[sorted[k]]
  }

  ghost predicate ComesBefore(latest: map<SeriesId, Progress>, sorted: seq<SeriesId>, n: nat, source: Progress) {
    exists k: nat :: k < n && ComesFrom(latest, sorted, k, source)
  }

  /** The sources are latest rows of some of the first `n` series, newest first. */
  ghost predicate Taken(latest: map<SeriesId, Progress>, sorted: seq<SeriesId>, n: nat, sources: seq<Progress>)
  {
    && (forall i :: 0 <= i < |sources| ==> ComesBefore(latest, sorted, n, sources[i]))
    && (forall i, j :: 0 <= i < j < |sources| ==> Newer(sources[i], sources[j]))
  }

  ghost predicate Offered(
    rows: seq<Progress>, eligible: map<SeriesId, seq<EpisodeId>>, sources: seq<Progress>, items: seq<Item>)
  {
    && |items| == |sources|
    && forall i :: 0 <= i < |items| ==>
         && items[i].series == sources[i].series
         && Resumes(rows, sources[i], EpisodesOf(eligible, sources[i].series), Some(items[i]))
  }

  lemma TakenAreNewer(
    latest: map<SeriesId, Progress>, sorted: seq<SeriesId>, n: nat, sources: seq<Progress>, i: nat, k: nat)
    requires NewestFirst(sorted, latest) && n <= k < |sorted| && Taken(latest, sorted, n, sources) && i < |sources|
    ensures Newer(sources[i], latest[sorted[k]])
  {
    assert ComesBefore(latest, sorted, n, sources[i]);
    var j: nat :| j < n && ComesFrom(latest, sorted, j, sources[i]);
  }

  lemma PassedOverGrows(
    rows: seq<Progress>, eligible: map<SeriesId, seq<EpisodeId>>,
    latest: map<SeriesId, Progress>, sorted: seq<SeriesId>,
    n: nat, sources: seq<Progress>, longer: seq<Progress>)
    requires PassedOver(rows, eligible, latest, sorted, n, sources) && n < |sorted| && sorted[n] in latest
    requires sources <= longer
    requires latest[sorted[n]] in longer
             || Resumes(rows, latest[sorted[n]], EpisodesOf(eligible, latest[sorted[n]].series), None)
    ensures PassedOver(rows, eligible, latest, sorted, n + 1, longer)
  {
  }

  lemma TakenWidens(latest: map<SeriesId, Progress>, sorted: seq<SeriesId>, n: nat, sources: seq<Progress>)
    requires Taken(latest, sorted, n, sources)
    ensures Taken(latest, sorted, n + 1, sources)
  {
    forall i | 0 <= i < |sources| ensures ComesBefore(latest, sorted, n + 1, sources[i]) {
      assert ComesBefore(latest, sorted, n, sources[i]);
    }
  }

  lemma TakenGrows(latest: map<SeriesId, Progress>, sorted: seq<SeriesId>, n: nat, sources: seq<Progress>)
    requires NewestFirst(sorted, latest) && n < |sorted| && Taken(latest, sorted, n, sources)
    ensures Taken(latest, sorted, n + 1, sources + [latest[sorted[n]]])
  {
    var longer := sources + [latest[sorted[n]]];
    forall i | 0 <= i < |longer| ensures ComesBefore(latest, sorted, n + 1, longer[i]) {
      if i < |sources| {
        assert ComesBefore(latest, sorted, n, sources[i]);
        var k: nat :| k < n && ComesFrom(latest, sorted, k, sources[i]);
        assert ComesFrom(latest, sorted, k, longer[i]);
      } else {
        assert ComesFrom(latest, sorted, n, longer[i]);
      }
    }
    forall i, j | 0 <= i < j < |longer| ensures Newer(longer[i], longer[j]) {
      if j == |sources| {
        TakenAreNewer(latest, sorted, n, sources, i, n);
      }
    }
  }

  lemma OneLatest(rows: seq<Progress>, latest: map<SeriesId, Progress>, r: Progress)
    requires LatestOf(rows, latest) && IsLatest(rows, r)
    ensures r.series in latest && latest[r.series] == r
  {
    var s := r.series;
    assert latest[s] == r || Newer(r, latest[s]);
  }

  lemma AllAreLatest(
    rows: seq<Progress>, latest: map<SeriesId, Progress>, sorted: seq<SeriesId>, n: nat, sources: seq<Progress>)
    requires LatestOf(rows, latest) && NewestFirst(sorted, latest) && n <= |sorted| && Taken(latest, sorted, n, sources)
    ensures forall i :: 0 <= i < |sources| ==> IsLatest(rows, sources[i])
    ensures forall i, j :: 0 <= i < j < |sources| ==> sources[i].series != sources[j].series
  {
    forall i | 0 <= i < |sources| ensures IsLatest(rows, sources[i]) {
      assert ComesBefore(latest, sorted, n, sources[i]);
      var k: nat :| k < n && ComesFrom(latest, sorted, k, sources[i]);
    }
    forall i, j | 0 <= i < j < |sources| ensures sources[i].series != sources[j].series {
      assert Newer(sources[i], sources[j]);
      OneLatest(rows, latest, sources[i]);
      OneLatest(rows, latest, sources[j]);
    }
  }

  /** Of the first `n` series those not taken offer nothing. */
  ghost predicate PassedOver(
    rows: seq<Progress>, eligible: map<SeriesId, seq<EpisodeId>>,
    latest: map<SeriesId, Progress>, sorted: seq<SeriesId>,
    n: nat, sources: seq<Progress>)
  {
    forall k: nat, r | k < n && ComesFrom(latest, sorted, k, r) ::
      r in sources || Resumes(rows, r, EpisodesOf(eligible, r.series), None)
  }

  /** Collects items over the sorted series until there are eight. */
  method TakeItems(
    rows: seq<Progress>, eligible: map<SeriesId, seq<EpisodeId>>, byEpisode: map<EpisodeId, Progress>,
    latest: map<SeriesId, Progress>, sorted: seq<SeriesId>)
    returns (items: seq<Item>, ghost sources: seq<Progress>, n: nat)
    requires IndexedBy(rows, byEpisode) && NewestFirst(sorted, latest)
    requires forall s :: s in latest ==> latest[s].series == s
    ensures n <= |sorted| && |items| <= MAX_CONTINUE_ITEMS && (n < |sorted| ==> |items| == MAX_CONTINUE_ITEMS)
    ensures Taken(latest, sorted, n, sources) && Offered(rows, eligible, sources, items)
    ensures PassedOver(rows, eligible, latest, sorted, n, sources)
  {
    items, sources, n := [], [], 0;
    while n < |sorted| && |items| < MAX_CONTINUE_ITEMS
      invariant 0 <= n <= |sorted| && |items| <= MAX_CONTINUE_ITEMS
      invariant Taken(latest, sorted, n, sources)
      invariant Offered(rows, eligible, sources, items)
      invariant PassedOver(rows, eligible, latest, sorted, n, sources)
    {
      var row := latest[sorted[n]];
      var item := ResumeItem(rows, row, byEpisode, EpisodesOf(eligible, sorted[n]));
      if item.Some? {
        TakenGrows(latest, sorted, n, sources);
        PassedOverGrows(rows, eligible, latest, sorted, n, sources, sources + [row]);
        OfferedGrows(rows, eligible, sources, items, row, item.value);
        items := items + [item.value];
        sources := sources + [row];
      } else {
        PassedOverGrows(rows, eligible, latest, sorted, n, sources, sources);
        TakenWidens(latest, sorted, n, sources);
      }
      n := n + 1;
    }
  }

  /** The latest row of a series is one row. */
  lemma OneLatestRow(rows: seq<Progress>, q: Progress, r: Progress)
    requires IsLatest(rows, q) && IsLatest(rows, r) && q.series == r.series
    ensures q == r
  {
    assert q == r || Newer(q, r);
  }

  ghost predicate LatestOfSeries(rows: seq<Progress>, series: SeriesId, r: Progress) {
    IsLatest(rows, r) && r.series == series
  }

  /** The item is what its series offers after its latest row. */
  ghost predicate RightItem(rows: seq<Progress>, eligible: map<SeriesId, seq<EpisodeId>>, item: Item) {
    exists r :: LatestOfSeries(rows, item.series, r) && Resumes(rows, r, EpisodesOf(eligible, item.series), Some(item))
  }

  /** The latest activity of one series is newer than another row. */
  ghost predicate SeriesNewer(rows: seq<Progress>, series: SeriesId, r: Progress) {
    forall q :: LatestOfSeries(rows, series, q) ==> Newer(q, r)
  }

  ghost predicate Ordered(rows: seq<Progress>, first: Item, second: Item) {
    && first.series != second.series
    && forall r :: LatestOfSeries(rows, second.series, r) ==> SeriesNewer(rows, first.series, r)
  }

  predicate Lists(items: seq<Item>, series: SeriesId) {
    exists i :: 0 <= i < |items| && items[i].series == series
  }

  /** `eligible` gives each series' eligible episodes in season and episode order. A series is left out
      only when it offers nothing, or when eight newer ones were found. */
  method ListContinueWatching(rows: seq<Progress>, eligible: map<SeriesId, seq<EpisodeId>>) returns (items: seq<Item>)
    requires Stored(rows)
    ensures |items| <= MAX_CONTINUE_ITEMS
    ensures forall i :: 0 <= i < |items| ==> RightItem(rows, eligible, items[i])
    ensures forall i, j :: 0 <= i < j < |items| ==> Ordered(rows, items[i], items[j])
    ensures forall r :: IsLatest(rows, r) && !Lists(items, r.series) ==>
      || Resumes(rows, r, EpisodesOf(eligible, r.series), None)
      || (|items| == MAX_CONTINUE_ITEMS && SeriesNewer(rows, items[|items| - 1].series, r))
  {
    var byEpisode, latest, order := Tabulate(rows);
    var sorted := SortNewestFirst(rows, order, latest);
    var n;
    ghost var sources;
    items, sources, n := TakeItems(rows, eligible, byEpisode, latest, sorted);
    AllAreLatest(rows, latest, sorted, n, sources);
    ItemsAreRight(rows, eligible, sources, items);
    forall r | IsLatest(rows, r) && !Lists(items, r.series)
      ensures Resumes(rows, r, EpisodesOf(eligible, r.series), None)
        || (|items| == MAX_CONTINUE_ITEMS && SeriesNewer(rows, items[|items| - 1].series, r))
    {
      assert forall i :: 0 <= i < |items| ==> items[i].series != r.series;
      OneLatest(rows, latest, r);
      LeftOut(rows, eligible, latest, sorted, n, sources, r);
      if items != [] && Newer(sources[|items| - 1], r) {
        SourceDecides(rows, sources[|items| - 1], r);
      }
    }
  }

  lemma SourceDecides(rows: seq<Progress>, source: Progress, r: Progress)
    requires IsLatest(rows, source) && Newer(source, r)
    ensures SeriesNewer(rows, source.series, r)
  {
    forall q | LatestOfSeries(rows, source.series, q) ensures Newer(q, r) {
      OneLatestRow(rows, q, source);
    }
  }

  lemma ItemsAreRight(
    rows: seq<Progress>, eligible: map<SeriesId, seq<EpisodeId>>, sources: seq<Progress>, items: seq<Item>)
    requires Offered(rows, eligible, sources, items)
    requires forall i :: 0 <= i < |sources| ==> IsLatest(rows, sources[i])
    requires forall i, j :: 0 <= i < j < |sources| ==>
        Newer(sources[i], sources[j]) && sources[i].series != sources[j].series
    ensures forall i :: 0 <= i < |items| ==> RightItem(rows, eligible, items[i])
    ensures forall i, j :: 0 <= i < j < |items| ==> Ordered(rows, items[i], items[j])
  {
    forall i | 0 <= i < |items| ensures RightItem(rows, eligible, items[i]) {
      assert LatestOfSeries(rows, items[i].series, sources[i]);
    }
    forall i, j | 0 <= i < j < |items| ensures Ordered(rows, items[i], items[j]) {
      forall r | LatestOfSeries(rows, items[j].series, r) ensures SeriesNewer(rows, items[i].series, r) {
        OneLatestRow(rows, r, sources[j]);
        SourceDecides(rows, sources[i], r);
      }
    }
  }

  lemma LeftOut(
    rows: seq<Progress>, eligible: map<SeriesId, seq<EpisodeId>>,
    latest: map<SeriesId, Progress>, sorted: seq<SeriesId>,
    n: nat, sources: seq<Progress>, r: Progress)
    requires NewestFirst(sorted, latest) && Taken(latest, sorted, n, sources)
    requires PassedOver(rows, eligible, latest, sorted, n, sources)
    requires (forall i :: 0 <= i < |sources| ==> sources[i].series != r.series) && r.series in sorted
    requires latest[r.series] == r
    ensures Resumes(rows, r, EpisodesOf(eligible, r.series), None)
      || (n < |sorted| && (sources != [] ==> Newer(sources[|sources| - 1], r)))
  {
    var k: nat :| k < |sorted| && sorted[k] == r.series;
    assert ComesFrom(latest, sorted, k, r);
    if k >= n && sources != [] {
      TakenAreNewer(latest, sorted, n, sources, |sources| - 1, k);
    }
  }

  lemma OfferedGrows(
    rows: seq<Progress>, eligible: map<SeriesId, seq<EpisodeId>>, sources: seq<Progress>, items: seq<Item>,
    row: Progress, item: Item)
    requires Offered(rows, eligible, sources, items)
    requires item.series == row.series && Resumes(rows, row, EpisodesOf(eligible, row.series), Some(item))
    ensures Offered(rows, eligible, sources + [row], items + [item])
  {
  }
}
