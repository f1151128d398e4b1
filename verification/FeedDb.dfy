/** The feed read from stored articles: tagged ones first, free places filled with popular ones
    (server/internal/recommendation/service.go, getFromDB and fillWithPopular). */
module FeedDb {
  import opened Wrappers
  import opened Tags
  import opened Sorting
  import opened Interest
  import opened Score
  import opened Feed
  import opened FeedSearch

  const TOP_TAG_LIMIT: nat := 5
  const TAGGED_LIMIT: nat := 500
  const POPULAR_LIMIT: nat := 20
  const ZENN_STORED_WINDOW := 30 * DAY

  // ---------- the queries ----------

  predicate Newer(a: Article, b: Article) {
    a.publishedAt > b.publishedAt || (a.publishedAt == b.publishedAt && a.id > b.id)
  }

  predicate MorePopular(a: Article, b: Article) {
    a.likes > b.likes || (a.likes == b.likes && Newer(a, b))
  }

  /** The stored articles of one source since an instant. */
  function Within(rows: seq<Article>, source: string, since: int): seq<Article> {
    if rows == [] then []
    else
      var before, row := Within(rows[..|rows| - 1], source, since), rows[|rows| - 1];
      if row.source == source && row.publishedAt >= since then before + [row] else before
  }

  function WithTag(rows: seq<Article>, keys: set<string>): seq<Article> {
    if rows == [] then []
    else
      var before, row := WithTag(rows[..|rows| - 1], keys), rows[|rows| - 1];
      if KeysOf(row.tags) * keys != {} then before + [row] else before
  }

  function ListTagged(rows: seq<Article>, source: string, tags: seq<string>, since: int): seq<Article> {
    Top(SortBy(Newer, WithTag(Within(rows, source, since), KeysOf(tags))), TAGGED_LIMIT)
  }

  function ListPopular(rows: seq<Article>, source: string, since: int): seq<Article> {
    Top(SortBy(MorePopular, Within(rows, source, since)), POPULAR_LIMIT)
  }

  // ---------- interests ----------

  predicate Heavier(x: Weight, y: Weight) {
    if x.value != y.value then x.value > y.value
    else if Key(x) != Key(y) then LexLess(Key(x), Key(y))
    else x.tagId < y.tagId
  }

  function Wanted(ws: seq<Weight>): seq<Weight> {
    if ws == [] then []
    else
      var before, w := Wanted(ws[..|ws| - 1]), ws[|ws| - 1];
      if w.value > 0 then before + [w] else before
  }

  function TagsOf(ws: seq<Weight>): seq<string> { seq(|ws|, i requires 0 <= i < |ws| => ws[i].tag) }

  function TopTags(ws: seq<Weight>): seq<string> { TagsOf(Top(SortBy(Heavier, Wanted(ws)), TOP_TAG_LIMIT)) }

  method KeepWanted(ws: seq<Weight>) returns (out: seq<Weight>)
    ensures out == Wanted(ws)
  {
    out := [];
    for n := 0 to |ws|
      invariant out == Wanted(ws[..n])
    {
      assert ws[..n + 1][..n] == ws[..n];
      if ws[n].value > 0 { out := out + [ws[n]]; }
    }
    assert ws[..|ws|] == ws;
  }

  method ListTags(ws: seq<Weight>) returns (tags: seq<string>)
    ensures tags == TagsOf(ws)
  {
    tags := [];
    for n := 0 to |ws|
      invariant |tags| == n && forall k :: 0 <= k < n ==> tags[k] == ws[k].tag
    {
      tags := tags + [ws[n].tag];
    }
  }

  method PickTags(ws: seq<Weight>) returns (tags: seq<string>)
    ensures tags == TopTags(ws)
  {
    var out := KeepWanted(ws);
    out := SortBy(Heavier, out);
    if |out| > TOP_TAG_LIMIT { out := out[..TOP_TAG_LIMIT]; }
    tags := ListTags(out);
  }

  /** Rows that differ in their name or, for blank names, in their ID. */
  ghost predicate RowsDiffer(ws: seq<Weight>) {
    forall i, j :: 0 <= i < j < |ws| ==> Key(ws[i]) != Key(ws[j]) || ws[i].tagId != ws[j].tagId
  }

  lemma HeavierIsStrictTotal(elems: set<Weight>)
    requires forall x, y :: x in elems && y in elems && Key(x) == Key(y) && x.tagId == y.tagId ==> x == y
    ensures StrictTotalOn(Heavier, elems)
  {
    forall x | x in elems ensures !Heavier(x, x) {
    }
    forall x, y, z | Heavier(x, y) && Heavier(y, z) ensures Heavier(x, z) { HeavierTransitive(x, y, z); }
    forall x, y | x in elems && y in elems && x != y ensures Heavier(x, y) || Heavier(y, x) {
      if Key(x) != Key(y) { LexTotal(Key(x), Key(y)); }
    }
  }

  lemma HeavierTransitive(x: Weight, y: Weight, z: Weight)
    requires Heavier(x, y) && Heavier(y, z)
    ensures Heavier(x, z)
  {
    if x.value == y.value == z.value && Key(x) != Key(y) && Key(y) != Key(z) {
      LexTransitive(Key(x), Key(y), Key(z));
      if Key(x) == Key(z) { LexIrreflexive(Key(x)); }
    }
  }

  lemma {:induction false} WantedAre(ws: seq<Weight>)
    ensures forall w :: w in Wanted(ws) <==> w in ws && w.value > 0
    ensures RowsDiffer(ws) ==> RowsDiffer(Wanted(ws))
  {
    if ws != [] {
      var before, last := ws[..|ws| - 1], ws[|ws| - 1];
      assert ws == before + [last];
      WantedAre(before);
      if RowsDiffer(ws) { NewRowDiffers(before, last); }
    }
  }

  lemma NewRowDiffers(before: seq<Weight>, last: Weight)
    requires RowsDiffer(before + [last])
    ensures RowsDiffer(before) && forall w :: w in before ==> Key(w) != Key(last) || w.tagId != last.tagId
  {
    var ws := before + [last];
    assert forall i :: 0 <= i < |before| ==> ws[i] == before[i];
    forall w | w in before ensures Key(w) != Key(last) || w.tagId != last.tagId {
      var i :| 0 <= i < |before| && before[i] == w;
      assert ws[i] == w && ws[|before|] == last;
    }
  }

  lemma WantedSorted(ws: seq<Weight>)
    requires RowsDiffer(ws)
    ensures var sorted := SortBy(Heavier, Wanted(ws));
            Increasing(Heavier, sorted) && forall w :: w in sorted <==> w in ws && w.value > 0
  {
    var wanted := Wanted(ws);
    WantedAre(ws);
    forall x, y | x in Elems(wanted) && y in Elems(wanted) && Key(x) == Key(y) && x.tagId == y.tagId ensures x == y {
      var i :| 0 <= i < |wanted| && wanted[i] == x;
      var j :| 0 <= j < |wanted| && wanted[j] == y;
    }
    HeavierIsStrictTotal(Elems(wanted));
    SortIncreasing(Heavier, wanted);
    SameElems(SortBy(Heavier, wanted), wanted);
    SameMembers(SortBy(Heavier, wanted), wanted);
  }

  lemma AfterTop(s: seq<Weight>, n: nat, w: Weight, p: Weight)
    requires Increasing(Heavier, s) && w in s && w !in Top(s, n) && p in Top(s, n)
    ensures Heavier(p, w)
  {
    var top := Top(s, n);
    assert forall k :: 0 <= k < |top| ==> s[k] in top;
    var i :| 0 <= i < |top| && top[i] == p;
    var j :| 0 <= j < |s| && s[j] == w;
    assert j >= |top|;
  }

  /** No lighter; of the same weight the name comes first or, with the same name, the ID. */
  ghost predicate NotLighter(p: Weight, w: Weight) {
    && p.value >= w.value
    && (p.value == w.value ==> LexLess(Key(p), Key(w)) || (Key(p) == Key(w) && p.tagId < w.tagId))
  }

  /** What the picked rows are: at most five wanted rows from the heaviest down, all of the wanted ones when there are
      fewer than five, and none of them lighter than a wanted row that is left out. */
  ghost predicate Heaviest(ws: seq<Weight>, picked: seq<Weight>) {
    && (forall i, j :: 0 <= i < j < |picked| ==> NotLighter(picked[i], picked[j])) && |picked| <= 5
    && (forall w :: w in picked ==> w in ws && w.value > 0)
    && (forall w, p :: w in ws && w.value > 0 && w !in picked && p in picked ==> NotLighter(p, w))
    && (|picked| < 5 ==> forall w :: w in ws && w.value > 0 ==> w in picked)
  }

  lemma TopIsHeaviest(ws: seq<Weight>, sorted: seq<Weight>)
    requires Increasing(Heavier, sorted) && forall w :: w in sorted <==> w in ws && w.value > 0
    ensures Heaviest(ws, Top(sorted, TOP_TAG_LIMIT))
  {
    var picked := Top(sorted, TOP_TAG_LIMIT);
    forall w, p | w in ws && w.value > 0 && w !in picked && p in picked ensures NotLighter(p, w) {
      AfterTop(sorted, TOP_TAG_LIMIT, w, p);
    }
    forall i, j | 0 <= i < j < |picked| ensures NotLighter(picked[i], picked[j]) {
      assert Heavier(sorted[i], sorted[j]);
    }
    forall w | w in picked ensures w in sorted { }
  }

  /** The tags searched for are those of the heaviest rows. */
  lemma PickedAreHeaviest(ws: seq<Weight>)
    requires RowsDiffer(ws)
    ensures var picked := Top(SortBy(Heavier, Wanted(ws)), TOP_TAG_LIMIT);
            TopTags(ws) == TagsOf(picked) && Heaviest(ws, picked)
  {
    WantedSorted(ws);
    TopIsHeaviest(ws, SortBy(Heavier, Wanted(ws)));
  }

  // ---------- the feed ----------

  function ValidSince(items: seq<Article>, since: int): seq<Article> {
    if items == [] then []
    else
      var before, item := ValidSince(items[..|items| - 1], since), items[|items| - 1];
      if Valid(item) && item.publishedAt >= since then before + [item] else before
  }

  method KeepValidSince(items: seq<Article>, since: int) returns (out: seq<Article>)
    ensures out == ValidSince(items, since)
  {
    out := [];
    for n := 0 to |items|
      invariant out == ValidSince(items[..n], since)
    {
      assert items[..n + 1][..n] == items[..n];
      if Valid(items[n]) && items[n].publishedAt >= since { out := out + [items[n]]; }
    }
    assert items[..|items|] == items;
  }

  function UrlsOf(items: seq<Article>): set<string> { set x | x in items :: x.url }

  function NotChosen(items: seq<Article>, chosen: set<string>): seq<Article> {
    if items == [] then []
    else
      var before, item := NotChosen(items[..|items| - 1], chosen), items[|items| - 1];
      if item.url in chosen then before else before + [item]
  }

  /** The popular articles that are not in the feed yet. */
  function Spare(ranked: seq<Article>, rows: seq<Article>, source: string, since: int): seq<Article> {
    NotChosen(ValidSince(ListPopular(rows, source, since), since), UrlsOf(ranked))
  }

  ghost function Filled(ws: seq<Weight>, ranked: seq<Article>, rows: seq<Article>, source: string, since: int):
      seq<Article> {
    if |ranked| >= FEED_LIMIT then ranked
    else ranked + ArticlesOf(Top(Ranked(ws, Spare(ranked, rows, source, since)), FEED_LIMIT - |ranked|))
  }

  method FillWithPopular(ws: seq<Weight>, ranked: seq<Article>, rows: seq<Article>, source: string, since: int)
    returns (out: seq<Article>)
    requires Fits64(ws)
    ensures out == Filled(ws, ranked, rows, source, since)
  {
    if |ranked| >= FEED_LIMIT { return ranked; }
    var items := KeepValidSince(ListPopular(rows, source, since), since);
    var chosen := ChosenUrls(ranked);
    var popular := LeaveOut(items, chosen);
    popular := Dedupe(popular);
    var more := RankLimit(ws, popular, FEED_LIMIT - |ranked|);
    return ranked + more;
  }

  method ChosenUrls(ranked: seq<Article>) returns (chosen: set<string>)
    ensures chosen == UrlsOf(ranked)
  {
    chosen := {};
    for n := 0 to |ranked|
      invariant forall u :: u in chosen <==> exists k :: 0 <= k < n && ranked[k].url == u
    {
      chosen := chosen + {ranked[n].url};
    }
    forall u ensures u in chosen <==> u in UrlsOf(ranked) {
      if k :| 0 <= k < |ranked| && ranked[k].url == u { assert ranked[k] in ranked; }
    }
  }

  method LeaveOut(items: seq<Article>, chosen: set<string>) returns (rest: seq<Article>)
    ensures rest == NotChosen(items, chosen)
  {
    rest := [];
    for n := 0 to |items|
      invariant rest == NotChosen(items[..n], chosen)
    {
      assert items[..n + 1][..n] == items[..n];
      if items[n].url !in chosen { rest := rest + [items[n]]; }
    }
    assert items[..|items|] == items;
  }

  /** The tagged articles of Qiita: its window is five days. */
  function QiitaTagged(ws: seq<Weight>, rows: seq<Article>, now: int): seq<Article> {
    if TopTags(ws) == [] then []
    else ValidSince(ListTagged(rows, QIITA, TopTags(ws), now - QIITA_WINDOW), now - QIITA_WINDOW)
  }

  function ZennStored(ws: seq<Weight>, rows: seq<Article>, now: int): seq<Article> {
    if TopTags(ws) == [] then [] else ValidSince(ListTagged(rows, ZENN, TopTags(ws), now - ZENN_STORED_WINDOW), 0)
  }

  function Split(items: seq<Article>, since: int, recent: bool): seq<Article> {
    if items == [] then []
    else
      var before, item := Split(items[..|items| - 1], since, recent), items[|items| - 1];
      if recent == (item.publishedAt >= since) then before + [item] else before
  }

  /** The tagged articles of Zenn: of fourteen days, or else the older ones still stored. */
  function ZennTagged(ws: seq<Weight>, rows: seq<Article>, now: int): seq<Article> {
    var recent := Split(ZennStored(ws, rows, now), now - ZENN_WINDOW, true);
    if recent == [] then Split(ZennStored(ws, rows, now), now - ZENN_WINDOW, false) else recent
  }

  ghost function TaggedTop(ws: seq<Weight>, items: seq<Article>): seq<Article> {
    ArticlesOf(Top(Ranked(ws, items), FEED_LIMIT))
  }

  method SplitByAge(items: seq<Article>, since: int) returns (recent: seq<Article>, older: seq<Article>)
    ensures recent == Split(items, since, true) && older == Split(items, since, false)
  {
    recent, older := [], [];
    for n := 0 to |items|
      invariant recent == Split(items[..n], since, true) && older == Split(items[..n], since, false)
    {
      assert items[..n + 1][..n] == items[..n];
      if items[n].publishedAt < since { older := older + [items[n]]; } else { recent := recent + [items[n]]; }
    }
    assert items[..|items|] == items;
  }

  method GetFromDb(ws: seq<Weight>, rows: seq<Article>, now: int) returns (qiita: seq<Article>, zenn: seq<Article>)
    requires Fits64(ws)
    ensures qiita == Filled(ws, TaggedTop(ws, QiitaTagged(ws, rows, now)), rows, QIITA, now - QIITA_WINDOW)
    ensures zenn == Filled(ws, TaggedTop(ws, ZennTagged(ws, rows, now)), rows, ZENN, now - ZENN_WINDOW)
  {
    var tags := PickTags(ws);
    var qiitaRaw, recent, older: seq<Article> := [], [], [];
    if |tags| > 0 {
      qiitaRaw := KeepValidSince(ListTagged(rows, QIITA, tags, now - QIITA_WINDOW), now - QIITA_WINDOW);
      var stored := KeepValidSince(ListTagged(rows, ZENN, tags, now - ZENN_STORED_WINDOW), 0);
      recent, older := SplitByAge(stored, now - ZENN_WINDOW);
    }
    if |recent| == 0 { recent := older; }
    qiita := RankProvider(ws, qiitaRaw);
    qiita := FillWithPopular(ws, qiita, rows, QIITA, now - QIITA_WINDOW);
    zenn := RankProvider(ws, recent);
    zenn := FillWithPopular(ws, zenn, rows, ZENN, now - ZENN_WINDOW);
  }

  // ---------- what the feed holds ----------

  ghost predicate WellKept(rows: seq<Article>) {
    UrlsDistinct(rows) && forall i :: 0 <= i < |rows| ==> Valid(rows[i])
  }

  lemma UrlsStep(items: seq<Article>, item: Article)
    ensures UrlsOf(items + [item]) == UrlsOf(items) + {item.url}
  {
    forall u ensures u in UrlsOf(items + [item]) <==> u in UrlsOf(items) + {item.url} {
      if u in UrlsOf(items) {
        var x :| x in items && x.url == u;
        assert x in items + [item];
      }
      if u == item.url { assert item in items + [item]; }
    }
  }

  lemma DistinctStep(items: seq<Article>, item: Article)
    ensures UrlsDistinct(items + [item]) <==> UrlsDistinct(items) && item.url !in UrlsOf(items)
  {
    var all := items + [item];
    assert forall i :: 0 <= i < |items| ==> all[i] == items[i] && items[i] in items;
    if item.url in UrlsOf(items) {
      var x :| x in items && x.url == item.url;
      var i :| 0 <= i < |items| && items[i] == x;
      assert all[i].url == all[|items|].url;
    }
    if UrlsDistinct(all) {
      forall i, j | 0 <= i < j < |items| ensures items[i].url != items[j].url { assert all[i].url != all[j].url; }
    }
  }

  lemma {:induction false} UrlCount(items: seq<Article>)
    ensures |UrlsOf(items)| <= |items|
    ensures UrlsDistinct(items) <==> |UrlsOf(items)| == |items|
  {
    if items != [] {
      var before, item := items[..|items| - 1], items[|items| - 1];
      assert items == before + [item];
      UrlCount(before);
      UrlsStep(before, item);
      DistinctStep(before, item);
      if item.url in UrlsOf(before) { assert UrlsOf(before) + {item.url} == UrlsOf(before); }
    }
  }

  lemma SameUrls(a: seq<Article>, b: seq<Article>)
    requires Elems(a) == Elems(b)
    ensures UrlsOf(a) == UrlsOf(b)
  {
    SameMembers(a, b);
  }

  lemma PermutedUrls(a: seq<Article>, b: seq<Article>)
    requires multiset(a) == multiset(b) && UrlsDistinct(a)
    ensures UrlsDistinct(b) && UrlsOf(b) == UrlsOf(a) && |b| == |a|
  {
    SameElems(a, b);
    SameUrls(a, b);
    assert |a| == |multiset(a)| && |b| == |multiset(b)|;
    UrlCount(a);
    UrlCount(b);
  }

  lemma {:induction false} WithinKeeps(rows: seq<Article>, source: string, since: int)
    requires WellKept(rows)
    ensures WellKept(Within(rows, source, since))
    ensures forall x :: x in Within(rows, source, since) ==> x.publishedAt >= since && x in rows
  {
    if rows != [] {
      var before := rows[..|rows| - 1];
      assert rows == before + [rows[|rows| - 1]];
      WithinKeeps(before, source, since);
      var w := Within(before, source, since);
      forall i | 0 <= i < |w| ensures w[i].url != rows[|rows| - 1].url {
        assert w[i] in before;
        var k :| 0 <= k < |before| && before[k] == w[i];
        assert rows[k] == w[i];
      }
    }
  }

  lemma {:induction false} AllValidSince(items: seq<Article>, since: int)
    requires forall x :: x in items ==> Valid(x) && x.publishedAt >= since
    ensures ValidSince(items, since) == items
  {
    if items != [] {
      var before := items[..|items| - 1];
      assert items == before + [items[|items| - 1]];
      AllValidSince(before, since);
    }
  }

  lemma {:induction false} NotChosenKeeps(items: seq<Article>, chosen: set<string>)
    requires UrlsDistinct(items)
    ensures UrlsDistinct(NotChosen(items, chosen)) && UrlsOf(NotChosen(items, chosen)) == UrlsOf(items) - chosen
  {
    if items != [] {
      var before, item := items[..|items| - 1], items[|items| - 1];
      assert items == before + [item];
      DistinctStep(before, item);
      UrlsStep(before, item);
      NotChosenKeeps(before, chosen);
      DistinctStep(NotChosen(before, chosen), item);
      UrlsStep(NotChosen(before, chosen), item);
    }
  }

  lemma {:induction false} PrefixUrls(items: seq<Article>, n: nat)
    requires UrlsDistinct(items) && n <= |items|
    ensures UrlsDistinct(items[..n]) && |UrlsOf(items[..n])| == n
  {
    UrlCount(items[..n]);
  }

  /** One row a URL: deduplication keeps the URLs, and keeps the number when they are distinct already. */
  lemma DedupedUrls(items: seq<Article>)
    ensures UrlsDistinct(Deduped(items)) && UrlsOf(Deduped(items)) == UrlsOf(items)
  {
    var d := Deduped(items);
    DedupeMeans(items);
    DistinctWhenInOrder(items, d);
    forall u ensures u in UrlsOf(d) <==> u in UrlsOf(items) {
      if u in UrlsOf(d) {
        var row :| row in d && row.url == u;
        assert RowMeans(items, row);
        assert items[PositionOf(items, row.url)] in items;
      }
      if u in UrlsOf(items) {
        var x :| x in items && x.url == u;
        assert d[PositionOf(d, x.url)] in d;
      }
    }
  }

  lemma RankedUrls(ws: seq<Weight>, items: seq<Article>)
    ensures var r := ArticlesOf(Ranked(ws, items)); UrlsDistinct(r) && UrlsOf(r) == UrlsOf(items)
  {
    var r := Ranked(ws, items);
    DedupedUrls(items);
    RankedIncreases(ws, items);
    var d := Deduped(items);
    forall u ensures u in UrlsOf(ArticlesOf(r)) <==> u in UrlsOf(d) {
      if u in UrlsOf(ArticlesOf(r)) {
        var a :| a in ArticlesOf(r) && a.url == u;
        var i :| 0 <= i < |r| && ArticlesOf(r)[i] == a;
        RowOf(ws, items, r[i]);
      }
      if u in UrlsOf(d) {
        var row :| row in d && row.url == u;
        var k :| 0 <= k < |d| && d[k] == row;
        assert Scores(ws, d)[k] in Elems(r);
        var i :| 0 <= i < |r| && r[i] == Scores(ws, d)[k];
        assert ArticlesOf(r)[i] in ArticlesOf(r);
      }
    }
    assert UrlsOf(ArticlesOf(r)) == UrlsOf(d) && |r| == |d|;
    UrlCount(d);
    UrlCount(ArticlesOf(r));
  }

  /** The popular articles read: at most twenty, all of them when there are no more. */
  lemma PopularRead(rows: seq<Article>, source: string, since: int)
    requires WellKept(rows)
    ensures var all, read := Within(rows, source, since), ValidSince(ListPopular(rows, source, since), since);
            && UrlsDistinct(read) && |read| == (if |all| > 20 then 20 else |all|)
            && (|all| <= 20 ==> UrlsOf(read) == UrlsOf(all)) && |UrlsOf(all)| == |all|
  {
    var all := Within(rows, source, since);
    var sorted := SortBy(MorePopular, all);
    WithinKeeps(rows, source, since);
    PermutedUrls(all, sorted);
    SameElems(sorted, all);
    SameMembers(sorted, all);
    var read := ListPopular(rows, source, since);
    forall x | x in read ensures Valid(x) && x.publishedAt >= since {
      assert x in sorted && x in all;
      var k :| 0 <= k < |all| && all[k] == x;
    }
    AllValidSince(read, since);
    if |all| > 20 { PrefixUrls(sorted, 20); }
    UrlCount(all);
  }

  lemma Apart(a: set<string>, b: set<string>)
    ensures |a + b| == |a| + |b - a| && |b - a| >= |b| - |a|
  {
    assert a + b == a + (b - a);
    assert b == (b - a) + (a * b);
    assert a == (a - b) + (a * b);
  }

  lemma ConcatUrls(a: seq<Article>, b: seq<Article>)
    requires UrlsDistinct(a) && UrlsDistinct(b) && UrlsOf(a) * UrlsOf(b) == {}
    ensures UrlsDistinct(a + b)
  {
    forall u ensures u in UrlsOf(a + b) <==> u in UrlsOf(a) + UrlsOf(b) {
      if u in UrlsOf(a + b) { var x :| x in a + b && x.url == u; }
      if u in UrlsOf(a) {
        var x :| x in a && x.url == u;
        assert x in a + b;
      }
      if u in UrlsOf(b) {
        var x :| x in b && x.url == u;
        assert x in a + b;
      }
    }
    assert UrlsOf(a + b) == UrlsOf(a) + UrlsOf(b);
    UrlCount(a);
    UrlCount(b);
    UrlCount(a + b);
  }

  lemma TopPrefix(s: seq<Scored>, n: nat)
    ensures ArticlesOf(Top(s, n)) == ArticlesOf(s)[..if |s| > n then n else |s|]
  {
  }

  /** How many spare articles there are for the free places. */
  lemma SpareCount(ranked: seq<Article>, rows: seq<Article>, source: string, since: int)
    requires WellKept(rows) && UrlsDistinct(ranked) && |ranked| < 10
    ensures var spare := Spare(ranked, rows, source, since);
            && UrlsDistinct(spare) && UrlsOf(spare) * UrlsOf(ranked) == {} && |UrlsOf(spare)| == |spare|
            && var all := UrlsOf(ranked) + UrlsOf(Within(rows, source, since));
               Min(10, |ranked| + |spare|) == Min(10, |all|)
  {
    var spare := Spare(ranked, rows, source, since);
    var read := ValidSince(ListPopular(rows, source, since), since);
    var window := UrlsOf(Within(rows, source, since));
    PopularRead(rows, source, since);
    NotChosenKeeps(read, UrlsOf(ranked));
    UrlCount(read);
    UrlCount(spare);
    UrlCount(ranked);
    Apart(UrlsOf(ranked), UrlsOf(read));
    Apart(UrlsOf(ranked), window);
  }

  /** What is added: the best spare articles, as many as there are places. */
  lemma AddedUrls(ws: seq<Weight>, spare: seq<Article>, n: nat)
    requires UrlsDistinct(spare)
    ensures var more := ArticlesOf(Top(Ranked(ws, spare), n));
            UrlsDistinct(more) && UrlsOf(more) <= UrlsOf(spare) && |more| == if |spare| > n then n else |spare|
  {
    RankedUrls(ws, spare);
    var r := ArticlesOf(Ranked(ws, spare));
    UrlCount(r);
    UrlCount(spare);
    TopPrefix(Ranked(ws, spare), n);
    var more := ArticlesOf(Top(Ranked(ws, spare), n));
    PrefixUrls(r, |more|);
    forall u | u in UrlsOf(more) ensures u in UrlsOf(r) {
      var x :| x in more && x.url == u;
      assert x in r;
    }
  }

  function Min(a: nat, b: nat): nat { if a <= b then a else b }

  /** The feed repeats no URL, keeps the ranked articles first, and is as full as the given URLs allow. */
  ghost predicate Complete(feed: seq<Article>, ranked: seq<Article>, all: set<string>) {
    UrlsDistinct(feed) && ranked <= feed && |feed| == Min(10, |all|)
  }

  lemma FullAlready(ranked: seq<Article>, window: set<string>)
    requires UrlsDistinct(ranked) && |ranked| == 10
    ensures Complete(ranked, ranked, UrlsOf(ranked) + window)
  {
    UrlCount(ranked);
    Apart(UrlsOf(ranked), window);
  }

  lemma Extended(ranked: seq<Article>, more: seq<Article>, all: set<string>)
    requires UrlsDistinct(ranked) && UrlsDistinct(more) && UrlsOf(more) * UrlsOf(ranked) == {}
    requires |ranked| + |more| == Min(10, |all|)
    ensures Complete(ranked + more, ranked, all)
  {
    ConcatUrls(ranked, more);
  }

  lemma FilledUp(ws: seq<Weight>, ranked: seq<Article>, spare: seq<Article>, all: set<string>, feed: seq<Article>)
    requires UrlsDistinct(ranked) && UrlsDistinct(spare) && |ranked| < 10 && UrlsOf(spare) * UrlsOf(ranked) == {}
    requires Min(10, |ranked| + |spare|) == Min(10, |all|)
    requires feed == ranked + ArticlesOf(Top(Ranked(ws, spare), 10 - |ranked|))
    ensures Complete(feed, ranked, all)
  {
    AddedUrls(ws, spare, 10 - |ranked|);
    Extended(ranked, ArticlesOf(Top(Ranked(ws, spare), 10 - |ranked|)), all);
  }

  lemma FillShort(ws: seq<Weight>, ranked: seq<Article>, rows: seq<Article>, source: string, since: int)
    requires WellKept(rows) && UrlsDistinct(ranked) && |ranked| < 10
    ensures Complete(Filled(ws, ranked, rows, source, since), ranked,
              UrlsOf(ranked) + UrlsOf(Within(rows, source, since)))
  {
    var spare := Spare(ranked, rows, source, since);
    var all := UrlsOf(ranked) + UrlsOf(Within(rows, source, since));
    assert UrlsDistinct(spare) && UrlsOf(spare) * UrlsOf(ranked) == {}
        && Min(10, |ranked| + |spare|) == Min(10, |all|) by {
      SpareCount(ranked, rows, source, since);
    }
    FilledUp(ws, ranked, spare, all, Filled(ws, ranked, rows, source, since));
  }

  /** Free places are filled as far as all stored articles of the window allow, although only twenty popular rows are
      read. */
  lemma FillIsComplete(ws: seq<Weight>, ranked: seq<Article>, rows: seq<Article>, source: string, since: int)
    requires WellKept(rows) && UrlsDistinct(ranked) && |ranked| <= 10
    ensures Complete(Filled(ws, ranked, rows, source, since), ranked,
              UrlsOf(ranked) + UrlsOf(Within(rows, source, since)))
  {
    if |ranked| < 10 {
      FillShort(ws, ranked, rows, source, since);
    } else {
      FullAlready(ranked, UrlsOf(Within(rows, source, since)));
    }
  }

  /** Both lists of the stored feed, for any stored articles and interests. */
  lemma StoredFeedIsComplete(ws: seq<Weight>, items: seq<Article>, rows: seq<Article>, source: string, since: int)
    requires WellKept(rows)
    ensures var ranked := TaggedTop(ws, items);
            Complete(Filled(ws, ranked, rows, source, since), ranked,
              UrlsOf(ranked) + UrlsOf(Within(rows, source, since)))
  {
    var ranked := TaggedTop(ws, items);
    RankedUrls(ws, items);
    TopPrefix(Ranked(ws, items), 10);
    PrefixUrls(ArticlesOf(Ranked(ws, items)), |ranked|);
    FillIsComplete(ws, ranked, rows, source, since);
  }
}
