/** What the stored feed is made of, in the fields of the stored rows. */
module StoredMeaning {
  import opened Tags
  import opened Sorting
  import opened Interest
  import opened Score
  import opened Feed
  import opened FeedSearch
  import opened FeedDb
  import opened FeedMeaning

  // ---------- the first of an ordered query ----------

  /** The rows of a limited query: some of `all`, in order, and one that is left out comes after as many as allowed. */
  ghost predicate FirstOf<T(!new)>(less: (T, T) -> bool, all: seq<T>, limit: nat, shown: seq<T>) {
    && |shown| <= limit && Increasing(less, shown)
    && (forall x :: x in shown ==> x in all)
    && (forall x :: x in all && x !in shown ==> |shown| == limit && forall y :: y in shown ==> less(y, x))
  }

  lemma TopOfSorted<T(!new)>(less: (T, T) -> bool, all: seq<T>, limit: nat)
    requires StrictTotalOn(less, Elems(all)) && Distinct(all)
    ensures FirstOf(less, all, limit, Top(SortBy(less, all), limit))
  {
    var sorted := SortBy(less, all);
    var shown := Top(sorted, limit);
    SortIncreasing(less, all);
    SameElems(sorted, all);
    SameMembers(sorted, all);
    forall x | x in all && x !in shown ensures |shown| == limit && forall y :: y in shown ==> less(y, x) {
      var j :| 0 <= j < |sorted| && sorted[j] == x;
      assert forall k :: 0 <= k < |shown| ==> shown[k] == sorted[k] && shown[k] in shown;
      assert j >= |shown|;
      forall y | y in shown ensures less(y, x) {
        var i :| 0 <= i < |shown| && shown[i] == y;
      }
    }
  }

  // ---------- the two queries ----------

  ghost predicate IdsDiffer(rows: seq<Article>) { forall i, j :: 0 <= i < j < |rows| ==> rows[i].id != rows[j].id }

  lemma {:induction false} WithinHas(rows: seq<Article>, source: string, since: int)
    ensures forall x :: x in Within(rows, source, since) <==> x in rows && x.source == source && x.publishedAt >= since
    ensures IdsDiffer(rows) ==> IdsDiffer(Within(rows, source, since))
  {
    if rows != [] {
      var before, last := rows[..|rows| - 1], rows[|rows| - 1];
      assert rows == before + [last];
      WithinHas(before, source, since);
      if IdsDiffer(rows) { NewIdDiffers(before, last, Within(before, source, since)); }
    }
  }

  lemma NewIdDiffers(before: seq<Article>, last: Article, kept: seq<Article>)
    requires IdsDiffer(before + [last]) && forall x :: x in kept ==> x in before
    ensures IdsDiffer(before) && (IdsDiffer(kept) ==> IdsDiffer(kept + [last]))
  {
    var rows := before + [last];
    assert forall i :: 0 <= i < |before| ==> rows[i] == before[i];
    forall i | 0 <= i < |kept| ensures kept[i].id != last.id {
      assert kept[i] in before;
      var k :| 0 <= k < |before| && before[k] == kept[i];
      assert rows[k] == kept[i] && rows[|before|] == last;
    }
  }

  /** The row carries one of the tags, up to letter case and surrounding space. */
  predicate CarriesOne(row: Article, tags: seq<string>) {
    exists t, w :: t in row.tags && w in tags && NormalizeTag(t) == NormalizeTag(w) && NormalizeTag(w) != ""
  }

  lemma CarriesMeans(row: Article, tags: seq<string>)
    ensures KeysOf(row.tags) * KeysOf(tags) != {} <==> CarriesOne(row, tags)
  {
    if k :| k in KeysOf(row.tags) * KeysOf(tags) {
      assert exists t :: t in row.tags && NormalizeTag(t) == k;
    }
    if t, w :| t in row.tags && w in tags && NormalizeTag(t) == NormalizeTag(w) && NormalizeTag(w) != "" {
      assert NormalizeTag(t) in KeysOf(row.tags) * KeysOf(tags);
    }
  }

  lemma {:induction false} WithTagHas(rows: seq<Article>, tags: seq<string>)
    ensures forall x :: x in WithTag(rows, KeysOf(tags)) <==> x in rows && CarriesOne(x, tags)
    ensures IdsDiffer(rows) ==> IdsDiffer(WithTag(rows, KeysOf(tags)))
  {
    if rows != [] {
      var before, last := rows[..|rows| - 1], rows[|rows| - 1];
      assert rows == before + [last];
      WithTagHas(before, tags);
      CarriesMeans(last, tags);
      if IdsDiffer(rows) { NewIdDiffers(before, last, WithTag(before, KeysOf(tags))); }
    }
  }

  lemma IdsOrder(rows: seq<Article>)
    requires IdsDiffer(rows)
    ensures Distinct(rows) && StrictTotalOn(Newer, Elems(rows)) && StrictTotalOn(MorePopular, Elems(rows))
  {
    forall x, y | x in Elems(rows) && y in Elems(rows) && x != y ensures x.id != y.id {
      var i :| 0 <= i < |rows| && rows[i] == x;
      var j :| 0 <= j < |rows| && rows[j] == y;
    }
  }

  predicate Later(x: Article, y: Article) {
    x.publishedAt >= y.publishedAt && (x.publishedAt == y.publishedAt ==> x.id > y.id)
  }

  predicate MoreLiked(x: Article, y: Article) { x.likes >= y.likes && (x.likes == y.likes ==> Later(x, y)) }

  ghost predicate IsTagged(rows: seq<Article>, source: string, tags: seq<string>, since: int, x: Article) {
    x in rows && x.source == source && x.publishedAt >= since && CarriesOne(x, tags)
  }

  /** The tagged articles read: the newest 500 of the source since an instant that carry one of the tags. */
  lemma TaggedRead(rows: seq<Article>, source: string, tags: seq<string>, since: int)
    requires IdsDiffer(rows)
    ensures var read := ListTagged(rows, source, tags, since);
            && |read| <= 500 && (forall i, j :: 0 <= i < j < |read| ==> Later(read[i], read[j]))
            && (forall x :: x in read ==> IsTagged(rows, source, tags, since, x))
            && (forall x :: IsTagged(rows, source, tags, since, x) && x !in read ==>
                  |read| == 500 && forall y :: y in read ==> Later(y, x))
  {
    var within := Within(rows, source, since);
    WithinHas(rows, source, since);
    WithTagHas(within, tags);
    var all := WithTag(within, KeysOf(tags));
    IdsOrder(all);
    TopOfSorted(Newer, all, 500);
    assert FirstOf(Newer, all, 500, ListTagged(rows, source, tags, since));
  }

  ghost predicate IsRecent(rows: seq<Article>, source: string, since: int, x: Article) {
    x in rows && x.source == source && x.publishedAt >= since
  }

  /** The popular articles read: the twenty most liked of the source since an instant. */
  lemma PopularRead20(rows: seq<Article>, source: string, since: int)
    requires IdsDiffer(rows)
    ensures var read := ListPopular(rows, source, since);
            && |read| <= 20 && (forall i, j :: 0 <= i < j < |read| ==> MoreLiked(read[i], read[j]))
            && (forall x :: x in read ==> IsRecent(rows, source, since, x))
            && (forall x :: IsRecent(rows, source, since, x) && x !in read ==>
                  |read| == 20 && forall y :: y in read ==> MoreLiked(y, x))
  {
    var all := Within(rows, source, since);
    WithinHas(rows, source, since);
    IdsOrder(all);
    TopOfSorted(MorePopular, all, 20);
    assert FirstOf(MorePopular, all, 20, ListPopular(rows, source, since));
  }

  // ---------- the candidates ----------

  lemma {:induction false} ValidSinceHas(items: seq<Article>, since: int)
    ensures forall x :: x in ValidSince(items, since) <==> x in items && Valid(x) && x.publishedAt >= since
  {
    if items != [] {
      assert items == items[..|items| - 1] + [items[|items| - 1]];
      ValidSinceHas(items[..|items| - 1], since);
    }
  }

  lemma {:induction false} SplitHas(items: seq<Article>, since: int, recent: bool)
    ensures forall x :: x in Split(items, since, recent) <==> x in items && (recent <==> x.publishedAt >= since)
  {
    if items != [] {
      assert items == items[..|items| - 1] + [items[|items| - 1]];
      SplitHas(items[..|items| - 1], since, recent);
    }
  }

  lemma {:induction false} NotChosenHas(items: seq<Article>, chosen: set<string>)
    ensures forall x :: x in NotChosen(items, chosen) <==> x in items && x.url !in chosen
  {
    if items != [] {
      assert items == items[..|items| - 1] + [items[|items| - 1]];
      NotChosenHas(items[..|items| - 1], chosen);
    }
  }

  const THIRTY_DAYS := 30 * 24 * 60 * 60 * 1_000_000_000

  /** Qiita's candidates: the valid tagged articles of the last five days, none without an interest. */
  lemma QiitaStored(ws: seq<Weight>, rows: seq<Article>, now: int, x: Article)
    ensures x in QiitaTagged(ws, rows, now) <==>
            && TopTags(ws) != [] && Valid(x) && x.publishedAt >= now - FIVE_DAYS
            && x in ListTagged(rows, QIITA, TopTags(ws), now - FIVE_DAYS)
  {
    ValidSinceHas(ListTagged(rows, QIITA, TopTags(ws), now - QIITA_WINDOW), now - QIITA_WINDOW);
  }

  ghost predicate ZennKept(ws: seq<Weight>, rows: seq<Article>, now: int, x: Article) {
    && TopTags(ws) != [] && Valid(x) && x.publishedAt >= 0
    && x in ListTagged(rows, ZENN, TopTags(ws), now - THIRTY_DAYS)
  }

  /** Zenn's candidates: the valid tagged articles of the last fortnight or, when there is none, the older ones of the
      thirty days stored. */
  lemma ZennStoredCandidates(ws: seq<Weight>, rows: seq<Article>, now: int, x: Article)
    ensures var recent := exists y :: ZennKept(ws, rows, now, y) && y.publishedAt >= now - FORTNIGHT;
            x in ZennTagged(ws, rows, now) <==>
            ZennKept(ws, rows, now, x) && (recent <==> x.publishedAt >= now - FORTNIGHT)
  {
    var stored := ZennStored(ws, rows, now);
    ValidSinceHas(ListTagged(rows, ZENN, TopTags(ws), now - ZENN_STORED_WINDOW), 0);
    assert forall y :: y in stored <==> ZennKept(ws, rows, now, y);
    var found := Split(stored, now - ZENN_WINDOW, true);
    SplitHas(stored, now - ZENN_WINDOW, true);
    SplitHas(stored, now - ZENN_WINDOW, false);
    if found != [] { assert found[0] in found; }
    if y :| ZennKept(ws, rows, now, y) && y.publishedAt >= now - FORTNIGHT { assert y in found; }
  }

  /** The feed of a provider: the ten best of its candidates and then, for what is free, the best of the popular
      articles read that are not shown yet. */
  ghost predicate Shows(ws: seq<Weight>, items: seq<Article>, rows: seq<Article>, source: string, since: int,
                        feed: seq<Article>, first: seq<Scored>, spare: seq<Article>, rest: seq<Scored>)
  {
    && feed == ArticlesOf(first) + ArticlesOf(rest)
    && BestOf(ws, items, first, 10) && BestOf(ws, spare, rest, 10 - |first|)
    && (forall x :: x in spare <==>
          && x in ListPopular(rows, source, since) && Valid(x) && x.publishedAt >= since
          && !HasUrl(first, x.url))
  }

  lemma StoredFeedShows(ws: seq<Weight>, items: seq<Article>, rows: seq<Article>, source: string, since: int)
    returns (first: seq<Scored>, spare: seq<Article>, rest: seq<Scored>)
    ensures Shows(ws, items, rows, source, since, Filled(ws, TaggedTop(ws, items), rows, source, since),
                  first, spare, rest)
  {
    first := BestRows(ws, items, 10);
    spare := Spare(ArticlesOf(first), rows, source, since);
    rest := BestRows(ws, spare, 10 - |first|);
    SpareHas(first, rows, source, since);
    FilledIs(ws, ArticlesOf(first), rows, source, since, spare, rest);
  }

  lemma BestRows(ws: seq<Weight>, items: seq<Article>, limit: nat) returns (top: seq<Scored>)
    ensures top == Top(Ranked(ws, items), limit) && BestOf(ws, items, top, limit)
  {
    top := Top(Ranked(ws, items), limit);
    TopIsBest(ws, items, limit);
  }

  lemma FilledIs(ws: seq<Weight>, ranked: seq<Article>, rows: seq<Article>, source: string, since: int,
                 spare: seq<Article>, rest: seq<Scored>)
    requires |ranked| <= 10 && spare == Spare(ranked, rows, source, since)
    requires rest == Top(Ranked(ws, spare), 10 - |ranked|)
    ensures Filled(ws, ranked, rows, source, since) == ranked + ArticlesOf(rest)
  {
  }

  lemma SpareHas(first: seq<Scored>, rows: seq<Article>, source: string, since: int)
    ensures forall x :: x in Spare(ArticlesOf(first), rows, source, since) <==>
              && x in ListPopular(rows, source, since) && Valid(x) && x.publishedAt >= since
              && !HasUrl(first, x.url)
  {
    ValidSinceHas(ListPopular(rows, source, since), since);
    NotChosenHas(ValidSince(ListPopular(rows, source, since), since), UrlsOf(ArticlesOf(first)));
    UrlsShown(first);
  }

  lemma UrlsShown(first: seq<Scored>)
    ensures forall u :: u in UrlsOf(ArticlesOf(first)) <==> HasUrl(first, u)
  {
    var a := ArticlesOf(first);
    forall u ensures u in UrlsOf(a) <==> HasUrl(first, u) {
      if x :| x in a && x.url == u { var i :| 0 <= i < |a| && a[i] == x; }
      if i :| 0 <= i < |first| && first[i].article.url == u { assert a[i] in a; }
    }
  }
}
