/** What a reader finds in a feed, in the fields of the articles: how they are ordered, which are shown, and where they
    come from. */
module FeedMeaning {
  import opened Wrappers
  import opened Tags
  import opened Sorting
  import opened Interest
  import opened Score
  import opened Feed
  import opened FeedSearch

  // ---------- the order ----------

  /** x may stand before y: no lower score; of two without points no fewer likes; then not older; then by source and
      URL. */
  ghost predicate NotBelow(x: Scored, y: Scored) {
    var a, b := x.article, y.article;
    && x.score >= y.score
    && (x.score == 0 && y.score == 0 ==> a.likes >= b.likes)
    && (x.score == y.score && (x.score == 0 ==> a.likes == b.likes) ==>
          && a.publishedAt >= b.publishedAt
          && (a.publishedAt == b.publishedAt ==>
                LexLess(a.source, b.source) || (a.source == b.source && LexLess(a.url, b.url))))
  }

  lemma BeforeNotBelow(x: Scored, y: Scored)
    requires Before(x, y)
    ensures NotBelow(x, y)
  {
  }

  /** One row for each URL of the items: its first item, with the names of all of them, and its score. */
  ghost predicate RowFor(ws: seq<Weight>, items: seq<Article>, x: Scored) {
    RowMeans(items, x.article) && x.score == ScoreOf(ws, x.article)
  }

  ghost predicate Ordered(rows: seq<Scored>) {
    forall i, j :: 0 <= i < j < |rows| ==> NotBelow(rows[i], rows[j]) && rows[i].article.url != rows[j].article.url
  }

  ghost predicate HasUrl(rows: seq<Scored>, url: string) {
    exists i :: 0 <= i < |rows| && rows[i].article.url == url
  }

  lemma RankedInOrder(ws: seq<Weight>, items: seq<Article>)
    ensures Ordered(Ranked(ws, items))
  {
    RankedIncreases(ws, items);
    var r := Ranked(ws, items);
    forall i, j | 0 <= i < j < |r| ensures NotBelow(r[i], r[j]) && r[i].article.url != r[j].article.url {
      assert Before(r[i], r[j]);
      BeforeNotBelow(r[i], r[j]);
      BeforeIrreflexive(r[i]);
      RowOf(ws, items, r[i]);
      RowOf(ws, items, r[j]);
      if r[i].article.url == r[j].article.url { SameRow(items, r[i].article, r[j].article); }
    }
  }

  lemma SameRow(items: seq<Article>, a: Article, b: Article)
    requires a in Deduped(items) && b in Deduped(items) && a.url == b.url
    ensures a == b
  {
    DedupeMeans(items);
    DistinctWhenInOrder(items, Deduped(items));
    var i :| 0 <= i < |Deduped(items)| && Deduped(items)[i] == a;
    var j :| 0 <= j < |Deduped(items)| && Deduped(items)[j] == b;
  }

  lemma RankedRow(ws: seq<Weight>, items: seq<Article>, x: Scored)
    requires x in Ranked(ws, items)
    ensures RowFor(ws, items, x)
  {
    RowOf(ws, items, x);
    DedupeMeans(items);
  }

  lemma RankedCovers(ws: seq<Weight>, items: seq<Article>, item: Article) returns (i: nat)
    requires item in items
    ensures i < |Ranked(ws, items)| && Ranked(ws, items)[i].article.url == item.url
  {
    DedupeMeans(items);
    RankedIncreases(ws, items);
    var k := PositionOf(Deduped(items), item.url);
    var x := Scores(ws, Deduped(items))[k];
    assert x in Elems(Scores(ws, Deduped(items)));
    assert x in Elems(Ranked(ws, items));
    i :| 0 <= i < |Ranked(ws, items)| && Ranked(ws, items)[i] == x;
  }

  // ---------- the best of some items ----------

  /** The item's URL is not shown because the list is full of rows that none of them ranks below it. */
  ghost predicate Outranked(ws: seq<Weight>, items: seq<Article>, url: string, shown: seq<Scored>, limit: nat) {
    && |shown| == limit
    && exists y: Scored :: y.article.url == url && RowFor(ws, items, y)
                   && forall k :: 0 <= k < |shown| ==> NotBelow(shown[k], y)
  }

  /** At most `limit` rows of these items, each URL once and in order, and nothing better left out. */
  ghost predicate BestOf(ws: seq<Weight>, items: seq<Article>, shown: seq<Scored>, limit: nat) {
    && |shown| <= limit && Ordered(shown)
    && (forall k :: 0 <= k < |shown| ==> RowFor(ws, items, shown[k]))
    && (forall item :: item in items ==>
          HasUrl(shown, item.url) || Outranked(ws, items, item.url, shown, limit))
  }

  /** What ranking and limiting come to. */
  lemma TopIsBest(ws: seq<Weight>, items: seq<Article>, limit: nat)
    ensures BestOf(ws, items, Top(Ranked(ws, items), limit), limit)
  {
    var r := Ranked(ws, items);
    var shown := Top(r, limit);
    RankedInOrder(ws, items);
    forall k | 0 <= k < |shown| ensures RowFor(ws, items, shown[k]) { RankedRow(ws, items, r[k]); }
    forall item | item in items ensures HasUrl(shown, item.url) || Outranked(ws, items, item.url, shown, limit) {
      var i := RankedCovers(ws, items, item);
      if i < |shown| {
        assert shown[i].article.url == item.url;
      } else {
        RankedRow(ws, items, r[i]);
        assert forall k :: 0 <= k < |shown| ==> NotBelow(shown[k], r[i]);
      }
    }
  }

  // ---------- the instant search ----------

  const FIVE_DAYS := 5 * 24 * 60 * 60 * 1_000_000_000
  const FORTNIGHT := 14 * 24 * 60 * 60 * 1_000_000_000

  /** A valid item of an answer of this provider. */
  predicate Answers(b: Batch, p: Provider, item: Article) {
    b.provider == p && b.items.Some? && item in b.items.value && Valid(item)
  }

  /** The item of a search for a tag carries that tag as well. */
  ghost predicate Tagged(item: Article, tag: string, x: Article) {
    Bare(x) == Bare(item) && NamesOf(x.tags) == KeysOf(item.tags) + KeysOf([tag])
  }

  /** Qiita's candidates are the valid items of its answers of the last five days. */
  lemma QiitaCandidates(bs: seq<Batch>, now: int, x: Article)
    ensures x in QiitaItems(bs, now) <==>
            exists b :: b in bs && Answers(b, QiitaApi, x) && x.publishedAt >= now - FIVE_DAYS
  {
    CollectHas(bs, QiitaRaw, now, x);
    if b :| b in bs && Brings(b, QiitaRaw, now, x) {
      var item :| item in b.items.value && PileOf(b, item, now) == Some(QiitaRaw) && Placed(b, item) == x;
      assert Answers(b, QiitaApi, x);
    }
    if b :| b in bs && Answers(b, QiitaApi, x) && x.publishedAt >= now - FIVE_DAYS {
      assert PileOf(b, x, now) == Some(QiitaRaw) && Placed(b, x) == x;
      assert Brings(b, QiitaRaw, now, x);
    }
  }

  /** A Zenn search for a tag found the item, in the last fortnight or before. */
  ghost predicate FoundByTag(bs: seq<Batch>, now: int, recent: bool, x: Article) {
    exists b, item :: b in bs && Answers(b, ZennApi, item) && !b.popular && Tagged(item, b.tag, x)
                      && (recent <==> item.publishedAt >= now - FORTNIGHT)
  }

  lemma PlacedTagged(b: Batch, item: Article)
    requires b.provider == ZennApi && !b.popular
    ensures Tagged(item, b.tag, Placed(b, item))
  {
    MergedNames(item.tags, [b.tag]);
  }

  lemma TagSearched(bs: seq<Batch>, now: int, recent: bool)
    ensures forall x :: x in Collect(bs, if recent then ZennFresh else ZennOld, now) ==> FoundByTag(bs, now, recent, x)
    ensures (exists x :: FoundByTag(bs, now, recent, x)) ==>
              Collect(bs, if recent then ZennFresh else ZennOld, now) != []
  {
    var pile := if recent then ZennFresh else ZennOld;
    forall x | x in Collect(bs, pile, now) ensures FoundByTag(bs, now, recent, x) {
      CollectHas(bs, pile, now, x);
      var b :| b in bs && Brings(b, pile, now, x);
      var item :| item in b.items.value && PileOf(b, item, now) == Some(pile) && Placed(b, item) == x;
      PlacedTagged(b, item);
      assert Answers(b, ZennApi, item);
    }
    if x :| FoundByTag(bs, now, recent, x) {
      var b, item :| b in bs && Answers(b, ZennApi, item) && !b.popular && Tagged(item, b.tag, x)
                     && (recent <==> item.publishedAt >= now - FORTNIGHT);
      Arrives(bs, b, item, pile, now);
    }
  }

  lemma Arrives(bs: seq<Batch>, b: Batch, item: Article, pile: Pile, now: int)
    requires b in bs && b.items.Some? && item in b.items.value && PileOf(b, item, now) == Some(pile)
    ensures Placed(b, item) in Collect(bs, pile, now)
  {
    CollectHas(bs, pile, now, Placed(b, item));
    assert Brings(b, pile, now, Placed(b, item));
  }

  /** What a search for a tag found, recent or old, is a candidate under its URL. */
  ghost predicate AllFound(bs: seq<Batch>, now: int, recent: bool, candidates: seq<Article>) {
    forall b, item :: b in bs && Answers(b, ZennApi, item) && !b.popular
                      && (recent <==> item.publishedAt >= now - FORTNIGHT)
      ==> exists x :: x in candidates && Tagged(item, b.tag, x)
  }

  ghost predicate AllPopular(bs: seq<Batch>, now: int, candidates: seq<Article>) {
    forall b, item :: b in bs && Answers(b, ZennApi, item) && b.popular && item.publishedAt >= now - FORTNIGHT
      ==> item in candidates
  }

  ghost predicate IsPopular(bs: seq<Batch>, now: int, x: Article) {
    exists b :: b in bs && Answers(b, ZennApi, x) && b.popular && x.publishedAt >= now - FORTNIGHT
  }

  /** Zenn's candidates: what the searches for tags found in the last fortnight or, if that is nothing, what they found
      before, and besides the popular articles of the last fortnight. */
  lemma ZennCandidates(bs: seq<Batch>, now: int)
    ensures var recent := exists x :: FoundByTag(bs, now, true, x);
            && AllFound(bs, now, recent, ZennItems(bs, now)) && AllPopular(bs, now, ZennItems(bs, now))
            && forall x :: x in ZennItems(bs, now) ==> FoundByTag(bs, now, recent, x) || IsPopular(bs, now, x)
  {
    TagSearched(bs, now, true);
    TagSearched(bs, now, false);
    var found := Collect(bs, ZennFresh, now);
    if found != [] { assert FoundByTag(bs, now, true, found[0]); }
    var recent := exists x :: FoundByTag(bs, now, true, x);
    var pile := if recent then ZennFresh else ZennOld;
    assert ZennItems(bs, now) == Collect(bs, pile, now) + Collect(bs, ZennPopular, now);
    forall b, item | b in bs && Answers(b, ZennApi, item) && !b.popular
                     && (recent <==> item.publishedAt >= now - FORTNIGHT)
      ensures exists x :: x in ZennItems(bs, now) && Tagged(item, b.tag, x) {
      Arrives(bs, b, item, pile, now);
      PlacedTagged(b, item);
    }
    forall b, item | b in bs && Answers(b, ZennApi, item) && b.popular && item.publishedAt >= now - FORTNIGHT
      ensures item in ZennItems(bs, now) {
      Arrives(bs, b, item, ZennPopular, now);
    }
    forall x | x in Collect(bs, ZennPopular, now) ensures IsPopular(bs, now, x) { PopularOrigin(bs, now, x); }
  }

  lemma PopularOrigin(bs: seq<Batch>, now: int, x: Article)
    requires x in Collect(bs, ZennPopular, now)
    ensures IsPopular(bs, now, x)
  {
    CollectHas(bs, ZennPopular, now, x);
    var b :| b in bs && Brings(b, ZennPopular, now, x);
    var item :| item in b.items.value && PileOf(b, item, now) == Some(ZennPopular) && Placed(b, item) == x;
    assert Answers(b, ZennApi, x);
  }

  /** A feed shows the ten best of each provider's candidates. */
  lemma SearchShowsTheBest(ws: seq<Weight>, bs: seq<Batch>, now: int)
    requires Search(ws, bs, now).Ok?
    ensures var feed := Search(ws, bs, now).value;
            BestOf(ws, QiitaItems(bs, now), feed.qiita, 10) && BestOf(ws, ZennItems(bs, now), feed.zenn, 10)
  {
    TopIsBest(ws, QiitaItems(bs, now), 10);
    TopIsBest(ws, ZennItems(bs, now), 10);
  }

  /** A provider is warned about exactly when one of its answers failed or held an invalid item, Qiita first. */
  lemma WarnedExactly(ws: seq<Weight>, bs: seq<Batch>, now: int, p: Provider)
    requires Search(ws, bs, now).Ok?
    ensures var w := Search(ws, bs, now).value.warnings;
            && (p in w <==> exists b :: b in bs && b.provider == p
                                        && (b.items.None? || exists item :: item in b.items.value && !Valid(item)))
            && (w == [] || w == [p] || w == [QiitaApi, ZennApi] || p !in w)
  {
    forall b | b in bs
      ensures Failing(b, p) <==>
                b.provider == p && (b.items.None? || exists item :: item in b.items.value && !Valid(item)) {
      if b.items.Some? && !AllValid(b) {
        var i :| 0 <= i < |b.items.value| && !Valid(b.items.value[i]);
        assert b.items.value[i] in b.items.value;
      }
    }
  }

  /** With valid items the search fails exactly when each provider was asked and none of them ever answered. */
  lemma FailsExactly(ws: seq<Weight>, bs: seq<Batch>, now: int)
    requires forall b :: b in bs ==> AllValid(b)
    ensures Search(ws, bs, now) == Err(AllProvidersFailed) <==>
            && (forall b :: b in bs ==> b.items.None?)
            && (exists b :: b in bs && b.provider == QiitaApi) && (exists b :: b in bs && b.provider == ZennApi)
  {
    DownWhenValid(bs, QiitaApi);
    DownWhenValid(bs, ZennApi);
    forall b | b in bs ensures b.provider == QiitaApi || b.provider == ZennApi { }
  }

  lemma DownWhenValid(bs: seq<Batch>, p: Provider)
    requires forall b :: b in bs ==> AllValid(b)
    ensures Down(bs, p) <==>
            (exists b :: b in bs && b.provider == p) && forall b :: b in bs && b.provider == p ==> b.items.None?
  {
    SuccessOf(bs, p);
  }

  // ---------- what is never shown ----------

  /** From one of the two providers, with a title, an address over HTTPS, a number of likes, an instant, and no blank
      tag. */
  ghost predicate Sound(a: Article) {
    && (a.source == "Qiita" || a.source == "Zenn") && NormalizeTag(a.title) != "" && NormalizeTag(a.url) != ""
    && HttpsUrl(a.url) && a.likes as int >= 0 && a.publishedAt != 0
    && forall t :: t in a.tags ==> NormalizeTag(t) != ""
  }

  /** Items that are not sound are exactly the invalid ones. */
  lemma InvalidExactly(a: Article)
    ensures Valid(a) <==> Sound(a)
  {
    if Valid(a) {
      forall t | t in a.tags ensures NormalizeTag(t) != "" {
        var i :| 0 <= i < |a.tags| && a.tags[i] == t;
      }
    }
  }

  lemma RowIsSound(items: seq<Article>, row: Article)
    requires RowMeans(items, row) && forall x :: x in items ==> Sound(x)
    ensures Sound(row)
  {
    var first := items[PositionOf(items, row.url)];
    assert first in items && first.source == Bare(first).source == Bare(row).source;
    assert first.title == Bare(first).title && first.likes == Bare(first).likes;
    assert first.publishedAt == Bare(first).publishedAt && first.url == Bare(first).url;
    forall t | t in row.tags ensures NormalizeTag(t) != "" { assert NormalizeTag(t) in NamesAt(items, row.url); }
  }

  lemma CandidatesSound(bs: seq<Batch>, pile: Pile, now: int)
    ensures forall x :: x in Collect(bs, pile, now) ==> Sound(x)
  {
    forall x | x in Collect(bs, pile, now) ensures Sound(x) {
      CollectHas(bs, pile, now, x);
      var b :| b in bs && Brings(b, pile, now, x);
      var item :| item in b.items.value && PileOf(b, item, now) == Some(pile) && Placed(b, item) == x;
      InvalidExactly(item);
      FirstsKeepsNames(item.tags + [b.tag]);
      forall t | t in x.tags ensures NormalizeTag(t) != "" {
        if x != item { assert NormalizeTag(t) in NamesOf(Firsts(item.tags + [b.tag])); }
      }
    }
  }

  /** Whatever the providers send, only sound articles are shown. */
  lemma ShownAreSound(ws: seq<Weight>, bs: seq<Batch>, now: int)
    requires Search(ws, bs, now).Ok?
    ensures var feed := Search(ws, bs, now).value;
            && (forall k :: 0 <= k < |feed.qiita| ==> Sound(feed.qiita[k].article))
            && (forall k :: 0 <= k < |feed.zenn| ==> Sound(feed.zenn[k].article))
  {
    var feed := Search(ws, bs, now).value;
    SearchShowsTheBest(ws, bs, now);
    forall pile { CandidatesSound(bs, pile, now); }
    forall k | 0 <= k < |feed.qiita| ensures Sound(feed.qiita[k].article) {
      assert RowFor(ws, QiitaItems(bs, now), feed.qiita[k]);
      RowIsSound(QiitaItems(bs, now), feed.qiita[k].article);
    }
    forall k | 0 <= k < |feed.zenn| ensures Sound(feed.zenn[k].article) {
      assert RowFor(ws, ZennItems(bs, now), feed.zenn[k]);
      RowIsSound(ZennItems(bs, now), feed.zenn[k].article);
    }
  }
}
