/** Merging, deduplicating and ranking of a provider's articles
    (server/internal/recommendation/service.go, mergeTags, dedupe and rankLimit). */
module Feed {
  import opened Tags
  import opened Sorting
  import opened Interest
  import opened Score

  // ---------- tags ----------

  /** The tags whose non-blank name occurs for the first time, in order. */
  function Firsts(tags: seq<string>): seq<string> {
    if tags == [] then []
    else
      var before, tag := tags[..|tags| - 1], tags[|tags| - 1];
      if NormalizeTag(tag) == "" || NormalizeTag(tag) in NamesOf(before) then Firsts(before) else Firsts(before) + [tag]
  }

  /** Nothing but repetitions and blanks is lost, and no name stays twice. */
  lemma {:induction false} FirstsKeepsNames(tags: seq<string>)
    ensures NamesOf(Firsts(tags)) == KeysOf(tags)
    ensures forall i, j :: 0 <= i < j < |Firsts(tags)| ==>
              NormalizeTag(Firsts(tags)[i]) != NormalizeTag(Firsts(tags)[j])
  {
    if tags != [] {
      var before, tag := tags[..|tags| - 1], tags[|tags| - 1];
      FirstsKeepsNames(before);
      assert tags == before + [tag];
      assert KeysOf(tags) == KeysOf(before) + (if NormalizeTag(tag) == "" then {} else {NormalizeTag(tag)});
      assert NamesOf(Firsts(before) + [tag]) == NamesOf(Firsts(before)) + {NormalizeTag(tag)};
      forall i | 0 <= i < |Firsts(before)| ensures NormalizeTag(Firsts(before)[i]) in NamesOf(before) {
        assert Firsts(before)[i] in Firsts(before);
        assert NormalizeTag(Firsts(before)[i]) in KeysOf(before);
      }
    }
  }

  /** The tag at k is the first one with its name, and the name is not blank. */
  ghost predicate FirstAt(tags: seq<string>, k: nat) {
    && k < |tags| && NormalizeTag(tags[k]) != ""
    && forall i :: 0 <= i < k ==> NormalizeTag(tags[i]) != NormalizeTag(tags[k])
  }

  /** The kept tags are those, as they are written there and in their order. */
  ghost predicate Picks(tags: seq<string>, at: seq<nat>, out: seq<string>) {
    && |at| == |out| && (forall j, k :: 0 <= j < k < |at| ==> at[j] < at[k])
    && (forall j :: 0 <= j < |at| ==> FirstAt(tags, at[j]) && out[j] == tags[at[j]])
  }

  lemma {:induction false} FirstsInOrder(tags: seq<string>) returns (at: seq<nat>)
    ensures Picks(tags, at, Firsts(tags))
  {
    at := [];
    if tags != [] {
      var before, tag := tags[..|tags| - 1], tags[|tags| - 1];
      assert tags == before + [tag];
      at := FirstsInOrder(before);
      assert forall j :: 0 <= j < |at| ==> FirstAt(tags, at[j]);
      if NormalizeTag(tag) != "" && NormalizeTag(tag) !in NamesOf(before) {
        forall i | 0 <= i < |before| ensures NormalizeTag(tags[i]) != NormalizeTag(tag) { assert before[i] in before; }
        assert FirstAt(tags, |before|);
        at := at + [|before|];
      }
    }
  }

  lemma FirstsStep(tags: seq<string>, tag: string)
    ensures KeysOf(tags + [tag]) == KeysOf(tags) + if NormalizeTag(tag) == "" then {} else {NormalizeTag(tag)}
    ensures Firsts(tags + [tag]) ==
            if NormalizeTag(tag) == "" || NormalizeTag(tag) in KeysOf(tags) then Firsts(tags)
            else Firsts(tags) + [tag]
  {
    assert (tags + [tag])[..|tags|] == tags;
    assert NormalizeTag(tag) != "" ==> (NormalizeTag(tag) in KeysOf(tags) <==> NormalizeTag(tag) in NamesOf(tags));
  }

  method TakeTag(ghost read: seq<string>, tag: string, seen: set<string>, out: seq<string>)
    returns (seenAfter: set<string>, outAfter: seq<string>)
    requires seen == KeysOf(read) && out == Firsts(read)
    ensures seenAfter == KeysOf(read + [tag]) && outAfter == Firsts(read + [tag])
  {
    var key := NormalizeTag(tag);
    FirstsStep(read, tag);
    if key == "" || key in seen { return seen, out; }
    return seen + {key}, out + [tag];
  }

  /** One of the lists to merge: `read` are the tags already looked at. */
  method TakeTags(ghost read: seq<string>, list: seq<string>, seen: set<string>, out: seq<string>)
    returns (seenAfter: set<string>, outAfter: seq<string>)
    requires seen == KeysOf(read) && out == Firsts(read)
    ensures seenAfter == KeysOf(read + list) && outAfter == Firsts(read + list)
  {
    seenAfter, outAfter := seen, out;
    ghost var done := read;
    for n := 0 to |list|
      invariant done == read + list[..n]
      invariant seenAfter == KeysOf(done) && outAfter == Firsts(done)
    {
      seenAfter, outAfter := TakeTag(done, list[n], seenAfter, outAfter);
      done := done + [list[n]];
      assert read + list[..n + 1] == done;
    }
    assert done == read + list;
  }

  method MergeTags(a: seq<string>, b: seq<string>) returns (out: seq<string>)
    ensures out == Firsts(a + b)
  {
    var seen: set<string> := {};
    seen, out := TakeTags([], a, {}, []);
    assert [] + a == a;
    seen, out := TakeTags(a, b, seen, out);
  }

  // ---------- one article a URL ----------

  /** The position of a URL, or the length when it is not there. */
  function PositionOf(items: seq<Article>, url: string): (i: nat)
    ensures i <= |items| && (i < |items| ==> items[i].url == url)
    ensures forall j :: 0 <= j < i ==> items[j].url != url
  {
    if items == [] then 0
    else if items[0].url == url then 0
    else 1 + PositionOf(items[1..], url)
  }

  function AddOne(out: seq<Article>, item: Article): seq<Article> {
    var i := PositionOf(out, item.url);
    if i < |out| then out[i := out[i].(tags := Firsts(out[i].tags + item.tags))]
    else out + [item.(tags := Firsts(item.tags))]
  }

  function Deduped(items: seq<Article>): seq<Article> {
    if items == [] then [] else AddOne(Deduped(items[..|items| - 1]), items[|items| - 1])
  }

  method Dedupe(items: seq<Article>) returns (out: seq<Article>)
    ensures out == Deduped(items)
  {
    var byUrl: map<string, nat> := map[];
    out := [];
    for n := 0 to |items|
      invariant out == Deduped(items[..n])
      invariant forall u :: PositionOf(out, u) == if u in byUrl then byUrl[u] else |out|
      invariant forall u :: u in byUrl ==> byUrl[u] < |out|
    {
      assert items[..n + 1][..n] == items[..n];
      var item := items[n];
      ghost var before := out;
      if item.url in byUrl {
        var i := byUrl[item.url];
        var tags := MergeTags(out[i].tags, item.tags);
        SamePositions(out, i, tags);
        out := out[i := out[i].(tags := tags)];
      } else {
        byUrl := byUrl[item.url := |out|];
        var tags := MergeTags(item.tags, []);
        assert item.tags + [] == item.tags;
        NextPosition(out, item.(tags := tags));
        out := out + [item.(tags := tags)];
      }
      assert out == AddOne(before, item);
    }
    assert items[..|items|] == items;
  }

  lemma PositionUnique(items: seq<Article>, url: string, i: nat)
    requires i <= |items| && (i < |items| ==> items[i].url == url) && forall j :: 0 <= j < i ==> items[j].url != url
    ensures PositionOf(items, url) == i
  {
  }

  lemma SamePositions(items: seq<Article>, i: nat, tags: seq<string>)
    requires i < |items|
    ensures forall u :: PositionOf(items[i := items[i].(tags := tags)], u) == PositionOf(items, u)
  {
    forall u ensures PositionOf(items[i := items[i].(tags := tags)], u) == PositionOf(items, u) {
      PositionUnique(items[i := items[i].(tags := tags)], u, PositionOf(items, u));
    }
  }

  lemma NextPosition(items: seq<Article>, item: Article)
    requires PositionOf(items, item.url) == |items|
    ensures forall u :: PositionOf(items + [item], u) ==
                        if u != item.url && PositionOf(items, u) == |items| then |items| + 1 else PositionOf(items, u)
  {
    forall u ensures PositionOf(items + [item], u) ==
                     if u != item.url && PositionOf(items, u) == |items| then |items| + 1 else PositionOf(items, u) {
      PositionUnique(items + [item], u,
        if u != item.url && PositionOf(items, u) == |items| then |items| + 1 else PositionOf(items, u));
    }
  }

  /** An article without its tags. */
  function Bare(a: Article): Article { a.(tags := []) }

  ghost predicate UrlsDistinct(items: seq<Article>) {
    forall i, j :: 0 <= i < j < |items| ==> items[i].url != items[j].url
  }

  /** The non-blank names that the items of one URL carry together. */
  ghost function NamesAt(items: seq<Article>, url: string): set<string> {
    set x, k | x in items && x.url == url && k in KeysOf(x.tags) :: k
  }

  /** A row is the first item of its URL, with the names of all of them. */
  ghost predicate RowMeans(items: seq<Article>, row: Article) {
    var first := PositionOf(items, row.url);
    first < |items| && Bare(row) == Bare(items[first]) && NamesOf(row.tags) == NamesAt(items, row.url)
  }

  ghost predicate RowsMean(items: seq<Article>, out: seq<Article>) {
    forall i :: 0 <= i < |out| ==> RowMeans(items, out[i])
  }

  ghost predicate Covers(items: seq<Article>, out: seq<Article>) {
    forall x :: x in items ==> PositionOf(out, x.url) < |out|
  }

  /** In the order of their first items; so no URL comes twice. */
  ghost predicate InOrder(items: seq<Article>, out: seq<Article>) {
    forall i, j :: 0 <= i < j < |out| ==> PositionOf(items, out[i].url) < PositionOf(items, out[j].url)
  }

  /** What `out` keeps of `items`: each URL once, as its first item, with the names of all its items, and the URLs in
      the order of their first items. */
  ghost predicate OnePerUrl(items: seq<Article>, out: seq<Article>) {
    RowsMean(items, out) && Covers(items, out) && InOrder(items, out)
  }

  lemma DistinctWhenInOrder(items: seq<Article>, out: seq<Article>)
    requires InOrder(items, out)
    ensures UrlsDistinct(out)
  {
    forall i, j | 0 <= i < j < |out| ensures out[i].url != out[j].url {
      assert PositionOf(items, out[i].url) < PositionOf(items, out[j].url);
    }
  }

  lemma NamesGrow(items: seq<Article>, item: Article, url: string)
    ensures NamesAt(items + [item], url) == NamesAt(items, url) + if item.url == url then KeysOf(item.tags) else {}
  {
  }

  /** Positions of known URLs stay when an item is added. */
  lemma PositionStays(items: seq<Article>, item: Article, url: string)
    ensures PositionOf(items, url) < |items| ==> PositionOf(items + [item], url) == PositionOf(items, url)
    ensures PositionOf(items, url) == |items| && item.url == url ==> PositionOf(items + [item], url) == |items|
  {
    if PositionOf(items, url) < |items| || item.url == url {
      PositionUnique(items + [item], url, PositionOf(items, url));
    }
  }

  lemma MergedNames(a: seq<string>, b: seq<string>)
    ensures NamesOf(Firsts(a + b)) == KeysOf(a) + KeysOf(b)
  {
    FirstsKeepsNames(a + b);
    assert KeysOf(a + b) == KeysOf(a) + KeysOf(b);
  }

  /** Rows of merged tags carry no blank name. */
  lemma NoBlanks(items: seq<Article>, row: Article)
    requires RowMeans(items, row)
    ensures KeysOf(row.tags) == NamesOf(row.tags)
  {
    forall t | t in row.tags ensures NormalizeTag(t) != "" {
      assert NormalizeTag(t) in NamesAt(items, row.url);
    }
  }

  lemma OldRowMeans(items: seq<Article>, item: Article, row: Article)
    requires RowMeans(items, row) && row.url != item.url
    ensures RowMeans(items + [item], row)
  {
    PositionStays(items, item, row.url);
    NamesGrow(items, item, row.url);
  }

  lemma MergedRowMeans(items: seq<Article>, item: Article, row: Article)
    requires RowMeans(items, row) && row.url == item.url
    ensures RowMeans(items + [item], row.(tags := Firsts(row.tags + item.tags)))
  {
    PositionStays(items, item, row.url);
    NamesGrow(items, item, row.url);
    MergedNames(row.tags, item.tags);
    NoBlanks(items, row);
  }

  lemma NewRowMeans(items: seq<Article>, item: Article)
    requires PositionOf(items, item.url) == |items|
    ensures RowMeans(items + [item], item.(tags := Firsts(item.tags)))
  {
    PositionStays(items, item, item.url);
    NamesGrow(items, item, item.url);
    FirstsKeepsNames(item.tags);
    forall x | x in items ensures x.url != item.url {
      var j :| 0 <= j < |items| && items[j] == x;
    }
    assert NamesAt(items, item.url) == {};
  }

  lemma Present(items: seq<Article>, x: Article)
    requires x in items
    ensures PositionOf(items, x.url) < |items|
  {
    var j :| 0 <= j < |items| && items[j] == x;
  }

  /** The rows keep their URLs, hence their order. */
  lemma OrderStays(items: seq<Article>, out: seq<Article>, item: Article, next: seq<Article>)
    requires RowsMean(items, out) && InOrder(items, out)
    requires |next| == |out| && forall i :: 0 <= i < |out| ==> next[i].url == out[i].url
    ensures InOrder(items + [item], next)
  {
    forall i, j | 0 <= i < j < |next|
      ensures PositionOf(items + [item], next[i].url) < PositionOf(items + [item], next[j].url) {
      assert RowMeans(items, out[i]) && RowMeans(items, out[j]);
      PositionStays(items, item, out[i].url);
      PositionStays(items, item, out[j].url);
    }
  }

  lemma KnownRows(items: seq<Article>, out: seq<Article>, item: Article, i: nat)
    requires RowsMean(items, out) && UrlsDistinct(out) && i < |out| && out[i].url == item.url
    ensures RowsMean(items + [item], out[i := out[i].(tags := Firsts(out[i].tags + item.tags))])
  {
    var next := out[i := out[i].(tags := Firsts(out[i].tags + item.tags))];
    forall k | 0 <= k < |next| ensures RowMeans(items + [item], next[k]) {
      assert RowMeans(items, out[k]);
      if k == i { MergedRowMeans(items, item, out[k]); } else { OldRowMeans(items, item, out[k]); }
    }
  }

  lemma KnownCovers(items: seq<Article>, out: seq<Article>, item: Article, i: nat)
    requires Covers(items, out) && i < |out| && PositionOf(out, item.url) == i
    ensures Covers(items + [item], out[i := out[i].(tags := Firsts(out[i].tags + item.tags))])
  {
    SamePositions(out, i, Firsts(out[i].tags + item.tags));
  }

  lemma AddKnownMeans(items: seq<Article>, out: seq<Article>, item: Article, i: nat)
    requires OnePerUrl(items, out) && i < |out| && PositionOf(out, item.url) == i
    ensures OnePerUrl(items + [item], out[i := out[i].(tags := Firsts(out[i].tags + item.tags))])
  {
    var next := out[i := out[i].(tags := Firsts(out[i].tags + item.tags))];
    DistinctWhenInOrder(items, out);
    OrderStays(items, out, item, next);
    KnownRows(items, out, item, i);
    KnownCovers(items, out, item, i);
  }

  lemma BeforeNew(items: seq<Article>, row: Article, item: Article)
    requires RowMeans(items, row) && PositionOf(items, item.url) == |items|
    ensures PositionOf(items + [item], row.url) < PositionOf(items + [item], item.url)
  {
    PositionStays(items, item, row.url);
    PositionStays(items, item, item.url);
  }

  lemma OrderGrows(items: seq<Article>, out: seq<Article>, row: Article)
    requires InOrder(items, out)
    requires forall i :: 0 <= i < |out| ==> PositionOf(items, out[i].url) < PositionOf(items, row.url)
    ensures InOrder(items, out + [row])
  {
  }

  lemma NewOrder(items: seq<Article>, out: seq<Article>, item: Article)
    requires RowsMean(items, out) && InOrder(items, out) && PositionOf(items, item.url) == |items|
    ensures InOrder(items + [item], out + [item.(tags := Firsts(item.tags))])
  {
    OrderStays(items, out, item, out);
    forall i | 0 <= i < |out| ensures PositionOf(items + [item], out[i].url) < PositionOf(items + [item], item.url) {
      BeforeNew(items, out[i], item);
    }
    OrderGrows(items + [item], out, item.(tags := Firsts(item.tags)));
  }

  lemma CoveredUrl(items: seq<Article>, out: seq<Article>, url: string)
    requires Covers(items, out) && PositionOf(items, url) < |items|
    ensures PositionOf(out, url) < |out|
  {
    assert items[PositionOf(items, url)] in items;
  }

  lemma NewCovers(items: seq<Article>, out: seq<Article>, row: Article, item: Article)
    requires Covers(items, out) && PositionOf(out, item.url) == |out| && row.url == item.url
    ensures Covers(items + [item], out + [row])
  {
    NextPosition(out, row);
  }

  lemma NewRows(items: seq<Article>, out: seq<Article>, item: Article)
    requires RowsMean(items, out) && PositionOf(out, item.url) == |out| && PositionOf(items, item.url) == |items|
    ensures RowsMean(items + [item], out + [item.(tags := Firsts(item.tags))])
  {
    var next := out + [item.(tags := Firsts(item.tags))];
    NewRowMeans(items, item);
    forall k | 0 <= k < |out| ensures RowMeans(items + [item], next[k]) {
      assert RowMeans(items, out[k]);
      PositionUnique(out, item.url, |out|);
      OldRowMeans(items, item, out[k]);
    }
  }

  lemma AddNewMeans(items: seq<Article>, out: seq<Article>, item: Article)
    requires OnePerUrl(items, out) && PositionOf(out, item.url) == |out|
    ensures OnePerUrl(items + [item], out + [item.(tags := Firsts(item.tags))])
  {
    if PositionOf(items, item.url) < |items| { CoveredUrl(items, out, item.url); }
    NewCovers(items, out, item.(tags := Firsts(item.tags)), item);
    NewRows(items, out, item);
    NewOrder(items, out, item);
  }

  lemma AddOneMeans(items: seq<Article>, out: seq<Article>, item: Article)
    requires OnePerUrl(items, out)
    ensures OnePerUrl(items + [item], AddOne(out, item))
  {
    var i := PositionOf(out, item.url);
    if i < |out| { AddKnownMeans(items, out, item, i); } else { AddNewMeans(items, out, item); }
  }

  lemma {:induction false} DedupeMeans(items: seq<Article>)
    ensures OnePerUrl(items, Deduped(items))
  {
    if items != [] {
      var before, item := items[..|items| - 1], items[|items| - 1];
      assert items == before + [item];
      DedupeMeans(before);
      AddOneMeans(before, Deduped(before), item);
    }
  }

  // ---------- ranking ----------

  /** The articles of a provider in ranked order, each URL once. */
  ghost function Ranked(ws: seq<Weight>, items: seq<Article>): seq<Scored> {
    SortBy(Before, Scores(ws, Deduped(items)))
  }

  function Top<T>(s: seq<T>, n: nat): seq<T> { if |s| > n then s[..n] else s }

  function ArticlesOf(s: seq<Scored>): (r: seq<Article>)
    ensures |r| == |s|
  {
    seq(|s|, i requires 0 <= i < |s| => s[i].article)
  }

  method CopyArticles(scored: seq<Scored>) returns (out: seq<Article>)
    ensures out == ArticlesOf(scored)
  {
    out := [];
    for n := 0 to |scored|
      invariant |out| == n && forall k :: 0 <= k < n ==> out[k] == scored[k].article
    {
      out := out + [scored[n].article];
    }
  }

  method RankLimit(ws: seq<Weight>, items: seq<Article>, limit: nat) returns (out: seq<Article>)
    requires Fits64(ws)
    ensures out == ArticlesOf(Top(SortBy(Before, Scores(ws, items)), limit))
  {
    var scored := ScoreArticles(ws, items);
    if |scored| > limit { scored := scored[..limit]; }
    out := CopyArticles(scored);
  }

  lemma ScoresOfUrls(ws: seq<Weight>, items: seq<Article>)
    requires UrlsDistinct(items)
    ensures Distinct(Scores(ws, items)) && StrictTotalOn(Before, Elems(Scores(ws, items)))
  {
    var s := Scores(ws, items);
    forall i, j | 0 <= i < j < |s| ensures s[i] != s[j] {
      assert s[i].article.url != s[j].article.url;
    }
    forall x, y | x in Elems(s) && y in Elems(s) && x.article.url == y.article.url ensures x == y {
      var i :| 0 <= i < |s| && s[i] == x;
      var j :| 0 <= j < |s| && s[j] == y;
    }
    BeforeIsStrictTotal(Elems(s));
  }

  /** The sort puts articles with distinct URLs in the one strictly increasing order. */
  lemma RankingIncreases(ws: seq<Weight>, items: seq<Article>)
    requires UrlsDistinct(items)
    ensures var r := SortBy(Before, Scores(ws, items)); Increasing(Before, r) && Elems(r) == Elems(Scores(ws, items))
  {
    ScoresOfUrls(ws, items);
    SortIncreasing(Before, Scores(ws, items));
    SameElems(SortBy(Before, Scores(ws, items)), Scores(ws, items));
  }

  // ---------- the order of arrival ----------

  /** Items of one URL differ in their tags only. */
  ghost predicate Consistent(items: seq<Article>) {
    forall x, y :: x in items && y in items && x.url == y.url ==> Bare(x) == Bare(y)
  }

  function Plain(x: Scored): Scored { x.(article := Bare(x.article)) }

  function Plains(s: seq<Scored>): (r: seq<Scored>)
    ensures |r| == |s|
  {
    seq(|s|, i requires 0 <= i < |s| => Plain(s[i]))
  }

  lemma PlainKeepsOrder(x: Scored, y: Scored)
    ensures Before(Plain(x), Plain(y)) == Before(x, y)
  {
  }

  lemma SameNamesAt(a: seq<Article>, b: seq<Article>, url: string)
    requires Elems(a) == Elems(b)
    ensures NamesAt(a, url) == NamesAt(b, url)
  {
    forall x ensures x in a <==> x in b {
      assert x in a <==> x in Elems(a);
      assert x in b <==> x in Elems(b);
    }
  }

  /** A row of one deduplication has its counterpart, alike but for the tags' order, in the other. */
  lemma Counterpart(ws: seq<Weight>, a: seq<Article>, b: seq<Article>, row: Article) returns (other: Article)
    requires Elems(a) == Elems(b) && Consistent(a) && row in Deduped(a)
    ensures other in Deduped(b) && Bare(other) == Bare(row)
            && NamesOf(other.tags) == NamesOf(row.tags) == NamesAt(a, row.url)
    ensures ScoreOf(ws, other) == ScoreOf(ws, row)
  {
    DedupeMeans(a);
    DedupeMeans(b);
    assert RowMeans(a, row);
    var item := a[PositionOf(a, row.url)];
    assert item in Elems(b);
    var at := PositionOf(Deduped(b), row.url);
    assert item in b && at < |Deduped(b)|;
    other := Deduped(b)[at];
    assert RowMeans(b, other);
    var twin := b[PositionOf(b, other.url)];
    assert twin in Elems(b) && twin in a;
    SameNamesAt(a, b, row.url);
    assert other.source == Bare(other).source && row.source == Bare(row).source;
    assert other.likes == Bare(other).likes && row.likes == Bare(row).likes;
    ScoreDependsOnNames(ws, other, row);
  }

  lemma RankedIncreases(ws: seq<Weight>, items: seq<Article>)
    ensures Increasing(Before, Ranked(ws, items)) && Elems(Ranked(ws, items)) == Elems(Scores(ws, Deduped(items)))
    ensures UrlsDistinct(Deduped(items))
  {
    DedupeMeans(items);
    DistinctWhenInOrder(items, Deduped(items));
    RankingIncreases(ws, Deduped(items));
  }

  lemma PlainsIncrease(s: seq<Scored>)
    requires Increasing(Before, s)
    ensures Increasing(Before, Plains(s))
  {
    forall i, j | 0 <= i < j < |s| ensures Before(Plains(s)[i], Plains(s)[j]) {
      PlainKeepsOrder(s[i], s[j]);
    }
  }

  lemma RowOf(ws: seq<Weight>, items: seq<Article>, x: Scored)
    requires x in Ranked(ws, items)
    ensures x.article in Deduped(items) && x.score == ScoreOf(ws, x.article)
  {
    RankedIncreases(ws, items);
    assert x in Elems(Scores(ws, Deduped(items)));
    var i :| 0 <= i < |Deduped(items)| && Scores(ws, Deduped(items))[i] == x;
  }

  lemma PlainsIncluded(ws: seq<Weight>, a: seq<Article>, b: seq<Article>)
    requires Elems(a) == Elems(b) && Consistent(a)
    ensures Elems(Plains(Ranked(ws, a))) <= Elems(Plains(Ranked(ws, b)))
  {
    var ra, rb := Ranked(ws, a), Ranked(ws, b);
    forall p | p in Elems(Plains(ra)) ensures p in Elems(Plains(rb)) {
      var i :| 0 <= i < |ra| && Plains(ra)[i] == p;
      RowOf(ws, a, ra[i]);
      var other := Counterpart(ws, a, b, ra[i].article);
      RankedIncreases(ws, b);
      var k :| 0 <= k < |Deduped(b)| && Deduped(b)[k] == other;
      assert Scores(ws, Deduped(b))[k] == Scored(other, ScoreOf(ws, other));
      assert Scored(other, ScoreOf(ws, other)) in Elems(rb);
      var j :| 0 <= j < |rb| && rb[j] == Scored(other, ScoreOf(ws, other));
      assert Plains(rb)[j] == p;
    }
  }

  lemma RankedOncePerUrl(ws: seq<Weight>, items: seq<Article>, x: Scored, y: Scored)
    requires x in Ranked(ws, items) && y in Ranked(ws, items) && x.article.url == y.article.url
    ensures x == y
  {
    RankedIncreases(ws, items);
    RowOf(ws, items, x);
    RowOf(ws, items, y);
    var d := Deduped(items);
    var i :| 0 <= i < |d| && d[i] == x.article;
    var j :| 0 <= j < |d| && d[j] == y.article;
    assert i == j;
  }

  lemma PlainsTotal(ws: seq<Weight>, items: seq<Article>)
    ensures StrictTotalOn(Before, Elems(Plains(Ranked(ws, items))))
  {
    var r := Ranked(ws, items);
    forall x, y | x in Elems(Plains(r)) && y in Elems(Plains(r)) && x.article.url == y.article.url ensures x == y {
      var i :| 0 <= i < |r| && Plains(r)[i] == x;
      var j :| 0 <= j < |r| && Plains(r)[j] == y;
      RankedOncePerUrl(ws, items, r[i], r[j]);
    }
    BeforeIsStrictTotal(Elems(Plains(r)));
  }

  /** Alike but for the order of the tags. */
  ghost predicate Alike(x: Scored, y: Scored) {
    Bare(x.article) == Bare(y.article) && x.score == y.score && NamesOf(x.article.tags) == NamesOf(y.article.tags)
  }

  ghost predicate AllAlike(a: seq<Scored>, b: seq<Scored>) {
    |a| == |b| && forall i :: 0 <= i < |a| ==> Alike(a[i], b[i])
  }

  /** The ranking depends on which items came, not on their order or number. */
  lemma RankingIgnoresArrival(ws: seq<Weight>, a: seq<Article>, b: seq<Article>)
    requires Elems(a) == Elems(b) && Consistent(a)
    ensures AllAlike(Ranked(ws, a), Ranked(ws, b))
  {
    var ra, rb := Ranked(ws, a), Ranked(ws, b);
    forall x, y | x in b && y in b && x.url == y.url ensures Bare(x) == Bare(y) {
      assert x in Elems(b) && y in Elems(b);
      assert x in a && y in a;
    }
    PlainsIncluded(ws, a, b);
    PlainsIncluded(ws, b, a);
    PlainsTotal(ws, a);
    RankedIncreases(ws, a);
    RankedIncreases(ws, b);
    PlainsIncrease(ra);
    PlainsIncrease(rb);
    IncreasingUnique(Before, Plains(ra), Plains(rb));
    forall i | 0 <= i < |ra| ensures Alike(ra[i], rb[i]) {
      assert Plains(ra)[i] == Plains(rb)[i];
      SameNames(ws, a, b, ra[i], rb[i]);
    }
  }

  lemma SameNames(ws: seq<Weight>, a: seq<Article>, b: seq<Article>, x: Scored, y: Scored)
    requires Elems(a) == Elems(b) && x in Ranked(ws, a) && y in Ranked(ws, b) && x.article.url == y.article.url
    ensures NamesOf(x.article.tags) == NamesOf(y.article.tags)
  {
    RowOf(ws, a, x);
    RowOf(ws, b, y);
    DedupeMeans(a);
    DedupeMeans(b);
    assert RowMeans(a, x.article) && RowMeans(b, y.article);
    SameNamesAt(a, b, x.article.url);
  }
}
