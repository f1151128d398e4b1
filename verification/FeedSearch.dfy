/** The instant search: batches that arrive in any order are merged into one feed
    (server/internal/recommendation/service.go, Get). */
module FeedSearch {
  import opened Wrappers
  import opened Tags
  import opened Sorting
  import opened Interest
  import opened Score
  import opened Feed

  const DAY := 24 * 60 * 60 * 1_000_000_000
  const QIITA_WINDOW := 5 * DAY
  const ZENN_WINDOW := 14 * DAY
  const FEED_LIMIT: nat := 10

  datatype Provider = QiitaApi | ZennApi

  /** The answer to one request: a search for a tag, or the popular articles; no items when it failed. */
  datatype Batch = Batch(provider: Provider, tag: string, popular: bool, items: Option<seq<Article>>)

  datatype SearchFeed = SearchFeed(qiita: seq<Scored>, zenn: seq<Scored>, warnings: seq<Provider>)

  datatype SearchError = AllProvidersFailed

  type UrlCheck = f: string -> bool | true witness (s: string) => false

  /** url.Parse accepts it, with scheme https and a host. */
  const HttpsUrl: UrlCheck

  predicate Blank(s: string) { NormalizeTag(s) == "" }

  predicate Valid(a: Article) {
    && (a.source == QIITA || a.source == ZENN)
    && !Blank(a.title) && !Blank(a.url) && HttpsUrl(a.url)
    && a.likes >= 0
    && a.publishedAt != 0
    && forall i :: 0 <= i < |a.tags| ==> !Blank(a.tags[i])
  }

  // ---------- one batch ----------

  datatype Pile = QiitaRaw | ZennFresh | ZennOld | ZennPopular

  /** Where an item goes; none when it is invalid or too old. */
  function PileOf(b: Batch, item: Article, now: int): Option<Pile> {
    if !Valid(item) then None
    else if b.provider == QiitaApi then (if item.publishedAt >= now - QIITA_WINDOW then Some(QiitaRaw) else None)
    else if b.popular then (if item.publishedAt >= now - ZENN_WINDOW then Some(ZennPopular) else None)
    else Some(if item.publishedAt >= now - ZENN_WINDOW then ZennFresh else ZennOld)
  }

  /** Zenn's answers do not name the tag searched for, so it is added. */
  function Placed(b: Batch, item: Article): Article {
    if b.provider == ZennApi && !b.popular then item.(tags := Firsts(item.tags + [b.tag])) else item
  }

  function FromItems(b: Batch, items: seq<Article>, pile: Pile, now: int): seq<Article> {
    if items == [] then []
    else
      var before, item := FromItems(b, items[..|items| - 1], pile, now), items[|items| - 1];
      if PileOf(b, item, now) == Some(pile) then before + [Placed(b, item)] else before
  }

  /** What one pile holds after the batches. */
  function Collect(bs: seq<Batch>, pile: Pile, now: int): seq<Article> {
    if bs == [] then []
    else
      var before, b := Collect(bs[..|bs| - 1], pile, now), bs[|bs| - 1];
      if b.items.None? then before else before + FromItems(b, b.items.value, pile, now)
  }

  predicate AllValid(b: Batch) { b.items.None? || forall i :: 0 <= i < |b.items.value| ==> Valid(b.items.value[i]) }

  predicate Good(b: Batch, p: Provider) { b.provider == p && b.items.Some? && AllValid(b) }

  predicate Bad(b: Batch, p: Provider) { b.provider == p && b.items.Some? && !AllValid(b) }

  predicate Failing(b: Batch, p: Provider) { b.provider == p && (b.items.None? || !AllValid(b)) }

  /** A provider is warned about when any of its answers failed or held an invalid item. */
  predicate Failed(bs: seq<Batch>, p: Provider) { exists b :: b in bs && Failing(b, p) }

  /** The last answer of the provider that did not fail decides. */
  predicate Succeeded(bs: seq<Batch>, p: Provider) {
    bs != [] &&
    var b := bs[|bs| - 1];
    if b.provider == p && b.items.Some? then AllValid(b) else Succeeded(bs[..|bs| - 1], p)
  }

  predicate Down(bs: seq<Batch>, p: Provider) { Failed(bs, p) && !Succeeded(bs, p) }

  predicate AllDown(bs: seq<Batch>) { Down(bs, QiitaApi) && Down(bs, ZennApi) }

  function QiitaItems(bs: seq<Batch>, now: int): seq<Article> { Collect(bs, QiitaRaw, now) }

  /** Old articles stand in only when no search found a fresh one. */
  function ZennItems(bs: seq<Batch>, now: int): seq<Article> {
    var recent := Collect(bs, ZennFresh, now);
    (if recent == [] then Collect(bs, ZennOld, now) else recent) + Collect(bs, ZennPopular, now)
  }

  function Warnings(bs: seq<Batch>): seq<Provider> {
    (if Failed(bs, QiitaApi) then [QiitaApi] else []) + (if Failed(bs, ZennApi) then [ZennApi] else [])
  }

  /** The feed, with the scores by which it is ordered. */
  ghost function Search(ws: seq<Weight>, bs: seq<Batch>, now: int): Result<SearchFeed, SearchError> {
    if AllDown(bs) then Err(AllProvidersFailed)
    else Ok(SearchFeed(Top(Ranked(ws, QiitaItems(bs, now)), FEED_LIMIT),
                       Top(Ranked(ws, ZennItems(bs, now)), FEED_LIMIT), Warnings(bs)))
  }

  // ---------- gathering ----------

  /** The items of one answer go to their piles; an invalid one makes the provider failed and not succeeded. */
  method Place(b: Batch, items: seq<Article>, now: int, qiita: seq<Article>, recent: seq<Article>, stale: seq<Article>,
      popular: seq<Article>)
    returns (qiitaNext: seq<Article>, recentNext: seq<Article>, staleNext: seq<Article>, popularNext: seq<Article>,
        invalid: bool)
    requires b.items == Some(items)
    ensures qiitaNext == qiita + FromItems(b, items, QiitaRaw, now)
            && recentNext == recent + FromItems(b, items, ZennFresh, now)
    ensures staleNext == stale + FromItems(b, items, ZennOld, now)
            && popularNext == popular + FromItems(b, items, ZennPopular, now)
    ensures invalid == !AllValid(b)
  {
    qiitaNext, recentNext, staleNext, popularNext, invalid := qiita, recent, stale, popular, false;
    for n := 0 to |items|
      invariant qiitaNext == qiita + FromItems(b, items[..n], QiitaRaw, now)
      invariant recentNext == recent + FromItems(b, items[..n], ZennFresh, now)
      invariant staleNext == stale + FromItems(b, items[..n], ZennOld, now)
      invariant popularNext == popular + FromItems(b, items[..n], ZennPopular, now)
      invariant invalid == !(forall i :: 0 <= i < n ==> Valid(items[i]))
    {
      assert items[..n + 1][..n] == items[..n];
      var item := items[n];
      if !Valid(item) {
        invalid := true;
        continue;
      }
      if b.provider == QiitaApi {
        if item.publishedAt >= now - QIITA_WINDOW { qiitaNext := qiitaNext + [item]; }
        continue;
      }
      var isFresh := item.publishedAt >= now - ZENN_WINDOW;
      if b.popular {
        if isFresh { popularNext := popularNext + [item]; }
      } else {
        var tags := MergeTags(item.tags, [b.tag]);
        if isFresh {
          recentNext := recentNext + [item.(tags := tags)];
        } else {
          staleNext := staleNext + [item.(tags := tags)];
        }
      }
    }
    assert items[..|items|] == items;
  }

  ghost predicate FlagsOf(bs: seq<Batch>, failed: map<Provider, bool>, succeeded: map<Provider, bool>, p: Provider) {
    p in failed && p in succeeded && failed[p] == Failed(bs, p) && succeeded[p] == Succeeded(bs, p)
  }

  ghost predicate Flags(bs: seq<Batch>, failed: map<Provider, bool>, succeeded: map<Provider, bool>) {
    FlagsOf(bs, failed, succeeded, QiitaApi) && FlagsOf(bs, failed, succeeded, ZennApi)
  }

  lemma FailedNext(bs: seq<Batch>, b: Batch, p: Provider)
    ensures Failed(bs + [b], p) == (Failed(bs, p) || Failing(b, p))
    ensures Succeeded(bs + [b], p) == if b.provider == p && b.items.Some? then AllValid(b) else Succeeded(bs, p)
  {
    var all := bs + [b];
    assert all[..|bs|] == bs;
    assert b in all && forall x :: x in bs ==> x in all;
    assert forall x :: x in all ==> x in bs || x == b;
  }

  lemma FlagsNext(bs: seq<Batch>, b: Batch, failed: map<Provider, bool>, succeeded: map<Provider, bool>)
    requires Flags(bs, failed, succeeded)
    ensures b.items.None? ==> Flags(bs + [b], failed[b.provider := true], succeeded)
    ensures b.items.Some? && AllValid(b) ==> Flags(bs + [b], failed, succeeded[b.provider := true])
    ensures b.items.Some? && !AllValid(b) ==>
              Flags(bs + [b], failed[b.provider := true], succeeded[b.provider := false])
  {
    FailedNext(bs, b, QiitaApi);
    FailedNext(bs, b, ZennApi);
  }

  lemma CollectNext(bs: seq<Batch>, b: Batch, pile: Pile, now: int)
    ensures Collect(bs + [b], pile, now) == Collect(bs, pile, now)
            + if b.items.None? then [] else FromItems(b, b.items.value, pile, now)
  {
    assert (bs + [b])[..|bs|] == bs;
  }

  method Gather(bs: seq<Batch>, now: int)
    returns (qiita: seq<Article>, recent: seq<Article>, stale: seq<Article>, popular: seq<Article>,
             failed: map<Provider, bool>, succeeded: map<Provider, bool>)
    ensures qiita == Collect(bs, QiitaRaw, now) && recent == Collect(bs, ZennFresh, now)
    ensures stale == Collect(bs, ZennOld, now) && popular == Collect(bs, ZennPopular, now)
    ensures Flags(bs, failed, succeeded)
  {
    failed, succeeded := map[QiitaApi := false, ZennApi := false], map[QiitaApi := false, ZennApi := false];
    qiita, recent, stale, popular := [], [], [], [];
    for n := 0 to |bs|
      invariant qiita == Collect(bs[..n], QiitaRaw, now) && recent == Collect(bs[..n], ZennFresh, now)
      invariant stale == Collect(bs[..n], ZennOld, now) && popular == Collect(bs[..n], ZennPopular, now)
      invariant Flags(bs[..n], failed, succeeded)
    {
      var b := bs[n];
      assert bs[..n + 1] == bs[..n] + [b];
      FlagsNext(bs[..n], b, failed, succeeded);
      forall pile { CollectNext(bs[..n], b, pile, now); }
      if b.items.None? {
        failed := failed[b.provider := true];
        continue;
      }
      var invalid;
      qiita, recent, stale, popular, invalid := Place(b, b.items.value, now, qiita, recent, stale, popular);
      succeeded := succeeded[b.provider := !invalid];
      if invalid { failed := failed[b.provider := true]; }
    }
    assert bs[..|bs|] == bs;
  }

  method RankProvider(ws: seq<Weight>, items: seq<Article>) returns (out: seq<Article>)
    requires Fits64(ws)
    ensures out == ArticlesOf(Top(Ranked(ws, items), FEED_LIMIT))
  {
    var once := Dedupe(items);
    out := RankLimit(ws, once, FEED_LIMIT);
  }

  method Verdict(bs: seq<Batch>, failed: map<Provider, bool>, succeeded: map<Provider, bool>)
    returns (warnings: seq<Provider>, down: bool)
    requires Flags(bs, failed, succeeded)
    ensures warnings == Warnings(bs) && down == AllDown(bs)
  {
    warnings := [];
    if failed[QiitaApi] { warnings := warnings + [QiitaApi]; }
    if failed[ZennApi] { warnings := warnings + [ZennApi]; }
    down := failed[QiitaApi] && !succeeded[QiitaApi] && failed[ZennApi] && !succeeded[ZennApi];
  }

  method Assemble(ws: seq<Weight>, bs: seq<Batch>, now: int)
    returns (r: Result<(seq<Article>, seq<Article>, seq<Provider>), SearchError>)
    requires Fits64(ws)
    ensures match Search(ws, bs, now)
            case Err(e) => r == Err(e)
            case Ok(feed) => r == Ok((ArticlesOf(feed.qiita), ArticlesOf(feed.zenn), feed.warnings))
  {
    var qiita, recent, stale, popular, failed, succeeded := Gather(bs, now);
    var warnings, down := Verdict(bs, failed, succeeded);
    if down { return Err(AllProvidersFailed); }
    var first := RankProvider(ws, qiita);
    if |recent| == 0 { recent := stale; }
    var second := RankProvider(ws, recent + popular);
    return Ok((first, second, warnings));
  }

  // ---------- the order of arrival ----------

  lemma {:induction false} FromItemsHas(b: Batch, items: seq<Article>, pile: Pile, now: int, x: Article)
    ensures x in FromItems(b, items, pile, now) <==>
              exists item :: item in items && PileOf(b, item, now) == Some(pile) && Placed(b, item) == x
  {
    if items != [] {
      var before, item := items[..|items| - 1], items[|items| - 1];
      assert items == before + [item];
      FromItemsHas(b, before, pile, now, x);
    }
  }

  /** What brings x to a pile. */
  predicate Brings(b: Batch, pile: Pile, now: int, x: Article) {
    b.items.Some? && exists item :: item in b.items.value && PileOf(b, item, now) == Some(pile) && Placed(b, item) == x
  }

  lemma {:induction false} CollectHas(bs: seq<Batch>, pile: Pile, now: int, x: Article)
    ensures x in Collect(bs, pile, now) <==> exists b :: b in bs && Brings(b, pile, now, x)
  {
    if bs != [] {
      var before, b := bs[..|bs| - 1], bs[|bs| - 1];
      assert bs == before + [b];
      CollectHas(before, pile, now, x);
      if b.items.Some? { FromItemsHas(b, b.items.value, pile, now, x); }
      assert Brings(b, pile, now, x) ==> b in bs;
    }
  }

  lemma SameMembers<T>(a: seq<T>, b: seq<T>)
    requires Elems(a) == Elems(b)
    ensures forall x :: x in a <==> x in b
  {
    forall x ensures x in a <==> x in b {
      assert x in a <==> x in Elems(a);
      assert x in b <==> x in Elems(b);
    }
  }

  /** A pile depends on which batches came. */
  lemma SamePile(a: seq<Batch>, b: seq<Batch>, pile: Pile, now: int)
    requires Elems(a) == Elems(b)
    ensures Elems(Collect(a, pile, now)) == Elems(Collect(b, pile, now))
    ensures Collect(a, pile, now) == [] <==> Collect(b, pile, now) == []
  {
    SameMembers(a, b);
    forall x ensures x in Collect(a, pile, now) <==> x in Collect(b, pile, now) {
      CollectHas(a, pile, now, x);
      CollectHas(b, pile, now, x);
    }
    var p, q := Collect(a, pile, now), Collect(b, pile, now);
    if p != [] { assert p[0] in q; }
    if q != [] { assert q[0] in p; }
  }

  lemma SameZennItems(a: seq<Batch>, b: seq<Batch>, now: int)
    requires Elems(a) == Elems(b)
    ensures Elems(ZennItems(a, now)) == Elems(ZennItems(b, now))
  {
    SamePile(a, b, ZennFresh, now);
    SamePile(a, b, ZennOld, now);
    SamePile(a, b, ZennPopular, now);
    assert forall p: seq<Article>, q: seq<Article> :: Elems(p + q) == Elems(p) + Elems(q);
  }

  lemma SameFailures(a: seq<Batch>, b: seq<Batch>, p: Provider)
    requires Elems(a) == Elems(b)
    ensures Failed(a, p) == Failed(b, p)
  {
    SameMembers(a, b);
  }

  /** The valid items that one provider returned, of the same URL, differ in their tags only. */
  ghost predicate SameUrlsAgree(bs: seq<Batch>) {
    forall b, c, x, y :: (b in bs && c in bs && b.provider == c.provider && b.items.Some? && c.items.Some?
                          && x in b.items.value && y in c.items.value && Valid(x) && Valid(y) && x.url == y.url) ==>
                             Bare(x) == Bare(y)
  }

  lemma PilesConsistent(bs: seq<Batch>, now: int)
    requires SameUrlsAgree(bs)
    ensures Consistent(QiitaItems(bs, now)) && Consistent(ZennItems(bs, now))
  {
    forall x, y | x in QiitaItems(bs, now) && y in QiitaItems(bs, now) && x.url == y.url ensures Bare(x) == Bare(y) {
      var b, item := Origin(bs, QiitaRaw, now, x);
      var c, other := Origin(bs, QiitaRaw, now, y);
      assert item.url == Bare(item).url && other.url == Bare(other).url;
    }
    forall x, y | x in ZennItems(bs, now) && y in ZennItems(bs, now) && x.url == y.url ensures Bare(x) == Bare(y) {
      var b, item := ZennOrigin(bs, now, x);
      var c, other := ZennOrigin(bs, now, y);
      assert item.url == Bare(item).url && other.url == Bare(other).url;
    }
  }

  lemma Origin(bs: seq<Batch>, pile: Pile, now: int, x: Article) returns (b: Batch, item: Article)
    requires x in Collect(bs, pile, now)
    ensures b in bs && b.items.Some? && item in b.items.value && Valid(item) && Bare(item) == Bare(x)
    ensures b.provider == if pile == QiitaRaw then QiitaApi else ZennApi
  {
    CollectHas(bs, pile, now, x);
    b :| b in bs && Brings(b, pile, now, x);
    item :| item in b.items.value && PileOf(b, item, now) == Some(pile) && Placed(b, item) == x;
  }

  lemma ZennOrigin(bs: seq<Batch>, now: int, x: Article) returns (b: Batch, item: Article)
    requires x in ZennItems(bs, now)
    ensures b in bs && b.items.Some? && item in b.items.value && Valid(item) && Bare(item) == Bare(x)
            && b.provider == ZennApi
  {
    if x in Collect(bs, ZennFresh, now) { b, item := Origin(bs, ZennFresh, now, x); }
    else if x in Collect(bs, ZennOld, now) { b, item := Origin(bs, ZennOld, now, x); }
    else { b, item := Origin(bs, ZennPopular, now, x); }
  }

  // ---------- the verdict ----------

  predicate HasGood(bs: seq<Batch>, p: Provider) { exists b :: b in bs && Good(b, p) }

  predicate HasBad(bs: seq<Batch>, p: Provider) { exists b :: b in bs && Bad(b, p) }

  /** Some order of the same batches counts the provider as down. */
  predicate MayBeDown(bs: seq<Batch>, p: Provider) { Failed(bs, p) && (HasBad(bs, p) || !HasGood(bs, p)) }

  /** Some of the provider's answers are clean and some hold an invalid item. */
  predicate Mixed(bs: seq<Batch>, p: Provider) { HasGood(bs, p) && HasBad(bs, p) }

  /** The orders of these batches disagree on whether all providers failed. */
  predicate Contested(bs: seq<Batch>) {
    MayBeDown(bs, QiitaApi) && MayBeDown(bs, ZennApi) && (Mixed(bs, QiitaApi) || Mixed(bs, ZennApi))
  }

  lemma {:induction false} SuccessOf(bs: seq<Batch>, p: Provider)
    ensures Succeeded(bs, p) ==> HasGood(bs, p)
    ensures !Succeeded(bs, p) ==> !HasGood(bs, p) || HasBad(bs, p)
  {
    if bs != [] {
      var before, b := bs[..|bs| - 1], bs[|bs| - 1];
      assert bs == before + [b];
      SuccessOf(before, p);
      assert b in bs && forall x :: x in before ==> x in bs;
    }
  }

  lemma SameKinds(a: seq<Batch>, b: seq<Batch>, p: Provider)
    requires Elems(a) == Elems(b)
    ensures HasGood(a, p) == HasGood(b, p) && HasBad(a, p) == HasBad(b, p)
  {
    SameMembers(a, b);
  }

  /** A provider whose answers are not mixed is down in every order or in none. */
  lemma DownIsSettled(a: seq<Batch>, b: seq<Batch>, p: Provider)
    requires Elems(a) == Elems(b)
    ensures !Mixed(a, p) ==> Down(a, p) == Down(b, p)
    ensures !MayBeDown(a, p) ==> !Down(a, p) && !Down(b, p)
  {
    SameFailures(a, b, p);
    SameKinds(a, b, p);
    SuccessOf(a, p);
    SuccessOf(b, p);
  }

  lemma VerdictSettled(a: seq<Batch>, b: seq<Batch>)
    requires Elems(a) == Elems(b) && !Contested(a)
    ensures AllDown(a) == AllDown(b)
  {
    DownIsSettled(a, b, QiitaApi);
    DownIsSettled(a, b, ZennApi);
  }

  /** The feed is the same for every order of arrival, unless the verdict itself is contested: the same answer or error,
      the same warnings, and the same articles and scores at each position, up to the order of their tags. */
  lemma ArrivalOrderDoesNotMatter(ws: seq<Weight>, a: seq<Batch>, b: seq<Batch>, now: int)
    requires multiset(a) == multiset(b) && SameUrlsAgree(a) && !Contested(a)
    ensures Search(ws, a, now).Ok? <==> Search(ws, b, now).Ok?
    ensures Search(ws, a, now).Ok? ==>
              var f, g := Search(ws, a, now).value, Search(ws, b, now).value;
              f.warnings == g.warnings && AllAlike(f.qiita, g.qiita) && AllAlike(f.zenn, g.zenn)
  {
    SameElems(a, b);
    VerdictSettled(a, b);
    SameFailures(a, b, QiitaApi);
    SameFailures(a, b, ZennApi);
    SamePile(a, b, QiitaRaw, now);
    SameZennItems(a, b, now);
    PilesConsistent(a, now);
    RankingIgnoresArrival(ws, QiitaItems(a, now), QiitaItems(b, now));
    RankingIgnoresArrival(ws, ZennItems(a, now), ZennItems(b, now));
  }

  /** When every returned item is valid the verdict is never contested. */
  lemma ValidItemsAreNotContested(bs: seq<Batch>)
    requires forall b :: b in bs ==> AllValid(b)
    ensures !Contested(bs)
  {
  }

  function MovedLast(bs: seq<Batch>, i: nat): seq<Batch>
    requires i < |bs|
  {
    bs[..i] + bs[i + 1..] + [bs[i]]
  }

  lemma MovedLastSame(bs: seq<Batch>, i: nat)
    requires i < |bs|
    ensures multiset(MovedLast(bs, i)) == multiset(bs)
  {
    assert bs == bs[..i] + [bs[i]] + bs[i + 1..];
  }

  /** The answer moved to the end decides for its provider. */
  lemma LastDecides(bs: seq<Batch>, i: nat)
    requires i < |bs| && bs[i].items.Some?
    ensures Succeeded(MovedLast(bs, i), bs[i].provider) == AllValid(bs[i])
  {
  }

  lemma {:induction false} RemovingOthers(bs: seq<Batch>, i: nat, p: Provider)
    requires i < |bs| && bs[i].provider != p
    ensures Succeeded(bs[..i] + bs[i + 1..], p) == Succeeded(bs, p)
  {
    var n := |bs| - 1;
    var less := bs[..i] + bs[i + 1..];
    if i == n {
      assert less == bs[..n];
    } else {
      assert less[|less| - 1] == bs[n];
      assert less[..|less| - 1] == bs[..n][..i] + bs[..n][i + 1..];
      RemovingOthers(bs[..n], i, p);
    }
  }

  lemma MovingOthers(bs: seq<Batch>, i: nat, p: Provider)
    requires i < |bs| && bs[i].provider != p
    ensures Succeeded(MovedLast(bs, i), p) == Succeeded(bs, p)
  {
    RemovingOthers(bs, i, p);
    assert MovedLast(bs, i)[..|bs| - 1] == bs[..i] + bs[i + 1..];
  }

  /** An order in which the provider is down, the other one's verdict unchanged. */
  lemma MadeDown(bs: seq<Batch>, p: Provider) returns (r: seq<Batch>)
    requires MayBeDown(bs, p)
    ensures multiset(r) == multiset(bs) && Down(r, p)
    ensures forall other :: other != p ==> Down(r, other) == Down(bs, other)
  {
    r := bs;
    SuccessOf(bs, p);
    if HasBad(bs, p) {
      var bad :| bad in bs && Bad(bad, p);
      var i :| 0 <= i < |bs| && bs[i] == bad;
      r := MovedLast(bs, i);
      MovedLastSame(bs, i);
      LastDecides(bs, i);
      SameElems(r, bs);
      forall q { SameFailures(r, bs, q); }
      forall other | other != p { MovingOthers(bs, i, other); }
    }
  }

  /** With contested answers the order of arrival decides between a feed and an error. */
  lemma ContestedOrdersDisagree(bs: seq<Batch>) returns (down: seq<Batch>, up: seq<Batch>)
    requires Contested(bs)
    ensures multiset(down) == multiset(bs) == multiset(up) && AllDown(down) && !AllDown(up)
  {
    var first := MadeDown(bs, QiitaApi);
    SameElems(first, bs);
    SameFailures(first, bs, ZennApi);
    SameKinds(first, bs, ZennApi);
    down := MadeDown(first, ZennApi);
    var p := if Mixed(bs, QiitaApi) then QiitaApi else ZennApi;
    var good :| good in bs && Good(good, p);
    var i :| 0 <= i < |bs| && bs[i] == good;
    up := MovedLast(bs, i);
    MovedLastSame(bs, i);
    LastDecides(bs, i);
  }

  /** Answers that are contested: Qiita once empty and once with an article of negative likes, while Zenn fails. */
  lemma ContestedAnswers(bad: Article) returns (bs: seq<Batch>)
    requires bad.likes < 0
    ensures Contested(bs)
  {
    bs := [Batch(QiitaApi, "a", false, Some([])), Batch(QiitaApi, "b", false, Some([bad])),
           Batch(ZennApi, "a", false, None)];
    assert !Valid(bs[1].items.value[0]);
    assert Good(bs[0], QiitaApi) && Bad(bs[1], QiitaApi) && Failing(bs[1], QiitaApi) && Failing(bs[2], ZennApi);
    assert bs[0] in bs && bs[1] in bs && bs[2] in bs;
    assert forall b :: b in bs ==> b == bs[0] || b == bs[1] || b == bs[2];
  }
}
