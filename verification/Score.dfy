/** Scoring and ordering of articles (server/internal/recommendation/score.go), in 64-bit arithmetic. */
module Score {
  import opened Tags
  import opened Sorting
  import opened Interest

  const MAX_INT64 := 0x7FFF_FFFF_FFFF_FFFF
  newtype int64 = x: int | -0x8000_0000_0000_0000 <= x <= MAX_INT64

  const QIITA := "Qiita"
  const ZENN := "Zenn"

  /** Instants are nanoseconds since Go's zero time. */
  datatype Article = Article(id: int, source: string, title: string, url: string, tags: seq<string>, likes: int64,
      publishedAt: int)

  datatype Scored = Scored(article: Article, score: int64)

  predicate Fits64(ws: seq<Weight>) {
    forall i :: 0 <= i < |ws| ==> -0x8000_0000_0000_0000 <= ws[i].value <= MAX_INT64
  }

  // ---------- what a score is ----------

  /** The value of a normalised name: its last row decides. */
  function ValueOf(ws: seq<Weight>, key: string): int {
    if ws == [] || key == "" then 0
    else if Key(ws[|ws| - 1]) == key then ws[|ws| - 1].value
    else ValueOf(ws[..|ws| - 1], key)
  }

  function Positive(v: int): nat { if v > 0 then v else 0 }

  /** The sum of the positive values of a set of normalised names. */
  ghost function Total(ws: seq<Weight>, keys: set<string>): nat {
    if keys == {} then 0
    else
      var k :| k in keys;
      Positive(ValueOf(ws, k)) + Total(ws, keys - {k})
  }

  lemma {:induction false} TotalAdd(ws: seq<Weight>, keys: set<string>, k: string)
    requires k !in keys
    ensures Total(ws, keys + {k}) == Positive(ValueOf(ws, k)) + Total(ws, keys)
    decreases keys
  {
    var all := keys + {k};
    var first :| first in all && Total(ws, all) == Positive(ValueOf(ws, first)) + Total(ws, all - {first});
    if first != k {
      assert all - {first} == (keys - {first}) + {k};
      TotalAdd(ws, keys - {first}, k);
      assert keys == (keys - {first}) + {first};
      TotalAdd(ws, keys - {first}, first);
    } else {
      assert all - {first} == keys;
    }
  }

  function NamesOf(tags: seq<string>): set<string> {
    set t | t in tags :: NormalizeTag(t)
  }

  function Capped(x: nat): int64 { if x > MAX_INT64 then MAX_INT64 as int64 else x as int64 }

  /** The score in exact arithmetic: a Zenn article scores the sum over its distinct tags, a Qiita article that
      sum times its likes plus one, both capped at the largest 64-bit value. */
  ghost function Exact(ws: seq<Weight>, a: Article): int64
    requires a.likes >= 0
  {
    var s := Total(ws, NamesOf(a.tags));
    if a.source == QIITA then Capped(s * (a.likes as nat + 1)) else Capped(s)
  }

  /** What the code computes: at the largest number of likes the multiplier wraps around to a negative number. */
  ghost function ScoreOf(ws: seq<Weight>, a: Article): int64 {
    if a.likes >= 0 && (a.source != QIITA || a.likes as int < MAX_INT64) then Exact(ws, a)
    else if a.source == QIITA then MAX_INT64 as int64
    else Capped(Total(ws, NamesOf(a.tags)))
  }

  /** The score is exact, for every number of likes below the largest and, there, whenever some tag is of interest. */
  lemma ScoreIsExact(ws: seq<Weight>, a: Article)
    requires a.likes >= 0
    ensures ScoreOf(ws, a) == Exact(ws, a)
            <==> a.source != QIITA || a.likes as int < MAX_INT64 || Total(ws, NamesOf(a.tags)) > 0
  {
    var s := Total(ws, NamesOf(a.tags));
    if a.likes as int == MAX_INT64 && s > 0 {
      MulAtLeast(s, a.likes as nat + 1);
    }
  }

  /** An article on which it is not: no tags at all, and the largest number of likes. */
  lemma ScoreCanDiffer(ws: seq<Weight>) returns (a: Article)
    ensures a.likes >= 0 && ScoreOf(ws, a) == MAX_INT64 as int64 && Exact(ws, a) == 0
  {
    a := Article(1, QIITA, "title", "https://qiita.com/a", [], MAX_INT64 as int64, 1);
    assert NamesOf(a.tags) == {};
  }

  lemma MulAtLeast(s: nat, m: nat)
    requires s > 0
    ensures s * m >= m
  {
    assert s * m == m + (s - 1) * m;
    MulNonneg(s - 1, m);
  }

  lemma MulNonneg(a: nat, b: nat)
    ensures a * b >= 0
  {
  }

  /** The names alone decide: other articles with the same names, likes and source score the same. */
  lemma ScoreDependsOnNames(ws: seq<Weight>, a: Article, b: Article)
    requires a.source == b.source && a.likes == b.likes && NamesOf(a.tags) == NamesOf(b.tags)
    ensures ScoreOf(ws, a) == ScoreOf(ws, b)
  {
  }

  // ---------- the score told from the rows ----------

  /** The positive weights of the rows whose name is one of these. */
  function RowSum(ws: seq<Weight>, names: set<string>): nat {
    if ws == [] then 0
    else
      var w := ws[|ws| - 1];
      RowSum(ws[..|ws| - 1], names) + if Key(w) != "" && Key(w) in names && w.value > 0 then w.value else 0
  }

  lemma {:induction false} TotalOfNothing(ws: seq<Weight>, keys: set<string>)
    requires ws == []
    ensures Total(ws, keys) == 0
    decreases keys
  {
    if keys != {} {
      var k :| k in keys && Total(ws, keys) == Positive(ValueOf(ws, k)) + Total(ws, keys - {k});
      TotalOfNothing(ws, keys - {k});
      assert ValueOf(ws, k) == 0;
    }
  }

  /** A row whose name no earlier row has adds its weight. */
  lemma {:induction false} TotalOfMore(ws: seq<Weight>, w: Weight, keys: set<string>)
    requires Key(w) != "" ==> forall v :: v in ws ==> Key(v) != Key(w)
    ensures Total(ws + [w], keys) == Total(ws, keys) + if Key(w) != "" && Key(w) in keys then Positive(w.value) else 0
    decreases keys
  {
    var all := ws + [w];
    assert all[..|ws|] == ws;
    if keys != {} {
      var k :| k in keys && Total(all, keys) == Positive(ValueOf(all, k)) + Total(all, keys - {k});
      TotalOfMore(ws, w, keys - {k});
      TotalAdd(ws, keys - {k}, k);
      assert keys - {k} + {k} == keys;
      if k == Key(w) && k != "" { NoRow(ws, k); }
      assert Positive(ValueOf(all, k)) ==
             Positive(ValueOf(ws, k)) + if k != "" && k == Key(w) then Positive(w.value) else 0;
      assert Total(ws, keys) == Positive(ValueOf(ws, k)) + Total(ws, keys - {k});
    }
  }

  lemma {:induction false} NoRow(ws: seq<Weight>, k: string)
    requires forall v :: v in ws ==> Key(v) != k
    ensures ValueOf(ws, k) == 0
  {
    if ws != [] { NoRow(ws[..|ws| - 1], k); }
  }

  /** With rows that do not collide, the total is the sum of the positive weights of the rows named. */
  lemma {:induction false} TotalIsRowSum(ws: seq<Weight>, names: set<string>)
    requires !Collides(ws)
    ensures Total(ws, names) == RowSum(ws, names)
  {
    if ws == [] {
      TotalOfNothing(ws, names);
    } else {
      var before, w := ws[..|ws| - 1], ws[|ws| - 1];
      assert ws == before + [w];
      TotalIsRowSum(before, names);
      forall v | v in before && Key(w) != "" ensures Key(v) != Key(w) {
        var i :| 0 <= i < |before| && before[i] == v;
        assert ws[i] == v && ws[|before|] == w;
      }
      TotalOfMore(before, w, names);
    }
  }

  /** The sum so many times over. */
  function Repeated(s: nat, n: nat): nat { if n == 0 then 0 else s + Repeated(s, n - 1) }

  lemma {:induction false} OneMoreTime(s: nat, n: nat)
    ensures s + Repeated(s, n) == s * (n + 1)
  {
    if n > 0 {
      OneMoreTime(s, n - 1);
      assert s * (n + 1) == s + s * n;
    }
  }

  /** An article scores the weights of its tags, once each; on Qiita once for itself and once more for every like. Only
      the largest number of likes, and negative ones, are different. */
  lemma ScoreMeans(ws: seq<Weight>, a: Article)
    requires !Collides(ws) && 0 <= a.likes as int < MAX_INT64
    ensures var s := RowSum(ws, NamesOf(a.tags));
            var points := if a.source == QIITA then s + Repeated(s, a.likes as nat) else s;
            ScoreOf(ws, a) as int == if points > MAX_INT64 then MAX_INT64 else points
  {
    TotalIsRowSum(ws, NamesOf(a.tags));
    OneMoreTime(RowSum(ws, NamesOf(a.tags)), a.likes as nat);
  }

  // ---------- computing it ----------

  ghost predicate IsTable(ws: seq<Weight>, byTag: map<string, int64>) {
    forall k :: Positive(ValueOf(ws, k)) == if k in byTag then Positive(byTag[k] as int) else 0
  }

  method ByTag(ws: seq<Weight>) returns (byTag: map<string, int64>)
    requires Fits64(ws)
    ensures IsTable(ws, byTag)
  {
    byTag := map[];
    for n := 0 to |ws|
      invariant forall k :: k in byTag ==> k != ""
      invariant forall k :: ValueOf(ws[..n], k) == if k in byTag then byTag[k] as int else 0
    {
      assert ws[..n + 1][..n] == ws[..n];
      var key := NormalizeTag(ws[n].tag);
      if key != "" { byTag := byTag[key := ws[n].value as int64]; }
    }
    assert ws[..|ws|] == ws;
  }

  /** The saturating sum over the distinct names of one article. */
  method SumTags(ws: seq<Weight>, byTag: map<string, int64>, tags: seq<string>) returns (total: int64)
    requires IsTable(ws, byTag)
    ensures total == Capped(Total(ws, NamesOf(tags)))
  {
    total := 0;
    var seen: set<string> := {};
    for n := 0 to |tags|
      invariant seen == NamesOf(tags[..n]) && total == Capped(Total(ws, seen))
    {
      var key := NormalizeTag(tags[n]);
      assert NamesOf(tags[..n + 1]) == seen + {key};
      if key in seen {
        assert seen + {key} == seen;
        continue;
      }
      TotalAdd(ws, seen, key);
      seen := seen + {key};
      if key in byTag && byTag[key] > 0 {
        var value := byTag[key];
        if total > MAX_INT64 as int64 - value { total := MAX_INT64 as int64; } else { total := total + value; }
      }
    }
    assert tags[..|tags|] == tags;
  }

  /** Go's int64 addition of one, wrapping around. */
  function PlusOne(x: int64): int64 {
    if x as int == MAX_INT64 then -0x8000_0000_0000_0000 else x + 1
  }

  lemma DivisionDecides(total: nat, m: nat)
    requires m >= 1
    ensures total > MAX_INT64 / m <==> total * m > MAX_INT64
  {
    var q := MAX_INT64 / m;
    assert q * m <= MAX_INT64 < (q + 1) * m;
    if total > q { MulMonotone(q + 1, total, m); } else { MulMonotone(total, q, m); }
  }

  lemma MulMonotone(a: nat, b: nat, m: nat)
    requires a <= b
    ensures a * m <= b * m
  {
    assert b * m == a * m + (b - a) * m;
    MulNonneg(b - a, m);
  }

  /** The sum times the multiplier, capped; the division keeps every step inside 64 bits. */
  method Multiply(ghost s: nat, total: int64, likes: int64) returns (score: int64)
    requires total == Capped(s)
    ensures score ==
            if likes < 0 || likes as int == MAX_INT64 then MAX_INT64 as int64 else Capped(s * (likes as nat + 1))
  {
    var multiplier := PlusOne(likes);
    if multiplier >= 1 {
      DivisionDecides(total as nat, multiplier as nat);
      if s > MAX_INT64 {
        MulMonotone(MAX_INT64, s, multiplier as nat);
        MulAtLeast(multiplier as nat, MAX_INT64);
      } else if s == 0 {
        assert s * (multiplier as nat) == 0;
      }
    }
    if multiplier < 1 || total > MAX_INT64 as int64 / multiplier {
      score := MAX_INT64 as int64;
    } else {
      MulNonneg(total as nat, multiplier as nat);
      score := total * multiplier;
    }
  }

  // ---------- the order ----------

  /** Better scores first; among articles without points the more liked; then the newer, the source, the URL. */
  predicate Before(x: Scored, y: Scored) {
    if x.score != y.score then x.score > y.score
    else if x.score == 0 && x.article.likes != y.article.likes then x.article.likes > y.article.likes
    else if x.article.publishedAt != y.article.publishedAt then x.article.publishedAt > y.article.publishedAt
    else if x.article.source != y.article.source then LexLess(x.article.source, y.article.source)
    else LexLess(x.article.url, y.article.url)
  }

  lemma BeforeIrreflexive(x: Scored)
    ensures !Before(x, x)
  {
    LexIrreflexive(x.article.url);
  }

  lemma BeforeTransitive(x: Scored, y: Scored, z: Scored)
    requires Before(x, y) && Before(y, z)
    ensures Before(x, z)
  {
    var a, b, c := x.article, y.article, z.article;
    if x.score == y.score == z.score && (x.score != 0 || a.likes == b.likes == c.likes)
        && a.publishedAt == b.publishedAt == c.publishedAt {
      if a.source == b.source == c.source {
        LexTransitive(a.url, b.url, c.url);
      } else if a.source != b.source && b.source != c.source {
        LexTransitive(a.source, b.source, c.source);
        if a.source == c.source { LexIrreflexive(a.source); }
      }
    }
  }

  lemma BeforeTotal(x: Scored, y: Scored)
    requires x.article.url != y.article.url
    ensures Before(x, y) || Before(y, x)
  {
    if x.article.source != y.article.source { LexTotal(x.article.source, y.article.source); }
    LexTotal(x.article.url, y.article.url);
  }

  /** With distinct URLs the comparison is a strict total order, so the result of the sort is unique. */
  lemma BeforeIsStrictTotal(elems: set<Scored>)
    requires forall x, y :: x in elems && y in elems && x.article.url == y.article.url ==> x == y
    ensures StrictTotalOn(Before, elems)
  {
    forall x | x in elems ensures !Before(x, x) { BeforeIrreflexive(x); }
    forall x, y, z | Before(x, y) && Before(y, z) ensures Before(x, z) { BeforeTransitive(x, y, z); }
    forall x, y | x in elems && y in elems && x != y ensures Before(x, y) || Before(y, x) { BeforeTotal(x, y); }
  }

  ghost function Scores(ws: seq<Weight>, articles: seq<Article>): (r: seq<Scored>)
    ensures |r| == |articles|
  {
    seq(|articles|, i requires 0 <= i < |articles| => Scored(articles[i], ScoreOf(ws, articles[i])))
  }

  method ScoreOne(ws: seq<Weight>, byTag: map<string, int64>, item: Article) returns (score: int64)
    requires IsTable(ws, byTag)
    ensures score == ScoreOf(ws, item)
  {
    score := SumTags(ws, byTag, item.tags);
    if item.source == QIITA { score := Multiply(Total(ws, NamesOf(item.tags)), score, item.likes); }
  }

  method ScoreArticles(ws: seq<Weight>, articles: seq<Article>) returns (out: seq<Scored>)
    requires Fits64(ws)
    ensures out == SortBy(Before, Scores(ws, articles))
  {
    var byTag := ByTag(ws);
    out := [];
    for n := 0 to |articles|
      invariant out == Scores(ws, articles)[..n]
    {
      var score := ScoreOne(ws, byTag, articles[n]);
      assert Scores(ws, articles)[n] == Scored(articles[n], score);
      out := out + [Scored(articles[n], score)];
    }
    assert out == Scores(ws, articles);
    out := SortBy(Before, out);
  }
}
