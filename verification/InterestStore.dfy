/** The transactions themselves, on tables that they update in place: server/internal/store/saved_articles.go,
    interest.go, auth.go. Each method is one committed transaction and does exactly one Step of InterestModel. */
module InterestStore {
  import opened Wrappers
  import opened Tags
  import opened Sorting
  import opened Interest
  import opened InterestModel
  import opened InterestRuns

  datatype TagRow = TagRow(article: int, tagId: int, name: string)

  predicate RowLess(a: TagRow, b: TagRow) {
    a.article < b.article || (a.article == b.article && a.tagId < b.tagId)
  }

  predicate IdLess(a: Weight, b: Weight) { a.tagId < b.tagId }

  /** ListArticleTagsByArticles, in its ORDER BY order. */
  ghost predicate IsTagRows(db: Db, arts: set<int>, rows: seq<TagRow>) {
    && Increasing(RowLess, rows)
    && forall r :: r in rows <==>
         && r.article in arts && r.article in db.articles && r.tagId in db.articles[r.article]
         && r.tagId in db.tags && r.name == db.tags[r.tagId]
  }

  /** ListRecommendations, in its ORDER BY order. */
  ghost predicate IsRecommendations(db: Db, rec: map<int, int>, rows: seq<Weight>) {
    && Increasing(IdLess, rows)
    && (forall w :: w in rows <==>
          w.tagId in rec && w.tagId in db.tags && w.tag == db.tags[w.tagId] && w.value == rec[w.tagId])
  }

  lemma RecommendationsDoNotCollide(db: Db, rec: map<int, int>, rows: seq<Weight>)
    requires GoodWeights(db, rec) && IsRecommendations(db, rec, rows)
    ensures !Collides(rows)
    ensures RowKeys(rows) == RecKeys(db, rec) - {""}
    ensures forall i, j :: 0 <= i < j < |rows| ==> rows[i].tagId != rows[j].tagId && Key(rows[i]) != Key(rows[j])
  {
    forall i, j | 0 <= i < j < |rows| ensures rows[i].tagId != rows[j].tagId && Key(rows[i]) != Key(rows[j]) {
      assert rows[i] in rows && rows[j] in rows;
      assert IdLess(rows[i], rows[j]);
      assert TagKey(db, rows[i].tagId) != TagKey(db, rows[j].tagId);
    }
    forall key | key in RecKeys(db, rec) && key != "" ensures key in RowKeys(rows) {
      var t :| t in rec && TagKey(db, t) == key;
      assert Weight(t, db.tags[t], rec[t]) in rows;
    }
  }

  // ---------- one batch of save learning, on values ----------

  /** tagIds: the tag ID of the last row of each key. */
  ghost predicate IsTagIds(db: Db, arts: set<int>, tagIds: map<string, int>) {
    && (forall a, key :: a in arts && Carries(db, a, key) ==> key in tagIds)
    && (forall key :: key in tagIds && key != "" ==>
          && tagIds[key] in db.tags && TagKey(db, tagIds[key]) == key && LastCarrier(db, arts, tagIds[key]))
  }

  /** namesByArticle: the tag names of each article. */
  ghost predicate IsNames(db: Db, arts: set<int>, names: map<int, seq<string>>) {
    forall a, key :: a in arts && key != "" ==> (Carries(db, a, key) <==> a in names && key in KeysOf(names[a]))
  }

  method IndexTagIds(ghost db: Db, ghost arts: set<int>, rows: seq<TagRow>) returns (tagIds: map<string, int>)
    requires InvRows(db) && IsTagRows(db, arts, rows)
    ensures IsTagIds(db, arts, tagIds)
  {
    tagIds := map[];
    ghost var last: map<string, int> := map[];
    for n := 0 to |rows|
      invariant last.Keys == tagIds.Keys
      invariant forall key :: key in tagIds ==>
        0 <= last[key] < n && rows[last[key]].tagId == tagIds[key] && NormalizeTag(rows[last[key]].name) == key
      invariant forall i :: 0 <= i < n ==>
        NormalizeTag(rows[i].name) in last && i <= last[NormalizeTag(rows[i].name)]
    {
      var r := rows[n];
      tagIds := tagIds[NormalizeTag(r.name) := r.tagId];
      last := last[NormalizeTag(r.name) := n];
    }
    forall a, key | a in arts && Carries(db, a, key) ensures key in tagIds {
      var t :| t in db.articles[a] && TagKey(db, t) == key;
      var i := RowOf(db, arts, rows, a, t);
    }
    forall key | key in tagIds && key != ""
      ensures tagIds[key] in db.tags && TagKey(db, tagIds[key]) == key && LastCarrier(db, arts, tagIds[key])
    {
      LastRowIsLastCarrier(db, arts, rows, key, last[key]);
    }
  }

  lemma LastRowIsLastCarrier(db: Db, arts: set<int>, rows: seq<TagRow>, key: string, n: nat)
    requires InvRows(db) && IsTagRows(db, arts, rows) && n < |rows| && NormalizeTag(rows[n].name) == key
    requires forall i :: 0 <= i < |rows| && NormalizeTag(rows[i].name) == key ==> i <= n
    ensures rows[n].tagId in db.tags && TagKey(db, rows[n].tagId) == key && LastCarrier(db, arts, rows[n].tagId)
  {
    var r := rows[n];
    assert r in rows;
    forall b, s | b in arts && b in db.articles && s in db.articles[b] && TagKey(db, s) == key
      ensures b < r.article || (b == r.article && s <= r.tagId)
    {
      var i := RowOf(db, arts, rows, b, s);
      assert i == n || RowLess(rows[i], r);
    }
  }

  method NamesByArticle(ghost db: Db, ghost arts: set<int>, rows: seq<TagRow>) returns (names: map<int, seq<string>>)
    requires InvRows(db) && IsTagRows(db, arts, rows)
    ensures IsNames(db, arts, names)
  {
    names := map[];
    for n := 0 to |rows|
      invariant forall a, s :: a in names && s in names[a] <==> TagRowNamed(rows, n, a, s)
      invariant forall i :: 0 <= i < n ==> rows[i].article in names
    {
      var r := rows[n];
      ghost var before := names;
      names := names[r.article := (if r.article in names then names[r.article] else []) + [r.name]];
      forall a, s ensures a in names && s in names[a] <==> TagRowNamed(rows, n + 1, a, s) {
        TagRowNamedStep(rows, n, a, s);
        assert a in names && s in names[a] <==> (a in before && s in before[a]) || (a == r.article && s == r.name);
      }
    }
    NamesAreRight(db, arts, rows, names);
  }

  ghost predicate TagRowNamed(rows: seq<TagRow>, n: nat, a: int, s: string) {
    exists i :: 0 <= i < n && i < |rows| && rows[i].article == a && rows[i].name == s
  }

  lemma TagRowNamedStep(rows: seq<TagRow>, n: nat, a: int, s: string)
    requires n < |rows|
    ensures TagRowNamed(rows, n + 1, a, s) <==>
              TagRowNamed(rows, n, a, s) || (rows[n].article == a && rows[n].name == s)
  {
    if TagRowNamed(rows, n, a, s) {
      var i :| 0 <= i < n && i < |rows| && rows[i].article == a && rows[i].name == s;
      assert rows[i].article == a;
    }
  }

  lemma NamesAreRight(db: Db, arts: set<int>, rows: seq<TagRow>, names: map<int, seq<string>>)
    requires InvRows(db) && IsTagRows(db, arts, rows)
    requires forall a, s :: a in names && s in names[a] <==> TagRowNamed(rows, |rows|, a, s)
    ensures IsNames(db, arts, names)
  {
    forall a, key | a in arts && key != "" && Carries(db, a, key) ensures a in names && key in KeysOf(names[a]) {
      var t :| t in db.articles[a] && TagKey(db, t) == key;
      var i := RowOf(db, arts, rows, a, t);
      assert TagRowNamed(rows, |rows|, a, db.tags[t]);
    }
    forall a, key | a in arts && a in names && key in KeysOf(names[a]) ensures Carries(db, a, key) {
      var s :| s in names[a] && NormalizeTag(s) == key;
      assert TagRowNamed(rows, |rows|, a, s);
      var i :| 0 <= i < |rows| && rows[i].article == a && rows[i].name == s;
      assert rows[i] in rows;
    }
  }

  lemma RowOf(db: Db, arts: set<int>, rows: seq<TagRow>, a: int, t: int) returns (i: nat)
    requires InvRows(db) && IsTagRows(db, arts, rows) && a in arts && a in db.articles && t in db.articles[a]
    ensures i < |rows| && rows[i] == TagRow(a, t, db.tags[t])
  {
    assert TagRow(a, t, db.tags[t]) in rows;
    i :| 0 <= i < |rows| && rows[i] == TagRow(a, t, db.tags[t]);
  }

  ghost predicate GrownRow(db: Db, base: seq<Weight>, arts: set<int>, tagIds: map<string, int>, w: Weight, i: nat) {
    if i < |base| then w == base[i].(value := Learned(base[i].value, Times(db, arts, Key(base[i]))))
    else
      && NormalizeTag(w.tag) == w.tag && w.tag != "" && w.tag in tagIds && w.tag !in RowKeys(base)
      && Carriers(db, arts, w.tag) != {}
      && w == Weight(tagIds[w.tag], w.tag, Learned(0, Times(db, arts, w.tag)))
  }

  /** `current` is `base` after learning from the articles in `arts`. */
  ghost predicate Grown(db: Db, base: seq<Weight>, arts: set<int>, tagIds: map<string, int>, current: seq<Weight>) {
    && |base| <= |current|
    && (forall i :: 0 <= i < |current| ==> GrownRow(db, base, arts, tagIds, current[i], i))
    && !Collides(current)
    && (forall key :: key != "" && Carriers(db, arts, key) != {} ==> key in RowKeys(current))
  }

  /** The keys of the list that UpdateOnSave returns are distinct again. */
  lemma BoostDoesNotCollide(base: seq<Weight>, names: seq<string>, boost: int, out: seq<Weight>)
    requires !Collides(base) && IsBoost(base, KeysOf(names), boost, out)
    ensures !Collides(out)
    ensures RowKeys(out) == RowKeys(base) + KeysOf(names)
    ensures forall i :: |base| <= i < |out| ==> IsNewKey(base, names, out[i].tag)
  {
    BoostAddsNewKeys(base, names, boost, out);
    BoostKeys(base, names, boost, out);
    forall i, j | 0 <= i < j < |out| && Key(out[i]) != "" ensures Key(out[i]) != Key(out[j]) {
      if j < |base| {
        assert Key(out[i]) == Key(base[i]) && Key(out[j]) == Key(base[j]);
      } else if i < |base| {
        assert base[i] in base && Key(base[i]) in RowKeys(base);
      }
    }
  }

  ghost predicate IsNewKey(base: seq<Weight>, names: seq<string>, key: string) {
    key in KeysOf(names) && key !in RowKeys(base) && NormalizeTag(key) == key && key != ""
  }

  lemma BoostAddsNewKeys(base: seq<Weight>, names: seq<string>, boost: int, out: seq<Weight>)
    requires IsBoost(base, KeysOf(names), boost, out)
    ensures forall i :: |base| <= i < |out| ==> IsNewKey(base, names, out[i].tag)
    ensures forall i, j :: |base| <= i < j < |out| ==> out[i].tag != out[j].tag
  {
    var n := |base|;
    var added := seq(|out| - n, i requires 0 <= i < |out| - n => out[n + i].tag);
    forall i | n <= i < |out| ensures IsNewKey(base, names, out[i].tag) {
      assert added[i - n] in Elems(added);
      var s :| s in names && NormalizeTag(s) == out[i].tag;
      NormalizeTwice(s);
    }
    forall i, j | n <= i < j < |out| ensures out[i].tag != out[j].tag {
      assert LexLess(added[i - n], added[j - n]);
      LexIrreflexive(added[i - n]);
    }
  }

  lemma BoostKeys(base: seq<Weight>, names: seq<string>, boost: int, out: seq<Weight>)
    requires IsBoost(base, KeysOf(names), boost, out)
    requires forall i :: |base| <= i < |out| ==> IsNewKey(base, names, out[i].tag)
    ensures RowKeys(out) == RowKeys(base) + KeysOf(names)
  {
    var n := |base|;
    var added := seq(|out| - n, i requires 0 <= i < |out| - n => out[n + i].tag);
    forall key | key in RowKeys(base) ensures key in RowKeys(out) {
      var w :| w in base && Key(w) == key;
      var i :| 0 <= i < n && base[i] == w;
      assert out[i] in out && Key(out[i]) == key;
    }
    forall key | key in KeysOf(names) && key !in RowKeys(base) ensures key in RowKeys(out) {
      assert key in Elems(added);
      var i :| 0 <= i < |added| && added[i] == key;
      assert out[n + i] in out && IsNewKey(base, names, out[n + i].tag);
    }
    forall w | w in out && Key(w) != "" ensures Key(w) in RowKeys(base) + KeysOf(names) {
      var i :| 0 <= i < |out| && out[i] == w;
      if i < n {
        assert base[i] in base && Key(base[i]) == Key(w);
      } else {
        assert IsNewKey(base, names, out[i].tag);
      }
    }
  }

  lemma CarriersGrow(db: Db, arts: set<int>, a: int, key: string)
    requires a !in arts
    ensures Carriers(db, arts + {a}, key) == Carriers(db, arts, key) + if Carries(db, a, key) then {a} else {}
    ensures Times(db, arts + {a}, key) == Times(db, arts, key) + if key != "" && Carries(db, a, key) then 1 else 0
  {
    assert Carriers(db, arts + {a}, key) == Carriers(db, arts, key) + if Carries(db, a, key) then {a} else {};
  }

  lemma LearnedOnceMore(v: int, times: nat)
    requires 0 <= v <= SCALE
    ensures Learned(v, times + 1) == Add(Learned(v, times), SAVE_BOOST)
  {
  }

  /** Learning from one more article. */
  lemma GrowStep(db: Db, base: seq<Weight>, arts: set<int>, a: int, tagIds: map<string, int>, current: seq<Weight>,
                 names: seq<string>, boosted: seq<Weight>, next: seq<Weight>)
    requires Grown(db, base, arts, tagIds, current) && a !in arts
    requires forall i :: 0 <= i < |base| ==> 0 <= base[i].value <= SCALE
    requires forall key :: key != "" ==> (Carries(db, a, key) <==> key in KeysOf(names))
    requires forall key :: key in KeysOf(names) ==> key in tagIds
    requires IsBoost(current, KeysOf(names), SAVE_BOOST, boosted)
    requires |next| == |boosted|
    requires forall i :: 0 <= i < |current| ==> next[i] == boosted[i]
    requires forall i :: |current| <= i < |next| ==>
      boosted[i].tag in tagIds && next[i] == boosted[i].(tagId := tagIds[boosted[i].tag])
    ensures Grown(db, base, arts + {a}, tagIds, next)
  {
    BoostDoesNotCollide(current, names, SAVE_BOOST, boosted);
    RowKeysSame(next, boosted);
    forall i | 0 <= i < |current| ensures GrownRow(db, base, arts + {a}, tagIds, next[i], i) {
      assert GrownRow(db, base, arts, tagIds, current[i], i);
      OldRowGrows(db, base, arts, a, tagIds, current[i], i, next[i]);
    }
    forall i | |current| <= i < |next| ensures GrownRow(db, base, arts + {a}, tagIds, next[i], i) {
      var key := next[i].tag;
      CarriersGrow(db, arts, a, key);
      assert Carriers(db, arts, key) == {};
      LearnedOnceMore(0, 0);
      NewKeyNotInBase(base, current, key);
    }
    forall key | key != "" && Carriers(db, arts + {a}, key) != {} ensures key in RowKeys(next) {
      CarriersGrow(db, arts, a, key);
    }
    assert forall i :: 0 <= i < |next| ==> GrownRow(db, base, arts + {a}, tagIds, next[i], i);
  }

  lemma OldRowGrows(db: Db, base: seq<Weight>, arts: set<int>, a: int, tagIds: map<string, int>, w: Weight, i: nat,
      w': Weight)
    requires GrownRow(db, base, arts, tagIds, w, i) && a !in arts
    requires i < |base| ==> 0 <= base[i].value <= SCALE
    requires w' == if Key(w) != "" && Carries(db, a, Key(w)) then w.(value := Add(w.value, SAVE_BOOST)) else w
    ensures GrownRow(db, base, arts + {a}, tagIds, w', i)
  {
    CarriersGrow(db, arts, a, Key(w));
    var v := if i < |base| then base[i].value else 0;
    LearnedOnceMore(v, Times(db, arts, Key(w)));
  }

  lemma RowKeysSame(a: seq<Weight>, b: seq<Weight>)
    requires |a| == |b| && forall i :: 0 <= i < |a| ==> Key(a[i]) == Key(b[i])
    ensures RowKeys(a) == RowKeys(b)
    ensures Collides(a) <==> Collides(b)
  {
    forall key | key in RowKeys(a) ensures key in RowKeys(b) {
      var w :| w in a && Key(w) == key;
      var i :| 0 <= i < |a| && a[i] == w;
      assert b[i] in b;
    }
    forall key | key in RowKeys(b) ensures key in RowKeys(a) {
      var w :| w in b && Key(w) == key;
      var i :| 0 <= i < |b| && b[i] == w;
      assert a[i] in a;
    }
  }

  lemma NewKeyNotInBase(base: seq<Weight>, current: seq<Weight>, key: string)
    requires |base| <= |current| && forall i :: 0 <= i < |base| ==> Key(current[i]) == Key(base[i])
    requires key !in RowKeys(current)
    ensures key !in RowKeys(base)
  {
    forall w | w in base && Key(w) != "" ensures Key(w) in RowKeys(current) {
      var i :| 0 <= i < |base| && base[i] == w;
      assert current[i] in current;
    }
  }

  /** The loop over the newly recorded articles, in whatever order the database returned them. */
  method LearnFromArticles(ghost db: Db, ghost arts: set<int>, base: seq<Weight>, articleIds: seq<int>,
                           tagIds: map<string, int>, names: map<int, seq<string>>)
    returns (current: seq<Weight>)
    requires !Collides(base) && forall i :: 0 <= i < |base| ==> 0 <= base[i].value <= SCALE
    requires Distinct(articleIds) && Elems(articleIds) == arts
    requires IsTagIds(db, arts, tagIds) && IsNames(db, arts, names)
    ensures Grown(db, base, arts, tagIds, current)
  {
    current := base;
    for n := 0 to |articleIds|
      invariant Grown(db, base, Elems(articleIds[..n]), tagIds, current)
    {
      var id := articleIds[n];
      assert Elems(articleIds[..n + 1]) == Elems(articleIds[..n]) + {id};
      assert id in arts && id !in Elems(articleIds[..n]);
      var own := if id in names then names[id] else [];
      var r := UpdateOnSave(current, own);
      var updated := r.value;
      BoostDoesNotCollide(current, own, SAVE_BOOST, updated);
      ghost var boosted := updated;
      for i := |current| to |updated|
        invariant |updated| == |boosted|
        invariant forall j :: 0 <= j < |current| ==> updated[j] == boosted[j]
        invariant forall j :: i <= j < |updated| ==> updated[j] == boosted[j]
        invariant forall j :: |current| <= j < i ==> updated[j] == boosted[j].(tagId := tagIds[boosted[j].tag])
      {
        // the lookup never fails: every new key is carried by this article
        updated := updated[i := updated[i].(tagId := tagIds[updated[i].tag])];
      }
      GrowStep(db, base, Elems(articleIds[..n]), id, tagIds, current, own, boosted, updated);
      current := updated;
    }
    assert articleIds[..|articleIds|] == articleIds;
  }

  /** The upserts, skipping the rows whose weight did not change. */
  method WriteBack(rec: map<int, int>, current: seq<Weight>) returns (out: map<int, int>)
    requires forall i, j :: 0 <= i < j < |current| ==> current[i].tagId != current[j].tagId
    requires forall i :: 0 <= i < |current| ==> 1 <= current[i].tagId <= MAX_INT32 && 0 <= current[i].value <= SCALE
    ensures IsWritten(rec, current, out)
  {
    out := rec;
    for n := 0 to |current|
      invariant forall i :: 0 <= i < n ==> current[i].tagId in out && out[current[i].tagId] == current[i].value
      invariant forall t :: t in rec && (forall i :: 0 <= i < n ==> current[i].tagId != t) ==>
                  t in out && out[t] == rec[t]
      invariant forall t :: t in out ==> t in rec || exists i :: 0 <= i < n && current[i].tagId == t
    {
      var w := current[n];
      if !(w.tagId in rec && rec[w.tagId] == w.value) {
        // the source's int32 range check passes
        assert 1 <= w.tagId <= MAX_INT32 && -MAX_INT32 <= w.value <= MAX_INT32;
        out := out[w.tagId := w.value];
      }
    }
  }

  lemma GrownIdsDistinct(db: Db, rec: map<int, int>, base: seq<Weight>, arts: set<int>, tagIds: map<string, int>,
                         current: seq<Weight>)
    requires InvRows(db) && GoodWeights(db, rec) && IsRecommendations(db, rec, base)
    requires IsTagIds(db, arts, tagIds) && Grown(db, base, arts, tagIds, current)
    ensures forall i, j :: 0 <= i < j < |current| ==> current[i].tagId != current[j].tagId
    ensures forall i :: 0 <= i < |current| ==> 1 <= current[i].tagId <= MAX_INT32 && 0 <= current[i].value <= SCALE
    ensures forall i :: 0 <= i < |current| ==> TagKey(db, current[i].tagId) == Key(current[i])
  {
    RecommendationsDoNotCollide(db, rec, base);
    forall i | 0 <= i < |current|
      ensures TagKey(db, current[i].tagId) == Key(current[i]) && 1 <= current[i].tagId <= MAX_INT32
      ensures 0 <= current[i].value <= SCALE
    {
      if i < |base| { assert base[i] in base; }
    }
    forall i, j | 0 <= i < j < |current| ensures current[i].tagId != current[j].tagId {
      if j < |base| {
        assert base[i].tagId != base[j].tagId;
      } else {
        assert Key(current[j]) != "";
        assert Key(current[i]) == "" || Key(current[i]) != Key(current[j]);
      }
    }
  }

  /** The table after the write-back holds the weights of `current`, and nothing else is new. */
  ghost predicate IsWritten(rec: map<int, int>, current: seq<Weight>, rec': map<int, int>) {
    && (forall i :: 0 <= i < |current| ==> current[i].tagId in rec' && rec'[current[i].tagId] == current[i].value)
    && (forall t :: t in rec && (forall i :: 0 <= i < |current| ==> current[i].tagId != t) ==>
       t in rec' && rec'[t] == rec[t])
    && (forall t :: t in rec' ==> t in rec || exists i :: 0 <= i < |current| && current[i].tagId == t)
  }

  lemma OldRowsWritten(db: Db, rec: map<int, int>, base: seq<Weight>, current: seq<Weight>, rec': map<int, int>, t: int)
    returns (i: nat)
    requires GoodWeights(db, rec) && IsRecommendations(db, rec, base) && IsWritten(rec, current, rec') && t in rec
    requires |base| <= |current| && forall i :: 0 <= i < |base| ==> current[i].tagId == base[i].tagId
    ensures i < |base| && base[i] == Weight(t, db.tags[t], rec[t]) && t in rec' && rec'[t] == current[i].value
  {
    assert Weight(t, db.tags[t], rec[t]) in base;
    i :| 0 <= i < |base| && base[i] == Weight(t, db.tags[t], rec[t]);
    assert current[i].tagId == t;
  }

  lemma NewRowsWritten(db: Db, rec: map<int, int>, base: seq<Weight>, current: seq<Weight>, rec': map<int, int>, t: int)
    returns (i: nat)
    requires IsRecommendations(db, rec, base) && IsWritten(rec, current, rec') && t in rec' && t !in rec
    requires |base| <= |current| && forall i :: 0 <= i < |base| ==> current[i].tagId == base[i].tagId
    ensures |base| <= i < |current| && current[i].tagId == t && rec'[t] == current[i].value
  {
    forall k | 0 <= k < |base| ensures base[k].tagId in rec { assert base[k] in base; }
    i :| 0 <= i < |current| && current[i].tagId == t;
  }

  lemma GrownIsBatch(db: Db, rec: map<int, int>, base: seq<Weight>, arts: set<int>, tagIds: map<string, int>,
                     current: seq<Weight>, rec': map<int, int>)
    requires InvRows(db) && GoodWeights(db, rec) && IsRecommendations(db, rec, base)
    requires IsTagIds(db, arts, tagIds) && Grown(db, base, arts, tagIds, current) && IsWritten(rec, current, rec')
    ensures LearnBatch(db, rec, arts, rec')
  {
    GrownIdsDistinct(db, rec, base, arts, tagIds, current);
    RecommendationsDoNotCollide(db, rec, base);
    forall t | t in rec ensures t in rec' && rec'[t] == Learned(rec[t], Times(db, arts, TagKey(db, t))) {
      var i := OldRowsWritten(db, rec, base, current, rec', t);
      assert GrownRow(db, base, arts, tagIds, current[i], i);
    }
    assert forall t :: t in rec.Keys ==> t in rec'.Keys;
    forall t | t in rec' && t !in rec
      ensures t in db.tags && TagKey(db, t) != "" && TagKey(db, t) !in RecKeys(db, rec) && LastCarrier(db, arts, t)
      ensures rec'[t] == Learned(0, Times(db, arts, TagKey(db, t)))
    {
      var i := NewRowsWritten(db, rec, base, current, rec', t);
      assert GrownRow(db, base, arts, tagIds, current[i], i);
    }
    CarriedKeysWritten(db, arts, current, rec');
  }

  lemma CarriedKeysWritten(db: Db, arts: set<int>, current: seq<Weight>, rec': map<int, int>)
    requires forall i :: 0 <= i < |current| ==>
               current[i].tagId in rec' && TagKey(db, current[i].tagId) == Key(current[i])
    requires forall key :: key != "" && Carriers(db, arts, key) != {} ==> key in RowKeys(current)
    ensures forall key :: key != "" && Carriers(db, arts, key) != {} ==> key in RecKeys(db, rec')
  {
    forall key | key in RowKeys(current) ensures key in RecKeys(db, rec') {
      var w :| w in current && Key(w) == key;
      var i :| 0 <= i < |current| && current[i] == w;
      assert TagKey(db, current[i].tagId) == key;
    }
  }

  // ---------- one click, on values ----------

  /** The rows of `out` from `n` on get the tag row of their name, or are dropped when there is none;
      `src` says where each kept row came from. */
  ghost predicate IsResolved(tags: map<int, string>, out: seq<Weight>, n: nat, known: seq<Weight>, src: seq<int>) {
    && n <= |out| && |known| == n + |src|
    && (forall i :: 0 <= i < n ==> known[i] == out[i])
    && (forall j :: 0 <= j < |src| ==> n <= src[j] < |out| && Kept(tags, out[src[j]], known[n + j]))
    && (forall i, j :: 0 <= i < j < |src| ==> src[i] < src[j])
    && (forall i :: n <= i < |out| ==> i in src || IsTagFor(tags, out[i].tag, None))
  }

  ghost predicate Kept(tags: map<int, string>, w: Weight, known: Weight) {
    IsTagFor(tags, w.tag, Some(known.tagId)) && known.value == w.value
  }

  lemma ClickedOldRow(db: Db, rec: map<int, int>, base: seq<Weight>, names: seq<string>, out: seq<Weight>,
                      known: seq<Weight>, src: seq<int>, rec': map<int, int>, t: int)
    requires GoodWeights(db, rec) && IsRecommendations(db, rec, base) && t in rec
    requires IsBoost(DecayAll(base), KeysOf(names), CLICK_BOOST, out)
    requires IsResolved(db.tags, out, |base|, known, src) && IsWritten(rec, known, rec')
    ensures t in rec'
    ensures rec'[t] == if TagKey(db, t) in KeysOf(names) then Add(Decay(rec[t]), CLICK_BOOST) else Decay(rec[t])
  {
    var i := OldRowsWritten(db, rec, base, known, rec', t);
  }

  lemma ClickedNewRow(db: Db, rec: map<int, int>, base: seq<Weight>, names: seq<string>, out: seq<Weight>,
                      known: seq<Weight>, src: seq<int>, rec': map<int, int>, t: int)
    requires GoodWeights(db, rec) && IsRecommendations(db, rec, base) && t in rec' && t !in rec
    requires IsBoost(DecayAll(base), KeysOf(names), CLICK_BOOST, out)
    requires IsResolved(db.tags, out, |base|, known, src) && IsWritten(rec, known, rec')
    ensures TagKey(db, t) in KeysOf(names) && TagKey(db, t) !in RecKeys(db, rec)
    ensures IsTagFor(db.tags, TagKey(db, t), Some(t)) && rec'[t] == CLICK_BOOST
  {
    var n := |base|;
    var j := NewRowsWritten(db, rec, base, known, rec', t);
    var i := src[j - n];
    assert Kept(db.tags, out[i], known[n + (j - n)]);
    BoostAddsNewKeys(DecayAll(base), names, CLICK_BOOST, out);
    RecommendationsDoNotCollide(db, rec, base);
    RowKeysSame(DecayAll(base), base);
    assert IsNewKey(DecayAll(base), names, out[i].tag);
  }

  lemma ClickedIsClickWeights(db: Db, rec: map<int, int>, base: seq<Weight>, names: seq<string>, out: seq<Weight>,
                              known: seq<Weight>, src: seq<int>, rec': map<int, int>)
    requires GoodWeights(db, rec) && IsRecommendations(db, rec, base)
    requires IsBoost(DecayAll(base), KeysOf(names), CLICK_BOOST, out)
    requires IsResolved(db.tags, out, |base|, known, src) && IsWritten(rec, known, rec')
    ensures ClickWeights(db, rec, names, rec')
  {
    forall t | t in rec
      ensures t in rec' && rec'[t] ==
              if TagKey(db, t) in KeysOf(names) then Add(Decay(rec[t]), CLICK_BOOST) else Decay(rec[t])
    {
      ClickedOldRow(db, rec, base, names, out, known, src, rec', t);
    }
    forall t | t in rec' && t !in rec
      ensures TagKey(db, t) in KeysOf(names) && TagKey(db, t) !in RecKeys(db, rec)
      ensures IsTagFor(db.tags, TagKey(db, t), Some(t)) && rec'[t] == CLICK_BOOST
    {
      ClickedNewRow(db, rec, base, names, out, known, src, rec', t);
    }
    BoostAddsNewKeys(DecayAll(base), names, CLICK_BOOST, out);
    BoostKeys(DecayAll(base), names, CLICK_BOOST, out);
    KeysAreNormal(names);
    forall i | 0 <= i < |base| ensures TagKey(db, out[i].tagId) == Key(out[i]) { assert base[i] in base; }
    ClickedKeysKept(db, out, |base|, known, src, rec');
  }

  lemma ClickedKeysKept(db: Db, out: seq<Weight>, n: nat, known: seq<Weight>, src: seq<int>, rec': map<int, int>)
    requires IsResolved(db.tags, out, n, known, src)
    requires forall i :: 0 <= i < |known| ==> known[i].tagId in rec'
    requires forall i :: 0 <= i < n ==> TagKey(db, out[i].tagId) == Key(out[i])
    ensures forall key :: key in RowKeys(out) && !IsTagFor(db.tags, key, None) && NormalizeTag(key) == key ==>
              key in RecKeys(db, rec')
  {
    forall key | key in RowKeys(out) && !IsTagFor(db.tags, key, None) && NormalizeTag(key) == key
      ensures key in RecKeys(db, rec')
    {
      var w :| w in out && Key(w) == key;
      var i :| 0 <= i < |out| && out[i] == w;
      if i < n {
        assert TagKey(db, known[i].tagId) == key;
      } else {
        var j :| 0 <= j < |src| && src[j] == i;
        assert Kept(db.tags, out[i], known[n + j]);
        assert TagKey(db, known[n + j].tagId) == key;
      }
    }
  }

  lemma KeysAreNormal(names: seq<string>)
    ensures forall key :: key in KeysOf(names) ==> NormalizeTag(key) == key
  {
    forall key | key in KeysOf(names) ensures NormalizeTag(key) == key {
      var s :| s in names && NormalizeTag(s) == key;
      NormalizeTwice(s);
    }
  }

  /** The IDs are distinct again once every kept row has one. */
  lemma ResolvedIdsDistinct(db: Db, rec: map<int, int>, base: seq<Weight>, names: seq<string>, out: seq<Weight>,
                            known: seq<Weight>, src: seq<int>)
    requires GoodWeights(db, rec) && IsRecommendations(db, rec, base)
    requires IsBoost(DecayAll(base), KeysOf(names), CLICK_BOOST, out)
    requires IsResolved(db.tags, out, |base|, known, src)
    ensures forall i, j :: 0 <= i < j < |known| ==> known[i].tagId != known[j].tagId
  {
    var n := |base|;
    RecommendationsDoNotCollide(db, rec, base);
    RowKeysSame(DecayAll(base), base);
    BoostAddsNewKeys(DecayAll(base), names, CLICK_BOOST, out);
    forall j | 0 <= j < |src|
      ensures TagKey(db, known[n + j].tagId) == out[src[j]].tag && IsNewKey(DecayAll(base), names, out[src[j]].tag)
    {
      assert Kept(db.tags, out[src[j]], known[n + j]);
    }
    forall i, j | 0 <= i < j < |known| ensures known[i].tagId != known[j].tagId {
      if i < n {
        assert base[i] in base && TagKey(db, base[i].tagId) == Key(base[i]);
        assert j >= n ==> TagKey(db, known[n + (j - n)].tagId) == out[src[j - n]].tag;
      } else {
        assert src[i - n] < src[j - n];
        assert TagKey(db, known[n + (i - n)].tagId) != TagKey(db, known[n + (j - n)].tagId);
      }
    }
  }

  // ---------- the store ----------

  datatype SignUpError = UnknownFavoriteTag | UsernameTaken

  /** A set in an unspecified order, as INSERT .. RETURNING gives it. */
  method AnyOrder<T(==)>(elems: set<T>) returns (r: seq<T>)
    ensures Distinct(r) && Elems(r) == elems
  {
    r := [];
    var rest := elems;
    while rest != {}
      invariant rest <= elems && Distinct(r) && Elems(r) == elems - rest
      decreases rest
    {
      var x :| x in rest;
      assert x !in Elems(r);
      assert Elems(r + [x]) == Elems(r) + {x};
      rest, r := rest - {x}, r + [x];
    }
  }

  method FindTagByNormalizedName(tags: map<int, string>, name: string) returns (r: Option<int>)
    ensures IsTagFor(tags, name, r)
  {
    r := None;
    var ids := AnyOrder(tags.Keys);
    for n := 0 to |ids|
      invariant r.Some? ==> r.value in tags && NormalizeTag(tags[r.value]) == NormalizeTag(name)
      invariant forall i :: 0 <= i < n && ids[i] in tags && NormalizeTag(tags[ids[i]]) == NormalizeTag(name) ==>
                  r.Some? && r.value <= ids[i]
    {
      var t := ids[n];
      assert t in Elems(ids);
      if NormalizeTag(tags[t]) == NormalizeTag(name) && (r.None? || t < r.value) { r := Some(t); }
    }
    forall t | t in tags && NormalizeTag(tags[t]) == NormalizeTag(name) ensures r.Some? && r.value <= t {
      assert t in Elems(ids);
    }
  }

  /** Finds the tag row of each new weight, dropping the names that have none. */
  method ResolveNew(tags: map<int, string>, updated: seq<Weight>, ghost n: nat)
    returns (known: seq<Weight>, ghost src: seq<int>)
    requires n <= |updated| && forall i :: 0 <= i < |updated| ==> (updated[i].tagId == 0 <==> n <= i)
    ensures IsResolved(tags, updated, n, known, src)
  {
    known, src := [], [];
    for m := 0 to |updated|
      invariant m <= n ==> |known| == m && src == []
      invariant m >= n ==> |known| == n + |src|
      invariant forall i :: 0 <= i < n && i < m ==> known[i] == updated[i]
      invariant forall j :: 0 <= j < |src| ==> n <= src[j] < m && Kept(tags, updated[src[j]], known[n + j])
      invariant forall i, j :: 0 <= i < j < |src| ==> src[i] < src[j]
      invariant forall i :: n <= i < m ==> i in src || IsTagFor(tags, updated[i].tag, None)
    {
      var w := updated[m];
      if w.tagId == 0 {
        var row := FindTagByNormalizedName(tags, w.tag);
        if row.None? { continue; }
        w := Weight(row.value, tags[row.value], w.value);
        src := src + [m];
      }
      known := known + [w];
    }
  }

  /** The distinct tags of the favourites, or None as soon as one is unknown. */
  method FavoriteTagIds(tags: map<int, string>, favorites: seq<string>) returns (r: Option<set<int>>)
    ensures r.None? <==> exists f :: f in favorites && IsTagFor(tags, f, None)
    ensures r.Some? ==> forall t :: t in r.value <==> exists f :: f in favorites && IsTagFor(tags, f, Some(t))
  {
    var linked: set<int> := {};
    for n := 0 to |favorites|
      invariant forall i :: 0 <= i < n ==> !IsTagFor(tags, favorites[i], None)
      invariant forall t :: t in linked <==> exists i :: 0 <= i < n && IsTagFor(tags, favorites[i], Some(t))
    {
      var tag := FindTagByNormalizedName(tags, favorites[n]);
      if tag.None? { return None; }
      linked := linked + {tag.value};
    }
    return Some(linked);
  }

  class InterestStore {
    const tags: map<int, string>
    var articles: map<int, set<int>>
    var nextArticle: int
    var userNames: map<string, int>
    var nextUser: int
    var saved: map<Pair, SavedRow>
    var learnings: set<Pair>
    var recommend: map<int, map<int, int>>
    ghost var boosts: multiset<Pair>

    ghost function View(): Db
      reads this
    {
      Db(tags, articles, nextArticle, userNames, nextUser, saved, learnings, recommend, boosts)
    }

    ghost predicate Valid()
      reads this
    {
      Inv(View())
    }

    constructor (tagTable: map<int, string>)
      requires forall t :: t in tagTable ==> 1 <= t <= MAX_INT32
      ensures Initial(View()) && Valid() && tags == tagTable
    {
      tags := tagTable;
      articles, nextArticle, userNames, nextUser := map[], 1, map[], 1;
      saved, learnings, recommend, boosts := map[], {}, map[], multiset{};
      new;
      assert forall u :: SavedBy(View(), u) == {};
    }

    // ---------- queries ----------

    method ListArticleTagsByArticles(arts: set<int>) returns (rows: seq<TagRow>)
      requires InvRows(View())
      ensures IsTagRows(View(), arts, rows)
    {
      rows := Enumerate(RowLess, set a, t | a in arts && a in articles && t in articles[a] :: TagRow(a, t, tags[t]));
      assert forall r :: r in rows <==> r in Elems(rows);
    }

    method ListRecommendations(u: int) returns (rows: seq<Weight>)
      requires u in recommend && GoodWeights(View(), recommend[u])
      ensures IsRecommendations(View(), recommend[u], rows)
    {
      var rec := recommend[u];
      rows := Enumerate(IdLess, set t | t in rec :: Weight(t, tags[t], rec[t]));
      assert forall w :: w in rows <==> w in Elems(rows);
    }

    // ---------- learning and clicks ----------

    /** What applyDueSaveLearning writes to the weights, for a non-empty batch of newly recorded articles. */
    method LearnedWeights(ghost db: Db, u: int, newly: set<int>) returns (written: map<int, int>)
      requires InvRows(View()) && InvRows(db) && u in recommend && GoodWeights(db, recommend[u])
      requires db.tags == tags && db.articles == articles
      ensures LearnBatch(db, recommend[u], newly, written)
    {
      ghost var now := View();
      assert forall t :: TagKey(now, t) == TagKey(db, t);
      var tagRows := ListArticleTagsByArticles(newly);
      var rows := ListRecommendations(u);
      assert IsTagRows(db, newly, tagRows) && IsRecommendations(db, recommend[u], rows);
      RecommendationsDoNotCollide(db, recommend[u], rows);
      forall i | 0 <= i < |rows| ensures 0 <= rows[i].value <= SCALE { assert rows[i] in rows; }
      var tagIds := IndexTagIds(db, newly, tagRows);
      var names := NamesByArticle(db, newly, tagRows);
      var ids := AnyOrder(newly);
      var current := LearnFromArticles(db, newly, rows, ids, tagIds, names);
      GrownIdsDistinct(db, recommend[u], rows, newly, tagIds, current);
      written := WriteBack(recommend[u], current);
      GrownIsBatch(db, recommend[u], rows, newly, tagIds, current, written);
    }

    /** MarkDueSavedLearned and RecordSaveLearnings. */
    method MarkDueLearned(u: int, now: int) returns (newly: set<int>)
      modifies this`saved, this`learnings, this`boosts
      ensures newly == Fresh(old(View()), u, now) && View() == MarkLearned(old(View()), u, now)
    {
      ghost var db := View();
      var due := DueIn(saved, u, now);
      newly := set a | a in due && Pair(u, a) !in learnings;
      assert newly == Fresh(db, u, now);
      saved := map p | p in saved :: if p.user == u && p.article in due then saved[p].(learned := true) else saved[p];
      learnings := learnings + (set a | a in newly :: Pair(u, a));
      boosts := boosts + multiset(Pairs(u, newly));
    }

    /** Runs while the caller holds the user's row lock. */
    method ApplyDueSaveLearning(u: int, now: int)
      requires Valid() && u in recommend
      modifies this`saved, this`learnings, this`boosts, this`recommend
      ensures Valid() && LearnStep(old(View()), u, now, View())
    {
      ghost var db := View();
      assert GoodWeights(db, recommend[u]);
      var newly := MarkDueLearned(u, now);
      ghost var marked := View();
      SameTagsGood(db, marked, recommend[u]);
      MarkKeepsRows(db, u, now);
      NothingToLearn(db, recommend[u]);
      var written := recommend[u];
      if newly != {} {
        written := LearnedWeights(db, u, newly);
      }
      recommend := recommend[u := written];
      assert View() == marked.(recommend := db.recommend[u := written]);
      LearnStepKeepsInv(db, u, now, View());
    }

    /** The weights after a click, from the rows as they are after learning. */
    method ClickedWeights(u: int, names: seq<string>) returns (known: seq<Weight>, written: map<int, int>)
      requires Valid() && u in recommend
      ensures ClickWeights(View(), recommend[u], names, written)
      ensures forall t :: t in written <==> exists w :: w in known && w.tagId == t
      ensures forall w :: w in known ==> written[w.tagId] == w.value
    {
      ghost var db := View();
      assert GoodWeights(db, recommend[u]);
      var current := ListRecommendations(u);
      RecommendationsDoNotCollide(db, recommend[u], current);
      var result := UpdateOnClick(current, names);
      var updated := result.value;
      forall i | 0 <= i < |current| ensures updated[i].tagId == current[i].tagId >= 1 { assert current[i] in current; }
      BoostAddsNewKeys(DecayAll(current), names, CLICK_BOOST, updated);
      ghost var src;
      known, src := ResolveNew(tags, updated, |current|);
      ResolvedIdsDistinct(db, recommend[u], current, names, updated, known, src);
      written := UpsertAll(recommend[u], known);
      ClickedIsClickWeights(db, recommend[u], current, names, updated, known, src, written);
      ClickListing(db, recommend[u], current, updated, known, src, written);
    }

    method UpdateForClick(u: int, names: seq<string>, now: int) returns (r: Option<seq<Weight>>)
      requires Valid()
      modifies this`saved, this`learnings, this`boosts, this`recommend
      ensures Valid() && Step(old(View()), Op.Click(u, names, now), View())
      ensures r.Some? <==> u in old(recommend)
      ensures r.Some? ==>
                u in recommend && (forall t :: t in recommend[u] <==> exists w :: w in r.value && w.tagId == t)
                          && forall w :: w in r.value ==> recommend[u][w.tagId] == w.value
    {
      if u !in recommend { return None; }
      ghost var db := View();
      ApplyDueSaveLearning(u, now);
      ghost var mid := View();
      var known, written := ClickedWeights(u, names);
      recommend := recommend[u := written];
      ClickKeepsInv(db, u, names, now, mid, written);
      assert View() == mid.(recommend := mid.recommend[u := View().recommend[u]]);
      return Some(known);
    }

    /** The feed reads the weights, after learning when something is due. */
    method List(u: int, now: int) returns (rows: seq<Weight>)
      requires Valid()
      modifies this
      ensures Valid() && Step(old(View()), Op.Read(u, now), View())
      ensures u in recommend ==> IsRecommendations(View(), recommend[u], rows) && !Collides(rows)
      ensures u !in recommend ==> rows == []
    {
      if u !in recommend { return []; }
      var due := exists p ::
        p in saved && p.user == u && !saved[p].learned && saved[p].createdAt <= now - SAVE_LEARN_DELAY;
      DueIff(View(), u, now);
      if due {
        ApplyDueSaveLearning(u, now);
      }
      assert GoodWeights(View(), recommend[u]);
      rows := ListRecommendations(u);
      RecommendationsDoNotCollide(View(), recommend[u], rows);
    }

    // ---------- saving ----------

    method Save(u: int, a: int, now: int) returns (r: SaveOutcome)
      requires Valid()
      modifies this`saved
      ensures Valid() && Step(old(View()), Op.Save(u, a, now), View())
      ensures r == SaveResult(old(View()), u, a)
    {
      SaveKeepsInv(View(), u, a, now);
      if u !in recommend { return UserNotFound; }
      if Pair(u, a) in saved { return AlreadySaved; }
      if a !in articles { return ArticleNotFound; }
      var mine := set p | p in saved && p.user == u :: p.article;
      assert mine == SavedBy(View(), u);
      if |mine| >= SAVED_ARTICLES_LIMIT { return LimitReached; }
      saved := saved[Pair(u, a) := SavedRow(now, false)];
      return Created;
    }

    method Unsave(u: int, a: int)
      requires Valid()
      modifies this`saved
      ensures Valid() && Step(old(View()), Op.Unsave(u, a), View())
    {
      ghost var db := View();
      saved := saved - {Pair(u, a)};
      StepKeepsInv(db, Op.Unsave(u, a), View());
    }

    // ---------- signup ----------

    method CreateWithInterestsAndSession(name: string, favorites: seq<string>) returns (r: Result<int, SignUpError>)
      requires Valid()
      modifies this
      ensures Valid() && Step(old(View()), SignUp(name, favorites), View())
      ensures r == Err(UnknownFavoriteTag) <==> exists f :: f in favorites && IsTagFor(tags, f, None)
      ensures r == Err(UsernameTaken) <==>
                name in old(userNames) && forall f :: f in favorites ==> !IsTagFor(tags, f, None)
      ensures r.Ok? ==> r.value == old(nextUser) && View() != old(View())
    {
      var linked := FavoriteTagIds(tags, favorites);
      if linked.None? { return Err(UnknownFavoriteTag); }
      if name in userNames { return Err(UsernameTaken); }
      ghost var db := View();
      var id := nextUser;
      nextUser := nextUser + 1;
      userNames := userNames[name := id];
      recommend := recommend[id := map t | t in linked.value :: INITIAL_SELECTED];
      assert SignUpStep(db, name, favorites, View());
      SignUpKeepsInv(db, name, favorites, View());
      return Ok(id);
    }
  }

  method UpsertAll(rec: map<int, int>, known: seq<Weight>) returns (out: map<int, int>)
    requires forall i, j :: 0 <= i < j < |known| ==> known[i].tagId != known[j].tagId
    ensures IsWritten(rec, known, out)
  {
    out := rec;
    for n := 0 to |known|
      invariant forall i :: 0 <= i < n ==> known[i].tagId in out && out[known[i].tagId] == known[i].value
      invariant forall t :: t in rec && (forall i :: 0 <= i < n ==> known[i].tagId != t) ==>
                  t in out && out[t] == rec[t]
      invariant forall t :: t in out ==> t in rec || exists i :: 0 <= i < n && known[i].tagId == t
    {
      out := out[known[n].tagId := known[n].value];
    }
  }

  lemma NothingToLearn(db: Db, rec: map<int, int>)
    ensures LearnBatch(db, rec, {}, rec)
  {
    assert forall key :: Carriers(db, {}, key) == {};
  }

  lemma DueIff(db: Db, u: int, now: int)
    ensures Due(db, u, now) == {} <==>
      !exists p ::
        p in db.saved && p.user == u && !db.saved[p].learned && db.saved[p].createdAt <= now - SAVE_LEARN_DELAY
  {
    if p :| p in db.saved && p.user == u && !db.saved[p].learned && db.saved[p].createdAt <= now - SAVE_LEARN_DELAY {
      assert p.article in Due(db, u, now);
    }
  }

  lemma ClickListing(db: Db, rec: map<int, int>, base: seq<Weight>, out: seq<Weight>, known: seq<Weight>,
      src: seq<int>, rec': map<int, int>)
    requires GoodWeights(db, rec) && IsRecommendations(db, rec, base) && |base| <= |out|
    requires forall i :: 0 <= i < |base| ==> out[i].tagId == base[i].tagId
    requires IsResolved(db.tags, out, |base|, known, src) && IsWritten(rec, known, rec')
    ensures forall t :: t in rec' <==> exists w :: w in known && w.tagId == t
    ensures forall w :: w in known ==> w.tagId in rec' && rec'[w.tagId] == w.value
  {
    forall w | w in known ensures w.tagId in rec' && rec'[w.tagId] == w.value {
      var i :| 0 <= i < |known| && known[i] == w;
    }
    forall t | t in rec' ensures exists w :: w in known && w.tagId == t {
      if t in rec {
        var i := OldRowsWritten(db, rec, base, known, rec', t);
        assert known[i] in known;
      } else {
        var i := NewRowsWritten(db, rec, base, known, rec', t);
        assert known[i] in known;
      }
    }
  }
}
