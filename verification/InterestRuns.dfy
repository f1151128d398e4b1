/** Whole-run properties of interest learning. */
module InterestRuns {
  import opened Wrappers
  import opened Tags
  import opened Interest
  import opened InterestModel
  import opened Sets

  lemma LearnedInScale(v: int, times: nat)
    requires 0 <= v <= SCALE
    ensures 0 <= Learned(v, times) <= SCALE
  {
  }

  lemma LearnBatchGood(db: Db, rec: map<int, int>, arts: set<int>, rec': map<int, int>)
    requires GoodWeights(db, rec) && LearnBatch(db, rec, arts, rec')
    ensures GoodWeights(db, rec')
  {
    forall t | t in rec' ensures t in db.tags && 0 <= rec'[t] <= SCALE {
      if t in rec {
        LearnedInScale(rec[t], Times(db, arts, TagKey(db, t)));
      } else {
        LearnedInScale(0, Times(db, arts, TagKey(db, t)));
      }
    }
    forall t, s | t in rec' && s in rec' && t != s ensures TagKey(db, t) != TagKey(db, s) {
      if t !in rec && s !in rec && TagKey(db, t) == TagKey(db, s) {
        LastCarrierUnique(db, arts, t, s);
      }
    }
  }

  lemma LastCarrierUnique(db: Db, arts: set<int>, t: int, s: int)
    requires LastCarrier(db, arts, t) && LastCarrier(db, arts, s) && TagKey(db, t) == TagKey(db, s)
    ensures t == s
  {
  }

  lemma ClickWeightsGood(db: Db, rec: map<int, int>, names: seq<string>, rec': map<int, int>)
    requires GoodWeights(db, rec) && ClickWeights(db, rec, names, rec')
    ensures GoodWeights(db, rec')
  {
    forall t, s | t in rec' && s in rec' && t != s ensures TagKey(db, t) != TagKey(db, s) {
    }
  }

  lemma SavedByUpdate(db: Db, u: int, a: int, row: SavedRow, v: int)
    ensures var db' := db.(saved := db.saved[Pair(u, a) := row]);
            SavedBy(db', v) == if v == u then SavedBy(db, v) + {a} else SavedBy(db, v)
  {
    var db' := db.(saved := db.saved[Pair(u, a) := row]);
    forall b ensures b in SavedBy(db', v) <==> Pair(v, b) in db'.saved { SavedByIff(db', v, b); }
    forall b ensures b in SavedBy(db, v) <==> Pair(v, b) in db.saved { SavedByIff(db, v, b); }
  }

  lemma SavedByIff(db: Db, u: int, a: int)
    ensures a in SavedBy(db, u) <==> Pair(u, a) in db.saved
  {
    if a in SavedBy(db, u) {
      var p :| p in db.saved && p.user == u && p.article == a;
      assert p == Pair(u, a);
    }
  }

  /** Steps that leave the tags alone, with a part of the database each. */
  lemma FrameWeights(db: Db, db': Db)
    requires InvWeights(db) && db'.tags == db.tags && db'.recommend == db.recommend
    ensures InvWeights(db')
  {
    assert forall t :: TagKey(db', t) == TagKey(db, t);
    forall u | u in db'.recommend ensures GoodWeights(db', db'.recommend[u]) {
      assert GoodWeights(db, db.recommend[u]);
    }
  }

  lemma FrameLimit(db: Db, db': Db)
    requires InvLimit(db) && db'.saved.Keys <= db.saved.Keys
    ensures InvLimit(db')
  {
    forall u ensures |SavedBy(db', u)| <= SAVED_ARTICLES_LIMIT {
      SubsetCard(SavedBy(db', u), SavedBy(db, u));
    }
  }

  lemma NewWeightsGood(db: Db, u: int, rec: map<int, int>, db': Db)
    requires InvWeights(db) && GoodWeights(db, rec)
    requires db'.tags == db.tags && db'.recommend == db.recommend[u := rec]
    ensures InvWeights(db')
  {
    assert forall t :: TagKey(db', t) == TagKey(db, t);
    forall v | v in db'.recommend ensures GoodWeights(db', db'.recommend[v]) {
      if v != u { assert GoodWeights(db, db.recommend[v]); }
    }
  }

  lemma MarkKeepsBoosts(db: Db, u: int, now: int)
    requires InvRows(db) && InvBoosts(db)
    ensures InvBoosts(MarkLearned(db, u, now))
  {
    var newly := Pairs(u, Fresh(db, u, now));
    forall p | p in newly ensures p in db.saved && p !in db.learnings && p !in db.boosts {
      assert p.article in Due(db, u, now);
    }
  }

  lemma MarkKeepsRows(db: Db, u: int, now: int)
    requires InvRows(db)
    ensures InvRows(MarkLearned(db, u, now))
  {
    forall p | p in Pairs(u, Fresh(db, u, now)) ensures p in db.saved {
      assert p.article in Due(db, u, now);
    }
  }

  lemma MarkKeepsInv(db: Db, u: int, now: int)
    requires Inv(db)
    ensures Inv(MarkLearned(db, u, now))
  {
    MarkKeepsRows(db, u, now);
    MarkKeepsBoosts(db, u, now);
    FrameWeights(db, MarkLearned(db, u, now));
    FrameLimit(db, MarkLearned(db, u, now));
  }

  lemma ReplaceWeightsKeepsInv(db: Db, u: int, rec: map<int, int>)
    requires Inv(db) && u in db.recommend && GoodWeights(db, rec)
    ensures Inv(db.(recommend := db.recommend[u := rec]))
  {
    NewWeightsGood(db, u, rec, db.(recommend := db.recommend[u := rec]));
    FrameLimit(db, db.(recommend := db.recommend[u := rec]));
  }

  lemma SameTagsGood(a: Db, b: Db, rec: map<int, int>)
    requires GoodWeights(a, rec) && b.tags == a.tags
    ensures GoodWeights(b, rec)
  {
    assert forall t :: TagKey(b, t) == TagKey(a, t);
  }

  lemma LearnStepKeepsInv(db: Db, u: int, now: int, db': Db)
    requires Inv(db) && LearnStep(db, u, now, db')
    ensures Inv(db')
  {
    var marked := MarkLearned(db, u, now);
    MarkKeepsInv(db, u, now);
    LearnBatchGood(db, db.recommend[u], Fresh(db, u, now), db'.recommend[u]);
    SameTagsGood(db, marked, db'.recommend[u]);
    ReplaceWeightsKeepsInv(marked, u, db'.recommend[u]);
  }

  lemma ClickKeepsInv(db: Db, u: int, names: seq<string>, now: int, mid: Db, rec: map<int, int>)
    requires Inv(db) && LearnStep(db, u, now, mid) && ClickWeights(mid, mid.recommend[u], names, rec)
    ensures Inv(mid.(recommend := mid.recommend[u := rec]))
  {
    LearnStepKeepsInv(db, u, now, mid);
    ClickWeightsGood(mid, mid.recommend[u], names, rec);
    ReplaceWeightsKeepsInv(mid, u, rec);
  }

  lemma ClickStepKeepsInv(db: Db, u: int, names: seq<string>, now: int, db': Db)
    requires Inv(db) && ClickStep(db, u, names, now, db')
    ensures Inv(db')
  {
    if u in db.recommend {
      var mid :| LearnStep(db, u, now, mid) && u in db'.recommend
        && ClickWeights(mid, mid.recommend[u], names, db'.recommend[u])
        && db' == mid.(recommend := mid.recommend[u := db'.recommend[u]]);
      ClickKeepsInv(db, u, names, now, mid, db'.recommend[u]);
    }
  }

  lemma SaveKeepsInv(db: Db, u: int, a: int, now: int)
    requires Inv(db)
    ensures Inv(SaveEffect(db, u, a, now))
  {
    var db' := SaveEffect(db, u, a, now);
    FrameWeights(db, db');
    if SaveResult(db, u, a) == Created {
      forall v ensures |SavedBy(db', v)| <= SAVED_ARTICLES_LIMIT {
        SavedByUpdate(db, u, a, SavedRow(now, false), v);
      }
    }
  }

  lemma SignUpKeepsInv(db: Db, name: string, favorites: seq<string>, db': Db)
    requires Inv(db) && SignUpStep(db, name, favorites, db')
    ensures Inv(db')
  {
    if db' != db {
      var rec := db'.recommend[db.nextUser];
      assert GoodWeights(db, rec);
      NewWeightsGood(db, db.nextUser, rec, db');
      FrameLimit(db, db');
    }
  }

  /** Unsaving, retiring, and new articles or article tags: no weight changes and no save appears. */
  lemma OtherStepsKeepInv(db: Db, db': Db)
    requires Inv(db) && InvRows(db') && db'.recommend == db.recommend && db'.tags == db.tags && db'.boosts == db.boosts
    requires db'.saved.Keys <= db.saved.Keys && db'.learnings <= db.learnings && db.nextArticle <= db'.nextArticle
    requires forall p :: p in db.learnings && p !in db'.learnings ==> p.article !in db'.articles
    requires forall a :: a < db.nextArticle && a in db'.articles ==> a in db.articles
    ensures Inv(db')
  {
    FrameWeights(db, db');
    FrameLimit(db, db');
  }

  lemma AddKeepsRows(db: Db, op: Op, db': Db)
    requires InvRows(db) && Step(db, op, db') && (op.AddArticle? || op.TagArticle?)
    ensures InvRows(db')
  {
  }

  lemma ArticleStepKeepsInv(db: Db, op: Op, db': Db)
    requires Inv(db) && Step(db, op, db') && (op.AddArticle? || op.TagArticle?)
    ensures Inv(db')
  {
    AddKeepsRows(db, op, db');
    OtherStepsKeepInv(db, db');
  }

  lemma RemovalKeepsRows(db: Db, op: Op, db': Db)
    requires InvRows(db) && Step(db, op, db') && (op.Unsave? || op.Retire?)
    ensures InvRows(db')
  {
  }

  lemma RemovalKeepsInv(db: Db, op: Op, db': Db)
    requires Inv(db) && Step(db, op, db') && (op.Unsave? || op.Retire?)
    ensures Inv(db')
  {
    RemovalKeepsRows(db, op, db');
    OtherStepsKeepInv(db, db');
  }

  lemma StepKeepsInv(db: Db, op: Op, db': Db)
    requires Inv(db) && Step(db, op, db')
    ensures Inv(db')
  {
    match op
    case SignUp(name, favorites) => SignUpKeepsInv(db, name, favorites, db');
    case Save(u, a, now) => SaveKeepsInv(db, u, a, now);
    case Click(u, names, now) => ClickStepKeepsInv(db, u, names, now, db');
    case Read(u, now) => if db' != db { LearnStepKeepsInv(db, u, now, db'); }
    case AddArticle(_) => ArticleStepKeepsInv(db, op, db');
    case TagArticle(_, _) => ArticleStepKeepsInv(db, op, db');
    case Unsave(_, _) => RemovalKeepsInv(db, op, db');
    case Retire(_) => RemovalKeepsInv(db, op, db');
  }

  // ---------- runs ----------

  ghost predicate IsRun(states: seq<Db>, ops: seq<Op>) {
    && |states| == |ops| + 1
    && Initial(states[0])
    && forall i {:trigger ops[i]} :: 0 <= i < |ops| ==> Step(states[i], ops[i], states[i + 1])
  }

  lemma {:induction false} InvOverRuns(states: seq<Db>, ops: seq<Op>, n: nat)
    requires IsRun(states, ops) && n < |states|
    ensures Inv(states[n])
  {
    if n == 0 {
      assert forall u :: SavedBy(states[0], u) == {};
    } else {
      InvOverRuns(states, ops, n - 1);
      assert Step(states[n - 1], ops[n - 1], states[n]);
      StepKeepsInv(states[n - 1], ops[n - 1], states[n]);
    }
  }

  /** The stored weights of a user, as the list that ListRecommendations returns in any order. */
  ghost predicate IsListing(db: Db, u: int, rows: seq<Weight>) {
    && u in db.recommend
    && (forall i :: 0 <= i < |rows| ==>
          && rows[i].tagId in db.recommend[u] && rows[i].tagId in db.tags
          && rows[i].tag == db.tags[rows[i].tagId] && rows[i].value == db.recommend[u][rows[i].tagId])
    && (forall i, j :: 0 <= i < j < |rows| ==> rows[i].tagId != rows[j].tagId)
  }

  /** From signup onward every stored weight is in scale and ValidateCurrent never rejects what a user has. */
  lemma WeightsStayValid(states: seq<Db>, ops: seq<Op>, n: nat, u: int, rows: seq<Weight>)
    requires IsRun(states, ops) && n < |states| && IsListing(states[n], u, rows)
    ensures !Collides(rows)
    ensures forall i :: 0 <= i < |rows| ==> 0 <= rows[i].value <= SCALE
  {
    InvOverRuns(states, ops, n);
    var db := states[n];
    assert GoodWeights(db, db.recommend[u]);
    forall i, j | 0 <= i < j < |rows| ensures Key(rows[i]) != Key(rows[j]) {
      assert TagKey(db, rows[i].tagId) != TagKey(db, rows[j].tagId);
    }
  }

  /** A user learns from an article at most once ever, whatever is unsaved, saved again or retired in between. */
  lemma LearnedAtMostOnce(states: seq<Db>, ops: seq<Op>, n: nat, p: Pair)
    requires IsRun(states, ops) && n < |states|
    ensures states[n].boosts[p] <= 1
  {
    InvOverRuns(states, ops, n);
    if p in states[n].boosts {
      assert states[n].boosts[p] == 1;
    }
  }

  /** Exactly when a step learns from a pair. */
  lemma BoostExactly(db: Db, op: Op, db': Db, p: Pair)
    requires Inv(db) && Step(db, op, db')
    ensures db'.boosts[p] > db.boosts[p] <==>
            && (op.Click? || op.Read?) && op.user == p.user
            && p in db.saved && !db.saved[p].learned && db.saved[p].createdAt + SAVE_LEARN_DELAY <= op.now
            && p !in db.learnings
  {
    if op.Click? || op.Read? {
      FreshIff(db, op.user, op.now, p);
    }
  }

  lemma FreshIff(db: Db, u: int, now: int, p: Pair)
    ensures p in Pairs(u, Fresh(db, u, now)) <==>
            && p.user == u && p in db.saved && !db.saved[p].learned
            && db.saved[p].createdAt + SAVE_LEARN_DELAY <= now && p !in db.learnings
    ensures p in Pairs(u, Fresh(db, u, now)) ==> Due(db, u, now) != {}
  {
    assert p in Pairs(u, Fresh(db, u, now)) <==> p.user == u && p.article in Fresh(db, u, now);
    if p.user == u && p.article in Due(db, u, now) {
      var q :| q in db.saved && q.user == u && q.article == p.article && !db.saved[q].learned
        && db.saved[q].createdAt <= now - SAVE_LEARN_DELAY;
      assert q == p;
    }
  }

  lemma SavedOrigin(db: Db, op: Op, db': Db, p: Pair)
    requires Step(db, op, db') && p in db'.saved
    ensures (p in db.saved && db.saved[p].createdAt == db'.saved[p].createdAt)
            || op == Save(p.user, p.article, db'.saved[p].createdAt)
  {
  }

  ghost predicate SaveChain(states: seq<Db>, ops: seq<Op>, p: Pair) {
    && |states| == |ops| + 1
    && p !in states[0].saved
    && forall i :: 0 <= i < |ops| && p in states[i + 1].saved ==>
         || (p in states[i].saved && states[i].saved[p].createdAt == states[i + 1].saved[p].createdAt)
         || ops[i] == Save(p.user, p.article, states[i + 1].saved[p].createdAt)
  }

  lemma RunSaveChain(states: seq<Db>, ops: seq<Op>, p: Pair)
    requires IsRun(states, ops)
    ensures SaveChain(states, ops, p)
  {
    forall i | 0 <= i < |ops| && p in states[i + 1].saved
      ensures (p in states[i].saved && states[i].saved[p].createdAt == states[i + 1].saved[p].createdAt)
              || ops[i] == Save(p.user, p.article, states[i + 1].saved[p].createdAt)
    {
      SavedOrigin(states[i], ops[i], states[i + 1], p);
    }
  }

  /** Where a saved row comes from: a save, with its time stamp, since when the row has been there without a break. */
  lemma {:induction false} SavedSince(states: seq<Db>, ops: seq<Op>, n: nat, p: Pair) returns (i: nat)
    requires SaveChain(states, ops, p) && n < |states| && p in states[n].saved
    ensures i < n && ops[i] == Save(p.user, p.article, states[n].saved[p].createdAt)
    ensures forall k :: i < k <= n ==> p in states[k].saved
  {
    if ops[n - 1] == Save(p.user, p.article, states[n].saved[p].createdAt) {
      i := n - 1;
    } else {
      i := SavedSince(states, ops, n - 1, p);
    }
  }

  /** Learning from a pair needs one save of it that has lasted 10 seconds without being undone. */
  lemma BoostNeedsLastingSave(states: seq<Db>, ops: seq<Op>, n: nat, p: Pair) returns (i: nat)
    requires IsRun(states, ops) && n < |ops| && states[n + 1].boosts[p] > states[n].boosts[p]
    ensures ops[n].Click? || ops[n].Read?
    ensures i < n && ops[i].Save? && ops[i].user == p.user && ops[i].article == p.article
    ensures ops[i].now + SAVE_LEARN_DELAY <= ops[n].now
    ensures forall k :: i < k <= n ==> p in states[k].saved
  {
    InvOverRuns(states, ops, n);
    BoostExactly(states[n], ops[n], states[n + 1], p);
    RunSaveChain(states, ops, p);
    i := SavedSince(states, ops, n, p);
  }
}
