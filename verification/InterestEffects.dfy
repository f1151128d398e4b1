/** What each transaction on the interest tables changes, row by row, and what a weight comes to over many clicks. */
module InterestEffects {
  import opened Tags
  import opened Interest
  import opened InterestModel
  import opened InterestRuns

  const TEN_SECONDS := 10_000

  // ---------- saved rows and marks ----------

  /** A click or read of the user, by which the row has been saved for ten seconds. */
  ghost predicate MarksDue(op: Op, p: Pair, createdAt: int) {
    (op.Click? || op.Read?) && op.user == p.user && createdAt + TEN_SECONDS <= op.now
  }

  lemma DueHas(db: Db, u: int, now: int, a: int)
    ensures a in Due(db, u, now) <==>
              && Pair(u, a) in db.saved && !db.saved[Pair(u, a)].learned
              && db.saved[Pair(u, a)].createdAt + TEN_SECONDS <= now
  {
    if a in Due(db, u, now) {
      var q :| q in db.saved && q.user == u && q.article == a && !db.saved[q].learned
               && db.saved[q].createdAt <= now - SAVE_LEARN_DELAY;
      assert q == Pair(u, a);
    }
  }

  lemma MarkedRow(db: Db, u: int, now: int, p: Pair)
    requires p in db.saved
    ensures p in MarkLearned(db, u, now).saved
    ensures MarkLearned(db, u, now).saved[p] ==
            if p.user == u && db.saved[p].createdAt + TEN_SECONDS <= now then db.saved[p].(learned := true)
            else db.saved[p]
  {
    DueHas(db, u, now, p.article);
  }

  /** With nothing due there is nothing to mark. */
  lemma NothingMarked(db: Db, u: int, now: int)
    requires Due(db, u, now) == {}
    ensures MarkLearned(db, u, now).saved == db.saved
  {
    forall p | p in db.saved ensures MarkLearned(db, u, now).saved[p] == db.saved[p] {
    }
  }

  ghost predicate Leaves(db: Db, u: int, now: int, db': Db) {
    && db'.saved == MarkLearned(db, u, now).saved && db'.tags == db.tags && db'.articles == db.articles
    && u in db'.recommend && db'.recommend == db.recommend[u := db'.recommend[u]]
  }

  lemma LearnStepLeaves(db: Db, u: int, now: int, db': Db)
    requires u in db.recommend && LearnStep(db, u, now, db')
    ensures Leaves(db, u, now, db')
  {
  }

  lemma WeightsAside(db: Db, u: int, now: int, mid: Db, rec: map<int, int>)
    requires Leaves(db, u, now, mid)
    ensures Leaves(db, u, now, mid.(recommend := mid.recommend[u := rec]))
  {
  }

  /** What learning leaves of the tables but the user's own weights. */
  lemma LearningLeaves(db: Db, op: Op, db': Db)
    requires Step(db, op, db') && (op.Click? || op.Read?) && op.user in db.recommend
    ensures Leaves(db, op.user, op.now, db')
  {
    if op.Click? {
      var mid :| LearnStep(db, op.user, op.now, mid)
                 && db' == mid.(recommend := mid.recommend[op.user := db'.recommend[op.user]]);
      LearnStepLeaves(db, op.user, op.now, mid);
      WeightsAside(db, op.user, op.now, mid, db'.recommend[op.user]);
    } else if Due(db, op.user, op.now) == {} {
      NothingMarked(db, op.user, op.now);
    } else {
      LearnStepLeaves(db, op.user, op.now, db');
    }
  }

  /** A row is there exactly when it was and is not undone, or when it is saved now: a known user, an article that is
      there, no row yet and fewer than 500. It keeps its instant, and is marked once it is due. */
  ghost predicate SavedIs(db: Db, op: Op, db': Db, p: Pair) {
    && (p in db'.saved <==>
          if p in db.saved then op != Unsave(p.user, p.article)
          else op.Save? && op.user == p.user && op.article == p.article && p.user in db.recommend
               && p.article in db.articles && |SavedBy(db, p.user)| < 500)
    && (p in db.saved && p in db'.saved ==>
          && db'.saved[p].createdAt == db.saved[p].createdAt
          && (db'.saved[p].learned <==> db.saved[p].learned || MarksDue(op, p, db.saved[p].createdAt)))
    && (p !in db.saved && p in db'.saved ==> db'.saved[p] == SavedRow(op.now, false))
  }

  lemma SavedAfterLearning(db: Db, op: Op, db': Db, p: Pair)
    requires InvRows(db) && Step(db, op, db') && (op.Click? || op.Read?)
    ensures SavedIs(db, op, db', p)
  {
    if op.user in db.recommend {
      LearningLeaves(db, op, db');
      if p in db.saved { MarkedRow(db, op.user, op.now, p); }
    }
  }

  lemma SavedAfterSaving(db: Db, op: Op, db': Db, p: Pair)
    requires InvRows(db) && Step(db, op, db') && (op.Save? || op.Unsave?)
    ensures SavedIs(db, op, db', p)
  {
  }

  lemma SavedExactly(db: Db, op: Op, db': Db, p: Pair)
    requires InvRows(db) && Step(db, op, db')
    ensures SavedIs(db, op, db', p)
  {
    match op
    case Click(_, _, _) => SavedAfterLearning(db, op, db', p);
    case Read(_, _) => SavedAfterLearning(db, op, db', p);
    case SignUp(_, _) => SignUpLeaves(db, op, db');
    case Save(_, _, _) => SavedAfterSaving(db, op, db', p);
    case Unsave(_, _) => SavedAfterSaving(db, op, db', p);
    case _ => RestLeaves(db, op, db');
  }

  /** The mark that keeps a user from learning twice stays until the article is deleted, which only happens to articles
      that nobody has saved; it comes with learning. */
  lemma LearningsExactly(db: Db, op: Op, db': Db, p: Pair)
    requires InvRows(db) && Step(db, op, db')
    ensures p in db'.learnings <==>
              if p in db.learnings
              then !(op == Retire(p.article) && forall q :: q in db.saved ==> q.article != p.article)
              else p in db.saved && !db.saved[p].learned && MarksDue(op, p, db.saved[p].createdAt)
  {
    if op.Click? || op.Read? { FreshIff(db, op.user, op.now, p); }
  }

  lemma SignUpLeaves(db: Db, op: Op, db': Db)
    requires InvRows(db) && Step(db, op, db') && op.SignUp?
    ensures db'.saved == db.saved && db'.learnings == db.learnings
    ensures forall u :: u in db.recommend ==> u in db'.recommend && db'.recommend[u] == db.recommend[u]
  {
  }

  lemma RestLeaves(db: Db, op: Op, db': Db)
    requires Step(db, op, db') && !op.Click? && !op.Read? && !op.SignUp?
    ensures db'.recommend == db.recommend
    ensures !op.Save? && !op.Unsave? ==> db'.saved == db.saved
  {
  }

  /** Nobody's weights change but by the user's own clicks and reads. */
  lemma OthersUntouched(db: Db, op: Op, db': Db, u: int)
    requires Inv(db) && Step(db, op, db') && u in db.recommend
    requires !((op.Click? || op.Read?) && op.user == u)
    ensures u in db'.recommend && db'.recommend[u] == db.recommend[u]
  {
    if op.Click? || op.Read? {
      if op.user in db.recommend { LearningLeaves(db, op, db'); }
    } else if op.SignUp? {
      SignUpLeaves(db, op, db');
    } else {
      RestLeaves(db, op, db');
    }
  }

  /** A new user starts with full weight on exactly the tags that the favourites name, and nothing else. */
  lemma NewUserStarts(db: Db, op: Op, db': Db, t: int)
    requires Inv(db) && Step(db, op, db') && op.SignUp? && db' != db
    ensures db'.nextUser == db.nextUser + 1 && db.nextUser !in db.recommend && db.nextUser in db'.recommend
    ensures t in db'.recommend[db.nextUser] <==>
              exists f :: f in op.favorites && t in db.tags && NormalizeTag(db.tags[t]) == NormalizeTag(f)
                          && forall s :: s in db.tags && NormalizeTag(db.tags[s]) == NormalizeTag(f) ==> t <= s
    ensures t in db'.recommend[db.nextUser] ==> db'.recommend[db.nextUser][t] == 10000
  {
    var rec := db'.recommend[db.nextUser];
    assert t in rec <==> exists f :: f in op.favorites && IsTagFor(db.tags, f, Wrappers.Some(t));
  }

  // ---------- weights ----------

  /** The articles from which the user learns now and that carry the tag. */
  ghost function Lessons(db: Db, u: int, now: int, key: string): set<int> {
    set a | a in db.articles && Carries(db, a, key) && Pair(u, a) in db.saved && !db.saved[Pair(u, a)].learned
            && db.saved[Pair(u, a)].createdAt + TEN_SECONDS <= now && Pair(u, a) !in db.learnings
  }

  lemma LessonsAre(db: Db, u: int, now: int, key: string)
    ensures Carriers(db, Fresh(db, u, now), key) == Lessons(db, u, now, key)
  {
    forall a ensures a in Carriers(db, Fresh(db, u, now), key) <==> a in Lessons(db, u, now, key) {
      DueHas(db, u, now, a);
    }
  }

  function Grown(v: int, lessons: nat): int {
    if lessons == 0 then v else if v + 3000 * lessons > 10000 then 10000 else v + 3000 * lessons
  }

  /** Reading the feed adds 3000 for every article learned from that carries the tag, up to 10000. */
  lemma ReadGrows(db: Db, op: Op, db': Db, t: int)
    requires Inv(db) && Step(db, op, db') && op.Read? && op.user in db.recommend && t in db.recommend[op.user]
    requires TagKey(db, t) != ""
    ensures op.user in db'.recommend && t in db'.recommend[op.user]
    ensures db'.recommend[op.user][t] == Grown(db.recommend[op.user][t], |Lessons(db, op.user, op.now, TagKey(db, t))|)
  {
    LessonsAre(db, op.user, op.now, TagKey(db, t));
    if Due(db, op.user, op.now) == {} { assert Lessons(db, op.user, op.now, TagKey(db, t)) == {}; }
  }

  /** A tag of an article learned from that had no weight gets one: 3000 for each such article. */
  lemma ReadAdds(db: Db, op: Op, db': Db, t: int)
    requires Inv(db) && Step(db, op, db') && op.Read? && op.user in db.recommend
    requires op.user in db'.recommend && t in db'.recommend[op.user] && t !in db.recommend[op.user]
    ensures TagKey(db, t) != "" && Lessons(db, op.user, op.now, TagKey(db, t)) != {}
    ensures db'.recommend[op.user][t] == Grown(0, |Lessons(db, op.user, op.now, TagKey(db, t))|)
    ensures forall s :: s in db.recommend[op.user] ==> TagKey(db, s) != TagKey(db, t)
  {
    LessonsAre(db, op.user, op.now, TagKey(db, t));
    var fresh' := Fresh(db, op.user, op.now);
    var a :| a in fresh' && a in db.articles && t in db.articles[a];
    assert a in Carriers(db, fresh', TagKey(db, t));
    forall s | s in db.recommend[op.user] ensures TagKey(db, s) != TagKey(db, t) {
      assert TagKey(db, s) in RecKeys(db, db.recommend[op.user]);
    }
  }

  /** No tag of an article learned from is left without a weight. */
  lemma ReadMissesNothing(db: Db, op: Op, db': Db, key: string)
    requires Inv(db) && Step(db, op, db') && op.Read? && op.user in db.recommend && key != ""
    requires Lessons(db, op.user, op.now, key) != {}
    ensures op.user in db'.recommend && exists t :: t in db'.recommend[op.user] && TagKey(db', t) == key
  {
    LessonsAre(db, op.user, op.now, key);
    var a :| a in Lessons(db, op.user, op.now, key);
    assert a in Carriers(db, Fresh(db, op.user, op.now), key);
    assert key in RecKeys(db, db'.recommend[op.user]);
  }

  /** One click: what is learned first, then the decay by a fifth, and 2000 more for a clicked tag. */
  lemma ClickMoves(db: Db, op: Op, db': Db, t: int)
    requires Inv(db) && Step(db, op, db') && op.Click? && op.user in db.recommend && t in db.recommend[op.user]
    requires TagKey(db, t) != ""
    ensures op.user in db'.recommend && t in db'.recommend[op.user]
    ensures var learned := Grown(db.recommend[op.user][t], |Lessons(db, op.user, op.now, TagKey(db, t))|);
            db'.recommend[op.user][t] == AfterClicks(learned, [TagKey(db, t) in KeysOf(op.names)])
  {
    var mid := ClickMid(db, op, db');
    LessonsAre(db, op.user, op.now, TagKey(db, t));
    var w := mid.recommend[op.user][t];
    assert TagKey(mid, t) == TagKey(db, t);
    assert AfterClicks(w, []) == w;
    assert [TagKey(db, t) in KeysOf(op.names)][..0] == [];
  }

  lemma ClickMid(db: Db, op: Op, db': Db) returns (mid: Db)
    requires Step(db, op, db') && op.Click? && op.user in db.recommend
    ensures op.user in mid.recommend && op.user in db'.recommend && mid.tags == db.tags
    ensures LearnBatch(db, db.recommend[op.user], Fresh(db, op.user, op.now), mid.recommend[op.user])
    ensures ClickWeights(mid, mid.recommend[op.user], op.names, db'.recommend[op.user])
  {
    mid :| LearnStep(db, op.user, op.now, mid)
           && ClickWeights(mid, mid.recommend[op.user], op.names, db'.recommend[op.user]);
  }

  // ---------- many clicks ----------

  /** The clicks of a user in steps i .. j-1, and whether each was on the tag. */
  ghost function ClicksOn(ops: seq<Op>, i: nat, j: nat, u: int, key: string): seq<bool>
    requires i <= j <= |ops|
    decreases j
  {
    if i == j then []
    else
      var before := ClicksOn(ops, i, j - 1, u, key);
      if ops[j - 1].Click? && ops[j - 1].user == u then before + [key in KeysOf(ops[j - 1].names)] else before
  }

  /** The step learns nothing about the tag. */
  ghost predicate NoLesson(db: Db, op: Op, u: int, key: string) {
    (op.Click? || op.Read?) && op.user == u ==> Lessons(db, u, op.now, key) == {}
  }

  ghost predicate NoLessonAt(states: seq<Db>, ops: seq<Op>, k: nat, u: int, key: string)
    requires k < |ops| && k < |states|
  {
    NoLesson(states[k], ops[k], u, key)
  }

  lemma TagsStay(db: Db, op: Op, db': Db)
    requires Step(db, op, db')
    ensures db'.tags == db.tags
  {
    if (op.Click? || op.Read?) && op.user in db.recommend { LearningLeaves(db, op, db'); }
  }

  lemma WeightStep(db: Db, op: Op, db': Db, u: int, t: int)
    requires Inv(db) && Step(db, op, db') && u in db.recommend && t in db.recommend[u] && TagKey(db, t) != ""
    requires NoLesson(db, op, u, TagKey(db, t))
    ensures u in db'.recommend && t in db'.recommend[u]
    ensures db'.recommend[u][t] ==
            if op.Click? && op.user == u then AfterClicks(db.recommend[u][t], [TagKey(db, t) in KeysOf(op.names)])
            else db.recommend[u][t]
  {
    if op.Click? && op.user == u {
      ClickMoves(db, op, db', t);
    } else if op.Read? && op.user == u {
      ReadGrows(db, op, db', t);
    } else {
      OthersUntouched(db, op, db', u);
    }
  }

  lemma OneMoreClick(v: int, hits: seq<bool>, hit: bool)
    ensures AfterClicks(v, hits + [hit]) == AfterClicks(AfterClicks(v, hits), [hit])
  {
    assert (hits + [hit])[..|hits|] == hits;
    assert [hit][..0] == [];
  }

  /** The weight at j is what the clicks of steps i .. j-1 made of the one at i. */
  ghost predicate Follows(states: seq<Db>, ops: seq<Op>, i: nat, j: nat, u: int, t: int)
    requires i <= j <= |ops| < |states| && u in states[i].recommend && t in states[i].recommend[u]
  {
    && states[j].tags == states[i].tags && u in states[j].recommend && t in states[j].recommend[u]
    && states[j].recommend[u][t] ==
       AfterClicks(states[i].recommend[u][t], ClicksOn(ops, i, j, u, TagKey(states[i], t)))
  }

  lemma FollowsStart(states: seq<Db>, ops: seq<Op>, i: nat, u: int, t: int)
    requires i <= |ops| < |states| && u in states[i].recommend && t in states[i].recommend[u]
    ensures Follows(states, ops, i, i, u, t)
  {
  }

  lemma FollowsNext(states: seq<Db>, ops: seq<Op>, i: nat, j: nat, u: int, t: int)
    requires IsRun(states, ops) && i <= j < |ops| && u in states[i].recommend && t in states[i].recommend[u]
    requires TagKey(states[i], t) != "" && Follows(states, ops, i, j, u, t)
    requires NoLessonAt(states, ops, j, u, TagKey(states[i], t))
    ensures Follows(states, ops, i, j + 1, u, t)
  {
    var key := TagKey(states[i], t);
    InvOverRuns(states, ops, j);
    assert Step(states[j], ops[j], states[j + 1]);
    TagsStay(states[j], ops[j], states[j + 1]);
    assert TagKey(states[j], t) == key;
    WeightStep(states[j], ops[j], states[j + 1], u, t);
    if ops[j].Click? && ops[j].user == u {
      OneMoreClick(states[i].recommend[u][t], ClicksOn(ops, i, j, u, key), key in KeysOf(ops[j].names));
    }
  }

  /** Over any stretch of a run in which nothing about the tag is learned, its weight follows the user's clicks
      alone. */
  lemma {:induction false} ClicksDecide(states: seq<Db>, ops: seq<Op>, i: nat, j: nat, u: int, t: int)
    requires IsRun(states, ops) && i <= j <= |ops| && u in states[i].recommend && t in states[i].recommend[u]
    requires TagKey(states[i], t) != ""
    requires forall k :: i <= k < j ==> NoLessonAt(states, ops, k, u, TagKey(states[i], t))
    ensures Follows(states, ops, i, j, u, t)
    decreases j
  {
    if i == j {
      FollowsStart(states, ops, i, u, t);
    } else {
      ClicksDecide(states, ops, i, j - 1, u, t);
      FollowsNext(states, ops, i, j - 1, u, t);
    }
  }
}
