/** The rows behind interest learning, and what each committed transaction does to them
    (server/internal/store/saved_articles.go, interest.go, auth.go, articles.go). */
module InterestModel {
  import opened Wrappers
  import opened Tags
  import opened Interest

  /** Times are in milliseconds. */
  const SAVE_LEARN_DELAY := 10_000
  const SAVED_ARTICLES_LIMIT := 500
  const MAX_INT32 := 0x7FFF_FFFF

  datatype Pair = Pair(user: int, article: int)

  datatype SavedRow = SavedRow(createdAt: int, learned: bool)

  /** `boosts` is history, not a table: it counts how often a pair has been learned from. */
  datatype Db = Db(
    tags: map<int, string>,
    articles: map<int, set<int>>,
    nextArticle: int,
    userNames: map<string, int>,
    nextUser: int,
    saved: map<Pair, SavedRow>,
    learnings: set<Pair>,
    recommend: map<int, map<int, int>>,
    boosts: multiset<Pair>)

  datatype SaveOutcome = Created | AlreadySaved | ArticleNotFound | LimitReached | UserNotFound

  // ---------- queries ----------

  function TagKey(db: Db, t: int): string {
    if t in db.tags then NormalizeTag(db.tags[t]) else ""
  }

  /** FindTagByNormalizedName: the least ID whose normalised name is that of `name`. */
  ghost predicate IsTagFor(tags: map<int, string>, name: string, r: Option<int>) {
    match r
    case None => forall t :: t in tags ==> NormalizeTag(tags[t]) != NormalizeTag(name)
    case Some(id) =>
      && id in tags && NormalizeTag(tags[id]) == NormalizeTag(name)
      && forall t :: t in tags && NormalizeTag(tags[t]) == NormalizeTag(name) ==> id <= t
  }

  predicate Carries(db: Db, a: int, key: string) {
    a in db.articles && exists t :: t in db.articles[a] && TagKey(db, t) == key
  }

  function Carriers(db: Db, arts: set<int>, key: string): set<int> {
    set a | a in arts && Carries(db, a, key)
  }

  function SavedBy(db: Db, u: int): set<int> {
    set p | p in db.saved && p.user == u :: p.article
  }

  /** The rows of the user saved at least the delay ago and not yet marked. */
  function DueIn(saved: map<Pair, SavedRow>, u: int, now: int): set<int> {
    set p | p in saved && p.user == u && !saved[p].learned && saved[p].createdAt <= now - SAVE_LEARN_DELAY :: p.article
  }

  /** MarkDueSavedLearned. */
  function Due(db: Db, u: int, now: int): set<int> { DueIn(db.saved, u, now) }

  /** RecordSaveLearnings: of those, the ones this user has never learned from. */
  function Fresh(db: Db, u: int, now: int): set<int> {
    set a | a in Due(db, u, now) && Pair(u, a) !in db.learnings
  }

  function Pairs(u: int, arts: set<int>): set<Pair> {
    set a | a in arts :: Pair(u, a)
  }

  function RecKeys(db: Db, rec: map<int, int>): set<string> {
    set t | t in rec :: TagKey(db, t)
  }

  function Min(a: int, b: int): int { if a <= b then a else b }

  // ---------- the new weights ----------

  function Learned(v: int, times: nat): int {
    if times == 0 then v else Min(SCALE, v + SAVE_BOOST * times)
  }

  function Times(db: Db, arts: set<int>, key: string): nat {
    if key == "" then 0 else |Carriers(db, arts, key)|
  }

  /** The tag row a new weight is attached to: the last one in (article, tag) order that carries the key. */
  ghost predicate LastCarrier(db: Db, arts: set<int>, t: int) {
    exists a ::
      && a in arts && a in db.articles && t in db.articles[a]
      && forall b, s :: b in arts && b in db.articles && s in db.articles[b] && TagKey(db, s) == TagKey(db, t) ==>
           b < a || (b == a && s <= t)
  }

  /** One batch of save learning: every weight grows by 3000 for each article of `arts` that carries its tag,
      up to the maximum, and each carried tag without a weight gets one, starting from 0. */
  ghost predicate LearnBatch(db: Db, rec: map<int, int>, arts: set<int>, rec': map<int, int>) {
    && rec.Keys <= rec'.Keys
    && (forall t :: t in rec ==> rec'[t] == Learned(rec[t], Times(db, arts, TagKey(db, t))))
    && (forall t :: t in rec' && t !in rec ==>
          && t in db.tags && TagKey(db, t) != "" && TagKey(db, t) !in RecKeys(db, rec)
          && LastCarrier(db, arts, t)
          && rec'[t] == Learned(0, Times(db, arts, TagKey(db, t))))
    && (forall key :: key != "" && Carriers(db, arts, key) != {} ==> key in RecKeys(db, rec'))
  }

  ghost predicate ClickWeights(db: Db, rec: map<int, int>, names: seq<string>, rec': map<int, int>) {
    && (forall t :: t in rec ==>
          t in rec' && rec'[t] ==
          if TagKey(db, t) in KeysOf(names) then Add(Decay(rec[t]), CLICK_BOOST) else Decay(rec[t]))
    && (forall t :: t in rec' && t !in rec ==>
          && TagKey(db, t) in KeysOf(names) && TagKey(db, t) !in RecKeys(db, rec)
          && IsTagFor(db.tags, TagKey(db, t), Some(t)) && rec'[t] == CLICK_BOOST)
    && (forall key :: key in KeysOf(names) && !IsTagFor(db.tags, key, None) ==> key in RecKeys(db, rec'))
  }

  // ---------- transactions ----------

  datatype Op =
    | SignUp(name: string, favorites: seq<string>)
    | Save(user: int, article: int, now: int)
    | Unsave(user: int, article: int)
    | Click(user: int, names: seq<string>, now: int)
    | Read(user: int, now: int)
    | AddArticle(tagIds: set<int>)
    | TagArticle(article: int, tagId: int)
    | Retire(article: int)

  /** The learning part of a click or a read; `saved` and `learnings` are marked in the same transaction. */
  ghost predicate LearnStep(db: Db, u: int, now: int, db': Db) {
    && u in db.recommend
    && u in db'.recommend
    && LearnBatch(db, db.recommend[u], Fresh(db, u, now), db'.recommend[u])
    && db' == MarkLearned(db, u, now).(recommend := db.recommend[u := db'.recommend[u]])
  }

  function MarkLearned(db: Db, u: int, now: int): Db {
    db.(saved := map p | p in db.saved ::
          if p.user == u && p.article in Due(db, u, now) then db.saved[p].(learned := true) else db.saved[p],
        learnings := db.learnings + Pairs(u, Fresh(db, u, now)),
        boosts := db.boosts + multiset(Pairs(u, Fresh(db, u, now))))
  }

  function SaveResult(db: Db, u: int, a: int): SaveOutcome {
    if u !in db.recommend then UserNotFound
    else if Pair(u, a) in db.saved then AlreadySaved
    else if a !in db.articles then ArticleNotFound
    else if |SavedBy(db, u)| >= SAVED_ARTICLES_LIMIT then LimitReached
    else Created
  }

  function SaveEffect(db: Db, u: int, a: int, now: int): Db {
    if SaveResult(db, u, a) == Created then db.(saved := db.saved[Pair(u, a) := SavedRow(now, false)]) else db
  }

  /** DELETE of an unsaved article; the learning marks of the article go with it (ON DELETE CASCADE). */
  function RetireEffect(db: Db, a: int): Db {
    if a !in db.articles || exists p :: p in db.saved && p.article == a then db
    else db.(articles := db.articles - {a}, learnings := set p | p in db.learnings && p.article != a)
  }

  /** Signup is refused when a favourite names no tag, or when the name is taken. */
  ghost predicate SignUpStep(db: Db, name: string, favorites: seq<string>, db': Db) {
    if (exists f :: f in favorites && IsTagFor(db.tags, f, None)) || name in db.userNames then db' == db
    else
      && db.nextUser in db'.recommend
      && var rec := db'.recommend[db.nextUser];
      && (forall t :: t in rec <==> exists f :: f in favorites && IsTagFor(db.tags, f, Some(t)))
      && (forall t :: t in rec ==> rec[t] == INITIAL_SELECTED)
      && db' == db.(userNames := db.userNames[name := db.nextUser], nextUser := db.nextUser + 1,
                    recommend := db.recommend[db.nextUser := rec])
  }

  ghost predicate ClickStep(db: Db, u: int, names: seq<string>, now: int, db': Db) {
    if u !in db.recommend then db' == db
    else
      exists mid ::
        && LearnStep(db, u, now, mid)
        && u in db'.recommend
        && ClickWeights(mid, mid.recommend[u], names, db'.recommend[u])
        && db' == mid.(recommend := mid.recommend[u := db'.recommend[u]])
  }

  ghost predicate ReadStep(db: Db, u: int, now: int, db': Db) {
    if u !in db.recommend || Due(db, u, now) == {} then db' == db else LearnStep(db, u, now, db')
  }

  ghost predicate Step(db: Db, op: Op, db': Db) {
    match op
    case SignUp(name, favorites) => SignUpStep(db, name, favorites, db')
    case Save(u, a, now) => db' == SaveEffect(db, u, a, now)
    case Unsave(u, a) => db' == db.(saved := db.saved - {Pair(u, a)})
    case Click(u, names, now) => ClickStep(db, u, names, now, db')
    case Read(u, now) => ReadStep(db, u, now, db')
    case AddArticle(ts) =>
      db' == if ts <= db.tags.Keys
             then db.(articles := db.articles[db.nextArticle := ts], nextArticle := db.nextArticle + 1) else db
    case TagArticle(a, t) =>
      db' == if a in db.articles && t in db.tags then db.(articles := db.articles[a := db.articles[a] + {t}]) else db
    case Retire(a) => db' == RetireEffect(db, a)
  }

  // ---------- the invariant ----------

  /** One user's weights: in scale, on known tags, and no two with the same normalised name. */
  ghost predicate GoodWeights(db: Db, rec: map<int, int>) {
    && (forall t :: t in rec ==> t in db.tags && 0 <= rec[t] <= SCALE)
    && (forall t, s :: t in rec && s in rec && t != s ==> TagKey(db, t) != TagKey(db, s))
  }

  /** Foreign keys and identity columns. */
  ghost predicate InvRows(db: Db) {
    && (forall t :: t in db.tags ==> 1 <= t <= MAX_INT32)
    && (forall a :: a in db.articles ==> a < db.nextArticle && db.articles[a] <= db.tags.Keys)
    && (forall u :: u in db.recommend ==> u < db.nextUser)
    && (forall p :: p in db.saved ==> p.user in db.recommend && p.article in db.articles)
    && (forall p :: p in db.learnings ==> p.article in db.articles)
  }

  ghost predicate InvWeights(db: Db) {
    forall u :: u in db.recommend ==> GoodWeights(db, db.recommend[u])
  }

  ghost predicate InvLimit(db: Db) {
    forall u :: |SavedBy(db, u)| <= SAVED_ARTICLES_LIMIT
  }

  /** A pair that was learned from is still marked, or its article is gone for good. */
  ghost predicate InvBoosts(db: Db) {
    && (forall p :: p in db.boosts ==> p.article < db.nextArticle)
    && (forall p :: p in db.boosts ==> db.boosts[p] == 1 && (p in db.learnings || p.article !in db.articles))
    && (forall p :: p in db.learnings ==> p in db.boosts)
  }

  ghost predicate Inv(db: Db) {
    InvRows(db) && InvWeights(db) && InvLimit(db) && InvBoosts(db)
  }

  ghost predicate Initial(db: Db) {
    && (forall t :: t in db.tags ==> 1 <= t <= MAX_INT32)
    && db == Db(db.tags, map[], 1, map[], 1, map[], {}, map[], multiset{})
  }
}
