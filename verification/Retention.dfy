/** Saving an article against the retention delete, statement by statement, under PostgreSQL's READ COMMITTED
    rules: server/internal/store/saved_articles.go, articles.go and the queries they run. Row locks last until the
    end of the transaction, so they are read off the transaction's state. */
module Retention {
  import opened Sets

  const SAVED_ARTICLES_LIMIT := 500

  datatype Key = Key(user: int, article: int)

  datatype Article = Article(source: string, publishedAt: int)

  datatype Outcome = Created | AlreadySaved | ArticleNotFound | LimitReached | UserNotFound | RolledBack

  datatype Txn =
    | SaveBegun(user: int, article: int)
    | SaveLocked(user: int, article: int)          // holds the user's row
    | SaveUnsaved(user: int, article: int)         // found no saved row
    | SaveFound(user: int, article: int)           // found the article
    | SaveCounted(user: int, article: int)         // found room below the limit
    | SaveInserted(user: int, article: int)        // row inserted, share lock on the article
    | SaveDone(user: int, article: int, outcome: Outcome)
    // first statement, FOR UPDATE SKIP LOCKED: what it has locked, and the rows it found that are still to come
    | RetainLocking(source: string, before: int, ids: set<int>, todo: set<int>)
    | RetainDeleting(source: string, before: int, ids: set<int>, snapshot: set<int>, deleted: set<int>)
    | RetainDone(deleted: set<int>)

  datatype State = State(
    users: set<int>,
    articles: map<int, Article>,
    nextArticle: int,
    saved: set<Key>,
    txns: map<int, Txn>)

  // ---------- locks ----------

  predicate HoldsUser(t: Txn, u: int) {
    (t.SaveLocked? || t.SaveUnsaved? || t.SaveFound? || t.SaveCounted? || t.SaveInserted?) && t.user == u
  }

  predicate HoldsShare(t: Txn, a: int) {
    t.SaveInserted? && t.article == a
  }

  predicate HoldsExclusive(t: Txn, a: int) {
    (t.RetainLocking? || t.RetainDeleting?) && a in t.ids
  }

  predicate UserFree(s: State, tx: int, u: int) {
    forall o :: o in s.txns && o != tx ==> !HoldsUser(s.txns[o], u)
  }

  predicate NotExclusive(s: State, tx: int, a: int) {
    forall o :: o in s.txns && o != tx ==> !HoldsExclusive(s.txns[o], a)
  }

  predicate Unlocked(s: State, tx: int, a: int) {
    forall o :: o in s.txns && o != tx ==> !HoldsExclusive(s.txns[o], a) && !HoldsShare(s.txns[o], a)
  }

  // ---------- statements ----------

  function SavedOf(s: State, u: int): set<Key> {
    set k | k in s.saved && k.user == u
  }

  function SavedArticles(s: State): set<int> {
    set k | k in s.saved :: k.article
  }

  predicate Expired(s: State, a: int, source: string, before: int) {
    a in s.articles && s.articles[a].source == source && s.articles[a].publishedAt < before
  }

  function ExpiredIn(s: State, source: string, before: int): set<int> {
    set a | a in s.articles && Expired(s, a, source, before)
  }

  datatype Event =
    | BeginSave(tx: int, user: int, article: int)
    | LockUser(tx: int)
    | CheckSaved(tx: int)
    | CheckArticle(tx: int)
    | CheckCount(tx: int)
    | Insert(tx: int)
    | CommitSave(tx: int)
    | Unsave(key: Key)
    | Publish(article: int, row: Article)
    | BeginRetain(tx: int, source: string, before: int)
    | LockRow(tx: int, article: int)
    | SkipRow(tx: int, article: int)
    | BeginDelete(tx: int)
    | DeleteRow(tx: int, article: int)
    | CommitRetain(tx: int)
    | Rollback(tx: int)

  function With(s: State, tx: int, t: Txn): State {
    s.(txns := s.txns[tx := t])
  }

  function Finish(s: State, tx: int, t: Txn, o: Outcome): State
    requires !t.RetainLocking? && !t.RetainDeleting? && !t.RetainDone?
  {
    With(s, tx, SaveDone(t.user, t.article, o))
  }

  /** A statement that would wait for a lock is simply not enabled until the lock is free. */
  ghost predicate Step(s: State, e: Event, s': State) {
    match e
    case BeginSave(tx, u, a) => tx !in s.txns && s' == With(s, tx, SaveBegun(u, a))
    case LockUser(tx) =>
      && tx in s.txns && s.txns[tx].SaveBegun?
      && var t := s.txns[tx];
      if t.user !in s.users then s' == Finish(s, tx, t, UserNotFound)
      else UserFree(s, tx, t.user) && s' == With(s, tx, SaveLocked(t.user, t.article))
    case CheckSaved(tx) =>
      && tx in s.txns && s.txns[tx].SaveLocked?
      && var t := s.txns[tx];
      s' == if Key(t.user, t.article) in s.saved then Finish(s, tx, t, AlreadySaved)
            else With(s, tx, SaveUnsaved(t.user, t.article))
    case CheckArticle(tx) =>
      && tx in s.txns && s.txns[tx].SaveUnsaved?
      && var t := s.txns[tx];
      s' == if t.article !in s.articles then Finish(s, tx, t, ArticleNotFound)
            else With(s, tx, SaveFound(t.user, t.article))
    case CheckCount(tx) =>
      && tx in s.txns && s.txns[tx].SaveFound?
      && var t := s.txns[tx];
      s' == if |SavedOf(s, t.user)| >= SAVED_ARTICLES_LIMIT then Finish(s, tx, t, LimitReached)
            else With(s, tx, SaveCounted(t.user, t.article))
    case Insert(tx) =>
      && tx in s.txns && s.txns[tx].SaveCounted?
      && var t := s.txns[tx];
      // ON CONFLICT DO NOTHING first; then the foreign key takes a share lock on the article, or finds it gone
      if Key(t.user, t.article) in s.saved then s' == Finish(s, tx, t, AlreadySaved)
      else
        && NotExclusive(s, tx, t.article)
        && s' == if t.article !in s.articles then Finish(s, tx, t, ArticleNotFound)
                 else With(s, tx, SaveInserted(t.user, t.article))
    case CommitSave(tx) =>
      && tx in s.txns && s.txns[tx].SaveInserted?
      && var t := s.txns[tx];
      s' == Finish(s, tx, t, Created).(saved := s.saved + {Key(t.user, t.article)})
    case Unsave(k) => s' == s.(saved := s.saved - {k})
    case Publish(a, row) =>
      // an insert takes a fresh identity; an update waits for a FOR UPDATE lock
      if a == s.nextArticle then s' == s.(articles := s.articles[a := row], nextArticle := a + 1)
      else a in s.articles && NotExclusive(s, -1, a) && s' == s.(articles := s.articles[a := row])
    case BeginRetain(tx, source, before) =>
      tx >= 0 && tx !in s.txns && s' == With(s, tx, RetainLocking(source, before, {}, ExpiredIn(s, source, before)))
    case LockRow(tx, a) =>
      && tx in s.txns && s.txns[tx].RetainLocking?
      && var t := s.txns[tx];
      && a in t.todo && Expired(s, a, t.source, t.before) && Unlocked(s, tx, a)
      && s' == With(s, tx, RetainLocking(t.source, t.before, t.ids + {a}, t.todo - {a}))
    case SkipRow(tx, a) =>
      && tx in s.txns && s.txns[tx].RetainLocking?
      && var t := s.txns[tx];
      && a in t.todo && !(Expired(s, a, t.source, t.before) && Unlocked(s, tx, a))
      && s' == With(s, tx, t.(todo := t.todo - {a}))
    case BeginDelete(tx) =>
      && tx in s.txns && s.txns[tx].RetainLocking? && s.txns[tx].todo == {}
      && var t := s.txns[tx];
      s' == if t.ids == {} then With(s, tx, RetainDone({}))
            else With(s, tx, RetainDeleting(t.source, t.before, t.ids, SavedArticles(s), {}))
    case DeleteRow(tx, a) =>
      && tx in s.txns && s.txns[tx].RetainDeleting?
      && var t := s.txns[tx];
      && a in t.ids - t.snapshot
      && s' == With(s, tx, RetainDeleting(t.source, t.before, t.ids, t.snapshot, t.deleted + {a}))
    case CommitRetain(tx) =>
      && tx in s.txns && s.txns[tx].RetainDeleting?
      && var t := s.txns[tx];
      && t.deleted == t.ids - t.snapshot
      && s' == With(s, tx, RetainDone(t.deleted)).(
           articles := s.articles - t.deleted,
           saved := set k | k in s.saved && k.article !in t.deleted)  // ON DELETE CASCADE
    case Rollback(tx) =>
      && tx in s.txns
      && var t := s.txns[tx];
      && !t.SaveDone? && !t.RetainDone?
      && s' == if t.RetainLocking? || t.RetainDeleting? then With(s, tx, RetainDone({}))
               else Finish(s, tx, t, RolledBack)
  }

  // ---------- the invariant ----------

  ghost predicate InvTxn(s: State, tx: int, t: Txn) {
    && (t.SaveUnsaved? || t.SaveFound? || t.SaveCounted? || t.SaveInserted? ==> Key(t.user, t.article) !in s.saved)
    && (t.SaveCounted? || t.SaveInserted? ==> |SavedOf(s, t.user)| < SAVED_ARTICLES_LIMIT)
    && (t.SaveInserted? ==> t.article in s.articles)
    && (t.RetainLocking? || t.RetainDeleting? ==>
          tx >= 0 && forall a :: a in t.ids ==> Expired(s, a, t.source, t.before))
    && (t.RetainDeleting? ==>
          t.deleted <= t.ids - t.snapshot && forall k :: k in s.saved && k.article in t.ids ==> k.article in t.snapshot)
  }

  /** No two transactions hold conflicting locks. */
  ghost predicate Compatible(t: Txn, o: Txn) {
    && (forall u :: HoldsUser(t, u) ==> !HoldsUser(o, u))
    && (forall a :: HoldsExclusive(t, a) ==> !HoldsExclusive(o, a) && !HoldsShare(o, a))
  }

  ghost predicate InvLocks(s: State) {
    forall x, y :: x in s.txns && y in s.txns && x != y ==> Compatible(s.txns[x], s.txns[y])
  }

  ghost predicate InvData(s: State) {
    && (forall k :: k in s.saved ==> k.article in s.articles)
    && (forall u :: |SavedOf(s, u)| <= SAVED_ARTICLES_LIMIT)
    && (forall a :: a in s.articles ==> a < s.nextArticle)
  }

  ghost predicate Inv(s: State) {
    && InvData(s) && InvLocks(s)
    && forall tx :: tx in s.txns ==> InvTxn(s, tx, s.txns[tx])
  }

  ghost predicate Initial(s: State) {
    s == State(s.users, map[], 1, {}, map[])
  }

  /** Steps that only move one transaction on. */
  lemma MoveKeepsInv(s: State, tx: int, t': Txn)
    requires Inv(s) && InvTxn(s, tx, t')
    requires forall o :: o in s.txns && o != tx ==> Compatible(t', s.txns[o]) && Compatible(s.txns[o], t')
    ensures Inv(With(s, tx, t'))
  {
    var s' := With(s, tx, t');
    assert forall u :: SavedOf(s', u) == SavedOf(s, u);
    forall o | o in s'.txns ensures InvTxn(s', o, s'.txns[o]) {
      if o != tx { assert InvTxn(s, o, s.txns[o]); }
    }
  }

  lemma SaveChecks(s: State, e: Event, s': State)
    requires Inv(s) && Step(s, e, s') && (e.BeginSave? || e.LockUser? || e.CheckSaved?)
    ensures Inv(s')
  {
    if e.tx in s.txns { assert InvTxn(s, e.tx, s.txns[e.tx]); }
    MoveKeepsInv(s, e.tx, s'.txns[e.tx]);
  }

  lemma SaveInserts(s: State, e: Event, s': State)
    requires Inv(s) && Step(s, e, s') && (e.CheckArticle? || e.CheckCount? || e.Insert?)
    ensures Inv(s')
  {
    assert InvTxn(s, e.tx, s.txns[e.tx]);
    MoveKeepsInv(s, e.tx, s'.txns[e.tx]);
  }

  lemma RetainMoves(s: State, e: Event, s': State)
    requires Inv(s) && Step(s, e, s') && (e.BeginRetain? || e.SkipRow? || e.DeleteRow?)
    ensures Inv(s')
  {
    if e.tx in s.txns { assert InvTxn(s, e.tx, s.txns[e.tx]); }
    MoveKeepsInv(s, e.tx, s'.txns[e.tx]);
  }

  lemma RetainLocks(s: State, e: Event, s': State)
    requires Inv(s) && Step(s, e, s') && e.LockRow?
    ensures Inv(s')
  {
    var t' := s'.txns[e.tx];
    assert InvTxn(s, e.tx, s.txns[e.tx]);
    forall o | o in s.txns && o != e.tx ensures Compatible(t', s.txns[o]) && Compatible(s.txns[o], t') {
      assert Compatible(s.txns[e.tx], s.txns[o]) && Compatible(s.txns[o], s.txns[e.tx]);
    }
    MoveKeepsInv(s, e.tx, t');
  }

  lemma DeleteBegins(s: State, e: Event, s': State)
    requires Inv(s) && Step(s, e, s') && (e.BeginDelete? || e.Rollback?)
    ensures Inv(s')
  {
    var t := s.txns[e.tx];
    assert InvTxn(s, e.tx, t);
    assert forall k :: k in s.saved ==> k.article in SavedArticles(s);
    assert forall o :: o in s.txns && o != e.tx ==> Compatible(t, s.txns[o]) && Compatible(s.txns[o], t);
    MoveKeepsInv(s, e.tx, s'.txns[e.tx]);
  }

  lemma UnsaveKeepsInv(s: State, e: Event, s': State)
    requires Inv(s) && Step(s, e, s') && e.Unsave?
    ensures Inv(s')
  {
    forall u ensures |SavedOf(s', u)| <= |SavedOf(s, u)| { SubsetCard(SavedOf(s', u), SavedOf(s, u)); }
    forall o | o in s'.txns ensures InvTxn(s', o, s'.txns[o]) { assert InvTxn(s, o, s.txns[o]); }
  }

  lemma PublishKeepsInv(s: State, e: Event, s': State)
    requires Inv(s) && Step(s, e, s') && e.Publish?
    ensures Inv(s')
  {
    assert forall u :: SavedOf(s', u) == SavedOf(s, u);
    forall o | o in s'.txns ensures InvTxn(s', o, s'.txns[o]) {
      assert InvTxn(s, o, s.txns[o]);
      assert !HoldsExclusive(s.txns[o], e.article);
    }
  }

  lemma OthersAfterSave(s: State, tx: int, o: int, s': State)
    requires Inv(s) && Step(s, CommitSave(tx), s') && o in s.txns && o != tx
    ensures InvTxn(s', o, s.txns[o])
  {
    var t := s.txns[tx];
    assert InvTxn(s, o, s.txns[o]);
    assert Compatible(t, s.txns[o]) && Compatible(s.txns[o], t);
    assert HoldsUser(t, t.user) && HoldsShare(t, t.article);
    SavedOfAfterSave(s, Key(t.user, t.article), s');
  }

  lemma SavedOfAfterSave(s: State, k: Key, s': State)
    requires s'.saved == s.saved + {k}
    ensures forall u :: SavedOf(s', u) == if u == k.user then SavedOf(s, u) + {k} else SavedOf(s, u)
  {
  }

  /** A transaction that has ended holds no lock. */
  lemma LocksAfterSave(s: State, tx: int, s': State)
    requires InvLocks(s) && Step(s, CommitSave(tx), s')
    ensures InvLocks(s')
  {
    forall x, y | x in s'.txns && y in s'.txns && x != y ensures Compatible(s'.txns[x], s'.txns[y]) {
      assert Compatible(s.txns[x], s.txns[y]);
    }
  }

  lemma DataAfterSave(s: State, tx: int, s': State)
    requires Inv(s) && Step(s, CommitSave(tx), s')
    ensures InvData(s')
  {
    assert InvTxn(s, tx, s.txns[tx]);
    SavedOfAfterSave(s, Key(s.txns[tx].user, s.txns[tx].article), s');
  }

  lemma CommitSaveKeepsInv(s: State, e: Event, s': State)
    requires Inv(s) && Step(s, e, s') && e.CommitSave?
    ensures Inv(s')
  {
    DataAfterSave(s, e.tx, s');
    LocksAfterSave(s, e.tx, s');
    forall o | o in s'.txns ensures InvTxn(s', o, s'.txns[o]) {
      if o != e.tx { OthersAfterSave(s, e.tx, o, s'); }
    }
  }

  /** The heart of it: when the delete commits, no saved row refers to what it deletes. */
  lemma NothingCascades(s: State, tx: int)
    requires Inv(s) && tx in s.txns && s.txns[tx].RetainDeleting?
    ensures forall k :: k in s.saved ==> k.article !in s.txns[tx].deleted
  {
    assert InvTxn(s, tx, s.txns[tx]);
  }

  lemma OthersAfterRetain(s: State, tx: int, o: int, s': State)
    requires Inv(s) && Step(s, CommitRetain(tx), s') && s'.saved == s.saved && o in s.txns && o != tx
    ensures InvTxn(s', o, s.txns[o])
  {
    var t := s.txns[tx];
    assert InvTxn(s, o, s.txns[o]) && InvTxn(s, tx, t);
    assert forall u :: SavedOf(s', u) == SavedOf(s, u);
    assert Compatible(t, s.txns[o]);
    assert forall a :: a in t.deleted ==> HoldsExclusive(t, a);
  }

  lemma LocksAfterRetain(s: State, tx: int, s': State)
    requires InvLocks(s) && Step(s, CommitRetain(tx), s')
    ensures InvLocks(s')
  {
    forall x, y | x in s'.txns && y in s'.txns && x != y ensures Compatible(s'.txns[x], s'.txns[y]) {
      assert Compatible(s.txns[x], s.txns[y]);
    }
  }

  lemma CommitRetainKeepsInv(s: State, e: Event, s': State)
    requires Inv(s) && Step(s, e, s') && e.CommitRetain?
    ensures Inv(s') && s'.saved == s.saved
  {
    NothingCascades(s, e.tx);
    assert s'.saved == s.saved;
    assert forall u :: SavedOf(s', u) == SavedOf(s, u);
    LocksAfterRetain(s, e.tx, s');
    forall o | o in s'.txns ensures InvTxn(s', o, s'.txns[o]) {
      if o != e.tx { OthersAfterRetain(s, e.tx, o, s'); }
    }
  }

  lemma StepKeepsInv(s: State, e: Event, s': State)
    requires Inv(s) && Step(s, e, s')
    ensures Inv(s')
  {
    match e
    case Unsave(_) => UnsaveKeepsInv(s, e, s');
    case Publish(_, _) => PublishKeepsInv(s, e, s');
    case CommitSave(_) => CommitSaveKeepsInv(s, e, s');
    case CommitRetain(_) => CommitRetainKeepsInv(s, e, s');
    case BeginSave(_, _, _) => SaveChecks(s, e, s');
    case LockUser(_) => SaveChecks(s, e, s');
    case CheckSaved(_) => SaveChecks(s, e, s');
    case CheckArticle(_) => SaveInserts(s, e, s');
    case CheckCount(_) => SaveInserts(s, e, s');
    case Insert(_) => SaveInserts(s, e, s');
    case BeginRetain(_, _, _) => RetainMoves(s, e, s');
    case LockRow(_, _) => RetainLocks(s, e, s');
    case SkipRow(_, _) => RetainMoves(s, e, s');
    case BeginDelete(_) => DeleteBegins(s, e, s');
    case DeleteRow(_, _) => RetainMoves(s, e, s');
    case Rollback(_) => DeleteBegins(s, e, s');
  }

  // ---------- runs ----------

  ghost predicate IsRun(states: seq<State>, events: seq<Event>) {
    && |states| == |events| + 1
    && Initial(states[0])
    && forall i {:trigger events[i]} :: 0 <= i < |events| ==> Step(states[i], events[i], states[i + 1])
  }

  lemma {:induction false} InvOverRuns(states: seq<State>, events: seq<Event>, n: nat)
    requires IsRun(states, events) && n < |states|
    ensures Inv(states[n])
  {
    if n == 0 {
      assert forall u :: SavedOf(states[0], u) == {};
    } else {
      InvOverRuns(states, events, n - 1);
      assert Step(states[n - 1], events[n - 1], states[n]);
      StepKeepsInv(states[n - 1], events[n - 1], states[n]);
    }
  }

  lemma SavedSurvivesStep(states: seq<State>, events: seq<Event>, n: nat, k: Key)
    requires IsRun(states, events) && n < |events| && k in states[n].saved && events[n] != Unsave(k)
    ensures k in states[n + 1].saved
  {
    InvOverRuns(states, events, n);
    assert Step(states[n], events[n], states[n + 1]);
    if events[n].CommitRetain? { NothingCascades(states[n], events[n].tx); }
  }

  /** In every interleaving a committed save stays, and its article with it, until the user undoes it. */
  lemma CommittedSaveIsNeverLost(states: seq<State>, events: seq<Event>, i: nat, j: nat, k: Key)
    requires IsRun(states, events) && i <= j < |states| && k in states[i].saved
    requires forall n :: i <= n < j ==> events[n] != Unsave(k)
    ensures k in states[j].saved && k.article in states[j].articles
  {
    for n := i to j
      invariant k in states[n].saved
    {
      SavedSurvivesStep(states, events, n, k);
    }
    InvOverRuns(states, events, j);
  }

  /** Concurrent saves of one user never pass the limit. */
  lemma LimitHolds(states: seq<State>, events: seq<Event>, n: nat, u: int)
    requires IsRun(states, events) && n < |states|
    ensures |SavedOf(states[n], u)| <= SAVED_ARTICLES_LIMIT
  {
    InvOverRuns(states, events, n);
  }

  /** A running delete goes on with what it was, or has just begun. */
  lemma DeletingSince(s: State, e: Event, s': State, tx: int)
    requires Step(s, e, s') && tx in s'.txns && s'.txns[tx].RetainDeleting?
    ensures tx in s.txns
    ensures e != BeginDelete(tx) ==>
              s.txns[tx].RetainDeleting? && s.txns[tx].ids == s'.txns[tx].ids
                  && s.txns[tx].snapshot == s'.txns[tx].snapshot
    ensures e == BeginDelete(tx) ==>
              s.txns[tx].RetainLocking? && s.txns[tx].ids == s'.txns[tx].ids && s'.txns[tx].snapshot == SavedArticles(s)
  {
  }

  /** Where the snapshot of a running delete comes from: the saves committed when its second statement began. */
  lemma {:induction false} SnapshotTaken(states: seq<State>, events: seq<Event>, n: nat, tx: int) returns (m: nat)
    requires IsRun(states, events) && n < |states| && tx in states[n].txns && states[n].txns[tx].RetainDeleting?
    ensures m < n && events[m] == BeginDelete(tx) && tx in states[m].txns && states[m].txns[tx].RetainLocking?
    ensures states[n].txns[tx].ids == states[m].txns[tx].ids && states[n].txns[tx].snapshot == SavedArticles(states[m])
    ensures forall k :: m < k <= n ==> tx in states[k].txns && states[k].txns[tx].RetainDeleting?
  {
    assert Step(states[n - 1], events[n - 1], states[n]);
    DeletingSince(states[n - 1], events[n - 1], states[n], tx);
    if events[n - 1] == BeginDelete(tx) {
      m := n - 1;
    } else {
      m := SnapshotTaken(states, events, n - 1, tx);
    }
  }

  /** What the retention delete removes: exactly the articles it locked that nobody had saved when its second
      statement began, in step m; all of them are still past the cutoff, and nobody has them saved at the commit. */
  lemma RetentionDeletesExactly(states: seq<State>, events: seq<Event>, n: nat) returns (t: Txn, m: nat)
    requires IsRun(states, events) && n < |events| && events[n].CommitRetain?
    ensures events[n].tx in states[n].txns && t == states[n].txns[events[n].tx] && t.RetainDeleting?
    ensures m < n && events[m] == BeginDelete(events[n].tx)
    ensures forall k :: m < k <= n ==> events[n].tx in states[k].txns
    ensures states[n].articles.Keys - states[n + 1].articles.Keys == t.ids - SavedArticles(states[m])
    ensures forall a :: a in t.ids - SavedArticles(states[m]) ==>
              && a in states[n].articles && states[n].articles[a].source == t.source
              && states[n].articles[a].publishedAt < t.before
    ensures forall k :: k in states[n].saved ==> k.article !in t.ids - SavedArticles(states[m])
    ensures states[n + 1].saved == states[n].saved
  {
    InvOverRuns(states, events, n);
    var s, e, s' := states[n], events[n], states[n + 1];
    assert Step(s, e, s');
    CommitRetainKeepsInv(s, e, s');
    t := s.txns[e.tx];
    m := SnapshotTaken(states, events, n, e.tx);
    assert InvTxn(s, e.tx, t);
    assert forall a :: a in t.deleted ==> a in s.articles && a !in s'.articles;
  }

  /** Whatever its interleaving, ON CONFLICT never fires: the user's row lock makes the earlier check final. */
  lemma InsertNeverConflicts(states: seq<State>, events: seq<Event>, n: nat) returns (t: Txn)
    requires IsRun(states, events) && n < |events| && events[n].Insert?
    ensures events[n].tx in states[n].txns && t == states[n].txns[events[n].tx] && t.SaveCounted?
    ensures Key(t.user, t.article) !in states[n].saved
  {
    InvOverRuns(states, events, n);
    assert Step(states[n], events[n], states[n + 1]);
    t := states[n].txns[events[n].tx];
    assert InvTxn(states[n], events[n].tx, t);
  }

  // ---------- the save that loses the race ----------

  predicate BeforeInsert(t: Txn, a: int) {
    (t.SaveBegun? || t.SaveLocked? || t.SaveUnsaved? || t.SaveFound? || t.SaveCounted?) && t.article == a
  }

  /** A save of an article that is gone has not inserted, or has ended without creating or finding a row. */
  predicate Losing(s: State, tx: int, a: int) {
    && a !in s.articles && a < s.nextArticle && tx in s.txns
    && (BeforeInsert(s.txns[tx], a)
        || (s.txns[tx].SaveDone? && s.txns[tx].article == a && s.txns[tx].outcome != Created
           && s.txns[tx].outcome != AlreadySaved))
  }

  lemma LosingStep(states: seq<State>, events: seq<Event>, n: nat, tx: int, a: int)
    requires IsRun(states, events) && n < |events| && Losing(states[n], tx, a)
    ensures Losing(states[n + 1], tx, a)
    ensures events[n] == CheckArticle(tx) || events[n] == Insert(tx) ==>
              states[n + 1].txns[tx] == SaveDone(states[n].txns[tx].user, a, ArticleNotFound)
  {
    InvOverRuns(states, events, n);
    assert Step(states[n], events[n], states[n + 1]);
    assert InvTxn(states[n], tx, states[n].txns[tx]);
  }

  /** Once the delete has committed while a save of that article is still before its insert, the save can never
      create a row nor find one; if it gets as far as looking for the article or inserting, it ends as
      article-not-found. */
  lemma LoserNeverCreates(states: seq<State>, events: seq<Event>, i: nat, j: nat, tx: int, a: int)
    requires IsRun(states, events) && i < j < |states| && events[i].CommitRetain?
    requires a in states[i].articles && a !in states[i + 1].articles
    requires tx in states[i].txns && BeforeInsert(states[i].txns[tx], a)
    ensures Losing(states[j], tx, a)
    ensures j < |events| && (events[j] == CheckArticle(tx) || events[j] == Insert(tx)) ==>
              states[j + 1].txns[tx] == SaveDone(states[j].txns[tx].user, a, ArticleNotFound)
  {
    InvOverRuns(states, events, i);
    assert Step(states[i], events[i], states[i + 1]);
    for n := i + 1 to j
      invariant Losing(states[n], tx, a)
    {
      LosingStep(states, events, n, tx, a);
    }
    if j < |events| { LosingStep(states, events, j, tx, a); }
  }

  /** Conversely a save that creates a row has its article at that moment, and its row is then committed. */
  lemma CreatedMeansSaved(states: seq<State>, events: seq<Event>, n: nat) returns (t: Txn)
    requires IsRun(states, events) && n < |events| && events[n].CommitSave?
    ensures events[n].tx in states[n].txns && t == states[n].txns[events[n].tx] && t.SaveInserted?
    ensures Key(t.user, t.article) in states[n + 1].saved && t.article in states[n + 1].articles
    ensures states[n + 1].txns[events[n].tx] == SaveDone(t.user, t.article, Created)
  {
    InvOverRuns(states, events, n);
    assert Step(states[n], events[n], states[n + 1]);
    t := states[n].txns[events[n].tx];
    assert InvTxn(states[n], events[n].tx, t);
  }

  // ---------- everything that can be deleted is ----------

  /** A row that the first statement found is still to come, or locked, or was skipped. */
  ghost predicate SeenTo(states: seq<State>, events: seq<Event>, i: nat, n: nat, tx: int, a: int)
    requires |states| == |events| + 1 && i <= n < |states|
  {
    && tx in states[n].txns
    && var t := states[n].txns[tx];
    && (t.RetainLocking? || t.RetainDeleting?)
    && (a in t.ids || (t.RetainLocking? && a in t.todo) || exists k :: i < k < n && events[k] == SkipRow(tx, a))
  }

  /** No step but its own moves a retention. */
  lemma RetentionGoesOn(s: State, e: Event, s': State, tx: int)
    requires Step(s, e, s') && tx in s.txns && (s.txns[tx].RetainLocking? || s.txns[tx].RetainDeleting?)
    ensures tx in s'.txns
    ensures s'.txns[tx] == s.txns[tx] || e == Rollback(tx) || e == CommitRetain(tx) || e == BeginDelete(tx)
            || (e.LockRow? && e.tx == tx && s'.txns[tx].RetainLocking? && e.article in s'.txns[tx].ids
                && s.txns[tx].ids <= s'.txns[tx].ids && s'.txns[tx].todo == s.txns[tx].todo - {e.article})
            || (e.SkipRow? && e.tx == tx && s'.txns[tx].RetainLocking? && s'.txns[tx].ids == s.txns[tx].ids
                && s'.txns[tx].todo == s.txns[tx].todo - {e.article})
            || (e.DeleteRow? && e.tx == tx && s'.txns[tx].RetainDeleting? && s'.txns[tx].ids == s.txns[tx].ids)
    ensures e == BeginDelete(tx) && s'.txns[tx].RetainDeleting? ==>
              s.txns[tx].RetainLocking? && s.txns[tx].todo == {} && s'.txns[tx].ids == s.txns[tx].ids
  {
  }

  lemma SeenToNext(states: seq<State>, events: seq<Event>, i: nat, n: nat, tx: int, a: int)
    requires IsRun(states, events) && i < n < |events| && SeenTo(states, events, i, n, tx, a)
    requires tx in states[n + 1].txns
             && (states[n + 1].txns[tx].RetainLocking? || states[n + 1].txns[tx].RetainDeleting?)
    ensures SeenTo(states, events, i, n + 1, tx, a)
  {
    assert Step(states[n], events[n], states[n + 1]);
    RetentionGoesOn(states[n], events[n], states[n + 1], tx);
    if k :| i < k < n && events[k] == SkipRow(tx, a) { assert i < k < n + 1; }
    if events[n] == SkipRow(tx, a) { assert i < n < n + 1; }
  }

  /** Once ended, a retention never goes on. */
  lemma EndedStays(s: State, e: Event, s': State, tx: int)
    requires Step(s, e, s') && tx in s.txns && !s.txns[tx].RetainLocking? && !s.txns[tx].RetainDeleting?
    ensures tx in s'.txns && !s'.txns[tx].RetainLocking? && !s'.txns[tx].RetainDeleting?
  {
  }

  lemma {:induction false} StillRunning(states: seq<State>, events: seq<Event>, n: nat, j: nat, tx: int)
    requires IsRun(states, events) && n <= j < |states| && tx in states[n].txns && tx in states[j].txns
    requires states[j].txns[tx].RetainLocking? || states[j].txns[tx].RetainDeleting?
    ensures states[n].txns[tx].RetainLocking? || states[n].txns[tx].RetainDeleting?
    decreases j - n
  {
    if n < j && !states[n].txns[tx].RetainLocking? && !states[n].txns[tx].RetainDeleting? {
      assert Step(states[n], events[n], states[n + 1]);
      EndedStays(states[n], events[n], states[n + 1], tx);
      StillRunning(states, events, n + 1, j, tx);
    }
  }

  lemma {:induction false} SeenToUpTo(states: seq<State>, events: seq<Event>, i: nat, n: nat, j: nat, tx: int, a: int)
    requires IsRun(states, events) && i < n <= j < |states|
    requires events[i].BeginRetain? && events[i].tx == tx && Expired(states[i], a, events[i].source, events[i].before)
    requires tx in states[j].txns && (states[j].txns[tx].RetainLocking? || states[j].txns[tx].RetainDeleting?)
    ensures SeenTo(states, events, i, n, tx, a)
  {
    assert Step(states[i], events[i], states[i + 1]);
    if n > i + 1 {
      SeenToUpTo(states, events, i, n - 1, j, tx, a);
      assert Step(states[n - 1], events[n - 1], states[n]);
      RetentionGoesOn(states[n - 1], events[n - 1], states[n], tx);
      StillRunning(states, events, n, j, tx);
      SeenToNext(states, events, i, n - 1, tx, a);
    }
  }

  /** A retention that begins in step i and commits in step n deletes every article that was past its age in step i,
      unless it was skipped, being locked by another transaction or no longer past its age at that moment, or somebody's
      save of it was committed when the second statement began. */
  lemma RetentionMissesNothing(states: seq<State>, events: seq<Event>, i: nat, n: nat, a: int) returns (m: nat)
    requires IsRun(states, events) && i < n < |events| && events[n].CommitRetain?
    requires events[i].BeginRetain? && events[i].tx == events[n].tx
    requires a in states[i].articles && states[i].articles[a].source == events[i].source
    requires states[i].articles[a].publishedAt < events[i].before
    ensures i < m < n && events[m] == BeginDelete(events[n].tx)
    ensures a !in states[n + 1].articles || a in SavedArticles(states[m])
            || exists k :: i < k < n && events[k] == SkipRow(events[n].tx, a)
  {
    var tx := events[n].tx;
    var t;
    assert Step(states[n], events[n], states[n + 1]);
    t, m := RetentionDeletesExactly(states, events, n);
    SeenToUpTo(states, events, i, n, n, tx, a);
    LaterThanBegin(states, events, i, m, n, tx);
  }

  lemma LaterThanBegin(states: seq<State>, events: seq<Event>, i: nat, m: nat, n: nat, tx: int)
    requires IsRun(states, events) && i < n < |states| && m < n && events[m] == BeginDelete(tx)
    requires events[i].BeginRetain? && events[i].tx == tx
    requires forall k :: m < k <= n ==> tx in states[k].txns
    ensures i < m
  {
    assert Step(states[i], events[i], states[i + 1]);
  }

  /** A skipped row was locked by another transaction, or no longer past its age. */
  lemma SkippedFor(states: seq<State>, events: seq<Event>, k: nat)
    requires IsRun(states, events) && k < |events| && events[k].SkipRow?
    ensures var s, tx, a := states[k], events[k].tx, events[k].article;
            && tx in s.txns && s.txns[tx].RetainLocking?
            && (a in s.articles && s.articles[a].source == s.txns[tx].source
                && s.articles[a].publishedAt < s.txns[tx].before ==>
                  exists o :: o in s.txns && o != tx && (HoldsExclusive(s.txns[o], a) || HoldsShare(s.txns[o], a)))
  {
    assert Step(states[k], events[k], states[k + 1]);
  }

  // ---------- what a save reports ----------

  /** What the outcome of a save says about the committed rows at the step that reported it. */
  lemma OutcomeMeans(states: seq<State>, events: seq<Event>, n: nat, tx: int)
    requires IsRun(states, events) && n < |events| && tx in states[n + 1].txns && states[n + 1].txns[tx].SaveDone?
    requires tx in states[n].txns && !states[n].txns[tx].SaveDone?
    ensures var s, done := states[n], states[n + 1].txns[tx];
            && (done.outcome == UserNotFound ==> done.user !in s.users)
            && (done.outcome == AlreadySaved ==> Key(done.user, done.article) in s.saved)
            && (done.outcome == ArticleNotFound ==> done.article !in s.articles)
            && (done.outcome == LimitReached ==> |SavedOf(s, done.user)| == 500)
            && (done.outcome == Created <==> events[n] == CommitSave(tx))
            && (done.outcome == RolledBack <==> events[n] == Rollback(tx))
  {
    InvOverRuns(states, events, n);
    assert Step(states[n], events[n], states[n + 1]);
  }
}
