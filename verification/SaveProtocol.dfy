/** The statements of the concurrent protocol, run without interruption: a save comes to the one transaction of the
    interest store, and a retention deletes all that is past its age and not saved. */
module SaveProtocol {
  import opened InterestModel
  import R = Retention

  /** The same users, articles and saved rows. */
  ghost predicate SameRows(s: R.State, db: Db) {
    && s.users == db.recommend.Keys && s.articles.Keys == db.articles.Keys
    && (forall u, a :: R.Key(u, a) in s.saved <==> Pair(u, a) in db.saved)
  }

  function OutcomeOf(o: SaveOutcome): R.Outcome {
    match o
    case Created => R.Created
    case AlreadySaved => R.AlreadySaved
    case ArticleNotFound => R.ArticleNotFound
    case LimitReached => R.LimitReached
    case UserNotFound => R.UserNotFound
  }

  /** No other transaction is under way. */
  ghost predicate Alone(s: R.State) {
    forall tx :: tx in s.txns ==> s.txns[tx].SaveDone? || s.txns[tx].RetainDone?
  }

  lemma ArticlesOfKeys(keys: set<R.Key>, arts: set<int>, u: int)
    requires (forall k :: k in keys ==> k.user == u) && arts == set k | k in keys :: k.article
    ensures |arts| == |keys|
  {
    if keys != {} {
      var k :| k in keys;
      var rest := keys - {k};
      var others := set x | x in rest :: x.article;
      ArticlesOfKeys(rest, others, u);
      forall x | x in rest ensures x.article != k.article { assert x.user == k.user && x != k; }
      assert arts == others + {k.article};
    }
  }

  lemma SameCount(s: R.State, db: Db, u: int)
    requires SameRows(s, db)
    ensures |R.SavedOf(s, u)| == |SavedBy(db, u)|
  {
    var keys := R.SavedOf(s, u);
    forall a ensures a in SavedBy(db, u) <==> R.Key(u, a) in keys {
      if a in SavedBy(db, u) { var p :| p in db.saved && p.user == u && p.article == a; assert p == Pair(u, a); }
      if R.Key(u, a) in keys { assert Pair(u, a) in db.saved; }
    }
    assert SavedBy(db, u) == set k | k in keys :: k.article;
    ArticlesOfKeys(keys, SavedBy(db, u), u);
  }

  /** The statements in order, each a step of the protocol. */
  ghost predicate Path(states: seq<R.State>, events: seq<R.Event>, tx: int, u: int, a: int) {
    && |states| == |events| + 1 && |events| >= 1 && events[0] == R.BeginSave(tx, u, a)
    && (forall i :: 1 <= i < |events| ==>
          events[i] in {R.LockUser(tx), R.CheckSaved(tx), R.CheckArticle(tx), R.CheckCount(tx), R.Insert(tx),
                        R.CommitSave(tx)})
    && (forall i {:trigger events[i]} :: 0 <= i < |events| ==> R.Step(states[i], events[i], states[i + 1]))
  }

  lemma Then(states: seq<R.State>, events: seq<R.Event>, tx: int, u: int, a: int, e: R.Event, next: R.State)
    returns (more: seq<R.State>, longer: seq<R.Event>)
    requires Path(states, events, tx, u, a) && R.Step(states[|states| - 1], e, next)
    requires e in {R.LockUser(tx), R.CheckSaved(tx), R.CheckArticle(tx), R.CheckCount(tx), R.Insert(tx),
                   R.CommitSave(tx)}
    ensures Path(more, longer, tx, u, a) && more[0] == states[0] && more[|more| - 1] == next
  {
    more, longer := states + [next], events + [e];
    forall i | 0 <= i < |longer| ensures R.Step(more[i], longer[i], more[i + 1]) {
      if i < |events| { assert longer[i] == events[i]; }
    }
  }

  /** The user's row is locked and nothing else has happened. */
  lemma Locked(s: R.State, tx: int, u: int, a: int) returns (states: seq<R.State>, events: seq<R.Event>)
    requires Alone(s) && tx !in s.txns && u in s.users
    ensures Path(states, events, tx, u, a) && states[0] == s
    ensures states[|states| - 1] == R.With(s, tx, R.SaveLocked(u, a))
  {
    var begun := R.With(s, tx, R.SaveBegun(u, a));
    states, events := [s, begun], [R.BeginSave(tx, u, a)];
    states, events := Then(states, events, tx, u, a, R.LockUser(tx), R.With(begun, tx, R.SaveLocked(u, a)));
    assert R.With(begun, tx, R.SaveLocked(u, a)) == R.With(s, tx, R.SaveLocked(u, a));
  }

  /** The three checks, one after the other. */
  lemma NotSaved(s: R.State, tx: int, u: int, a: int) returns (states: seq<R.State>, events: seq<R.Event>)
    requires Alone(s) && tx !in s.txns && u in s.users && R.Key(u, a) !in s.saved
    ensures Path(states, events, tx, u, a) && states[0] == s
    ensures states[|states| - 1] == R.With(s, tx, R.SaveUnsaved(u, a))
  {
    states, events := Locked(s, tx, u, a);
    states, events := Then(states, events, tx, u, a, R.CheckSaved(tx), R.With(s, tx, R.SaveUnsaved(u, a)));
  }

  lemma Found(s: R.State, tx: int, u: int, a: int) returns (states: seq<R.State>, events: seq<R.Event>)
    requires Alone(s) && tx !in s.txns && u in s.users && R.Key(u, a) !in s.saved && a in s.articles
    ensures Path(states, events, tx, u, a) && states[0] == s
    ensures states[|states| - 1] == R.With(s, tx, R.SaveFound(u, a))
    ensures R.SavedOf(states[|states| - 1], u) == R.SavedOf(s, u)
  {
    states, events := NotSaved(s, tx, u, a);
    states, events := Then(states, events, tx, u, a, R.CheckArticle(tx), R.With(s, tx, R.SaveFound(u, a)));
  }

  lemma Checked(s: R.State, tx: int, u: int, a: int) returns (states: seq<R.State>, events: seq<R.Event>)
    requires Alone(s) && tx !in s.txns && u in s.users
    requires R.Key(u, a) !in s.saved && a in s.articles && |R.SavedOf(s, u)| < 500
    ensures Path(states, events, tx, u, a) && states[0] == s
    ensures states[|states| - 1] == R.With(s, tx, R.SaveCounted(u, a))
  {
    states, events := Found(s, tx, u, a);
    states, events := Then(states, events, tx, u, a, R.CheckCount(tx), R.With(s, tx, R.SaveCounted(u, a)));
  }

  lemma Done(s: R.State, tx: int, u: int, a: int) returns (states: seq<R.State>, events: seq<R.Event>)
    requires Alone(s) && tx !in s.txns && u in s.users
    requires R.Key(u, a) !in s.saved && a in s.articles && |R.SavedOf(s, u)| < 500
    ensures Path(states, events, tx, u, a) && states[0] == s
    ensures states[|states| - 1] ==
            R.With(s, tx, R.SaveDone(u, a, R.Created)).(saved := s.saved + {R.Key(u, a)})
  {
    states, events := Checked(s, tx, u, a);
    states, events := Then(states, events, tx, u, a, R.Insert(tx), R.With(s, tx, R.SaveInserted(u, a)));
    var done := R.With(s, tx, R.SaveDone(u, a, R.Created)).(saved := s.saved + {R.Key(u, a)});
    states, events := Then(states, events, tx, u, a, R.CommitSave(tx), done);
  }

  lemma Refused(s: R.State, tx: int, u: int, a: int, o: R.Outcome) returns (states: seq<R.State>, events: seq<R.Event>)
    requires Alone(s) && tx !in s.txns
    requires o == if u !in s.users then R.UserNotFound
                  else if R.Key(u, a) in s.saved then R.AlreadySaved
                  else if a !in s.articles then R.ArticleNotFound
                  else if |R.SavedOf(s, u)| >= 500 then R.LimitReached
                  else R.Created
    requires o != R.Created
    ensures Path(states, events, tx, u, a) && states[0] == s
    ensures states[|states| - 1] == R.With(s, tx, R.SaveDone(u, a, o))
  {
    var end := R.With(s, tx, R.SaveDone(u, a, o));
    if u !in s.users {
      var begun := R.With(s, tx, R.SaveBegun(u, a));
      states, events := [s, begun], [R.BeginSave(tx, u, a)];
      states, events := Then(states, events, tx, u, a, R.LockUser(tx), end);
    } else if o == R.AlreadySaved {
      states, events := Locked(s, tx, u, a);
      states, events := Then(states, events, tx, u, a, R.CheckSaved(tx), end);
    } else if o == R.ArticleNotFound {
      states, events := NotSaved(s, tx, u, a);
      states, events := Then(states, events, tx, u, a, R.CheckArticle(tx), end);
    } else {
      states, events := Found(s, tx, u, a);
      states, events := Then(states, events, tx, u, a, R.CheckCount(tx), end);
    }
  }

  /** A save with nothing else under way runs to its end: it reports what the transaction of the store reports, and
      leaves the same rows. */
  lemma SaveInOneGo(s: R.State, db: Db, tx: int, u: int, a: int, now: int)
    returns (states: seq<R.State>, events: seq<R.Event>)
    requires SameRows(s, db) && Alone(s) && tx !in s.txns
    ensures Path(states, events, tx, u, a) && states[0] == s
    ensures var last := states[|states| - 1];
            && tx in last.txns && last.txns[tx] == R.SaveDone(u, a, OutcomeOf(SaveResult(db, u, a)))
            && SameRows(last, SaveEffect(db, u, a, now))
  {
    SameCount(s, db, u);
    assert R.Key(u, a) in s.saved <==> Pair(u, a) in db.saved;
    var o := OutcomeOf(SaveResult(db, u, a));
    if o == R.Created {
      states, events := Done(s, tx, u, a);
    } else {
      states, events := Refused(s, tx, u, a, o);
    }
  }

  // ---------- retention ----------

  ghost predicate Steps(states: seq<R.State>, events: seq<R.Event>) {
    && |states| == |events| + 1
    && (forall i {:trigger events[i]} :: 0 <= i < |events| ==> R.Step(states[i], events[i], states[i + 1]))
  }

  lemma Onward(states: seq<R.State>, events: seq<R.Event>, e: R.Event, next: R.State)
    returns (more: seq<R.State>, longer: seq<R.Event>)
    requires Steps(states, events) && R.Step(states[|states| - 1], e, next)
    ensures Steps(more, longer) && more[0] == states[0] && more[|more| - 1] == next
  {
    more, longer := states + [next], events + [e];
    forall i | 0 <= i < |longer| ensures R.Step(more[i], longer[i], more[i + 1]) {
      if i < |events| { assert longer[i] == events[i]; }
    }
  }

  lemma Pick<T>(s: set<T>) returns (x: T)
    requires s != {}
    ensures x in s
  {
    x :| x in s;
  }

  /** The first statement locks every row that it finds. */
  lemma LocksAll(s: R.State, tx: int, source: string, before: int)
    returns (states: seq<R.State>, events: seq<R.Event>)
    requires Alone(s) && tx >= 0 && tx !in s.txns
    ensures Steps(states, events) && states[0] == s
    ensures states[|states| - 1] == R.With(s, tx, R.RetainLocking(source, before, R.ExpiredIn(s, source, before), {}))
  {
    var all := R.ExpiredIn(s, source, before);
    var done, todo := {}, all;
    states, events := Onward([s], [], R.BeginRetain(tx, source, before),
                             R.With(s, tx, R.RetainLocking(source, before, {}, all)));
    while todo != {}
      invariant done + todo == all && Steps(states, events) && states[0] == s
      invariant states[|states| - 1] == R.With(s, tx, R.RetainLocking(source, before, done, todo))
      decreases todo
    {
      var a := Pick(todo);
      assert R.Expired(s, a, source, before);
      states, events := Onward(states, events, R.LockRow(tx, a),
                               R.With(s, tx, R.RetainLocking(source, before, done + {a}, todo - {a})));
      done, todo := done + {a}, todo - {a};
    }
    assert done == all;
  }

  /** The second statement deletes those that nobody has saved. */
  lemma DeletesAll(s: R.State, tx: int, source: string, before: int, ids: set<int>)
    returns (states: seq<R.State>, events: seq<R.Event>)
    requires tx !in s.txns && ids != {}
    ensures Steps(states, events) && states[0] == R.With(s, tx, R.RetainLocking(source, before, ids, {}))
    ensures states[|states| - 1] ==
            R.With(s, tx, R.RetainDeleting(source, before, ids, R.SavedArticles(s), ids - R.SavedArticles(s)))
  {
    var locked := R.With(s, tx, R.RetainLocking(source, before, ids, {}));
    var kept := R.SavedArticles(s);
    assert R.SavedArticles(locked) == kept;
    var done: set<int>, todo: set<int> := {}, ids - kept;
    states, events := Onward([locked], [], R.BeginDelete(tx),
                             R.With(s, tx, R.RetainDeleting(source, before, ids, kept, {})));
    while todo != {}
      invariant done + todo == ids - kept && Steps(states, events) && states[0] == locked
      invariant states[|states| - 1] == R.With(s, tx, R.RetainDeleting(source, before, ids, kept, done))
      decreases todo
    {
      var a := Pick(todo);
      assert a in ids - kept;
      states, events := Onward(states, events, R.DeleteRow(tx, a),
                               R.With(s, tx, R.RetainDeleting(source, before, ids, kept, done + {a})));
      done, todo := done + {a}, todo - {a};
    }
    assert done == ids - kept;
  }

  lemma Joined(a: seq<R.State>, x: seq<R.Event>, b: seq<R.State>, y: seq<R.Event>)
    requires Steps(a, x) && Steps(b, y) && a[|a| - 1] == b[0]
    ensures Steps(a + b[1..], x + y)
  {
    var all, events := a + b[1..], x + y;
    forall i | 0 <= i < |events| ensures R.Step(all[i], events[i], all[i + 1]) {
      if i < |x| { assert events[i] == x[i]; } else { assert events[i] == y[i - |x|]; }
    }
  }

  /** A retention with nothing else under way deletes exactly the articles of its source that are past their age and
      that nobody has saved, and no save. */
  lemma RetainInOneGo(s: R.State, tx: int, source: string, before: int)
    returns (states: seq<R.State>, events: seq<R.Event>)
    requires Alone(s) && tx >= 0 && tx !in s.txns
    ensures Steps(states, events) && states[0] == s
    ensures var last := states[|states| - 1];
            && last.saved == s.saved && last.articles.Keys <= s.articles.Keys
            && forall a :: a in s.articles ==>
                 (a in last.articles <==>
                    s.articles[a].source != source || s.articles[a].publishedAt >= before
                    || exists k :: k in s.saved && k.article == a)
  {
    var ids := R.ExpiredIn(s, source, before);
    var kept := R.SavedArticles(s);
    states, events := LocksAll(s, tx, source, before);
    if ids == {} {
      states, events := Onward(states, events, R.BeginDelete(tx), R.With(s, tx, R.RetainDone({})));
      assert forall a :: a in s.articles ==> a !in ids;
    } else {
      var more, longer := DeletesAll(s, tx, source, before, ids);
      Joined(states, events, more, longer);
      states, events := states + more[1..], events + longer;
      var gone := ids - kept;
      var end := R.With(s, tx, R.RetainDone(gone)).(articles := s.articles - gone);
      assert (set k | k in s.saved && k.article !in gone) == s.saved;
      states, events := Onward(states, events, R.CommitRetain(tx), end);
    }
  }
}
