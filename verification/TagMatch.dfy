/** Matching foreign tag names to the rows of the tag table (server/internal/articlefetch/tagmatch.go). */
module TagMatch {
  import opened Wrappers
  import opened Tags
  import opened Sorting

  datatype TagRef = TagRef(id: int, name: string)

  type SpaceCheck = f: char -> bool | true witness (c: char) => c == ' '

  /** unicode.IsSpace. */
  const IsSpace: SpaceCheck

  function CompactKey(s: string): string {
    if s == "" then "" else (if IsSpace(s[0]) then "" else [s[0]]) + CompactKey(s[1..])
  }

  // ---------- the linear scan ----------

  /** The least ID of a row with that normalised name. */
  function LeastExact(tags: seq<TagRef>, key: string): (r: Option<int>)
    ensures r.None? <==> forall t :: t in tags ==> NormalizeTag(t.name) != key
    ensures r.Some? ==> TagRefWith(tags, r.value, key) && forall t :: t in tags && NormalizeTag(t.name) == key ==>
              r.value <= t.id
  {
    if tags == [] then None
    else
      var before, t := tags[..|tags| - 1], tags[|tags| - 1];
      assert tags == before + [t];
      var r := LeastExact(before, key);
      if NormalizeTag(t.name) != key then r
      else if r.Some? && r.value <= t.id then r
      else Some(t.id)
  }

  ghost predicate TagRefWith(tags: seq<TagRef>, id: int, key: string) {
    exists t :: t in tags && t.id == id && NormalizeTag(t.name) == key
  }

  /** The IDs of the named rows that share a space-free form. */
  function CompactIds(tags: seq<TagRef>, compact: string): set<int> {
    set t | t in tags && NormalizeTag(t.name) != "" && CompactKey(NormalizeTag(t.name)) == compact :: t.id
  }

  /** The least ID with the name; otherwise the only ID with its space-free form; otherwise none. */
  ghost function Scan(tags: seq<TagRef>, name: string): Option<int> {
    var key := NormalizeTag(name);
    if key == "" then None
    else if LeastExact(tags, key).Some? then LeastExact(tags, key)
    else if exists id :: CompactIds(tags, CompactKey(key)) == {id} then
      var id :| CompactIds(tags, CompactKey(key)) == {id};
      Some(id)
    else None
  }

  /** A name without its spaces: each character is dropped or kept by itself, so a name without spaces stays. */
  lemma CompactMeans(c: char)
    ensures CompactKey("") == "" && CompactKey([c]) == if IsSpace(c) then "" else [c]
  {
    assert [c][1..] == "";
  }

  lemma {:induction false} CompactAppends(a: string, b: string)
    ensures CompactKey(a + b) == CompactKey(a) + CompactKey(b)
  {
    if a == "" {
      assert a + b == b;
    } else {
      assert (a + b)[1..] == a[1..] + b;
      CompactAppends(a[1..], b);
    }
  }

  predicate SameName(t: TagRef, name: string) { NormalizeTag(t.name) == NormalizeTag(name) }

  /** The two names are the same but for letter case and spaces, and neither is blank. */
  predicate SameLetters(t: TagRef, name: string) {
    NormalizeTag(t.name) != "" && CompactKey(NormalizeTag(t.name)) == CompactKey(NormalizeTag(name))
  }

  /** What a name matches: nothing when it is blank; the least ID of the rows with that name when there are any; and
      otherwise the ID of the rows with the same letters, when they agree on one. */
  lemma ScanMeans(tags: seq<TagRef>, name: string, id: int)
    ensures Scan(tags, name) == Some(id) <==>
            && NormalizeTag(name) != ""
            && if exists t :: t in tags && SameName(t, name)
               then (exists t :: t in tags && t.id == id && SameName(t, name))
                    && forall t :: t in tags && SameName(t, name) ==> id <= t.id
               else (exists t :: t in tags && SameLetters(t, name))
                    && forall t :: t in tags && SameLetters(t, name) ==> t.id == id
  {
    if t :| t in tags && SameName(t, name) {
      assert NormalizeTag(t.name) == NormalizeTag(name);
      ExactMeans(tags, name, id);
    } else {
      CompactSole(tags, name, id);
    }
  }

  lemma ExactMeans(tags: seq<TagRef>, name: string, id: int)
    requires exists t :: t in tags && SameName(t, name)
    ensures LeastExact(tags, NormalizeTag(name)) == Some(id) <==>
              && (exists t :: t in tags && t.id == id && SameName(t, name))
              && forall t :: t in tags && SameName(t, name) ==> id <= t.id
  {
    var r := LeastExact(tags, NormalizeTag(name));
    assert r.Some?;
    var least :| least in tags && least.id == r.value && NormalizeTag(least.name) == NormalizeTag(name);
    assert SameName(least, name);
  }

  /** The rows with the same letters agree on one ID exactly when theirs is the only one. */
  lemma CompactSole(tags: seq<TagRef>, name: string, id: int)
    ensures CompactIds(tags, CompactKey(NormalizeTag(name))) == {id} <==>
              && (exists t :: t in tags && SameLetters(t, name))
              && forall t :: t in tags && SameLetters(t, name) ==> t.id == id
  {
    var ids := CompactIds(tags, CompactKey(NormalizeTag(name)));
    assert forall t :: t in tags && SameLetters(t, name) ==> t.id in ids;
    assert forall x :: x in ids ==> exists t :: t in tags && SameLetters(t, name) && t.id == x;
    if ids == {id} { assert id in ids; }
  }

  // ---------- the index ----------

  predicate ById(a: TagRef, b: TagRef) { a.id < b.id }

  ghost predicate ExactAt(exact: map<string, int>, tags: seq<TagRef>, key: string) {
    if key == "" then key !in exact else LeastExact(tags, key) == if key in exact then Some(exact[key]) else None
  }

  ghost predicate IndexesExact(exact: map<string, int>, tags: seq<TagRef>) {
    forall key :: ExactAt(exact, tags, key)
  }

  function KnownIds(compact: map<string, seq<int>>, ck: string): seq<int> { if ck in compact then compact[ck] else [] }

  ghost predicate CompactAt(compact: map<string, seq<int>>, tags: seq<TagRef>, ck: string) {
    Ascending(KnownIds(compact, ck)) && Elems(KnownIds(compact, ck)) == CompactIds(tags, ck)
  }

  ghost predicate IndexesCompact(compact: map<string, seq<int>>, tags: seq<TagRef>) {
    forall ck :: CompactAt(compact, tags, ck)
  }

  /** The index answers as the rows. */
  ghost predicate Indexes(exact: map<string, int>, compact: map<string, seq<int>>, tags: seq<TagRef>) {
    IndexesExact(exact, tags) && IndexesCompact(compact, tags)
  }

  ghost predicate Ascending(ids: seq<int>) { forall i, j :: 0 <= i < j < |ids| ==> ids[i] < ids[j] }

  class TagMatcher {
    const exact: map<string, int>
    const compact: map<string, seq<int>>
    ghost const tags: seq<TagRef>

    ghost predicate Valid() { Indexes(exact, compact, tags) }

    constructor (tags: seq<TagRef>)
      ensures Valid() && this.tags == tags
    {
      var exact, compact := Index(tags);
      this.exact, this.compact, this.tags := exact, compact, tags;
    }

    function Match(name: string): (r: Option<int>)
      requires Valid()
      ensures r == Scan(tags, name)
    {
      var key := NormalizeTag(name);
      assert ExactAt(exact, tags, key);
      if key == "" then None
      else if key in exact then Some(exact[key])
      else
        var ck := CompactKey(key);
        SoleId(exact, compact, tags, ck);
        if ck in compact && |compact[ck]| == 1 then Some(compact[ck][0]) else None
    }

    method MatchAll(names: seq<string>) returns (ids: seq<int>)
      requires Valid()
      ensures ids == Distincts(Scans(tags, names), |names|)
    {
      ids := [];
      var seen: set<int> := {};
      ghost var found := Scans(tags, names);
      for n := 0 to |names|
        invariant ids == Distincts(found, n)
        invariant forall id :: id in seen <==> id in ids
      {
        var id := Match(names[n]);
        assert found[n] == id;
        if id.None? || id.value in seen { continue; }
        seen := seen + {id.value};
        ids := ids + [id.value];
      }
    }
  }

  lemma SoleId(exact: map<string, int>, compact: map<string, seq<int>>, tags: seq<TagRef>, ck: string)
    requires Indexes(exact, compact, tags)
    ensures ck in compact && |compact[ck]| == 1 ==> CompactIds(tags, ck) == {compact[ck][0]}
    ensures !(ck in compact && |compact[ck]| == 1) ==> forall id :: CompactIds(tags, ck) != {id}
  {
    assert CompactAt(compact, tags, ck);
    var ids := KnownIds(compact, ck);
    if |ids| == 0 { assert CompactIds(tags, ck) == {}; }
    if |ids| >= 2 {
      assert ids[0] in Elems(ids) && ids[1] in Elems(ids) && ids[0] < ids[1];
    }
  }

  /** What the linear scan finds for each name. */
  ghost function Scans(tags: seq<TagRef>, names: seq<string>): (r: seq<Option<int>>)
    ensures |r| == |names|
  {
    seq(|names|, n requires 0 <= n < |names| => Scan(tags, names[n]))
  }

  /** The distinct IDs among the first n found, in the order in which they are first found. */
  function Distincts(found: seq<Option<int>>, n: nat): seq<int>
    requires n <= |found|
  {
    if n == 0 then []
    else
      var before, hit := Distincts(found, n - 1), found[n - 1];
      if hit.None? || hit.value in before then before else before + [hit.value]
  }

  predicate FoundBefore(found: seq<Option<int>>, n: nat, id: int)
    requires n <= |found|
  {
    exists m :: 0 <= m < n && found[m] == Some(id)
  }

  lemma {:induction false} DistinctsAreAll(found: seq<Option<int>>, n: nat, id: int)
    requires n <= |found|
    ensures id in Distincts(found, n) <==> FoundBefore(found, n, id)
  {
    if n > 0 { DistinctsAreAll(found, n - 1, id); }
  }

  /** Wherever b is found, a was found before. */
  ghost predicate Precedes(found: seq<Option<int>>, n: nat, a: int, b: int)
    requires n <= |found|
  {
    forall k :: 0 <= k < n && found[k] == Some(b) ==> FoundBefore(found, k, a)
  }

  /** Each ID once, ordered by where it is first found. */
  ghost predicate ByFirst(found: seq<Option<int>>, n: nat, ids: seq<int>)
    requires n <= |found|
  {
    forall i, j :: 0 <= i < j < |ids| ==> ids[i] != ids[j] && Precedes(found, n, ids[i], ids[j])
  }

  lemma {:induction false} DistinctsInOrder(found: seq<Option<int>>, n: nat)
    requires n <= |found|
    ensures ByFirst(found, n, Distincts(found, n))
  {
    if n > 0 {
      var ids, all := Distincts(found, n - 1), Distincts(found, n);
      DistinctsInOrder(found, n - 1);
      forall i, j | 0 <= i < j < |all| ensures all[i] != all[j] && Precedes(found, n, all[i], all[j]) {
        assert all[i] == ids[i];
        DistinctsAreAll(found, n - 1, all[i]);
        DistinctsAreAll(found, n - 1, all[j]);
      }
    }
  }

  /** Exactly the IDs that some name hits, each once, ordered by the first name that hits it. */
  lemma HitsMean(tags: seq<TagRef>, names: seq<string>)
    ensures var ids := Distincts(Scans(tags, names), |names|);
            && (forall id :: id in ids <==> exists n :: 0 <= n < |names| && Scan(tags, names[n]) == Some(id))
            && ByFirst(Scans(tags, names), |names|, ids)
  {
    var found := Scans(tags, names);
    DistinctsInOrder(found, |names|);
    forall id
      ensures id in Distincts(found, |names|) <==> exists n :: 0 <= n < |names| && Scan(tags, names[n]) == Some(id) {
      DistinctsAreAll(found, |names|, id);
      if n :| 0 <= n < |names| && Scan(tags, names[n]) == Some(id) { assert found[n] == Some(id); }
    }
  }

  // ---------- building it ----------

  /** Rows in ID order, as far as they are read. */
  ghost predicate IdsAtMost(tags: seq<TagRef>, id: int) { forall t :: t in tags ==> t.id <= id }

  /** One row, read in ID order. */
  method AddRow(exact: map<string, int>, compact: map<string, seq<int>>, ghost read: seq<TagRef>, t: TagRef)
    returns (exactNext: map<string, int>, compactNext: map<string, seq<int>>)
    requires Indexes(exact, compact, read) && IdsAtMost(read, t.id)
    ensures Indexes(exactNext, compactNext, read + [t])
  {
    exactNext, compactNext := exact, compact;
    var key := NormalizeTag(t.name);
    if key == "" {
      AddBlank(exact, compact, read, t);
      return;
    }
    exactNext := AddToExact(exact, read, t, key);
    compactNext := AddToCompact(compact, read, t, CompactKey(key));
  }

  /** Of names that differ in case only, the least ID stays. */
  method AddToExact(exact: map<string, int>, ghost read: seq<TagRef>, t: TagRef, key: string)
    returns (next: map<string, int>)
    requires IndexesExact(exact, read) && IdsAtMost(read, t.id) && key == NormalizeTag(t.name) != ""
    ensures IndexesExact(next, read + [t])
  {
    AddExact(exact, read, t);
    next := exact;
    if key !in exact { next := exact[key := t.id]; }
  }

  method AddToCompact(compact: map<string, seq<int>>, ghost read: seq<TagRef>, t: TagRef, ck: string)
    returns (next: map<string, seq<int>>)
    requires IndexesCompact(compact, read) && IdsAtMost(read, t.id)
    requires NormalizeTag(t.name) != "" && ck == CompactKey(NormalizeTag(t.name))
    ensures IndexesCompact(next, read + [t])
  {
    var ids := KnownIds(compact, ck);
    AddCompact(compact, read, t, ck, ids);
    next := compact;
    if |ids| == 0 || ids[|ids| - 1] != t.id { next := compact[ck := ids + [t.id]]; }
  }

  method Index(tags: seq<TagRef>) returns (exact: map<string, int>, compact: map<string, seq<int>>)
    ensures Indexes(exact, compact, tags)
  {
    var sorted := SortBy(ById, tags);
    SortedById(tags);
    exact, compact := map[], map[];
    NothingRead();
    ghost var read: seq<TagRef> := [];
    for n := 0 to |sorted|
      invariant read == sorted[..n] && Indexes(exact, compact, read)
    {
      ReadSoFar(sorted, n);
      exact, compact := AddRow(exact, compact, read, sorted[n]);
      read := read + [sorted[n]];
    }
    assert read == sorted;
    SameRows(exact, compact, sorted, tags);
  }

  lemma NothingRead()
    ensures Indexes(map[], map[], [])
  {
    forall key ensures ExactAt(map[], [], key) {
    }
    forall ck ensures CompactAt(map[], [], ck) {
      assert CompactIds([], ck) == {};
    }
  }

  lemma ReadSoFar(sorted: seq<TagRef>, n: nat)
    requires InIdOrder(sorted) && n < |sorted|
    ensures IdsAtMost(sorted[..n], sorted[n].id)
  {
    forall x | x in sorted[..n] ensures x.id <= sorted[n].id {
      var i :| 0 <= i < n && sorted[i] == x;
    }
  }

  ghost predicate InIdOrder(s: seq<TagRef>) { forall i, j :: 0 <= i < j < |s| ==> s[i].id <= s[j].id }

  lemma PrependInOrder(y: TagRef, t: seq<TagRef>)
    requires InIdOrder(t) && forall z :: z in t ==> y.id <= z.id
    ensures InIdOrder([y] + t)
  {
  }

  lemma {:induction false} InsertById(x: TagRef, s: seq<TagRef>)
    requires InIdOrder(s)
    ensures InIdOrder(InsertBy(ById, x, s))
  {
    if s != [] {
      forall z | z in s ensures s[0].id <= z.id {
        var i :| 0 <= i < |s| && s[i] == z;
      }
      if ById(s[0], x) {
        InsertById(x, s[1..]);
        InsertedFrom(x, s[1..], InsertBy(ById, x, s[1..]));
        PrependInOrder(s[0], InsertBy(ById, x, s[1..]));
      } else {
        PrependInOrder(x, s);
      }
    }
  }

  lemma InsertedFrom(x: TagRef, s: seq<TagRef>, t: seq<TagRef>)
    requires multiset(t) == multiset{x} + multiset(s)
    ensures forall y :: y in t ==> y == x || y in s
  {
    forall y | y in t ensures y == x || y in s { assert y in multiset(t); }
  }

  lemma {:induction false} SortedById(tags: seq<TagRef>)
    ensures InIdOrder(SortBy(ById, tags))
  {
    if tags != [] {
      SortedById(tags[1..]);
      InsertById(tags[0], SortBy(ById, tags[1..]));
    }
  }

  lemma AddBlank(exact: map<string, int>, compact: map<string, seq<int>>, read: seq<TagRef>, t: TagRef)
    requires Indexes(exact, compact, read) && NormalizeTag(t.name) == ""
    ensures Indexes(exact, compact, read + [t])
  {
    var all := read + [t];
    assert all[..|read|] == read;
    forall key ensures ExactAt(exact, all, key) {
      assert ExactAt(exact, read, key);
    }
    forall ck ensures CompactAt(compact, all, ck) {
      assert CompactAt(compact, read, ck);
      CompactIdsStep(read, t, ck);
    }
  }

  lemma CompactIdsStep(read: seq<TagRef>, t: TagRef, ck: string)
    ensures CompactIds(read + [t], ck) == CompactIds(read, ck)
              + if NormalizeTag(t.name) != "" && CompactKey(NormalizeTag(t.name)) == ck then {t.id} else {}
  {
  }

  lemma LeastStep(read: seq<TagRef>, t: TagRef, key: string)
    requires IdsAtMost(read, t.id)
    ensures LeastExact(read + [t], key) ==
            if LeastExact(read, key).Some? || NormalizeTag(t.name) != key then LeastExact(read, key) else Some(t.id)
  {
    assert (read + [t])[..|read|] == read;
  }

  lemma AddExact(exact: map<string, int>, read: seq<TagRef>, t: TagRef)
    requires IndexesExact(exact, read) && IdsAtMost(read, t.id) && NormalizeTag(t.name) != ""
    ensures IndexesExact(
              if NormalizeTag(t.name) in exact then exact else exact[NormalizeTag(t.name) := t.id], read + [t])
  {
    var next := if NormalizeTag(t.name) in exact then exact else exact[NormalizeTag(t.name) := t.id];
    var all := read + [t];
    forall key ensures ExactAt(next, all, key) {
      assert ExactAt(exact, read, key);
      LeastStep(read, t, key);
    }
  }

  lemma AddCompact(compact: map<string, seq<int>>, read: seq<TagRef>, t: TagRef, ck: string, ids: seq<int>)
    requires IndexesCompact(compact, read) && IdsAtMost(read, t.id)
    requires NormalizeTag(t.name) != "" && ck == CompactKey(NormalizeTag(t.name)) && ids == KnownIds(compact, ck)
    ensures IndexesCompact(compact[ck := NextIds(ids, t.id)], read + [t])
    ensures NextIds(ids, t.id) == ids ==> IndexesCompact(compact, read + [t])
  {
    assert CompactAt(compact, read, ck);
    NextIdsMean(ids, t.id, CompactIds(read, ck), read);
    var next, all := compact[ck := NextIds(ids, t.id)], read + [t];
    forall c ensures CompactAt(next, all, c) {
      assert CompactAt(compact, read, c);
      CompactIdsStep(read, t, c);
    }
    if NextIds(ids, t.id) == ids {
      forall c ensures CompactAt(compact, all, c) {
        assert CompactAt(next, all, c);
      }
    }
  }

  /** The list with an ID at its end, unless it ends with it. */
  function NextIds(ids: seq<int>, id: int): seq<int> {
    if |ids| == 0 || ids[|ids| - 1] != id then ids + [id] else ids
  }

  lemma NextIdsMean(ids: seq<int>, id: int, all: set<int>, read: seq<TagRef>)
    requires Ascending(ids) && Elems(ids) == all && all <= (set t | t in read :: t.id) && IdsAtMost(read, id)
    ensures Ascending(NextIds(ids, id)) && Elems(NextIds(ids, id)) == all + {id}
  {
    forall i | 0 <= i < |ids| ensures ids[i] <= id {
      assert ids[i] in all;
    }
    assert Elems(ids + [id]) == Elems(ids) + {id};
    if |ids| > 0 && ids[|ids| - 1] == id { assert id in Elems(ids) && Elems(ids) + {id} == Elems(ids); }
  }

  lemma SameRows(exact: map<string, int>, compact: map<string, seq<int>>, a: seq<TagRef>, b: seq<TagRef>)
    requires Indexes(exact, compact, a) && multiset(a) == multiset(b)
    ensures Indexes(exact, compact, b)
  {
    SameElems(a, b);
    forall t ensures t in a <==> t in b {
      assert t in a <==> t in Elems(a);
      assert t in b <==> t in Elems(b);
    }
    forall key ensures ExactAt(exact, b, key) {
      assert ExactAt(exact, a, key);
    }
    forall ck ensures CompactAt(compact, b, ck) {
      assert CompactAt(compact, a, ck);
      assert CompactIds(b, ck) == CompactIds(a, ck);
    }
  }
}
