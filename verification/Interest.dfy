/** Fixed-point interest learning: package server/internal/interest. Weights are integers scaled by 10000. */
module Interest {
  import opened Wrappers
  import opened Tags
  import opened Sorting

  const SCALE := 10000
  const CLICK_BOOST := 2000
  const SAVE_BOOST := 3000
  const INITIAL_SELECTED := SCALE

  datatype Weight = Weight(tagId: int, tag: string, value: int)

  datatype Error = NormalizedTagCollision

  function Key(w: Weight): string {
    NormalizeTag(w.tag)
  }

  function Clamp(v: int): int {
    if v < 0 then 0 else if v > SCALE then SCALE else v
  }

  /** What a click does to every stored weight before boosting: times 8/10, rounded down. */
  function Decay(v: int): int {
    Clamp(v) * 8 / 10
  }

  function Add(v: int, boost: int): int {
    Clamp(v + boost)
  }

  /** Two rows with the same non-blank normalised name. */
  ghost predicate Collides(ws: seq<Weight>) {
    exists i, j :: 0 <= i < j < |ws| && Key(ws[i]) != "" && Key(ws[i]) == Key(ws[j])
  }

  function RowKeys(ws: seq<Weight>): set<string> {
    set w | w in ws && Key(w) != "" :: Key(w)
  }

  /** `out` is `base` with `boost` added once to every row named by `keys`, followed by one row of weight
      `boost` for each remaining key, in increasing order of name and with no tag ID yet. */
  ghost predicate IsBoost(base: seq<Weight>, keys: set<string>, boost: int, out: seq<Weight>) {
    && |base| <= |out|
    && (forall i :: 0 <= i < |base| ==>
          out[i] == if Key(base[i]) in keys then base[i].(value := Add(base[i].value, boost)) else base[i])
    && (forall i :: |base| <= i < |out| ==> out[i] == Weight(0, out[i].tag, boost))
    && (var names := seq(|out| - |base|, i requires 0 <= i < |out| - |base| => out[|base| + i].tag);
        Increasing(LexLess, names) && Elems(names) == keys - RowKeys(base))
  }

  /** The result does not depend on the order in which the set of keys was traversed. */
  lemma BoostDetermined(base: seq<Weight>, keys: set<string>, boost: int, a: seq<Weight>, b: seq<Weight>)
    requires IsBoost(base, keys, boost, a) && IsBoost(base, keys, boost, b)
    ensures a == b
  {
    var n := |base|;
    var namesA := seq(|a| - n, i requires 0 <= i < |a| - n => a[n + i].tag);
    var namesB := seq(|b| - n, i requires 0 <= i < |b| - n => b[n + i].tag);
    LexStrictTotal(Elems(namesA));
    IncreasingUnique(LexLess, namesA, namesB);
    forall i | n <= i < |a| ensures a[i] == b[i] {
      assert namesA[i - n] == namesB[i - n];
    }
  }

  method ValidateCurrent(current: seq<Weight>) returns (ok: bool)
    ensures ok <==> !Collides(current)
  {
    var seen: set<string> := {};
    for n := 0 to |current|
      invariant forall i :: 0 <= i < n && Key(current[i]) != "" ==> Key(current[i]) in seen
      invariant forall k :: k in seen ==> exists i :: 0 <= i < n && Key(current[i]) == k
      invariant !Collides(current[..n])
    {
      var key := Key(current[n]);
      if key == "" { continue; }
      if key in seen {
        var i :| 0 <= i < n && Key(current[i]) == key;
        assert Key(current[i]) == Key(current[n]);
        return false;
      }
      seen := seen + {key};
    }
    assert current[..|current|] == current;
    return true;
  }

  /** The first row of each non-blank key (the only one, when nothing collides). */
  ghost predicate IsIndex(byTag: map<string, int>, base: seq<Weight>) {
    && byTag.Keys == RowKeys(base)
    && (forall i :: 0 <= i < |base| && Key(base[i]) != "" ==> Key(base[i]) in byTag && byTag[Key(base[i])] == i)
    && (forall k :: k in byTag ==> 0 <= byTag[k] < |base| && Key(base[byTag[k]]) == k)
  }

  method IndexByKey(base: seq<Weight>) returns (byTag: map<string, int>)
    requires !Collides(base)
    ensures IsIndex(byTag, base)
  {
    byTag := map[];
    for n := 0 to |base|
      invariant forall k :: k in byTag ==> 0 <= byTag[k] < n && Key(base[byTag[k]]) == k && k != ""
      invariant forall i :: 0 <= i < n && Key(base[i]) != "" ==> Key(base[i]) in byTag && byTag[Key(base[i])] == i
    {
      if Key(base[n]) != "" { byTag := byTag[Key(base[n]) := n]; }
    }
    forall k | k in byTag ensures k in RowKeys(base) {
      assert base[byTag[k]] in base;
    }
  }

  method CollectKeys(names: seq<string>) returns (keys: set<string>)
    ensures keys == KeysOf(names)
  {
    keys := {};
    for n := 0 to |names|
      invariant keys == KeysOf(names[..n])
    {
      if NormalizeTag(names[n]) != "" { keys := keys + {NormalizeTag(names[n])}; }
      assert names[..n + 1] == names[..n] + [names[n]];
    }
    assert names[..|names|] == names;
  }

  /** Boosts the rows that exist and lists the keys that have no row, visiting the keys in any order. */
  method BoostExisting(base: seq<Weight>, keys: set<string>, byTag: map<string, int>, boost: int)
    returns (out: seq<Weight>, newTags: seq<string>)
    requires IsIndex(byTag, base) && "" !in keys
    ensures |out| == |base|
    ensures forall i :: 0 <= i < |base| ==>
      out[i] == if Key(base[i]) in keys then base[i].(value := Add(base[i].value, boost)) else base[i]
    ensures Distinct(newTags) && Elems(newTags) == keys - byTag.Keys
  {
    out := base;
    newTags := [];
    var rest := keys;
    while rest != {}
      invariant rest <= keys && |out| == |base|
      invariant forall i :: 0 <= i < |base| ==>
        out[i] == if Key(base[i]) in keys - rest then base[i].(value := Add(base[i].value, boost)) else base[i]
      invariant Elems(newTags) == keys - rest - byTag.Keys
      invariant Distinct(newTags)
      decreases rest
    {
      var key :| key in rest;
      if key in byTag {
        var i := byTag[key];
        out := out[i := out[i].(value := Add(out[i].value, boost))];
      } else {
        assert key !in Elems(newTags);
        assert Elems(newTags + [key]) == Elems(newTags) + {key};
        newTags := newTags + [key];
      }
      rest := rest - {key};
    }
  }

  method AppendNew(boosted: seq<Weight>, names: seq<string>, boost: int) returns (out: seq<Weight>)
    ensures |out| == |boosted| + |names|
    ensures forall i :: 0 <= i < |boosted| ==> out[i] == boosted[i]
    ensures forall i :: |boosted| <= i < |out| ==> out[i] == Weight(0, names[i - |boosted|], boost)
  {
    out := boosted;
    for n := 0 to |names|
      invariant |out| == |boosted| + n
      invariant forall i :: 0 <= i < |boosted| ==> out[i] == boosted[i]
      invariant forall i :: |boosted| <= i < |boosted| + n ==> out[i] == Weight(0, names[i - |boosted|], boost)
    {
      out := out + [Weight(0, names[n], boost)];
    }
  }

  /** The part that UpdateOnClick and UpdateOnSave share. */
  method ApplyBoost(base: seq<Weight>, names: seq<string>, boost: int) returns (out: seq<Weight>)
    requires !Collides(base)
    ensures IsBoost(base, KeysOf(names), boost, out)
  {
    var byTag := IndexByKey(base);
    var keys := CollectKeys(names);
    var boosted, newTags := BoostExisting(base, keys, byTag, boost);
    LexStrictTotal(Elems(newTags));
    SortIncreasing(LexLess, newTags);
    var sorted := SortBy(LexLess, newTags);
    SameElems(sorted, newTags);
    out := AppendNew(boosted, sorted, boost);
    assert seq(|out| - |base|, i requires 0 <= i < |out| - |base| => out[|base| + i].tag) == sorted;
  }

  function DecayAll(ws: seq<Weight>): (r: seq<Weight>)
    ensures |r| == |ws| && forall i :: 0 <= i < |ws| ==> r[i] == ws[i].(value := Decay(ws[i].value))
  {
    seq(|ws|, i requires 0 <= i < |ws| => ws[i].(value := Decay(ws[i].value)))
  }

  /** One click: every row decays, then each distinct clicked tag is boosted once. */
  method UpdateOnClick(current: seq<Weight>, clicked: seq<string>) returns (r: Result<seq<Weight>, Error>)
    ensures r.Err? <==> Collides(current)
    ensures r.Ok? ==> IsBoost(DecayAll(current), KeysOf(clicked), CLICK_BOOST, r.value)
  {
    var ok := ValidateCurrent(current);
    if !ok { return Err(NormalizedTagCollision); }
    var decayed := [];
    for n := 0 to |current|
      invariant decayed == DecayAll(current)[..n]
    {
      decayed := decayed + [current[n].(value := Decay(current[n].value))];
    }
    assert decayed == DecayAll(current);
    assert forall i :: 0 <= i < |current| ==> Key(decayed[i]) == Key(current[i]);
    var out := ApplyBoost(decayed, clicked, CLICK_BOOST);
    return Ok(out);
  }

  /** One save: each distinct tag of the article is boosted once and nothing decays. */
  method UpdateOnSave(current: seq<Weight>, saved: seq<string>) returns (r: Result<seq<Weight>, Error>)
    ensures r.Err? <==> Collides(current)
    ensures r.Ok? ==> IsBoost(current, KeysOf(saved), SAVE_BOOST, r.value)
  {
    var ok := ValidateCurrent(current);
    if !ok { return Err(NormalizedTagCollision); }
    var out := ApplyBoost(current, saved, SAVE_BOOST);
    return Ok(out);
  }

  // ---------- the dynamics of a weight under clicks ----------

  /** The weight of a tag after a sequence of clicks; `hits[i]` says whether click i was on this tag. */
  function AfterClicks(v: int, hits: seq<bool>): int {
    if hits == [] then v
    else
      var before := AfterClicks(v, hits[..|hits| - 1]);
      if hits[|hits| - 1] then Add(Decay(before), CLICK_BOOST) else Decay(before)
  }

  /** The attractor of a tag that is clicked every time. */
  const CEILING := 9996

  lemma ClickFixedPoints(v: int)
    requires 0 <= v <= SCALE
    ensures Add(Decay(v), CLICK_BOOST) == v <==> CEILING <= v
    ensures v < CEILING ==> v < Add(Decay(v), CLICK_BOOST) <= CEILING
  {
  }

  lemma {:induction false} CeilingNeverPassed(v: int, hits: seq<bool>)
    requires 0 <= v <= CEILING
    ensures 0 <= AfterClicks(v, hits) <= CEILING
  {
    if hits != [] { CeilingNeverPassed(v, hits[..|hits| - 1]); }
  }

  lemma {:induction false} StaysInScale(v: int, hits: seq<bool>)
    requires 0 <= v <= SCALE
    ensures 0 <= AfterClicks(v, hits) <= SCALE
  {
    if hits != [] { StaysInScale(v, hits[..|hits| - 1]); }
  }

  function Repeat(b: bool, n: nat): seq<bool> { seq(n, _ => b) }

  lemma RepeatStep(v: int, b: bool, n: nat)
    ensures AfterClicks(v, Repeat(b, n + 1)) ==
            if b then Add(Decay(AfterClicks(v, Repeat(b, n))), CLICK_BOOST) else Decay(AfterClicks(v, Repeat(b, n)))
  {
    assert Repeat(b, n + 1)[..n] == Repeat(b, n);
  }

  /** The same clicks keep two weights in order, so unclicked tags never overtake each other. */
  lemma {:induction false} ClicksKeepOrder(v: int, w: int, hits: seq<bool>)
    requires v <= w
    ensures AfterClicks(v, hits) <= AfterClicks(w, hits)
  {
    if hits != [] {
      ClicksKeepOrder(v, w, hits[..|hits| - 1]);
    }
  }

  /** A tag clicked every time rises strictly until it reaches the ceiling, which it does within 37 clicks. */
  lemma {:induction false} AlwaysClickedRises(v: int, n: nat)
    requires 0 <= v <= CEILING
    ensures var now, next := AfterClicks(v, Repeat(true, n)), AfterClicks(v, Repeat(true, n + 1));
            now < next || (now == next == CEILING)
    ensures n >= 37 ==> AfterClicks(v, Repeat(true, n)) == CEILING
  {
    RepeatStep(v, true, n);
    CeilingNeverPassed(v, Repeat(true, n));
    ClickFixedPoints(AfterClicks(v, Repeat(true, n)));
    if n > 37 {
      AlwaysClickedRises(v, n - 1);
    } else if n == 37 {
      ClicksKeepOrder(0, v, Repeat(true, 37));
      RiseTable(37);
    }
  }

  /** The weight after 0, 1, .. 37 clicks: of an unselected tag clicked every time, and of a selected one never
      clicked. */
  const RISE := [
    0, 2000, 3600, 4880, 5904, 6723, 7378, 7902, 8321, 8656, 8924, 9139, 9311, 9448, 9558, 9646,
    9716, 9772, 9817, 9853, 9882, 9905, 9924, 9939, 9951, 9960, 9968, 9974, 9979, 9983, 9986, 9988,
    9990, 9992, 9993, 9994, 9995, 9996]
  const FALL := [10000, 8000, 6400, 5120, 4096, 3276, 2620, 2096, 1676, 1340, 1072, 857, 685, 548, 438, 350, 280, 224,
    179, 143, 114, 91, 72, 57, 45, 36, 28, 22, 17, 13, 10, 8, 6, 4, 3, 2, 1, 0]

  lemma RiseStep(n: nat)
    requires n < 37
    ensures RISE[n + 1] == Add(Decay(RISE[n]), CLICK_BOOST)
  {
    assert RISE[n + 1] == Clamp(Clamp(RISE[n]) * 8 / 10 + 2000);
  }

  lemma FallStep(n: nat)
    requires n < 37
    ensures FALL[n + 1] == Decay(FALL[n])
  {
  }

  lemma {:induction false} RiseTable(n: nat)
    requires n <= 37
    ensures AfterClicks(0, Repeat(true, n)) == RISE[n]
  {
    if n > 0 {
      RiseTable(n - 1);
      RiseStep(n - 1);
      RepeatStep(0, true, n - 1);
    }
  }

  lemma {:induction false} FallTable(n: nat)
    requires n <= 37
    ensures AfterClicks(SCALE, Repeat(false, n)) == FALL[n]
  {
    if n > 0 {
      FallTable(n - 1);
      FallStep(n - 1);
      RepeatStep(SCALE, false, n - 1);
    }
  }

  /** A tag that is never clicked is forgotten after 37 clicks, and 36 are not enough from full weight. */
  lemma {:induction false} NeverClickedVanishes(v: int, n: nat)
    requires 0 <= v <= SCALE && n >= 37
    ensures AfterClicks(v, Repeat(false, n)) == 0
    ensures AfterClicks(SCALE, Repeat(false, 36)) > 0
  {
    FallTable(36);
    if n == 37 {
      FallTable(37);
      ClicksKeepOrder(v, SCALE, Repeat(false, 37));
      StaysInScale(v, Repeat(false, 37));
    } else {
      NeverClickedVanishes(v, n - 1);
      RepeatStep(v, false, n - 1);
    }
  }
}
