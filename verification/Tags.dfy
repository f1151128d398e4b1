/** Tag names. The normalisation of a name (strings.ToLower of strings.TrimSpace in Go, lower(btrim()) in SQL)
    is kept abstract: everything proved here holds for every idempotent normalisation. */
module Tags {

  ghost predicate Idempotent(f: string -> string) {
    forall s :: f(f(s)) == f(s)
  }

  type Normalizer = f: string -> string | Idempotent(f) witness (s: string) => s

  /** An arbitrary, fixed normalisation. */
  const NormalizeTag: Normalizer

  lemma NormalizeTwice(s: string)
    ensures NormalizeTag(NormalizeTag(s)) == NormalizeTag(s)
  {
    assert Idempotent(NormalizeTag);
  }

  /** The non-blank normalised forms of a list of names. */
  function KeysOf(names: seq<string>): set<string> {
    set n | n in names && NormalizeTag(n) != "" :: NormalizeTag(n)
  }
}
