/** The canonical digest of a JSON value: sort every object, print compactly,
    hash. The hash is any function at all, so nothing here rests on it being
    injective: what a digest binds is stated as "equal, or here is a collision". */
module Canonical {
  import opened Json
  import JsonText

  /** SHA-256 with lower-case hex output, of which nothing is assumed. */
  type Hash = string -> string

  function CanonicalText(v: Json): string { JsonText.Print(Sorted(v)) }

  function Digest(sha: Hash, v: Json): string { sha(CanonicalText(v)) }

  /** `a` and `b` are two different texts with the same hash. */
  predicate Collision(sha: Hash, a: string, b: string) { a != b && sha(a) == sha(b) }

  /** Canonical texts are equal exactly when the values differ at most in the
      order of object keys, at any depth; the order of array items counts. */
  lemma CanonicalTextIffSameMeaning(a: Json, b: Json)
    requires Valid(a) && Valid(b)
    ensures CanonicalText(a) == CanonicalText(b) <==> Denote(a) == Denote(b)
  {
    SortedEqualIffSameMeaning(a, b);
    if CanonicalText(a) == CanonicalText(b) { JsonText.PrintIsInjective(Sorted(a), Sorted(b)); }
  }

  /** The canonical text can be read back, up to the order of keys. */
  lemma CanonicalTextReadsBack(v: Json)
    requires Valid(v)
    ensures var r := JsonText.Read(CanonicalText(v));
            r.Some? && r.value.1 == "" && Denote(r.value.0) == Denote(v)
  {
    JsonText.ReadPrinted(Sorted(v), "");
    assert CanonicalText(v) + "" == CanonicalText(v);
    SortedIsSound(v);
  }

  lemma DigestBinds(sha: Hash, a: Json, b: Json)
    requires Valid(a) && Valid(b)
    ensures Digest(sha, a) == Digest(sha, b)
       <==> Denote(a) == Denote(b) || Collision(sha, CanonicalText(a), CanonicalText(b))
  {
    CanonicalTextIffSameMeaning(a, b);
  }
}
