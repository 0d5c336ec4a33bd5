/** Entity name normalisation: lower-case the name, then resolve a fixed alias table. */
module Normalization {
  import opened Text

  /** The alias table: lower-cased name to canonical name. */
  const Aliases: map<string, string> := map["putin" := "vladimir putin"]

  /** Alias targets are lower-case and are not themselves aliases. */
  ghost predicate AliasesClosed(aliases: map<string, string>) {
    forall a :: a in aliases ==> IsLower(aliases[a]) && aliases[a] !in aliases
  }

  /** Lower-case `name`, then replace it by its alias if it has one. */
  function NormalizeWith(aliases: map<string, string>, name: string): (key: string)
    requires AliasesClosed(aliases)
    ensures IsLower(key)
  {
    var lowered := Lower(name);
    if lowered in aliases then aliases[lowered] else lowered
  }

  lemma AliasTableClosed()
    ensures AliasesClosed(Aliases)
  {
    var target := "vladimir putin";
    assert forall i :: 0 <= i < |target| ==> IsLowerChar(target[i]);
  }

  /** `normalize_entity_name(ent)`. */
  function NormalizeEntityName(name: string): (key: string)
    ensures IsLower(key)
  {
    AliasTableClosed();
    NormalizeWith(Aliases, name)
  }

  /** Normalising a canonical key gives it back, for any closed alias table. */
  lemma NormalizeWithIdempotent(aliases: map<string, string>, name: string)
    requires AliasesClosed(aliases)
    ensures NormalizeWith(aliases, NormalizeWith(aliases, name)) == NormalizeWith(aliases, name)
  {
    var key := NormalizeWith(aliases, name);
    LowerKeepsLower(key);
    LowerIdempotent(name);
  }

  lemma NormalizeIdempotent(name: string)
    ensures NormalizeEntityName(NormalizeEntityName(name)) == NormalizeEntityName(name)
  {
    AliasTableClosed();
    NormalizeWithIdempotent(Aliases, name);
  }

  /** Names equal up to the case of their letters get the same key. */
  lemma NormalizeIgnoresCase(a: string, b: string)
    requires |a| == |b|
    requires forall i :: 0 <= i < |a| ==> LowerChar(a[i]) == LowerChar(b[i])
    ensures NormalizeEntityName(a) == NormalizeEntityName(b)
  {
    LowerIgnoresCase(a, b);
  }

  /** A name that lower-cases to an alias and one that lower-cases to its target are one entity. */
  lemma AliasMergesNames(a: string, b: string)
    requires Lower(a) == "putin" && Lower(b) == "vladimir putin"
    ensures NormalizeEntityName(a) == NormalizeEntityName(b) == "vladimir putin"
  {
  }
}
