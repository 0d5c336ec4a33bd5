/**
 * The report `process_text` builds from the aggregate: entities grouped by
 * label, the top-10 rankings, the label distribution and the top entities of
 * the five most frequent labels.
 */
module Reporting {
  import opened Dicts
  import opened Normalization
  import opened Entities
  import opened Corpus
  import opened Ranking
  import opened RelationshipExtraction

  /** `{'named_entity': original_text, 'mentioned_in': contexts}`. */
  datatype NamedEntity = NamedEntity(namedEntity: string, mentionedIn: seq<Context>)

  /** A label's share of all entity records, `count / total * 100` percent. */
  datatype Share = Share(count: nat, total: nat)

  /** `{'percentage': ..., 'top_entities': [{original_text: count}, ...]}`. */
  datatype TypeSummary = TypeSummary(percentage: Share, topEntities: seq<(string, nat)>)

  /** The dictionary `process_text` returns. */
  datatype Report = Report(
    entitiesByType: Dict<seq<NamedEntity>>,
    top10Entities: Dict<nat>,
    top10FilteredEntities: Dict<nat>,
    top10ProductEntities: Dict<nat>,
    entityDistribution: Dict<Share>,
    topEntitiesByType: Dict<TypeSummary>,
    rawDataSize: nat)

  /** Labels left out of the filtered ranking. */
  const ExcludedTypes: set<string> := {"CARDINAL", "ORDINAL", "DATE"}
  const ProductType: string := "PRODUCT"

  function NamedOf(info: EntityInfo): NamedEntity {
    NamedEntity(info.originalText, info.mentionedIn)
  }

  /** `entities_by_type[entityType].append(x)` on a `defaultdict(list)`. */
  function AppendTo(groups: Dict<seq<NamedEntity>>, entityType: string, x: NamedEntity): Dict<seq<NamedEntity>> {
    groups.Put(entityType, (if entityType in groups.values then groups.values[entityType] else []) + [x])
  }

  /** The grouping loop over the aggregated entities. */
  function GroupByType(items: seq<(string, EntityInfo)>): Dict<seq<NamedEntity>> {
    if |items| == 0 then Empty()
    else AppendTo(GroupByType(items[..|items| - 1]), items[|items| - 1].1.entityType, NamedOf(items[|items| - 1].1))
  }

  /** The entities of `items` with label `entityType`, in order. */
  function OfType(items: seq<(string, EntityInfo)>, entityType: string): seq<NamedEntity> {
    if |items| == 0 then []
    else OfType(items[..|items| - 1], entityType) + (if items[|items| - 1].1.entityType == entityType then [NamedOf(items[|items| - 1].1)] else [])
  }

  /** Some item has label `entityType`. */
  predicate HasType(items: seq<(string, EntityInfo)>, entityType: string) {
    exists i :: 0 <= i < |items| && items[i].1.entityType == entityType
  }

  /**
   * Grouping lists a label exactly when some entity has it, and under it the
   * entities with that label, in order.
   */
  lemma {:induction false} GroupByTypeSpec(items: seq<(string, EntityInfo)>, entityType: string)
    ensures entityType in GroupByType(items).values <==> HasType(items, entityType)
    ensures entityType in GroupByType(items).values ==> GroupByType(items).values[entityType] == OfType(items, entityType)
  {
    if |items| > 0 {
      var init := items[..|items| - 1];
      GroupByTypeSpec(init, entityType);
      if HasType(init, entityType) {
        var i :| 0 <= i < |init| && init[i].1.entityType == entityType;
        assert items[i] == init[i];
      }
      if HasType(items, entityType) && items[|items| - 1].1.entityType != entityType {
        var i :| 0 <= i < |items| && items[i].1.entityType == entityType;
        assert init[i] == items[i];
      }
      if entityType !in GroupByType(init).values {
        OfTypeEmpty(init, entityType);
      }
    }
  }

  lemma {:induction false} OfTypeEmpty(items: seq<(string, EntityInfo)>, entityType: string)
    requires !HasType(items, entityType)
    ensures OfType(items, entityType) == []
  {
    if |items| > 0 {
      var init := items[..|items| - 1];
      assert !HasType(init, entityType) by {
        forall i | 0 <= i < |init| ensures init[i].1.entityType != entityType {
          assert init[i] == items[i];
        }
      }
      OfTypeEmpty(init, entityType);
    }
  }

  lemma {:induction false} GroupByTypeValid(items: seq<(string, EntityInfo)>)
    ensures GroupByType(items).Valid()
  {
    if |items| > 0 {
      var init := items[..|items| - 1];
      GroupByTypeValid(init);
      var g := GroupByType(init);
      var entityType := items[|items| - 1].1.entityType;
      PutValid(g, entityType, (if entityType in g.values then g.values[entityType] else []) + [NamedOf(items[|items| - 1].1)]);
    }
  }

  /** Grouping lists the labels in the order they first occur among the entities. */
  lemma {:induction false} GroupByTypeKeys(items: seq<(string, EntityInfo)>)
    ensures GroupByType(items).keys == FirstOccurrences(LabelsOf(items))
  {
    if |items| > 0 {
      var init := items[..|items| - 1];
      GroupByTypeKeys(init);
      GroupByTypeValid(init);
      assert LabelsOf(items)[..|items| - 1] == LabelsOf(init);
    }
  }

  /** The loop building `entities_by_type`. */
  method GroupEntitiesByType(aggregated: EntityMap) returns (entitiesByType: Dict<seq<NamedEntity>>)
    requires aggregated.Valid()
    ensures entitiesByType == GroupByType(aggregated.Items())
  {
    var items := aggregated.Items();
    entitiesByType := Empty();
    var i := 0;
    while i < |items|
      invariant i <= |items|
      invariant entitiesByType == GroupByType(items[..i])
    {
      var (_, info) := items[i];
      var entityType := info.entityType;
      var group := if entityType in entitiesByType.values then entitiesByType.values[entityType] else [];
      entitiesByType := entitiesByType.Put(entityType, group + [NamedEntity(info.originalText, info.mentionedIn)]);
      assert items[..i + 1][..i] == items[..i];
      i := i + 1;
    }
    assert items[..i] == items;
  }

  /** Which labels a ranking keeps. */
  datatype LabelFilter = All | Except(labels: set<string>) | Only(entityType: string)

  predicate Admits(f: LabelFilter, entityType: string) {
    match f
    case All => true
    case Except(labels) => entityType !in labels
    case Only(l) => entityType == l
  }

  /** Every key of `items` is an aggregated entity. */
  predicate Known(items: seq<Item>, entities: EntityMap) {
    forall i :: 0 <= i < |items| ==> items[i].0 in entities.values
  }

  /** `{entity: count for entity, count in entity_count.items() if <label test>}`. */
  function Select(items: seq<Item>, entities: EntityMap, f: LabelFilter): (r: seq<Item>)
    requires Known(items, entities)
    ensures Known(r, entities)
  {
    if |items| == 0 then []
    else
      var init := items[..|items| - 1];
      var last := items[|items| - 1];
      assert Known(init, entities) by {
        forall i | 0 <= i < |init| ensures init[i].0 in entities.values {
          assert init[i] == items[i];
        }
      }
      Select(init, entities, f) + (if Admits(f, entities.values[last.0].entityType) then [last] else [])
  }

  /** The selection holds exactly the items whose label the filter admits, in order, and keeps keys distinct. */
  lemma {:induction false} SelectSpec(items: seq<Item>, entities: EntityMap, f: LabelFilter)
    requires Known(items, entities)
    ensures forall x :: x in Select(items, entities, f) <==> x in items && Admits(f, entities.values[x.0].entityType)
    ensures DistinctKeys(items) ==> DistinctKeys(Select(items, entities, f))
  {
    if |items| > 0 {
      var init := items[..|items| - 1];
      var last := items[|items| - 1];
      assert Known(init, entities) by {
        forall i | 0 <= i < |init| ensures init[i].0 in entities.values {
          assert init[i] == items[i];
        }
      }
      SelectSpec(init, entities, f);
      assert items == init + [last];
      if DistinctKeys(items) {
        DistinctKeysInit(items);
        var s := Select(init, entities, f);
        forall i | 0 <= i < |s| ensures s[i].0 != last.0 {
          assert s[i] in init;
        }
      }
    }
  }

  /** The indexes in `items` of the items the filter admits, in order. */
  function Positions(items: seq<Item>, entities: EntityMap, f: LabelFilter): seq<nat>
    requires Known(items, entities)
  {
    if |items| == 0 then []
    else
      var init := items[..|items| - 1];
      assert Known(init, entities) by {
        forall i | 0 <= i < |init| ensures init[i].0 in entities.values {
          assert init[i] == items[i];
        }
      }
      Positions(init, entities, f) + (if Admits(f, entities.values[items[|items| - 1].0].entityType) then [|items| - 1] else [])
  }

  /**
   * The selection keeps the order of `items`: its `a`-th item is the item at
   * the `a`-th admitted index, and those indexes strictly increase.
   */
  lemma {:induction false} SelectOrder(items: seq<Item>, entities: EntityMap, f: LabelFilter)
    requires Known(items, entities)
    ensures |Positions(items, entities, f)| == |Select(items, entities, f)|
    ensures forall a :: 0 <= a < |Positions(items, entities, f)| ==>
      Positions(items, entities, f)[a] < |items| && items[Positions(items, entities, f)[a]] == Select(items, entities, f)[a]
    ensures forall a, b :: 0 <= a < b < |Positions(items, entities, f)| ==>
      Positions(items, entities, f)[a] < Positions(items, entities, f)[b]
    ensures forall k :: 0 <= k < |items| && Admits(f, entities.values[items[k].0].entityType) ==> k in Positions(items, entities, f)
  {
    if |items| > 0 {
      var init := items[..|items| - 1];
      assert Known(init, entities) by {
        forall i | 0 <= i < |init| ensures init[i].0 in entities.values {
          assert init[i] == items[i];
        }
      }
      SelectOrder(init, entities, f);
      var ps := Positions(init, entities, f);
      var sel := Select(init, entities, f);
      forall a | 0 <= a < |ps| ensures ps[a] < |init| && items[ps[a]] == sel[a] {
        assert init[ps[a]] == items[ps[a]];
      }
      forall k | 0 <= k < |init| && Admits(f, entities.values[items[k].0].entityType) ensures k in ps {
        assert init[k] == items[k];
      }
    }
  }

  /** The items of `s` with count `c` are taken from `s`. */
  lemma {:induction false} WithCountKnown(s: seq<Item>, c: nat, entities: EntityMap)
    requires Known(s, entities)
    ensures Known(WithCount(s, c), entities)
  {
    if |s| > 0 {
      var init := s[..|s| - 1];
      assert Known(init, entities) by {
        forall i | 0 <= i < |init| ensures init[i].0 in entities.values {
          assert init[i] == s[i];
        }
      }
      WithCountKnown(init, c, entities);
    }
  }

  /** Selecting by label and then by count is selecting by count and then by label. */
  lemma {:induction false} SelectWithCount(items: seq<Item>, entities: EntityMap, f: LabelFilter, c: nat)
    requires Known(items, entities)
    ensures Known(WithCount(items, c), entities)
    ensures WithCount(Select(items, entities, f), c) == Select(WithCount(items, c), entities, f)
  {
    WithCountKnown(items, c, entities);
    if |items| > 0 {
      var init := items[..|items| - 1];
      var last := items[|items| - 1];
      assert Known(init, entities) by {
        forall i | 0 <= i < |init| ensures init[i].0 in entities.values {
          assert init[i] == items[i];
        }
      }
      SelectWithCount(init, entities, f, c);
      var sel := Select(init, entities, f);
      var wc := WithCount(init, c);
      WithCountKnown(init, c, entities);
      var adm := Admits(f, entities.values[last.0].entityType);
      assert Select(items, entities, f) == sel + (if adm then [last] else []);
      assert WithCount(items, c) == wc + (if last.1 == c then [last] else []);
      if adm {
        assert (sel + [last])[..|sel|] == sel;
        assert WithCount(sel + [last], c) == WithCount(sel, c) + (if last.1 == c then [last] else []);
      } else {
        assert Select(items, entities, f) == sel;
      }
      if last.1 == c {
        assert (wc + [last])[..|wc|] == wc;
        assert Select(wc + [last], entities, f) == Select(wc, entities, f) + (if adm then [last] else []);
      } else {
        assert WithCount(items, c) == wc;
      }
    }
  }

  /** Keeping every label selects everything. */
  lemma {:induction false} SelectAll(items: seq<Item>, entities: EntityMap)
    requires Known(items, entities)
    ensures Select(items, entities, All) == items
  {
    if |items| > 0 {
      var init := items[..|items| - 1];
      assert Known(init, entities) by {
        forall i | 0 <= i < |init| ensures init[i].0 in entities.values {
          assert init[i] == items[i];
        }
      }
      SelectAll(init, entities);
      assert items == init + [items[|items| - 1]];
    }
  }

  /** Ranked items with each key replaced by its entity's original text. */
  function Origs(ranked: seq<Item>, entities: EntityMap): (r: seq<(string, nat)>)
    requires Known(ranked, entities)
    ensures |r| == |ranked|
    ensures forall i :: 0 <= i < |ranked| ==> r[i] == (entities.values[ranked[i].0].originalText, ranked[i].1)
  {
    seq(|ranked|, i requires 0 <= i < |ranked| => (entities.values[ranked[i].0].originalText, ranked[i].1))
  }

  /** `{aggregated_entities_info[entity]['original_text']: count for entity, count in ranked}`. */
  function Display(ranked: seq<Item>, entities: EntityMap): Dict<nat>
    requires Known(ranked, entities)
  {
    FromPairs(Origs(ranked, entities))
  }

  /**
   * Keyed by original text, the display loses nothing: distinct entities have
   * distinct original texts, so every ranked entity gets its own key, in rank
   * order, with its count.
   */
  lemma DisplaySpec(ranked: seq<Item>, entities: EntityMap)
    requires WellKeyed(entities) && Known(ranked, entities) && DistinctKeys(ranked)
    ensures Display(ranked, entities).Valid()
    ensures Display(ranked, entities).keys == KeysOf(Origs(ranked, entities))
    ensures forall i :: 0 <= i < |ranked| ==>
      Display(ranked, entities).values[entities.values[ranked[i].0].originalText] == ranked[i].1
  {
    var pairs := Origs(ranked, entities);
    forall i, j | 0 <= i < j < |pairs| ensures pairs[i].0 != pairs[j].0 {
      assert NormalizeEntityName(pairs[i].0) == ranked[i].0;
      assert NormalizeEntityName(pairs[j].0) == ranked[j].0;
    }
    FromPairsKeys(pairs);
    FromPairsValues(pairs);
  }

  /** `{etype: count / total * 100 ...}`, one share per label, in Counter order. */
  function Shares(items: seq<Item>, total: nat): (r: seq<(string, Share)>)
    ensures |r| == |items|
    ensures forall i :: 0 <= i < |items| ==> r[i] == (items[i].0, Share(items[i].1, total))
  {
    seq(|items|, i requires 0 <= i < |items| => (items[i].0, Share(items[i].1, total)))
  }

  /** `entity_distribution`: each label's share of `sum(entity_type_count.values())`. */
  function Distribution(typeCount: Dict<nat>): Dict<Share>
    requires typeCount.Valid()
  {
    FromPairs(Shares(typeCount.Items(), Sum(typeCount)))
  }

  /**
   * The distribution lists the labels of the Counter in its order, each with
   * its own count over the common total, and that total is never zero while
   * there is a label to divide.
   */
  lemma DistributionSpec(typeCount: Dict<nat>)
    requires typeCount.Valid() && Positive(typeCount)
    ensures Distribution(typeCount).Valid()
    ensures Distribution(typeCount).keys == typeCount.keys
    ensures forall t :: t in typeCount.values ==>
      t in Distribution(typeCount).values && Distribution(typeCount).values[t] == Share(typeCount.values[t], Sum(typeCount))
    ensures Sum(typeCount) >= |typeCount.keys|
  {
    var items := typeCount.Items();
    var pairs := Shares(items, Sum(typeCount));
    ItemsDistinct(typeCount);
    assert DistinctKeys(pairs) by {
      forall i, j | 0 <= i < j < |pairs| ensures pairs[i].0 != pairs[j].0 {
        assert pairs[i].0 == items[i].0 && pairs[j].0 == items[j].0;
      }
    }
    FromPairsKeys(pairs);
    FromPairsValues(pairs);
    assert KeysOf(pairs) == typeCount.keys;
    forall t | t in typeCount.values
      ensures t in Distribution(typeCount).values && Distribution(typeCount).values[t] == Share(typeCount.values[t], Sum(typeCount))
    {
      var i :| 0 <= i < |typeCount.keys| && typeCount.keys[i] == t;
      assert pairs[i] == (t, Share(typeCount.values[t], Sum(typeCount)));
    }
    SumPositive(typeCount.keys, typeCount.values);
  }

  /** Every Counter key of a consistent aggregate is an aggregated entity. */
  lemma CountsKnown(agg: Aggregate)
    requires Inv(agg)
    ensures Known(agg.entityCount.Items(), agg.entities)
  {
  }

  lemma MostCommonKnown(items: seq<Item>, n: nat, entities: EntityMap)
    requires Known(items, entities)
    ensures Known(MostCommon(items, n), entities)
  {
    MostCommonMembers(items, n);
    var r := MostCommon(items, n);
    forall i | 0 <= i < |r| ensures r[i].0 in entities.values {
      var j :| 0 <= j < |items| && items[j] == r[i];
    }
  }

  /** The Counter items whose label the filter admits. */
  function Candidates(agg: Aggregate, f: LabelFilter): (r: seq<Item>)
    requires Inv(agg)
    ensures Known(r, agg.entities)
  {
    CountsKnown(agg);
    Select(agg.entityCount.Items(), agg.entities, f)
  }

  /** `Counter(candidates).most_common(n)`. */
  function Ranked(agg: Aggregate, f: LabelFilter, n: nat): (r: seq<Item>)
    requires Inv(agg)
    ensures Known(r, agg.entities)
  {
    MostCommonKnown(Candidates(agg, f), n, agg.entities);
    MostCommon(Candidates(agg, f), n)
  }

  /** The candidates are exactly the aggregated entities the filter admits, each with its count, keys distinct. */
  lemma CandidatesSpec(agg: Aggregate, f: LabelFilter)
    requires Inv(agg)
    ensures DistinctKeys(Candidates(agg, f))
    ensures forall x :: x in Candidates(agg, f) <==>
      x.0 in agg.entities.values && x.1 == Get0(agg.entityCount, x.0) && Admits(f, agg.entities.values[x.0].entityType)
  {
    var items := agg.entityCount.Items();
    CountsKnown(agg);
    ItemsDistinct(agg.entityCount);
    SelectSpec(items, agg.entities, f);
    forall x: Item | x.0 in agg.entities.values && x.1 == Get0(agg.entityCount, x.0) ensures x in items {
      var i :| 0 <= i < |agg.entities.keys| && agg.entities.keys[i] == x.0;
      assert items[i] == x;
    }
  }

  /** Without a filter the candidates are the whole Counter. */
  lemma CandidatesAll(agg: Aggregate)
    requires Inv(agg)
    ensures Candidates(agg, All) == agg.entityCount.Items()
  {
    CountsKnown(agg);
    SelectAll(agg.entityCount.Items(), agg.entities);
  }

  /**
   * A ranking holds at most `n` distinct admitted entities, each with its
   * count, largest count first.
   */
  lemma RankedSpec(agg: Aggregate, f: LabelFilter, n: nat)
    requires Inv(agg)
    ensures |Ranked(agg, f, n)| <= n
    ensures NonIncreasing(Ranked(agg, f, n)) && DistinctKeys(Ranked(agg, f, n))
    ensures forall i :: 0 <= i < |Ranked(agg, f, n)| ==>
      Admits(f, agg.entities.values[Ranked(agg, f, n)[i].0].entityType) && Ranked(agg, f, n)[i].1 == Get0(agg.entityCount, Ranked(agg, f, n)[i].0)
  {
    var c := Candidates(agg, f);
    CandidatesSpec(agg, f);
    MostCommonOrdered(c, n);
    MostCommonDistinct(c, n);
    MostCommonMembers(c, n);
  }

  /** An admitted entity left out of a ranking has no larger count than any entity in it. */
  lemma RankedBound(agg: Aggregate, f: LabelFilter, n: nat, k: string)
    requires Inv(agg) && k in agg.entities.values && Admits(f, agg.entities.values[k].entityType)
    requires forall j :: 0 <= j < |Ranked(agg, f, n)| ==> Ranked(agg, f, n)[j].0 != k
    ensures forall i :: 0 <= i < |Ranked(agg, f, n)| ==> Get0(agg.entityCount, k) <= Ranked(agg, f, n)[i].1
  {
    var c := Candidates(agg, f);
    var r := Ranked(agg, f, n);
    CandidatesSpec(agg, f);
    MostCommonChosen(c, n);
    var x := (k, Get0(agg.entityCount, k));
    assert x in c;
    assert x !in r;
    forall i | 0 <= i < |r| ensures x.1 <= r[i].1 {
      assert r[i] in r;
    }
  }

  /**
   * Ties keep `entity_count`'s order: the ranked entities with count `c` are
   * the first of the admitted entities with count `c`, in the order
   * `entity_count` lists them.
   */
  lemma RankedTies(agg: Aggregate, f: LabelFilter, n: nat, c: nat)
    requires Inv(agg)
    ensures Known(WithCount(agg.entityCount.Items(), c), agg.entities)
    ensures WithCount(Ranked(agg, f, n), c) <= Select(WithCount(agg.entityCount.Items(), c), agg.entities, f)
  {
    CountsKnown(agg);
    SelectWithCount(agg.entityCount.Items(), agg.entities, f, c);
    MostCommonTies(Candidates(agg, f), n, c);
  }

  /** Counts never increase along the keys of the dict. */
  predicate Descending(d: Dict<nat>) {
    forall i, j :: 0 <= i < j < |d.keys| ==> Get0(d, d.keys[i]) >= Get0(d, d.keys[j])
  }

  /** The displayed dict's keys are the ranked entities' original texts, in rank order, each with its count. */
  lemma DisplayKeys(r: seq<Item>, entities: EntityMap)
    requires WellKeyed(entities) && Known(r, entities) && DistinctKeys(r)
    ensures Display(r, entities).Valid()
    ensures |Display(r, entities).keys| == |r|
    ensures forall i :: 0 <= i < |r| ==>
      Display(r, entities).keys[i] == entities.values[r[i].0].originalText && Get0(Display(r, entities), Display(r, entities).keys[i]) == r[i].1
  {
    DisplaySpec(r, entities);
    var origs := Origs(r, entities);
    var d := Display(r, entities);
    forall i | 0 <= i < |r| ensures d.keys[i] == entities.values[r[i].0].originalText {
      assert d.keys[i] == origs[i].0;
    }
  }

  /** A displayed ranking has at most `n` keys, in rank order. */
  lemma DisplayedOrder(agg: Aggregate, f: LabelFilter, n: nat)
    requires Inv(agg)
    ensures |Display(Ranked(agg, f, n), agg.entities).keys| <= n
    ensures Descending(Display(Ranked(agg, f, n), agg.entities))
  {
    var r := Ranked(agg, f, n);
    RankedSpec(agg, f, n);
    DisplayKeys(r, agg.entities);
  }

  /** Each key of a displayed ranking is the original text of an admitted entity, mapped to that entity's count. */
  lemma DisplayedEntry(agg: Aggregate, f: LabelFilter, n: nat, t: string)
    requires Inv(agg)
    ensures t in Display(Ranked(agg, f, n), agg.entities).values ==>
      && NormalizeEntityName(t) in agg.entities.values
      && agg.entities.values[NormalizeEntityName(t)].originalText == t
      && Admits(f, agg.entities.values[NormalizeEntityName(t)].entityType)
      && Display(Ranked(agg, f, n), agg.entities).values[t] == Get0(agg.entityCount, NormalizeEntityName(t))
  {
    var r := Ranked(agg, f, n);
    var d := Display(r, agg.entities);
    RankedSpec(agg, f, n);
    DisplayKeys(r, agg.entities);
    if t in d.values {
      var i :| 0 <= i < |d.keys| && d.keys[i] == t;
      assert NormalizeEntityName(t) == r[i].0;
    }
  }

  /** An admitted entity whose original text is not displayed has no larger count than any displayed one. */
  lemma DisplayedBound(agg: Aggregate, f: LabelFilter, n: nat, k: string, t: string)
    requires Inv(agg) && k in agg.entities.values && Admits(f, agg.entities.values[k].entityType)
    requires agg.entities.values[k].originalText !in Display(Ranked(agg, f, n), agg.entities).values
    requires t in Display(Ranked(agg, f, n), agg.entities).values
    ensures Get0(agg.entityCount, k) <= Display(Ranked(agg, f, n), agg.entities).values[t]
  {
    var r := Ranked(agg, f, n);
    var d := Display(r, agg.entities);
    RankedSpec(agg, f, n);
    DisplayKeys(r, agg.entities);
    forall j | 0 <= j < |r| ensures r[j].0 != k {
      assert d.keys[j] in d.values;
    }
    RankedBound(agg, f, n, k);
    var i :| 0 <= i < |d.keys| && d.keys[i] == t;
  }

  /** `{'percentage': percentage, 'top_entities': ...}` for one of the top labels. */
  function Summary(agg: Aggregate, entry: Item): TypeSummary
    requires Inv(agg)
  {
    TypeSummary(Share(entry.1, Sum(agg.typeCount)), Origs(Ranked(agg, Only(entry.0), 5), agg.entities))
  }

  function SummaryPairs(agg: Aggregate, topTypes: seq<Item>): (r: seq<(string, TypeSummary)>)
    requires Inv(agg)
    ensures |r| == |topTypes|
    ensures forall i :: 0 <= i < |topTypes| ==> r[i] == (topTypes[i].0, Summary(agg, topTypes[i]))
  {
    seq(|topTypes|, i requires 0 <= i < |topTypes| => (topTypes[i].0, Summary(agg, topTypes[i])))
  }

  /** `top_entities_by_type`. */
  function TopEntitiesByType(agg: Aggregate, topTypes: seq<Item>): Dict<TypeSummary>
    requires Inv(agg)
  {
    FromPairs(SummaryPairs(agg, topTypes))
  }

  /** `Counter(entity_distribution).most_common(5)`, ranked on the counts behind the shares. */
  function TopTypes(agg: Aggregate): seq<Item>
    requires Inv(agg)
  {
    MostCommon(agg.typeCount.Items(), 5)
  }

  /** The top labels are distinct Counter keys, each with its count. */
  lemma TopTypesMembers(agg: Aggregate)
    requires Inv(agg)
    ensures DistinctKeys(TopTypes(agg))
    ensures forall i :: 0 <= i < |TopTypes(agg)| ==>
      TopTypes(agg)[i].0 in agg.typeCount.values && TopTypes(agg)[i].1 == agg.typeCount.values[TopTypes(agg)[i].0]
  {
    var items := agg.typeCount.Items();
    var top := TopTypes(agg);
    ItemsDistinct(agg.typeCount);
    MostCommonDistinct(items, 5);
    MostCommonMembers(items, 5);
    forall i | 0 <= i < |top| ensures top[i].0 in agg.typeCount.values && top[i].1 == agg.typeCount.values[top[i].0] {
      var j :| 0 <= j < |items| && items[j] == top[i];
    }
  }

  lemma TopTypesPairs(agg: Aggregate)
    requires Inv(agg)
    ensures DistinctKeys(SummaryPairs(agg, TopTypes(agg)))
  {
    var top := TopTypes(agg);
    var pairs := SummaryPairs(agg, top);
    TopTypesMembers(agg);
    forall i, j | 0 <= i < j < |pairs| ensures pairs[i].0 != pairs[j].0 {
      assert pairs[i].0 == top[i].0 && pairs[j].0 == top[j].0;
    }
  }

  /** The summaries are keyed by the top labels, in rank order. */
  lemma TopTypesKeys(agg: Aggregate)
    requires Inv(agg)
    ensures TopEntitiesByType(agg, TopTypes(agg)).Valid()
    ensures |TopEntitiesByType(agg, TopTypes(agg)).keys| == |TopTypes(agg)|
    ensures forall i :: 0 <= i < |TopTypes(agg)| ==> TopEntitiesByType(agg, TopTypes(agg)).keys[i] == TopTypes(agg)[i].0
  {
    var top := TopTypes(agg);
    var pairs := SummaryPairs(agg, top);
    TopTypesPairs(agg);
    FromPairsKeys(pairs);
    var d := FromPairs(pairs);
    forall i | 0 <= i < |top| ensures d.keys[i] == top[i].0 {
      assert d.keys[i] == pairs[i].0;
    }
  }

  /** Each top label is mapped to its summary. */
  lemma TopTypesValues(agg: Aggregate)
    requires Inv(agg)
    ensures forall i :: 0 <= i < |TopTypes(agg)| ==>
      && TopTypes(agg)[i].0 in TopEntitiesByType(agg, TopTypes(agg)).values
      && TopEntitiesByType(agg, TopTypes(agg)).values[TopTypes(agg)[i].0] == Summary(agg, TopTypes(agg)[i])
  {
    var top := TopTypes(agg);
    var pairs := SummaryPairs(agg, top);
    TopTypesPairs(agg);
    FromPairsValues(pairs);
    forall i | 0 <= i < |top| ensures pairs[i] == (top[i].0, Summary(agg, top[i])) {
    }
  }

  /** The loop over the five most frequent labels. */
  method SummariseTypes(agg: Aggregate, top5EntityTypes: seq<Item>) returns (topEntitiesByType: Dict<TypeSummary>)
    requires Inv(agg)
    ensures topEntitiesByType == TopEntitiesByType(agg, top5EntityTypes)
  {
    var total := Sum(agg.typeCount);
    CountsKnown(agg);
    var items := agg.entityCount.Items();
    ghost var pairs := SummaryPairs(agg, top5EntityTypes);
    topEntitiesByType := Empty();
    var i := 0;
    while i < |top5EntityTypes|
      invariant i <= |top5EntityTypes|
      invariant topEntitiesByType == FromPairs(pairs[..i])
    {
      var (entityType, count) := top5EntityTypes[i];
      var entitiesOfType := Select(items, agg.entities, Only(entityType));
      MostCommonKnown(entitiesOfType, 5, agg.entities);
      var topEntities := MostCommon(entitiesOfType, 5);
      assert pairs[i] == (entityType, TypeSummary(Share(count, total), Origs(topEntities, agg.entities)));
      topEntitiesByType := topEntitiesByType.Put(entityType, TypeSummary(Share(count, total), Origs(topEntities, agg.entities)));
      assert pairs[..i + 1][..i] == pairs[..i];
      i := i + 1;
    }
    assert pairs[..i] == pairs;
  }

  /** The report of a consistent aggregate. */
  function ReportOf(agg: Aggregate): Report
    requires Inv(agg)
  {
    CountsKnown(agg);
    MostCommonKnown(agg.entityCount.Items(), 10, agg.entities);
    Report(
      GroupByType(agg.entities.Items()),
      Display(MostCommon(agg.entityCount.Items(), 10), agg.entities),
      Display(Ranked(agg, Except(ExcludedTypes), 10), agg.entities),
      Display(Ranked(agg, Only(ProductType), 10), agg.entities),
      Distribution(agg.typeCount),
      TopEntitiesByType(agg, TopTypes(agg)),
      agg.rawDataSize)
  }

  /** `process_text(data)`. */
  method ProcessText(eng: Engine, eq: SpanTokenEq, articles: seq<Article>) returns (report: Report)
    ensures Inv(ProcessCorpus(eng, eq, articles))
    ensures report == ReportOf(ProcessCorpus(eng, eq, articles))
  {
    var aggregated, entityCount, entityTypeCount, rawDataSize := AggregateCorpus(eng, eq, articles);
    var agg := Aggregate(aggregated, entityCount, entityTypeCount, rawDataSize);
    ParseAllWellKeyed(eng, eq, articles);
    AggregateAllInv(ParseAll(eng, eq, articles));
    CountsKnown(agg);

    var entitiesByType := GroupEntitiesByType(aggregated);

    var top10Entities := MostCommon(entityCount.Items(), 10);
    MostCommonKnown(entityCount.Items(), 10, aggregated);
    var top10EntitiesDict := Display(top10Entities, aggregated);

    var filteredEntities := Select(entityCount.Items(), aggregated, Except(ExcludedTypes));
    MostCommonKnown(filteredEntities, 10, aggregated);
    var top10FilteredEntities := MostCommon(filteredEntities, 10);
    var top10FilteredEntitiesDict := Display(top10FilteredEntities, aggregated);

    var productEntities := Select(entityCount.Items(), aggregated, Only(ProductType));
    MostCommonKnown(productEntities, 10, aggregated);
    var top10ProductEntities := MostCommon(productEntities, 10);
    var top10ProductEntitiesDict := Display(top10ProductEntities, aggregated);

    var entityDistribution := Distribution(entityTypeCount);
    var top5EntityTypes := MostCommon(entityTypeCount.Items(), 5);
    var topEntitiesByType := SummariseTypes(agg, top5EntityTypes);

    report := Report(entitiesByType, top10EntitiesDict, top10FilteredEntitiesDict, top10ProductEntitiesDict,
                     entityDistribution, topEntitiesByType, rawDataSize);
  }

  /**
   * The three rankings of the report are the displayed rankings under no
   * filter, without the excluded labels, and of PRODUCT alone; the summaries
   * are those of the top labels.
   */
  lemma ReportRankings(agg: Aggregate)
    requires Inv(agg)
    ensures ReportOf(agg).topEntitiesByType == TopEntitiesByType(agg, TopTypes(agg))
    ensures ReportOf(agg).top10Entities == Display(Ranked(agg, All, 10), agg.entities)
    ensures ReportOf(agg).top10FilteredEntities == Display(Ranked(agg, Except(ExcludedTypes), 10), agg.entities)
    ensures ReportOf(agg).top10ProductEntities == Display(Ranked(agg, Only(ProductType), 10), agg.entities)
  {
    CandidatesAll(agg);
  }

  /**
   * At most five labels are summarised; each is a label of the Counter with
   * its share of the total, and its list is the top five entities of that label.
   */
  lemma TopTypesSpec(agg: Aggregate, t: string)
    requires Inv(agg)
    ensures |TopEntitiesByType(agg, TopTypes(agg)).keys| <= 5
    ensures t in TopEntitiesByType(agg, TopTypes(agg)).values ==>
      && t in agg.typeCount.values
      && TopEntitiesByType(agg, TopTypes(agg)).values[t]
         == TypeSummary(Share(agg.typeCount.values[t], Sum(agg.typeCount)), Origs(Ranked(agg, Only(t), 5), agg.entities))
  {
    TopTypesKeys(agg);
    TopTypesValues(agg);
    TopTypesMembers(agg);
    var d := TopEntitiesByType(agg, TopTypes(agg));
    if t in d.values {
      var i :| 0 <= i < |d.keys| && d.keys[i] == t;
    }
  }

  /** A label left out of the summaries has no larger count than any label in them. */
  lemma TopTypesBound(agg: Aggregate, u: string, t: string)
    requires Inv(agg) && u in agg.typeCount.values
    requires u !in TopEntitiesByType(agg, TopTypes(agg)).values && t in TopEntitiesByType(agg, TopTypes(agg)).values
    ensures agg.typeCount.values[u] <= Get0(agg.typeCount, t)
  {
    var items := agg.typeCount.Items();
    var top := TopTypes(agg);
    var d := TopEntitiesByType(agg, top);
    TopTypesKeys(agg);
    TopTypesMembers(agg);
    MostCommonChosen(items, 5);
    var x := (u, agg.typeCount.values[u]);
    var k :| 0 <= k < |agg.typeCount.keys| && agg.typeCount.keys[k] == u;
    assert items[k] == x;
    forall i | 0 <= i < |top| ensures top[i].0 != u {
      assert d.keys[i] == top[i].0;
    }
    assert x !in top;
    var i :| 0 <= i < |d.keys| && d.keys[i] == t;
    assert top[i] in top;
  }

  /**
   * `entities_by_type` lists a label exactly when some aggregated entity has
   * it, and under it those entities in order; the labels come in the order
   * they first occur among the aggregated entities.
   */
  lemma ReportGroups(agg: Aggregate, entityType: string)
    requires Inv(agg)
    ensures entityType in ReportOf(agg).entitiesByType.values <==> HasType(agg.entities.Items(), entityType)
    ensures entityType in ReportOf(agg).entitiesByType.values ==>
      ReportOf(agg).entitiesByType.values[entityType] == OfType(agg.entities.Items(), entityType)
    ensures ReportOf(agg).entitiesByType.Valid()
    ensures ReportOf(agg).entitiesByType.keys == FirstOccurrences(LabelsOf(agg.entities.Items()))
  {
    GroupByTypeSpec(agg.entities.Items(), entityType);
    GroupByTypeValid(agg.entities.Items());
    GroupByTypeKeys(agg.entities.Items());
  }
}
