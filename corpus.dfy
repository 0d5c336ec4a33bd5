/**
 * The corpus pass of `process_text`: every article is parsed, its entity map
 * built, and the maps merged into one aggregate with per-entity article counts,
 * per-label counts and the total text size.
 */
module Corpus {
  import opened Text
  import opened Dicts
  import opened Nlp
  import opened RelationshipExtraction
  import opened Normalization
  import opened Entities

  /** One scraped article: `title` and `link` may be absent; `article_content` is its text pieces. */
  datatype Article = Article(title: Option<string>, link: Option<string>, content: seq<string>)

  const UnknownTitle: string := "Unknown Title"
  const UnknownLink: string := "Unknown Link"

  /** `article.get('title', 'Unknown Title')`. */
  function TitleOf(a: Article): (title: string)
    ensures a.title.Some? ==> title == a.title.value
    ensures a.title.None? ==> title == UnknownTitle
  {
    a.title.GetOr(UnknownTitle)
  }

  /** `article.get('link', 'Unknown Link')`. */
  function LinkOf(a: Article): (link: string)
    ensures a.link.Some? ==> link == a.link.value
    ensures a.link.None? ==> link == UnknownLink
  {
    a.link.GetOr(UnknownLink)
  }

  /** The article's pieces joined by single spaces. */
  function ArticleText(a: Article): (text: string)
    ensures |text| == TotalLength(a.content) + (if |a.content| == 0 then 0 else |a.content| - 1)
    ensures |a.content| == 0 ==> text == ""
    ensures forall k :: 0 <= k < |a.content| ==> IsInfix(a.content[k], text)
  {
    forall k | 0 <= k < |a.content| ensures IsInfix(a.content[k], Join(a.content)) {
      JoinHasWord(a.content, k);
    }
    Join(a.content)
  }

  /** The language engine: whatever it returns keeps its links inside the document. */
  type Engine = f: string -> Doc | forall s :: WellFormed(f(s)) witness (s: string) => Doc([], [])

  /** The state of the corpus loop: `aggregated_entities_info`, `entity_count`, `entity_type_count`, `raw_data_size`. */
  datatype Aggregate = Aggregate(entities: EntityMap, entityCount: Dict<nat>, typeCount: Dict<nat>, rawDataSize: nat)

  function Initial(): Aggregate {
    Aggregate(Empty(), Empty(), Empty(), 0)
  }

  /** Merges `contexts` one after the other into `cs`. */
  function AddContexts(cs: seq<Context>, contexts: seq<Context>): seq<Context> {
    if |contexts| == 0 then cs
    else AddContext(AddContexts(cs, contexts[..|contexts| - 1]), contexts[|contexts| - 1])
  }

  /** Merging a list of contexts keeps them unique per article and only ever appends. */
  lemma {:induction false} AddContextsKeepsOrder(cs: seq<Context>, contexts: seq<Context>)
    ensures DistinctArticles(cs) ==> DistinctArticles(AddContexts(cs, contexts))
    ensures ContextsExtend(cs, AddContexts(cs, contexts))
  {
    if |contexts| > 0 {
      var init := contexts[..|contexts| - 1];
      AddContextsKeepsOrder(cs, init);
      AddContextKeepsOrder(AddContexts(cs, init), contexts[|contexts| - 1]);
      ContextsExtendTransitive(cs, AddContexts(cs, init), AddContexts(cs, contexts));
    }
  }

  /** A context found in `a` is still found in any extension of `a`. */
  lemma FindExtends(a: seq<Context>, b: seq<Context>, article: string, link: string)
    requires ContextsExtend(a, b) && FindContext(a, article, link).Some?
    ensures FindContext(b, article, link).Some?
  {
    var i := FindContext(a, article, link).value;
    assert SameArticle(b[i], article, link);
  }

  /** Every context of a list is found in that list. */
  lemma FindOwn(cs: seq<Context>, k: nat)
    requires k < |cs|
    ensures FindContext(cs, cs[k].article, cs[k].link).Some?
  {
    assert SameArticle(cs[k], cs[k].article, cs[k].link);
  }

  /**
   * Merging never loses an article: after the merge, each merged context's
   * article and link has a context of its own.
   */
  lemma {:induction false} AddContextsFinds(cs: seq<Context>, contexts: seq<Context>, k: nat)
    requires k < |contexts|
    ensures FindContext(AddContexts(cs, contexts), contexts[k].article, contexts[k].link).Some?
  {
    var init := contexts[..|contexts| - 1];
    AddContextKeepsOrder(AddContexts(cs, init), contexts[|contexts| - 1]);
    if k < |init| {
      assert init[k] == contexts[k];
      AddContextsFinds(cs, init, k);
      FindExtends(AddContexts(cs, init), AddContexts(cs, contexts), contexts[k].article, contexts[k].link);
    }
  }

  /** The sentences of the contexts of `article` and `link` among `contexts`, in order. */
  function MergedText(contexts: seq<Context>, article: string, link: string): seq<string> {
    if |contexts| == 0 then []
    else
      var last := contexts[|contexts| - 1];
      MergedText(contexts[..|contexts| - 1], article, link) + (if SameArticle(last, article, link) then last.text else [])
  }

  /** The relationships of the contexts of `article` and `link` among `contexts`, in order. */
  function MergedRelationships(contexts: seq<Context>, article: string, link: string): seq<Relationship> {
    if |contexts| == 0 then []
    else
      var last := contexts[|contexts| - 1];
      MergedRelationships(contexts[..|contexts| - 1], article, link) + (if SameArticle(last, article, link) then last.relationships else [])
  }

  /**
   * Merging `contexts` into `cs` records, for every article and link, the
   * sentences and relationships recorded before followed by those of the
   * merged contexts of that article and link, in order.
   */
  lemma {:induction false} AddContextsContent(cs: seq<Context>, contexts: seq<Context>, article: string, link: string)
    ensures ContextText(AddContexts(cs, contexts), article, link) == ContextText(cs, article, link) + MergedText(contexts, article, link)
    ensures ContextRelationships(AddContexts(cs, contexts), article, link) ==
      ContextRelationships(cs, article, link) + MergedRelationships(contexts, article, link)
  {
    if |contexts| > 0 {
      var init := contexts[..|contexts| - 1];
      var last := contexts[|contexts| - 1];
      var before := AddContexts(cs, init);
      var same := SameArticle(last, article, link);
      assert AddContexts(cs, contexts) == AddContext(before, last);
      assert ContextText(before, article, link) == ContextText(cs, article, link) + MergedText(init, article, link)
        && ContextRelationships(before, article, link) == ContextRelationships(cs, article, link) + MergedRelationships(init, article, link) by {
        AddContextsContent(cs, init, article, link);
      }
      assert ContextText(AddContext(before, last), article, link) == ContextText(before, article, link) + (if same then last.text else [])
        && ContextRelationships(AddContext(before, last), article, link) ==
           ContextRelationships(before, article, link) + (if same then last.relationships else []) by {
        AddContextContent(before, last, article, link);
      }
      assert MergedText(contexts, article, link) == MergedText(init, article, link) + (if same then last.text else []);
      assert MergedRelationships(contexts, article, link) == MergedRelationships(init, article, link) + (if same then last.relationships else []);
    }
  }

  /** With one context per article, a list records for an article exactly what its contexts hold. */
  lemma {:induction false} DistinctContextContent(cs: seq<Context>, article: string, link: string)
    requires DistinctArticles(cs)
    ensures ContextText(cs, article, link) == MergedText(cs, article, link)
    ensures ContextRelationships(cs, article, link) == MergedRelationships(cs, article, link)
  {
    if |cs| > 0 {
      var init := cs[..|cs| - 1];
      var last := cs[|cs| - 1];
      assert cs == init + [last];
      DistinctContextContent(init, article, link);
      FindAppend(init, last, article, link);
      match FindContext(init, article, link)
      case Some(j) =>
        assert !SameArticle(last, init[j].article, init[j].link);
      case None =>
    }
  }

  /** A new key takes the document's info; a known key keeps its label and text and merges the contexts. */
  function MergeEntity(entities: EntityMap, key: string, info: EntityInfo): EntityMap {
    if key !in entities.values then entities.Put(key, info)
    else
      var known := entities.values[key];
      entities.Put(key, known.(mentionedIn := AddContexts(known.mentionedIn, info.mentionedIn)))
  }

  /** One iteration over a document's entities. */
  function CountEntity(agg: Aggregate, key: string, info: EntityInfo): Aggregate {
    Aggregate(MergeEntity(agg.entities, key, info), Increment(agg.entityCount, key),
              Increment(agg.typeCount, info.entityType), agg.rawDataSize)
  }

  /** The loop over `entities_info.items()`. */
  function CountEntities(agg: Aggregate, items: seq<(string, EntityInfo)>): Aggregate {
    if |items| == 0 then agg
    else CountEntity(CountEntities(agg, items[..|items| - 1]), items[|items| - 1].0, items[|items| - 1].1)
  }

  /** What one article contributes: the length of its text and its entity map. */
  datatype Parsed = Parsed(size: nat, entities: EntityMap)

  /** `raw_data_size += len(article_text)`. */
  function Grow(agg: Aggregate, size: nat): Aggregate {
    Aggregate(agg.entities, agg.entityCount, agg.typeCount, agg.rawDataSize + size)
  }

  function AddDocument(agg: Aggregate, p: Parsed): Aggregate
    requires p.entities.Valid()
  {
    CountEntities(Grow(agg, p.size), p.entities.Items())
  }

  ghost predicate AllWellKeyed(ps: seq<Parsed>) {
    forall i :: 0 <= i < |ps| ==> WellKeyed(ps[i].entities)
  }

  /** The aggregate after the articles `ps`, in order. */
  function AggregateAll(ps: seq<Parsed>): Aggregate
    requires AllWellKeyed(ps)
  {
    if |ps| == 0 then Initial()
    else AddDocument(AggregateAll(ps[..|ps| - 1]), ps[|ps| - 1])
  }

  /** The aggregate is consistent: every map well formed, the two key lists equal, every count positive, and both Counters with the same total. */
  ghost predicate Inv(agg: Aggregate) {
    && WellKeyed(agg.entities)
    && agg.entityCount.Valid() && agg.typeCount.Valid()
    && agg.entityCount.keys == agg.entities.keys
    && Positive(agg.entityCount) && Positive(agg.typeCount)
    && Sum(agg.entityCount) == Sum(agg.typeCount)
  }

  /** An item a document map may contain. */
  ghost predicate ItemKeyed(key: string, info: EntityInfo) {
    NormalizeEntityName(info.originalText) == key && DistinctArticles(info.mentionedIn)
  }

  lemma MergeEntityWellKeyed(entities: EntityMap, key: string, info: EntityInfo)
    requires WellKeyed(entities) && ItemKeyed(key, info)
    ensures WellKeyed(MergeEntity(entities, key, info))
    ensures MergeEntity(entities, key, info).keys == if key in entities.values then entities.keys else entities.keys + [key]
  {
    var r := MergeEntity(entities, key, info);
    if key !in entities.values {
      PutValid(entities, key, info);
    } else {
      var known := entities.values[key];
      AddContextsKeepsOrder(known.mentionedIn, info.mentionedIn);
      PutValid(entities, key, known.(mentionedIn := AddContexts(known.mentionedIn, info.mentionedIn)));
    }
    forall k | k in r.values
      ensures NormalizeEntityName(r.values[k].originalText) == k && DistinctArticles(r.values[k].mentionedIn)
    {
      if k != key {
        assert r.values[k] == entities.values[k];
      }
    }
  }

  lemma CountEntityInv(agg: Aggregate, key: string, info: EntityInfo)
    requires Inv(agg) && ItemKeyed(key, info)
    ensures Inv(CountEntity(agg, key, info))
  {
    MergeEntityWellKeyed(agg.entities, key, info);
    IncrementValid(agg.entityCount, key);
    IncrementValid(agg.typeCount, info.entityType);
    IncrementPositive(agg.entityCount, key);
    IncrementPositive(agg.typeCount, info.entityType);
    assert key in agg.entities.values <==> key in agg.entityCount.values;
  }

  ghost predicate ItemsKeyed(items: seq<(string, EntityInfo)>) {
    forall i :: 0 <= i < |items| ==> ItemKeyed(items[i].0, items[i].1)
  }

  lemma {:induction false} CountEntitiesInv(agg: Aggregate, items: seq<(string, EntityInfo)>)
    requires Inv(agg) && ItemsKeyed(items)
    ensures Inv(CountEntities(agg, items))
  {
    if |items| > 0 {
      var init := items[..|items| - 1];
      assert ItemsKeyed(init) by {
        forall i | 0 <= i < |init| ensures ItemKeyed(init[i].0, init[i].1) {
          assert init[i] == items[i];
        }
      }
      CountEntitiesInv(agg, init);
      CountEntityInv(CountEntities(agg, init), items[|items| - 1].0, items[|items| - 1].1);
    }
  }

  /** The items of a well-keyed map are each filed under the key of their original text. */
  lemma ItemsOfWellKeyed(m: EntityMap)
    requires WellKeyed(m)
    ensures ItemsKeyed(m.Items())
  {
    var items := m.Items();
    forall i | 0 <= i < |items| ensures ItemKeyed(items[i].0, items[i].1) {
      assert items[i].0 in m.values;
    }
  }

  lemma AddDocumentInv(agg: Aggregate, p: Parsed)
    requires Inv(agg) && WellKeyed(p.entities)
    ensures Inv(AddDocument(agg, p))
  {
    ItemsOfWellKeyed(p.entities);
    CountEntitiesInv(Grow(agg, p.size), p.entities.Items());
  }

  /** The corpus loop keeps the aggregate consistent. */
  lemma {:induction false} AggregateAllInv(ps: seq<Parsed>)
    requires AllWellKeyed(ps)
    ensures Inv(AggregateAll(ps))
  {
    if |ps| > 0 {
      var init := ps[..|ps| - 1];
      assert AllWellKeyed(init) by {
        forall i | 0 <= i < |init| ensures WellKeyed(init[i].entities) {
          assert init[i] == ps[i];
        }
      }
      AggregateAllInv(init);
      AddDocumentInv(AggregateAll(init), ps[|ps| - 1]);
    } else {
      assert Sum(Initial().entityCount) == 0;
    }
  }

  /** The number of articles whose entity map has `key`. */
  function Occurrences(ps: seq<Parsed>, key: string): nat {
    if |ps| == 0 then 0
    else Occurrences(ps[..|ps| - 1], key) + (if key in ps[|ps| - 1].entities.values then 1 else 0)
  }

  /** The total length of the articles' texts. */
  function TotalSize(ps: seq<Parsed>): nat {
    if |ps| == 0 then 0 else TotalSize(ps[..|ps| - 1]) + ps[|ps| - 1].size
  }

  /** The number of items filed under `key`. */
  function ItemCount(items: seq<(string, EntityInfo)>, key: string): nat {
    if |items| == 0 then 0
    else ItemCount(items[..|items| - 1], key) + (if items[|items| - 1].0 == key then 1 else 0)
  }

  lemma {:induction false} CountEntitiesCount(agg: Aggregate, items: seq<(string, EntityInfo)>, key: string)
    ensures Get0(CountEntities(agg, items).entityCount, key) == Get0(agg.entityCount, key) + ItemCount(items, key)
    ensures CountEntities(agg, items).rawDataSize == agg.rawDataSize
  {
    if |items| > 0 {
      CountEntitiesCount(agg, items[..|items| - 1], key);
    }
  }

  /** Some item has key `key`. */
  predicate HasKey(items: seq<(string, EntityInfo)>, key: string) {
    exists i :: 0 <= i < |items| && items[i].0 == key
  }

  /** Items with distinct keys list each key at most once. */
  lemma {:induction false} ItemCountDistinct(items: seq<(string, EntityInfo)>, key: string)
    requires DistinctKeys(items)
    ensures ItemCount(items, key) == if HasKey(items, key) then 1 else 0
  {
    if |items| > 0 {
      var init := items[..|items| - 1];
      var last := items[|items| - 1];
      DistinctKeysInit(items);
      ItemCountDistinct(init, key);
      if last.0 == key {
        assert !HasKey(init, key);
      } else {
        if HasKey(items, key) {
          var i :| 0 <= i < |items| && items[i].0 == key;
          assert init[i] == items[i];
        }
        if HasKey(init, key) {
          var i :| 0 <= i < |init| && init[i].0 == key;
          assert items[i] == init[i];
        }
      }
    }
  }

  /** A dict lists each of its keys once. */
  lemma ItemCountOfDict(m: EntityMap, key: string)
    requires m.Valid()
    ensures ItemCount(m.Items(), key) == if key in m.values then 1 else 0
  {
    ItemsDistinct(m);
    ItemCountDistinct(m.Items(), key);
    if key in m.values {
      var i :| 0 <= i < |m.keys| && m.keys[i] == key;
      assert m.Items()[i].0 == key;
    }
  }

  /**
   * `entity_count[k]` is the number of articles whose entity map has `k`, and
   * `raw_data_size` the total length of their texts.
   */
  lemma {:induction false} AggregateCounts(ps: seq<Parsed>, key: string)
    requires AllWellKeyed(ps)
    ensures Get0(AggregateAll(ps).entityCount, key) == Occurrences(ps, key)
    ensures AggregateAll(ps).rawDataSize == TotalSize(ps)
  {
    if |ps| > 0 {
      var init := ps[..|ps| - 1];
      var last := ps[|ps| - 1];
      assert AllWellKeyed(init) by {
        forall i | 0 <= i < |init| ensures WellKeyed(init[i].entities) {
          assert init[i] == ps[i];
        }
      }
      AggregateCounts(init, key);
      CountEntitiesCount(Grow(AggregateAll(init), last.size), last.entities.Items(), key);
      ItemCountOfDict(last.entities, key);
    }
  }

  /** An entity is in the aggregate exactly when some article has it. */
  lemma AggregateKeys(ps: seq<Parsed>, key: string)
    requires AllWellKeyed(ps)
    ensures key in AggregateAll(ps).entities.values <==> Occurrences(ps, key) > 0
  {
    AggregateAllInv(ps);
    AggregateCounts(ps, key);
    var agg := AggregateAll(ps);
    assert key in agg.entities.values <==> key in agg.entityCount.keys;
  }

  /** `b` holds every entity of `a`, with the same label and original text and its contexts only appended to. */
  ghost predicate Extends(a: EntityMap, b: EntityMap) {
    && a.keys <= b.keys
    && forall k :: k in a.values ==>
         && k in b.values
         && b.values[k].entityType == a.values[k].entityType
         && b.values[k].originalText == a.values[k].originalText
         && ContextsExtend(a.values[k].mentionedIn, b.values[k].mentionedIn)
  }

  lemma ExtendsTransitive(a: EntityMap, b: EntityMap, c: EntityMap)
    requires Extends(a, b) && Extends(b, c)
    ensures Extends(a, c)
  {
    forall k | k in a.values ensures ContextsExtend(a.values[k].mentionedIn, c.values[k].mentionedIn) {
      ContextsExtendTransitive(a.values[k].mentionedIn, b.values[k].mentionedIn, c.values[k].mentionedIn);
    }
  }

  lemma MergeEntityExtends(entities: EntityMap, key: string, info: EntityInfo)
    ensures Extends(entities, MergeEntity(entities, key, info))
  {
    var r := MergeEntity(entities, key, info);
    if key in entities.values {
      AddContextsKeepsOrder(entities.values[key].mentionedIn, info.mentionedIn);
    }
    forall k | k in entities.values && k != key ensures r.values[k] == entities.values[k] {
    }
  }

  lemma {:induction false} CountEntitiesExtends(agg: Aggregate, items: seq<(string, EntityInfo)>)
    ensures Extends(agg.entities, CountEntities(agg, items).entities)
  {
    if |items| == 0 {
    } else {
      var init := items[..|items| - 1];
      CountEntitiesExtends(agg, init);
      MergeEntityExtends(CountEntities(agg, init).entities, items[|items| - 1].0, items[|items| - 1].1);
      ExtendsTransitive(agg.entities, CountEntities(agg, init).entities, CountEntities(agg, items).entities);
    }
  }

  /**
   * The aggregate only grows: an entity, once recorded, keeps its place, its
   * label and its original text, and its contexts are only appended to.
   */
  lemma {:induction false} AggregateExtends(ps: seq<Parsed>, n: nat)
    requires AllWellKeyed(ps) && n <= |ps|
    ensures AllWellKeyed(ps[..n])
    ensures Extends(AggregateAll(ps[..n]).entities, AggregateAll(ps).entities)
  {
    assert AllWellKeyed(ps[..n]) by {
      forall i | 0 <= i < n ensures WellKeyed(ps[..n][i].entities) {
        assert ps[..n][i] == ps[i];
      }
    }
    if n == |ps| {
      assert ps[..n] == ps;
    } else {
      var init := ps[..|ps| - 1];
      assert init[..n] == ps[..n];
      AggregateExtends(init, n);
      CountEntitiesExtends(Grow(AggregateAll(init), ps[|ps| - 1].size), ps[|ps| - 1].entities.Items());
      ExtendsTransitive(AggregateAll(ps[..n]).entities, AggregateAll(init).entities, AggregateAll(ps).entities);
    }
  }

  lemma {:induction false} CountEntitiesKeys(agg: Aggregate, items: seq<(string, EntityInfo)>, key: string)
    ensures key in CountEntities(agg, items).entities.values <==> key in agg.entities.values || ItemCount(items, key) > 0
  {
    if |items| > 0 {
      CountEntitiesKeys(agg, items[..|items| - 1], key);
    }
  }

  lemma {:induction false} ItemCountZero(items: seq<(string, EntityInfo)>, key: string)
    requires forall s :: 0 <= s < |items| ==> items[s].0 != key
    ensures ItemCount(items, key) == 0
  {
    if |items| > 0 {
      var init := items[..|items| - 1];
      forall s | 0 <= s < |init| ensures init[s].0 != key {
        assert init[s] == items[s];
      }
      ItemCountZero(init, key);
    }
  }

  /** An entity first met at item `t` gets that item's label and original text. */
  lemma {:induction false} CountEntitiesFirst(agg: Aggregate, items: seq<(string, EntityInfo)>, t: nat)
    requires t < |items| && items[t].0 !in agg.entities.values
    requires forall s :: 0 <= s < t ==> items[s].0 != items[t].0
    ensures items[t].0 in CountEntities(agg, items).entities.values
    ensures CountEntities(agg, items).entities.values[items[t].0].entityType == items[t].1.entityType
    ensures CountEntities(agg, items).entities.values[items[t].0].originalText == items[t].1.originalText
  {
    var init := items[..|items| - 1];
    var key := items[t].0;
    if t == |items| - 1 {
      forall s | 0 <= s < |init| ensures init[s].0 != key {
        assert init[s] == items[s];
      }
      ItemCountZero(init, key);
      CountEntitiesKeys(agg, init, key);
    } else {
      assert init[t] == items[t];
      forall s | 0 <= s < t ensures init[s].0 != init[t].0 {
        assert init[s] == items[s];
      }
      CountEntitiesFirst(agg, init, t);
      MergeEntityExtends(CountEntities(agg, init).entities, items[|items| - 1].0, items[|items| - 1].1);
    }
  }

  lemma {:induction false} OccurrencesZero(ps: seq<Parsed>, key: string)
    requires forall j :: 0 <= j < |ps| ==> key !in ps[j].entities.values
    ensures Occurrences(ps, key) == 0
  {
    if |ps| > 0 {
      var init := ps[..|ps| - 1];
      forall j | 0 <= j < |init| ensures key !in init[j].entities.values {
        assert init[j] == ps[j];
      }
      OccurrencesZero(init, key);
    }
  }

  /**
   * The label and original text of an entity are those of the first article
   * that has it; later articles never overwrite them.
   */
  lemma {:induction false} FirstSeenLabel(ps: seq<Parsed>, i: nat, key: string)
    requires AllWellKeyed(ps) && i < |ps| && key in ps[i].entities.values
    requires forall j :: 0 <= j < i ==> key !in ps[j].entities.values
    ensures key in AggregateAll(ps).entities.values
    ensures AggregateAll(ps).entities.values[key].entityType == ps[i].entities.values[key].entityType
    ensures AggregateAll(ps).entities.values[key].originalText == ps[i].entities.values[key].originalText
  {
    AggregateExtends(ps, i);
    AggregateExtends(ps, i + 1);
    var pre := ps[..i];
    forall j | 0 <= j < |pre| ensures key !in pre[j].entities.values {
      assert pre[j] == ps[j];
    }
    OccurrencesZero(pre, key);
    AggregateKeys(pre, key);
    assert ps[..i + 1][..i] == pre;
    assert ps[..i + 1][i] == ps[i];
    AddDocumentFirst(AggregateAll(pre), ps[i], key);
  }

  /** A document's new entity enters the aggregate with the document's label and original text. */
  lemma AddDocumentFirst(agg: Aggregate, p: Parsed, key: string)
    requires p.entities.Valid() && key in p.entities.values && key !in agg.entities.values
    ensures key in AddDocument(agg, p).entities.values
    ensures AddDocument(agg, p).entities.values[key].entityType == p.entities.values[key].entityType
    ensures AddDocument(agg, p).entities.values[key].originalText == p.entities.values[key].originalText
  {
    var m := p.entities;
    var items := m.Items();
    var t :| 0 <= t < |m.keys| && m.keys[t] == key;
    forall s | 0 <= s < t ensures items[s].0 != items[t].0 {
      assert items[s].0 == m.keys[s];
    }
    CountEntitiesFirst(Grow(agg, p.size), items, t);
  }

  /** After merging `info` under `key`, each of its contexts' articles is found under `key`. */
  lemma MergeEntityFinds(entities: EntityMap, key: string, info: EntityInfo, k: nat)
    requires k < |info.mentionedIn|
    ensures key in MergeEntity(entities, key, info).values
    ensures FindContext(MergeEntity(entities, key, info).values[key].mentionedIn,
                        info.mentionedIn[k].article, info.mentionedIn[k].link).Some?
  {
    if key in entities.values {
      AddContextsFinds(entities.values[key].mentionedIn, info.mentionedIn, k);
    } else {
      FindOwn(info.mentionedIn, k);
    }
  }

  lemma {:induction false} CountEntitiesFinds(agg: Aggregate, items: seq<(string, EntityInfo)>, t: nat, k: nat)
    requires t < |items| && k < |items[t].1.mentionedIn|
    ensures items[t].0 in CountEntities(agg, items).entities.values
    ensures FindContext(CountEntities(agg, items).entities.values[items[t].0].mentionedIn,
                        items[t].1.mentionedIn[k].article, items[t].1.mentionedIn[k].link).Some?
  {
    var init := items[..|items| - 1];
    var before := CountEntities(agg, init).entities;
    if t == |items| - 1 {
      MergeEntityFinds(before, items[t].0, items[t].1, k);
    } else {
      assert init[t] == items[t];
      CountEntitiesFinds(agg, init, t, k);
      MergeEntityExtends(before, items[|items| - 1].0, items[|items| - 1].1);
      FindExtends(before.values[items[t].0].mentionedIn, CountEntities(agg, items).entities.values[items[t].0].mentionedIn,
                  items[t].1.mentionedIn[k].article, items[t].1.mentionedIn[k].link);
    }
  }

  /** A document's entity is merged with every article of its contexts found. */
  lemma AddDocumentFinds(agg: Aggregate, p: Parsed, key: string, k: nat)
    requires p.entities.Valid() && key in p.entities.values && k < |p.entities.values[key].mentionedIn|
    ensures key in AddDocument(agg, p).entities.values
    ensures FindContext(AddDocument(agg, p).entities.values[key].mentionedIn,
                        p.entities.values[key].mentionedIn[k].article,
                        p.entities.values[key].mentionedIn[k].link).Some?
  {
    var m := p.entities;
    var t :| 0 <= t < |m.keys| && m.keys[t] == key;
    CountEntitiesFinds(Grow(agg, p.size), m.Items(), t, k);
  }

  /** One step of the corpus fold. */
  lemma AggregateStep(ps: seq<Parsed>, i: nat)
    requires AllWellKeyed(ps) && i < |ps|
    ensures AllWellKeyed(ps[..i]) && AllWellKeyed(ps[..i + 1])
    ensures AggregateAll(ps[..i + 1]) == AddDocument(AggregateAll(ps[..i]), ps[i])
  {
    PrefixWellKeyed(ps, i);
    PrefixWellKeyed(ps, i + 1);
    assert ps[..i + 1][..i] == ps[..i];
  }

  /**
   * The merge keeps every article: when article `i`'s map has `key`, each
   * article and link among its contexts has a context under `key` in the
   * final aggregate.
   */
  lemma AggregateFinds(ps: seq<Parsed>, i: nat, key: string, k: nat)
    requires AllWellKeyed(ps) && i < |ps| && key in ps[i].entities.values
    requires k < |ps[i].entities.values[key].mentionedIn|
    ensures key in AggregateAll(ps).entities.values
    ensures FindContext(AggregateAll(ps).entities.values[key].mentionedIn,
                        ps[i].entities.values[key].mentionedIn[k].article,
                        ps[i].entities.values[key].mentionedIn[k].link).Some?
  {
    AggregateStep(ps, i);
    AddDocumentFinds(AggregateAll(ps[..i]), ps[i], key, k);
    AggregateExtends(ps, i + 1);
    var c := ps[i].entities.values[key].mentionedIn[k];
    FindExtends(AggregateAll(ps[..i + 1]).entities.values[key].mentionedIn, AggregateAll(ps).entities.values[key].mentionedIn,
                c.article, c.link);
  }

  /** The sentences recorded under `key` for `article` and `link`. */
  function EntityText(m: EntityMap, key: string, article: string, link: string): seq<string> {
    if key in m.values then ContextText(m.values[key].mentionedIn, article, link) else []
  }

  /** The relationships recorded under `key` for `article` and `link`. */
  function EntityRelationships(m: EntityMap, key: string, article: string, link: string): seq<Relationship> {
    if key in m.values then ContextRelationships(m.values[key].mentionedIn, article, link) else []
  }

  /** Merging `info` under `key` appends its contexts' material to what `key` records, and changes no other key. */
  lemma MergeEntityContent(entities: EntityMap, key: string, info: EntityInfo, k: string, article: string, link: string)
    requires DistinctArticles(info.mentionedIn)
    ensures EntityText(MergeEntity(entities, key, info), k, article, link) ==
      EntityText(entities, k, article, link) + (if k == key then MergedText(info.mentionedIn, article, link) else [])
    ensures EntityRelationships(MergeEntity(entities, key, info), k, article, link) ==
      EntityRelationships(entities, k, article, link) + (if k == key then MergedRelationships(info.mentionedIn, article, link) else [])
  {
    if k == key {
      if key in entities.values {
        AddContextsContent(entities.values[key].mentionedIn, info.mentionedIn, article, link);
      } else {
        DistinctContextContent(info.mentionedIn, article, link);
      }
    }
  }

  /** The sentences of `article` and `link` among the contexts of the items filed under `key`, in order. */
  function ItemText(items: seq<(string, EntityInfo)>, key: string, article: string, link: string): seq<string> {
    if |items| == 0 then []
    else
      var last := items[|items| - 1];
      ItemText(items[..|items| - 1], key, article, link) + (if last.0 == key then MergedText(last.1.mentionedIn, article, link) else [])
  }

  /** The relationships of `article` and `link` among the contexts of the items filed under `key`, in order. */
  function ItemRelationships(items: seq<(string, EntityInfo)>, key: string, article: string, link: string): seq<Relationship> {
    if |items| == 0 then []
    else
      var last := items[|items| - 1];
      ItemRelationships(items[..|items| - 1], key, article, link) + (if last.0 == key then MergedRelationships(last.1.mentionedIn, article, link) else [])
  }

  /** Over a document's items, each item's contexts are appended to what its key records. */
  lemma {:induction false} CountEntitiesText(agg: Aggregate, items: seq<(string, EntityInfo)>, key: string, article: string, link: string)
    requires forall t :: 0 <= t < |items| ==> DistinctArticles(items[t].1.mentionedIn)
    ensures EntityText(CountEntities(agg, items).entities, key, article, link) ==
      EntityText(agg.entities, key, article, link) + ItemText(items, key, article, link)
  {
    if |items| > 0 {
      var init := items[..|items| - 1];
      var last := items[|items| - 1];
      var before := CountEntities(agg, init).entities;
      var extra := if last.0 == key then MergedText(last.1.mentionedIn, article, link) else [];
      var old0, mid := EntityText(agg.entities, key, article, link), ItemText(init, key, article, link);
      assert EntityText(before, key, article, link) == old0 + mid by {
        forall t | 0 <= t < |init| ensures DistinctArticles(init[t].1.mentionedIn) {
          assert init[t] == items[t];
        }
        CountEntitiesText(agg, init, key, article, link);
      }
      assert EntityText(CountEntities(agg, items).entities, key, article, link) == EntityText(before, key, article, link) + extra by {
        assert CountEntities(agg, items).entities == MergeEntity(before, last.0, last.1);
        MergeEntityContent(before, last.0, last.1, key, article, link);
      }
      assert ItemText(items, key, article, link) == mid + extra;
      assert (old0 + mid) + extra == old0 + (mid + extra);
    }
  }

  /** The same for relationships. */
  lemma {:induction false} CountEntitiesRelationships(agg: Aggregate, items: seq<(string, EntityInfo)>, key: string, article: string, link: string)
    requires forall t :: 0 <= t < |items| ==> DistinctArticles(items[t].1.mentionedIn)
    ensures EntityRelationships(CountEntities(agg, items).entities, key, article, link) ==
      EntityRelationships(agg.entities, key, article, link) + ItemRelationships(items, key, article, link)
  {
    if |items| > 0 {
      var init := items[..|items| - 1];
      var last := items[|items| - 1];
      var before := CountEntities(agg, init).entities;
      var extra := if last.0 == key then MergedRelationships(last.1.mentionedIn, article, link) else [];
      var old0, mid := EntityRelationships(agg.entities, key, article, link), ItemRelationships(init, key, article, link);
      assert EntityRelationships(before, key, article, link) == old0 + mid by {
        forall t | 0 <= t < |init| ensures DistinctArticles(init[t].1.mentionedIn) {
          assert init[t] == items[t];
        }
        CountEntitiesRelationships(agg, init, key, article, link);
      }
      assert EntityRelationships(CountEntities(agg, items).entities, key, article, link) == EntityRelationships(before, key, article, link) + extra by {
        assert CountEntities(agg, items).entities == MergeEntity(before, last.0, last.1);
        MergeEntityContent(before, last.0, last.1, key, article, link);
      }
      assert ItemRelationships(items, key, article, link) == mid + extra;
      assert (old0 + mid) + extra == old0 + (mid + extra);
    }
  }

  /** With distinct keys, the material filed under `key` is that of its one item, or none. */
  lemma {:induction false} ItemContentDistinct(items: seq<(string, EntityInfo)>, key: string, article: string, link: string, t: nat)
    requires DistinctKeys(items) && t < |items| && items[t].0 == key
    ensures ItemText(items, key, article, link) == MergedText(items[t].1.mentionedIn, article, link)
    ensures ItemRelationships(items, key, article, link) == MergedRelationships(items[t].1.mentionedIn, article, link)
  {
    var init := items[..|items| - 1];
    DistinctKeysInit(items);
    if t == |items| - 1 {
      ItemContentAbsent(init, key, article, link);
    } else {
      assert init[t] == items[t];
      ItemContentDistinct(init, key, article, link, t);
    }
  }

  lemma {:induction false} ItemContentAbsent(items: seq<(string, EntityInfo)>, key: string, article: string, link: string)
    requires forall t :: 0 <= t < |items| ==> items[t].0 != key
    ensures ItemText(items, key, article, link) == []
    ensures ItemRelationships(items, key, article, link) == []
  {
    if |items| > 0 {
      var init := items[..|items| - 1];
      forall t | 0 <= t < |init| ensures init[t].0 != key {
        assert init[t] == items[t];
      }
      ItemContentAbsent(init, key, article, link);
    }
  }

  /** The sentences of `article` and `link` that the parsed articles record under `key`, in article order. */
  function ParsedText(ps: seq<Parsed>, key: string, article: string, link: string): seq<string> {
    if |ps| == 0 then []
    else
      var m := ps[|ps| - 1].entities;
      ParsedText(ps[..|ps| - 1], key, article, link) + (if key in m.values then MergedText(m.values[key].mentionedIn, article, link) else [])
  }

  /** The relationships of `article` and `link` that the parsed articles record under `key`, in article order. */
  function ParsedRelationships(ps: seq<Parsed>, key: string, article: string, link: string): seq<Relationship> {
    if |ps| == 0 then []
    else
      var m := ps[|ps| - 1].entities;
      ParsedRelationships(ps[..|ps| - 1], key, article, link) + (if key in m.values then MergedRelationships(m.values[key].mentionedIn, article, link) else [])
  }

  /** One document adds to `key` exactly what its own entry under `key` records. */
  lemma AddDocumentContent(agg: Aggregate, p: Parsed, key: string, article: string, link: string)
    requires WellKeyed(p.entities)
    ensures EntityText(AddDocument(agg, p).entities, key, article, link) == EntityText(agg.entities, key, article, link) +
      (if key in p.entities.values then MergedText(p.entities.values[key].mentionedIn, article, link) else [])
    ensures EntityRelationships(AddDocument(agg, p).entities, key, article, link) == EntityRelationships(agg.entities, key, article, link) +
      (if key in p.entities.values then MergedRelationships(p.entities.values[key].mentionedIn, article, link) else [])
  {
    var m := p.entities;
    var items := m.Items();
    ItemsDistinct(m);
    CountEntitiesText(Grow(agg, p.size), items, key, article, link);
    CountEntitiesRelationships(Grow(agg, p.size), items, key, article, link);
    if key in m.values {
      var t :| 0 <= t < |m.keys| && m.keys[t] == key;
      ItemContentDistinct(items, key, article, link, t);
    } else {
      ItemContentAbsent(items, key, article, link);
    }
  }

  /**
   * After the corpus fold, the context of `article` and `link` under `key`
   * holds, in article order, the sentences and relationships every parsed
   * article recorded for them under `key`.
   */
  lemma {:induction false} AggregateContent(ps: seq<Parsed>, key: string, article: string, link: string)
    requires AllWellKeyed(ps)
    ensures EntityText(AggregateAll(ps).entities, key, article, link) == ParsedText(ps, key, article, link)
    ensures EntityRelationships(AggregateAll(ps).entities, key, article, link) == ParsedRelationships(ps, key, article, link)
  {
    if |ps| > 0 {
      var init := ps[..|ps| - 1];
      AggregateStep(ps, |ps| - 1);
      assert ps[..|ps|] == ps;
      AggregateContent(init, key, article, link);
      AddDocumentContent(AggregateAll(init), ps[|ps| - 1], key, article, link);
    }
  }

  /** What the pipeline takes from one article: the length of its text and the entity map of its parse. */
  function Parse(eng: Engine, eq: SpanTokenEq, a: Article): Parsed {
    Parsed(|ArticleText(a)|, DocEntities(eq, eng(ArticleText(a)), TitleOf(a), LinkOf(a)))
  }

  function ParseAll(eng: Engine, eq: SpanTokenEq, articles: seq<Article>): (ps: seq<Parsed>)
    ensures |ps| == |articles|
    ensures forall i :: 0 <= i < |ps| ==> ps[i] == Parse(eng, eq, articles[i])
  {
    seq(|articles|, i requires 0 <= i < |articles| => Parse(eng, eq, articles[i]))
  }

  lemma ParseAllWellKeyed(eng: Engine, eq: SpanTokenEq, articles: seq<Article>)
    ensures AllWellKeyed(ParseAll(eng, eq, articles))
  {
    var ps := ParseAll(eng, eq, articles);
    forall i | 0 <= i < |ps| ensures WellKeyed(ps[i].entities) {
      var a := articles[i];
      DocEntitiesWellKeyed(eq, eng(ArticleText(a)), TitleOf(a), LinkOf(a));
    }
  }

  /** The state after the corpus loop of `process_text` over `articles`. */
  function ProcessCorpus(eng: Engine, eq: SpanTokenEq, articles: seq<Article>): Aggregate {
    ParseAllWellKeyed(eng, eq, articles);
    AggregateAll(ParseAll(eng, eq, articles))
  }

  /** Some entity span of the article's parse normalises to `key`. */
  predicate ArticleMentions(eng: Engine, a: Article, key: string) {
    exists j :: 0 <= j < |eng(ArticleText(a)).ents| && KeyOf(eng(ArticleText(a)), j) == key
  }

  /** The number of articles whose parse has an entity with key `key`. */
  function ArticlesMentioning(eng: Engine, articles: seq<Article>, key: string): nat {
    if |articles| == 0 then 0
    else ArticlesMentioning(eng, articles[..|articles| - 1], key) + (if ArticleMentions(eng, articles[|articles| - 1], key) then 1 else 0)
  }

  /** The total length of the articles' joined texts. */
  function TextSize(articles: seq<Article>): nat {
    if |articles| == 0 then 0 else TextSize(articles[..|articles| - 1]) + |ArticleText(articles[|articles| - 1])|
  }

  lemma {:induction false} ParsedCounts(eng: Engine, eq: SpanTokenEq, articles: seq<Article>, key: string)
    ensures Occurrences(ParseAll(eng, eq, articles), key) == ArticlesMentioning(eng, articles, key)
    ensures TotalSize(ParseAll(eng, eq, articles)) == TextSize(articles)
  {
    if |articles| > 0 {
      var init := articles[..|articles| - 1];
      var a := articles[|articles| - 1];
      var ps := ParseAll(eng, eq, articles);
      assert ps[..|ps| - 1] == ParseAll(eng, eq, init);
      ParsedCounts(eng, eq, init, key);
      DocEntitiesContents(eq, eng(ArticleText(a)), TitleOf(a), LinkOf(a), key);
    }
  }

  /**
   * After the corpus loop, `entity_count[k]` is the number of articles in
   * which some entity span normalises to `k`, and `raw_data_size` is the total
   * length of the joined article texts.
   */
  lemma CorpusCounts(eng: Engine, eq: SpanTokenEq, articles: seq<Article>, key: string)
    ensures Get0(ProcessCorpus(eng, eq, articles).entityCount, key) == ArticlesMentioning(eng, articles, key)
    ensures ProcessCorpus(eng, eq, articles).rawDataSize == TextSize(articles)
  {
    ParseAllWellKeyed(eng, eq, articles);
    AggregateCounts(ParseAll(eng, eq, articles), key);
    ParsedCounts(eng, eq, articles, key);
  }

  /**
   * Every article that mentions an entity keeps its own context under that
   * entity: its title and link are found among the aggregated contexts.
   */
  lemma CorpusContexts(eng: Engine, eq: SpanTokenEq, articles: seq<Article>, i: nat, key: string)
    requires i < |articles| && ArticleMentions(eng, articles[i], key)
    ensures key in ProcessCorpus(eng, eq, articles).entities.values
    ensures FindContext(ProcessCorpus(eng, eq, articles).entities.values[key].mentionedIn,
                        TitleOf(articles[i]), LinkOf(articles[i])).Some?
  {
    var a := articles[i];
    ParseAllWellKeyed(eng, eq, articles);
    DocEntitiesContents(eq, eng(ArticleText(a)), TitleOf(a), LinkOf(a), key);
    AggregateFinds(ParseAll(eng, eq, articles), i, key, 0);
  }

  /** The sentences in which each article with this title and link mentions `key`, in article order. */
  function ArticlesText(eng: Engine, eq: SpanTokenEq, articles: seq<Article>, key: string, article: string, link: string): seq<string> {
    if |articles| == 0 then []
    else
      var a := articles[|articles| - 1];
      ArticlesText(eng, eq, articles[..|articles| - 1], key, article, link) +
        (if ArticleMentions(eng, a, key) && TitleOf(a) == article && LinkOf(a) == link
         then TextsOf(Mentions(eq, eng(ArticleText(a)), TitleOf(a), LinkOf(a)), key) else [])
  }

  /** The relationships of those mentions, in article order. */
  function ArticlesRelationships(eng: Engine, eq: SpanTokenEq, articles: seq<Article>, key: string, article: string, link: string): seq<Relationship> {
    if |articles| == 0 then []
    else
      var a := articles[|articles| - 1];
      ArticlesRelationships(eng, eq, articles[..|articles| - 1], key, article, link) +
        (if ArticleMentions(eng, a, key) && TitleOf(a) == article && LinkOf(a) == link
         then RelationshipsOf(Mentions(eq, eng(ArticleText(a)), TitleOf(a), LinkOf(a)), key) else [])
  }

  /** A document's entry under `key` records, for its own article and link, the sentences and relationships of the key's mentions. */
  lemma DocMergedContent(eq: SpanTokenEq, doc: Doc, title: string, articleLink: string, key: string, article: string, link: string)
    requires WellFormed(doc) && key in DocEntities(eq, doc, title, articleLink).values
    ensures MergedText(DocEntities(eq, doc, title, articleLink).values[key].mentionedIn, article, link) ==
      if title == article && articleLink == link then TextsOf(Mentions(eq, doc, title, articleLink), key) else []
    ensures MergedRelationships(DocEntities(eq, doc, title, articleLink).values[key].mentionedIn, article, link) ==
      if title == article && articleLink == link then RelationshipsOf(Mentions(eq, doc, title, articleLink), key) else []
  {
    DocEntitiesContents(eq, doc, title, articleLink, key);
    var c := DocEntities(eq, doc, title, articleLink).values[key].mentionedIn[0];
    assert [c][..0] == [];
  }

  /** What one parsed article records under `key` for `article` and `link`. */
  lemma ParseContent(eng: Engine, eq: SpanTokenEq, a: Article, key: string, article: string, link: string)
    ensures var m := Parse(eng, eq, a).entities;
      (if key in m.values then MergedText(m.values[key].mentionedIn, article, link) else []) ==
      (if ArticleMentions(eng, a, key) && TitleOf(a) == article && LinkOf(a) == link
       then TextsOf(Mentions(eq, eng(ArticleText(a)), TitleOf(a), LinkOf(a)), key) else [])
    ensures var m := Parse(eng, eq, a).entities;
      (if key in m.values then MergedRelationships(m.values[key].mentionedIn, article, link) else []) ==
      (if ArticleMentions(eng, a, key) && TitleOf(a) == article && LinkOf(a) == link
       then RelationshipsOf(Mentions(eq, eng(ArticleText(a)), TitleOf(a), LinkOf(a)), key) else [])
  {
    var doc := eng(ArticleText(a));
    var title, articleLink := TitleOf(a), LinkOf(a);
    var m := DocEntities(eq, doc, title, articleLink);
    assert Parse(eng, eq, a).entities == m;
    assert key in m.values <==> ArticleMentions(eng, a, key) by {
      DocEntitiesContents(eq, doc, title, articleLink, key);
    }
    if key in m.values {
      DocMergedContent(eq, doc, title, articleLink, key, article, link);
    }
  }

  lemma {:induction false} ParsedContent(eng: Engine, eq: SpanTokenEq, articles: seq<Article>, key: string, article: string, link: string)
    ensures ParsedText(ParseAll(eng, eq, articles), key, article, link) == ArticlesText(eng, eq, articles, key, article, link)
    ensures ParsedRelationships(ParseAll(eng, eq, articles), key, article, link) == ArticlesRelationships(eng, eq, articles, key, article, link)
  {
    if |articles| > 0 {
      var init := articles[..|articles| - 1];
      var ps := ParseAll(eng, eq, articles);
      assert ps[..|ps| - 1] == ParseAll(eng, eq, init);
      ParsedContent(eng, eq, init, key, article, link);
      ParseContent(eng, eq, articles[|articles| - 1], key, article, link);
    }
  }

  /**
   * After the corpus loop, the context of `article` and `link` under `key`
   * holds the sentences, and the relationships, of every mention of `key` in
   * the articles with that title and link, in article order and within an
   * article in document order. For any other entity or article nothing is
   * recorded.
   */
  lemma CorpusContent(eng: Engine, eq: SpanTokenEq, articles: seq<Article>, key: string, article: string, link: string)
    ensures EntityText(ProcessCorpus(eng, eq, articles).entities, key, article, link) == ArticlesText(eng, eq, articles, key, article, link)
    ensures EntityRelationships(ProcessCorpus(eng, eq, articles).entities, key, article, link) ==
      ArticlesRelationships(eng, eq, articles, key, article, link)
  {
    ParseAllWellKeyed(eng, eq, articles);
    AggregateContent(ParseAll(eng, eq, articles), key, article, link);
    ParsedContent(eng, eq, articles, key, article, link);
  }

  /**
   * Two articles with different titles or links that mention the same entity
   * give it two separate contexts.
   */
  lemma SeparateContexts(eng: Engine, eq: SpanTokenEq, articles: seq<Article>, i: nat, j: nat, key: string)
    requires i < |articles| && j < |articles|
    requires ArticleMentions(eng, articles[i], key) && ArticleMentions(eng, articles[j], key)
    requires TitleOf(articles[i]) != TitleOf(articles[j]) || LinkOf(articles[i]) != LinkOf(articles[j])
    ensures key in ProcessCorpus(eng, eq, articles).entities.values
    ensures FindContext(ProcessCorpus(eng, eq, articles).entities.values[key].mentionedIn, TitleOf(articles[i]), LinkOf(articles[i])).Some?
    ensures FindContext(ProcessCorpus(eng, eq, articles).entities.values[key].mentionedIn, TitleOf(articles[j]), LinkOf(articles[j])).Some?
    ensures FindContext(ProcessCorpus(eng, eq, articles).entities.values[key].mentionedIn, TitleOf(articles[i]), LinkOf(articles[i]))
         != FindContext(ProcessCorpus(eng, eq, articles).entities.values[key].mentionedIn, TitleOf(articles[j]), LinkOf(articles[j]))
  {
    CorpusContexts(eng, eq, articles, i, key);
    CorpusContexts(eng, eq, articles, j, key);
  }

  lemma PrefixWellKeyed(ps: seq<Parsed>, n: nat)
    requires AllWellKeyed(ps) && n <= |ps|
    ensures AllWellKeyed(ps[..n])
  {
    forall i | 0 <= i < n ensures WellKeyed(ps[..n][i].entities) {
      assert ps[..n][i] == ps[i];
    }
  }

  /** The keys of each article's entity map, article after article. */
  function AllKeys(ps: seq<Parsed>): seq<string> {
    if |ps| == 0 then [] else AllKeys(ps[..|ps| - 1]) + ps[|ps| - 1].entities.keys
  }

  /** The label of each entity of each article's map, article after article: one per article and entity. */
  function AllLabels(ps: seq<Parsed>): seq<string>
    requires AllWellKeyed(ps)
  {
    if |ps| == 0 then [] else AllLabels(ps[..|ps| - 1]) + LabelsOf(ps[|ps| - 1].entities.Items())
  }

  /** The loop over a document's items counts its keys and its labels, in item order. */
  lemma {:induction false} CountEntitiesTally(agg: Aggregate, items: seq<(string, EntityInfo)>)
    ensures CountEntities(agg, items).entityCount == Tally(agg.entityCount, KeysOf(items))
    ensures CountEntities(agg, items).typeCount == Tally(agg.typeCount, LabelsOf(items))
  {
    if |items| > 0 {
      var init := items[..|items| - 1];
      CountEntitiesTally(agg, init);
      assert KeysOf(items)[..|items| - 1] == KeysOf(init);
      assert LabelsOf(items)[..|items| - 1] == LabelsOf(init);
    }
  }

  /**
   * `entity_count` is the Counter of every article's keys and
   * `entity_type_count` the Counter of every article's labels, each counted
   * once per article and entity, in article order.
   */
  lemma {:induction false} AggregateTally(ps: seq<Parsed>)
    requires AllWellKeyed(ps)
    ensures AggregateAll(ps).entityCount == Tally(Empty(), AllKeys(ps))
    ensures AggregateAll(ps).typeCount == Tally(Empty(), AllLabels(ps))
  {
    if |ps| > 0 {
      var init := ps[..|ps| - 1];
      var last := ps[|ps| - 1];
      PrefixWellKeyed(ps, |ps| - 1);
      AggregateTally(init);
      var agg := AggregateAll(init);
      CountEntitiesTally(Grow(agg, last.size), last.entities.Items());
      assert KeysOf(last.entities.Items()) == last.entities.keys;
      TallyAppend(Empty(), AllKeys(init), last.entities.keys);
      TallyAppend(Empty(), AllLabels(init), LabelsOf(last.entities.Items()));
    }
  }

  /**
   * `entity_type_count[label]` is the number of pairs of an article and an
   * entity of its map with that label, and the Counter lists the labels in
   * the order they were first counted.
   */
  lemma AggregateTypeCounts(ps: seq<Parsed>, entityType: string)
    requires AllWellKeyed(ps)
    ensures Get0(AggregateAll(ps).typeCount, entityType) == multiset(AllLabels(ps))[entityType]
    ensures AggregateAll(ps).typeCount.keys == FirstOccurrences(AllLabels(ps))
  {
    AggregateTally(ps);
    TallyCounts(Empty(), AllLabels(ps), entityType);
    TallyKeys(AllLabels(ps));
  }

  /**
   * The aggregated entities and `entity_count` list the keys in the order
   * they first occur among the articles' maps, article after article.
   */
  lemma AggregateKeyOrder(ps: seq<Parsed>)
    requires AllWellKeyed(ps)
    ensures AggregateAll(ps).entities.keys == FirstOccurrences(AllKeys(ps))
    ensures AggregateAll(ps).entityCount.keys == AggregateAll(ps).entities.keys
  {
    AggregateTally(ps);
    TallyKeys(AllKeys(ps));
    AggregateAllInv(ps);
  }

  /**
   * An article adds to the end of the aggregated keys the keys of its map
   * not yet aggregated, in the order of its map.
   */
  lemma AggregateNewKeys(ps: seq<Parsed>)
    requires AllWellKeyed(ps) && |ps| > 0
    ensures AggregateAll(ps).entities.keys ==
      AggregateAll(ps[..|ps| - 1]).entities.keys + Unseen(ps[|ps| - 1].entities.keys, AggregateAll(ps[..|ps| - 1]).entities.keys)
  {
    var init := ps[..|ps| - 1];
    var last := ps[|ps| - 1];
    PrefixWellKeyed(ps, |ps| - 1);
    AggregateKeyOrder(ps);
    AggregateKeyOrder(init);
    FirstOccurrencesAppend(AllKeys(init), last.entities.keys);
    FirstOccurrencesSpec(AllKeys(init));
    UnseenMembers(last.entities.keys, AllKeys(init), FirstOccurrences(AllKeys(init)));
  }

  /** Each article's keys in the order of its first spans, article after article. */
  function ArticlesKeys(eng: Engine, articles: seq<Article>): seq<string> {
    if |articles| == 0 then []
    else ArticlesKeys(eng, articles[..|articles| - 1]) + FirstOccurrences(SpanKeys(eng(ArticleText(articles[|articles| - 1]))))
  }

  /** The label of the first span of each key of each article, article after article. */
  function ArticlesLabels(eng: Engine, eq: SpanTokenEq, articles: seq<Article>): seq<string> {
    if |articles| == 0 then []
    else
      var a := articles[|articles| - 1];
      ArticlesLabels(eng, eq, articles[..|articles| - 1]) + FirstLabels(Mentions(eq, eng(ArticleText(a)), TitleOf(a), LinkOf(a)))
  }

  lemma {:induction false} ParsedKeysLabels(eng: Engine, eq: SpanTokenEq, articles: seq<Article>)
    ensures AllWellKeyed(ParseAll(eng, eq, articles))
    ensures AllKeys(ParseAll(eng, eq, articles)) == ArticlesKeys(eng, articles)
    ensures AllLabels(ParseAll(eng, eq, articles)) == ArticlesLabels(eng, eq, articles)
  {
    ParseAllWellKeyed(eng, eq, articles);
    if |articles| > 0 {
      var init := articles[..|articles| - 1];
      var a := articles[|articles| - 1];
      var ps := ParseAll(eng, eq, articles);
      assert ps[..|ps| - 1] == ParseAll(eng, eq, init);
      ParsedKeysLabels(eng, eq, init);
      DocEntitiesKeyOrder(eq, eng(ArticleText(a)), TitleOf(a), LinkOf(a));
    }
  }

  /**
   * After the corpus loop, `entity_type_count[label]` is the number of pairs
   * of an article and a key of its spans whose first span there has that
   * label; the labels are listed in the order they were first counted.
   */
  lemma CorpusTypeCounts(eng: Engine, eq: SpanTokenEq, articles: seq<Article>, entityType: string)
    ensures Get0(ProcessCorpus(eng, eq, articles).typeCount, entityType) == multiset(ArticlesLabels(eng, eq, articles))[entityType]
    ensures ProcessCorpus(eng, eq, articles).typeCount.keys == FirstOccurrences(ArticlesLabels(eng, eq, articles))
  {
    ParsedKeysLabels(eng, eq, articles);
    AggregateTypeCounts(ParseAll(eng, eq, articles), entityType);
  }

  /**
   * After the corpus loop, the aggregated entities and `entity_count` list the
   * keys in the order they first occur among the spans, article after article.
   */
  lemma CorpusKeyOrder(eng: Engine, eq: SpanTokenEq, articles: seq<Article>)
    ensures ProcessCorpus(eng, eq, articles).entities.keys == FirstOccurrences(ArticlesKeys(eng, articles))
    ensures ProcessCorpus(eng, eq, articles).entityCount.keys == ProcessCorpus(eng, eq, articles).entities.keys
  {
    ParsedKeysLabels(eng, eq, articles);
    AggregateKeyOrder(ParseAll(eng, eq, articles));
  }

  /** The loop over a document's contexts: each is merged into the context of its article, or appended. */
  method MergeContexts(existing: seq<Context>, contexts: seq<Context>) returns (merged: seq<Context>)
    ensures merged == AddContexts(existing, contexts)
  {
    merged := existing;
    var k := 0;
    while k < |contexts|
      invariant k <= |contexts|
      invariant merged == AddContexts(existing, contexts[..k])
    {
      var context := contexts[k];
      assert contexts[..k + 1][..k] == contexts[..k];
      match FindContext(merged, context.article, context.link) {
        case Some(c) =>
          merged := merged[c := merged[c].(text := merged[c].text + context.text,
                                           relationships := merged[c].relationships + context.relationships)];
        case None =>
          merged := merged + [context];
      }
      k := k + 1;
    }
    assert contexts[..k] == contexts;
  }

  /** The loop over one document's `entities_info.items()`: count each entity and its label, and merge it into the aggregate. */
  method CountDocumentEntities(agg: Aggregate, entitiesInfo: EntityMap) returns (r: Aggregate)
    requires entitiesInfo.Valid()
    ensures r == CountEntities(agg, entitiesInfo.Items())
    ensures r.rawDataSize == agg.rawDataSize
  {
    var aggregated, entityCount, entityTypeCount := agg.entities, agg.entityCount, agg.typeCount;
    var items := entitiesInfo.Items();
    var j := 0;
    while j < |items|
      invariant j <= |items|
      invariant Aggregate(aggregated, entityCount, entityTypeCount, agg.rawDataSize) == CountEntities(agg, items[..j])
    {
      var (entity, info) := items[j];
      entityCount := Increment(entityCount, entity);
      entityTypeCount := Increment(entityTypeCount, info.entityType);
      if entity !in aggregated.values {
        aggregated := aggregated.Put(entity, info);
      } else {
        var known := aggregated.values[entity];
        var merged := MergeContexts(known.mentionedIn, info.mentionedIn);
        aggregated := aggregated.Put(entity, known.(mentionedIn := merged));
      }
      assert items[..j + 1][..j] == items[..j];
      j := j + 1;
    }
    assert items[..j] == items;
    r := Aggregate(aggregated, entityCount, entityTypeCount, agg.rawDataSize);
  }

  /** One article's title, link, joined text and entity map, before its entities are merged. */
  method ParseArticle(eng: Engine, eq: SpanTokenEq, article: Article) returns (size: nat, entitiesInfo: EntityMap)
    ensures Parsed(size, entitiesInfo) == Parse(eng, eq, article)
    ensures WellKeyed(entitiesInfo)
  {
    var articleTitle := TitleOf(article);
    var articleLink := LinkOf(article);
    var articleText := Join(article.content);
    size := |articleText|;
    var doc := eng(articleText);
    entitiesInfo := ExtractEntitiesWithRelationships(eq, doc, articleTitle, articleLink);
    DocEntitiesWellKeyed(eq, doc, articleTitle, articleLink);
  }

  /** The corpus loop of `process_text`: parse every article and merge its entity map into the aggregate. */
  method AggregateCorpus(eng: Engine, eq: SpanTokenEq, articles: seq<Article>)
    returns (aggregated: EntityMap, entityCount: Dict<nat>, entityTypeCount: Dict<nat>, rawDataSize: nat)
    ensures Aggregate(aggregated, entityCount, entityTypeCount, rawDataSize) == ProcessCorpus(eng, eq, articles)
  {
    ghost var ps := ParseAll(eng, eq, articles);
    ParseAllWellKeyed(eng, eq, articles);
    aggregated := Empty();
    entityCount := Empty();
    entityTypeCount := Empty();
    rawDataSize := 0;
    var i := 0;
    while i < |articles|
      invariant i <= |articles|
      invariant AllWellKeyed(ps[..i])
      invariant Aggregate(aggregated, entityCount, entityTypeCount, rawDataSize) == AggregateAll(ps[..i])
    {
      var size, entitiesInfo := ParseArticle(eng, eq, articles[i]);
      rawDataSize := rawDataSize + size;
      assert ps[i] == Parsed(size, entitiesInfo);
      ghost var grown := Grow(AggregateAll(ps[..i]), size);
      assert grown == Aggregate(aggregated, entityCount, entityTypeCount, rawDataSize);
      var next := CountDocumentEntities(Aggregate(aggregated, entityCount, entityTypeCount, rawDataSize), entitiesInfo);
      aggregated, entityCount, entityTypeCount := next.entities, next.entityCount, next.typeCount;
      AggregateStep(ps, i);
      i := i + 1;
    }
    assert ps[..i] == ps;
  }
}
