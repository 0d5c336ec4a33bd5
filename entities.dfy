/**
 * Per-document aggregation: the entity spans of one article grouped by
 * canonical key, each with its mention contexts.
 */
module Entities {
  import opened Text
  import opened Dicts
  import opened Nlp
  import opened RelationshipExtraction
  import opened Normalization

  /** `{'article', 'link', 'text', 'relationships'}`: where an entity was seen in one article. */
  datatype Context = Context(article: string, link: string, text: seq<string>, relationships: seq<Relationship>)

  /** `{'label', 'original_text', 'mentioned_in'}`. */
  datatype EntityInfo = EntityInfo(entityType: string, originalText: string, mentionedIn: seq<Context>)

  /** Canonical key to entity info, in insertion order. */
  type EntityMap = Dict<EntityInfo>

  predicate SameArticle(c: Context, article: string, link: string) {
    c.article == article && c.link == link
  }

  /** The first context of `article` and `link`: `[c for c in cs if ...][0]`, if any. */
  function FindContext(cs: seq<Context>, article: string, link: string): (r: Option<nat>)
    ensures r.Some? ==> r.value < |cs| && SameArticle(cs[r.value], article, link)
    ensures r.Some? ==> forall j :: 0 <= j < r.value ==> !SameArticle(cs[j], article, link)
    ensures r.None? ==> forall j :: 0 <= j < |cs| ==> !SameArticle(cs[j], article, link)
  {
    if |cs| == 0 then None
    else if SameArticle(cs[0], article, link) then Some(0)
    else
      match FindContext(cs[1..], article, link)
      case Some(i) => Some(i + 1)
      case None => None
  }

  /**
   * Merges `c` into `cs`: its sentences and relationships are appended to the
   * first context of the same article and link, or `c` is appended.
   */
  function AddContext(cs: seq<Context>, c: Context): seq<Context> {
    match FindContext(cs, c.article, c.link)
    case Some(i) =>
      cs[i := cs[i].(text := cs[i].text + c.text, relationships := cs[i].relationships + c.relationships)]
    case None => cs + [c]
  }

  /** At most one context per article and link. */
  ghost predicate DistinctArticles(cs: seq<Context>) {
    forall i, j :: 0 <= i < j < |cs| ==> !SameArticle(cs[j], cs[i].article, cs[i].link)
  }

  /** `b` is `a` with material appended only: nothing removed or reordered. */
  ghost predicate ContextExtends(a: Context, b: Context) {
    a.article == b.article && a.link == b.link && a.text <= b.text && a.relationships <= b.relationships
  }

  ghost predicate ContextsExtend(a: seq<Context>, b: seq<Context>) {
    |a| <= |b| && forall i :: 0 <= i < |a| ==> ContextExtends(a[i], b[i])
  }

  lemma ContextsExtendTransitive(a: seq<Context>, b: seq<Context>, c: seq<Context>)
    requires ContextsExtend(a, b) && ContextsExtend(b, c)
    ensures ContextsExtend(a, c)
  {
  }

  /** Merging keeps contexts unique per article and only ever appends. */
  lemma AddContextKeepsOrder(cs: seq<Context>, c: Context)
    ensures DistinctArticles(cs) ==> DistinctArticles(AddContext(cs, c))
    ensures ContextsExtend(cs, AddContext(cs, c))
    ensures FindContext(AddContext(cs, c), c.article, c.link).Some?
  {
    var r := AddContext(cs, c);
    match FindContext(cs, c.article, c.link)
    case Some(i) =>
      assert r[i].article == cs[i].article && r[i].link == cs[i].link;
      assert forall j :: 0 <= j < |cs| ==> r[j].article == cs[j].article && r[j].link == cs[j].link;
    case None =>
      assert r[|cs|] == c;
  }

  /** The sentences recorded for `article` and `link`: those of its context, or none. */
  function ContextText(cs: seq<Context>, article: string, link: string): seq<string> {
    match FindContext(cs, article, link)
    case Some(i) => cs[i].text
    case None => []
  }

  /** The relationships recorded for `article` and `link`: those of its context, or none. */
  function ContextRelationships(cs: seq<Context>, article: string, link: string): seq<Relationship> {
    match FindContext(cs, article, link)
    case Some(i) => cs[i].relationships
    case None => []
  }

  /** `FindContext` is the one index, or none, its contract describes. */
  lemma FindIs(cs: seq<Context>, article: string, link: string, r: Option<nat>)
    requires r.Some? ==> r.value < |cs| && SameArticle(cs[r.value], article, link)
    requires r.Some? ==> forall j :: 0 <= j < r.value ==> !SameArticle(cs[j], article, link)
    requires r.None? ==> forall j :: 0 <= j < |cs| ==> !SameArticle(cs[j], article, link)
    ensures FindContext(cs, article, link) == r
  {
  }

  /** Lists with the same articles and links, place by place, find the same context. */
  lemma FindSameArticles(a: seq<Context>, b: seq<Context>, article: string, link: string)
    requires |a| == |b|
    requires forall i :: 0 <= i < |a| ==> a[i].article == b[i].article && a[i].link == b[i].link
    ensures FindContext(a, article, link) == FindContext(b, article, link)
  {
    FindIs(b, article, link, FindContext(a, article, link));
  }

  /** Appending a context leaves an earlier match in place, and otherwise may be the match. */
  lemma FindAppend(cs: seq<Context>, c: Context, article: string, link: string)
    ensures FindContext(cs + [c], article, link) ==
      if FindContext(cs, article, link).Some? then FindContext(cs, article, link)
      else if SameArticle(c, article, link) then Some(|cs|)
      else None
  {
    var r := if FindContext(cs, article, link).Some? then FindContext(cs, article, link)
             else if SameArticle(c, article, link) then Some(|cs|)
             else None;
    FindIs(cs + [c], article, link, r);
  }

  /**
   * Merging `c` appends its sentences and relationships to those recorded for
   * its own article and link, and changes nothing recorded for any other.
   */
  lemma AddContextContent(cs: seq<Context>, c: Context, article: string, link: string)
    ensures ContextText(AddContext(cs, c), article, link) ==
      ContextText(cs, article, link) + (if SameArticle(c, article, link) then c.text else [])
    ensures ContextRelationships(AddContext(cs, c), article, link) ==
      ContextRelationships(cs, article, link) + (if SameArticle(c, article, link) then c.relationships else [])
  {
    var r := AddContext(cs, c);
    match FindContext(cs, c.article, c.link)
    case Some(i) =>
      FindSameArticles(cs, r, article, link);
      if !SameArticle(c, article, link) {
        match FindContext(cs, article, link)
        case Some(j) =>
          assert j != i;
        case None =>
      }
    case None =>
      FindAppend(cs, c, article, link);
  }

  /**
   * Records one mention under `key`: a new key gets the span's label, text and
   * context; a known key keeps its label and text and merges the context.
   */
  function Record(info: EntityMap, key: string, ent: Span, c: Context): EntityMap {
    if key !in info.values then
      info.Put(key, EntityInfo(ent.entityType, ent.text, [c]))
    else
      var known := info.values[key];
      info.Put(key, known.(mentionedIn := AddContext(known.mentionedIn, c)))
  }

  /** One entity span of a document: its canonical key, the span and the context it contributes. */
  datatype Mention = Mention(key: string, ent: Span, context: Context)

  /** The entity map built from `ms`, recorded in order. */
  function Collect(ms: seq<Mention>): EntityMap {
    if |ms| == 0 then Empty()
    else Record(Collect(ms[..|ms| - 1]), ms[|ms| - 1].key, ms[|ms| - 1].ent, ms[|ms| - 1].context)
  }

  lemma {:induction false} CollectValid(ms: seq<Mention>)
    ensures Collect(ms).Valid()
  {
    if |ms| > 0 {
      var init := ms[..|ms| - 1];
      var last := ms[|ms| - 1];
      CollectValid(init);
      var info := Collect(init);
      if last.key !in info.values {
        PutValid(info, last.key, EntityInfo(last.ent.entityType, last.ent.text, [last.context]));
      } else {
        var known := info.values[last.key];
        PutValid(info, last.key, known.(mentionedIn := AddContext(known.mentionedIn, last.context)));
      }
    }
  }

  /** Some mention of `ms` has key `key`. */
  predicate KeyIn(ms: seq<Mention>, key: string) {
    exists j :: 0 <= j < |ms| && ms[j].key == key
  }

  /** The sentence texts of the mentions of `key`, in order. */
  function TextsOf(ms: seq<Mention>, key: string): seq<string> {
    if |ms| == 0 then []
    else TextsOf(ms[..|ms| - 1], key) + (if ms[|ms| - 1].key == key then ms[|ms| - 1].context.text else [])
  }

  /** The relationships of the mentions of `key`, concatenated in order. */
  function RelationshipsOf(ms: seq<Mention>, key: string): seq<Relationship> {
    if |ms| == 0 then []
    else RelationshipsOf(ms[..|ms| - 1], key) + (if ms[|ms| - 1].key == key then ms[|ms| - 1].context.relationships else [])
  }

  /** Every mention of `ms` is from the same article and link. */
  predicate FromArticle(ms: seq<Mention>, article: string, link: string) {
    forall j :: 0 <= j < |ms| ==> SameArticle(ms[j].context, article, link)
  }

  /** Every mention is filed under the key of its span's text. */
  predicate Keyed(ms: seq<Mention>) {
    forall j :: 0 <= j < |ms| ==> ms[j].key == NormalizeEntityName(ms[j].ent.text)
  }

  /** The map holds exactly the keys of the mentions. */
  lemma {:induction false} CollectKeys(ms: seq<Mention>, key: string)
    ensures key in Collect(ms).values <==> KeyIn(ms, key)
  {
    if |ms| > 0 {
      var init := ms[..|ms| - 1];
      CollectKeys(init, key);
      if KeyIn(init, key) {
        var j :| 0 <= j < |init| && init[j].key == key;
        assert ms[j].key == key;
      }
      if ms[|ms| - 1].key != key && KeyIn(ms, key) {
        var j :| 0 <= j < |ms| && ms[j].key == key;
        assert init[j].key == key;
      }
    }
  }

  /** A key no mention has has no sentences and no relationships. */
  lemma {:induction false} UnseenKeyIsEmpty(ms: seq<Mention>, key: string)
    requires !KeyIn(ms, key)
    ensures TextsOf(ms, key) == [] && RelationshipsOf(ms, key) == []
  {
    if |ms| > 0 {
      var init := ms[..|ms| - 1];
      forall j | 0 <= j < |init| ensures init[j].key != key {
        assert init[j] == ms[j];
      }
      UnseenKeyIsEmpty(init, key);
    }
  }

  /**
   * When every mention comes from one article, each key has exactly one
   * context, for that article, holding the sentences and relationships of the
   * key's mentions in order.
   */
  lemma {:induction false} CollectContext(ms: seq<Mention>, article: string, link: string, key: string)
    requires FromArticle(ms, article, link)
    requires key in Collect(ms).values
    ensures Collect(ms).values[key].mentionedIn == [Context(article, link, TextsOf(ms, key), RelationshipsOf(ms, key))]
  {
    var init := ms[..|ms| - 1];
    var last := ms[|ms| - 1];
    assert FromArticle(init, article, link) by {
      forall j | 0 <= j < |init| ensures SameArticle(init[j].context, article, link) {
        assert init[j] == ms[j];
      }
    }
    assert SameArticle(last.context, article, link);
    if last.key != key || key in Collect(init).values {
      CollectContext(init, article, link, key);
      if last.key == key {
        var before := Collect(init).values[key].mentionedIn;
        assert FindContext(before, article, link) == Some(0);
        assert AddContext(before, last.context) ==
          [Context(article, link, TextsOf(init, key) + last.context.text,
                   RelationshipsOf(init, key) + last.context.relationships)];
        assert TextsOf(ms, key) == TextsOf(init, key) + last.context.text;
        assert RelationshipsOf(ms, key) == RelationshipsOf(init, key) + last.context.relationships;
      } else {
        assert Collect(ms).values[key] == Collect(init).values[key];
        assert TextsOf(ms, key) == TextsOf(init, key);
        assert RelationshipsOf(ms, key) == RelationshipsOf(init, key);
      }
    } else {
      CollectKeys(init, key);
      UnseenKeyIsEmpty(init, key);
      assert TextsOf(ms, key) == last.context.text;
      assert RelationshipsOf(ms, key) == last.context.relationships;
    }
  }

  /** The label and original text of a key are those of its first mention. */
  lemma {:induction false} CollectFirstMention(ms: seq<Mention>, j: nat)
    requires j < |ms|
    requires forall i :: 0 <= i < j ==> ms[i].key != ms[j].key
    ensures ms[j].key in Collect(ms).values
    ensures Collect(ms).values[ms[j].key].entityType == ms[j].ent.entityType
    ensures Collect(ms).values[ms[j].key].originalText == ms[j].ent.text
  {
    var init := ms[..|ms| - 1];
    if j == |ms| - 1 {
      CollectKeys(init, ms[j].key);
      forall i | 0 <= i < |init| ensures init[i].key != ms[j].key {
        assert init[i] == ms[i];
      }
    } else {
      assert init[j] == ms[j];
      CollectFirstMention(init, j);
    }
  }

  /** Every entry is filed under the key of its own original text. */
  lemma {:induction false} CollectKeyed(ms: seq<Mention>, key: string)
    requires Keyed(ms)
    requires key in Collect(ms).values
    ensures NormalizeEntityName(Collect(ms).values[key].originalText) == key
  {
    var init := ms[..|ms| - 1];
    assert Keyed(init) by {
      forall j | 0 <= j < |init| ensures init[j].key == NormalizeEntityName(init[j].ent.text) {
        assert init[j] == ms[j];
      }
    }
    if ms[|ms| - 1].key != key || key in Collect(init).values {
      CollectKeyed(init, key);
    }
  }

  /** The canonical key of the `j`-th span. */
  function KeyOf(doc: Doc, j: nat): string
    requires j < |doc.ents|
  {
    NormalizeEntityName(doc.ents[j].text)
  }

  /** The sentence of the `j`-th span. */
  function SentenceOf(doc: Doc, j: nat): (s: Sentence)
    requires WellFormed(doc) && j < |doc.ents|
    ensures Fits(doc.ents[j], s)
  {
    assert doc.ents[j] in doc.ents;
    assert doc.sentences[doc.ents[j].sent] in doc.sentences;
    doc.sentences[doc.ents[j].sent]
  }

  /** The context the `j`-th span contributes: its sentence and its relationships there. */
  function MentionAt(eq: SpanTokenEq, doc: Doc, article: string, link: string, j: nat): Context
    requires WellFormed(doc) && j < |doc.ents|
  {
    Context(article, link, [SentenceOf(doc, j).text], Relationships(eq, doc.ents[j], SentenceOf(doc, j)))
  }

  /** The mentions of a document, one per entity span, in document order. */
  function Mentions(eq: SpanTokenEq, doc: Doc, article: string, link: string): (ms: seq<Mention>)
    requires WellFormed(doc)
    ensures |ms| == |doc.ents|
    ensures forall j :: 0 <= j < |ms| ==> ms[j] == Mention(KeyOf(doc, j), doc.ents[j], MentionAt(eq, doc, article, link, j))
  {
    seq(|doc.ents|, j requires 0 <= j < |doc.ents| => Mention(KeyOf(doc, j), doc.ents[j], MentionAt(eq, doc, article, link, j)))
  }

  /** `extract_entities_with_relationships(doc, article_title, article_link)`. */
  function DocEntities(eq: SpanTokenEq, doc: Doc, article: string, link: string): EntityMap
    requires WellFormed(doc)
  {
    Collect(Mentions(eq, doc, article, link))
  }

  /** A document's mentions are all from its article, each under the key of its span. */
  lemma MentionsFromArticle(eq: SpanTokenEq, doc: Doc, article: string, link: string)
    requires WellFormed(doc)
    ensures FromArticle(Mentions(eq, doc, article, link), article, link)
    ensures Keyed(Mentions(eq, doc, article, link))
  {
  }

  /** A key has a mention exactly when some span of the document normalises to it. */
  lemma MentionsKeys(eq: SpanTokenEq, doc: Doc, article: string, link: string, key: string)
    requires WellFormed(doc)
    ensures KeyIn(Mentions(eq, doc, article, link), key) <==> exists j :: 0 <= j < |doc.ents| && KeyOf(doc, j) == key
  {
    var ms := Mentions(eq, doc, article, link);
    if KeyIn(ms, key) {
      var j :| 0 <= j < |ms| && ms[j].key == key;
      assert KeyOf(doc, j) == key;
    }
    if exists j :: 0 <= j < |doc.ents| && KeyOf(doc, j) == key {
      var j :| 0 <= j < |doc.ents| && KeyOf(doc, j) == key;
      assert ms[j].key == key;
    }
  }

  /**
   * The map of one document holds exactly the keys of its spans; each entry
   * is filed under the key of its original text and has one context, for this
   * article, with the sentences and relationships of the key's spans in
   * document order.
   */
  lemma DocEntitiesContents(eq: SpanTokenEq, doc: Doc, article: string, link: string, key: string)
    requires WellFormed(doc)
    ensures key in DocEntities(eq, doc, article, link).values <==> exists j :: 0 <= j < |doc.ents| && KeyOf(doc, j) == key
    ensures key in DocEntities(eq, doc, article, link).values ==>
      && NormalizeEntityName(DocEntities(eq, doc, article, link).values[key].originalText) == key
      && DocEntities(eq, doc, article, link).values[key].mentionedIn ==
           [Context(article, link, TextsOf(Mentions(eq, doc, article, link), key),
                    RelationshipsOf(Mentions(eq, doc, article, link), key))]
  {
    var ms := Mentions(eq, doc, article, link);
    CollectKeys(ms, key);
    MentionsKeys(eq, doc, article, link, key);
    if key in Collect(ms).values {
      MentionsFromArticle(eq, doc, article, link);
      CollectKeyed(ms, key);
      CollectContext(ms, article, link, key);
    }
  }

  /** Every entry is filed under the key of its original text and has at most one context per article. */
  ghost predicate WellKeyed(m: EntityMap) {
    && m.Valid()
    && forall k :: k in m.values ==>
         NormalizeEntityName(m.values[k].originalText) == k && DistinctArticles(m.values[k].mentionedIn)
  }

  lemma DocEntitiesWellKeyed(eq: SpanTokenEq, doc: Doc, article: string, link: string)
    requires WellFormed(doc)
    ensures WellKeyed(DocEntities(eq, doc, article, link))
  {
    CollectValid(Mentions(eq, doc, article, link));
    forall k | k in DocEntities(eq, doc, article, link).values
      ensures NormalizeEntityName(DocEntities(eq, doc, article, link).values[k].originalText) == k
      ensures DistinctArticles(DocEntities(eq, doc, article, link).values[k].mentionedIn)
    {
      DocEntitiesContents(eq, doc, article, link, k);
    }
  }

  /** The label and original text of a key are those of the first span with that key. */
  lemma DocEntitiesFirstMention(eq: SpanTokenEq, doc: Doc, article: string, link: string, j: nat)
    requires WellFormed(doc) && j < |doc.ents|
    requires forall i :: 0 <= i < j ==> KeyOf(doc, i) != KeyOf(doc, j)
    ensures KeyOf(doc, j) in DocEntities(eq, doc, article, link).values
    ensures DocEntities(eq, doc, article, link).values[KeyOf(doc, j)].entityType == doc.ents[j].entityType
    ensures DocEntities(eq, doc, article, link).values[KeyOf(doc, j)].originalText == doc.ents[j].text
  {
    CollectFirstMention(Mentions(eq, doc, article, link), j);
  }

  /** The keys of the mentions, in order. */
  function MentionKeys(ms: seq<Mention>): (ks: seq<string>)
    ensures |ks| == |ms|
    ensures forall j :: 0 <= j < |ms| ==> ks[j] == ms[j].key
  {
    seq(|ms|, j requires 0 <= j < |ms| => ms[j].key)
  }

  /** The label of each key's first mention, in order of first mention. */
  function FirstLabels(ms: seq<Mention>): seq<string> {
    if |ms| == 0 then []
    else FirstLabels(ms[..|ms| - 1]) + (if KeyIn(ms[..|ms| - 1], ms[|ms| - 1].key) then [] else [ms[|ms| - 1].ent.entityType])
  }

  /** The labels of entity entries, in order. */
  function LabelsOf(items: seq<(string, EntityInfo)>): (ls: seq<string>)
    ensures |ls| == |items|
    ensures forall i :: 0 <= i < |items| ==> ls[i] == items[i].1.entityType
  {
    seq(|items|, i requires 0 <= i < |items| => items[i].1.entityType)
  }

  /** The map lists its keys in order of first mention: a new key goes last. */
  lemma {:induction false} CollectKeysOrder(ms: seq<Mention>)
    ensures Collect(ms).Valid()
    ensures Collect(ms).keys == FirstOccurrences(MentionKeys(ms))
  {
    CollectValid(ms);
    if |ms| > 0 {
      var init := ms[..|ms| - 1];
      CollectKeysOrder(init);
      assert MentionKeys(ms)[..|ms| - 1] == MentionKeys(init);
    }
  }

  /** Replacing an entry by one with the same label leaves the labels as they were. */
  lemma LabelsPutKnown(m: EntityMap, key: string, info: EntityInfo)
    requires m.Valid() && key in m.values && m.values[key].entityType == info.entityType
    ensures m.Put(key, info).Valid()
    ensures LabelsOf(m.Put(key, info).Items()) == LabelsOf(m.Items())
  {
    PutValid(m, key, info);
    var r := m.Put(key, info);
    forall i | 0 <= i < |r.keys| ensures LabelsOf(r.Items())[i] == LabelsOf(m.Items())[i] {
      assert r.values[r.keys[i]].entityType == m.values[m.keys[i]].entityType;
    }
  }

  /** A new entry adds its label at the end. */
  lemma LabelsPutNew(m: EntityMap, key: string, info: EntityInfo)
    requires m.Valid() && key !in m.values
    ensures m.Put(key, info).Valid()
    ensures LabelsOf(m.Put(key, info).Items()) == LabelsOf(m.Items()) + [info.entityType]
  {
    PutValid(m, key, info);
    var r := m.Put(key, info);
    forall i | 0 <= i < |r.keys| ensures LabelsOf(r.Items())[i] == (LabelsOf(m.Items()) + [info.entityType])[i] {
      if i < |m.keys| {
        assert r.values[r.keys[i]].entityType == m.values[m.keys[i]].entityType;
      }
    }
  }

  /** The entry of each key has the label of its first mention, listed in key order. */
  lemma {:induction false} CollectLabels(ms: seq<Mention>)
    ensures Collect(ms).Valid()
    ensures LabelsOf(Collect(ms).Items()) == FirstLabels(ms)
  {
    CollectValid(ms);
    if |ms| > 0 {
      var init := ms[..|ms| - 1];
      var last := ms[|ms| - 1];
      CollectLabels(init);
      CollectKeys(init, last.key);
      var before := Collect(init);
      if last.key in before.values {
        var known := before.values[last.key];
        LabelsPutKnown(before, last.key, known.(mentionedIn := AddContext(known.mentionedIn, last.context)));
      } else {
        LabelsPutNew(before, last.key, EntityInfo(last.ent.entityType, last.ent.text, [last.context]));
      }
    }
  }

  /** The canonical keys of a document's spans, in document order. */
  function SpanKeys(doc: Doc): (ks: seq<string>)
    ensures |ks| == |doc.ents|
    ensures forall j :: 0 <= j < |doc.ents| ==> ks[j] == KeyOf(doc, j)
  {
    seq(|doc.ents|, j requires 0 <= j < |doc.ents| => KeyOf(doc, j))
  }

  /**
   * The map of one document lists each key where its first span is: a new key
   * is put at the end of the dict. Its labels are those of those first spans.
   */
  lemma DocEntitiesKeyOrder(eq: SpanTokenEq, doc: Doc, article: string, link: string)
    requires WellFormed(doc)
    ensures DocEntities(eq, doc, article, link).Valid()
    ensures DocEntities(eq, doc, article, link).keys == FirstOccurrences(SpanKeys(doc))
    ensures LabelsOf(DocEntities(eq, doc, article, link).Items()) == FirstLabels(Mentions(eq, doc, article, link))
  {
    var ms := Mentions(eq, doc, article, link);
    CollectKeysOrder(ms);
    CollectLabels(ms);
    assert MentionKeys(ms) == SpanKeys(doc);
  }

  /** A span of a known entity: extend the context of its article, or append a new one. */
  method AddMention(mentionedIn: seq<Context>, articleTitle: string, articleLink: string,
                    sentenceText: string, relationships: seq<Relationship>)
    returns (updated: seq<Context>)
    ensures updated == AddContext(mentionedIn, Context(articleTitle, articleLink, [sentenceText], relationships))
  {
    match FindContext(mentionedIn, articleTitle, articleLink) {
      case Some(c) =>
        updated := mentionedIn[c := mentionedIn[c].(text := mentionedIn[c].text + [sentenceText],
                                                   relationships := mentionedIn[c].relationships + relationships)];
      case None =>
        updated := mentionedIn + [Context(articleTitle, articleLink, [sentenceText], relationships)];
    }
  }

  /** One span: a new key gets an entry with this context, a known key gets the context merged in. */
  method RecordMention(entitiesInfo: EntityMap, entityText: string, ent: Span, articleTitle: string, articleLink: string,
                       sentenceText: string, relationships: seq<Relationship>)
    returns (updated: EntityMap)
    ensures updated == Record(entitiesInfo, entityText, ent, Context(articleTitle, articleLink, [sentenceText], relationships))
  {
    if entityText !in entitiesInfo.values {
      updated := entitiesInfo.Put(entityText, EntityInfo(ent.entityType, ent.text,
                                                         [Context(articleTitle, articleLink, [sentenceText], relationships)]));
    } else {
      var info := entitiesInfo.values[entityText];
      var mentionedIn := AddMention(info.mentionedIn, articleTitle, articleLink, sentenceText, relationships);
      updated := entitiesInfo.Put(entityText, info.(mentionedIn := mentionedIn));
    }
  }

  /** `extract_entities_with_relationships`: one pass over the spans, updating the map. */
  method ExtractEntitiesWithRelationships(eq: SpanTokenEq, doc: Doc, articleTitle: string, articleLink: string)
    returns (entitiesInfo: EntityMap)
    requires WellFormed(doc)
    ensures entitiesInfo == DocEntities(eq, doc, articleTitle, articleLink)
  {
    ghost var ms := Mentions(eq, doc, articleTitle, articleLink);
    entitiesInfo := Empty();
    var i := 0;
    while i < |doc.ents|
      invariant i <= |doc.ents|
      invariant entitiesInfo == Collect(ms[..i])
    {
      var ent := doc.ents[i];
      var sentence := SentenceOf(doc, i);
      var sentenceText := sentence.text;
      var relationships := ExtractMeaningfulRelationships(eq, ent, sentence);
      var entityText := NormalizeEntityName(ent.text);
      assert ms[i] == Mention(entityText, ent, Context(articleTitle, articleLink, [sentenceText], relationships));
      assert ms[..i + 1][..i] == ms[..i];
      entitiesInfo := RecordMention(entitiesInfo, entityText, ent, articleTitle, articleLink, sentenceText, relationships);
      i := i + 1;
    }
    assert ms[..i] == ms;
  }
}
