# Entity and relationship aggregation, modelled in Dafny

This project models the aggregation pipeline of `main.py`. For each scraped
article, the pipeline parses the article's text and takes its named-entity spans. It then:

- extracts the syntactic relationships of each span within its sentence (`extract_meaningful_relationships`);
- files each span under a canonical key (`normalize_entity_name`);
- builds one per-document entity map with one context per article (`extract_entities_with_relationships`).

`process_text` merges these maps across articles. While doing so it counts:

- how many articles mention each entity;
- how many entity records each label gets;
- how many characters of text were read.

From these it builds the report. The report holds:

- the entities grouped by label;
- three top-10 rankings: all entities, entities without CARDINAL/ORDINAL/DATE labels, and PRODUCT entities;
- each label's share of all records;
- the top five entities of each of the five most frequent labels.

Modules, in dependency order:

- `Text`: `" ".join`, substring, ASCII lower-casing.
- `Dicts`: an insertion-ordered dictionary (`Dict`: key list plus map) and `Counter` operations on it (`Increment`, `Sum`).
- `Nlp`: the parser output — tokens with head links, sentences, entity spans, documents — and `token.subtree`.
- `RelationshipExtraction`: `extract_meaningful_relationships`.
- `Normalization`: `normalize_entity_name`.
- `Entities`: `extract_entities_with_relationships`.
- `Corpus`: the article loop of `process_text`.
- `Ranking`: `Counter.most_common`.
- `Reporting`: the report section of `process_text`.

The code is modelled in its own form:

- Loops become methods with loop invariants:
  - `ExtractMeaningfulRelationships`, `ExtractEntitiesWithRelationships`, `AggregateCorpus`, `CountDocumentEntities` and `MergeContexts`;
  - `GroupEntitiesByType` and `SummariseTypes`;
  - `ProcessText`, which runs them in sequence.
- Each method is proved equal to a functional definition: `Relationships`, `DocEntities`, `ProcessCorpus`, `GroupByType`, `TopEntitiesByType`, `ReportOf`.
- The properties are lemmas about those definitions.

Two inputs of the source are outside its text and are parameters of the model:

- The parser (`nlp`) is an `Engine`: any function from text to a document whose head links stay inside their sentence.
- The span-to-token comparisons that the source writes as `token.head == ent`, `ent in token.subtree` and `ent in child.subtree` are a parameter `eq` ("span equals token j"). The model follows the code as written, including the `elif` branch that depends on them. `OnlyNeighboursEmit` covers the case where a span never equals a token.

`Counter.most_common` comes from the Python library; `Ranking.MostCommon` defines it as Python's stable sort by count, largest first, followed by a prefix of length `n`. Ties keep the Counter's insertion order, which is why dictionaries keep their key order in this model. `Dicts.FirstOccurrences` (each distinct key where it first occurs) is the reference for those orders: the per-document map (`DocEntitiesKeyOrder`), the aggregate, `entity_count` and `entity_type_count` (`CorpusKeyOrder`, `CorpusTypeCounts`) and `entities_by_type` (`GroupByTypeKeys`) are proved to list their keys in that order.

Two behaviours of the code that its output format does not make obvious:

- The top-10 mappings are keyed by original text, which looks as if two entities could collide and one be dropped. In the code every entity is filed under `normalize_entity_name(original_text)`, so two distinct keys never share an original text. `Reporting.DisplaySpec` proves that each ranked entity keeps its own entry.
- The distribution divides by the total number of entity records, which looks as if it could divide by zero. The code divides only inside the comprehension over `entity_type_count`, so with no labels nothing is divided. Whenever there is a label, the total is at least the number of labels (`Reporting.DistributionSpec`).

## Model

| member | source | states |
|---|---|---|
| Text.Join | main.py:99 | the joined text is as long as its pieces plus one space between each pair of neighbours |
| Text.JoinHasWord | main.py:35 | every piece of a space-join occurs in the joined text |
| Text.LowerIdempotent | main.py:56 | lower-casing a lower-cased text changes nothing |
| Text.LowerIgnoresCase | main.py:56 | texts that differ only in letter case lower-case to the same text |
| Dicts.TallyCounts | main.py:108-109 | `c[x] += 1` over a list adds to each count the number of times its key occurs in the list |
| Dicts.TallyKeys | main.py:108-109 | a Counter filled by `+= 1` lists its keys in order of first occurrence |
| Nlp.SubtreeMembers | main.py:35 | `token.subtree` holds exactly the tokens whose head chain reaches the token, in increasing sentence order |
| RelationshipExtraction.SubtreePhrase | main.py:35 | `" ".join` of the subtree's texts; `SubtreeMembers` states which tokens it joins and `ConnectedPhraseHasToken` that it contains the token's own text |
| RelationshipExtraction.PathPhrase | main.py:41-43 | `" ".join` of the filtered subtree's texts; `PathPhraseTokens` states which tokens it joins and in what order |
| RelationshipExtraction.PathFilterMembers | main.py:41-43 | the filter keeps exactly the given tokens that are meaningful and have the span in their own subtree, and keeps increasing indexes increasing |
| RelationshipExtraction.PathPhraseTokens | main.py:41-43 | the path phrase joins exactly the meaningful tokens of the subtree whose own subtree holds the span, in strictly increasing sentence order |
| RelationshipExtraction.RelatedTo | main.py:38-46 | `related_to` is the text of the token's head in both arms of the conditional, at lines 38 and 46 |
| RelationshipExtraction.TokenRelationship | main.py:33-47 | what one token emits: when it emits, `related_to` is its head's text; `RelationshipsPerToken`, `ExcludedConnectedEmitsNothing` and `OnlyNeighboursEmit` state when it emits |
| RelationshipExtraction.ExtractMeaningfulRelationships | main.py:28-48 | the loop over the sentence's tokens returns the functional `Relationships`, with at most one relationship per token |
| RelationshipExtraction.RelationshipsPerToken | main.py:32-47 | the relationships are those of the tokens that emit one, one per token, in sentence order; each is related to its token's head |
| RelationshipExtraction.ExcludedConnectedEmitsNothing | main.py:33-34 | a directly connected token that is punctuation, a case marker, whitespace or a determiner emits nothing, and the `elif` is not tried |
| RelationshipExtraction.ConnectedPhraseHasToken | main.py:33-39 | a meaningful directly connected token emits a phrase that contains its own text |
| RelationshipExtraction.OnlyNeighboursEmit | main.py:33-47 | when the span equals no token, exactly the meaningful tokens attached to the span's root, or that the root attaches to, emit |
| Normalization.NormalizeEntityName | main.py:51-57 | the key has no upper-case letter |
| Normalization.NormalizeWithIdempotent | main.py:51-57 | for any alias table whose targets are lower-case and are not aliases themselves, normalising a key returns it |
| Normalization.NormalizeIdempotent | main.py:51-57 | normalising a canonical key gives the same key |
| Normalization.NormalizeIgnoresCase | main.py:56 | names equal up to letter case get the same key |
| Normalization.AliasMergesNames | main.py:52-56 | a name lowering to "putin" and one lowering to "vladimir putin" become one entity |
| Entities.FindContext | main.py:76-78 | finds the first context of the article and link, and reports none when no context has them |
| Entities.AddContextKeepsOrder | main.py:76-84 | adding a context keeps one context per article and link, only appends to the text and relationships lists, and leaves the article found |
| Entities.ContextText | main.py:76-80 | the sentences recorded for an article and link, those of its first context or none; `AddContextContent` states how a merge changes them |
| Entities.AddContextContent | main.py:76-84 | merging a context appends its sentences and relationships to those recorded for its own article and link, and changes nothing recorded for any other |
| Entities.AddMention | main.py:76-84 | extending the article's context or appending a new one is `AddContext` |
| Entities.RecordMention | main.py:68-84 | a new key gets label, original text and one context; a known key gets the context merged |
| Entities.ExtractEntitiesWithRelationships | main.py:60-86 | the loop over the document's spans builds `DocEntities`, the in-order fold of `Record` over the spans |
| Entities.DocEntitiesContents | main.py:60-86 | a key is present exactly when some span normalises to it; its original text normalises to the key; it has exactly one context, whose texts and relationships are those of its spans, in document order |
| Entities.DocEntitiesFirstMention | main.py:68-73 | label and original text of a key are those of the first span with that key |
| Entities.DocEntitiesWellKeyed | main.py:60-86 | the per-document map is a valid dict, filed by original text, with one context per article |
| Entities.CollectKeysOrder | main.py:68-73 | the map built from a list of mentions lists its keys in order of first mention, a new key going last |
| Entities.CollectLabels | main.py:68-73 | the entries' labels, in key order, are those of each key's first mention |
| Entities.DocEntitiesKeyOrder | main.py:60-86 | the per-document map lists the spans' keys in order of first mention, and each key's label is that of its first span |
| Corpus.ArticleText | main.py:99 | the article text has the length of its pieces plus separators, is empty for no pieces, and contains every piece |
| Corpus.TitleOf | main.py:97 | the article's title when present, otherwise "Unknown Title" |
| Corpus.LinkOf | main.py:98 | the article's link when present, otherwise "Unknown Link" |
| Corpus.Parse | main.py:99-105 | one article's text length and the entity map of its parse; `ParsedCounts` relates them to the article's spans and text |
| Corpus.ParseArticle | main.py:97-105 | reading one article (title, link, joined text, its length, the parse and its entity map) gives `Parse` of the article, and the map is well keyed |
| Corpus.MergeEntity | main.py:110-120 | a new key takes the document's info, a known key merges its contexts; `MergeEntityContent` states what each key records afterwards, `MergeEntityFinds` that every merged article is found |
| Corpus.CountEntity | main.py:107-120 | one entity of a document counted, its label counted and the entity merged; `CountEntitiesTally`, `AggregateCounts` and `AggregateTypeCounts` state what the counts come to |
| Corpus.MergeContexts | main.py:113-120 | the loop over a document's contexts is the in-order fold of `AddContext` |
| Corpus.AddContextsKeepsOrder | main.py:113-120 | merging contexts keeps them distinct per article and link, and only appends |
| Corpus.AddContextsContent | main.py:113-120 | after merging, each article and link records what it recorded before followed by the sentences and relationships of the merged contexts of that article and link, in order |
| Corpus.DistinctContextContent | main.py:68-84 | with one context per article, what a list records for an article is exactly what its contexts of that article hold |
| Corpus.MergeEntityContent | main.py:110-120 | merging a document's entry under a key appends its contexts' material to what that key records, and changes no other key |
| Corpus.AddContextsFinds | main.py:113-120 | after merging a document's contexts, every merged context's article and link has a context |
| Corpus.AggregateFinds | main.py:107-120 | when an article's map has an entity, every article and link among that entry's contexts has a context under the entity in the final aggregate |
| Corpus.CorpusContexts | main.py:96-120 | every article that mentions an entity has a context with its title and link under that entity after the corpus loop |
| Corpus.SeparateContexts | main.py:96-120 | two articles with different titles or links that mention one entity give it two separate contexts |
| Corpus.AggregateContent | main.py:96-120 | after the fold, the context of an article and link under a key holds, in article order, the sentences and relationships every parsed article recorded for them under that key |
| Corpus.CorpusContent | main.py:96-120 | after the corpus loop, the context of an article and link under a key holds the sentences and relationships of every mention of the key in the articles with that title and link, in article order and then document order; nothing is doubled or lost |
| Corpus.CountDocumentEntities | main.py:107-120 | the loop over one document's entities counts each entity and label once and merges the entity; the text size is unchanged |
| Corpus.AggregateCorpus | main.py:89-120 | the article loop produces `ProcessCorpus`: the in-order fold of the parsed articles |
| Corpus.AggregateAllInv | main.py:96-120 | after any prefix of articles: maps valid; entities filed by original text with distinct contexts; `entity_count` keys equal the entity keys; all counts positive; both Counters have the same sum |
| Corpus.CountEntitiesTally | main.py:107-109 | the loop over a document's items adds one to `entity_count` for each key and one to `entity_type_count` for each label, in item order |
| Corpus.AggregateTally | main.py:96-109 | `entity_count` is the Counter of the keys of every article's map and `entity_type_count` the Counter of their labels, one per article and entity, article after article |
| Corpus.AggregateTypeCounts | main.py:107-109 | `entity_type_count[label]` is the number of pairs of an article and an entity of its map with that label; its keys are the labels in the order first counted |
| Corpus.AggregateKeyOrder | main.py:107-111 | the aggregated entities and `entity_count` list the keys in the order they first occur among the articles' maps |
| Corpus.AggregateNewKeys | main.py:107-111 | an article appends to the aggregated keys those keys of its map not yet aggregated, in its map's order |
| Corpus.CorpusTypeCounts | main.py:96-109 | after the corpus loop, `entity_type_count[label]` is the number of pairs of an article and a key of its spans whose first span there has that label; labels are listed in the order first counted |
| Corpus.CorpusKeyOrder | main.py:96-111 | after the corpus loop, the aggregated entities and `entity_count` list the keys in the order they first occur among the spans, article after article |
| Corpus.AggregateCounts | main.py:101-108 | `entity_count[k]` is the number of parsed articles whose map has `k`; `raw_data_size` is the sum of their text sizes |
| Corpus.CorpusCounts | main.py:96-108 | `entity_count[k]` is the number of articles in which some span normalises to `k`; `raw_data_size` is the total length of the joined article texts |
| Corpus.AggregateKeys | main.py:107-111 | an entity is aggregated exactly when some article mentions it |
| Corpus.FirstSeenLabel | main.py:110-111 | label and original text of an entity come from the first article that mentions it, never overwritten later |
| Corpus.AggregateExtends | main.py:110-120 | later articles only append: keys keep their order, label and original text stay, contexts and their text and relationship lists are only extended |
| Ranking.SortByCountSpec | main.py:130 | `most_common`'s sort orders by count, largest first; it is a permutation; items of equal count keep their order |
| Ranking.SortByCount | main.py:130 | the stable reverse sort keeps the number of items; `SortByCountSpec` states its order, permutation and stability |
| Ranking.MostCommon | main.py:130 | `most_common(n)` returns `min(n, len)` items; `MostCommonOrdered`, `MostCommonChosen` and `MostCommonTies` state which |
| Ranking.MostCommonOrdered | main.py:130 | `most_common(n)` returns at most `n` items, counts not increasing |
| Ranking.MostCommonChosen | main.py:130 | every item returned comes from the input, and no item left out has a larger count than any item returned |
| Ranking.MostCommonTies | main.py:130 | among items of one count, those returned are the first ones in insertion order |
| Ranking.MostCommonDistinct | main.py:130 | items with distinct keys give a result with distinct keys |
| Reporting.GroupEntitiesByType | main.py:123-128 | the grouping loop builds `GroupByType` of the aggregated entities |
| Reporting.GroupByTypeSpec | main.py:123-128 | a label is listed exactly when some entity has it; under it are that label's entities in aggregation order |
| Reporting.GroupByTypeKeys | main.py:122-128 | the `defaultdict` lists each label where it first occurs among the aggregated entities |
| Reporting.ReportGroups | main.py:122-128 | the report's `entities_by_type` is a valid dict with those groups, its labels in order of first occurrence among the aggregated entities |
| Reporting.Select | main.py:135-136 | the filtering comprehension, here and at lines 141-142 and 154-155: a filtered Counter holds only aggregated entities; `SelectSpec` states exactly which and `SelectOrder` that their order is kept |
| Reporting.SelectSpec | main.py:134-141 | a filtered Counter holds exactly the items whose label the filter admits, with distinct keys |
| Reporting.SelectOrder | main.py:135-136 | the filtered Counter keeps `entity_count`'s order: its items are those at the admitted indexes, which strictly increase, and every admitted index is one of them |
| Reporting.SelectWithCount | main.py:135-137 | filtering by label and then by count is filtering by count and then by label |
| Reporting.CandidatesSpec | main.py:134-141 | the candidates of a ranking are exactly the aggregated entities whose label is admitted, each with its `entity_count` |
| Reporting.CandidatesAll | main.py:130 | with no filter the candidates are the whole `entity_count` |
| Reporting.Display | main.py:131-132 | the `{original_text: count}` comprehension, here and at lines 138-139 and 144-145; `DisplaySpec` states its keys, order and counts |
| Reporting.DisplaySpec | main.py:131-132 | the `{original_text: count}` dict has one key per ranked entity, in rank order, with its count; nothing collides |
| Reporting.RankedSpec | main.py:130-156 | a ranking has at most `n` distinct admitted entities, each with its count, largest first |
| Reporting.RankedBound | main.py:130-156 | an admitted entity left out of a ranking has no larger count than any ranked entity |
| Reporting.RankedTies | main.py:130-156 | ties keep `entity_count`'s order: the ranked entities of one count are the first admitted entities of that count in the order `entity_count` lists them |
| Reporting.DisplayedOrder | main.py:130-143 | a displayed ranking has at most `n` keys, in non-increasing count order |
| Reporting.DisplayedEntry | main.py:130-143 | each displayed key is an admitted entity's original text, mapped to its `entity_count` |
| Reporting.DisplayedBound | main.py:130-143 | an admitted entity whose original text is not displayed has no larger count than any displayed key |
| Reporting.ReportRankings | main.py:130-143 | the three top-10 dicts are the displayed rankings with no filter, without CARDINAL/ORDINAL/DATE, and of PRODUCT |
| Reporting.Distribution | main.py:147-148 | `entity_distribution`, each label's count over the total; `DistributionSpec` states its keys, shares and that the total is never zero when there is a label |
| Reporting.DistributionSpec | main.py:147-148 | the distribution has the labels of `entity_type_count` in order, each with its count over the common total; the total is at least the number of labels |
| Reporting.Summary | main.py:154-160 | one label's entry: its share and the top five of its entities by original text; `TopTypesSpec` states it |
| Reporting.SummariseTypes | main.py:150-159 | the loop over the top labels builds `TopEntitiesByType` |
| Reporting.TopTypesSpec | main.py:150-160 | at most five labels are summarised; each is a counted label with its share, and its list is the top five of that label's entities |
| Reporting.TopTypesBound | main.py:150 | a label left out of the summaries has no larger count than any summarised label |
| Reporting.ProcessText | main.py:89-170 | the whole function produces `ReportOf` of the corpus aggregate, and that aggregate is consistent |

## Left out

- Loading the spaCy model, raising its length limit and registering the entity-ruler patterns (main.py:5-19) are outside the model. The parser is the `Engine` parameter, and any well-formed document it returns is allowed.
- The call `nlp(article_text)` (main.py:103) is the `Engine` parameter applied to the joined text. The parser's behaviour is not modelled.
- The span-to-token equality in `token.head == ent`, `ent in token.subtree` and `ent in child.subtree` (main.py:33, 40, 43) is the parameter `eq`; the engine's equality is not modelled.
- JSON loading and the `__main__` driver (main.py:22-25, 173-184) are file I/O.
- An article without an `article_content` key raises `KeyError` in the source (main.py:99). Model articles always have a content list.
- A `title` or `link` that is present but JSON `null` is passed through as `None` by `dict.get`; the model only distinguishes absent from present text.
- Reporting.Distribution: keeps each percentage as the exact pair `Share(count, total)`, not the float `count / total * 100` (main.py:148); float rounding is not modelled.
- Reporting.TopTypes: ranks labels on their integer counts, where the source ranks the float percentages (main.py:150). With one common total the order is the same, unless float rounding maps two different counts to the same percentage.
- Text.Lower: lower-cases ASCII letters only; Unicode case mapping of `str.lower` is not modelled.
- The `Engine` never fails. In the source, `nlp(article_text)` raises for a text longer than `nlp.max_length` (main.py:7, 103), which aborts the whole run; the model does not capture that abort.
- Every content piece is a string in the model. In the source, a piece without a `'text'` key, or whose text is not a string, raises at main.py:99.
- Python aliasing is not modelled. The aggregate stores the per-document info object and later extends its lists in place (main.py:111, 116-120). Each per-document map is discarded after it is merged, so value semantics give the same report.
