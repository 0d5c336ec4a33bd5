/**
 * Relationship extraction: for one entity span and its sentence, the phrases
 * of the tokens syntactically next to the entity.
 */
module RelationshipExtraction {
  import opened Text
  import opened Nlp

  /** `{'related_word': ..., 'related_to': ...}`. */
  datatype Relationship = Relationship(relatedWord: string, relatedTo: string)

  const ExcludedDeps: set<string> := {"punct", "case", "space", "det"}
  const ExcludedPos: set<string> := {"PUNCT", "SPACE"}

  /** A token that is neither punctuation, case marker, whitespace nor determiner. */
  predicate Meaningful(t: Token) {
    t.dep !in ExcludedDeps && t.pos !in ExcludedPos
  }

  /**
   * `ent == token`, comparing the span object with the token at index `j`.
   * The source writes this comparison between a span and a token, two
   * different kinds of object; it is left as a parameter so that the model
   * keeps both branches that depend on it.
   */
  type SpanTokenEq = (Span, nat) -> bool

  /** The span and its sentence fit together. */
  predicate Fits(ent: Span, sent: Sentence) {
    HeadsInRange(sent.tokens) && ent.root < |sent.tokens|
  }

  /** `ent in idxs`: some token listed compares equal to the span. */
  predicate AnyEqual(eq: SpanTokenEq, ent: Span, idxs: seq<nat>) {
    |idxs| > 0 && (eq(ent, idxs[0]) || AnyEqual(eq, ent, idxs[1..]))
  }

  /** `ent in tokens[i].subtree`. */
  predicate SpanInSubtree(eq: SpanTokenEq, ent: Span, tokens: seq<Token>, i: nat)
    requires HeadsInRange(tokens) && i < |tokens|
  {
    AnyEqual(eq, ent, Subtree(tokens, i))
  }

  /** `token.head == ent.root or ent.root.head == token or token.head == ent`. */
  predicate DirectlyConnected(eq: SpanTokenEq, ent: Span, tokens: seq<Token>, i: nat)
    requires HeadsInRange(tokens) && ent.root < |tokens| && i < |tokens|
  {
    tokens[i].head == ent.root || tokens[ent.root].head == i || eq(ent, tokens[i].head)
  }

  /** The members of `idxs` that are meaningful and have the span in their own subtree. */
  function PathFilter(eq: SpanTokenEq, ent: Span, tokens: seq<Token>, idxs: seq<nat>): (r: seq<nat>)
    requires HeadsInRange(tokens)
    requires forall k :: 0 <= k < |idxs| ==> idxs[k] < |tokens|
    ensures forall k :: 0 <= k < |r| ==> r[k] < |tokens|
  {
    if |idxs| == 0 then []
    else
      var j := idxs[0];
      (if Meaningful(tokens[j]) && SpanInSubtree(eq, ent, tokens, j) then [j] else [])
        + PathFilter(eq, ent, tokens, idxs[1..])
  }

  /**
   * The path keeps exactly the meaningful members of `idxs` with the span in
   * their own subtree, in the order of `idxs`: increasing indexes stay increasing.
   */
  lemma {:induction false} PathFilterMembers(eq: SpanTokenEq, ent: Span, tokens: seq<Token>, idxs: seq<nat>)
    requires HeadsInRange(tokens)
    requires forall k :: 0 <= k < |idxs| ==> idxs[k] < |tokens|
    ensures forall j :: j in PathFilter(eq, ent, tokens, idxs) <==>
      j in idxs && Meaningful(tokens[j]) && SpanInSubtree(eq, ent, tokens, j)
    ensures (forall a, b :: 0 <= a < b < |idxs| ==> idxs[a] < idxs[b]) ==>
      forall a, b :: 0 <= a < b < |PathFilter(eq, ent, tokens, idxs)| ==>
        PathFilter(eq, ent, tokens, idxs)[a] < PathFilter(eq, ent, tokens, idxs)[b]
  {
    if |idxs| > 0 {
      var rest := idxs[1..];
      PathFilterMembers(eq, ent, tokens, rest);
      if forall a, b :: 0 <= a < b < |idxs| ==> idxs[a] < idxs[b] {
        var r := PathFilter(eq, ent, tokens, idxs);
        var tail := PathFilter(eq, ent, tokens, rest);
        forall b | 0 <= b < |tail| ensures idxs[0] < tail[b] {
          assert tail[b] in rest;
          var k :| 0 <= k < |rest| && rest[k] == tail[b];
          assert rest[k] == idxs[k + 1];
        }
        assert forall a, b :: 0 <= a < b < |rest| ==> rest[a] < rest[b] by {
          forall a, b | 0 <= a < b < |rest| ensures rest[a] < rest[b] {
            assert rest[a] == idxs[a + 1] && rest[b] == idxs[b + 1];
          }
        }
      }
    }
  }

  /** The related word of a directly connected token: its whole subtree, joined. */
  function SubtreePhrase(tokens: seq<Token>, i: nat): string
    requires HeadsInRange(tokens) && i < |tokens|
  {
    Join(Texts(tokens, Subtree(tokens, i)))
  }

  /** The related word of a token above the span: the chain of its subtree leading to the span. */
  function PathPhrase(eq: SpanTokenEq, ent: Span, tokens: seq<Token>, i: nat): string
    requires HeadsInRange(tokens) && i < |tokens|
  {
    Join(Texts(tokens, PathFilter(eq, ent, tokens, Subtree(tokens, i))))
  }

  /**
   * The path phrase of token `i` joins, in sentence order, exactly the
   * meaningful tokens of its subtree whose own subtree holds the span.
   */
  lemma PathPhraseTokens(eq: SpanTokenEq, ent: Span, tokens: seq<Token>, i: nat)
    requires HeadsInRange(tokens) && i < |tokens|
    ensures forall j: nat :: j in PathFilter(eq, ent, tokens, Subtree(tokens, i)) <==>
      j < |tokens| && InSubtree(tokens, i, j) && Meaningful(tokens[j]) && SpanInSubtree(eq, ent, tokens, j)
    ensures forall a, b :: 0 <= a < b < |PathFilter(eq, ent, tokens, Subtree(tokens, i))| ==>
      PathFilter(eq, ent, tokens, Subtree(tokens, i))[a] < PathFilter(eq, ent, tokens, Subtree(tokens, i))[b]
  {
    SubtreeMembers(tokens, i);
    PathFilterMembers(eq, ent, tokens, Subtree(tokens, i));
  }

  /** `token.head.text if token.head != ent.root else ent.root.text`. */
  function RelatedTo(ent: Span, tokens: seq<Token>, i: nat): (r: string)
    requires HeadsInRange(tokens) && ent.root < |tokens| && i < |tokens|
    ensures r == tokens[tokens[i].head].text
  {
    if tokens[i].head != ent.root then tokens[tokens[i].head].text else tokens[ent.root].text
  }

  /** What one pass of the loop body appends for token `i`, if anything. */
  function TokenRelationship(eq: SpanTokenEq, ent: Span, sent: Sentence, i: nat): (r: Option<Relationship>)
    requires Fits(ent, sent) && i < |sent.tokens|
    ensures r.Some? ==> r.value.relatedTo == sent.tokens[sent.tokens[i].head].text
  {
    var tokens := sent.tokens;
    if DirectlyConnected(eq, ent, tokens, i) then
      if Meaningful(tokens[i]) then Some(Relationship(SubtreePhrase(tokens, i), RelatedTo(ent, tokens, i)))
      else None
    else if SpanInSubtree(eq, ent, tokens, i) then
      Some(Relationship(PathPhrase(eq, ent, tokens, i), RelatedTo(ent, tokens, i)))
    else None
  }

  function OptionToSeq<T>(o: Option<T>): seq<T> {
    match o
    case Some(v) => [v]
    case None => []
  }

  /** The values present in `os`, in order: at most one per entry. */
  function Somes<T>(os: seq<Option<T>>): (r: seq<T>)
    ensures |r| <= |os|
  {
    if |os| == 0 then [] else Somes(os[..|os| - 1]) + OptionToSeq(os[|os| - 1])
  }

  /** The positions of `os` that hold a value, in order. */
  function SomeIndices<T>(os: seq<Option<T>>): seq<nat> {
    if |os| == 0 then []
    else
      var prev := SomeIndices(os[..|os| - 1]);
      if os[|os| - 1].Some? then prev + [|os| - 1] else prev
  }

  /**
   * `Somes(os)` holds, one for one and in order, the values at the positions
   * `SomeIndices(os)` lists, and those are all the positions holding a value.
   */
  lemma SomesAtIndices<T>(os: seq<Option<T>>)
    ensures |Somes(os)| == |SomeIndices(os)|
    ensures forall a, b :: 0 <= a < b < |SomeIndices(os)| ==> SomeIndices(os)[a] < SomeIndices(os)[b]
    ensures forall k :: 0 <= k < |SomeIndices(os)| ==>
      SomeIndices(os)[k] < |os| && os[SomeIndices(os)[k]] == Some(Somes(os)[k])
    ensures forall i :: 0 <= i < |os| && os[i].Some? ==> i in SomeIndices(os)
  {
    SomeIndicesOrdered(os);
    SomesMatch(os);
  }

  /** `SomeIndices` lists, in increasing order, exactly the positions holding a value. */
  lemma {:induction false} SomeIndicesOrdered<T>(os: seq<Option<T>>)
    ensures forall a, b :: 0 <= a < b < |SomeIndices(os)| ==> SomeIndices(os)[a] < SomeIndices(os)[b]
    ensures forall k :: 0 <= k < |SomeIndices(os)| ==> SomeIndices(os)[k] < |os| && os[SomeIndices(os)[k]].Some?
    ensures forall i :: 0 <= i < |os| && os[i].Some? ==> i in SomeIndices(os)
  {
    if |os| > 0 {
      var init := os[..|os| - 1];
      SomeIndicesOrdered(init);
      var es := SomeIndices(init);
      forall k | 0 <= k < |es| ensures os[es[k]] == init[es[k]] {
      }
      forall i | 0 <= i < |os| - 1 && os[i].Some? ensures i in es {
        assert init[i] == os[i];
      }
    }
  }

  /** The `k`-th value of `Somes` is the one at the `k`-th listed position. */
  lemma {:induction false} SomesMatch<T>(os: seq<Option<T>>)
    ensures |Somes(os)| == |SomeIndices(os)|
    ensures forall k :: 0 <= k < |SomeIndices(os)| ==>
      SomeIndices(os)[k] < |os| && os[SomeIndices(os)[k]] == Some(Somes(os)[k])
  {
    if |os| > 0 {
      var init := os[..|os| - 1];
      SomesMatch(init);
      var rs, es := Somes(init), SomeIndices(init);
      forall k | 0 <= k < |es| ensures os[es[k]] == init[es[k]] {
      }
      if os[|os| - 1].Some? {
        assert Somes(os) == rs + [os[|os| - 1].value];
        assert SomeIndices(os) == es + [|os| - 1];
      }
    }
  }

  /** What each token of the sentence contributes, in sentence order. */
  function PerToken(eq: SpanTokenEq, ent: Span, sent: Sentence): (os: seq<Option<Relationship>>)
    requires Fits(ent, sent)
    ensures |os| == |sent.tokens|
  {
    seq(|sent.tokens|, i requires 0 <= i < |sent.tokens| => TokenRelationship(eq, ent, sent, i))
  }

  /** The tokens that emit a relationship, in sentence order. */
  function Emitters(eq: SpanTokenEq, ent: Span, sent: Sentence): seq<nat>
    requires Fits(ent, sent)
  {
    SomeIndices(PerToken(eq, ent, sent))
  }

  /** `extract_meaningful_relationships(ent, sent)`. */
  function Relationships(eq: SpanTokenEq, ent: Span, sent: Sentence): seq<Relationship>
    requires Fits(ent, sent)
  {
    Somes(PerToken(eq, ent, sent))
  }

  /** `extract_meaningful_relationships`: one pass over the tokens of the sentence. */
  method ExtractMeaningfulRelationships(eq: SpanTokenEq, ent: Span, sent: Sentence)
    returns (relationships: seq<Relationship>)
    requires Fits(ent, sent)
    ensures relationships == Relationships(eq, ent, sent)
    ensures |relationships| <= |sent.tokens|
  {
    relationships := [];
    var tokens := sent.tokens;
    var i := 0;
    while i < |tokens|
      invariant i <= |tokens|
      invariant relationships == Somes(PerToken(eq, ent, sent)[..i])
    {
      ghost var before := relationships;
      if DirectlyConnected(eq, ent, tokens, i) {
        if Meaningful(tokens[i]) {
          var relatedPhrase := SubtreePhrase(tokens, i);
          relationships := relationships + [Relationship(relatedPhrase, RelatedTo(ent, tokens, i))];
        }
      } else if SpanInSubtree(eq, ent, tokens, i) {
        var pathToEntity := PathPhrase(eq, ent, tokens, i);
        relationships := relationships + [Relationship(pathToEntity, RelatedTo(ent, tokens, i))];
      }
      assert relationships == before + OptionToSeq(TokenRelationship(eq, ent, sent, i));
      assert PerToken(eq, ent, sent)[..i + 1][..i] == PerToken(eq, ent, sent)[..i];
      i := i + 1;
    }
    assert PerToken(eq, ent, sent)[..i] == PerToken(eq, ent, sent);
  }

  /**
   * The relationships are those of the tokens that emit one, one each and in
   * sentence order, and each is related to the head of its token.
   */
  lemma RelationshipsPerToken(eq: SpanTokenEq, ent: Span, sent: Sentence)
    requires Fits(ent, sent)
    ensures |Relationships(eq, ent, sent)| == |Emitters(eq, ent, sent)|
    ensures forall a, b :: 0 <= a < b < |Emitters(eq, ent, sent)| ==>
      Emitters(eq, ent, sent)[a] < Emitters(eq, ent, sent)[b]
    ensures forall k :: 0 <= k < |Emitters(eq, ent, sent)| ==>
      && Emitters(eq, ent, sent)[k] < |sent.tokens|
      && TokenRelationship(eq, ent, sent, Emitters(eq, ent, sent)[k]) == Some(Relationships(eq, ent, sent)[k])
      && Relationships(eq, ent, sent)[k].relatedTo ==
         sent.tokens[sent.tokens[Emitters(eq, ent, sent)[k]].head].text
    ensures forall i :: 0 <= i < |sent.tokens| && TokenRelationship(eq, ent, sent, i).Some? ==>
      i in Emitters(eq, ent, sent)
  {
    SomesAtIndices(PerToken(eq, ent, sent));
  }

  /**
   * A directly connected token that is punctuation, a case marker, whitespace
   * or a determiner emits nothing, even when the span lies in its subtree.
   */
  lemma ExcludedConnectedEmitsNothing(eq: SpanTokenEq, ent: Span, sent: Sentence, i: nat)
    requires Fits(ent, sent) && i < |sent.tokens|
    requires DirectlyConnected(eq, ent, sent.tokens, i) && !Meaningful(sent.tokens[i])
    ensures TokenRelationship(eq, ent, sent, i) == None
  {
  }

  /**
   * A meaningful directly connected token emits a phrase that contains its own
   * text, because a token's subtree contains the token.
   */
  lemma ConnectedPhraseHasToken(eq: SpanTokenEq, ent: Span, sent: Sentence, i: nat)
    requires Fits(ent, sent) && i < |sent.tokens|
    requires DirectlyConnected(eq, ent, sent.tokens, i) && Meaningful(sent.tokens[i])
    ensures TokenRelationship(eq, ent, sent, i).Some?
    ensures IsInfix(sent.tokens[i].text, TokenRelationship(eq, ent, sent, i).value.relatedWord)
  {
    var sub := Subtree(sent.tokens, i);
    var k :| 0 <= k < |sub| && sub[k] == i;
    JoinHasWord(Texts(sent.tokens, sub), k);
  }

  /**
   * With the span never equal to a token, as happens when a span object is
   * compared with a token object, exactly the meaningful tokens next to the
   * root emit: the `elif` branch never fires.
   */
  lemma OnlyNeighboursEmit(eq: SpanTokenEq, ent: Span, sent: Sentence, i: nat)
    requires Fits(ent, sent) && i < |sent.tokens|
    requires forall e, j :: !eq(e, j)
    ensures TokenRelationship(eq, ent, sent, i).Some? <==>
      (sent.tokens[i].head == ent.root || sent.tokens[ent.root].head == i) && Meaningful(sent.tokens[i])
  {
    NeverEqual(eq, ent, Subtree(sent.tokens, i));
  }

  /** A span that equals no token is in no list of tokens. */
  lemma {:induction false} NeverEqual(eq: SpanTokenEq, ent: Span, idxs: seq<nat>)
    requires forall j :: !eq(ent, j)
    ensures !AnyEqual(eq, ent, idxs)
  {
    if |idxs| > 0 {
      NeverEqual(eq, ent, idxs[1..]);
    }
  }
}
