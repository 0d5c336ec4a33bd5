/**
 * The output of the language engine, as the pipeline reads it: sentences of
 * tokens with dependency heads, and entity spans. The engine itself is not
 * part of this model.
 */
module Nlp {

  /** A token: its text, dependency label (`dep_`), part of speech (`pos_`)
      and the index of its head within the same sentence. */
  datatype Token = Token(text: string, dep: string, pos: string, head: nat)

  /** A sentence: its source text (`sent.text`) and its tokens in order. */
  datatype Sentence = Sentence(text: string, tokens: seq<Token>)

  /** An entity span: surface text, label (`label_`, here `entityType`), the index of its sentence and the
      index of its root token within that sentence. */
  datatype Span = Span(text: string, entityType: string, sent: nat, root: nat)

  /** A parsed document: its sentences and its entity spans in document order. */
  datatype Doc = Doc(sentences: seq<Sentence>, ents: seq<Span>)

  /** Every head link stays inside the sentence. */
  predicate HeadsInRange(tokens: seq<Token>) {
    forall i :: 0 <= i < |tokens| ==> tokens[i].head < |tokens|
  }

  /** A span belongs to one sentence of the document and its root is a token there. */
  predicate SpanIn(doc: Doc, e: Span) {
    e.sent < |doc.sentences| && e.root < |doc.sentences[e.sent].tokens|
  }

  predicate WellFormed(doc: Doc) {
    && (forall s :: s in doc.sentences ==> HeadsInRange(s.tokens))
    && (forall e :: e in doc.ents ==> SpanIn(doc, e))
  }

  /** Following head links from token `j` reaches token `i` in at most `fuel` steps. */
  predicate Reaches(tokens: seq<Token>, j: nat, i: nat, fuel: nat)
    requires HeadsInRange(tokens) && j < |tokens|
    decreases fuel
  {
    j == i || (fuel > 0 && Reaches(tokens, tokens[j].head, i, fuel - 1))
  }

  /** Token `j` is in the subtree of token `i`: its head chain reaches `i`.
      A chain that reaches `i` at all does so within as many steps as there are tokens. */
  predicate InSubtree(tokens: seq<Token>, i: nat, j: nat)
    requires HeadsInRange(tokens) && j < |tokens|
  {
    Reaches(tokens, j, i, |tokens|)
  }

  /** The indices of `token.subtree` from position `from` on, in sentence order. */
  function SubtreeFrom(tokens: seq<Token>, i: nat, from: nat): (r: seq<nat>)
    requires HeadsInRange(tokens) && from <= |tokens|
    ensures forall k :: 0 <= k < |r| ==> from <= r[k] < |tokens|
    decreases |tokens| - from
  {
    if from == |tokens| then []
    else (if InSubtree(tokens, i, from) then [from] else []) + SubtreeFrom(tokens, i, from + 1)
  }

  /** `SubtreeFrom` lists its tokens in sentence order. */
  lemma {:induction false} SubtreeFromSorted(tokens: seq<Token>, i: nat, from: nat)
    requires HeadsInRange(tokens) && from <= |tokens|
    ensures forall a, b :: 0 <= a < b < |SubtreeFrom(tokens, i, from)| ==>
      SubtreeFrom(tokens, i, from)[a] < SubtreeFrom(tokens, i, from)[b]
    decreases |tokens| - from
  {
    if from < |tokens| {
      SubtreeFromSorted(tokens, i, from + 1);
    }
  }

  /** `SubtreeFrom` holds exactly the tokens from `from` on whose head chain reaches `i`. */
  lemma {:induction false} SubtreeFromMembers(tokens: seq<Token>, i: nat, from: nat)
    requires HeadsInRange(tokens) && from <= |tokens|
    ensures forall j: nat :: j in SubtreeFrom(tokens, i, from) <==> from <= j < |tokens| && InSubtree(tokens, i, j)
    decreases |tokens| - from
  {
    if from < |tokens| {
      SubtreeFromMembers(tokens, i, from + 1);
    }
  }

  /** `token.subtree` of token `i`, as indices in sentence order; it includes `i` itself. */
  function Subtree(tokens: seq<Token>, i: nat): (r: seq<nat>)
    requires HeadsInRange(tokens) && i < |tokens|
    ensures i in r
    ensures forall k :: 0 <= k < |r| ==> r[k] < |tokens|
  {
    SubtreeFromMembers(tokens, i, 0);
    assert InSubtree(tokens, i, i);
    SubtreeFrom(tokens, i, 0)
  }

  /**
   * The subtree of `i` holds exactly the tokens whose head chain reaches `i`,
   * in sentence order.
   */
  lemma SubtreeMembers(tokens: seq<Token>, i: nat)
    requires HeadsInRange(tokens) && i < |tokens|
    ensures forall j: nat :: j in Subtree(tokens, i) <==> j < |tokens| && InSubtree(tokens, i, j)
    ensures forall a, b :: 0 <= a < b < |Subtree(tokens, i)| ==> Subtree(tokens, i)[a] < Subtree(tokens, i)[b]
  {
    SubtreeFromMembers(tokens, i, 0);
    SubtreeFromSorted(tokens, i, 0);
  }

  /** The texts of the tokens at `idxs`. */
  function Texts(tokens: seq<Token>, idxs: seq<nat>): (r: seq<string>)
    requires forall k :: 0 <= k < |idxs| ==> idxs[k] < |tokens|
    ensures |r| == |idxs|
    ensures forall k :: 0 <= k < |idxs| ==> r[k] == tokens[idxs[k]].text
  {
    seq(|idxs|, k requires 0 <= k < |idxs| => tokens[idxs[k]].text)
  }
}
