/** The protocol's index entries as documents of the inverted index: every protocol edit is a
    mutation of the plain store, and a complete, current publication holds exactly the live
    corpus. */
module CorpusSearch {
  import opened Prelude
  import opened InvertedIndex
  import opened SearchRanking
  import Controlplane
  import Protocol
  import ProtocolInvariant
  import ProtocolTheorems

  type Tokenizer = Controlplane.Text -> seq<Token>

  function DocOf(tokensOf: Tokenizer, text: Controlplane.Text): set<Token> {
    Accepted(tokensOf(text), {})
  }

  /** What the live chats say. */
  function CorpusDocs(src: Controlplane.Source, tokensOf: Tokenizer): map<Id, set<Token>> {
    map x | x in src.chats :: DocOf(tokensOf, src.chats[x].text)
  }

  function IndexDocs(ix: Protocol.Index, tokensOf: Tokenizer): map<Id, set<Token>> {
    map x | x in ix.chats :: DocOf(tokensOf, ix.chats[x].text)
  }

  /** The plain store holds the entries of a protocol index: their documents, stamps, etags. */
  ghost predicate Realises(p: Plain, ix: Protocol.Index, tokensOf: Tokenizer) {
    && p.docs == IndexDocs(ix, tokensOf) && p.meta.Keys == ix.chats.Keys
    && forall x | x in ix.chats :: p.meta[x].rev == ix.chats[x].rev && p.meta[x].etag == ix.chats[x].etag
  }

  /** An accepted update realises the protocol's put. */
  lemma PutRealised(
    p: Plain, ix: Protocol.Index, id: Id, e: Protocol.Entry, emb: Protocol.Emb, given: Entry, tokensOf: Tokenizer)
    requires Realises(p, ix, tokensOf) && Acceptable(p.meta, p.dims, id, given)
    requires given.rev == e.rev && given.etag == e.etag
    ensures Realises(Play(p, DoUpsert(id, given, tokensOf(e.text))), Protocol.Put(ix, id, e, emb), tokensOf)
  {
    var after := Protocol.Put(ix, id, e, emb);
    assert IndexDocs(after, tokensOf) == IndexDocs(ix, tokensOf)[id := DocOf(tokensOf, e.text)];
  }

  /** Removal realises the protocol's removal. */
  lemma WithoutRealised(p: Plain, ix: Protocol.Index, id: Id, tokensOf: Tokenizer)
    requires Realises(p, ix, tokensOf)
    ensures Realises(Play(p, DoRemove(id)), Protocol.Without(ix, id), tokensOf)
  {
    assert IndexDocs(Protocol.Without(ix, id), tokensOf) == IndexDocs(ix, tokensOf) - {id};
  }

  /** A repair or a key mark leaves documents, stamps and etags alone. */
  lemma MendRealised(p: Plain, ix: Protocol.Index, op: Op, embs: map<Id, Protocol.Emb>, tokensOf: Tokenizer)
    requires Realises(p, ix, tokensOf) && (op.DoRepair? || op.DoMark?)
    ensures Realises(Play(p, op), ix.(embs := embs), tokensOf)
  {
    assert Play(p, op).meta.Keys == p.meta.Keys;
  }

  /** A complete publication that is level with the source realises the corpus. */
  lemma CurrentRealisesCorpus(cfg: Protocol.Config, w: Protocol.World, p: Plain, tokensOf: Tokenizer)
    requires ProtocolInvariant.Sound(cfg) && ProtocolTheorems.Reachable(cfg, w)
    requires !w.pub.incomplete && w.pub.covered == w.src.Rev()
    requires Realises(p, ProtocolTheorems.PublishedIndex(w), tokensOf)
    ensures p.docs == CorpusDocs(w.src, tokensOf)
  {
    ProtocolTheorems.CurrentPublicationIsTheCorpus(cfg, w);
    SameDocs(ProtocolTheorems.PublishedIndex(w), w.src, tokensOf);
  }

  lemma SameDocs(ix: Protocol.Index, src: Controlplane.Source, tokensOf: Tokenizer)
    requires ix.chats.Keys == src.chats.Keys
    requires forall x | x in src.chats :: ix.chats[x].text == src.chats[x].text
    ensures IndexDocs(ix, tokensOf) == CorpusDocs(src, tokensOf)
  {
    assert IndexDocs(ix, tokensOf).Keys == CorpusDocs(src, tokensOf).Keys;
    forall x | x in src.chats
      ensures IndexDocs(ix, tokensOf)[x] == CorpusDocs(src, tokensOf)[x]
    {
      assert x in ix.chats.Keys;
    }
  }

  /** Without a query vector an answer depends on the documents alone. */
  lemma KeywordAnswer(p: Plain, other: Plain, q: Query, limit: int, r: seq<Hit>)
    requires q.width == 0 && p.docs == other.docs && IsAnswer(p, q, limit, r)
    ensures IsAnswer(other, q, limit, r)
  {
    assert SemHits(p.meta, q) == {} && SemHits(other.meta, q) == {};
  }
}
