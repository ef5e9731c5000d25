/**
 * Spring AI documents as the Orchestrator builds them, the vector store they
 * are indexed in, and `removeOldDocuments`, which drops the earlier version
 * of a file's documents before its new chunks are added.
 */
module Documents {
  import opened Wrappers

  /** A metadata value: a string, or any other object (a date, a number). */
  datatype Meta = Str(s: string) | OtherValue

  datatype Document = Document(text: string, metadata: map<string, Meta>)

  const KeySource := "source"
  const KeyTitle := "title"
  const KeyType := "type"
  const TypeMarkdown := "markdown"
  const TypeUnstructured := "unstructured"

  /** The filter `source == name` matches the document. */
  predicate HasSource(d: Document, name: string) {
    KeySource in d.metadata && d.metadata[KeySource] == Str(name)
  }

  /** The store after `delete(eq("source", name))`: every other document, in order. */
  function Without(docs: seq<Document>, name: string): (r: seq<Document>)
    ensures |r| <= |docs|
  {
    if docs == [] then []
    else if HasSource(docs[0], name) then Without(docs[1..], name)
    else [docs[0]] + Without(docs[1..], name)
  }

  /** The delete keeps exactly the documents of other sources. */
  lemma {:induction false} WithoutMeans(docs: seq<Document>, name: string)
    ensures forall d :: d in Without(docs, name) <==> d in docs && !HasSource(d, name)
  {
    if docs != [] {
      WithoutMeans(docs[1..], name);
      assert docs == [docs[0]] + docs[1..];
    }
  }

  /** Deleting by a source twice is deleting once, and a store without that source is left as it is. */
  lemma {:induction false} WithoutIdempotent(docs: seq<Document>, name: string)
    ensures Without(Without(docs, name), name) == Without(docs, name)
    ensures (forall i :: 0 <= i < |docs| ==> !HasSource(docs[i], name)) ==> Without(docs, name) == docs
  {
    if docs != [] {
      WithoutIdempotent(docs[1..], name);
      if !HasSource(docs[0], name) {
        assert Without(docs, name) == [docs[0]] + Without(docs[1..], name);
        assert Without(docs, name)[1..] == Without(docs[1..], name);
      }
      if forall i :: 0 <= i < |docs| ==> !HasSource(docs[i], name) {
        assert forall i :: 0 <= i < |docs[1..]| ==> docs[1..][i] == docs[i + 1];
        assert docs == [docs[0]] + docs[1..];
      }
    }
  }

  lemma {:induction false} WithoutAppend(a: seq<Document>, b: seq<Document>, name: string)
    ensures Without(a + b, name) == Without(a, name) + Without(b, name)
    decreases |a|
  {
    if a == [] {
      assert a + b == b;
    } else {
      WithoutAppend(a[1..], b, name);
      assert (a + b)[0] == a[0] && (a + b)[1..] == a[1..] + b;
      if !HasSource(a[0], name) {
        assert [a[0]] + (Without(a[1..], name) + Without(b, name)) == ([a[0]] + Without(a[1..], name)) + Without(b, name);
      }
    }
  }

  /** The vector store: its documents in insertion order, and the source filters deleted so far. */
  class VectorStore {
    var docs: seq<Document>
    var deletedSources: seq<string>

    constructor (initial: seq<Document>)
      ensures docs == initial && deletedSources == []
    {
      docs := initial;
      deletedSources := [];
    }

    /** `delete(Filter.Expression)` for `source == name`. */
    method DeleteBySource(name: string)
      modifies this
      ensures docs == Without(old(docs), name)
      ensures deletedSources == old(deletedSources) + [name]
    {
      docs := Without(docs, name);
      deletedSources := deletedSources + [name];
    }

    /** `add(List.of(doc))`. */
    method Add(d: Document)
      modifies this
      ensures docs == old(docs) + [d] && deletedSources == old(deletedSources)
    {
      docs := docs + [d];
    }
  }

  /** The source `removeOldDocuments` deletes by: the first document's `source`, when it is a string. */
  function SourceToRemove(documents: Option<seq<Document>>): (r: Option<string>)
    ensures r.Some? <==>
      documents.Some? && documents.value != [] &&
      KeySource in documents.value[0].metadata && documents.value[0].metadata[KeySource].Str?
    ensures r.Some? ==> HasSource(documents.value[0], r.value)
  {
    match documents
    case None => None
    case Some(ds) =>
      if ds == [] then None
      else if KeySource in ds[0].metadata && ds[0].metadata[KeySource].Str? then Some(ds[0].metadata[KeySource].s)
      else None
  }

  /**
   * `DocumentService.removeOldDocuments`: nothing for a null or empty list or
   * a first document without a string source; otherwise exactly one delete,
   * by the first document's source, whatever the sources of the others.
   */
  method RemoveOldDocuments(documents: Option<seq<Document>>, store: VectorStore)
    modifies store
    ensures match SourceToRemove(documents)
      case None => store.docs == old(store.docs) && store.deletedSources == old(store.deletedSources)
      case Some(name) =>
        store.docs == Without(old(store.docs), name) && store.deletedSources == old(store.deletedSources) + [name]
  {
    if documents.None? || documents.value == [] {
      return;
    }
    var first := documents.value[0];
    if KeySource in first.metadata && first.metadata[KeySource].Str? {
      var filename := first.metadata[KeySource].s;
      store.DeleteBySource(filename);
    }
  }

  /** The `ClassCastException` of casting a non-string `source` to `String`. */
  datatype CastError = ClassCastException

  /**
   * The older pipeline's `removeOldDocuments`: the list is never null;
   * nothing for an empty list or a missing source; a source that is not a
   * string fails the cast; otherwise one delete by the first document's source.
   */
  method LegacyRemoveOldDocuments(documents: seq<Document>, store: VectorStore) returns (r: Result<(), CastError>)
    modifies store
    ensures r.Failure? <==> documents != [] && KeySource in documents[0].metadata && documents[0].metadata[KeySource].OtherValue?
    ensures match SourceToRemove(Some(documents))
      case None => store.docs == old(store.docs) && store.deletedSources == old(store.deletedSources)
      case Some(name) =>
        store.docs == Without(old(store.docs), name) && store.deletedSources == old(store.deletedSources) + [name]
  {
    if documents == [] {
      return Success(());
    }
    var meta := documents[0].metadata;
    if KeySource !in meta {
      return Success(());
    }
    match meta[KeySource]
    case OtherValue =>
      return Failure(ClassCastException);
    case Str(source) =>
      store.DeleteBySource(source);
      return Success(());
  }

  /** Every document carries the given source. */
  predicate AllFrom(docs: seq<Document>, name: string) {
    forall i :: 0 <= i < |docs| ==> HasSource(docs[i], name)
  }

  /**
   * The indexing flow after the transform: old documents of the source are
   * removed, then every chunk is added in order.
   */
  method IndexChunks(documents: seq<Document>, chunks: seq<Document>, store: VectorStore)
    modifies store
    ensures SourceToRemove(Some(documents)).None? ==> store.docs == old(store.docs) + chunks
    ensures SourceToRemove(Some(documents)).Some? ==>
      store.docs == Without(old(store.docs), SourceToRemove(Some(documents)).value) + chunks
  {
    RemoveOldDocuments(Some(documents), store);
    var i := 0;
    ghost var base := store.docs;
    while i < |chunks|
      invariant 0 <= i <= |chunks|
      invariant store.docs == base + chunks[..i]
    {
      store.Add(chunks[i]);
      assert chunks[..i + 1] == chunks[..i] + [chunks[i]];
      i := i + 1;
    }
    assert chunks[..|chunks|] == chunks;
  }

  /**
   * Re-indexing a file whose chunks all keep its source replaces the earlier
   * version: the store ends as the other sources' documents followed by the
   * new chunks, the same after one ingestion as after two.
   */
  lemma ReindexReplaces(store: seq<Document>, older: seq<Document>, newer: seq<Document>, name: string)
    requires AllFrom(older, name) && AllFrom(newer, name)
    ensures Without(Without(store, name) + older, name) + newer == Without(store, name) + newer
  {
    WithoutAppend(Without(store, name), older, name);
    WithoutIdempotent(store, name);
    AllFromVanishes(older, name);
  }

  lemma {:induction false} AllFromVanishes(docs: seq<Document>, name: string)
    requires AllFrom(docs, name)
    ensures Without(docs, name) == []
  {
    if docs != [] {
      AllFromVanishes(docs[1..], name);
    }
  }
}
