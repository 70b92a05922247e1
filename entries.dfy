/**
 * build_entries of build_embeddings.py: every document's chunks, in document
 * order and then chunk order, as records with ids "{doc_id}-{chunk_index}".
 */
module Entries {
  import opened Text
  import opened Chunker

  /** A loaded document: id is the file stem, source the path, text the stripped content. */
  datatype Document = Document(id: string, source: string, text: string)

  datatype ChunkEntry = ChunkEntry(id: string, source: string, chunkIndex: nat, text: string)

  /** f"{doc_id}-{idx}" */
  function EntryId(docId: string, idx: nat): (id: string)
    ensures |id| > |docId| + 1 && id[..|docId|] == docId && id[|docId|] == '-'
    ensures id[|docId| + 1..] == NatToString(idx)
  {
    docId + "-" + NatToString(idx)
  }

  /** The entry for chunk idx of document d. */
  function MakeEntry(d: Document, idx: nat, chunk: string): ChunkEntry {
    ChunkEntry(EntryId(d.id, idx), d.source, idx, chunk)
  }

  /** The entries of one document, numbered from 0. */
  function DocEntries(d: Document): seq<ChunkEntry> {
    var cs := Chunks(d.text);
    seq(|cs|, i requires 0 <= i < |cs| => MakeEntry(d, i, cs[i]))
  }

  /** The entries of all documents, one document after another. */
  function AllEntries(docs: seq<Document>): seq<ChunkEntry> {
    if docs == [] then [] else AllEntries(docs[..|docs| - 1]) + DocEntries(docs[|docs| - 1])
  }

  /** The number of chunks of the documents. */
  function TotalChunks(docs: seq<Document>): nat {
    if docs == [] then 0 else TotalChunks(docs[..|docs| - 1]) + |Chunks(docs[|docs| - 1].text)|
  }

  /** build_entries: for each document, for each chunk, append its entry. */
  method BuildEntries(docs: seq<Document>) returns (entries: seq<ChunkEntry>)
    ensures entries == AllEntries(docs)
    ensures |entries| == TotalChunks(docs)
  {
    entries := [];
    for i := 0 to |docs|
      invariant entries == AllEntries(docs[..i])
    {
      var doc := docs[i];
      var chunks := ChunkText(doc.text);
      ghost var before := entries;
      for idx := 0 to |chunks|
        invariant entries == before + DocEntries(doc)[..idx]
      {
        DocEntriesSnoc(doc, idx);
        entries := entries + [MakeEntry(doc, idx, chunks[idx])];
      }
      AllEntriesSnoc(docs, i);
    }
    assert docs[..|docs|] == docs;
    AllEntriesLength(docs);
  }

  /** The entries of document d up to chunk idx, one chunk at a time. */
  lemma {:induction false} DocEntriesSnoc(d: Document, idx: nat)
    requires idx < |Chunks(d.text)|
    ensures DocEntries(d)[..idx + 1] == DocEntries(d)[..idx] + [MakeEntry(d, idx, Chunks(d.text)[idx])]
  {
  }

  /** The entries of the first i + 1 documents, one document at a time. */
  lemma {:induction false} AllEntriesSnoc(docs: seq<Document>, i: nat)
    requires i < |docs|
    ensures AllEntries(docs[..i + 1]) == AllEntries(docs[..i]) + DocEntries(docs[i])[..|Chunks(docs[i].text)|]
  {
    assert docs[..i + 1][..i] == docs[..i];
    assert DocEntries(docs[i])[..|Chunks(docs[i].text)|] == DocEntries(docs[i]);
  }

  /** There is one entry per chunk. */
  lemma {:induction false} AllEntriesLength(docs: seq<Document>)
    ensures |AllEntries(docs)| == TotalChunks(docs)
  {
    if docs != [] {
      AllEntriesLength(docs[..|docs| - 1]);
    }
  }

  /** Where document i's entries begin: the chunk count of the documents before it. */
  function Offset(docs: seq<Document>, i: nat): nat
    requires i <= |docs|
  {
    TotalChunks(docs[..i])
  }

  /**
   * Entry number Offset(docs, i) + k is chunk k of document i: the order is
   * document order, then chunk order, the index restarts at 0 for each
   * document, the id is "{doc_id}-{k}" and source and text are copied.
   */
  lemma {:induction false} EntryAt(docs: seq<Document>, i: nat, k: nat)
    requires i < |docs| && k < |Chunks(docs[i].text)|
    ensures Offset(docs, i) + k < |AllEntries(docs)|
    ensures AllEntries(docs)[Offset(docs, i) + k] == MakeEntry(docs[i], k, Chunks(docs[i].text)[k])
  {
    var init := docs[..|docs| - 1];
    var before, last := AllEntries(init), DocEntries(docs[|docs| - 1]);
    assert AllEntries(docs) == before + last;
    if i == |docs| - 1 {
      assert docs[..i] == init;
      AllEntriesLength(init);
      assert (before + last)[|before| + k] == last[k];
    } else {
      assert init[i] == docs[i];
      assert init[..i] == docs[..i];
      EntryAt(init, i, k);
      assert (before + last)[Offset(docs, i) + k] == before[Offset(docs, i) + k];
    }
  }

  /** Every entry is chunk k of some document i: it sits at Offset(docs, i) + k. */
  lemma {:induction false} EntryOrigin(docs: seq<Document>, p: nat) returns (i: nat, k: nat)
    requires p < |AllEntries(docs)|
    ensures i < |docs| && k < |Chunks(docs[i].text)|
    ensures p == Offset(docs, i) + k
    ensures AllEntries(docs)[p] == MakeEntry(docs[i], k, Chunks(docs[i].text)[k])
  {
    var init := docs[..|docs| - 1];
    AllEntriesLength(init);
    if p < |AllEntries(init)| {
      i, k := EntryOrigin(init, p);
      assert init[i] == docs[i];
      assert init[..i] == docs[..i];
    } else {
      i, k := |docs| - 1, p - |AllEntries(init)|;
      assert docs[..i] == init;
    }
  }

  /** An entry id determines the document id and the chunk index. */
  lemma {:induction false} EntryIdInjective(d1: string, i1: nat, d2: string, i2: nat)
    requires EntryId(d1, i1) == EntryId(d2, i2)
    ensures d1 == d2 && i1 == i2
  {
    var s := EntryId(d1, i1);
    var n1, n2 := NatToString(i1), NatToString(i2);
    assert s[|s| - |n1| - 1] == '-' && s[|s| - |n2| - 1] == '-';
    assert n1 == s[|s| - |n1|..] == n2;
    NatToStringInjective(i1, i2);
    assert d1 == s[..|d1|] == d2;
  }

  /** With distinct document ids, all entry ids are distinct. */
  lemma {:induction false} EntryIdsUnique(docs: seq<Document>)
    requires forall a, b :: 0 <= a < b < |docs| ==> docs[a].id != docs[b].id
    ensures forall p, q :: 0 <= p < q < |AllEntries(docs)| ==> AllEntries(docs)[p].id != AllEntries(docs)[q].id
  {
    var es := AllEntries(docs);
    forall p, q | 0 <= p < q < |es| ensures es[p].id != es[q].id {
      var i1, k1 := EntryOrigin(docs, p);
      var i2, k2 := EntryOrigin(docs, q);
      if es[p].id == es[q].id {
        EntryIdInjective(docs[i1].id, k1, docs[i2].id, k2);
      }
    }
  }
}
