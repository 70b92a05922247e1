/**
 * read_documents of build_embeddings.py over an in-memory directory listing:
 * the entries of content/ in sorted path order, kept when they are regular
 * files with suffix .txt or .md (any letter case) and non-blank content.
 */
module Loader {
  import opened Text
  import opened Sorting
  import opened Entries

  /** One entry of the content directory, as Path.glob("*") lists it. */
  datatype DirEntry = DirEntry(name: string, isFile: bool, content: string)

  const ContentDir: string := "content"

  /** str.rfind('.'): the last position of a dot, or -1. */
  function LastDot(name: string): (i: int)
    ensures -1 <= i < |name|
    ensures i >= 0 ==> name[i] == '.'
    ensures forall k :: i < k < |name| ==> name[k] != '.'
    decreases |name|
  {
    if name == [] then -1
    else if name[|name| - 1] == '.' then |name| - 1
    else LastDot(name[..|name| - 1])
  }

  /** pathlib's rule: a dot that is neither the first nor the last character starts the suffix. */
  predicate HasSuffixDot(name: string) {
    0 < LastDot(name) < |name| - 1
  }

  /** PurePath.suffix */
  function Suffix(name: string): (s: string)
    ensures s != "" <==> HasSuffixDot(name)
    ensures s != "" ==> s[0] == '.' && |s| >= 2 && forall k :: 0 < k < |s| ==> s[k] != '.'
  {
    if HasSuffixDot(name) then name[LastDot(name)..] else ""
  }

  /** PurePath.stem */
  function Stem(name: string): (t: string)
    ensures t + Suffix(name) == name
    ensures name != "" ==> t != ""
  {
    if HasSuffixDot(name) then name[..LastDot(name)] else name
  }

  /** path.suffix.lower() in {".txt", ".md"} */
  predicate HasTextSuffix(name: string) {
    var suffix := Lower(Suffix(name));
    suffix == ".txt" || suffix == ".md"
  }

  /** The entries read_documents turns into documents. */
  predicate Eligible(e: DirEntry)
    ensures Eligible(e) ==> exists k :: 0 <= k < |e.content| && !IsPySpace(e.content[k])
  {
    e.isFile && HasTextSuffix(e.name) && Trim(e.content, IsPySpace) != ""
  }

  /** The document of an eligible entry: id is the stem, source str(path), text the stripped content. */
  function ToDocument(e: DirEntry): (d: Document)
    ensures d.id + Suffix(e.name) == e.name
    ensures d.source == ContentDir + "/" + e.name
    ensures d.text == [] || (!IsPySpace(d.text[0]) && !IsPySpace(d.text[|d.text| - 1]))
  {
    Document(Stem(e.name), ContentDir + "/" + e.name, Trim(e.content, IsPySpace))
  }

  /** Paths in one directory compare as their names do; sorted() keeps x first unless y < x. */
  predicate NameKeep(x: DirEntry, y: DirEntry) {
    !StrLt(y.name, x.name)
  }

  predicate NameLt(x: DirEntry, y: DirEntry) {
    StrLt(x.name, y.name)
  }

  /** The documents of the eligible entries of s, in the order of s. */
  function Listed(s: seq<DirEntry>): seq<Document> {
    if s == [] then []
    else Listed(s[..|s| - 1]) + (if Eligible(s[|s| - 1]) then [ToDocument(s[|s| - 1])] else [])
  }

  /** What read_documents returns for a listing. */
  function LoadedDocuments(listing: seq<DirEntry>): seq<Document> {
    Listed(SortBy(listing, NameKeep))
  }

  /** A directory holds each name once. */
  ghost predicate DistinctNames(listing: seq<DirEntry>) {
    forall i, j :: 0 <= i < j < |listing| ==> listing[i].name != listing[j].name
  }

  ghost predicate SourcesIncreasing(docs: seq<Document>) {
    forall i, j :: 0 <= i < j < |docs| ==> StrLt(docs[i].source, docs[j].source)
  }

  /** read_documents: walk the sorted listing and append a document per eligible entry. */
  method ReadDocuments(listing: seq<DirEntry>) returns (docs: seq<Document>)
    requires DistinctNames(listing)
    ensures docs == LoadedDocuments(listing)
    ensures SourcesIncreasing(docs)
    ensures forall d :: d in docs <==> exists e :: e in listing && Eligible(e) && d == ToDocument(e)
    ensures forall d :: d in docs ==> d.text != "" && Words(d.text) != []
  {
    var sorted := SortBy(listing, NameKeep);
    docs := [];
    for i := 0 to |sorted|
      invariant docs == Listed(sorted[..i])
    {
      var path := sorted[i];
      assert sorted[..i + 1][..i] == sorted[..i];
      if path.isFile && HasTextSuffix(path.name) {
        var text := Trim(path.content, IsPySpace);
        if text == "" {
          continue;
        }
        docs := docs + [Document(Stem(path.name), ContentDir + "/" + path.name, text)];
      }
    }
    assert sorted[..|sorted|] == sorted;
    LoadedDocumentsProperties(listing);
  }

  /** A document of Listed(s) comes from an eligible entry of s, and every eligible entry gives one. */
  lemma {:induction false} ListedMembers(s: seq<DirEntry>)
    ensures forall d :: d in Listed(s) <==> exists e :: e in s && Eligible(e) && d == ToDocument(e)
  {
    if s != [] {
      var init := s[..|s| - 1];
      ListedMembers(init);
      assert s == init + [s[|s| - 1]];
      assert forall e :: e in s <==> e in init || e == s[|s| - 1];
    }
  }

  /** Documents listed from entries named before `last` have sources before last's. */
  lemma {:induction false} ListedBefore(init: seq<DirEntry>, last: DirEntry)
    requires forall k :: 0 <= k < |init| ==> StrLt(init[k].name, last.name)
    ensures forall d :: d in Listed(init) ==> StrLt(d.source, ToDocument(last).source)
  {
    ListedMembers(init);
    forall d | d in Listed(init) ensures StrLt(d.source, ToDocument(last).source) {
      var e :| e in init && Eligible(e) && d == ToDocument(e);
      var k :| 0 <= k < |init| && init[k] == e;
      StrLtCommonPrefix(ContentDir + "/", e.name, last.name);
    }
  }

  /** Listing a name-sorted sequence gives documents in increasing source order. */
  lemma {:induction false} ListedSorted(s: seq<DirEntry>)
    requires StrictlySorted(s, NameLt)
    ensures SourcesIncreasing(Listed(s))
  {
    if s != [] {
      var init := s[..|s| - 1];
      var last := s[|s| - 1];
      assert StrictlySorted(init, NameLt);
      ListedSorted(init);
      if Eligible(last) {
        assert forall k :: 0 <= k < |init| ==> NameLt(s[k], last);
        ListedBefore(init, last);
        IncreasingSnoc(Listed(init), ToDocument(last));
      }
    }
  }

  /** A document whose source follows all others extends an increasing sequence. */
  lemma {:induction false} IncreasingSnoc(prev: seq<Document>, d: Document)
    requires SourcesIncreasing(prev)
    requires forall x :: x in prev ==> StrLt(x.source, d.source)
    ensures SourcesIncreasing(prev + [d])
  {
    var docs := prev + [d];
    forall i, j | 0 <= i < j < |docs| ensures StrLt(docs[i].source, docs[j].source) {
      if j == |prev| {
        assert docs[i] in prev;
      } else {
        assert docs[i] == prev[i] && docs[j] == prev[j];
      }
    }
  }

  lemma {:induction false} NameLtTransitive()
    ensures Transitive(NameLt)
  {
    forall a, b, c | NameLt(a, b) && NameLt(b, c) ensures NameLt(a, c) {
      StrLtTransitive(a.name, b.name, c.name);
    }
  }

  /**
   * read_documents in its callers' terms: sorted by path, and exactly the
   * documents of the eligible entries, each with non-blank stripped text.
   */
  lemma {:induction false} LoadedDocumentsProperties(listing: seq<DirEntry>)
    requires DistinctNames(listing)
    ensures SourcesIncreasing(LoadedDocuments(listing))
    ensures forall d :: d in LoadedDocuments(listing) <==> exists e :: e in listing && Eligible(e) && d == ToDocument(e)
    ensures forall d :: d in LoadedDocuments(listing) ==> d.text != "" && Words(d.text) != []
  {
    NameLtTransitive();
    assert Compatible(listing, NameKeep, NameLt) by {
      forall i, j | 0 <= i < j < |listing|
        ensures (NameKeep(listing[i], listing[j]) <==> NameLt(listing[i], listing[j]))
             && (NameLt(listing[i], listing[j]) || NameLt(listing[j], listing[i]))
      {
        StrLtTrichotomy(listing[i].name, listing[j].name);
        StrLtTrichotomy(listing[j].name, listing[i].name);
      }
    }
    SortByStrictlySorted(listing, NameKeep, NameLt);
    var sorted := SortBy(listing, NameKeep);
    ListedSorted(sorted);
    ListedMembers(sorted);
    assert forall e :: e in sorted <==> e in listing by {
      forall e ensures e in sorted <==> e in listing {
        assert e in sorted <==> e in multiset(sorted);
        assert e in listing <==> e in multiset(listing);
      }
    }
    forall d | d in LoadedDocuments(listing) ensures d.text != "" && Words(d.text) != [] {
      var e :| e in sorted && Eligible(e) && d == ToDocument(e);
      assert !IsPySpace(d.text[0]);
    }
  }

  /** The dot before a dot-free tail is the last dot. */
  lemma {:induction false} LastDotBeforeTail(base: string, tail: string)
    requires forall k :: 0 <= k < |tail| ==> tail[k] != '.'
    ensures LastDot(base + "." + tail) == |base|
  {
    var name := base + "." + tail;
    assert name[|base|] == '.';
    assert forall k :: |base| < k < |name| ==> name[k] == tail[k - |base| - 1];
  }

  /** A regular file base.md or base.txt with non-blank content is loaded, and its stem is base. */
  lemma {:induction false} TextFileStem(base: string, ext: string, content: string)
    requires base != []
    requires ext == "md" || ext == "txt"
    requires Trim(content, IsPySpace) != ""
    ensures var e := DirEntry(base + "." + ext, true, content);
      Eligible(e) && ToDocument(e).id == base
  {
    var name := base + "." + ext;
    LastDotBeforeTail(base, ext);
    assert name[|base|..] == "." + ext;
    assert name[..|base|] == base;
    assert Lower(".md") == ".md" && Lower(".txt") == ".txt";
  }

  /**
   * Two files that differ only in suffix, such as a.md and a.txt, are both
   * loaded and get the same document id, so their entry ids coincide.
   */
  lemma {:induction false} StemsCanCollide(base: string, c1: string, c2: string)
    requires base != []
    requires Trim(c1, IsPySpace) != "" && Trim(c2, IsPySpace) != ""
    ensures var md, txt := DirEntry(base + ".md", true, c1), DirEntry(base + ".txt", true, c2);
      md.name != txt.name && Eligible(md) && Eligible(txt) && ToDocument(md).id == ToDocument(txt).id == base
  {
    assert base + ".md" == base + "." + "md";
    assert base + ".txt" == base + "." + "txt";
    TextFileStem(base, "md", c1);
    TextFileStem(base, "txt", c2);
  }

  /** a.b.md keeps its inner dot in the stem, and surrounding blanks do not stop a file from loading. */
  lemma {:induction false} DottedStemExample()
    ensures var e := DirEntry("a.b.md", true, "  x\n");
      Eligible(e) && ToDocument(e).id == "a.b" && ToDocument(e).text == "x"
  {
    TextFileStem("a.b", "md", "  x\n");
    assert "a.b.md" == "a.b" + "." + "md";
  }

  /** A dot file such as ".md" has no suffix and is skipped. */
  lemma {:induction false} DotFileSkipped(content: string)
    ensures !Eligible(DirEntry(".md", true, content))
  {
  }
}
