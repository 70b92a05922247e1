/**
 * chunk_text of build_embeddings.py: a document's words cut into windows of
 * 600 words that start every 480 words, where a short window after the first
 * ends the chunking and a window that reaches the last word is the last one.
 */
module Chunker {
  import opened Text
  import opened Numeric

  const ChunkSize: nat := 600
  const ChunkOverlap: nat := 120
  const Step: nat := ChunkSize - ChunkOverlap
  /** CHUNK_SIZE * 0.4 is 240.0; a word count is below it exactly when it is below 240. */
  const MinTailWords: nat := 240

  /** First word of window k: k steps of ChunkSize - ChunkOverlap = 480 words. */
  function Start(k: nat): nat {
    480 * k
  }

  /** One past the last word of window k over n words. */
  function WindowEnd(n: nat, k: nat): nat {
    Min(n, Start(k) + ChunkSize)
  }

  /** The first window that reaches word n, for n beyond the first window. */
  function LastWindow(n: nat): nat
    requires n > ChunkSize
  {
    (n - ChunkSize + 479) / 480
  }

  /** The number of chunks of n words, in closed form. */
  function ChunkCount(n: nat): (c: nat)
    ensures n == 0 <==> c == 0
    ensures c > 0 ==> Start(c - 1) < n
  {
    if n == 0 then 0
    else if n <= ChunkSize then 1
    else
      var last := LastWindow(n);
      if n - Start(last) >= MinTailWords then last + 1 else last
  }

  /** Window k of the words: words[480k .. min(n, 480k + 600)]. */
  function Window(ws: seq<string>, k: nat): seq<string>
    requires Start(k) < |ws|
  {
    ws[Start(k)..WindowEnd(|ws|, k)]
  }

  /** The chunks of a text: window k joined by single spaces, for each k below ChunkCount. */
  function Chunks(text: string): (cs: seq<string>)
    ensures |cs| == ChunkCount(|Words(text)|)
    ensures cs == [] <==> Words(text) == []
  {
    var ws := Words(text);
    var c := ChunkCount(|ws|);
    seq(c, k requires 0 <= k < c => Join(Window(ws, k), " "))
  }

  /** Where LastWindow sits: windows before it stop short of word n, it and later ones reach it. */
  lemma {:induction false} LastWindowBounds(n: nat)
    requires n > ChunkSize
    ensures LastWindow(n) >= 1
    ensures Start(LastWindow(n) - 1) + ChunkSize < n <= Start(LastWindow(n)) + ChunkSize
    ensures n - Start(LastWindow(n)) > ChunkOverlap
  {
    var q := LastWindow(n);
    assert Step * q <= n - ChunkSize + Step - 1 < Step * q + Step;
  }

  /** Window j stops short of word n exactly when j comes before LastWindow(n). */
  lemma {:induction false} StopsShortIff(n: nat, j: nat)
    requires n > ChunkSize
    ensures WindowEnd(n, j) < n <==> j < LastWindow(n)
  {
    LastWindowBounds(n);
    var q := LastWindow(n);
    if j < q {
      assert Start(j) <= Start(q - 1);
    } else {
      assert Start(j) >= Start(q);
    }
  }

  /**
   * The loop's step: window k is reached (k is 0 or window k - 1 stops short),
   * and is kept, then k is below the count, and it is the last when it reaches n.
   */
  lemma {:induction false} KeptWindow(n: nat, k: nat)
    requires 0 < n && Start(k) < n
    requires k == 0 || WindowEnd(n, k - 1) < n
    requires k == 0 || WindowEnd(n, k) - Start(k) >= MinTailWords
    ensures k < ChunkCount(n)
    ensures WindowEnd(n, k) == n ==> ChunkCount(n) == k + 1
  {
    if n > ChunkSize {
      LastWindowBounds(n);
      if k > 0 { StopsShortIff(n, k - 1); }
      StopsShortIff(n, k);
    }
  }

  /** The loop's break on a short window: the count is the number of windows kept so far. */
  lemma {:induction false} DroppedWindow(n: nat, k: nat)
    requires 0 < k && Start(k) < n
    requires WindowEnd(n, k - 1) < n
    requires WindowEnd(n, k) - Start(k) < MinTailWords
    ensures ChunkCount(n) == k
  {
    StopsShortIff(n, k - 1);
    StopsShortIff(n, k);
    LastWindowBounds(n);
  }

  /** Each of chunks is the matching window of words, joined by single spaces. */
  ghost predicate JoinedWindows(words: seq<string>, chunks: seq<string>) {
    forall k :: 0 <= k < |chunks| ==> Start(k) < |words| && chunks[k] == Join(Window(words, k), " ")
  }

  lemma {:induction false} JoinedWindowsSnoc(words: seq<string>, chunks: seq<string>)
    requires JoinedWindows(words, chunks)
    requires Start(|chunks|) < |words|
    ensures JoinedWindows(words, chunks + [Join(Window(words, |chunks|), " ")])
  {
  }

  /** A sequence of ChunkCount joined windows is Chunks, and states each chunk's word range. */
  lemma {:induction false} ChunksByWindows(text: string, chunks: seq<string>)
    requires |chunks| == ChunkCount(|Words(text)|)
    requires JoinedWindows(Words(text), chunks)
    ensures chunks == Chunks(text)
    ensures forall k :: 0 <= k < |chunks| ==>
      chunks[k] == Join(Words(text)[Start(k)..Min(|Words(text)|, Start(k) + ChunkSize)], " ")
  {
  }

  /** chunk_text: the same loop over start offsets, with its two breaks. */
  method ChunkText(text: string) returns (chunks: seq<string>)
    ensures chunks == Chunks(text)
    ensures Words(text) == [] ==> chunks == []
    ensures |chunks| == ChunkCount(|Words(text)|)
    ensures forall k :: 0 <= k < |chunks| ==>
      chunks[k] == Join(Words(text)[Start(k)..Min(|Words(text)|, Start(k) + ChunkSize)], " ")
  {
    var words := Words(text);
    var n := |words|;
    chunks := [];
    if n == 0 {
      ChunksByWindows(text, chunks);
      return;
    }
    var start := 0;
    while start < n
      invariant start == Start(|chunks|) && start < n
      invariant |chunks| == 0 || WindowEnd(n, |chunks| - 1) < n
      invariant |chunks| <= ChunkCount(n)
      invariant JoinedWindows(words, chunks)
      decreases n - start
    {
      var end := Min(n, start + ChunkSize);
      var chunkWords := words[start..end];
      if |chunkWords| < MinTailWords && start != 0 {
        DroppedWindow(n, |chunks|);
        break;
      }
      KeptWindow(n, |chunks|);
      JoinedWindowsSnoc(words, chunks);
      assert chunkWords == Window(words, |chunks|);
      chunks := chunks + [Join(chunkWords, " ")];
      if end == n {
        break;
      }
      start := start + Step;
    }
    ChunksByWindows(text, chunks);
  }

  /** A text without words has no chunk. */
  lemma {:induction false} NoWordsNoChunks(text: string)
    requires forall k :: 0 <= k < |text| ==> IsPySpace(text[k])
    ensures Chunks(text) == []
  {
    WordsEmptyIff(text);
  }

  /** A text of 1 to 600 words is one chunk: all its words joined by single spaces. */
  lemma {:induction false} ShortTextOneChunk(text: string)
    requires 1 <= |Words(text)| <= ChunkSize
    ensures Chunks(text) == [Join(Words(text), " ")]
  {
    assert Window(Words(text), 0) == Words(text);
  }

  /** Chunk k splits back into window k, which holds 1 to 600 words, and 240 or more after the first. */
  lemma {:induction false} ChunkWords(text: string, k: nat)
    requires k < |Chunks(text)|
    ensures Words(Chunks(text)[k]) == Window(Words(text), k)
    ensures 1 <= |Words(Chunks(text)[k])| <= ChunkSize
    ensures k > 0 ==> |Words(Chunks(text)[k])| >= MinTailWords
  {
    var ws := Words(text);
    var n := |ws|;
    var w := Window(ws, k);
    assert forall j :: 0 <= j < |w| ==> w[j] == ws[Start(k) + j];
    WordsOfJoin(w);
    if k > 0 {
      LastWindowBounds(n);
      StopsShortIff(n, k);
      StopsShortIff(n, k - 1);
    }
  }

  /** Every chunk but the last ends before the last word. */
  lemma {:induction false} EarlierChunksStopShort(n: nat, k: nat)
    requires k + 1 < ChunkCount(n)
    ensures WindowEnd(n, k) < n
  {
    LastWindowBounds(n);
    StopsShortIff(n, k);
  }

  /**
   * Consecutive chunks overlap by 120 words: the words of chunk k from
   * position 480 on are the first 120 words of chunk k + 1.
   */
  lemma {:induction false} ChunksOverlap(text: string, k: nat)
    requires k + 1 < |Chunks(text)|
    ensures |Words(Chunks(text)[k])| == ChunkSize
    ensures |Words(Chunks(text)[k + 1])| >= ChunkOverlap
    ensures Words(Chunks(text)[k])[Step..] == Words(Chunks(text)[k + 1])[..ChunkOverlap]
    ensures Words(Chunks(text)[k])[Step] == Words(Chunks(text)[k + 1])[0]
  {
    var ws := Words(text);
    ChunkWords(text, k);
    ChunkWords(text, k + 1);
    EarlierChunksStopShort(|ws|, k);
    assert Start(k + 1) == Start(k) + Step;
  }

  /**
   * The last chunk ends within 120 words of the end: when it does not reach
   * the last word, the next window was shorter than 240 words and was dropped.
   */
  lemma {:induction false} LastChunkNearEnd(n: nat)
    requires n > 0
    ensures var c := ChunkCount(n);
      && n - WindowEnd(n, c - 1) < ChunkOverlap
      && (WindowEnd(n, c - 1) < n ==> Start(c) < n && n - Start(c) < MinTailWords)
  {
    if n > ChunkSize {
      LastWindowBounds(n);
      var c := ChunkCount(n);
      StopsShortIff(n, c - 1);
    }
  }

  /** 1000 words give two chunks, and 700 words one, whose window leaves out the last 100 words. */
  lemma {:induction false} ChunkCountExamples()
    ensures ChunkCount(1000) == 2
    ensures ChunkCount(700) == 1 && WindowEnd(700, 0) == 600
  {
  }
}
