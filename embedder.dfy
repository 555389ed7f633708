/**
  `MiniLMEmbedder.embed_chunks`: keep the chunks whose content is not blank,
  encode their contents in one batch, and return one record per chunk that
  received a vector.

  As written, the records pair the UNFILTERED chunk list with the vectors of
  the FILTERED texts and filter again afterwards. So the i-th chunk of the
  input receives the i-th vector, which belongs to the i-th non-blank chunk,
  and chunks beyond the number of vectors are dropped. `EmbedChunks` models
  that; `EmbedChunksAligned` is the pairing the design asks for.
 */
module Embedder {
  import opened Text
  import opened Chunks

  const DefaultModelName: string := "sentence-transformers/all-MiniLM-L6-v2"

  /** The embedder handle: the model name it was built with and the encoder
      it loaded (`self.model.encode`), which maps a batch of texts to a batch
      of vectors. Vectors are opaque values of type `V`. */
  datatype MiniLMEmbedder<V> = MiniLMEmbedder(modelName: string, encode: seq<string> -> seq<V>)

  /** One output record: the chunk's `content`, `heading`, `pdf_name` and
      `page_number`, and the vector it was paired with. */
  datatype EmbeddedChunk<V> = EmbeddedChunk(chunk: Chunk, embedding: V)

  /** What one call of `embed_chunks` does: the records it returns and the
      batches it handed to the encoder, in call order. */
  datatype EmbedRun<V> = EmbedRun(records: seq<EmbeddedChunk<V>>, encoderCalls: seq<seq<string>>)

  /** The content holds a non-whitespace character. */
  predicate HasText(c: Chunk) {
    !IsBlank(c.content)
  }

  /** `HasText` is the test `embed_chunks` applies twice: the content, once
      stripped, is a non-empty (truthy) string. */
  lemma HasTextIsStripTest(c: Chunk)
    ensures HasText(c) <==> Strip(c.content) != []
  {
  }

  /** The chunks with text, in input order. */
  function WithText(cs: seq<Chunk>): (r: seq<Chunk>)
    ensures |r| <= |cs|
    ensures forall k :: 0 <= k < |r| ==> HasText(r[k])
  {
    if cs == [] then []
    else (if HasText(cs[0]) then [cs[0]] else []) + WithText(cs[1..])
  }

  /** The batch handed to the encoder: the contents of the chunks with text,
      in input order. */
  function Texts(cs: seq<Chunk>): (r: seq<string>)
    ensures |r| == |WithText(cs)|
    ensures forall k :: 0 <= k < |r| ==> r[k] == WithText(cs)[k].content
  {
    var w := WithText(cs);
    seq(|w|, k requires 0 <= k < |w| => w[k].content)
  }

  /** The list comprehension over `zip(chunks, embeddings)`: it stops at the
      shorter list and keeps the pairs whose chunk has text. */
  function Pair<V>(cs: seq<Chunk>, es: seq<V>): (r: seq<EmbeddedChunk<V>>)
    ensures |r| <= |cs| && |r| <= |es|
    ensures forall k :: 0 <= k < |r| ==> HasText(r[k].chunk) && r[k].chunk in cs
  {
    if cs == [] || es == [] then []
    else (if HasText(cs[0]) then [EmbeddedChunk(cs[0], es[0])] else []) + Pair(cs[1..], es[1..])
  }

  /** `embed_chunks` as written. */
  function EmbedChunks<V>(e: MiniLMEmbedder<V>, chunks: seq<Chunk>): (r: EmbedRun<V>)
    ensures chunks == [] ==> r.records == [] && r.encoderCalls == []
    ensures (forall k :: 0 <= k < |chunks| ==> !HasText(chunks[k])) ==> r.records == [] && r.encoderCalls == []
    ensures (exists k :: 0 <= k < |chunks| && HasText(chunks[k])) ==> r.encoderCalls == [Texts(chunks)]
    ensures forall k :: 0 <= k < |r.records| ==> HasText(r.records[k].chunk) && r.records[k].chunk in chunks
  {
    if chunks == [] then EmbedRun([], [])
    else
      var texts := Texts(chunks);
      WithTextNone(chunks);
      if texts == [] then
        EmbedRun([], [])
      else
        EmbedRun(Pair(chunks, e.encode(texts)), [texts])
  }

  // ---------------------------------------------------------------------
  // The filter

  lemma {:induction false} WithTextAppend(a: seq<Chunk>, b: seq<Chunk>)
    ensures WithText(a + b) == WithText(a) + WithText(b)
  {
    if a == [] {
      assert a + b == b;
    } else {
      assert (a + b)[1..] == a[1..] + b;
      WithTextAppend(a[1..], b);
    }
  }

  lemma WithTextSnoc(a: seq<Chunk>, c: Chunk)
    ensures WithText(a + [c]) == WithText(a) + (if HasText(c) then [c] else [])
  {
    WithTextAppend(a, [c]);
    assert [c][1..] == [];
  }

  /** The filter keeps everything exactly when every chunk has text. */
  lemma WithTextAll(s: seq<Chunk>)
    ensures |WithText(s)| == |s| <==> forall k :: 0 <= k < |s| ==> HasText(s[k])
    ensures (forall k :: 0 <= k < |s| ==> HasText(s[k])) ==> WithText(s) == s
  {
    if forall k :: 0 <= k < |s| ==> HasText(s[k]) {
      WithTextKeeps(s);
    } else {
      var k :| 0 <= k < |s| && !HasText(s[k]);
      WithTextDrops(s, k);
    }
  }

  lemma {:induction false} WithTextKeeps(s: seq<Chunk>)
    requires forall k :: 0 <= k < |s| ==> HasText(s[k])
    ensures WithText(s) == s
  {
    if s != [] {
      var t := s[1..];
      assert WithText(s) == [s[0]] + WithText(t);
      forall k | 0 <= k < |t| ensures HasText(t[k]) {
        assert t[k] == s[k + 1];
      }
      WithTextKeeps(t);
      assert s == [s[0]] + t;
    }
  }

  lemma {:induction false} WithTextDrops(s: seq<Chunk>, i: nat)
    requires i < |s| && !HasText(s[i])
    ensures |WithText(s)| < |s|
  {
    var t := s[1..];
    var head := if HasText(s[0]) then [s[0]] else [];
    assert WithText(s) == head + WithText(t);
    if i > 0 {
      assert t[i - 1] == s[i];
      WithTextDrops(t, i - 1);
    }
  }

  /** The filter keeps nothing exactly when every chunk is blank. */
  lemma {:induction false} WithTextNone(s: seq<Chunk>)
    ensures |WithText(s)| == 0 <==> forall k :: 0 <= k < |s| ==> !HasText(s[k])
  {
    if s != [] {
      WithTextNone(s[1..]);
      if |WithText(s)| == 0 {
        forall k | 0 <= k < |s| ensures !HasText(s[k]) {
          if k > 0 { assert s[1..][k - 1] == s[k]; }
        }
      } else if !HasText(s[0]) {
        var k :| 0 <= k < |s[1..]| && HasText(s[1..][k]);
        assert s[k + 1] == s[1..][k];
      }
    }
  }

  /** The filter keeps chunks of its input only. */
  lemma {:induction false} WithTextFrom(cs: seq<Chunk>)
    ensures forall k :: 0 <= k < |WithText(cs)| ==> WithText(cs)[k] in cs
  {
    if cs != [] {
      var t := cs[1..];
      var head := if HasText(cs[0]) then [cs[0]] else [];
      assert WithText(cs) == head + WithText(t);
      WithTextFrom(t);
      forall k | 0 <= k < |WithText(cs)| ensures WithText(cs)[k] in cs {
        if k >= |head| {
          assert WithText(cs)[k] == WithText(t)[k - |head|];
          assert WithText(cs)[k] in t;
        }
      }
    }
  }

  /** The chunk at position `i`, when it has text, is filtered to position
      "number of chunks with text before `i`", and its content is the text
      the encoder sees at that position. */
  lemma WithTextAt(cs: seq<Chunk>, i: nat)
    requires i < |cs| && HasText(cs[i])
    ensures |WithText(cs[..i])| < |WithText(cs)|
    ensures WithText(cs)[|WithText(cs[..i])|] == cs[i]
    ensures Texts(cs)[|WithText(cs[..i])|] == cs[i].content
  {
    assert cs == cs[..i] + [cs[i]] + cs[i + 1..];
    WithTextAppend(cs[..i] + [cs[i]], cs[i + 1..]);
    WithTextSnoc(cs[..i], cs[i]);
  }

  // ---------------------------------------------------------------------
  // The pairing as written

  lemma PrefixTail(cs: seq<Chunk>, i: nat)
    requires 0 < i <= |cs|
    ensures cs[..i] == [cs[0]] + cs[1..][..i - 1]
    ensures WithText(cs[..i]) == (if HasText(cs[0]) then [cs[0]] else []) + WithText(cs[1..][..i - 1])
  {
    assert cs[..i][1..] == cs[1..][..i - 1];
  }

  /** Every chunk with text among the first `min(|cs|, |es|)` receives the
      vector AT ITS OWN INPUT POSITION, and lands at the output position
      "number of chunks with text before it". */
  lemma {:induction false} PairAt<V>(cs: seq<Chunk>, es: seq<V>, i: nat)
    requires i < |cs| && i < |es| && HasText(cs[i])
    ensures |WithText(cs[..i])| < |Pair(cs, es)|
    ensures Pair(cs, es)[|WithText(cs[..i])|] == EmbeddedChunk(cs[i], es[i])
  {
    var head := if HasText(cs[0]) then [EmbeddedChunk(cs[0], es[0])] else [];
    assert Pair(cs, es) == head + Pair(cs[1..], es[1..]);
    if i == 0 {
      assert cs[..0] == [];
    } else {
      PairAt(cs[1..], es[1..], i - 1);
      PrefixTail(cs, i);
      assert cs[1..][i - 1] == cs[i] && es[1..][i - 1] == es[i];
    }
  }

  /** The output holds as many records as there are chunks with text among
      the first `min(|cs|, |es|)` inputs. */
  lemma {:induction false} PairLength<V>(cs: seq<Chunk>, es: seq<V>)
    ensures |Pair(cs, es)| == |WithText(cs[..if |cs| <= |es| then |cs| else |es|])|
  {
    var n := if |cs| <= |es| then |cs| else |es|;
    if n == 0 {
      assert cs[..n] == [];
    } else {
      PairLength(cs[1..], es[1..]);
      PrefixTail(cs, n);
    }
  }

  /** The input position a record comes from. */
  lemma {:induction false} PairSource<V>(cs: seq<Chunk>, es: seq<V>, k: nat) returns (i: nat)
    requires k < |Pair(cs, es)|
    ensures i < |cs| && i < |es| && HasText(cs[i])
    ensures |WithText(cs[..i])| == k && Pair(cs, es)[k] == EmbeddedChunk(cs[i], es[i])
  {
    var head := if HasText(cs[0]) then [EmbeddedChunk(cs[0], es[0])] else [];
    assert Pair(cs, es) == head + Pair(cs[1..], es[1..]);
    if HasText(cs[0]) && k == 0 {
      assert cs[..0] == [];
      i := 0;
    } else {
      var j := PairSource(cs[1..], es[1..], k - |head|);
      PrefixTail(cs, j + 1);
      assert cs[j + 1] == cs[1..][j] && es[j + 1] == es[1..][j];
      i := j + 1;
    }
  }

  /** Every record comes from some input position `i` with text, paired with
      the vector at `i`. */
  lemma PairFrom<V>(cs: seq<Chunk>, es: seq<V>, k: nat)
    requires k < |Pair(cs, es)|
    ensures exists i ::
      && 0 <= i < |cs| && i < |es| && HasText(cs[i])
      && |WithText(cs[..i])| == k && Pair(cs, es)[k] == EmbeddedChunk(cs[i], es[i])
  {
    var i := PairSource(cs, es, k);
  }

  /** A longer prefix keeps at least as many chunks with text. */
  lemma WithTextPrefixGrows(cs: seq<Chunk>, i: nat, j: nat)
    requires i <= j <= |cs|
    ensures |WithText(cs[..i])| <= |WithText(cs[..j])|
  {
    assert cs[..j] == cs[..i] + cs[i..j];
    WithTextAppend(cs[..i], cs[i..j]);
  }

  /** The records keep the input order: whatever the encoder returns, a
      later record comes from a later input position than an earlier one,
      so the records are a subsequence of the input. */
  lemma PairInOrder<V>(cs: seq<Chunk>, es: seq<V>, k1: nat, k2: nat)
    requires k1 < k2 < |Pair(cs, es)|
    ensures exists i1, i2 ::
      && 0 <= i1 < i2 < |cs| && i2 < |es|
      && Pair(cs, es)[k1] == EmbeddedChunk(cs[i1], es[i1])
      && Pair(cs, es)[k2] == EmbeddedChunk(cs[i2], es[i2])
  {
    var i1 := PairSource(cs, es, k1);
    var i2 := PairSource(cs, es, k2);
    if i2 <= i1 {
      WithTextPrefixGrows(cs, i2, i1);
    }
    assert i1 < i2;
  }

  /** Blank chunks, if any, come after all the chunks with text. */
  ghost predicate BlanksTrailing(cs: seq<Chunk>) {
    forall i, j :: 0 <= i < j < |cs| && !HasText(cs[i]) ==> !HasText(cs[j])
  }

  /** The general case, with an encoder that returns one vector per text.
      With m the number of chunks with text, the output consists of the chunks
      with text among the FIRST m inputs, each carrying the vector at its own
      input position (the vector of the i-th text, not of its own text). */
  lemma EmbedShape<V>(e: MiniLMEmbedder<V>, chunks: seq<Chunk>)
    requires Texts(chunks) != [] ==> |e.encode(Texts(chunks))| == |Texts(chunks)|
    ensures var r := EmbedChunks(e, chunks);
      var m := |Texts(chunks)|;
      && |r.records| == |WithText(chunks[..m])| <= m
      && forall i :: 0 <= i < m && HasText(chunks[i]) ==>
           |WithText(chunks[..i])| < |r.records| &&
           r.records[|WithText(chunks[..i])|] == EmbeddedChunk(chunks[i], e.encode(Texts(chunks))[i])
  {
    var m := |Texts(chunks)|;
    if m == 0 {
      assert chunks[..0] == [];
      WithTextNone(chunks);
    } else {
      var es := e.encode(Texts(chunks));
      assert chunks != [];
      PairLength(chunks, es);
      forall i | 0 <= i < m && HasText(chunks[i])
        ensures |WithText(chunks[..i])| < |Pair(chunks, es)|
        ensures Pair(chunks, es)[|WithText(chunks[..i])|] == EmbeddedChunk(chunks[i], es[i])
      {
        PairAt(chunks, es, i);
      }
    }
  }

  /** With m the number of chunks with text: when the first m chunks all
      have text, the blank ones all come after them. */
  lemma TrailingFromPrefix(cs: seq<Chunk>, m: nat)
    requires m == |WithText(cs)|
    requires forall k :: 0 <= k < m ==> HasText(cs[k])
    ensures BlanksTrailing(cs)
  {
    var a, b := cs[..m], cs[m..];
    assert cs == a + b;
    WithTextAppend(a, b);
    forall k | 0 <= k < |a| ensures HasText(a[k]) {
      assert a[k] == cs[k];
    }
    WithTextKeeps(a);
    WithTextNone(b);
    forall i, j | 0 <= i < j < |cs| && !HasText(cs[i]) ensures !HasText(cs[j]) {
      assert b[j - m] == cs[j];
    }
  }

  /** When blank chunks only trail, a blank chunk at position k leaves at
      most k chunks with text. */
  lemma BlankBounds(cs: seq<Chunk>, k: nat)
    requires BlanksTrailing(cs) && k < |cs|
    ensures !HasText(cs[k]) ==> |WithText(cs)| <= k
  {
    if !HasText(cs[k]) {
      var a, b := cs[..k], cs[k..];
      assert cs == a + b;
      WithTextAppend(a, b);
      forall j | 0 <= j < |b| ensures !HasText(b[j]) {
        assert b[j] == cs[k + j];
      }
      WithTextNone(b);
    }
  }

  /** With an encoder that returns one vector per text, every chunk with text
      gets a record exactly when no blank chunk comes before a chunk with
      text. */
  lemma EmbedKeepsAllIff<V>(e: MiniLMEmbedder<V>, chunks: seq<Chunk>)
    requires Texts(chunks) != [] ==> |e.encode(Texts(chunks))| == |Texts(chunks)|
    ensures |EmbedChunks(e, chunks).records| == |Texts(chunks)| <==> BlanksTrailing(chunks)
  {
    var m := |Texts(chunks)|;
    var a := chunks[..m];
    EmbedShape(e, chunks);
    WithTextAll(a);
    if BlanksTrailing(chunks) {
      forall k | 0 <= k < m ensures HasText(a[k]) {
        BlankBounds(chunks, k);
        assert a[k] == chunks[k];
      }
    }
    if |WithText(a)| == m {
      forall k | 0 <= k < m ensures HasText(chunks[k]) {
        assert a[k] == chunks[k];
      }
      TrailingFromPrefix(chunks, m);
    }
  }

  /** With no blank chunk and an encoder that returns one vector per text,
      record i is chunk i with vector i. */
  lemma EmbedNoBlank<V>(e: MiniLMEmbedder<V>, chunks: seq<Chunk>)
    requires forall k :: 0 <= k < |chunks| ==> HasText(chunks[k])
    requires Texts(chunks) != [] ==> |e.encode(Texts(chunks))| == |Texts(chunks)|
    ensures var r := EmbedChunks(e, chunks);
      && |r.records| == |chunks|
      && forall i :: 0 <= i < |chunks| ==> r.records[i] == EmbeddedChunk(chunks[i], e.encode(Texts(chunks))[i])
  {
    WithTextAll(chunks);
    EmbedShape(e, chunks);
    assert chunks[..|chunks|] == chunks;
    forall i | 0 <= i < |chunks| ensures |WithText(chunks[..i])| == i {
      WithTextAll(chunks[..i]);
    }
  }

  /** A blank chunk followed by a chunk with text yields no record at all,
      although the second chunk's content was encoded. */
  lemma BlankThenText<V>(e: MiniLMEmbedder<V>, blank: Chunk, a: Chunk)
    requires !HasText(blank) && HasText(a)
    requires |e.encode([a.content])| == 1
    ensures EmbedChunks(e, [blank, a]).encoderCalls == [[a.content]]
    ensures EmbedChunks(e, [blank, a]).records == []
  {
    var cs := [blank, a];
    assert cs[1..] == [a];
    assert [a][1..] == [];
    assert WithText(cs) == [a];
    assert Texts(cs) == [a.content];
    var es := e.encode([a.content]);
    assert Pair(cs[1..], es[1..]) == [];
  }

  /** Chunks `a`, blank, `b` yield a record for `a` only: `b` is dropped. */
  lemma TrailingTextDropped<V>(e: MiniLMEmbedder<V>, a: Chunk, blank: Chunk, b: Chunk)
    requires HasText(a) && !HasText(blank) && HasText(b)
    requires |e.encode([a.content, b.content])| == 2
    ensures var es := e.encode([a.content, b.content]);
      EmbedChunks(e, [a, blank, b]).records == [EmbeddedChunk(a, es[0])]
  {
    var cs := [a, blank, b];
    assert cs[1..] == [blank, b];
    assert cs[1..][1..] == [b];
    assert [b][1..] == [];
    assert WithText([b]) == [b];
    assert WithText(cs[1..]) == [b];
    assert WithText(cs) == [a, b];
    assert Texts(cs) == [a.content, b.content];
    var es := e.encode([a.content, b.content]);
    assert es[1..][1..] == [];
    assert Pair(cs[1..][1..], es[1..][1..]) == [];
    assert Pair(cs[1..], es[1..]) == [];
    assert Pair(cs, es) == [EmbeddedChunk(a, es[0])];
  }

  /** A concrete input for the two lemmas above. */
  lemma BlankFirstExample<V>(e: MiniLMEmbedder<V>)
    requires |e.encode(["Intro"])| == 1
    ensures EmbedChunks(e, [Chunk("  ", "Title", "doc.pdf", 1), Chunk("Intro", "Title", "doc.pdf", 1)]).records == []
  {
    var blank := Chunk("  ", "Title", "doc.pdf", 1);
    var a := Chunk("Intro", "Title", "doc.pdf", 1);
    assert Strip("  ") == [] by {
      assert IsBlank("  ");
    }
    assert Strip("Intro") != [] by {
      assert !IsSpace("Intro"[0]);
    }
    BlankThenText(e, blank, a);
  }

  // ---------------------------------------------------------------------
  // The pairing the design asks for

  /** `embed_chunks` with the comprehension zipping the FILTERED chunks with
      the vectors: each chunk with text gets the vector of its own content. */
  function EmbedChunksAligned<V>(e: MiniLMEmbedder<V>, chunks: seq<Chunk>): (r: EmbedRun<V>)
    ensures chunks == [] ==> r.records == [] && r.encoderCalls == []
    ensures (forall k :: 0 <= k < |chunks| ==> !HasText(chunks[k])) ==> r.records == [] && r.encoderCalls == []
    ensures (exists k :: 0 <= k < |chunks| && HasText(chunks[k])) ==> r.encoderCalls == [Texts(chunks)]
    ensures forall k :: 0 <= k < |r.records| ==> HasText(r.records[k].chunk) && r.records[k].chunk in chunks
  {
    if chunks == [] then EmbedRun([], [])
    else
      var texts := Texts(chunks);
      WithTextNone(chunks);
      if texts == [] then
        EmbedRun([], [])
      else
        var kept := WithText(chunks);
        WithTextFrom(chunks);
        var es := e.encode(texts);
        var n := if |kept| <= |es| then |kept| else |es|;
        EmbedRun(seq(n, k requires 0 <= k < n => EmbeddedChunk(kept[k], es[k])), [texts])
  }

  /** With an encoder that returns one vector per text, the corrected pairing
      returns exactly one record per chunk with text, in input order, and the
      vector each one carries is the one computed from its own content. */
  lemma AlignedOneRecordPerText<V>(e: MiniLMEmbedder<V>, chunks: seq<Chunk>)
    requires Texts(chunks) != [] ==> |e.encode(Texts(chunks))| == |Texts(chunks)|
    ensures var r := EmbedChunksAligned(e, chunks);
      && |r.records| == |WithText(chunks)|
      && forall i :: 0 <= i < |chunks| && HasText(chunks[i]) ==>
           var k := |WithText(chunks[..i])|;
           && k < |r.records|
           && r.records[k] == EmbeddedChunk(chunks[i], e.encode(Texts(chunks))[k])
           && Texts(chunks)[k] == chunks[i].content
  {
    var r := EmbedChunksAligned(e, chunks);
    if Texts(chunks) == [] {
      WithTextNone(chunks);
    } else {
      forall i | 0 <= i < |chunks| && HasText(chunks[i])
        ensures |WithText(chunks[..i])| < |r.records|
        ensures r.records[|WithText(chunks[..i])|] == EmbeddedChunk(chunks[i], e.encode(Texts(chunks))[|WithText(chunks[..i])|])
        ensures Texts(chunks)[|WithText(chunks[..i])|] == chunks[i].content
      {
        WithTextAt(chunks, i);
      }
    }
  }
}
