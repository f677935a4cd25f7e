/**
  The logic of the backend's retrieval-augmented generation system that sits
  around its foreign calls: building one vector per transcript chunk, sending
  them to the index in batches of at most 100, and selecting the retrieved
  context for an answer. The text splitter, the embedding model, the vector
  index's search and the language model are parameters.
*/
module Rag {
  import opened Wrappers
  import Strings

  /** A scraped video as `ingest` receives it. */
  datatype Item = Item(videoId: string, url: string, text: string)

  /** The metadata stored with each vector. */
  datatype Metadata = Metadata(text: string, source: string, videoId: string, sessionId: string)

  /** One `(vector_id, vector_values, metadata)` tuple. */
  datatype Vector = Vector(id: string, values: seq<real>, metadata: Metadata)

  const BatchSize := 100
  const NoContextAnswer := "I don't have enough context from your ingested videos to answer this question."
  const ContextSeparator := "\n\n"

  /** The id of chunk `i` of a video: `f"{session_id}_{video_id}_{i}"`. */
  function VectorId(sessionId: string, videoId: string, i: nat): (id: string)
    ensures sessionId + "_" + videoId + "_" <= id
    ensures forall k :: |sessionId| + |videoId| + 2 <= k < |id| ==> Strings.IsDigit(id[k])
    ensures |id| > |sessionId| + |videoId| + 2
    ensures Strings.DigitsValue(id[|sessionId| + |videoId| + 2..]) == i
  {
    var p := sessionId + "_" + videoId + "_";
    Strings.DigitsValueOfNatToString(i);
    assert (p + Strings.NatToString(i))[|p|..] == Strings.NatToString(i);
    p + Strings.NatToString(i)
  }

  /** Distinct chunks of the same video in the same session get distinct ids. */
  lemma VectorIdInjective(sessionId: string, videoId: string, i: nat, j: nat)
    requires VectorId(sessionId, videoId, i) == VectorId(sessionId, videoId, j)
    ensures i == j
  {
    var p := sessionId + "_" + videoId + "_";
    assert p + Strings.NatToString(i) == p + Strings.NatToString(j);
    assert Strings.NatToString(i) == (p + Strings.NatToString(i))[|p|..];
    assert Strings.NatToString(j) == (p + Strings.NatToString(j))[|p|..];
    Strings.DigitsValueOfNatToString(i);
    Strings.DigitsValueOfNatToString(j);
  }

  /** The vectors of one item: chunk `i` of `chunks` becomes the vector at position `i`. */
  function ItemVectors(sessionId: string, item: Item, chunks: seq<string>, embed: string -> seq<real>): (vs: seq<Vector>)
    ensures |vs| == |chunks|
  {
    seq(|chunks|, i requires 0 <= i < |chunks| =>
      Vector(VectorId(sessionId, item.videoId, i), embed(chunks[i]),
             Metadata(chunks[i], item.url, item.videoId, sessionId)))
  }

  /** All vectors of an ingest, item by item and, within an item, chunk by chunk. */
  function Vectors(sessionId: string, items: seq<Item>, split: string -> seq<string>, embed: string -> seq<real>): (vs: seq<Vector>)
    ensures |vs| == ChunkCount(items, split)
  {
    if items == [] then []
    else
      var last := items[|items| - 1];
      Vectors(sessionId, items[..|items| - 1], split, embed) + ItemVectors(sessionId, last, split(last.text), embed)
  }

  /** The number of chunks the splitter makes of `items`. */
  function ChunkCount(items: seq<Item>, split: string -> seq<string>): nat
  {
    if items == [] then 0
    else ChunkCount(items[..|items| - 1], split) + |split(items[|items| - 1].text)|
  }

  /**
    There is one vector per chunk, and the vector of chunk `i` of item `p`
    sits after the chunks of the items before `p`, with its id and metadata.
  */
  lemma {:induction false} VectorAt(sessionId: string, items: seq<Item>, split: string -> seq<string>,
                                    embed: string -> seq<real>, p: nat, i: nat)
    requires p < |items| && i < |split(items[p].text)|
    ensures |Vectors(sessionId, items, split, embed)| == ChunkCount(items, split)
    ensures ChunkCount(items[..p], split) + i < ChunkCount(items, split)
    ensures var v := Vectors(sessionId, items, split, embed)[ChunkCount(items[..p], split) + i];
      var chunk := split(items[p].text)[i];
      v == Vector(VectorId(sessionId, items[p].videoId, i), embed(chunk),
                  Metadata(chunk, items[p].url, items[p].videoId, sessionId))
    decreases |items|
  {
    var init := items[..|items| - 1];
    if p == |items| - 1 {
      assert items[..p] == init;
    } else {
      VectorAt(sessionId, init, split, embed, p, i);
      assert init[..p] == items[..p];
      assert init[p] == items[p];
    }
  }

  /** The vector list built by `ingest`'s nested loop. */
  method BuildVectors(sessionId: string, items: seq<Item>, split: string -> seq<string>, embed: string -> seq<real>)
    returns (vectors: seq<Vector>)
    ensures vectors == Vectors(sessionId, items, split, embed)
  {
    vectors := [];
    for p := 0 to |items|
      invariant vectors == Vectors(sessionId, items[..p], split, embed)
    {
      var item := items[p];
      var chunks := split(item.text);
      ghost var before := vectors;
      for i := 0 to |chunks|
        invariant vectors == before + ItemVectors(sessionId, item, chunks, embed)[..i]
      {
        var metadata := Metadata(chunks[i], item.url, item.videoId, sessionId);
        vectors := vectors + [Vector(VectorId(sessionId, item.videoId, i), embed(chunks[i]), metadata)];
      }
      assert items[..p + 1][..p] == items[..p];
    }
    assert items[..|items|] == items;
  }

  /** The concatenation of a list of batches. */
  function Flatten<T>(batches: seq<seq<T>>): seq<T>
  {
    if batches == [] then [] else Flatten(batches[..|batches| - 1]) + batches[|batches| - 1]
  }

  /**
    The stepped `range(0, len(vectors), 100)` loop: consecutive slices of at
    most 100 that together are the vector list, all of exactly 100 but the last.
  */
  method Batches<T>(vectors: seq<T>) returns (batches: seq<seq<T>>)
    ensures Flatten(batches) == vectors
    ensures |batches| == (|vectors| + BatchSize - 1) / BatchSize
    ensures forall k :: 0 <= k < |batches| ==> 0 < |batches[k]| <= BatchSize
    ensures forall k :: 0 <= k < |batches| - 1 ==> |batches[k]| == BatchSize
  {
    batches := [];
    var i := 0;
    while i < |vectors|
      invariant i <= |vectors| && i == BatchSize * |batches|
      invariant Flatten(batches) == vectors[..i]
      invariant forall k :: 0 <= k < |batches| ==> |batches[k]| == BatchSize
    {
      var end := if i + BatchSize < |vectors| then i + BatchSize else |vectors|;
      var batch := vectors[i..end];
      if end < i + BatchSize {
        batches := batches + [batch];
        assert Flatten(batches) == vectors[..i] + batch;
        assert vectors[..end] == vectors;
        return;
      }
      batches := batches + [batch];
      assert vectors[..end] == vectors[..i] + batch;
      i := end;
    }
    assert vectors[..i] == vectors;
  }

  /** `ingest`: the upserts sent to the index, each one batch; none when there are no vectors. */
  method Ingest(sessionId: string, items: seq<Item>, split: string -> seq<string>, embed: string -> seq<real>)
    returns (upserts: seq<seq<Vector>>)
    ensures Flatten(upserts) == Vectors(sessionId, items, split, embed)
    ensures Vectors(sessionId, items, split, embed) == [] <==> upserts == []
    ensures forall k :: 0 <= k < |upserts| ==> 0 < |upserts[k]| <= BatchSize
    ensures forall k :: 0 <= k < |upserts| - 1 ==> |upserts[k]| == BatchSize
  {
    var vectors := BuildVectors(sessionId, items, split, embed);
    upserts := [];
    if vectors != [] {
      upserts := Batches(vectors);
    }
  }

  /** A retrieved match: its metadata dictionary, if any. */
  datatype Match = Match(metadata: Option<map<string, string>>)

  /** Whether a match contributes context: it has metadata with a `text` entry. */
  predicate HasText(m: Match) {
    m.metadata.Some? && "text" in m.metadata.value
  }

  /** The `text` fields of the matches that have one, in match order. */
  function ContextTexts(matches: seq<Match>): (parts: seq<string>)
    ensures |parts| <= |matches|
  {
    if matches == [] then []
    else
      var last := matches[|matches| - 1];
      ContextTexts(matches[..|matches| - 1]) + (if HasText(last) then [last.metadata.value["text"]] else [])
  }

  /** A single match contributes its `text` value exactly when it has one. */
  lemma ContextTextsOne(m: Match)
    ensures ContextTexts([m]) == if HasText(m) then [m.metadata.value["text"]] else []
  {
    assert [m][..0] == [];
  }

  /** The context of two runs of matches is the context of the first followed by that of the second. */
  lemma {:induction false} ContextTextsAppend(a: seq<Match>, b: seq<Match>)
    ensures ContextTexts(a + b) == ContextTexts(a) + ContextTexts(b)
    decreases |b|
  {
    if b == [] {
      assert a + b == a;
    } else {
      var b' := b[..|b| - 1];
      ContextTextsAppend(a, b');
      assert (a + b)[..|a + b| - 1] == a + b';
    }
  }

  /** The context is empty exactly when no match has a `text` entry. */
  lemma {:induction false} ContextTextsEmpty(matches: seq<Match>)
    ensures ContextTexts(matches) == [] <==> forall k :: 0 <= k < |matches| ==> !HasText(matches[k])
    decreases |matches|
  {
    if matches != [] {
      var init := matches[..|matches| - 1];
      ContextTextsEmpty(init);
      assert forall k :: 0 <= k < |init| ==> init[k] == matches[k];
    }
  }

  /** The loop of `chat` that collects the context parts. */
  method ContextParts(matches: seq<Match>) returns (parts: seq<string>)
    ensures parts == ContextTexts(matches)
  {
    parts := [];
    for k := 0 to |matches|
      invariant parts == ContextTexts(matches[..k])
    {
      var m := matches[k];
      if m.metadata.Some? && "text" in m.metadata.value {
        parts := parts + [m.metadata.value["text"]];
      }
      assert matches[..k + 1][..k] == matches[..k];
    }
    assert matches[..|matches|] == matches;
  }

  /**
    `chat`: the fixed answer, without a prompt, when the retrieved matches give
    no context; otherwise the model's answer to the parts joined by blank lines.
    `prompted` is the context handed to the model, None when it is not invoked.
  */
  method Chat(sessionId: string, query: string, embed: string -> seq<real>,
              search: (seq<real>, string) -> seq<Match>, llm: (string, string) -> string)
    returns (answer: string, prompted: Option<string>)
    ensures var parts := ContextTexts(search(embed(query), sessionId));
      && (parts == [] ==> answer == NoContextAnswer && prompted == None)
      && (parts != [] ==> prompted == Some(Strings.Join(parts, ContextSeparator)) && answer == llm(prompted.value, query))
  {
    var matches := search(embed(query), sessionId);
    var parts := ContextParts(matches);
    if parts == [] {
      return NoContextAnswer, None;
    }
    var context := Strings.Join(parts, ContextSeparator);
    answer := llm(context, query);
    prompted := Some(context);
  }
}
