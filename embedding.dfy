/** Sentence chunking, batch embedding and the dimension guard of the
    similarity score (src/lib/ai/embedding.ts).

    Chunking trims the input, splits it on periods, trims every piece, drops
    the empty ones and puts a period back on each: those are the sentences.
    It then packs sentences greedily: the next sentence joins the current
    chunk unless that would make the chunk longer than `maxChunkLength` and
    the chunk already holds something. The packing is specified here on
    groups of sentences (`Groups`), so that every chunk can be traced back to
    the sentences it is made of. */
module Embedding {
  import opened Wrappers
  import opened Strings

  const DefaultMaxChunkLength: int := 1000

  /** A vector produced by the embedding backend. */
  type Vector = seq<real>

  // ---------------------------------------------------------------------
  // Sentences

  /** A character that carries content: neither whitespace nor the period
      the chunker splits on. */
  predicate IsContent(c: char) {
    !IsWhitespace(c) && c != '.'
  }

  /** The content characters of `s`, in order. */
  function Content(s: string): string {
    if s == [] then "" else (if IsContent(s[0]) then [s[0]] else []) + Content(s[1..])
  }

  /** Trim every piece, drop the empty ones, append a period to the rest. */
  function Sentencify(parts: seq<string>): seq<string> {
    if parts == [] then []
    else
      var t := Trim(parts[0]);
      (if |t| > 0 then [t + "."] else []) + Sentencify(parts[1..])
  }

  /** `input.trim().split(".").map(trim).filter(nonEmpty).map(s => s + ".")`. */
  function Sentences(input: string): seq<string> {
    Sentencify(Split(Trim(input), '.'))
  }

  /** A sentence as the chunker makes them: a non-empty, trimmed fragment
      without a period, followed by one period. */
  predicate IsSentence(s: string) {
    && |s| >= 2
    && s[|s| - 1] == '.'
    && '.' !in s[..|s| - 1]
    && !IsWhitespace(s[0]) && !IsWhitespace(s[|s| - 2])
  }

  predicate AllNonEmpty(ss: seq<string>) {
    forall i :: 0 <= i < |ss| ==> ss[i] != []
  }

  // ---------------------------------------------------------------------
  // Greedy packing

  /** The groups of sentences the chunker packs together, when the chunk
      being built holds the sentences `cur` and `ss` are still to come. */
  function GroupFrom(ss: seq<string>, maxChunkLength: int, cur: seq<string>): seq<seq<string>>
    decreases |ss|
  {
    if ss == [] then
      (if |Concat(cur)| > 0 then [cur] else [])
    else if |Concat(cur)| + |ss[0]| > maxChunkLength && |Concat(cur)| > 0 then
      [cur] + GroupFrom(ss[1..], maxChunkLength, [ss[0]])
    else
      GroupFrom(ss[1..], maxChunkLength, cur + [ss[0]])
  }

  function Groups(ss: seq<string>, maxChunkLength: int): seq<seq<string>> {
    GroupFrom(ss, maxChunkLength, [])
  }

  function MapConcat(gs: seq<seq<string>>): (r: seq<string>)
    ensures |r| == |gs|
  {
    seq(|gs|, i requires 0 <= i < |gs| => Concat(gs[i]))
  }

  function Flatten(gs: seq<seq<string>>): seq<string> {
    if gs == [] then [] else gs[0] + Flatten(gs[1..])
  }

  /** What `generateChunks(input, maxChunkLength)` returns. */
  function Chunks(input: string, maxChunkLength: int): seq<string> {
    MapConcat(Groups(Sentences(input), maxChunkLength))
  }

  // ---------------------------------------------------------------------
  // The chunker

  /** `generateChunks`: the sentence pipeline, then the packing loop, which
      either flushes the current chunk and starts a new one with the
      sentence, or appends the sentence to it. */
  method GenerateChunks(input: string, maxChunkLength: int := DefaultMaxChunkLength) returns (chunks: seq<string>)
    ensures chunks == Chunks(input, maxChunkLength)
  {
    var sentences := Sentences(input);
    chunks := PackSentences(sentences, maxChunkLength);
  }

  /** The packing loop of `generateChunks`. */
  method PackSentences(sentences: seq<string>, maxChunkLength: int) returns (chunks: seq<string>)
    ensures chunks == MapConcat(Groups(sentences, maxChunkLength))
  {
    chunks := [];
    var currentChunk := "";
    ghost var done: seq<seq<string>> := [];
    ghost var group: seq<string> := [];
    for i := 0 to |sentences|
      invariant chunks == MapConcat(done)
      invariant currentChunk == Concat(group)
      invariant done + GroupFrom(sentences[i..], maxChunkLength, group)
                == Groups(sentences, maxChunkLength)
    {
      var sentence := sentences[i];
      PackStep(sentences, maxChunkLength, i, done, group);
      if |currentChunk| + |sentence| > maxChunkLength && |currentChunk| > 0 {
        MapConcatSnoc(done, group);
        chunks := chunks + [currentChunk];
        done := done + [group];
        currentChunk := sentence;
        group := [sentence];
      } else {
        currentChunk := currentChunk + sentence;
        ConcatAppend(group, [sentence]);
        group := group + [sentence];
      }
    }
    assert sentences[|sentences|..] == [];
    if |currentChunk| > 0 {
      MapConcatSnoc(done, group);
      chunks := chunks + [currentChunk];
      done := done + [group];
    }
  }

  /** One turn of the packing loop keeps the groups still to come in step
      with `Groups`: either the current group is closed and the sentence
      starts the next one, or the sentence joins the current group. */
  lemma PackStep(ss: seq<string>, maxChunkLength: int, i: nat, done: seq<seq<string>>, group: seq<string>)
    requires i < |ss|
    requires done + GroupFrom(ss[i..], maxChunkLength, group) == Groups(ss, maxChunkLength)
    ensures |Concat(group)| + |ss[i]| > maxChunkLength && |Concat(group)| > 0 ==>
              (done + [group]) + GroupFrom(ss[i + 1..], maxChunkLength, [ss[i]]) == Groups(ss, maxChunkLength)
    ensures !(|Concat(group)| + |ss[i]| > maxChunkLength && |Concat(group)| > 0) ==>
              done + GroupFrom(ss[i + 1..], maxChunkLength, group + [ss[i]]) == Groups(ss, maxChunkLength)
  {
    GroupFromStep(ss[i..], maxChunkLength, group);
    assert ss[i..][1..] == ss[i + 1..];
    if |Concat(group)| + |ss[i]| > maxChunkLength && |Concat(group)| > 0 {
      var rest := GroupFrom(ss[i + 1..], maxChunkLength, [ss[i]]);
      assert done + ([group] + rest) == (done + [group]) + rest;
    }
  }

  lemma GroupFromStep(ss: seq<string>, maxChunkLength: int, cur: seq<string>)
    requires ss != []
    ensures GroupFrom(ss, maxChunkLength, cur) ==
      if |Concat(cur)| + |ss[0]| > maxChunkLength && |Concat(cur)| > 0
      then [cur] + GroupFrom(ss[1..], maxChunkLength, [ss[0]])
      else GroupFrom(ss[1..], maxChunkLength, cur + [ss[0]])
  {
  }

  lemma MapConcatSnoc(gs: seq<seq<string>>, g: seq<string>)
    ensures MapConcat(gs + [g]) == MapConcat(gs) + [Concat(g)]
  {
  }

  // ---------------------------------------------------------------------
  // Facts about sequences of strings

  lemma {:induction false} ConcatNonEmpty(ss: seq<string>)
    requires AllNonEmpty(ss)
    ensures |Concat(ss)| > 0 <==> ss != []
    ensures ss != [] ==> |Concat(ss)| >= |ss[0]|
  {
  }

  lemma {:induction false} FlattenCons(g: seq<string>, gs: seq<seq<string>>)
    ensures Flatten([g] + gs) == g + Flatten(gs)
  {
    assert ([g] + gs)[1..] == gs;
  }

  lemma {:induction false} FlattenLength(gs: seq<seq<string>>)
    requires forall k :: 0 <= k < |gs| ==> gs[k] != []
    ensures |gs| <= |Flatten(gs)|
  {
    if gs != [] {
      FlattenLength(gs[1..]);
    }
  }

  lemma {:induction false} ConcatFlatten(gs: seq<seq<string>>)
    ensures Concat(MapConcat(gs)) == Concat(Flatten(gs))
  {
    if gs != [] {
      ConcatFlatten(gs[1..]);
      assert MapConcat(gs) == [Concat(gs[0])] + MapConcat(gs[1..]);
      ConcatAppend(gs[0], Flatten(gs[1..]));
    }
  }

  // ---------------------------------------------------------------------
  // The shape of the packing

  /** The groups are non-empty, only a lone sentence may exceed the bound,
      and each group is followed by one whose first sentence did not fit. */
  predicate WellPacked(gs: seq<seq<string>>, maxChunkLength: int) {
    && (forall k :: 0 <= k < |gs| ==> gs[k] != [])
    && (forall k :: 0 <= k < |gs| && |gs[k]| > 1 ==> |Concat(gs[k])| <= maxChunkLength)
    && (forall k :: 0 <= k < |gs| - 1 ==> |Concat(gs[k])| + |gs[k + 1][0]| > maxChunkLength)
  }

  /** Everything the packing guarantees, for any state of the loop: the
      groups hold the sentences in order and are well packed, and the
      group being built comes first. */
  predicate Shaped(gs: seq<seq<string>>, cur: seq<string>, ss: seq<string>, maxChunkLength: int) {
    && Flatten(gs) == cur + ss
    && WellPacked(gs, maxChunkLength)
    && (cur != [] ==> gs != [] && gs[0] != [] && gs[0][0] == cur[0])
  }

  lemma {:induction false} GroupFromShape(ss: seq<string>, maxChunkLength: int, cur: seq<string>)
    requires AllNonEmpty(ss) && AllNonEmpty(cur)
    requires |cur| > 1 ==> |Concat(cur)| <= maxChunkLength
    ensures Shaped(GroupFrom(ss, maxChunkLength, cur), cur, ss, maxChunkLength)
    decreases |ss|
  {
    ConcatNonEmpty(cur);
    if ss == [] {
      ShapeEnd(maxChunkLength, cur);
    } else if |Concat(cur)| + |ss[0]| > maxChunkLength && |Concat(cur)| > 0 {
      GroupFromShape(ss[1..], maxChunkLength, [ss[0]]);
      ShapeClose(ss, maxChunkLength, cur);
    } else {
      var next := cur + [ss[0]];
      ConcatAppend(cur, [ss[0]]);
      assert AllNonEmpty(next);
      GroupFromShape(ss[1..], maxChunkLength, next);
      ShapeJoin(ss, maxChunkLength, cur);
    }
  }

  /** No sentence left: the group being built, if any, is the last. */
  lemma ShapeEnd(maxChunkLength: int, cur: seq<string>)
    requires AllNonEmpty(cur) && (|cur| > 1 ==> |Concat(cur)| <= maxChunkLength)
    requires |Concat(cur)| > 0 <==> cur != []
    ensures Shaped(GroupFrom([], maxChunkLength, cur), cur, [], maxChunkLength)
  {
    if cur != [] {
      FlattenCons(cur, []);
      assert cur + [] == cur;
    }
  }

  /** The next sentence does not fit: the group is closed in front of the
      groups that start with that sentence. */
  lemma ShapeClose(ss: seq<string>, maxChunkLength: int, cur: seq<string>)
    requires ss != [] && |Concat(cur)| + |ss[0]| > maxChunkLength && |Concat(cur)| > 0
    requires cur != [] && (|cur| > 1 ==> |Concat(cur)| <= maxChunkLength)
    requires Shaped(GroupFrom(ss[1..], maxChunkLength, [ss[0]]), [ss[0]], ss[1..], maxChunkLength)
    ensures Shaped(GroupFrom(ss, maxChunkLength, cur), cur, ss, maxChunkLength)
  {
    var rest := GroupFrom(ss[1..], maxChunkLength, [ss[0]]);
    assert GroupFrom(ss, maxChunkLength, cur) == [cur] + rest;
    FlattenCons(cur, rest);
    assert [ss[0]] + ss[1..] == ss;
    ConsShape(cur, rest, maxChunkLength);
  }

  /** The next sentence fits: it joins the group being built. */
  lemma ShapeJoin(ss: seq<string>, maxChunkLength: int, cur: seq<string>)
    requires ss != [] && !(|Concat(cur)| + |ss[0]| > maxChunkLength && |Concat(cur)| > 0)
    requires Shaped(GroupFrom(ss[1..], maxChunkLength, cur + [ss[0]]), cur + [ss[0]], ss[1..], maxChunkLength)
    ensures Shaped(GroupFrom(ss, maxChunkLength, cur), cur, ss, maxChunkLength)
  {
    assert GroupFrom(ss, maxChunkLength, cur) == GroupFrom(ss[1..], maxChunkLength, cur + [ss[0]]);
    assert (cur + [ss[0]]) + ss[1..] == cur + ss;
  }

  /** Closing the group `cur` in front of groups that already have the
      shape keeps the shape, when the next group's first sentence does not
      fit into `cur`. */
  lemma ConsShape(cur: seq<string>, rest: seq<seq<string>>, maxChunkLength: int)
    requires cur != [] && (|cur| > 1 ==> |Concat(cur)| <= maxChunkLength)
    requires rest != [] && rest[0] != [] && |Concat(cur)| + |rest[0][0]| > maxChunkLength
    requires WellPacked(rest, maxChunkLength)
    ensures WellPacked([cur] + rest, maxChunkLength)
  {
    var gs := [cur] + rest;
    forall k | 0 < k < |gs| ensures gs[k] == rest[k - 1] { }
  }

  lemma GroupsShape(ss: seq<string>, maxChunkLength: int)
    requires AllNonEmpty(ss)
    ensures var gs := Groups(ss, maxChunkLength);
      && Flatten(gs) == ss
      && (forall k :: 0 <= k < |gs| ==> gs[k] != [])
      && (forall k :: 0 <= k < |gs| && |gs[k]| > 1 ==> |Concat(gs[k])| <= maxChunkLength)
      && (forall k :: 0 <= k < |gs| - 1 ==> |Concat(gs[k])| + |gs[k + 1][0]| > maxChunkLength)
  {
    GroupFromShape(ss, maxChunkLength, []);
    assert [] + ss == ss;
  }

  // ---------------------------------------------------------------------
  // Sentences are well formed

  lemma {:induction false} SentencifyShape(parts: seq<string>)
    requires forall i :: 0 <= i < |parts| ==> '.' !in parts[i]
    ensures forall i :: 0 <= i < |Sentencify(parts)| ==> IsSentence(Sentencify(parts)[i])
  {
    if parts != [] {
      SentencifyShape(parts[1..]);
      var t := Trim(parts[0]);
      if |t| > 0 {
        var s := t + ".";
        assert s[..|s| - 1] == t;
        var a := TrimSlice(parts[0]);
        assert '.' !in t by {
          assert t == parts[0][a..a + |t|];
        }
        TrimShape(parts[0]);
        assert Sentencify(parts) == [s] + Sentencify(parts[1..]);
      }
    }
  }

  /** Every sentence is a trimmed, non-empty fragment without a period, with
      a period appended. */
  lemma SentencesWellFormed(input: string)
    ensures forall i :: 0 <= i < |Sentences(input)| ==> IsSentence(Sentences(input)[i])
  {
    SentencifyShape(Split(Trim(input), '.'));
  }

  // ---------------------------------------------------------------------
  // Content is preserved

  lemma {:induction false} ContentAppend(a: string, b: string)
    ensures Content(a + b) == Content(a) + Content(b)
  {
    if a != [] {
      assert (a + b)[1..] == a[1..] + b;
      ContentAppend(a[1..], b);
    } else {
      assert a + b == b;
    }
  }

  lemma {:induction false} ContentOfWhitespace(s: string)
    requires AllWhitespace(s)
    ensures Content(s) == ""
  {
    if s != [] {
      ContentOfWhitespace(s[1..]);
    }
  }

  lemma ContentOfTrim(s: string)
    ensures Content(Trim(s)) == Content(s)
  {
    var a := TrimSlice(s);
    var b := a + |Trim(s)|;
    assert s == s[..a] + s[a..b] + s[b..];
    ContentAppend(s[..a] + s[a..b], s[b..]);
    ContentAppend(s[..a], s[a..b]);
    ContentOfWhitespace(s[..a]);
    ContentOfWhitespace(s[b..]);
  }

  lemma {:induction false} ContentEmpty(s: string)
    ensures Content(s) == "" <==> forall i :: 0 <= i < |s| ==> !IsContent(s[i])
  {
    if s != [] {
      ContentEmpty(s[1..]);
      assert forall i :: 1 <= i < |s| ==> s[i] == s[1..][i - 1];
    }
  }

  lemma {:induction false} ContentJoinedByPeriods(parts: seq<string>)
    ensures Content(Join(parts, ".")) == Content(Concat(parts))
  {
    if |parts| == 1 {
      assert parts[1..] == [];
      assert Concat(parts) == parts[0] + Concat(parts[1..]) == parts[0] + "" == parts[0];
    } else if |parts| > 1 {
      assert Content(".") == "";
      ContentJoinedByPeriods(parts[1..]);
      ContentAppend(parts[0] + ".", Join(parts[1..], "."));
      ContentAppend(parts[0], ".");
      ContentAppend(parts[0], Concat(parts[1..]));
    }
  }

  lemma {:induction false} ContentSentencify(parts: seq<string>)
    ensures Content(Concat(Sentencify(parts))) == Content(Concat(parts))
  {
    if parts != [] {
      ContentSentencify(parts[1..]);
      var t := Trim(parts[0]);
      var head := if |t| > 0 then [t + "."] else [];
      ConcatAppend(head, Sentencify(parts[1..]));
      ContentAppend(Concat(head), Concat(Sentencify(parts[1..])));
      ContentAppend(parts[0], Concat(parts[1..]));
      ContentOfTrim(parts[0]);
      assert Sentencify(parts) == head + Sentencify(parts[1..]);
      if |t| > 0 {
        ContentAppend(t, ".");
        assert Content(".") == "";
        assert head[1..] == [];
        assert Concat(head) == (t + ".") + Concat(head[1..]) == t + ".";
      } else {
        ContentEmpty(t);
      }
    }
  }

  /** No content character is lost, added or moved by the sentence split. */
  lemma SentencesKeepContent(input: string)
    ensures Content(Concat(Sentences(input))) == Content(input)
  {
    var parts := Split(Trim(input), '.');
    ContentSentencify(parts);
    ContentJoinedByPeriods(parts);
    SplitJoin(Trim(input), '.');
    ContentOfTrim(input);
  }

  lemma SentencesNonEmpty(input: string)
    ensures AllNonEmpty(Sentences(input))
  {
    SentencesWellFormed(input);
  }

  // ---------------------------------------------------------------------
  // What the chunker promises

  /** The chunks, one after another, are the sentences one after another:
      nothing is dropped, reordered or given a separator. */
  lemma ChunksConcat(input: string, maxChunkLength: int)
    ensures Concat(Chunks(input, maxChunkLength)) == Concat(Sentences(input))
  {
    SentencesNonEmpty(input);
    GroupsShape(Sentences(input), maxChunkLength);
    ConcatFlatten(Groups(Sentences(input), maxChunkLength));
  }

  /** The chunks keep every content character of the input, in order. */
  lemma ChunksKeepContent(input: string, maxChunkLength: int)
    ensures Content(Concat(Chunks(input, maxChunkLength))) == Content(input)
  {
    ChunksConcat(input, maxChunkLength);
    SentencesKeepContent(input);
  }

  /** Each chunk is one or more consecutive sentences; a chunk made of two or
      more sentences fits `maxChunkLength`, so only a lone oversized sentence
      can exceed it; and a chunk was closed only because the first sentence
      of the next one would not have fitted. */
  lemma ChunksPacking(input: string, maxChunkLength: int)
    ensures var gs := Groups(Sentences(input), maxChunkLength);
      && Chunks(input, maxChunkLength) == MapConcat(gs)
      && Flatten(gs) == Sentences(input)
      && (forall k :: 0 <= k < |gs| ==> gs[k] != [])
      && (forall k :: 0 <= k < |gs| && |Concat(gs[k])| > maxChunkLength ==> |gs[k]| == 1)
      && (forall k :: 0 <= k < |gs| - 1 ==>
            |Concat(gs[k])| + |gs[k + 1][0]| > maxChunkLength)
  {
    SentencesNonEmpty(input);
    GroupsShape(Sentences(input), maxChunkLength);
  }

  /** There are no more chunks than sentences, and at least one chunk as soon
      as there is a sentence. */
  lemma ChunksCount(input: string, maxChunkLength: int)
    ensures |Chunks(input, maxChunkLength)| <= |Sentences(input)|
    ensures Sentences(input) != [] ==> |Chunks(input, maxChunkLength)| >= 1
  {
    var gs := Groups(Sentences(input), maxChunkLength);
    SentencesNonEmpty(input);
    GroupsShape(Sentences(input), maxChunkLength);
    FlattenLength(gs);
  }

  lemma {:induction false} ConcatOfSentences(ss: seq<string>)
    requires forall i :: 0 <= i < |ss| ==> IsSentence(ss[i])
    ensures ss != [] ==> |Concat(ss)| > 0 && Concat(ss)[|Concat(ss)| - 1] == '.'
  {
    if |ss| > 1 {
      ConcatOfSentences(ss[1..]);
    } else if |ss| == 1 {
      assert Concat(ss) == ss[0] + Concat([]);
    }
  }

  /** Every chunk is non-empty and ends with a period. */
  lemma ChunksEndWithPeriod(input: string, maxChunkLength: int)
    ensures forall k :: 0 <= k < |Chunks(input, maxChunkLength)| ==>
      var c := Chunks(input, maxChunkLength)[k];
      |c| > 0 && c[|c| - 1] == '.'
  {
    var ss := Sentences(input);
    var gs := Groups(ss, maxChunkLength);
    SentencesWellFormed(input);
    GroupsShape(ss, maxChunkLength);
    forall k | 0 <= k < |gs|
      ensures |Concat(gs[k])| > 0 && Concat(gs[k])[|Concat(gs[k])| - 1] == '.'
    {
      FlattenMember(gs, k);
      ConcatOfSentences(gs[k]);
    }
  }

  lemma {:induction false} FlattenMember(gs: seq<seq<string>>, k: nat)
    requires k < |gs|
    ensures forall j :: 0 <= j < |gs[k]| ==> gs[k][j] in Flatten(gs)
  {
    if k > 0 {
      FlattenMember(gs[1..], k - 1);
    }
  }

  /** Input that is empty, blank, or made only of whitespace and periods
      gives no chunk at all (never one empty chunk), and any other input
      gives at least one. */
  lemma ChunksEmpty(input: string, maxChunkLength: int)
    ensures Chunks(input, maxChunkLength) == [] <==>
            forall i :: 0 <= i < |input| ==> !IsContent(input[i])
  {
    var ss := Sentences(input);
    SentencesKeepContent(input);
    ContentEmpty(input);
    ChunksCount(input, maxChunkLength);
    if ss != [] {
      SentencesWellFormed(input);
      assert IsContent(ss[0][0]);
      ConcatAppend([ss[0]], ss[1..]);
      assert [ss[0]] + ss[1..] == ss;
      assert Concat([ss[0]]) == ss[0] + Concat([]);
      ContentAppend(ss[0], Concat(ss[1..]));
      assert Content(ss[0]) == [ss[0][0]] + Content(ss[0][1..]);
    } else {
      assert Groups(ss, maxChunkLength) == [];
    }
  }

  /** Text without a period is at most one sentence, so it becomes a
      single chunk, however long it is: the trimmed text with a period. */
  lemma OneSentenceChunk(input: string, maxChunkLength: int)
    requires '.' !in input
    requires Trim(input) != []
    ensures Chunks(input, maxChunkLength) == [Trim(input) + "."]
  {
    var t := Trim(input);
    var a := TrimSlice(input);
    assert '.' !in t by {
      forall k | 0 <= k < |t| ensures t[k] != '.' {
        assert t[k] == input[a + k];
      }
    }
    SplitWithoutSep(t, '.');
    TrimIdempotent(input);
    assert Sentencify([t]) == [t + "."] + Sentencify([]);
    var x := t + ".";
    assert Sentences(input) == [x];
    assert Concat([x]) == x + Concat([]) == x;
    assert [x][1..] == [] && [] + [x] == [x];
    assert Groups([x], maxChunkLength) == GroupFrom([], maxChunkLength, [x]) == [[x]];
    assert MapConcat([[x]]) == [Concat([x])] == [x];
  }

  // ---------------------------------------------------------------------
  // Embeddings

  /** `createEmbeddings`: embeds the chunks one at a time, in order, with
      the embedding backend `embed`. */
  method CreateEmbeddings(chunks: seq<string>, embed: string -> Vector)
    returns (embeddings: seq<Vector>)
    ensures |embeddings| == |chunks|
    ensures forall i :: 0 <= i < |chunks| ==> embeddings[i] == embed(chunks[i])
  {
    embeddings := [];
    for i := 0 to |chunks|
      invariant |embeddings| == i
      invariant forall j :: 0 <= j < i ==> embeddings[j] == embed(chunks[j])
    {
      var embedding := embed(chunks[i]);
      embeddings := embeddings + [embedding];
    }
  }

  const DimensionMismatch: string := "Embeddings must have the same dimensions"

  /** The guard at the top of `calculateSimilarity`: two vectors can be
      compared only when they have the same length. */
  function CheckDimensions(embedding1: Vector, embedding2: Vector): (r: Result<(), string>)
    ensures r.Failure? <==> |embedding1| != |embedding2|
    ensures r.Failure? ==> r.error == DimensionMismatch
  {
    if |embedding1| != |embedding2| then Failure(DimensionMismatch) else Success(())
  }
}
