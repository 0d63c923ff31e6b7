/** The token-budget chunker of the PDF upload page (`create_chunk_list`).

    Sentences are appended one by one to a running buffer; after each append the
    buffer's tokens are counted. While the count is below the budget the buffer
    keeps growing (and is emitted if the sentence was the last one); once the
    count reaches or exceeds the budget the buffer, including the sentence just
    added, is emitted and the buffer is reset to the empty string.

    The tokenizer is a parameter `tok` (the upload page counts the tokens of the
    gpt-3.5-turbo encoding) and the budget is a parameter `budget` (the page
    fixes it at `TokenBudget`). */
module Chunker {
  import opened Seqs

  /** The budget `create_chunk_list` compares the token count against. */
  const TokenBudget: nat := 3000

  // ---------------------------------------------------------------------------
  // Reference definition: the loop, one sentence at a time, on groups of sentences
  // ---------------------------------------------------------------------------

  /** The groups of sentences the chunker emits when its buffer holds the
      sentences `pending` and the sentences `rest` are still to be read. The text
      of a chunk is the concatenation of its group. */
  function GroupFrom(pending: seq<string>, rest: seq<string>, tok: string -> nat, budget: nat): (g: seq<seq<string>>)
    ensures rest == [] <==> g == []
    ensures forall k :: 0 <= k < |g| ==> g[k] != []
    decreases |rest|
  {
    if rest == [] then []
    else
      var grown := pending + [rest[0]];
      if tok(Join(grown)) < budget then
        if |rest| == 1 then [grown] else GroupFrom(grown, rest[1..], tok, budget)
      else
        [grown] + GroupFrom([], rest[1..], tok, budget)
  }

  /** The groups of sentences behind the chunks of `sentences`. */
  function Groups(sentences: seq<string>, tok: string -> nat, budget: nat): (g: seq<seq<string>>)
    ensures sentences == [] <==> g == []
    ensures forall k :: 0 <= k < |g| ==> g[k] != []
  {
    GroupFrom([], sentences, tok, budget)
  }

  /** The text of each group. */
  function Texts(groups: seq<seq<string>>): seq<string>
  {
    seq(|groups|, k requires 0 <= k < |groups| => Join(groups[k]))
  }

  /** The chunk list `create_chunk_list` returns. */
  function Chunks(sentences: seq<string>, tok: string -> nat, budget: nat): (chunks: seq<string>)
    ensures sentences == [] <==> chunks == []
  {
    Texts(Groups(sentences, tok, budget))
  }

  // ---------------------------------------------------------------------------
  // Declarative partner: what a greedy partition into chunks is
  // ---------------------------------------------------------------------------

  /** Every non-empty prefix of `p` counts fewer tokens than the budget. */
  ghost predicate UnderBudget(p: seq<string>, tok: string -> nat, budget: nat)
  {
    forall m :: 0 < m <= |p| ==> tok(Join(p[..m])) < budget
  }

  /** `groups` cuts `sentences` into consecutive non-empty runs, no sentence split,
      such that every proper prefix of a run stays under the budget and every run
      but the last reaches it. Only the last run may be under the budget. */
  ghost predicate GreedyPartition(groups: seq<seq<string>>, sentences: seq<string>, tok: string -> nat, budget: nat)
  {
    && Join(groups) == sentences
    && (forall k :: 0 <= k < |groups| ==> groups[k] != [] && UnderBudget(groups[k][..|groups[k]| - 1], tok, budget))
    && (forall k :: 0 <= k < |groups| - 1 ==> tok(Join(groups[k])) >= budget)
  }

  lemma UnderBudgetGrow(p: seq<string>, x: string, tok: string -> nat, budget: nat)
    requires UnderBudget(p, tok, budget)
    requires tok(Join(p + [x])) < budget
    ensures UnderBudget(p + [x], tok, budget)
  {
    forall m | 0 < m <= |p + [x]|
      ensures tok(Join((p + [x])[..m])) < budget
    {
      if m <= |p| {
        assert (p + [x])[..m] == p[..m];
      } else {
        assert (p + [x])[..m] == p + [x];
      }
    }
  }

  /** The reference definition produces a greedy partition. */
  lemma {:induction false} GroupFromSound(pending: seq<string>, rest: seq<string>, tok: string -> nat, budget: nat)
    requires UnderBudget(pending, tok, budget)
    requires rest != [] || pending == []
    ensures GreedyPartition(GroupFrom(pending, rest, tok, budget), pending + rest, tok, budget)
    decreases |rest|
  {
    if rest == [] {
      assert pending + rest == [];
    } else {
      var grown := pending + [rest[0]];
      assert grown[..|grown| - 1] == pending;
      assert pending + rest == grown + rest[1..];
      if tok(Join(grown)) < budget {
        if |rest| == 1 {
          JoinSnoc([], grown);
          assert [] + [grown] == [grown];
          assert rest[1..] == [];
        } else {
          UnderBudgetGrow(pending, rest[0], tok, budget);
          GroupFromSound(grown, rest[1..], tok, budget);
        }
      } else {
        GroupFromSound([], rest[1..], tok, budget);
        assert [] + rest[1..] == rest[1..];
        FlushSound(grown, GroupFrom([], rest[1..], tok, budget), rest[1..], tok, budget);
      }
    }
  }

  /** A flushed buffer followed by a greedy partition of what comes after it is
      a greedy partition of the buffer and what comes after it. */
  lemma FlushSound(grown: seq<string>, tail: seq<seq<string>>, after: seq<string>, tok: string -> nat, budget: nat)
    requires grown != [] && UnderBudget(grown[..|grown| - 1], tok, budget)
    requires tok(Join(grown)) >= budget
    requires GreedyPartition(tail, after, tok, budget)
    ensures GreedyPartition([grown] + tail, grown + after, tok, budget)
  {
    JoinCons(grown, tail);
    FlushRuns(grown, tail, tok, budget);
  }

  /** The run conditions of a greedy partition survive putting a flushed buffer
      in front. */
  lemma FlushRuns(grown: seq<string>, tail: seq<seq<string>>, tok: string -> nat, budget: nat)
    requires grown != [] && UnderBudget(grown[..|grown| - 1], tok, budget)
    requires tok(Join(grown)) >= budget
    requires forall k :: 0 <= k < |tail| ==> tail[k] != [] && UnderBudget(tail[k][..|tail[k]| - 1], tok, budget)
    requires forall k :: 0 <= k < |tail| - 1 ==> tok(Join(tail[k])) >= budget
    ensures var g := [grown] + tail;
      && (forall k :: 0 <= k < |g| ==> g[k] != [] && UnderBudget(g[k][..|g[k]| - 1], tok, budget))
      && (forall k :: 0 <= k < |g| - 1 ==> tok(Join(g[k])) >= budget)
  {
    var g := [grown] + tail;
    forall k | 0 <= k < |g|
      ensures g[k] != [] && UnderBudget(g[k][..|g[k]| - 1], tok, budget)
    {
      if k > 0 { assert g[k] == tail[k - 1]; }
    }
    forall k | 0 <= k < |g| - 1
      ensures tok(Join(g[k])) >= budget
    {
      if k > 0 { assert g[k] == tail[k - 1]; }
    }
  }

  lemma GreedyPartitionTail(g: seq<seq<string>>, sentences: seq<string>, tok: string -> nat, budget: nat)
    requires GreedyPartition(g, sentences, tok, budget)
    requires g != []
    ensures sentences == g[0] + Join(g[1..])
    ensures GreedyPartition(g[1..], Join(g[1..]), tok, budget)
  {
    assert g == [g[0]] + g[1..];
    JoinCons(g[0], g[1..]);
    var tail := g[1..];
    forall k | 0 <= k < |tail|
      ensures tail[k] != [] && UnderBudget(tail[k][..|tail[k]| - 1], tok, budget)
    {
      assert tail[k] == g[k + 1];
    }
    forall k | 0 <= k < |tail| - 1
      ensures tok(Join(tail[k])) >= budget
    {
      assert tail[k] == g[k + 1];
    }
  }

  /** A non-empty run that starts the same text as an under-budget buffer and
      is no longer than it is under the budget too. */
  lemma SharedPrefixUnderBudget(p: seq<string>, rest: seq<string>, first: seq<string>, more: seq<string>, tok: string -> nat, budget: nat)
    requires UnderBudget(p, tok, budget)
    requires first + more == p + rest
    ensures 0 < |first| <= |p| ==> tok(Join(first)) < budget
  {
    if 0 < |first| <= |p| {
      assert first == (first + more)[..|first|];
      assert first == p[..|first|];
    }
  }

  /** A proper non-empty prefix of a run of a greedy partition is under the budget. */
  lemma ProperPrefixUnderBudget(group: seq<string>, q: seq<string>, tok: string -> nat, budget: nat)
    requires group != [] && UnderBudget(group[..|group| - 1], tok, budget)
    requires |q| <= |group| && group[..|q|] == q
    ensures 0 < |q| < |group| ==> tok(Join(q)) < budget
  {
    if 0 < |q| < |group| {
      assert group[..|group| - 1][..|q|] == q;
    }
  }

  /** In a greedy partition of `pending + rest`, where `pending` is a buffer the
      loop can hold, the first run extends past `pending` by at least the next
      sentence. */
  lemma FirstGroupCoversPending(pending: seq<string>, rest: seq<string>, g: seq<seq<string>>, tok: string -> nat, budget: nat)
    requires UnderBudget(pending, tok, budget)
    requires rest != []
    requires GreedyPartition(g, pending + rest, tok, budget)
    ensures g != []
    ensures |g[0]| > |pending|
    ensures g[0][..|pending| + 1] == pending + [rest[0]]
  {
    JoinLength(g);
    GreedyPartitionTail(g, pending + rest, tok, budget);
    var first := g[0];
    SharedPrefixUnderBudget(pending, rest, first, Join(g[1..]), tok, budget);
    assert |g| > 1 ==> tok(Join(first)) >= budget;
    JoinLength(g[1..]);
    assert |g| == 1 ==> |first| == |pending + rest|;
    assert first[..|pending| + 1] == (first + Join(g[1..]))[..|pending| + 1];
  }

  /** A greedy partition of `pending + rest`, where `pending` is a buffer the
      loop can hold, is the one the reference definition produces. */
  lemma {:induction false} GroupFromUnique(pending: seq<string>, rest: seq<string>, g: seq<seq<string>>, tok: string -> nat, budget: nat)
    requires UnderBudget(pending, tok, budget)
    requires rest != [] || pending == []
    requires GreedyPartition(g, pending + rest, tok, budget)
    ensures g == GroupFrom(pending, rest, tok, budget)
    decreases |rest|
  {
    if rest == [] {
      JoinLength(g);
      assert pending + rest == [];
    } else {
      var grown := pending + [rest[0]];
      assert pending + rest == grown + rest[1..];
      if tok(Join(grown)) < budget && |rest| > 1 {
        UnderBudgetGrow(pending, rest[0], tok, budget);
        GroupFromUnique(grown, rest[1..], g, tok, budget);
      } else {
        FirstGroupCoversPending(pending, rest, g, tok, budget);
        GreedyPartitionTail(g, pending + rest, tok, budget);
        var first := g[0];
        ProperPrefixUnderBudget(first, grown, tok, budget);
        assert |first| > |grown| ==> |first| > |pending + rest|;
        assert first == grown;
        assert Join(g[1..]) == rest[1..] by {
          assert Join(g[1..]) == (first + Join(g[1..]))[|grown|..];
          assert rest[1..] == (grown + rest[1..])[|grown|..];
        }
        assert g == [grown] + g[1..];
        if |rest| == 1 {
          JoinLength(g[1..]);
        } else {
          assert [] + rest[1..] == rest[1..];
          GroupFromUnique([], rest[1..], g[1..], tok, budget);
        }
      }
    }
  }

  /** The chunker's groups are exactly the greedy partition of the sentences:
      it is one, and no other partition is. */
  lemma GroupsCharacterized(sentences: seq<string>, g: seq<seq<string>>, tok: string -> nat, budget: nat)
    ensures GreedyPartition(g, sentences, tok, budget) <==> g == Groups(sentences, tok, budget)
  {
    assert [] + sentences == sentences;
    if g == Groups(sentences, tok, budget) {
      GroupFromSound([], sentences, tok, budget);
    }
    if GreedyPartition(g, sentences, tok, budget) {
      GroupFromUnique([], sentences, g, tok, budget);
    }
  }

  // ---------------------------------------------------------------------------
  // Properties of the chunk list
  // ---------------------------------------------------------------------------

  /** Emitting one more group adds its text to the end of the chunk list. */
  lemma TextsSnoc(groups: seq<seq<string>>, g: seq<string>)
    ensures Texts(groups + [g]) == Texts(groups) + [Join(g)]
  {
    assert Texts(groups + [g])[|groups|] == Join(g);
  }

  lemma {:induction false} JoinTexts(g: seq<seq<string>>)
    ensures Join(Texts(g)) == Join(Join(g))
    decreases |g|
  {
    if g != [] {
      var front, last := g[..|g| - 1], g[|g| - 1];
      assert g == front + [last];
      TextsSnoc(front, last);
      JoinSnoc(Texts(front), Join(last));
      JoinTexts(front);
      JoinAppend(Join(front), last);
    }
  }

  lemma {:induction false} JoinHasParts<T>(ss: seq<seq<T>>, k: nat, i: nat)
    requires k < |ss| && i < |ss[k]|
    ensures ss[k][i] in Join(ss)
    decreases |ss|
  {
    if k < |ss| - 1 {
      JoinHasParts(ss[..|ss| - 1], k, i);
    }
  }

  /** Concatenating the chunks in order gives back the concatenated sentences:
      no text is lost, duplicated or reordered. */
  lemma ChunksPreserveText(sentences: seq<string>, tok: string -> nat, budget: nat)
    ensures Join(Chunks(sentences, tok, budget)) == Join(sentences)
  {
    var g := Groups(sentences, tok, budget);
    GroupsCharacterized(sentences, g, tok, budget);
    JoinTexts(g);
  }

  /** No sentences give no chunks; otherwise at least one chunk and never more
      chunks than sentences. */
  lemma ChunkCount(sentences: seq<string>, tok: string -> nat, budget: nat)
    ensures sentences == [] <==> Chunks(sentences, tok, budget) == []
    ensures |Chunks(sentences, tok, budget)| <= |sentences|
  {
    var g := Groups(sentences, tok, budget);
    GroupsCharacterized(sentences, g, tok, budget);
    JoinLength(g);
  }

  /** Every chunk but the last counts at least `budget` tokens; only the last one
      may fall short. */
  lemma ChunksReachBudget(sentences: seq<string>, tok: string -> nat, budget: nat)
    ensures var chunks := Chunks(sentences, tok, budget);
      forall k :: 0 <= k < |chunks| - 1 ==> tok(chunks[k]) >= budget
  {
    GroupsCharacterized(sentences, Groups(sentences, tok, budget), tok, budget);
  }

  /** A chunk overshoots the budget only through its final sentence: the text of
      every proper prefix of its sentences is under the budget. */
  lemma ChunkPrefixesUnderBudget(sentences: seq<string>, tok: string -> nat, budget: nat, k: nat, m: nat)
    requires k < |Groups(sentences, tok, budget)|
    requires 0 < m < |Groups(sentences, tok, budget)[k]|
    ensures Chunks(sentences, tok, budget)[k] == Join(Groups(sentences, tok, budget)[k])
    ensures tok(Join(Groups(sentences, tok, budget)[k][..m])) < budget
  {
    var g := Groups(sentences, tok, budget);
    GroupsCharacterized(sentences, g, tok, budget);
    assert g[k][..|g[k]| - 1][..m] == g[k][..m];
  }

  /** Every chunk has at least one sentence, and a sentence that alone reaches
      the budget and starts a chunk (arrives on an empty buffer) is a chunk by
      itself: sentences are never split. */
  lemma OversizedSentenceStandsAlone(sentences: seq<string>, tok: string -> nat, budget: nat)
    ensures var g := Groups(sentences, tok, budget);
      forall k :: 0 <= k < |g| ==> g[k] != [] && (tok(g[k][0]) >= budget ==> g[k] == [g[k][0]])
  {
    var g := Groups(sentences, tok, budget);
    GroupsCharacterized(sentences, g, tok, budget);
    forall k | 0 <= k < |g|
      ensures tok(g[k][0]) >= budget ==> g[k] == [g[k][0]]
    {
      JoinSnoc([], g[k][0]);
      assert [] + [g[k][0]] == [g[k][0]] == g[k][..1];
      assert Join(g[k][..1]) == g[k][0];
      ProperPrefixUnderBudget(g[k], g[k][..1], tok, budget);
      assert |g[k]| == 1 ==> g[k] == [g[k][0]];
    }
  }

  /** With non-empty sentences every chunk is non-empty. */
  lemma NonEmptyChunks(sentences: seq<string>, tok: string -> nat, budget: nat)
    requires forall i :: 0 <= i < |sentences| ==> sentences[i] != ""
    ensures forall k :: 0 <= k < |Chunks(sentences, tok, budget)| ==> Chunks(sentences, tok, budget)[k] != ""
  {
    var g := Groups(sentences, tok, budget);
    GroupsCharacterized(sentences, g, tok, budget);
    forall k | 0 <= k < |g|
      ensures Join(g[k]) != ""
    {
      JoinHasParts(g, k, 0);
      assert g[k][0] != "";
      JoinLength(g[k][..1]);
      assert g[k] == g[k][..1] + g[k][1..];
      JoinAppend(g[k][..1], g[k][1..]);
    }
  }

  /** A tokenizer under which every two characters make one token. */
  function TwoCharTokens(s: string): nat
  {
    |s| / 2
  }

  /** An example: three two-character sentences of one token each and a
      budget of two give the chunks "A.B." and "C.". */
  lemma ThreeSentenceExample()
    ensures Chunks(["A.", "B.", "C."], TwoCharTokens, 2) == ["A.B.", "C."]
  {
    var g := ExampleGroups();
    TextsSnoc([], g[0]);
    TextsSnoc([g[0]], g[1]);
    assert [] + [g[0]] == [g[0]] && [g[0]] + [g[1]] == g;
    assert Join(g[0]) == "A.B." && Join(g[1]) == "C." by {
      JoinSnoc([], "A.");
      JoinSnoc(["A."], "B.");
      JoinSnoc([], "C.");
      assert [] + ["A."] == ["A."] && ["A."] + ["B."] == ["A.", "B."] && [] + ["C."] == ["C."];
    }
  }

  /** The sentence groups of the example above. */
  lemma ExampleGroups() returns (g: seq<seq<string>>)
    ensures g == Groups(["A.", "B.", "C."], TwoCharTokens, 2) == [["A.", "B."], ["C."]]
  {
    var s := ["A.", "B.", "C."];
    JoinSnoc([], "A.");
    JoinSnoc(["A."], "B.");
    assert [] + ["A."] == ["A."] && ["A."] + ["B."] == ["A.", "B."];
    assert s[1..] == ["B.", "C."] && s[1..][1..] == ["C."];
    assert GroupFrom([], s, TwoCharTokens, 2) == GroupFrom(["A."], ["B.", "C."], TwoCharTokens, 2);
    assert GroupFrom(["A."], ["B.", "C."], TwoCharTokens, 2) == [["A.", "B."]] + GroupFrom([], ["C."], TwoCharTokens, 2);
    assert GroupFrom([], ["C."], TwoCharTokens, 2) == [["C."]];
    g := [["A.", "B."], ["C."]];
  }

  /** Two sentences at the page's budget: an oversized first sentence is
      flushed on its own, and two sentences that fit together make one chunk. */
  lemma TwoSentencesAtPageBudget(a: string, b: string, tok: string -> nat)
    ensures tok(a) >= TokenBudget ==> Chunks([a, b], tok, TokenBudget) == [a, b]
    ensures tok(a) < TokenBudget && tok(a + b) < TokenBudget ==> Chunks([a, b], tok, TokenBudget) == [a + b]
  {
    var s := [a, b];
    JoinSnoc([], a);
    JoinSnoc([a], b);
    JoinSnoc([], b);
    assert [] + [a] == [a] && [a] + [b] == s && [] + [b] == [b];
    assert s[1..] == [b];
    assert Join([a]) == a && Join([b]) == b && Join(s) == a + b;
    assert s[0] == a && [] + [s[0]] == [a];
    if tok(a) >= TokenBudget {
      assert Groups(s, tok, TokenBudget) == [[a]] + GroupFrom([], [b], tok, TokenBudget);
      assert GroupFrom([], [b], tok, TokenBudget) == [[b]];
      assert Groups(s, tok, TokenBudget) == [[a], [b]];
      assert Texts([[a], [b]]) == [a, b];
    } else if tok(a + b) < TokenBudget {
      assert Groups(s, tok, TokenBudget) == GroupFrom([a], [b], tok, TokenBudget);
      assert Groups(s, tok, TokenBudget) == [s];
      assert Texts([s]) == [a + b];
    }
  }

  // ---------------------------------------------------------------------------
  // The loop
  // ---------------------------------------------------------------------------

  /** One turn of the loop, read off the reference definition: the groups still
      to come from buffer `pending` at sentence `i`, in terms of the buffer and
      the groups still to come after it. */
  lemma GroupFromStep(done: seq<seq<string>>, pending: seq<string>, sentences: seq<string>, i: nat,
                      tok: string -> nat, budget: nat)
    requires i < |sentences|
    ensures var grown := pending + [sentences[i]];
      done + GroupFrom(pending, sentences[i..], tok, budget) ==
        if tok(Join(grown)) >= budget then (done + [grown]) + GroupFrom([], sentences[i + 1..], tok, budget)
        else if i == |sentences| - 1 then (done + [grown]) + GroupFrom(grown, sentences[i + 1..], tok, budget)
        else done + GroupFrom(grown, sentences[i + 1..], tok, budget)
  {
    assert sentences[i..][0] == sentences[i] && sentences[i..][1..] == sentences[i + 1..];
    var grown := pending + [sentences[i]];
    if tok(Join(grown)) >= budget {
      assert done + ([grown] + GroupFrom([], sentences[i + 1..], tok, budget))
          == (done + [grown]) + GroupFrom([], sentences[i + 1..], tok, budget);
    } else if i == |sentences| - 1 {
      assert sentences[i + 1..] == [];
      assert done + [grown] == (done + [grown]) + GroupFrom(grown, sentences[i + 1..], tok, budget);
    }
  }

  /** `create_chunk_list`: one pass over the sentences with a string buffer. */
  method CreateChunkList(sentences: seq<string>, tok: string -> nat, budget: nat) returns (chunkList: seq<string>)
    ensures chunkList == Chunks(sentences, tok, budget)
    ensures Join(chunkList) == Join(sentences)
    ensures |chunkList| <= |sentences|
  {
    var l := |sentences|;
    chunkList := [];
    var chunk := "";
    ghost var pending: seq<string> := [];
    ghost var done: seq<seq<string>> := [];
    ghost var total := Groups(sentences, tok, budget);
    for i := 0 to l
      invariant chunk == Join(pending)
      invariant chunkList == Texts(done)
      invariant done + GroupFrom(pending, sentences[i..], tok, budget) == total
    {
      GroupFromStep(done, pending, sentences, i, tok, budget);
      JoinSnoc(pending, sentences[i]);
      chunk := chunk + sentences[i];
      pending := pending + [sentences[i]];
      if tok(chunk) < budget {
        if i == l - 1 {
          TextsSnoc(done, pending);
          chunkList := chunkList + [chunk];
          done := done + [pending];
        }
      } else {
        TextsSnoc(done, pending);
        chunkList := chunkList + [chunk];
        done := done + [pending];
        chunk := "";
        pending := [];
      }
    }
    assert done == total;
    ChunksPreserveText(sentences, tok, budget);
    ChunkCount(sentences, tok, budget);
  }
}
