/** Building blocks shared by the chunker and the loader: an optional value,
    and the concatenation of a sequence of sequences, used both for the text of
    a chunk (the sentences it is built from, concatenated) and for flattening a
    list of batches or chunks back into one sequence. */
module Seqs {

  /** A value that may be absent. */
  datatype Option<T> = None | Some(value: T)

  /** Concatenation of `ss` in order, with nothing inserted between the parts. */
  function Join<T>(ss: seq<seq<T>>): seq<T>
  {
    if ss == [] then [] else Join(ss[..|ss| - 1]) + ss[|ss| - 1]
  }

  function Min(a: int, b: int): int
  {
    if a <= b then a else b
  }

  lemma JoinSnoc<T>(ss: seq<seq<T>>, x: seq<T>)
    ensures Join(ss + [x]) == Join(ss) + x
  {
    assert (ss + [x])[..|ss|] == ss;
  }

  lemma {:induction false} JoinAppend<T>(a: seq<seq<T>>, b: seq<seq<T>>)
    ensures Join(a + b) == Join(a) + Join(b)
    decreases |b|
  {
    if b == [] {
      assert a + b == a;
    } else {
      var last := b[|b| - 1];
      var front := b[..|b| - 1];
      assert a + b == (a + front) + [last];
      JoinSnoc(a + front, last);
      JoinAppend(a, front);
      JoinSnoc(front, last);
      assert b == front + [last];
    }
  }

  lemma JoinCons<T>(x: seq<T>, ss: seq<seq<T>>)
    ensures Join([x] + ss) == x + Join(ss)
  {
    JoinAppend([x], ss);
    JoinSnoc([], x);
    assert [] + [x] == [x];
  }

  /** Parts that are all non-empty contribute at least one element each. */
  lemma {:induction false} JoinLength<T>(ss: seq<seq<T>>)
    requires forall k :: 0 <= k < |ss| ==> ss[k] != []
    ensures |Join(ss)| >= |ss|
    ensures Join(ss) == [] <==> ss == []
    decreases |ss|
  {
    if ss != [] {
      JoinLength(ss[..|ss| - 1]);
    }
  }
}
