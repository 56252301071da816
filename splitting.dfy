/**
 * Splitting text on a one-character separator, as Rust's `str::split("-")`
 * does: the pieces are the maximal runs between separators, so `"a--b"`
 * gives `["a", "", "b"]`, `"a-"` gives `["a", ""]` and `""` gives `[""]`.
 */
module Splitting {
  import opened Wrappers

  const Separator: char := '-'

  function Count(s: string): nat {
    if s == [] then 0 else (if s[0] == Separator then 1 else 0) + Count(s[1..])
  }

  /** Glues pieces back together with one separator between neighbours. */
  function Join(pieces: seq<string>): string
    requires |pieces| >= 1
  {
    if |pieces| == 1 then pieces[0] else pieces[0] + [Separator] + Join(pieces[1..])
  }

  /** Every piece `split` yields, in order. */
  function Split(s: string): (pieces: seq<string>)
    ensures |pieces| >= 1
  {
    if s == [] then [[]]
    else
      var rest := Split(s[1..]);
      if s[0] == Separator then [[]] + rest
      else [[s[0]] + rest[0]] + rest[1..]
  }

  /**
   * Splitting loses nothing: the pieces hold no separator, there is one more
   * of them than there are separators, and joining them gives the text back.
   */
  lemma {:induction false} SplitJoin(s: string)
    ensures |Split(s)| == Count(s) + 1
    ensures forall i :: 0 <= i < |Split(s)| ==> Separator !in Split(s)[i]
    ensures Join(Split(s)) == s
  {
    if s != [] {
      var rest := Split(s[1..]);
      SplitJoin(s[1..]);
      assert s == [s[0]] + s[1..];
      if s[0] == Separator {
        assert ([[]] + rest)[1..] == rest;
      } else {
        var pieces := [[s[0]] + rest[0]] + rest[1..];
        assert pieces[1..] == rest[1..];
        assert |rest| > 1 ==> Join(rest) == rest[0] + [Separator] + Join(rest[1..]);
      }
    }
  }

  /** A run without separators is one piece, whatever follows its separator. */
  lemma {:induction false} SplitFirstPiece(a: string, b: string)
    requires Separator !in a
    ensures Split(a + "-" + b) == [a] + Split(b)
  {
    if a != [] {
      SplitFirstPiece(a[1..], b);
      assert (a + "-" + b)[1..] == a[1..] + "-" + b;
      assert [a[0]] + a[1..] == a;
    } else {
      assert (a + "-" + b)[1..] == b;
    }
  }

  /** A run without separators splits into itself alone. */
  lemma {:induction false} SplitWhole(a: string)
    requires Separator !in a
    ensures Split(a) == [a]
  {
    if a != [] {
      SplitWhole(a[1..]);
      assert [a[0]] + a[1..] == a;
    }
  }

  /**
   * The iterator `split` returns: it hands out the pieces of `text` one at a
   * time, from `start` on, and is `finished` once the last piece is out.
   */
  class SplitIter {
    const text: string
    var start: nat
    var finished: bool

    predicate Valid()
      reads this
    {
      start <= |text|
    }

    /** The pieces not handed out yet. */
    function Remaining(): seq<string>
      reads this
      requires Valid()
    {
      if finished then [] else Split(text[start..])
    }

    constructor (text: string)
      ensures Valid() && this.text == text
      ensures Remaining() == Split(text)
    {
      this.text := text;
      start := 0;
      finished := false;
      new;
      assert text[0..] == text;
    }

    /** `Iterator::next`: the next piece, or `None` once all are out. */
    method Next() returns (piece: Option<string>)
      requires Valid()
      modifies this
      ensures Valid()
      ensures old(Remaining()) == [] ==> piece == None && Remaining() == []
      ensures old(Remaining()) != [] ==>
        piece == Some(old(Remaining())[0]) && Remaining() == old(Remaining())[1..]
    {
      if finished {
        return None;
      }
      var i := start;
      while i < |text| && text[i] != Separator
        invariant start <= i <= |text|
        invariant forall k :: start <= k < i ==> text[k] != Separator
      {
        i := i + 1;
      }
      if i == |text| {
        SplitWhole(text[start..]);
        piece := Some(text[start..]);
        finished := true;
      } else {
        assert text[start..] == text[start..i] + "-" + text[i + 1..];
        SplitFirstPiece(text[start..i], text[i + 1..]);
        piece := Some(text[start..i]);
        start := i + 1;
      }
    }
  }
}
