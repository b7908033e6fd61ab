/**
  Splitting a string at a separator character, read left to right as the
  character loops of the translator and the tokenizer read it.
  `Complete(s, c)` are the pieces that a `c` has closed, in order, empty ones
  included; `Tail(s, c)` is what follows the last `c`. `Pieces` adds the tail
  when it is not empty, and `Tokens` keeps only the non-empty pieces.
*/
module Splitting {
  import opened Strings

  function Last(s: string): char
    requires s != []
  {
    s[|s| - 1]
  }

  /** The characters after the last `c` of `s` (all of `s` when there is none). */
  function Tail(s: string, c: char): string
  {
    if s == [] then []
    else if Last(s) == c then []
    else Tail(s[..|s| - 1], c) + [Last(s)]
  }

  /** The pieces of `s` that a `c` closes, in order. */
  function Complete(s: string, c: char): seq<string>
  {
    if s == [] then []
    else if Last(s) == c then Complete(s[..|s| - 1], c) + [Tail(s[..|s| - 1], c)]
    else Complete(s[..|s| - 1], c)
  }

  /** Every closed piece, then the tail when it is not empty. */
  function Pieces(s: string, c: char): seq<string>
  {
    Complete(s, c) + (if Tail(s, c) == [] then [] else [Tail(s, c)])
  }

  function NonEmpty(ps: seq<string>): (r: seq<string>)
    ensures forall i :: 0 <= i < |r| ==> r[i] != []
    ensures |r| <= |ps|
  {
    if ps == [] then []
    else if ps[|ps| - 1] == [] then NonEmpty(ps[..|ps| - 1])
    else NonEmpty(ps[..|ps| - 1]) + [ps[|ps| - 1]]
  }

  /** What a tokenizer with delimiter `c` returns: the maximal non-empty `c`-free runs. */
  function Tokens(s: string, c: char): seq<string>
  {
    NonEmpty(Pieces(s, c))
  }

  /** One more character: how the loops of the translator advance. */
  lemma Advance(s: string, x: char, c: char)
    ensures x == c ==> Complete(s + [x], c) == Complete(s, c) + [Tail(s, c)] && Tail(s + [x], c) == []
    ensures x != c ==> Complete(s + [x], c) == Complete(s, c) && Tail(s + [x], c) == Tail(s, c) + [x]
  {
    assert (s + [x])[..|s|] == s;
  }

  lemma {:induction false} TailFree(s: string, c: char)
    ensures c !in Tail(s, c)
  {
    if s != [] && Last(s) != c {
      TailFree(s[..|s| - 1], c);
    }
  }

  /** The tail is empty iff `s` is empty or ends with the separator. */
  lemma TailEmpty(s: string, c: char)
    ensures Tail(s, c) == [] <==> (s == [] || Last(s) == c)
  {
  }

  lemma {:induction false} CompleteFree(s: string, c: char)
    ensures forall i :: 0 <= i < |Complete(s, c)| ==> c !in Complete(s, c)[i]
  {
    if s != [] {
      CompleteFree(s[..|s| - 1], c);
      TailFree(s[..|s| - 1], c);
    }
  }

  /** No piece holds the separator. */
  lemma PiecesFree(s: string, c: char)
    ensures forall i :: 0 <= i < |Pieces(s, c)| ==> c !in Pieces(s, c)[i]
  {
    CompleteFree(s, c);
    TailFree(s, c);
  }

  /** The closed pieces, each given back its separator, followed by the tail, are `s` again. */
  lemma {:induction false} Reassemble(s: string, c: char)
    ensures Terminated(Complete(s, c), c) + Tail(s, c) == s
  {
    if s != [] {
      var init := s[..|s| - 1];
      Reassemble(init, c);
      assert s == init + [Last(s)];
      if Last(s) == c {
        assert Complete(init, c) + [Tail(init, c)] == Complete(s, c);
        assert Terminated(Complete(s, c), c) == Terminated(Complete(init, c), c) + Tail(init, c) + [c];
      } else {
        assert Tail(s, c) == Tail(init, c) + [Last(s)];
      }
    }
  }

  /** One closed piece per separator. */
  lemma {:induction false} CountComplete(s: string, c: char)
    ensures |Complete(s, c)| == Count(s, c)
  {
    if s != [] {
      var init := s[..|s| - 1];
      CountComplete(init, c);
      assert s == init + [Last(s)];
      CountAppend(init, [Last(s)], c);
    }
  }

  /** Splitting then terminating every piece gives `s` back, with a separator added
      when `s` did not end with one. */
  lemma PiecesRoundTrip(s: string, c: char)
    ensures Terminated(Pieces(s, c), c) == if Tail(s, c) == [] then s else s + [c]
  {
    Reassemble(s, c);
    if Tail(s, c) != [] {
      TerminatedAppend(Complete(s, c), [Tail(s, c)], c);
    } else {
      assert Pieces(s, c) == Complete(s, c);
    }
  }

  /** The number of pieces: one per separator, plus one for a non-empty tail. */
  lemma PiecesCount(s: string, c: char)
    ensures |Pieces(s, c)| == Count(s, c) + (if Tail(s, c) == [] then 0 else 1)
  {
    CountComplete(s, c);
  }

  /** Appending separator-free text extends the tail and closes no piece. */
  lemma {:induction false} AppendFree(s: string, w: string, c: char)
    requires c !in w
    ensures Complete(s + w, c) == Complete(s, c)
    ensures Tail(s + w, c) == Tail(s, c) + w
  {
    if w != [] {
      var init := w[..|w| - 1];
      AppendFree(s, init, c);
      assert s + w == (s + init) + [w[|w| - 1]];
      Advance(s + init, w[|w| - 1], c);
    } else {
      assert s + w == s;
    }
  }

  /** Splitting a terminated list of separator-free items gives the items back, empty ones included. */
  lemma {:induction false} CompleteTerminated(items: seq<string>, c: char)
    requires forall i :: 0 <= i < |items| ==> c !in items[i]
    ensures Complete(Terminated(items, c), c) == items
    ensures Tail(Terminated(items, c), c) == []
  {
    if items != [] {
      var init, last := items[..|items| - 1], items[|items| - 1];
      CompleteTerminated(init, c);
      AppendFree(Terminated(init, c), last, c);
      Advance(Terminated(init, c) + last, c, c);
      assert Terminated(items, c) == (Terminated(init, c) + last) + [c];
      assert Tail(Terminated(init, c) + last, c) == last;
      assert items == init + [last];
    }
  }

  lemma PiecesOfTerminated(items: seq<string>, c: char)
    requires forall i :: 0 <= i < |items| ==> c !in items[i]
    ensures Pieces(Terminated(items, c), c) == items
  {
    CompleteTerminated(items, c);
  }

  /** Terminating is injective on separator-free lists, so `Pieces` is the only split. */
  lemma TerminatedInjective(ps: seq<string>, qs: seq<string>, c: char)
    requires forall i :: 0 <= i < |ps| ==> c !in ps[i]
    requires forall i :: 0 <= i < |qs| ==> c !in qs[i]
    requires Terminated(ps, c) == Terminated(qs, c)
    ensures ps == qs
  {
    PiecesOfTerminated(ps, c);
    PiecesOfTerminated(qs, c);
  }

  lemma {:induction false} NonEmptyAll(ps: seq<string>)
    requires forall i :: 0 <= i < |ps| ==> ps[i] != []
    ensures NonEmpty(ps) == ps
  {
    if ps != [] {
      NonEmptyAll(ps[..|ps| - 1]);
    }
  }

  lemma {:induction false} NonEmptyFree(ps: seq<string>, c: char)
    requires forall i :: 0 <= i < |ps| ==> c !in ps[i]
    ensures forall i :: 0 <= i < |NonEmpty(ps)| ==> c !in NonEmpty(ps)[i]
  {
    if ps != [] {
      NonEmptyFree(ps[..|ps| - 1], c);
    }
  }

  /** Every token is non-empty and free of the delimiter. */
  lemma TokensWellFormed(s: string, c: char)
    ensures forall i :: 0 <= i < |Tokens(s, c)| ==> Tokens(s, c)[i] != [] && c !in Tokens(s, c)[i]
  {
    PiecesFree(s, c);
    NonEmptyFree(Pieces(s, c), c);
  }

  /** Tokenizing a terminated list of non-empty delimiter-free items gives the items back. */
  lemma TokensOfTerminated(items: seq<string>, c: char)
    requires forall i :: 0 <= i < |items| ==> items[i] != [] && c !in items[i]
    ensures Tokens(Terminated(items, c), c) == items
  {
    PiecesOfTerminated(items, c);
    NonEmptyAll(items);
  }

  /** A separator at the end adds no token. */
  lemma TokensTrailing(s: string, c: char)
    ensures Tokens(s + [c], c) == Tokens(s, c)
  {
    Advance(s, c, c);
    var done, t := Complete(s, c), Tail(s, c);
    assert Pieces(s + [c], c) == done + [t];
    if t == [] {
      assert (done + [t])[..|done|] == done;
      assert NonEmpty(done + [t]) == NonEmpty(done);
      assert Pieces(s, c) == done;
    } else {
      assert Pieces(s, c) == done + [t];
    }
  }

  /** The tokens of separated items are the items, when none is empty or holds the separator. */
  lemma TokensOfJoin(items: seq<string>, c: char)
    requires forall i :: 0 <= i < |items| ==> items[i] != [] && c !in items[i]
    ensures Tokens(Join(items, [c]), c) == items
  {
    if items != [] {
      JoinTerminated(items, c);
      TokensTrailing(Join(items, [c]), c);
      TokensOfTerminated(items, c);
    }
  }
}
