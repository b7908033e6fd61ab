/** Character counting, separator-terminated lists and separator-joined lists. */
module Strings {

  /** Number of occurrences of `c` in `s`. */
  function Count(s: string, c: char): (n: nat)
    ensures n <= |s|
    ensures n == 0 <==> c !in s
  {
    if s == [] then 0 else (if s[0] == c then 1 else 0) + Count(s[1..], c)
  }

  lemma {:induction false} CountAppend(a: string, b: string, c: char)
    ensures Count(a + b, c) == Count(a, c) + Count(b, c)
  {
    if a != [] {
      assert (a + b)[1..] == a[1..] + b;
      CountAppend(a[1..], b, c);
    } else {
      assert a + b == b;
    }
  }

  /** Every item followed by the terminator `c`, the last one included. */
  function Terminated(items: seq<string>, c: char): string
  {
    if items == [] then ""
    else Terminated(items[..|items| - 1], c) + items[|items| - 1] + [c]
  }

  lemma {:induction false} TerminatedAppend(a: seq<string>, b: seq<string>, c: char)
    ensures Terminated(a + b, c) == Terminated(a, c) + Terminated(b, c)
  {
    if b != [] {
      assert (a + b)[..|a + b| - 1] == a + b[..|b| - 1];
      TerminatedAppend(a, b[..|b| - 1], c);
    } else {
      assert a + b == a;
    }
  }

  /** A terminated list is empty or ends with its terminator. */
  lemma TerminatedEnds(items: seq<string>, c: char)
    ensures Terminated(items, c) == [] <==> items == []
    ensures items != [] ==> Terminated(items, c)[|Terminated(items, c)| - 1] == c
  {
  }

  /** When no item holds the terminator, it occurs once per item. */
  lemma {:induction false} CountTerminated(items: seq<string>, c: char)
    requires forall i :: 0 <= i < |items| ==> c !in items[i]
    ensures Count(Terminated(items, c), c) == |items|
  {
    if items != [] {
      var init, last := items[..|items| - 1], items[|items| - 1];
      CountTerminated(init, c);
      CountAppend(Terminated(init, c) + last, [c], c);
      CountAppend(Terminated(init, c), last, c);
    }
  }

  /** The items separated by `sep`: nothing before the first, nothing after the last. */
  function Join(items: seq<string>, sep: string): string
  {
    if items == [] then ""
    else if |items| == 1 then items[0]
    else Join(items[..|items| - 1], sep) + sep + items[|items| - 1]
  }

  /** One more item: the separator goes before it unless it is the first. */
  lemma JoinSnoc(items: seq<string>, x: string, sep: string)
    ensures Join(items + [x], sep) == if items == [] then x else Join(items, sep) + sep + x
  {
    assert (items + [x])[..|items|] == items;
  }

  /** A joined list starts with its first item and ends with its last one. */
  lemma {:induction false} JoinEnds(items: seq<string>, sep: string)
    requires items != []
    ensures |items[0]| <= |Join(items, sep)| && Join(items, sep)[..|items[0]|] == items[0]
    ensures var j := Join(items, sep); var last := items[|items| - 1];
      |last| <= |j| && j[|j| - |last|..] == last
  {
    if |items| > 1 {
      var init := items[..|items| - 1];
      JoinEnds(init, sep);
      assert init[0] == items[0];
      var j0 := Join(init, sep);
      assert Join(items, sep) == j0 + sep + items[|items| - 1];
      assert (j0 + sep + items[|items| - 1])[..|items[0]|] == j0[..|items[0]|];
    }
  }

  /** With a separator of one occurrence of `c` and items free of `c`, `c` occurs |items| - 1 times. */
  lemma {:induction false} CountJoin(items: seq<string>, sep: string, c: char)
    requires items != []
    requires Count(sep, c) == 1
    requires forall i :: 0 <= i < |items| ==> c !in items[i]
    ensures Count(Join(items, sep), c) == |items| - 1
  {
    if |items| > 1 {
      var init := items[..|items| - 1];
      CountJoin(init, sep, c);
      CountAppend(Join(init, sep) + sep, items[|items| - 1], c);
      CountAppend(Join(init, sep), sep, c);
    }
  }

  /** Joining with a one-character separator and adding it once more is terminating. */
  lemma {:induction false} JoinTerminated(items: seq<string>, c: char)
    requires items != []
    ensures Join(items, [c]) + [c] == Terminated(items, c)
  {
    if |items| == 1 {
      assert items[..0] == [];
    } else {
      JoinTerminated(items[..|items| - 1], c);
    }
  }
}
