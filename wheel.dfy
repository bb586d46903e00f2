/** The fixed European wheel: the order of the 37 pockets and the colour of each number. */
module Wheel {

  datatype Color = Green | Red | Black

  /** The display name of a colour, as it appears in the result message and as a canvas fill style. */
  function ColorName(c: Color): string
  {
    match c
    case Green => "green"
    case Red => "red"
    case Black => "black"
  }

  /** Pocket numbers in their physical order around the wheel, starting from pocket 0. */
  const Sequence: seq<int> := [
    0, 32, 15, 19, 4, 21, 2, 25, 17, 34, 6, 27, 13, 36, 11, 30,
    8, 23, 10, 5, 24, 16, 33, 1, 20, 14, 31, 9, 22, 18, 29, 7,
    28, 12, 35, 3, 26
  ]

  /** The number of pockets, taken from the length of the layout. */
  const PocketCount: int := |Sequence|

  /** The eighteen red numbers. */
  const Reds: set<int> := {1, 3, 5, 7, 9, 12, 14, 16, 18, 19, 21, 23, 25, 27, 30, 32, 34, 36}

  /** Green for 0; otherwise red for a member of Reds and black for anything else. */
  function NumberColor(n: int): (c: Color)
    ensures c == Green <==> n == 0
    ensures c == Red ==> 1 <= n <= 36
  {
    if n == 0 then Green else if n in Reds then Red else Black
  }

  /** Where each number sits on the wheel: the inverse of Sequence, used to prove that it is a permutation. */
  ghost const Position: seq<int> := [
    0, 23, 6, 35, 4, 19, 10, 31, 16, 27, 18, 14, 33, 12, 25, 2, 21, 8, 29,
    3, 24, 5, 28, 17, 20, 7, 36, 11, 32, 30, 15, 26, 1, 22, 9, 34, 13
  ]

  /** The colour a pocket has by its place on the wheel: green first, then red and black in turn. */
  function PlaceColor(i: nat): Color
  {
    if i == 0 then Green else if i % 2 == 1 then Red else Black
  }

  /** How many numbers of s have colour c. */
  function CountColor(s: seq<int>, c: Color): nat
  {
    if s == [] then 0
    else CountColor(s[..|s| - 1], c) + (if NumberColor(s[|s| - 1]) == c then 1 else 0)
  }

  // The lemmas below check the wheel entry by entry. Each forall covers half of the indices, and the
  // explicit disjunction makes the solver try the indices one at a time instead of instantiating
  // the sequence literal at random; without it the same proofs cost several times as much.
  lemma PositionInvertsSequence()
    ensures |Sequence| == 37 && |Position| == 37
    ensures forall i :: 0 <= i < 37 ==> Position[Sequence[i]] == i
  {
    forall i | 0 <= i < 19
      ensures 0 <= Sequence[i] < 37 && Position[Sequence[i]] == i
    {
      assert i == 0 || i == 1 || i == 2 || i == 3 || i == 4 || i == 5 || i == 6 || i == 7 || i == 8
        || i == 9 || i == 10 || i == 11 || i == 12 || i == 13 || i == 14 || i == 15 || i == 16
        || i == 17 || i == 18;
    }
    forall i | 19 <= i < 37
      ensures 0 <= Sequence[i] < 37 && Position[Sequence[i]] == i
    {
      assert i == 19 || i == 20 || i == 21 || i == 22 || i == 23 || i == 24 || i == 25 || i == 26
        || i == 27 || i == 28 || i == 29 || i == 30 || i == 31 || i == 32 || i == 33 || i == 34
        || i == 35 || i == 36;
    }
  }

  lemma SequenceInvertsPosition()
    ensures forall n :: 0 <= n < 37 ==> 0 <= Position[n] < 37 && Sequence[Position[n]] == n
  {
    forall n | 0 <= n < 19
      ensures 0 <= Position[n] < 37 && Sequence[Position[n]] == n
    {
      assert n == 0 || n == 1 || n == 2 || n == 3 || n == 4 || n == 5 || n == 6 || n == 7 || n == 8
        || n == 9 || n == 10 || n == 11 || n == 12 || n == 13 || n == 14 || n == 15 || n == 16
        || n == 17 || n == 18;
    }
    forall n | 19 <= n < 37
      ensures 0 <= Position[n] < 37 && Sequence[Position[n]] == n
    {
      assert n == 19 || n == 20 || n == 21 || n == 22 || n == 23 || n == 24 || n == 25 || n == 26
        || n == 27 || n == 28 || n == 29 || n == 30 || n == 31 || n == 32 || n == 33 || n == 34
        || n == 35 || n == 36;
    }
  }

  /** The layout has 37 pockets and holds every number 0..36 exactly once. */
  lemma SequenceIsPermutation()
    ensures PocketCount == 37
    ensures forall i :: 0 <= i < PocketCount ==> 0 <= Sequence[i] <= 36
    ensures forall i, j :: 0 <= i < PocketCount && 0 <= j < PocketCount && Sequence[i] == Sequence[j] ==> i == j
    ensures forall n :: 0 <= n <= 36 ==> n in Sequence
  {
    PositionInvertsSequence();
    SequenceInvertsPosition();
    forall n | 0 <= n <= 36
      ensures n in Sequence
    {
      assert Sequence[Position[n]] == n;
    }
  }

  /** After pocket 0 the colours alternate red, black, red, ... around the wheel. */
  lemma ColorsAlternate()
    ensures forall i :: 0 <= i < PocketCount ==> NumberColor(Sequence[i]) == PlaceColor(i)
  {
    forall i | 0 <= i < 19
      ensures NumberColor(Sequence[i]) == PlaceColor(i)
    {
      assert i == 0 || i == 1 || i == 2 || i == 3 || i == 4 || i == 5 || i == 6 || i == 7 || i == 8
        || i == 9 || i == 10 || i == 11 || i == 12 || i == 13 || i == 14 || i == 15 || i == 16
        || i == 17 || i == 18;
    }
    forall i | 19 <= i < 37
      ensures NumberColor(Sequence[i]) == PlaceColor(i)
    {
      assert i == 19 || i == 20 || i == 21 || i == 22 || i == 23 || i == 24 || i == 25 || i == 26
        || i == 27 || i == 28 || i == 29 || i == 30 || i == 31 || i == 32 || i == 33 || i == 34
        || i == 35 || i == 36;
    }
  }

  /** In any sequence coloured by place, a prefix of length k has one green (if k > 0), k / 2 reds and the rest black. */
  lemma {:induction false} PlaceColoredCounts(s: seq<int>, k: nat)
    requires k <= |s|
    requires forall i :: 0 <= i < |s| ==> NumberColor(s[i]) == PlaceColor(i)
    ensures CountColor(s[..k], Green) == (if k == 0 then 0 else 1)
    ensures CountColor(s[..k], Red) == k / 2
    ensures CountColor(s[..k], Black) == (if k == 0 then 0 else (k - 1) / 2)
  {
    if k > 0 {
      PlaceColoredCounts(s, k - 1);
      assert s[..k][..k - 1] == s[..k - 1];
      assert s[..k][k - 1] == s[k - 1];
    }
  }

  /** Across the wheel there is exactly one green pocket, eighteen red and eighteen black. */
  lemma ColorPartition()
    ensures CountColor(Sequence, Green) == 1
    ensures CountColor(Sequence, Red) == 18
    ensures CountColor(Sequence, Black) == 18
  {
    ColorsAlternate();
    PlaceColoredCounts(Sequence, 37);
    assert Sequence[..37] == Sequence;
  }
}
