/** Numbers handed out in turn: number k goes to place k mod n. */
module RoundRobin {

  lemma SameTurn(k: nat, n: nat)
    requires n > 0
    ensures (k + n) % n == k % n
  {
    var d := (k + n) / n - k / n - 1;
    assert n * d == k % n - (k + n) % n;
    MultipleBelow(n, d);
  }

  lemma MultipleBelow(n: int, d: int)
    requires -n < n * d < n
    ensures d == 0
  {
    assert d >= 1 ==> n * d >= n;
    assert d <= -1 ==> n * d <= -n;
  }

  lemma OtherTurn(a: nat, b: nat, n: nat)
    requires a < b < a + n
    ensures a % n != b % n
  {
    assert b - a == n * (b / n - a / n) + b % n - a % n;
    if a % n == b % n { MultipleBelow(n, b / n - a / n); }
  }

  /** The numbers below end that have the turn of the first, in order. */
  function Turns(first: nat, n: nat, end: nat): seq<nat>
    requires n > 0
    decreases end - first
  {
    if first >= end then [] else [first] + Turns(first + n, n, end)
  }

  lemma {:induction false} TurnsAre(first: nat, n: nat, end: nat, k: nat)
    requires n > 0
    ensures k in Turns(first, n, end) <==> first <= k < end && k % n == first % n
    decreases end - first
  {
    if first < end {
      TurnsAre(first + n, n, end, k);
      SameTurn(first, n);
      if first < k < first + n { OtherTurn(first, k, n); }
    }
  }

  lemma {:induction false} OneMoreTurn(first: nat, n: nat, end: nat)
    requires n > 0
    ensures Turns(first, n, end + 1)
        == Turns(first, n, end) + if first <= end && end % n == first % n then [end] else []
    decreases end - first
  {
    if first < end {
      OneMoreTurn(first + n, n, end);
      SameTurn(first, n);
      if end < first + n { OtherTurn(first, end, n); }
    } else if first == end {
      assert Turns(first + n, n, end + 1) == [];
    }
  }
}
