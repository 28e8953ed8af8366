/** `EventLoopThreadPool`: which loop a new connection goes to. */
module ThreadPools {
  /** The loops as the pool holds them; a loop is named by a number. */
  type Loop = nat

  class EventLoopThreadPool {
    const baseLoop: Loop
    const loops: seq<Loop>
    var next: nat
    ghost var calls: nat

    ghost predicate Valid()
      reads this
    {
      if loops == [] then next == 0 else next == calls % |loops|
    }

    constructor (baseLoop: Loop, loops: seq<Loop>)
      ensures Valid() && calls == 0 && this.loops == loops && this.baseLoop == baseLoop
    {
      this.baseLoop, this.loops := baseLoop, loops;
      next, calls := 0, 0;
    }

    /** Call number `k`, counted from zero, returns `loops[k mod n]`. */
    method GetNextLoop() returns (loop: Loop)
      requires Valid()
      modifies this`next, this`calls
      ensures Valid() && calls == old(calls) + 1
      ensures loop == if loops == [] then baseLoop else loops[old(calls) % |loops|]
    {
      loop := baseLoop;
      if loops != [] {
        NextTurn(calls, |loops|);
        loop := loops[next];
        next := next + 1;
        if next >= |loops| {
          next := 0;
        }
      }
      calls := calls + 1;
    }

    method GetLoopForHash(hashCode: nat) returns (loop: Loop)
      ensures if loops == [] then loop == baseLoop else loop == loops[hashCode % |loops|]
    {
      loop := baseLoop;
      if loops != [] {
        loop := loops[hashCode % |loops|];
      }
    }
  }

  lemma NextTurn(k: nat, n: nat)
    requires n > 0
    ensures (k + 1) % n == if k % n + 1 >= n then 0 else k % n + 1
  {
    var q, r := k / n, k % n;
    assert k == n * q + r;
    if r + 1 < n {
      ModOf(n, q, r + 1);
    } else {
      assert k + 1 == n * (q + 1) + 0 by {
        assert n * (q + 1) == n * q + n;
      }
      ModOf(n, q + 1, 0);
    }
  }

  lemma ModOf(n: nat, q: nat, r: nat)
    requires r < n
    ensures (n * q + r) % n == r
  {
    var m := n * q + r;
    assert m == n * (m / n) + m % n;
    assert n * (m / n) == n * q + n * (m / n - q);
    MultipleOf(n, m / n - q);
  }

  lemma MultipleOf(n: nat, d: int)
    ensures d >= 1 ==> n * d >= n
    ensures d <= -1 ==> n * d + n <= 0
  {
  }

  /** How often loop `i` is chosen by calls `start` to `start + count - 1`. */
  function Share(n: nat, start: nat, count: nat, i: nat): nat
    requires n > 0
    decreases count
  {
    if count == 0 then 0
    else Share(n, start, count - 1, i) + if (start + count - 1) % n == i then 1 else 0
  }

  /** How many turns after `start` the turn of loop `i` comes. */
  function Offset(n: nat, start: nat, i: nat): nat
    requires i < n
  {
    var s := start % n;
    if i >= s then i - s else i - s + n
  }

  /** After `count` calls, full rounds have served every loop `q` times, and the loops less than
      `r` turns away once more. */
  lemma {:induction false} Shares(n: nat, start: nat, count: nat) returns (q: nat, r: nat)
    requires n > 0
    ensures r < n
    ensures forall i :: 0 <= i < n ==> Share(n, start, count, i) == q + if Offset(n, start, i) < r then 1 else 0
    ensures (start + count) % n == (if start % n + r < n then start % n + r else start % n + r - n)
    decreases count
  {
    if count == 0 {
      q, r := 0, 0;
    } else {
      q, r := Shares(n, start, count - 1);
      NextTurn(start + count - 1, n);
      if r + 1 < n {
        r := r + 1;
      } else {
        q, r := q + 1, 0;
      }
    }
  }

  /** Over any window of calls, no loop is chosen two times more often than another. */
  lemma RoundRobinIsFair(n: nat, start: nat, count: nat, i: nat, j: nat)
    requires i < n && j < n
    ensures Share(n, start, count, i) <= Share(n, start, count, j) + 1
  {
    var q, r := Shares(n, start, count);
  }
}
