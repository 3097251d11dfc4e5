/**
  A backlog of the N most recent items, newest first, in a ring whose head counts down and wraps as a
  32-bit unsigned integer.
 */
module RandomAccessBacklog {
  import opened Arithmetic

  const WRAP: int := 0x1_0000_0000

  /** Ring sizes for which a head that wraps still points at the right place: those that divide 2^32. */
  predicate IsRingSize(n: nat) {
    n > 0 && WRAP % n == 0
  }

  /** The place of item number index. */
  function Cell(head: nat, index: nat, n: nat): (cell: nat)
    requires n > 0
    ensures cell < n
  {
    (head + index) % WRAP % n
  }

  function Previous(head: nat): nat {
    (head - 1) % WRAP
  }

  lemma ModOfMod(x: int, n: nat)
    requires IsRingSize(n)
    ensures x % WRAP % n == x % n
  {
    var turns, rings := x / WRAP, WRAP / n;
    assert WRAP == rings * n;
    var rest := x % WRAP;
    assert x == (turns * rings + rest / n) * n + rest % n by {
      assert turns * WRAP == turns * rings * n;
      assert (turns * rings + rest / n) * n == turns * rings * n + rest / n * n;
    }
    DivModUnique(x, n, turns * rings + rest / n, rest % n);
  }

  lemma CellIsMod(head: nat, index: nat, n: nat)
    requires IsRingSize(n)
    ensures Cell(head, index, n) == (head + index) % n
  {
    ModOfMod(head + index, n);
  }

  /** Moving the head back shifts every item by one, also when the head wraps. */
  lemma CellShift(head: nat, index: nat, n: nat)
    requires n > 0
    ensures Cell(Previous(head), index + 1, n) == Cell(head, index, n)
  {
    var turns := (head - 1) / WRAP;
    DivModUnique(head + index, WRAP, turns + (Previous(head) + index + 1) / WRAP, (Previous(head) + index + 1) % WRAP);
  }

  lemma CellsDiffer(head: nat, i: nat, j: nat, n: nat)
    requires IsRingSize(n) && i < j < n
    ensures Cell(head, i, n) != Cell(head, j, n)
  {
    CellIsMod(head, i, n);
    CellIsMod(head, j, n);
    var x, y := head + i, head + j;
    if x % n == y % n {
      assert y - x == (y / n - x / n) * n;
      MulBounds(y / n - x / n, n);
    }
  }

  /** The contents after a new item: it comes first, and the oldest goes when the ring is full. */
  function PushedFront<T>(items: seq<T>, item: T, n: nat): seq<T>
    requires n > 0
  {
    [item] + if |items| >= n then items[..n - 1] else items
  }

  class RandomAccessBacklog<T> {
    const data: array<T>
    var head: nat
    var count: nat

    ghost predicate Valid()
      reads this
    {
      IsRingSize(data.Length) && count <= data.Length && head < WRAP
    }

    /** The items, newest first. */
    ghost function Contents(): (items: seq<T>)
      requires Valid()
      reads this, data
      ensures |items| == count
      ensures forall i :: 0 <= i < count ==> items[i] == data[Cell(head, i, data.Length)]
    {
      seq(count, i requires 0 <= i < count && Valid() reads this, data => data[Cell(head, i, data.Length)])
    }

    constructor (n: nat, filler: T)
      requires IsRingSize(n)
      ensures Valid() && fresh(data) && data.Length == n && Contents() == []
    {
      data := new T[n](_ => filler);
      head, count := 0, 0;
    }

    method Get(index: nat) returns (item: T)
      requires Valid() && index < count
      ensures item == Contents()[index]
    {
      item := data[Cell(head, index, data.Length)];
    }

    method Set(index: nat, item: T)
      requires Valid() && index < count
      modifies data
      ensures Valid() && Contents() == old(Contents())[index := item]
    {
      hide Cell;
      forall i | 0 <= i < count && i != index
        ensures Cell(head, i, data.Length) != Cell(head, index, data.Length)
      {
        CellsDiffer(head, if i < index then i else index, if i < index then index else i, data.Length);
      }
      data[Cell(head, index, data.Length)] := item;
    }

    method EmplaceFront(item: T)
      requires Valid()
      modifies this, data
      ensures Valid() && Contents() == PushedFront(old(Contents()), item, data.Length)
    {
      hide Cell, Previous;
      ghost var before := head;
      PreviousInRange(head);
      head := Previous(head);
      if count == data.Length {
        count := count - 1;
      }
      forall i | 0 <= i < count
        ensures Cell(head, i + 1, data.Length) == Cell(before, i, data.Length)
        ensures Cell(head, i + 1, data.Length) != Cell(head, 0, data.Length)
      {
        CellShift(before, i, data.Length);
        CellsDiffer(head, 0, i + 1, data.Length);
      }
      data[Cell(head, 0, data.Length)] := item;
      count := count + 1;
      FrontIsPushed(old(Contents()), Contents(), item, data.Length);
    }
  }

  lemma PreviousInRange(head: nat)
    ensures Previous(head) < WRAP
  {
  }

  lemma FrontIsPushed<T>(before: seq<T>, after: seq<T>, item: T, n: nat)
    requires n > 0 && |before| <= n && |after| == 1 + (if |before| == n then n - 1 else |before|)
    requires after[0] == item && forall i :: 0 <= i < |after| - 1 ==> after[i + 1] == before[i]
    ensures after == PushedFront(before, item, n)
  {
  }
}
