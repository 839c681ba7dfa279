/** Small arithmetic that several modules share. */
module Numbers {
  function Min(a: int, b: int): int { if a < b then a else b }

  function Max(a: int, b: int): int { if a > b then a else b }

  /** Counts a condition. */
  function One(b: bool): nat { if b then 1 else 0 }

  /** `total` of `length` bytes went out in n records of `size` bytes, the last of them perhaps
      shorter, and in no fewer. */
  predicate Paced(n: nat, size: nat, length: nat, total: nat) {
    total == Min(n * size, length) && (n > 0 ==> (n - 1) * size < length)
  }

  lemma PacedStart(size: nat, length: nat)
    ensures Paced(0, size, length, 0)
  {
  }

  lemma PacedOn(n: nat, size: nat, length: nat, total: nat, more: nat)
    requires total < length
    ensures Paced(n, size, length, total) && more == Min(size, length - total) ==>
              Paced(n + 1, size, length, total + more)
  {
    assert (n + 1) * size == n * size + size;
  }

  lemma PacedShort(n: nat, size: nat, length: nat, total: nat)
    requires total < length
    ensures Paced(n, size, length, total) ==> n * size < length
  {
  }
}
