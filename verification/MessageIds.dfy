/** The MessageID sequence of sections 3.1.2 and 6.14 of IVI-6.1 (protocol/messageid.go). */
module MessageIds {
  import opened Basics

  type MessageId = uint32

  const INITIAL_MESSAGE_ID: MessageId := 0xffff_ff00
  const NO_MESSAGE_ID: MessageId := 0xffff_ffff
  const STATUS_QUERY_INITIAL_MESSAGE_ID: MessageId := 0xffff_fefe
  const TWO_TO_THE_32: int := 0x1_0000_0000

  /** Unsigned 32-bit addition of the increment wraps. */
  function Next(m: MessageId): (r: MessageId)
    ensures Previous(r) == m
  {
    (m + 2) % TWO_TO_THE_32
  }

  function Previous(m: MessageId): MessageId {
    (m - 2) % TWO_TO_THE_32
  }

  /** The identifier of the k-th message after a reset, as the counter produces it: k steps of Next. */
  function Nth(k: nat): MessageId {
    if k == 0 then INITIAL_MESSAGE_ID else Next(Nth(k - 1))
  }

  /** The identifier k steps after m, by arithmetic. */
  function Advance(m: MessageId, k: nat): MessageId {
    (m + 2 * k) % TWO_TO_THE_32
  }

  lemma {:induction false} AdvanceNext(m: MessageId, k: nat)
    ensures Advance(m, k + 1) == Next(Advance(m, k))
    ensures Advance(m, k + 1) == Advance(Next(m), k)
    ensures Advance(m, 0) == m
  {
    var a := m + 2 * k;
    assert m + 2 * (k + 1) == a + 2;
    WrapAdd(a, 2);
    WrapAdd(m + 2, 2 * k);
    assert (m + 2) + 2 * k == a + 2;
  }

  /** Wrapping before an addition makes no difference after it. */
  lemma WrapAdd(x: nat, y: nat)
    ensures (x % TWO_TO_THE_32 + y) % TWO_TO_THE_32 == (x + y) % TWO_TO_THE_32
  {
    var q, r := x / TWO_TO_THE_32, x % TWO_TO_THE_32;
    assert x == TWO_TO_THE_32 * q + r;
    WrapMany(r + y, q);
  }

  lemma {:induction false} WrapMany(x: nat, q: nat)
    ensures (x + TWO_TO_THE_32 * q) % TWO_TO_THE_32 == x % TWO_TO_THE_32
  {
    if q > 0 {
      WrapMany(x, q - 1);
      assert x + TWO_TO_THE_32 * q == (x + TWO_TO_THE_32 * (q - 1)) + TWO_TO_THE_32;
    }
  }

  /** The k-th Take returns 0xffffff00 + 2k mod 2^32. */
  lemma {:induction false} NthIsArithmetic(k: nat)
    ensures Nth(k) == (0xffff_ff00 + 2 * k) % TWO_TO_THE_32
  {
    if k > 0 {
      NthIsArithmetic(k - 1);
      AdvanceNext(INITIAL_MESSAGE_ID, k - 1);
    }
  }

  /** No Take ever returns NoMessageID: every identifier of the sequence is even. */
  lemma {:induction false} NthIsNeverNoMessageId(k: nat)
    ensures Nth(k) % 2 == 0
    ensures Nth(k) != NO_MESSAGE_ID
  {
    if k > 0 {
      NthIsNeverNoMessageId(k - 1);
    }
  }

  /** Two Takes coincide exactly when their indices agree modulo 2^31. */
  lemma NthCoincides(i: nat, j: nat)
    ensures Nth(i) == Nth(j) <==> i % 0x8000_0000 == j % 0x8000_0000
  {
    NthIsArithmetic(i);
    NthIsArithmetic(j);
    Fold(i);
    Fold(j);
  }

  /** The arithmetic form depends on the index only through its residue r modulo 2^31. */
  lemma Fold(k: nat)
    ensures (0xffff_ff00 + 2 * k) % TWO_TO_THE_32
         == var r := k % 0x8000_0000; if r < 0x80 then 0xffff_ff00 + 2 * r else 2 * r - 0x100
  {
    var q, r := k / 0x8000_0000, k % 0x8000_0000;
    assert 0xffff_ff00 + 2 * k == TWO_TO_THE_32 * q + (0xffff_ff00 + 2 * r);
  }

  /** The value a status query carries: the identifier of the last Take, or 0xfffffefe before any. */
  lemma LastTaken(k: nat)
    ensures Previous(Nth(k)) == if k == 0 then STATUS_QUERY_INITIAL_MESSAGE_ID else Nth(k - 1)
  {
  }

  /** protocol.Counter: the zero value resets itself on first use. */
  class Counter {
    var current: MessageId
    var started: bool
    /** How many identifiers have been taken since the last reset. */
    ghost var taken: nat

    ghost predicate Valid()
      reads this
    {
      if started then current == Nth(taken) else taken == 0
    }

    constructor ()
      ensures Valid() && taken == 0 && started
    {
      current := INITIAL_MESSAGE_ID;
      started := true;
      taken := 0;
    }

    method Reset()
      modifies this
      ensures Valid() && taken == 0 && started
    {
      current := INITIAL_MESSAGE_ID;
      started := true;
      taken := 0;
    }

    method Current() returns (id: MessageId)
      requires Valid()
      modifies this
      ensures Valid() && started && taken == old(taken)
      ensures id == Nth(taken)
    {
      if !started {
        Reset();
      }
      id := current;
    }

    method Take() returns (id: MessageId)
      requires Valid()
      modifies this
      ensures Valid() && started && taken == old(taken) + 1
      ensures id == Nth(old(taken))
      ensures id == (0xffff_ff00 + 2 * old(taken)) % TWO_TO_THE_32 != NO_MESSAGE_ID
    {
      NthIsArithmetic(taken);
      NthIsNeverNoMessageId(taken);
      id := Current();
      current := Next(id);
      taken := taken + 1;
    }

    method Last() returns (id: MessageId)
      requires Valid()
      modifies this
      ensures Valid() && started && taken == old(taken)
      ensures id == if taken == 0 then STATUS_QUERY_INITIAL_MESSAGE_ID else Nth(taken - 1)
    {
      LastTaken(taken);
      var c := Current();
      id := Previous(c);
    }
  }
}
