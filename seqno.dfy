/**
 * Babel sequence numbers: 16-bit counters whose increment wraps around
 * (section 3.2.1 of RFC 8966).
 */
module SequenceNumbers {
  import opened Common

  const SEQNO_MODULUS: int := 0x1_0000

  datatype SeqNo = SeqNo(value: U16)

  /** The sequence number that follows `s`, wrapping from 0xFFFF to 0. */
  function Next(s: SeqNo): (r: SeqNo)
    ensures s.value < 0xFFFF ==> r.value == s.value + 1
    ensures s.value == 0xFFFF ==> r.value == 0
  {
    SeqNo((s.value + 1) % SEQNO_MODULUS)
  }

  /** `s` incremented `n` times in a row. */
  function Advance(s: SeqNo, n: nat): (r: SeqNo)
    ensures r.value == (s.value + n) % SEQNO_MODULUS
    decreases n
  {
    if n == 0 then s
    else
      var p := Advance(s, n - 1);
      NextOfModulo(s.value + n - 1);
      Next(p)
  }

  /** One more increment after reducing modulo 2^16 is the same as reducing afterwards. */
  lemma NextOfModulo(k: nat)
    ensures (k % SEQNO_MODULUS + 1) % SEQNO_MODULUS == (k + 1) % SEQNO_MODULUS
  {
    var q := k / SEQNO_MODULUS;
    var m := k % SEQNO_MODULUS;
    assert k == q * SEQNO_MODULUS + m;
    if m + 1 < SEQNO_MODULUS {
      assert k + 1 == q * SEQNO_MODULUS + (m + 1);
    } else {
      assert k + 1 == (q + 1) * SEQNO_MODULUS;
    }
  }

  /** Incrementing first and then `n` times is the same as `n + 1` increments. */
  lemma {:induction false} AdvanceNext(s: SeqNo, n: nat)
    ensures Advance(Next(s), n) == Advance(s, n + 1)
    decreases n
  {
    if n > 0 {
      AdvanceNext(s, n - 1);
    }
  }

  /** 2^16 increments bring a sequence number back to itself. */
  lemma AdvanceFullCycle(s: SeqNo)
    ensures Advance(s, SEQNO_MODULUS) == s
  {
    assert (s.value + SEQNO_MODULUS) % SEQNO_MODULUS == s.value;
  }

  /** Fewer than 2^16 increments never revisit a sequence number. */
  lemma AdvanceDistinct(s: SeqNo, i: nat, j: nat)
    requires i < j < i + SEQNO_MODULUS
    ensures Advance(s, i) != Advance(s, j)
  {
    var a, b := s.value + i, s.value + j;
    var qa, qb := a / SEQNO_MODULUS, b / SEQNO_MODULUS;
    assert a == qa * SEQNO_MODULUS + a % SEQNO_MODULUS;
    assert b == qb * SEQNO_MODULUS + b % SEQNO_MODULUS;
  }
}
