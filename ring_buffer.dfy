/**
 * The moving-average ring buffers of src/rp2040/ring_buffer.c, used to
 * average the period between incoming network updates. Each call stores
 * the new value over the oldest one and returns total / count.
 */
module RingBuffer {
  import opened CInt
  import opened SeqSum

  const RING_BUF_AVE_LEN: nat := 1000

  /**
   * struct Ring_buf_uint_ave and struct Ring_buf_int_ave as values; the
   * element type (uint32_t or int32_t) is fixed by the step function used.
   */
  datatype Ring = Ring(buf: seq<int>, head: nat, total: int, count: nat)

  predicate WellFormed(s: Ring)
  {
    |s.buf| == RING_BUF_AVE_LEN && s.head < RING_BUF_AVE_LEN && s.count <= RING_BUF_AVE_LEN
  }

  predicate IsU32(x: int) { 0 <= x < 0x1_0000_0000 }
  predicate IsI32(x: int) { -0x8000_0000 <= x < 0x8000_0000 }

  predicate UintRing(s: Ring)
  {
    WellFormed(s) && IsU32(s.total) && forall i :: 0 <= i < |s.buf| ==> IsU32(s.buf[i])
  }

  predicate IntRing(s: Ring)
  {
    WellFormed(s) && IsI32(s.total) && forall i :: 0 <= i < |s.buf| ==> IsI32(s.buf[i])
  }

  /** The state after `= {0}`. */
  function Zeroed(): (s: Ring)
    ensures UintRing(s) && IntRing(s)
  {
    Ring(seq(RING_BUF_AVE_LEN, _ => 0), 0, 0, 0)
  }

  function NextHead(head: nat): nat
  {
    if head + 1 >= RING_BUF_AVE_LEN then 0 else head + 1
  }

  /** One call of ring_buf_uint_ave: the new state and the returned average. */
  function UintStep(s: Ring, newVal: u32): (r: (Ring, u32))
    requires UintRing(s)
    ensures UintRing(r.0) && r.0.count >= 1
  {
    var tail := s.buf[s.head];
    var buf := s.buf[s.head := newVal];
    var head := NextHead(s.head);
    var total := U32(s.total + newVal);
    if s.count < RING_BUF_AVE_LEN then
      (Ring(buf, head, total, s.count + 1), total / (s.count + 1))
    else
      var total' := U32(total - tail);
      (Ring(buf, head, total', s.count), total' / s.count)
  }

  /** One call of ring_buf_int_ave, with int32 wrap-around and C's truncating division. */
  function IntStep(s: Ring, newVal: i32): (r: (Ring, i32))
    requires IntRing(s)
    ensures IntRing(r.0) && r.0.count >= 1
  {
    var tail := s.buf[s.head];
    var buf := s.buf[s.head := newVal];
    var head := NextHead(s.head);
    var total := I32(s.total + newVal);
    if s.count < RING_BUF_AVE_LEN then
      (Ring(buf, head, total, s.count + 1), I32(CDiv(total, s.count + 1)))
    else
      var total' := I32(total - tail);
      (Ring(buf, head, total', s.count), I32(CDiv(total', s.count)))
  }

  /** struct Ring_buf_uint_ave, updated in place by ring_buf_uint_ave. */
  class RingBufUintAve {
    const buf: array<u32>
    var head: nat
    var total: u32
    var count: nat

    predicate Valid()
      reads this
    {
      buf.Length == RING_BUF_AVE_LEN && head < RING_BUF_AVE_LEN && count <= RING_BUF_AVE_LEN
    }

    function State(): (s: Ring)
      requires Valid()
      reads this, buf
      ensures UintRing(s)
    {
      Ring(buf[..], head, total, count)
    }

    constructor ()
      ensures Valid() && State() == Zeroed()
    {
      buf := new u32[RING_BUF_AVE_LEN](_ => 0);
      head, total, count := 0, 0, 0;
    }

    /** ring_buf_uint_ave(data, new_val). */
    method Ave(newVal: u32) returns (r: u32)
      requires Valid()
      modifies this, buf
      ensures Valid()
      ensures State() == UintStep(old(State()), newVal).0
      ensures r == UintStep(old(State()), newVal).1
    {
      ghost var s0 := State();
      var tailVal := buf[head];
      buf[head] := newVal;
      assert buf[..] == s0.buf[s0.head := newVal];
      head := head + 1;
      if head >= RING_BUF_AVE_LEN {
        head := 0;
      }
      assert head == NextHead(s0.head);
      total := U32(total + newVal);
      if count < RING_BUF_AVE_LEN {
        count := count + 1;
      } else {
        assert tailVal == s0.buf[s0.head];
        total := U32(total - tailVal);
      }
      assert total == UintStep(s0, newVal).0.total && count == UintStep(s0, newVal).0.count;
      r := total / count;
      assert State() == UintStep(s0, newVal).0;
    }
  }

  /** struct Ring_buf_int_ave, updated in place by ring_buf_int_ave. */
  class RingBufIntAve {
    const buf: array<i32>
    var head: nat
    var total: i32
    var count: nat

    predicate Valid()
      reads this
    {
      buf.Length == RING_BUF_AVE_LEN && head < RING_BUF_AVE_LEN && count <= RING_BUF_AVE_LEN
    }

    function State(): (s: Ring)
      requires Valid()
      reads this, buf
      ensures IntRing(s)
    {
      Ring(buf[..], head, total, count)
    }

    constructor ()
      ensures Valid() && State() == Zeroed()
    {
      buf := new i32[RING_BUF_AVE_LEN](_ => 0);
      head, total, count := 0, 0, 0;
    }

    /** ring_buf_int_ave(data, new_val). */
    method Ave(newVal: i32) returns (r: i32)
      requires Valid()
      modifies this, buf
      ensures Valid()
      ensures State() == IntStep(old(State()), newVal).0
      ensures r == IntStep(old(State()), newVal).1
    {
      ghost var s0 := State();
      var tailVal := buf[head];
      buf[head] := newVal;
      assert buf[..] == s0.buf[s0.head := newVal];
      head := head + 1;
      if head >= RING_BUF_AVE_LEN {
        head := 0;
      }
      assert head == NextHead(s0.head);
      total := I32(total + newVal);
      if count < RING_BUF_AVE_LEN {
        count := count + 1;
      } else {
        assert tailVal == s0.buf[s0.head];
        total := I32(total - tailVal);
      }
      assert total == IntStep(s0, newVal).0.total && count == IntStep(s0, newVal).0.count;
      r := I32(CDiv(total, count));
      assert State() == IntStep(s0, newVal).0;
    }
  }
}

/** What the averaging ring buffers promise, proved of their step functions. */
module RingBufferProps {
  import opened CInt
  import opened SeqSum
  import opened RingBuffer

  /**
   * What holds of every state reached from the zeroed struct: the total is
   * the (wrapped) sum of all slots, and until the buffer is full the head
   * equals the count and the slots from the head on are still zero.
   */
  predicate Filling(s: Ring)
    requires WellFormed(s)
  {
    s.count < RING_BUF_AVE_LEN ==>
      s.head == s.count && forall i :: s.count <= i < RING_BUF_AVE_LEN ==> s.buf[i] == 0
  }

  predicate UintConsistent(s: Ring)
  {
    UintRing(s) && s.total == U32(Sum(s.buf)) && Filling(s)
  }

  predicate IntConsistent(s: Ring)
  {
    IntRing(s) && s.total == I32(Sum(s.buf)) && Filling(s)
  }

  /** The new value goes to the old head, no other slot changes, the head
   *  advances modulo the length and the count saturates at the length. */
  lemma StepAdvances(s: Ring, v: u32)
    requires UintRing(s) && IntRing(s) && IsI32(v)
    ensures UintStep(s, v).0.buf == s.buf[s.head := v] && IntStep(s, v).0.buf == s.buf[s.head := v]
    ensures UintStep(s, v).0.head == (s.head + 1) % RING_BUF_AVE_LEN == IntStep(s, v).0.head
    ensures UintStep(s, v).0.count == IntStep(s, v).0.count
      == if s.count < RING_BUF_AVE_LEN then s.count + 1 else RING_BUF_AVE_LEN
  {
  }

  lemma ZeroedConsistent()
    ensures UintConsistent(Zeroed()) && IntConsistent(Zeroed())
  {
    SumZeros(RING_BUF_AVE_LEN);
  }

  /** The total stays the wrapped sum of the slots. */
  lemma UintStepKeepsConsistent(s: Ring, v: u32)
    requires UintConsistent(s)
    ensures UintConsistent(UintStep(s, v).0)
  {
    var t := UintStep(s, v).0;
    var tail := s.buf[s.head];
    SumUpdate(s.buf, s.head, v);
    assert Sum(t.buf) == Sum(s.buf) - tail + v;
    ModAddBoth(Sum(s.buf), v, 0x1_0000_0000);
    if s.count < RING_BUF_AVE_LEN {
      assert tail == 0;
    } else {
      ModAddBoth(Sum(s.buf) + v, -tail, 0x1_0000_0000);
    }
  }

  lemma IntStepKeepsConsistent(s: Ring, v: i32)
    requires IntConsistent(s)
    ensures IntConsistent(IntStep(s, v).0)
  {
    var t := IntStep(s, v).0;
    var tail := s.buf[s.head];
    var buf := s.buf[s.head := v];
    SumUpdate(s.buf, s.head, v);
    assert Sum(buf) == Sum(s.buf) - tail + v;
    I32Add(Sum(s.buf), v);
    var total := I32(s.total + v);
    assert total == I32(Sum(s.buf) + v);
    if s.count < RING_BUF_AVE_LEN {
      assert tail == 0;
      assert t == Ring(buf, NextHead(s.head), total, s.count + 1);
    } else {
      I32Add(Sum(s.buf) + v, -tail);
      assert t == Ring(buf, NextHead(s.head), I32(total - tail), s.count);
    }
  }

  /** Wrapping then adding wraps the same as adding then wrapping. */
  lemma I32Add(a: int, b: int)
    ensures I32(I32(a) + b) == I32(a + b)
  {
    ModAddBoth(a, b, 0x1_0000_0000);
    var k := if U32(a) < 0x8000_0000 then 0 else -1;
    assert I32(a) == U32(a) + k * 0x1_0000_0000;
    ModShift(U32(a) + b, k, 0x1_0000_0000);
  }

  /** A state fed only with v so far: every written slot holds v. */
  predicate UintFilledWith(s: Ring, v: u32)
  {
    UintConsistent(s) && forall i :: 0 <= i < s.count ==> s.buf[i] == v
  }

  predicate IntFilledWith(s: Ring, v: i32)
  {
    IntConsistent(s) && forall i :: 0 <= i < s.count ==> s.buf[i] == v
  }

  /**
   * A constant input stream v returns v on every call, before and after the
   * buffer wraps, as long as LEN * v fits in 32 bits.
   */
  lemma {:induction false} UintConstantStream(s: Ring, v: u32)
    requires UintFilledWith(s, v) && v * RING_BUF_AVE_LEN < 0x1_0000_0000
    ensures UintFilledWith(UintStep(s, v).0, v)
    ensures UintStep(s, v).1 == v
  {
    UintStepKeepsConsistent(s, v);
    var t := UintStep(s, v).0;
    FilledSum(s, t, v);
    UintExactAverage(t.count, v);
  }

  lemma UintExactAverage(c: nat, v: u32)
    requires 0 < c <= RING_BUF_AVE_LEN && v * RING_BUF_AVE_LEN < 0x1_0000_0000
    ensures U32(c * v) / c == v
  {
    var p := c * v;
    MulBound(c, v, RING_BUF_AVE_LEN, 0x1_0000_0000);
    assert 0 <= p < 0x1_0000_0000;
    DivModUnique(p, 0x1_0000_0000, 0, p);
    assert U32(p) == p;
    DivModUnique(p, c, v, 0);
  }

  lemma {:induction false} IntConstantStream(s: Ring, v: i32)
    requires IntFilledWith(s, v) && Abs(v) * RING_BUF_AVE_LEN < 0x8000_0000
    ensures IntFilledWith(IntStep(s, v).0, v)
    ensures IntStep(s, v).1 == v
  {
    IntStepKeepsConsistent(s, v);
    var t := IntStep(s, v).0;
    IntStepShape(s, v);
    FilledSum(s, t, v);
    IntExactAverage(t.count, v);
  }

  /** The returned value is the new total divided by the new count. */
  lemma IntStepShape(s: Ring, v: i32)
    requires IntRing(s)
    ensures IntStep(s, v).1 == I32(CDiv(IntStep(s, v).0.total, IntStep(s, v).0.count))
    ensures IntStep(s, v).0.buf == s.buf[s.head := v]
    ensures IntStep(s, v).0.head == (s.head + 1) % RING_BUF_AVE_LEN
    ensures IntStep(s, v).0.count == if s.count < RING_BUF_AVE_LEN then s.count + 1 else RING_BUF_AVE_LEN
  {
  }

  lemma IntExactAverage(c: nat, v: i32)
    requires 0 < c <= RING_BUF_AVE_LEN && Abs(v) * RING_BUF_AVE_LEN < 0x8000_0000
    ensures I32(CDiv(I32(c * v), c)) == v
  {
    MulBound(c, Abs(v), RING_BUF_AVE_LEN, 0x8000_0000);
    AbsMul(c, v);
    assert I32(c * v) == c * v;
    CDivExact(c, v);
  }

  lemma AbsMul(c: nat, v: int)
    ensures Abs(c * v) == c * Abs(v)
  {
    if v < 0 {
      assert c * v == -(c * -v);
    }
  }

  /** C division of a multiple of c by c is exact. */
  lemma CDivExact(c: nat, v: int)
    requires c > 0
    ensures CDiv(c * v, c) == v
  {
    AbsMul(c, v);
    DivModUnique(c * Abs(v), c, Abs(v), 0);
    if v < 0 {
      assert c * v < 0;
    }
  }

  /** After storing v into a ring filled with v, it holds count copies of v. */
  lemma FilledSum(s: Ring, t: Ring, v: int)
    requires WellFormed(s) && Filling(s) && forall i :: 0 <= i < s.count ==> s.buf[i] == v
    requires t.buf == s.buf[s.head := v] && t.head == (s.head + 1) % RING_BUF_AVE_LEN
    requires t.count == if s.count < RING_BUF_AVE_LEN then s.count + 1 else RING_BUF_AVE_LEN
    ensures forall i :: 0 <= i < t.count ==> t.buf[i] == v
    ensures Sum(t.buf) == t.count * v
  {
    SumConstPrefix(t.buf, t.count, v);
  }

  lemma MulBound(c: nat, v: nat, n: nat, bound: nat)
    requires c <= n && v * n < bound
    ensures c * v < bound
  {
    assert c * v <= n * v;
  }
}
