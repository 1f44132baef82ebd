/** 64-bit session ids: the owner worker in the high half, a per-worker counter in the low half. */
module SessionIds {

  const TWO_31 := 0x8000_0000
  const TWO_32 := 0x1_0000_0000
  const TWO_64 := 0x1_0000_0000_0000_0000

  type SessionId = x: int | 0 <= x < TWO_64

  /** Bitwise or. */
  function Or(a: nat, b: nat): nat
    decreases a + b
  {
    if a == 0 then b
    else if b == 0 then a
    else 2 * Or(a / 2, b / 2) + if a % 2 == 1 || b % 2 == 1 then 1 else 0
  }

  /** `a` shifted left by `k` bits. */
  function Shift(a: nat, k: nat): nat {
    if k == 0 then a else 2 * Shift(a, k - 1)
  }

  lemma {:induction false} OrBounded(a: nat, b: nat, k: nat)
    requires a < Shift(1, k) && b < Shift(1, k)
    ensures Or(a, b) < Shift(1, k)
  {
    if a != 0 && b != 0 {
      OrBounded(a / 2, b / 2, k - 1);
    }
  }

  lemma OrOfDouble(a: nat, b: nat, bit: nat)
    requires bit <= 1
    ensures Or(2 * a, 2 * b + bit) == 2 * Or(a, b) + bit
  {
  }

  /** Or-ing onto a shifted number keeps the low bits of the other and mixes only above them. */
  lemma {:induction false} OrShifted(a: nat, high: nat, low: nat, k: nat)
    requires low < Shift(1, k)
    ensures Or(Shift(a, k), Shift(high, k) + low) == Shift(Or(a, high), k) + low
  {
    if k > 0 {
      OrShifted(a, high, low / 2, k - 1);
      OrOfDouble(Shift(a, k - 1), Shift(high, k - 1) + low / 2, low % 2);
    }
  }

  lemma ShiftByFour(a: nat, k: nat)
    ensures Shift(a, k + 4) == 16 * Shift(a, k)
  {
    assert Shift(a, k + 2) == 2 * Shift(a, k + 1);
    assert Shift(a, k + 4) == 2 * Shift(a, k + 3);
  }

  lemma Shift32(a: nat)
    ensures Shift(a, 32) == a * TWO_32
  {
    ShiftByFour(a, 0); ShiftByFour(a, 4); ShiftByFour(a, 8); ShiftByFour(a, 12);
    ShiftByFour(a, 16); ShiftByFour(a, 20); ShiftByFour(a, 24); ShiftByFour(a, 28);
  }

  /** The id given to the session for which the worker's counter reads `counter`: `(worker << 32) | counter`. */
  function MakeId(worker: nat, counter: nat): SessionId
    requires worker < TWO_32 && counter < TWO_64
  {
    IdLayout(worker, counter);
    Or(worker * TWO_32, counter)
  }

  lemma IdLayout(worker: nat, counter: nat)
    requires worker < TWO_32 && counter < TWO_64
    ensures Or(worker * TWO_32, counter) == Or(worker, counter / TWO_32) * TWO_32 + counter % TWO_32
    ensures Or(worker, counter / TWO_32) < TWO_32
  {
    var high, low := counter / TWO_32, counter % TWO_32;
    Shift32(1);
    Shift32(worker);
    Shift32(high);
    Shift32(Or(worker, high));
    OrShifted(worker, high, low, 32);
    OrBounded(worker, high, 32);
  }

  /** The owner of a session: the high half read as a signed 32-bit integer. */
  function OwnerWorkerFromId(sid: SessionId): int {
    var h := sid / TWO_32;
    if h < TWO_31 then h else h - TWO_32
  }

  /** For any id, the owner is the one 32-bit signed number with the bits of the high half. */
  lemma OwnerIsInt32(sid: SessionId, owner: int)
    requires -TWO_31 <= owner < TWO_31
    ensures OwnerWorkerFromId(sid) == owner <==> owner % TWO_32 == sid / TWO_32
  {
  }

  /** The owner is recovered exactly when the counter's bits above the low half add nothing to the worker number. */
  lemma OwnerRecovered(worker: nat, counter: nat)
    requires worker < TWO_31 && counter < TWO_64
    ensures OwnerWorkerFromId(MakeId(worker, counter)) == worker <==> Or(worker, counter / TWO_32) == worker
  {
    IdLayout(worker, counter);
  }

  /** For any counters, two ids are equal exactly when their owner bits and the low halves of their counters are. */
  lemma IdsEqualIff(w1: nat, c1: nat, w2: nat, c2: nat)
    requires w1 < TWO_32 && w2 < TWO_32 && c1 < TWO_64 && c2 < TWO_64
    ensures MakeId(w1, c1) == MakeId(w2, c2) <==>
            Or(w1, c1 / TWO_32) == Or(w2, c2 / TWO_32) && c1 % TWO_32 == c2 % TWO_32
  {
    hide Or;
    IdLayout(w1, c1);
    IdLayout(w2, c2);
  }

  /** Ids of the first 2^32 - 1 sessions of any workers are non-zero, owned by their worker, and distinct. */
  lemma IdsAreUnique(w1: nat, c1: nat, w2: nat, c2: nat)
    requires w1 < TWO_31 && w2 < TWO_31
    requires 1 <= c1 < TWO_32 && 1 <= c2 < TWO_32
    ensures MakeId(w1, c1) != 0
    ensures OwnerWorkerFromId(MakeId(w1, c1)) == w1
    ensures MakeId(w1, c1) == MakeId(w2, c2) <==> w1 == w2 && c1 == c2
  {
    IdLayout(w1, c1);
    IdLayout(w2, c2);
  }

  /** Past 2^32 sessions the counter reaches the owner bits: worker 0's next id claims to be worker 1's. */
  lemma CounterOverflowChangesOwner()
    ensures OwnerWorkerFromId(MakeId(0, TWO_32)) == 1
    ensures MakeId(0, TWO_32 + 1) == MakeId(1, 1)
  {
    IdLayout(0, TWO_32);
    IdLayout(0, TWO_32 + 1);
    IdLayout(1, 1);
  }

  /** Worker 1 keeps its owner bits past 2^32 sessions, and hands out its first id again. */
  lemma CounterOverflowRepeatsId()
    ensures OwnerWorkerFromId(MakeId(1, TWO_32 + 1)) == 1
    ensures MakeId(1, TWO_32 + 1) == MakeId(1, 1)
  {
    IdLayout(1, TWO_32 + 1);
    IdLayout(1, 1);
  }
}
