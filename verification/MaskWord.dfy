/** The 64-bit pair mask of an instrumented function and the three macros that touch it. */
module MaskWord {

  /** The id that the k-th allocated slot receives: 1, doubled in a 64-bit word once per earlier slot. */
  function SlotId(k: nat): bv64 {
    if k == 0 then 1 else SlotId(k - 1) << 1
  }

  function SetBit(a: bv64, b: bv64): bv64 {
    a | b
  }

  function UnsetBit(a: bv64, b: bv64): bv64 {
    a & !b
  }

  predicate CheckBit(a: bv64, b: bv64) {
    a & b != 0
  }

  lemma ShiftTwice(x: bv64)
    ensures (x << 1) << 1 == x << 2
    ensures (x << 2) << 2 == x << 4
    ensures (x << 4) << 4 == x << 8
  {
  }

  lemma SlotIdSkip4(k: nat)
    ensures SlotId(k + 4) == SlotId(k) << 4
  {
    SlotIdSkip2(k);
    SlotIdSkip2(k + 2);
    ShiftTwice(SlotId(k));
  }

  lemma SlotIdSkip8(k: nat)
    ensures SlotId(k + 8) == SlotId(k) << 8
  {
    SlotIdSkip4(k);
    SlotIdSkip4(k + 4);
    ShiftTwice(SlotId(k));
  }

  lemma SlotIdSkip2(k: nat)
    ensures SlotId(k + 2) == SlotId(k) << 2
  {
    assert SlotId(k + 2) == SlotId(k + 1) << 1;
    ShiftTwice(SlotId(k));
  }

  lemma TopSlotId()
    ensures SlotId(63) == 0x8000_0000_0000_0000 && SlotId(64) == 0
  {
    SlotIdSkip8(0);
    SlotIdSkip8(8);
    SlotIdSkip8(16);
    SlotIdSkip8(24);
    SlotIdSkip8(32);
    SlotIdSkip8(40);
    SlotIdSkip8(48);
    SlotIdSkip8(56);
    SlotIdSkip2(60);
    assert SlotId(63) == SlotId(62) << 1;
  }

  /** A zero id stays zero: the bit that fell off the word never comes back. */
  lemma {:induction false} ZeroIsForGood(i: nat, j: nat)
    requires i <= j && SlotId(i) == 0
    ensures SlotId(j) == 0
  {
    if i < j {
      ZeroIsForGood(i, j - 1);
    }
  }

  /** The first 64 slots own a bit of the word; slot 64 and every later one own none. */
  lemma SlotIdIsZeroFrom64(k: nat)
    ensures SlotId(k) == 0 <==> k >= 64
  {
    TopSlotId();
    if k >= 64 {
      ZeroIsForGood(64, k);
    } else if SlotId(k) == 0 {
      ZeroIsForGood(k, 63);
    }
  }

  lemma ShiftKeepsDisjoint(x: bv64, y: bv64)
    requires x & y == 0
    ensures (x << 1) & (y << 1) == 0
  {
  }

  lemma {:induction false} SlotIdsDisjoint(i: nat, j: nat)
    requires i != j
    ensures SlotId(i) & SlotId(j) == 0
    decreases i
  {
    if i == 0 {
      var y := SlotId(j - 1);
      assert (1 as bv64) & (y << 1) == 0;
    } else if j == 0 {
      var x := SlotId(i - 1);
      assert (x << 1) & (1 as bv64) == 0;
    } else {
      SlotIdsDisjoint(i - 1, j - 1);
      ShiftKeepsDisjoint(SlotId(i - 1), SlotId(j - 1));
    }
  }

  /** The word m stands for the slot set s: the guard of slot k fires iff k is in s and owns a bit. */
  ghost predicate Represents(m: bv64, s: set<nat>) {
    forall k: nat :: CheckBit(m, SlotId(k)) <==> k in s && k < 64
  }

  lemma EmptyMask()
    ensures Represents(0, {})
  {
  }

  lemma SetOther(m: bv64, b: bv64, c: bv64)
    requires b & c == 0
    ensures CheckBit(SetBit(m, b), c) <==> CheckBit(m, c)
  {
  }

  lemma UnsetOther(m: bv64, b: bv64, c: bv64)
    requires b & c == 0
    ensures CheckBit(UnsetBit(m, b), c) <==> CheckBit(m, c)
  {
  }

  lemma OwnBit(m: bv64, b: bv64)
    ensures CheckBit(SetBit(m, b), b) <==> b != 0
    ensures !CheckBit(UnsetBit(m, b), b)
  {
  }

  lemma SetBitAt(m: bv64, k: nat, j: nat)
    ensures CheckBit(SetBit(m, SlotId(k)), SlotId(j)) <==> if j == k then k < 64 else CheckBit(m, SlotId(j))
  {
    if j == k {
      SlotIdIsZeroFrom64(k);
      OwnBit(m, SlotId(k));
    } else {
      SlotIdsDisjoint(k, j);
      SetOther(m, SlotId(k), SlotId(j));
    }
  }

  lemma UnsetBitAt(m: bv64, k: nat, j: nat)
    ensures CheckBit(UnsetBit(m, SlotId(k)), SlotId(j)) <==> j != k && CheckBit(m, SlotId(j))
  {
    if j == k {
      OwnBit(m, SlotId(k));
    } else {
      SlotIdsDisjoint(k, j);
      UnsetOther(m, SlotId(k), SlotId(j));
    }
  }

  lemma SetBitInserts(m: bv64, s: set<nat>, k: nat)
    requires Represents(m, s)
    ensures Represents(SetBit(m, SlotId(k)), s + {k})
  {
    forall j: nat
      ensures CheckBit(SetBit(m, SlotId(k)), SlotId(j)) <==> j in s + {k} && j < 64
    {
      SetBitAt(m, k, j);
    }
  }

  lemma UnsetBitRemoves(m: bv64, s: set<nat>, k: nat)
    requires Represents(m, s)
    ensures Represents(UnsetBit(m, SlotId(k)), s - {k})
  {
    forall j: nat
      ensures CheckBit(UnsetBit(m, SlotId(k)), SlotId(j)) <==> j in s - {k} && j < 64
    {
      UnsetBitAt(m, k, j);
    }
  }

  datatype MaskOp = Set(slot: nat) | Unset(slot: nat)

  function RunOnWord(ops: seq<MaskOp>, m: bv64): bv64 {
    if ops == [] then m
    else match ops[0]
      case Set(k) => RunOnWord(ops[1..], SetBit(m, SlotId(k)))
      case Unset(k) => RunOnWord(ops[1..], UnsetBit(m, SlotId(k)))
  }

  function RunOnSet(ops: seq<MaskOp>, s: set<nat>): set<nat> {
    if ops == [] then s
    else match ops[0]
      case Set(k) => RunOnSet(ops[1..], s + {k})
      case Unset(k) => RunOnSet(ops[1..], s - {k})
  }

  /** Any sequence of the macros on the word simulates insertion and removal on a set of slot numbers. */
  lemma {:induction false} WordRefinesSet(ops: seq<MaskOp>, m: bv64, s: set<nat>)
    requires Represents(m, s)
    ensures Represents(RunOnWord(ops, m), RunOnSet(ops, s))
  {
    if ops != [] {
      match ops[0]
      case Set(k) =>
        SetBitInserts(m, s, k);
        WordRefinesSet(ops[1..], SetBit(m, SlotId(k)), s + {k});
      case Unset(k) =>
        UnsetBitRemoves(m, s, k);
        WordRefinesSet(ops[1..], UnsetBit(m, SlotId(k)), s - {k});
    }
  }
}
