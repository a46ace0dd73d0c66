/** Block ids: the segment's index in the upper 16 bits, the block's number in the lower 48. */
module BlockIds {

  function Pow2(n: nat): (p: nat)
    ensures p >= 1
  {
    if n == 0 then 1 else 2 * Pow2(n - 1)
  }

  const TWO_TO_16 := 0x1_0000
  const TWO_TO_48 := 0x1_0000_0000_0000
  const TWO_TO_64 := 0x1_0000_0000_0000_0000

  /** The bitwise or of the lowest `n` bits of two numbers. */
  function Or(a: nat, b: nat, n: nat): nat
    decreases n
  {
    if n == 0 then 0
    else 2 * Or(a / 2, b / 2, n - 1) + (if a % 2 == 1 || b % 2 == 1 then 1 else 0)
  }

  lemma {:induction false} OrZero(a: nat, n: nat)
    requires a < Pow2(n)
    ensures Or(a, 0, n) == a
    decreases n
  {
    if n > 0 { OrZero(a / 2, n - 1); }
  }

  lemma EvenHalf(a: nat, k: nat)
    requires k > 0
    ensures (a * Pow2(k)) / 2 == a * Pow2(k - 1) && (a * Pow2(k)) % 2 == 0
  {
    assert a * Pow2(k) == 2 * (a * Pow2(k - 1));
  }

  /** Numbers that share no bit are added by or. */
  lemma {:induction false} OrAdds(a: nat, k: nat, b: nat, n: nat)
    requires b < Pow2(k) && a * Pow2(k) + b < Pow2(n)
    ensures Or(a * Pow2(k), b, n) == a * Pow2(k) + b
    decreases n
  {
    if k == 0 {
      OrZero(a, n);
    } else if n == 0 {
    } else {
      EvenHalf(a, k);
      OrAdds(a, k - 1, b / 2, n - 1);
    }
  }

  lemma {:induction false} OrBelow(a: nat, b: nat, n: nat)
    ensures Or(a, b, n) < Pow2(n)
    decreases n
  {
    if n > 0 { OrBelow(a / 2, b / 2, n - 1); }
  }

  lemma PowersAre()
    ensures Pow2(16) == TWO_TO_16 && Pow2(48) == TWO_TO_48 && Pow2(64) == TWO_TO_64
  {
    assert Pow2(8) == 0x100;
    assert Pow2(16) == 0x1_0000;
    assert Pow2(24) == 0x100_0000;
    assert Pow2(32) == 0x1_0000_0000;
    assert Pow2(40) == 0x100_0000_0000;
    assert Pow2(48) == 0x1_0000_0000_0000;
    assert Pow2(56) == 0x100_0000_0000_0000;
  }

  /** (index << 48) | block on 64-bit numbers. */
  function Pack(index: nat, block: nat): nat {
    Or(index * TWO_TO_48 % TWO_TO_64, block, 64)
  }

  /** id >> 48 */
  function IndexOf(id: nat): nat { id / TWO_TO_48 }

  /** id & 0xffffffffffff */
  function BlockOf(id: nat): nat { id % TWO_TO_48 }

  /** An id unpacks to what was packed exactly if the index fits 16 bits and the number 48. */
  lemma UnpackPackIff(index: nat, block: nat)
    requires index < TWO_TO_64 && block < TWO_TO_64
    ensures (IndexOf(Pack(index, block)) == index && BlockOf(Pack(index, block)) == block)
            <==> (index < TWO_TO_16 && block < TWO_TO_48)
  {
    hide Or, Pow2;
    PowersAre();
    if index < TWO_TO_16 && block < TWO_TO_48 {
      assert index * TWO_TO_48 + block < TWO_TO_64;
      OrAdds(index, 48, block, 64);
    }
    OrBelow(index * TWO_TO_48 % TWO_TO_64, block, 64);
  }

  /** Different blocks have different ids. */
  lemma PackInjective(index: nat, block: nat, index': nat, block': nat)
    requires index < TWO_TO_16 && block < TWO_TO_48 && index' < TWO_TO_16 && block' < TWO_TO_48
    requires Pack(index, block) == Pack(index', block')
    ensures index == index' && block == block'
  {
    hide Pack;
    UnpackPackIff(index, block);
    UnpackPackIff(index', block');
  }

  /** The 2^48th block of a segment gets the id of another segment's first block. */
  lemma BlockOverflow()
    ensures Pack(0, TWO_TO_48) == Pack(1, 0)
  {
    hide Or, Pow2;
    PowersAre();
    OrAdds(1, 48, 0, 64);
    OrSymmetric(0, TWO_TO_48, 64);
    OrZero(TWO_TO_48, 64);
  }

  lemma {:induction false} OrSymmetric(a: nat, b: nat, n: nat)
    ensures Or(a, b, n) == Or(b, a, n)
    decreases n
  {
    if n > 0 { OrSymmetric(a / 2, b / 2, n - 1); }
  }
}
