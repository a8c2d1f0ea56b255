/** Keys of the offline queue: the sequence number, zero-padded to twenty digits. */
module QueueKeys {
  import opened Decimals

  const TWO_64 := 0x1_0000_0000_0000_0000

  function Key(n: nat): string {
    Padded(n, 20)
  }

  lemma Pow10Twenty()
    ensures Pow10(20) == 100_000_000_000_000_000_000
  {
    assert Pow10(4) == 10_000 by { assert Pow10(2) == 100; }
    assert Pow10(8) == 100_000_000 by { assert Pow10(6) == 1_000_000; }
    assert Pow10(12) == 1_000_000_000_000 by { assert Pow10(10) == 10_000_000_000; }
    assert Pow10(16) == 10_000_000_000_000_000 by { assert Pow10(14) == 100_000_000_000_000; }
    assert Pow10(18) == 1_000_000_000_000_000_000;
  }

  lemma KeyLength(n: nat)
    requires n < TWO_64
    ensures |Key(n)| == 20
  {
    Pow10Twenty();
    DecimalLength(n, 20);
  }

  /** For 64-bit sequence numbers the keys are distinct and sort byte-wise as the numbers do. */
  lemma KeyOrder(m: nat, n: nat)
    requires m < TWO_64 && n < TWO_64
    ensures Less(Key(m), Key(n)) <==> m < n
    ensures Key(m) == Key(n) <==> m == n
  {
    KeyLength(m);
    KeyLength(n);
    PaddedValue(m, 20);
    PaddedValue(n, 20);
    LessIsSmaller(Key(m), Key(n));
  }
}
