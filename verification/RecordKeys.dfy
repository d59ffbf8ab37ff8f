/** The byte layout of record keys: why (generation, id) pairs are distinct cells of the database. */
module RecordKeys {
  const KEY_PREFIX := "keyStore:v1:"
  const META_KEY := KEY_PREFIX + "meta"
  const GEN_PREFIX := KEY_PREFIX + "g"

  function Pow16(k: nat): nat {
    if k == 0 then 1 else 16 * Pow16(k - 1)
  }

  function HexDigit(d: nat): char
    requires d < 16
  {
    "0123456789abcdef"[d]
  }

  /** The `k` low hexadecimal digits of `n`, most significant first. */
  function Hex(n: nat, k: nat): (s: string)
    ensures |s| == k
  {
    if k == 0 then "" else Hex(n / 16, k - 1) + [HexDigit(n % 16)]
  }

  function GenPrefix(gen: nat): string {
    GEN_PREFIX + Hex(gen, 16) + ":key:"
  }

  function RecordKeyBytes(gen: nat, id: string): string {
    GenPrefix(gen) + id
  }

  lemma {:induction false} HexInjective(a: nat, b: nat, k: nat)
    requires a < Pow16(k) && b < Pow16(k)
    requires Hex(a, k) == Hex(b, k)
    ensures a == b
  {
    if k > 0 {
      var x, y := Hex(a / 16, k - 1), Hex(b / 16, k - 1);
      assert x == Hex(a, k)[..k - 1] && y == Hex(b, k)[..k - 1];
      assert Hex(a, k)[k - 1] == HexDigit(a % 16) && Hex(b, k)[k - 1] == HexDigit(b % 16);
      HexInjective(a / 16, b / 16, k - 1);
    }
  }

  /**
   * A record key starts with a generation's prefix exactly when it belongs to that generation, whatever
   * the id holds (an id may contain ':' or look like another key); so the orphan test in Load and the
   * prefix deletes never touch another generation, and no two (generation, id) pairs share a key.
   */
  lemma PrefixSelectsGeneration(g: nat, id: string, h: nat, other: string)
    requires g < Pow16(16) && h < Pow16(16)
    ensures GenPrefix(h) <= RecordKeyBytes(g, id) <==> g == h
    ensures RecordKeyBytes(g, id) == RecordKeyBytes(h, other) <==> g == h && id == other
    ensures !(GEN_PREFIX <= META_KEY)
  {
    var n := |GEN_PREFIX|;
    var kg, kh := RecordKeyBytes(g, id), RecordKeyBytes(h, other);
    assert kg[n..n + 16] == Hex(g, 16) && kh[n..n + 16] == Hex(h, 16);
    assert GenPrefix(h)[n..n + 16] == Hex(h, 16);
    assert kg[|GenPrefix(g)|..] == id && kh[|GenPrefix(h)|..] == other;
    if GenPrefix(h) <= kg {
      assert kg[n..n + 16] == GenPrefix(h)[n..n + 16];
      HexInjective(g, h, 16);
    }
    if kg == kh {
      HexInjective(g, h, 16);
    }
    assert META_KEY[n - 1] != GEN_PREFIX[n - 1];
  }
}
