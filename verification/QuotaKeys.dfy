/** The keys of the daily token counters (internal/auth/quota.go). */
module QuotaKeys {
  /** One bucket per tenant, or per tenant and model when a model is given. */
  function BucketKey(tenant: string, model: string): string {
    if model == "" then tenant else tenant + "\0" + model
  }

  function Digit(n: nat): char
    requires n < 10
  {
    '0' + n as char
  }

  /** A number as it is printed in decimal. */
  function Decimal(n: nat): string {
    if n < 10 then [Digit(n)] else Decimal(n / 10) + [Digit(n % 10)]
  }

  /** The key a bucket's preload gate is kept under; the stored counter adds a prefix. */
  function GateKey(bucket: string, day: nat): string {
    bucket + ":" + Decimal(day)
  }

  function StoredKey(bucket: string, day: nat): string {
    "quotaTPD:" + GateKey(bucket, day)
  }

  predicate NulFree(s: string) {
    '\0' !in s
  }

  lemma {:induction false} DecimalHasNoColon(n: nat)
    ensures Decimal(n) != "" && ':' !in Decimal(n)
  {
    if n >= 10 { DecimalHasNoColon(n / 10); }
  }

  /** The number a text of decimal digits stands for. */
  function ValueOf(s: string): int {
    if s == "" then 0 else 10 * ValueOf(s[..|s| - 1]) + (s[|s| - 1] as int - '0' as int)
  }

  /** The printed number is made of digits and reads back. */
  lemma {:induction false} DecimalReadsBack(n: nat)
    ensures ValueOf(Decimal(n)) == n && forall i :: 0 <= i < |Decimal(n)| ==> '0' <= Decimal(n)[i] <= '9'
  {
    if n < 10 {
      assert [Digit(n)][..0] == "";
    } else {
      DecimalReadsBack(n / 10);
      assert Decimal(n)[..|Decimal(n)| - 1] == Decimal(n / 10);
    }
  }

  lemma SplitLast(a: string, x: char, b: string, y: char)
    requires a + [x] == b + [y]
    ensures a == b && x == y
  {
    assert (a + [x])[..|a|] == a && (a + [x])[|a|] == x;
    assert |a| == |b| && (b + [y])[..|b|] == b;
  }

  lemma {:induction false} DecimalInjective(n: nat, m: nat)
    requires Decimal(n) == Decimal(m)
    ensures n == m
  {
    DecimalHasNoColon(n / 10);
    DecimalHasNoColon(m / 10);
    if n >= 10 && m >= 10 {
      SplitLast(Decimal(n / 10), Digit(n % 10), Decimal(m / 10), Digit(m % 10));
      DecimalInjective(n / 10, m / 10);
    }
  }

  /** A separator that is in neither tail, or in neither head, splits a text in one way only. */
  lemma SplitAt(a: string, b: string, a': string, b': string, c: char)
    requires a + [c] + b == a' + [c] + b'
    requires (c !in b && c !in b') || (c !in a && c !in a')
    ensures a == a' && b == b'
  {
    var t := a + [c] + b;
    assert t[|a|] == c && t[|a'|] == c;
    assert t[..|a|] == a && t[|a| + 1..] == b && t[..|a'|] == a' && t[|a'| + 1..] == b';
  }

  lemma GateKeyInjective(bucket: string, day: nat, bucket': string, day': nat)
    requires GateKey(bucket, day) == GateKey(bucket', day')
    ensures bucket == bucket' && day == day'
  {
    DecimalHasNoColon(day);
    DecimalHasNoColon(day');
    SplitAt(bucket, Decimal(day), bucket', Decimal(day'), ':');
    DecimalInjective(day, day');
  }

  lemma BucketKeyInjective(t: string, m: string, t': string, m': string)
    requires NulFree(t) && NulFree(m) && NulFree(t') && NulFree(m') && BucketKey(t, m) == BucketKey(t', m')
    ensures t == t' && m == m'
  {
    assert BucketKey(t, m) == if m == "" then t else t + ['\0'] + m;
    assert m != "" <==> '\0' in BucketKey(t, m);
    assert m' != "" <==> '\0' in BucketKey(t', m');
    if m != "" && m' != "" { SplitAt(t, m, t', m', '\0'); }
  }

  /** Without NUL in the names, different (tenant, model, day) triples never share a stored counter. */
  lemma StoredKeysAreDistinct(t: string, m: string, d: nat, t': string, m': string, d': nat)
    requires NulFree(t) && NulFree(m) && NulFree(t') && NulFree(m')
    ensures StoredKey(BucketKey(t, m), d) == StoredKey(BucketKey(t', m'), d') <==> t == t' && m == m' && d == d'
  {
    var a, b := BucketKey(t, m), BucketKey(t', m');
    if StoredKey(a, d) == StoredKey(b, d') {
      assert StoredKey(a, d)[9..] == GateKey(a, d) && StoredKey(b, d')[9..] == GateKey(b, d');
      GateKeyInjective(a, d, b, d');
      BucketKeyInjective(t, m, t', m');
    }
  }

  predicate HasSuffix(s: string, suffix: string) {
    |suffix| <= |s| && s[|s| - |suffix|..] == suffix
  }

  /** The sweep's suffix test picks out exactly the gates of the day, whatever colons a bucket's name holds. */
  lemma SuffixPicksTheDay(bucket: string, day: nat, today: nat)
    ensures HasSuffix(GateKey(bucket, day), ":" + Decimal(today)) <==> day == today
  {
    var k, suffix := GateKey(bucket, day), ":" + Decimal(today);
    if day == today { assert k == bucket + suffix; }
    if HasSuffix(k, suffix) {
      var front := k[..|k| - |suffix|];
      assert k == front + suffix;
      assert k == GateKey(front, today);
      GateKeyInjective(bucket, day, front, today);
    }
  }
}
