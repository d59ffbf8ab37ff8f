/** Small shared vocabulary: options and the byte-wise order of Go strings. */
module Prelude {
  datatype Option<+T> = None | Some(value: T)

  /** Go's `<` on strings. */
  predicate LexLess(a: string, b: string) {
    if b == "" then false
    else if a == "" then true
    else if a[0] != b[0] then a[0] < b[0]
    else LexLess(a[1..], b[1..])
  }

  /** `<` on strings is a strict total order, so "not older" is transitive. */
  lemma {:induction false} NotLessIsTransitive(a: string, b: string, c: string)
    requires !LexLess(b, a) && !LexLess(c, b)
    ensures !LexLess(c, a)
  {
    if a != "" && b != "" && c != "" && a[0] == b[0] == c[0] {
      NotLessIsTransitive(a[1..], b[1..], c[1..]);
    }
  }

  lemma {:induction false} NotLessItself(a: string)
    ensures !LexLess(a, a)
  {
    if a != "" { NotLessItself(a[1..]); }
  }

  lemma {:induction false} LessIsTransitive(a: string, b: string, c: string)
    requires LexLess(a, b) && LexLess(b, c)
    ensures LexLess(a, c)
  {
    if a != "" && a[0] == b[0] == c[0] { LessIsTransitive(a[1..], b[1..], c[1..]); }
  }

  lemma {:induction false} LessIsTotal(a: string, b: string)
    ensures a == b || LexLess(a, b) || LexLess(b, a)
  {
    if a != "" && b != "" && a[0] == b[0] {
      LessIsTotal(a[1..], b[1..]);
      assert a == [a[0]] + a[1..] && b == [b[0]] + b[1..];
    }
  }

  /** The first difference decides, and a proper prefix comes first. */
  lemma {:induction false} FirstDifferenceDecides(p: string, x: char, y: char, s: string, t: string)
    requires x < y
    ensures LexLess(p + [x] + s, p + [y] + t) && !LexLess(p + [y] + t, p + [x] + s) && LexLess(p, p + [x] + s)
  {
    if p == "" {
      assert p + [x] + s == [x] + s && p + [y] + t == [y] + t;
    } else {
      FirstDifferenceDecides(p[1..], x, y, s, t);
      assert (p + [x] + s)[1..] == p[1..] + [x] + s && (p + [y] + t)[1..] == p[1..] + [y] + t;
    }
  }

  // ----- counting by key

  ghost function Total<K>(m: map<K, nat>): nat
    decreases |m|
  {
    if m == map[] then 0 else
      var k :| k in m;
      m[k] + Total(m - {k})
  }

  /** The sum over a map does not depend on the order of visiting its keys. */
  lemma {:induction false} TotalAny<K>(m: map<K, nat>, k: K)
    requires k in m
    ensures Total(m) == m[k] + Total(m - {k})
    decreases |m|
  {
    var c :| c in m && Total(m) == m[c] + Total(m - {c});
    if c != k {
      TotalSwap(m, c, k);
      TotalAny(m - {c}, k);
      TotalAny(m - {k}, c);
    }
  }

  lemma TotalSwap<K>(m: map<K, nat>, a: K, b: K)
    ensures m - {a} - {b} == m - {b} - {a}
  {
  }

  function Bump<K(==)>(m: map<K, nat>, k: K): map<K, nat> {
    m[k := (if k in m then m[k] else 0) + 1]
  }

  lemma TotalBump<K>(m: map<K, nat>, k: K)
    ensures Total(Bump(m, k)) == Total(m) + 1
  {
    TotalAny(Bump(m, k), k);
    if k in m {
      TotalAny(m, k);
      assert Bump(m, k) - {k} == m - {k};
    } else {
      assert Bump(m, k) - {k} == m;
    }
  }

  ghost predicate Positive<K(!new)>(m: map<K, nat>) {
    forall k :: k in m ==> m[k] > 0
  }

  lemma NothingCounted<K(!new)>(m: map<K, nat>)
    requires Positive(m)
    ensures m == map[] <==> Total(m) == 0
  {
    if m != map[] {
      var k :| k in m;
      TotalAny(m, k);
    }
  }
}
