/** Small shared vocabulary: optional values, bytes and the fixed-width unsigned integers. */
module Common {

  datatype Option<+T> = None | Some(value: T)

  datatype Result<+T, +E> = Ok(value: T) | Err(error: E)

  const U16_MAX: int := 0xFFFF
  const U32_MAX: int := 0xFFFF_FFFF
  const U64_MAX: int := 0xFFFF_FFFF_FFFF_FFFF

  type byte = x: int | 0 <= x < 256
  type u16 = x: int | 0 <= x <= U16_MAX
  type u32 = x: int | 0 <= x <= U32_MAX
  type u64 = x: int | 0 <= x <= U64_MAX

  type bytes = seq<byte>

  /** `u64::checked_add` */
  function CheckedAdd(a: u64, b: u64): (r: Option<u64>)
  {
    if a + b <= U64_MAX then Some(a + b) else None
  }

  /** `u64::checked_mul` */
  function CheckedMul(a: u64, b: u64): (r: Option<u64>)
  {
    if a * b <= U64_MAX then Some(a * b) else None
  }

  function Min(a: int, b: int): int { if a <= b then a else b }

  function Max(a: int, b: int): int { if a >= b then a else b }

  // ---- remainders ----------------------------------------------------------------------

  lemma SameRemainder(k: nat, n: nat)
    requires k >= n > 0
    ensures (k - n) % n == k % n
  {
    var d: int, e: int := k / n, (k - n) / n;
    assert k == d * n + k % n && k - n == e * n + (k - n) % n;
    NoLargerGap(d - 1 - e, n, (k - n) % n - k % n);
  }

  lemma NoLargerGap(x: int, n: nat, y: int)
    requires y < n && -y < n && x * n == y
    ensures y == 0
  {}

  // ---- ascending lists are determined by their elements --------------------------------

  predicate AscendingBy<T>(a: seq<T>, key: T -> int)
  {
    forall i, j :: 0 <= i < j < |a| ==> key(a[i]) < key(a[j])
  }

  predicate Within<T(==)>(a: seq<T>, b: seq<T>)
  {
    forall i :: 0 <= i < |a| ==> a[i] in b
  }

  lemma SameLast<T>(a: seq<T>, b: seq<T>, key: T -> int)
    requires AscendingBy(a, key) && AscendingBy(b, key) && Within(a, b) && Within(b, a) && |a| > 0
    ensures |b| > 0 && a[|a| - 1] == b[|b| - 1]
  {
    var n, m := |a| - 1, |b| - 1;
    assert a[n] in b;
    var j :| 0 <= j < |b| && b[j] == a[n];
    var i :| 0 <= i < |a| && a[i] == b[m];
    assert key(a[i]) <= key(a[n]) && key(b[j]) <= key(b[m]);
  }

  lemma WithinFront<T>(a: seq<T>, b: seq<T>, key: T -> int)
    requires AscendingBy(a, key) && Within(a, b) && |a| > 0 && |b| > 0 && a[|a| - 1] == b[|b| - 1]
    ensures Within(a[..|a| - 1], b[..|b| - 1])
  {
    var n, m := |a| - 1, |b| - 1;
    forall i | 0 <= i < n ensures a[i] in b[..m] {
      assert key(a[i]) < key(a[n]);
      var j :| 0 <= j < |b| && b[j] == a[i];
      assert b[..m][j] == a[i];
    }
  }

  lemma FrontAndLast<T>(a: seq<T>, b: seq<T>)
    requires |a| > 0 && |b| > 0 && a[..|a| - 1] == b[..|b| - 1] && a[|a| - 1] == b[|b| - 1]
    ensures a == b
  {
    assert a == a[..|a| - 1] + [a[|a| - 1]] && b == b[..|b| - 1] + [b[|b| - 1]];
  }

  lemma {:induction false} SameAscending<T>(a: seq<T>, b: seq<T>, key: T -> int)
    requires AscendingBy(a, key) && AscendingBy(b, key) && Within(a, b) && Within(b, a)
    ensures a == b
    decreases |a|
  {
    if |a| > 0 {
      SameLast(a, b, key);
      WithinFront(a, b, key);
      WithinFront(b, a, key);
      SameAscending(a[..|a| - 1], b[..|b| - 1], key);
      FrontAndLast(a, b);
    }
    assert |b| > 0 ==> b[0] in a;
  }
}
