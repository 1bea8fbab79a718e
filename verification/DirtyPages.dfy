/** The dirty-page bitmap with its cached population count (crates/dh-vmm/src/dirty.rs). */
module DirtyPages {
  import opened Common

  const PAGE_SIZE: nat := 4096

  // ---- single bits of a word --------------------------------------------------------------

  /** Bit `b` of a word: `w & (1 << b) != 0`. */
  predicate Bit(w: nat, b: nat)
  {
    if b == 0 then w % 2 == 1 else Bit(w / 2, b - 1)
  }

  /** The word with bit `b` set: `w | (1 << b)`. */
  function WithBit(w: nat, b: nat): nat
  {
    if b == 0 then w / 2 * 2 + 1 else WithBit(w / 2, b - 1) * 2 + w % 2
  }

  function Pow2(b: nat): nat
  {
    if b == 0 then 1 else 2 * Pow2(b - 1)
  }

  /** Setting a bit sets that bit and no other. */
  lemma {:induction false} SetBit(w: nat, b: nat, c: nat)
    ensures Bit(WithBit(w, b), c) <==> b == c || Bit(w, c)
  {
    var x := WithBit(w, b);
    if b == 0 {
      assert x / 2 == w / 2;
    } else {
      assert x / 2 == WithBit(w / 2, b - 1) && x % 2 == w % 2;
      if c > 0 { SetBit(w / 2, b - 1, c - 1); }
    }
  }

  lemma HalfFits(w: nat, p: nat, x: nat)
    requires w < 2 * p
    ensures w / 2 < p && (x < p ==> x * 2 + w % 2 < 2 * p)
  {}

  lemma {:induction false} WithBitFits(w: nat, b: nat, k: nat)
    requires b < k && w < Pow2(k)
    ensures WithBit(w, b) < Pow2(k)
  {
    var p := Pow2(k - 1);
    if b > 0 {
      var x := WithBit(w / 2, b - 1);
      HalfFits(w, p, x);
      WithBitFits(w / 2, b - 1, k - 1);
    } else {
      HalfFits(w, p, 0);
    }
  }

  lemma Word64()
    ensures Pow2(64) == U64_MAX + 1
  {
    assert Pow2(8) == 256;
    assert Pow2(16) == 0x1_0000 by { Square(8); }
    assert Pow2(32) == 0x1_0000_0000 by { Square(16); }
    Square(32);
  }

  lemma Square(b: nat)
    ensures Pow2(b + b) == Pow2(b) * Pow2(b)
  {
    PowAdd(b, b);
  }

  lemma Regroup(x: nat, y: nat)
    ensures (2 * x) * y == 2 * (x * y)
  {}

  lemma {:induction false} PowAdd(a: nat, b: nat)
    ensures Pow2(a + b) == Pow2(a) * Pow2(b)
  {
    if a > 0 {
      PowAdd(a - 1, b);
      Regroup(Pow2(a - 1), Pow2(b));
    }
  }

  lemma {:induction false} NoBits(c: nat)
    ensures !Bit(0, c)
  {
    if c > 0 { NoBits(c - 1); }
  }

  /** The bit of a page. */
  predicate Marked(bits: seq<u64>, p: nat)
  {
    p / 64 < |bits| && Bit(bits[p / 64], p % 64)
  }

  /** The pages that a bitmap marks; none is out of range. */
  ghost predicate Holds(bits: seq<u64>, pages: nat, s: set<nat>)
  {
    && pages <= |bits| * 64
    && (forall p: nat :: p in s <==> Marked(bits, p))
    && (forall p :: p in s ==> p < pages)
  }

  lemma MarkOne(bits: seq<u64>, pages: nat, s: set<nat>, p: nat)
    requires Holds(bits, pages, s) && p < pages
    ensures p / 64 < |bits| && (p in s <==> Bit(bits[p / 64], p % 64)) && WithBit(bits[p / 64], p % 64) <= U64_MAX
    ensures Holds(bits[p / 64 := WithBit(bits[p / 64], p % 64)], pages, s + {p}) == true
  {
    Word64();
    WithBitFits(bits[p / 64], p % 64, 64);
    var now := bits[p / 64 := WithBit(bits[p / 64], p % 64)];
    forall q: nat ensures Marked(now, q) <==> q == p || Marked(bits, q) {
      if q / 64 == p / 64 { SetBit(bits[p / 64], p % 64, q % 64); }
    }
  }

  method Mark(bits: seq<u64>, pages: nat, p: nat, ghost s: set<nat>) returns (now: seq<u64>, isNew: bool)
    requires Holds(bits, pages, s) && p < pages
    ensures Holds(now, pages, s + {p}) == true  // proved as one fact
    ensures isNew <==> p !in s
  {
    MarkOne(bits, pages, s, p);
    var word, bit := p / 64, p % 64;
    isNew := !Bit(bits[word], bit);
    now := bits[word := WithBit(bits[word], bit)];
  }

  lemma AddMember(s: set<nat>, p: nat)
    ensures |s + {p}| == |s| + (if p in s then 0 else 1)
  {
    if p in s { assert s + {p} == s; }
  }

  class DirtyPageSet {
    var bits: seq<u64>
    const pages: nat
    var setCount: nat
    ghost var members: set<nat>

    ghost predicate Valid()
      reads this
    {
      (Holds(bits, pages, members) == true) && setCount == |members|
    }

    constructor (memBytes: nat)
      ensures Valid() && members == {} && pages == memBytes / PAGE_SIZE + (if memBytes % PAGE_SIZE == 0 then 0 else 1)
    {
      var n := memBytes / PAGE_SIZE + (if memBytes % PAGE_SIZE == 0 then 0 else 1);
      pages, setCount, members := n, 0, {};
      bits := seq(n / 64 + (if n % 64 == 0 then 0 else 1), _ => 0);
      new;
      NothingMarked(bits);
    }

    /** `insert`: whether the page is new; `None` is a page beyond the guest's memory. */
    method Insert(p: nat) returns (newly: Option<bool>)
      requires Valid()
      modifies this
      ensures Valid() && newly == if p < pages then Some(p !in old(members)) else None
      ensures members == old(members) + (if p < pages then {p} else {})
    {
      if p >= pages { return None; }
      var now, isNew := Mark(bits, pages, p, members);
      AddMember(members, p);
      bits, members := now, members + {p};
      if isNew { setCount := setCount + 1; }
      return Some(isNew);
    }

    method Contains(p: nat) returns (yes: bool)
      requires Valid()
      ensures yes <==> p in members
    {
      yes := p < pages && Bit(bits[p / 64], p % 64);
    }

    method Len() returns (n: nat)
      requires Valid()
      ensures n == |members|
    {
      n := setCount;
    }

    method Clear()
      requires Valid()
      modifies this
      ensures Valid() && members == {}
    {
      bits := seq(|bits|, _ => 0);
      setCount, members := 0, {};
      NothingMarked(bits);
    }

    /** `iter`: word by word, bit by bit. */
    method Iter() returns (out: seq<nat>)
      requires Valid()
      ensures Ascending(out) && forall p :: p in out <==> p in members
    {
      out := [];
      for w := 0 to |bits|
        invariant Listed(bits, w * 64, out) == true
      {
        out := ListWord(bits, w, out);
      }
      ListAll(bits, out);
    }
  }

  lemma NothingMarked(bits: seq<u64>)
    requires forall i :: 0 <= i < |bits| ==> bits[i] == 0
    ensures forall p: nat :: !Marked(bits, p)
  {
    forall p: nat ensures !Marked(bits, p) { NoBits(p % 64); }
  }

  predicate Ascending(out: seq<nat>)
  {
    forall i, j :: 0 <= i < j < |out| ==> out[i] < out[j]
  }

  /** `out` lists the marked pages below `n`. */
  ghost predicate Listed(bits: seq<u64>, n: nat, out: seq<nat>)
  {
    Ascending(out) && forall p: nat :: p in out <==> p < n && Marked(bits, p)
  }

  lemma ListAll(bits: seq<u64>, out: seq<nat>)
    requires Listed(bits, |bits| * 64, out)
    ensures Ascending(out) && forall p: nat :: p in out <==> Marked(bits, p)
  {}

  /** The pages of one word. */
  method ListWord(bits: seq<u64>, w: nat, out0: seq<nat>) returns (out: seq<nat>)
    requires w < |bits| && Listed(bits, w * 64, out0)
    ensures Listed(bits, (w + 1) * 64, out) == true
  {
    out := out0;
    for b := 0 to 64
      invariant Listed(bits, w * 64 + b, out) == true  // proved as one fact
    {
      ListMore(bits, w, b, out);
      if Bit(bits[w], b) { out := out + [w * 64 + b]; }
    }
  }

  lemma ListMore(bits: seq<u64>, w: nat, b: nat, out: seq<nat>)
    requires w < |bits| && b < 64 && Listed(bits, w * 64 + b, out)
    ensures Listed(bits, w * 64 + b + 1, if Bit(bits[w], b) then out + [w * 64 + b] else out) == true
  {
    var p := w * 64 + b;
    assert p / 64 == w && p % 64 == b;
    forall i | 0 <= i < |out| ensures out[i] < p { assert out[i] in out; }
  }
}
