/** The growth rule of `Message::reserve` and what it costs over a run of writes. */
module Growth {

  function Pow2(n: nat): (p: nat)
    ensures p >= 1
  {
    if n == 0 then 1 else 2 * Pow2(n - 1)
  }

  /** floor(log2 n) */
  function Log2(n: nat): nat
    requires n >= 1
  {
    if n == 1 then 0 else 1 + Log2(n / 2)
  }

  lemma {:induction false} Log2Bounds(n: nat)
    requires n >= 1
    ensures Pow2(Log2(n)) <= n < 2 * Pow2(Log2(n))
  {
    if n > 1 { Log2Bounds(n / 2); }
  }

  lemma {:induction false} Pow2Monotone(a: nat, b: nat)
    requires a <= b
    ensures Pow2(a) <= Pow2(b) && (a < b ==> 2 * Pow2(a) <= Pow2(b))
  {
    if a < b { Pow2Monotone(a, b - 1); }
  }

  /** floor(log2 n) is the only exponent whose power brackets n. */
  lemma Log2Unique(n: nat, b: nat)
    requires n >= 1 && Pow2(b) <= n < 2 * Pow2(b)
    ensures Log2(n) == b
  {
    Log2Bounds(n);
    if Log2(n) < b { Pow2Monotone(Log2(n), b); }
    if b < Log2(n) { Pow2Monotone(b, Log2(n)); }
  }

  lemma Log2Monotone(m: nat, n: nat)
    requires 1 <= m <= n
    ensures Log2(m) <= Log2(n)
  {
    Log2Bounds(m);
    Log2Bounds(n);
    if Log2(n) < Log2(m) { Pow2Monotone(Log2(n), Log2(m)); }
  }

  predicate IsPow2(n: nat) {
    n >= 1 && n == Pow2(Log2(n))
  }

  /** `next_power_of_two`: the smallest power of two that is not below n. */
  function NextPow2(n: nat): nat {
    if n <= 1 then 1 else Pow2(Log2(n - 1) + 1)
  }

  lemma DoublePow2(b: nat)
    ensures Pow2(b + 1) == 2 * Pow2(b) && Log2(2 * Pow2(b)) == b + 1 && IsPow2(2 * Pow2(b))
  {
    Log2Unique(Pow2(b + 1), b + 1);
  }

  /** Just above a power of two, up to and including the next one. */
  lemma NextPow2Above(n: nat, b: nat)
    requires n >= 2 && Pow2(b) < n <= 2 * Pow2(b)
    ensures NextPow2(n) == 2 * Pow2(b)
  {
    Log2Unique(n - 1, b);
    DoublePow2(b);
  }

  lemma NotPow2Inside(n: nat, b: nat)
    requires Pow2(b) < n < 2 * Pow2(b)
    ensures Log2(n) == b && !IsPow2(n)
  {
    Log2Unique(n, b);
  }

  lemma NextPow2OfPow2(n: nat, b: nat)
    requires n == Pow2(b)
    ensures NextPow2(n) == n && IsPow2(n) && Log2(n) == b
  {
    Log2Unique(n, b);
    if b > 0 {
      assert n == 2 * Pow2(b - 1);
      NextPow2Above(n, b - 1);
    }
  }

  lemma NextPow2Inside(n: nat, b: nat)
    requires Pow2(b) < n < 2 * Pow2(b)
    ensures NextPow2(n) == 2 * Pow2(b) && Log2(n) == b && !IsPow2(n) && IsPow2(NextPow2(n))
  {
    NextPow2Above(n, b);
    NotPow2Inside(n, b);
    DoublePow2(b);
  }

  lemma NextPow2Spec(n: nat)
    requires n >= 1
    ensures NextPow2(n) == if IsPow2(n) then n else 2 * Pow2(Log2(n))
    ensures n <= NextPow2(n) < 2 * n && IsPow2(NextPow2(n))
  {
    var b := Log2(n);
    Log2Bounds(n);
    if n == Pow2(b) { NextPow2OfPow2(n, b); } else { NextPow2Inside(n, b); }
  }

  /** usize::MAX for a usize of the given width. */
  function Max(bits: nat): nat {
    Pow2(bits) - 1
  }

  /** The capacity `reserve` asks for when `required` does not fit into `cap`. */
  function NewCapacity(bits: nat, cap: nat, required: nat): nat {
    var next := if NextPow2(cap) <= Max(bits) then NextPow2(cap) else Max(bits);
    if required >= next then required else next
  }

  lemma NextPow2IsLeast(n: nat, b: nat)
    requires n >= 1 && n <= Pow2(b)
    ensures NextPow2(n) <= Pow2(b)
  {
    NextPow2Spec(n);
    Log2Bounds(n);
    if b < Log2(n) { Pow2Monotone(b, Log2(n)); }
    if Log2(n) < b { Pow2Monotone(Log2(n), b); }
  }

  /**
   * The growth rule: the least power of two not below the capacity, or all the address space where that
   * power does not fit into usize, but never less than required; and a larger requirement is met exactly.
   */
  lemma NewCapacityIsExact(bits: nat, cap: nat, required: nat) returns (p: nat)
    requires 1 <= cap < required <= Max(bits)
    ensures IsPow2(p) && cap <= p && (forall b: nat | cap <= Pow2(b) :: p <= Pow2(b))
    ensures NewCapacity(bits, cap, required) ==
            if p > Max(bits) then Max(bits) else if p <= required then required else p
  {
    p := NextPow2(cap);
    NextPow2Spec(cap);
    forall b: nat | cap <= Pow2(b)
      ensures p <= Pow2(b)
    {
      NextPow2IsLeast(cap, b);
    }
  }

  /** Space: a reallocation gives at least what is required, and less than twice that. */
  lemma NewCapacityBounds(bits: nat, cap: nat, required: nat)
    requires 1 <= cap < required <= Max(bits)
    ensures required <= NewCapacity(bits, cap, required) < 2 * required
    ensures NewCapacity(bits, cap, required) <= Max(bits)
  {
    NextPow2Spec(cap);
  }

  /**
   * How the size class moves: the new capacity is a higher class, or the old one was the power of two of
   * its class and the new one is not, or the whole address space has been reserved.
   */
  predicate ClassMoves(bits: nat, cap: nat, cap': nat)
    requires cap >= 1 && cap' >= 1
  {
    || Log2(cap) < Log2(cap')
    || (Log2(cap) == Log2(cap') && IsPow2(cap) && !IsPow2(cap'))
    || cap' == Max(bits)
  }

  lemma NewCapacityMovesClass(bits: nat, cap: nat, required: nat)
    requires 1 <= cap < required <= Max(bits)
    ensures NewCapacity(bits, cap, required) >= 1
    ensures ClassMoves(bits, cap, NewCapacity(bits, cap, required))
  {
    var cap' := NewCapacity(bits, cap, required);
    NewCapacityBounds(bits, cap, required);
    NextPow2Spec(cap);
    Log2Monotone(cap, cap');
    if !IsPow2(cap) && NextPow2(cap) <= Max(bits) {
      Log2Unique(NextPow2(cap), Log2(cap) + 1);
      Log2Monotone(NextPow2(cap), cap');
    }
  }

  /** A buffer that only grows: `copied` counts bytes moved by reallocations, `starts` lists where they began. */
  datatype Grow = Grow(len: nat, cap: nat, copied: nat, starts: seq<nat>)

  /** `write` of k bytes: reserve, then append. */
  function Write(bits: nat, g: Grow, k: nat): Grow {
    if g.len + k <= g.cap then g.(len := g.len + k)
    else Grow(g.len + k, NewCapacity(bits, g.cap, g.len + k), g.copied + g.len, g.starts + [g.cap])
  }

  function Writes(bits: nat, g: Grow, ks: seq<nat>): Grow {
    if ks == [] then g else Write(bits, Writes(bits, g, ks[..|ks| - 1]), ks[|ks| - 1])
  }

  function Total(ks: seq<nat>): nat {
    if ks == [] then 0 else Total(ks[..|ks| - 1]) + ks[|ks| - 1]
  }

  /** The amortised bill of a buffer in size class b, whose power of two is P: at most this much so far. */
  predicate BillAt(max: nat, g: Grow, b: nat, P: nat) {
    || (g.starts == [] && g.copied == 0)
    || (g.cap == P && g.copied <= 3 * (P - 1) && |g.starts| <= 2 * b && g.cap < 2 * g.len)
    || (g.cap > P && g.copied <= 4 * P - 3 && |g.starts| <= 2 * b + 1 && g.cap <= g.len)
    || (g.cap == max && g.copied <= 6 * P - 4 && |g.starts| <= 2 * b + 2 && P < g.len)
  }

  predicate Bill(bits: nat, g: Grow)
    requires g.cap >= 1
  {
    BillAt(Max(bits), g, Log2(g.cap), Pow2(Log2(g.cap)))
  }

  /** Every reallocation but the last began where the one before it ended. */
  predicate Chain(bits: nat, g: Grow)
    requires g.cap >= 1
  {
    && (forall i | 0 <= i < |g.starts| :: 1 <= g.starts[i] < Max(bits))
    && (forall i | 0 <= i < |g.starts| - 1 :: ClassMoves(bits, g.starts[i], g.starts[i + 1]))
    && (g.starts != [] ==> ClassMoves(bits, g.starts[|g.starts| - 1], g.cap))
  }

  predicate GrowInv(bits: nat, g: Grow) {
    && 1 <= g.cap <= Max(bits) && g.len <= g.cap
    && Bill(bits, g) && Chain(bits, g)
  }

  /** A reallocation of `g` into `g'`. */
  predicate Moves(g: Grow, g': Grow) {
    g.len <= g.cap < g'.len && g'.copied == g.copied + g.len && |g'.starts| == |g.starts| + 1
  }

  /** The first reallocation, or one that starts from the power of two of its class. */
  lemma BillMovesFromPow2(max: nat, g: Grow, g': Grow, b: nat, P: nat, b': nat, P': nat)
    requires BillAt(max, g, b, P) && Moves(g, g') && 1 <= g.cap == P < max
    requires g'.cap == g'.len && P' <= g'.cap && (if b < b' then 2 * P <= P' else b' == b && P' == P)
    ensures BillAt(max, g', b', P')
  {
    assert g.copied <= 3 * (P - 1) && |g.starts| <= 2 * b;
  }

  /** One that starts from above the power of two: it leaves the class, or takes all the address space. */
  lemma BillMovesFromAbove(max: nat, g: Grow, g': Grow, b: nat, P: nat, b': nat, P': nat)
    requires BillAt(max, g, b, P) && Moves(g, g') && 1 <= P < g.cap < max && g.cap < 2 * P
    requires P' <= g'.cap && (if b < b' then 2 * P <= P' else b' == b && P' == P && g'.cap == max)
    requires if g'.cap == P' then g'.cap < 2 * g'.len else g'.cap == g'.len || g'.cap == max
    requires g'.cap == max ==> P' < g'.len || g'.cap == P'
    ensures BillAt(max, g', b', P')
  {
    assert g.copied <= 4 * P - 3 && |g.starts| <= 2 * b + 1;
  }

  lemma BillFromPow2(bits: nat, g: Grow, g': Grow)
    requires 1 <= g.cap < Max(bits) && Bill(bits, g) && IsPow2(g.cap)
    requires Moves(g, g') && g'.cap == g'.len
    ensures Bill(bits, g')
  {
    var b, b' := Log2(g.cap), Log2(g'.cap);
    Log2Bounds(g'.cap);
    Log2Monotone(g.cap, g'.cap);
    Pow2Monotone(b, b');
    BillMovesFromPow2(Max(bits), g, g', b, Pow2(b), b', Pow2(b'));
  }

  /** From a power of two the new capacity is what is required. */
  lemma NewCapacityFromPow2(bits: nat, cap: nat, required: nat)
    requires 1 <= cap < required <= Max(bits) && IsPow2(cap)
    ensures NewCapacity(bits, cap, required) == required
  {
    NextPow2Spec(cap);
  }

  lemma BillFromAbove(bits: nat, g: Grow, g': Grow)
    requires 1 <= g.cap < Max(bits) && Bill(bits, g) && !IsPow2(g.cap)
    requires Moves(g, g') && LandsIn(bits, g.cap, g'.len, g'.cap)
    ensures Bill(bits, g')
  {
    var b, b' := Log2(g.cap), Log2(g'.cap);
    Log2Bounds(g.cap);
    Log2Bounds(g'.cap);
    BillMovesFromAbove(Max(bits), g, g', b, Pow2(b), b', Pow2(b'));
  }

  /** Where a reallocation that starts inside a size class ends: in a higher class, or at the very top. */
  predicate LandsIn(bits: nat, cap: nat, required: nat, c: nat)
    requires cap >= 1
  {
    && c >= required && c >= 1
    && var P, P' := Pow2(Log2(cap)), Pow2(Log2(c));
       && (if Log2(cap) < Log2(c) then 2 * P <= P' else Log2(cap) == Log2(c) && c == Max(bits))
       && (if c == P' then c < 2 * required else c == required || c == Max(bits))
       && (c == Max(bits) ==> P' < required || c == P')
  }

  lemma NewCapacityLands(bits: nat, cap: nat, required: nat)
    requires 1 <= cap < required <= Max(bits) && !IsPow2(cap)
    ensures LandsIn(bits, cap, required, NewCapacity(bits, cap, required))
  {
    var c := NewCapacity(bits, cap, required);
    NewCapacityBounds(bits, cap, required);
    NextPow2Spec(cap);
    NewCapacityMovesClass(bits, cap, required);
    Log2Bounds(cap);
    Log2Bounds(c);
    Log2Monotone(cap, c);
    if Log2(cap) < Log2(c) { Pow2Monotone(Log2(cap) + 1, Log2(c)); }
  }

  /** Appending the capacity a reallocation starts from extends the chain, when the new one moves on. */
  lemma ChainExtends(bits: nat, g: Grow, g': Grow)
    requires g.cap >= 1 && g'.cap >= 1 && Chain(bits, g) && g.cap < Max(bits)
    requires g'.starts == g.starts + [g.cap] && ClassMoves(bits, g.cap, g'.cap)
    ensures Chain(bits, g')
  {
  }

  lemma WriteKeepsBill(bits: nat, g: Grow, g': Grow)
    requires 1 <= g.cap < Max(bits) && Bill(bits, g) && Moves(g, g') && g'.len <= Max(bits)
    requires g'.cap == NewCapacity(bits, g.cap, g'.len)
    ensures g'.cap >= 1 && Bill(bits, g')
  {
    NewCapacityBounds(bits, g.cap, g'.len);
    if IsPow2(g.cap) {
      NewCapacityFromPow2(bits, g.cap, g'.len);
      BillFromPow2(bits, g, g');
    } else {
      NewCapacityLands(bits, g.cap, g'.len);
      BillFromAbove(bits, g, g');
    }
  }

  lemma MoreIsWithinBill(bits: nat, g: Grow, len: nat)
    requires g.cap >= 1 && g.len <= len && Bill(bits, g)
    ensures Bill(bits, g.(len := len)) && (Chain(bits, g) ==> Chain(bits, g.(len := len)))
  {
  }

  lemma WriteInv(bits: nat, g: Grow, k: nat)
    requires GrowInv(bits, g) && g.len + k <= Max(bits)
    ensures GrowInv(bits, Write(bits, g, k))
  {
    if g.len + k <= g.cap {
      MoreIsWithinBill(bits, g, g.len + k);
    } else {
      var g' := Write(bits, g, k);
      WriteKeepsBill(bits, g, g');
      NewCapacityBounds(bits, g.cap, g'.len);
      NewCapacityMovesClass(bits, g.cap, g'.len);
      ChainExtends(bits, g, g');
    }
  }

  lemma {:induction false} WritesInv(bits: nat, c: nat, ks: seq<nat>)
    requires 1 <= c <= Max(bits) && Total(ks) <= Max(bits)
    ensures GrowInv(bits, Writes(bits, Grow(0, c, 0, []), ks))
    ensures Writes(bits, Grow(0, c, 0, []), ks).len == Total(ks)
  {
    if ks != [] {
      WritesInv(bits, c, ks[..|ks| - 1]);
      WriteInv(bits, Writes(bits, Grow(0, c, 0, []), ks[..|ks| - 1]), ks[|ks| - 1]);
    }
  }

  /**
   * Amortised O(1): from any initial capacity, writing N bytes in any chunks copies fewer than 6N bytes,
   * in at most 2(floor(log2 N) + 1) reallocations.
   */
  lemma AmortisedGrowth(bits: nat, c: nat, ks: seq<nat>)
    requires 1 <= c <= Max(bits) && 0 < Total(ks) <= Max(bits)
    ensures var g := Writes(bits, Grow(0, c, 0, []), ks);
            g.copied < 6 * Total(ks) && |g.starts| <= 2 * (Log2(Total(ks)) + 1)
  {
    var g, n := Writes(bits, Grow(0, c, 0, []), ks), Total(ks);
    WritesInv(bits, c, ks);
    var P := Pow2(Log2(g.cap));
    Log2Bounds(g.cap);
    Log2Bounds(n);
    if Log2(g.cap) > Log2(n) + 1 { Pow2Monotone(Log2(n) + 1, Log2(g.cap)); }
    if P <= n { Log2Unique(P, Log2(g.cap)); Log2Monotone(P, n); }
  }

  /** The i-th write changes the capacity. */
  predicate Reallocates(bits: nat, c: nat, ks: seq<nat>, i: nat)
    requires i < |ks|
  {
    Writes(bits, Grow(0, c, 0, []), ks[..i + 1]).cap != Writes(bits, Grow(0, c, 0, []), ks[..i]).cap
  }

  /** What moving costs: the bytes that are in the buffer at each write that changes its capacity. */
  function BytesMoved(bits: nat, c: nat, ks: seq<nat>, n: nat): nat
    requires n <= |ks|
  {
    if n == 0 then 0
    else BytesMoved(bits, c, ks, n - 1) + if Reallocates(bits, c, ks, n - 1) then Total(ks[..n - 1]) else 0
  }

  function Reallocations(bits: nat, c: nat, ks: seq<nat>, n: nat): nat
    requires n <= |ks|
  {
    if n == 0 then 0
    else Reallocations(bits, c, ks, n - 1) + if Reallocates(bits, c, ks, n - 1) then 1 else 0
  }

  /** The bill is honest: it counts the bytes in the buffer whenever the capacity changes, and how often it does. */
  lemma {:induction false} BillCountsMoves(bits: nat, c: nat, ks: seq<nat>, n: nat)
    requires 1 <= c <= Max(bits) && n <= |ks| && Total(ks[..n]) <= Max(bits)
    ensures var g := Writes(bits, Grow(0, c, 0, []), ks[..n]);
            g.copied == BytesMoved(bits, c, ks, n) && |g.starts| == Reallocations(bits, c, ks, n)
  {
    if n > 0 {
      assert ks[..n][..n - 1] == ks[..n - 1] && ks[..n][n - 1] == ks[n - 1];
      assert ks[..(n - 1) + 1] == ks[..n];
      BillCountsMoves(bits, c, ks, n - 1);
      WritesInv(bits, c, ks[..n - 1]);
      var g := Writes(bits, Grow(0, c, 0, []), ks[..n - 1]);
      if g.len + ks[n - 1] > g.cap { NewCapacityBounds(bits, g.cap, g.len + ks[n - 1]); }
    }
  }

  /** At most two reallocations start from capacities of the same size class. */
  lemma TwoPerClass(bits: nat, c: nat, ks: seq<nat>, i: nat)
    requires 1 <= c <= Max(bits) && Total(ks) <= Max(bits)
    requires i + 2 < |Writes(bits, Grow(0, c, 0, []), ks).starts|
    ensures var starts := Writes(bits, Grow(0, c, 0, []), ks).starts;
            starts[i] >= 1 && starts[i + 2] >= 1 && Log2(starts[i]) < Log2(starts[i + 2])
  {
    WritesInv(bits, c, ks);
    var starts := Writes(bits, Grow(0, c, 0, []), ks).starts;
    assert ClassMoves(bits, starts[i], starts[i + 1]);
    assert ClassMoves(bits, starts[i + 1], starts[i + 2]);
  }

  /** Two in one class do happen: a full power-of-two buffer grows by one byte first. */
  lemma PowerOfTwoMayGrowByOne(bits: nat, c: nat)
    requires IsPow2(c) && c + 1 <= Max(bits)
    ensures NewCapacity(bits, c, c + 1) == c + 1
  {
    NextPow2Spec(c);
  }
}
