/*
 * Addresses, `Layout` and `align_offset` on a 64-bit target.
 *
 * Raw pointers are modelled as their addresses, natural numbers below
 * 2^64; `wrapping_add` is addition modulo 2^64.
 */
module Layouts {

  /** Number of distinct addresses on a 64-bit target: `usize::MAX + 1`. */
  const WORD: nat := 0x1_0000_0000_0000_0000

  /** `isize::MAX`: the bound Rust's `Layout` puts on a size rounded up to its alignment. */
  const ISIZE_MAX: nat := 0x7FFF_FFFF_FFFF_FFFF

  /** An address, the value of a `*mut u8`. */
  type Addr = a: nat | a < WORD

  /** `<*mut u8>::wrapping_add(n)`: the address `n` bytes further on, wrapping past `usize::MAX`. */
  function WrappingAdd(a: Addr, n: nat): (r: Addr)
    ensures a + n < WORD ==> r == a + n
    ensures WORD <= a + n < 2 * WORD ==> r == a + n - WORD
  {
    (a + n) % WORD
  }

  predicate IsPowerOfTwo(n: nat)
    decreases n
  {
    n == 1 || (n >= 2 && n % 2 == 0 && IsPowerOfTwo(n / 2))
  }

  /** `std::alloc::Layout`: the size and alignment a value needs. */
  datatype Layout = Layout(size: nat, align: nat)

  /** `size` rounded up to the next multiple of `align`. */
  function RoundUp(size: nat, align: nat): nat
    requires align > 0
  {
    (size + align - 1) / align * align
  }

  /**
   * What `Layout` guarantees of every value it holds: the alignment is a
   * power of two no larger than `isize::MAX + 1`, and the size rounded up
   * to the alignment does not exceed `isize::MAX`.
   */
  predicate ValidLayout(l: Layout)
  {
    IsPowerOfTwo(l.align) && l.align <= ISIZE_MAX + 1 && RoundUp(l.size, l.align) <= ISIZE_MAX
  }

  lemma ValidLayoutBounds(l: Layout)
    requires ValidLayout(l)
    ensures 0 < l.align < WORD
    ensures l.size <= ISIZE_MAX
  {
    var q := (l.size + l.align - 1) / l.align;
    var m := (l.size + l.align - 1) % l.align;
    assert l.size + l.align - 1 == q * l.align + m;
  }

  /** `addr` is a multiple of `align`. */
  predicate IsAligned(addr: nat, align: nat)
    requires align > 0
  {
    addr % align == 0
  }

  /** Multiplying by a larger factor gives a product at least one `a` larger. */
  lemma {:induction false} MulStep(k: nat, j: nat, a: nat)
    requires k < j
    ensures k * a + a <= j * a
    decreases j - k
  {
    if k + 1 < j {
      MulStep(k + 1, j, a);
    }
    assert (k + 1) * a == k * a + a;
  }

  /** Euclidean division has one quotient and one remainder. */
  lemma DivModUnique(x: nat, a: nat, q: nat, r: nat)
    requires a > 0 && r < a && x == q * a + r
    ensures x / a == q && x % a == r
  {
    var q', r' := x / a, x % a;
    assert x == q' * a + r';
    if q' < q {
      MulStep(q', q, a);
    } else if q < q' {
      MulStep(q, q', a);
    }
  }

  /**
   * For an `addr` that is not a multiple of `align`, adding `align - addr % align`
   * reaches the next multiple, and no address before it is one.
   */
  lemma NextMultiple(addr: nat, align: nat)
    requires align > 0 && addr % align != 0
    ensures IsAligned(addr + (align - addr % align), align)
    ensures forall q :: addr <= q < addr + (align - addr % align) ==> !IsAligned(q, align)
  {
    var d, m := addr / align, addr % align;
    assert addr == d * align + m;
    DivModUnique(addr + align - m, align, d + 1, 0);
    forall q | addr <= q < addr + align - m
      ensures !IsAligned(q, align)
    {
      DivModUnique(q, align, d, q - d * align);
    }
  }

  /**
   * `<*mut u8>::align_offset(align)` as it runs (not in a `const`
   * context): the number of bytes to add to `addr` to reach a multiple of
   * `align`, which makes `addr + r` the least multiple of `align` at or
   * after `addr`.
   */
  function AlignOffset(addr: nat, align: nat): (r: nat)
    requires align > 0
    ensures r < align
    ensures IsAligned(addr + r, align)
    ensures forall q :: addr <= q < addr + r ==> !IsAligned(q, align)
  {
    if addr % align == 0 then 0
    else
      NextMultiple(addr, align);
      align - addr % align
  }
}
