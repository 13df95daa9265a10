// The page checksum of the Ogg writer, and why it is a polynomial remainder.

module OggChecksum {
  type Byte = bv8
  type Word = bv32

  const GENERATOR: Word := 0x04C1_1DB7

  predicate Top(c: Word) { c & 0x8000_0000 != 0 }

  function Double(c: Word): Word { c << 1 }

  function Sum(a: Word, b: Word): Word { a ^ b }

  /** A byte at the top of a word. */
  function Lifted(b: Byte): Word { (b as Word) << 24 }

  /** One shift of the register: the bit pushed out at the top decides whether the generator is added. */
  function Shift(c: Word): Word {
    if Top(c) then Sum(Double(c), GENERATOR) else Double(c)
  }

  function Shifts(c: Word, n: nat): Word {
    if n == 0 then c else Shift(Shifts(c, n - 1))
  }

  function FeedByte(c: Word, b: Byte): Word { Shifts(Sum(c, Lifted(b)), 8) }

  function Feed(c: Word, page: seq<Byte>): Word {
    if page == [] then c else FeedByte(Feed(c, page[..|page| - 1]), page[|page| - 1])
  }

  function Crc(page: seq<Byte>): Word { Feed(0, page) }

  /** The checksum as written: every byte goes in at the top, then eight shifts. */
  method OggCrc(page: seq<Byte>) returns (crc: Word)
    ensures crc == Crc(page)
  {
    hide Shift;
    crc := 0;
    for i := 0 to |page|
      invariant crc == Feed(0, page[..i])
    {
      assert page[..i + 1][..i] == page[..i];
      crc := crc ^ ((page[i] as Word) << 24);
      ghost var start := crc;
      for k := 0 to 8
        invariant crc == Shifts(start, k)
      {
        ShiftUnfolds(crc);
        crc := if crc & 0x8000_0000 != 0 then (crc << 1) ^ GENERATOR else crc << 1;
      }
    }
    assert page[..|page|] == page;
  }

  lemma ShiftUnfolds(c: Word)
    ensures Shift(c) == if c & 0x8000_0000 != 0 then (c << 1) ^ GENERATOR else c << 1
  {
  }

  // ----- Linearity ----------------------------------------------------------------------------------

  lemma TopOfSum(a: Word, b: Word)
    ensures Top(Sum(a, b)) == (Top(a) != Top(b))
  {
  }

  lemma DoubleOfSum(a: Word, b: Word)
    ensures Double(Sum(a, b)) == Sum(Double(a), Double(b))
  {
  }

  lemma LiftedSum(x: Byte, y: Byte)
    ensures Lifted(x ^ y) == Sum(Lifted(x), Lifted(y))
  {
  }

  lemma SumLaws(a: Word, b: Word)
    ensures Sum(a, b) == Sum(b, a) && Sum(a, 0) == a && Sum(a, a) == 0
  {
  }

  lemma SumAssociates(a: Word, b: Word, c: Word)
    ensures Sum(a, Sum(b, c)) == Sum(Sum(a, b), c)
  {
  }

  lemma SumsRearrange(a: Word, b: Word, c: Word, d: Word)
    ensures Sum(Sum(a, b), Sum(c, d)) == Sum(Sum(a, c), Sum(b, d))
  {
    hide Sum;
    SumAssociates(Sum(a, b), c, d);
    SumAssociates(a, b, c);
    SumLaws(b, c);
    SumAssociates(a, c, b);
    SumAssociates(Sum(a, c), b, d);
  }

  lemma SumCancels(a: Word, b: Word, g: Word)
    ensures Sum(Sum(a, g), Sum(b, g)) == Sum(a, b)
    ensures Sum(Sum(a, g), b) == Sum(Sum(a, b), g)
  {
    hide Sum;
    SumsRearrange(a, g, b, g);
    SumLaws(g, g);
    SumLaws(Sum(a, b), 0);
    SumsRearrange(a, g, b, 0);
    SumLaws(b, 0);
    SumLaws(g, 0);
  }

  lemma ShiftIsLinear(a: Word, b: Word)
    ensures Shift(Sum(a, b)) == Sum(Shift(a), Shift(b))
  {
    hide Top, Double, Sum;
    TopOfSum(a, b);
    DoubleOfSum(a, b);
    SumCancels(Double(a), Double(b), GENERATOR);
    SumAssociates(Double(a), Double(b), GENERATOR);
  }

  lemma {:induction false} ShiftsAreLinear(a: Word, b: Word, n: nat)
    ensures Shifts(Sum(a, b), n) == Sum(Shifts(a, n), Shifts(b, n))
  {
    hide Shift, Sum;
    if n > 0 {
      ShiftsAreLinear(a, b, n - 1);
      ShiftIsLinear(Shifts(a, n - 1), Shifts(b, n - 1));
    }
  }

  /** The byte-by-byte sum of two pages of one length. */
  function Xor(p: seq<Byte>, q: seq<Byte>): (r: seq<Byte>)
    requires |p| == |q|
    ensures |r| == |p|
  {
    seq(|p|, i requires 0 <= i < |p| => p[i] ^ q[i])
  }

  lemma FeedByteIsLinear(a: Word, b: Word, x: Byte, y: Byte)
    ensures FeedByte(Sum(a, b), x ^ y) == Sum(FeedByte(a, x), FeedByte(b, y))
  {
    hide Shifts, Sum, Lifted;
    LiftedSum(x, y);
    SumsRearrange(a, b, Lifted(x), Lifted(y));
    ShiftsAreLinear(Sum(a, Lifted(x)), Sum(b, Lifted(y)), 8);
  }

  lemma {:induction false} FeedIsLinear(a: Word, b: Word, p: seq<Byte>, q: seq<Byte>)
    requires |p| == |q|
    ensures Feed(Sum(a, b), Xor(p, q)) == Sum(Feed(a, p), Feed(b, q))
  {
    hide FeedByte, Sum;
    if p != [] {
      var last := |p| - 1;
      assert Xor(p, q)[..last] == Xor(p[..last], q[..last]);
      FeedIsLinear(a, b, p[..last], q[..last]);
      FeedByteIsLinear(Feed(a, p[..last]), Feed(b, q[..last]), p[last], q[last]);
    }
  }

  /** The checksum of a sum of equal-length pages is the sum of their checksums. */
  lemma CrcIsLinear(p: seq<Byte>, q: seq<Byte>)
    requires |p| == |q|
    ensures Crc(Xor(p, q)) == Crc(p) ^ Crc(q)
  {
    FeedIsLinear(0, 0, p, q);
  }
}

module Polynomials {
  /** A polynomial over the two-element field, as the set of exponents with coefficient one. */
  type Poly = set<nat>

  function Add(p: Poly, q: Poly): (r: Poly)
    ensures forall i :: i in r <==> (i in p) != (i in q)
  {
    (p - q) + (q - p)
  }

  function TimesX(p: Poly): (r: Poly)
    ensures forall i :: i in r <==> i >= 1 && i - 1 in p
  {
    set i | i in p :: i + 1
  }

  function Scale(bit: bool, p: Poly): Poly { if bit then p else {} }

  predicate Below(p: Poly, n: nat) { forall i :: i in p ==> i < n }

  /** Coefficients from the highest down. */
  function OfBits(bits: seq<bool>): Poly {
    if bits == [] then {}
    else Add(TimesX(OfBits(bits[..|bits| - 1])), Scale(bits[|bits| - 1], {0}))
  }

  /** The product of a polynomial given by its coefficients with another one. */
  function Product(bits: seq<bool>, g: Poly): Poly {
    if bits == [] then {}
    else Add(TimesX(Product(bits[..|bits| - 1], g)), Scale(bits[|bits| - 1], g))
  }

  function XorBits(a: seq<bool>, b: seq<bool>): (r: seq<bool>)
    requires |a| == |b|
    ensures |r| == |a|
  {
    seq(|a|, i requires 0 <= i < |a| => a[i] != b[i])
  }

  lemma TimesXDistributes(p: Poly, q: Poly)
    ensures TimesX(Add(p, q)) == Add(TimesX(p), TimesX(q))
  {
  }

  lemma AddRearranges(a: Poly, b: Poly, c: Poly, d: Poly)
    ensures Add(Add(a, b), Add(c, d)) == Add(Add(a, c), Add(b, d))
  {
  }

  lemma {:induction false} ProductAdds(a: seq<bool>, b: seq<bool>, g: Poly)
    requires |a| == |b|
    ensures Product(XorBits(a, b), g) == Add(Product(a, g), Product(b, g))
  {
    hide Add, TimesX;
    if a == [] {
      AddNothing();
    } else {
      var last := |a| - 1;
      assert XorBits(a, b)[..last] == XorBits(a[..last], b[..last]);
      ProductAdds(a[..last], b[..last], g);
      var p, q := Product(a[..last], g), Product(b[..last], g);
      TimesXDistributes(p, q);
      AddRearranges(TimesX(p), Scale(a[last], g), TimesX(q), Scale(b[last], g));
      ScaleAdds(a[last], b[last], g);
    }
  }

  lemma AddNothing()
    ensures Add({}, {}) == {}
  {
  }

  lemma ScaleAdds(x: bool, y: bool, g: Poly)
    ensures Add(Scale(x, g), Scale(y, g)) == Scale(x != y, g)
  {
  }

  /** A product with a non-zero polynomial reaches at least the degree of the divisor. */
  lemma {:induction false} ProductReaches(bits: seq<bool>, g: Poly, n: nat) returns (top: nat)
    requires n in g && Below(g, n + 1) && true in bits
    ensures top >= n && top in Product(bits, g)
  {
    var rest, last := bits[..|bits| - 1], bits[|bits| - 1];
    if true in rest {
      var below := ProductReaches(rest, g, n);
      top := below + 1;
    } else {
      ProductOfZero(rest, g);
      top := n;
    }
  }

  lemma {:induction false} ProductOfZero(bits: seq<bool>, g: Poly)
    requires true !in bits
    ensures Product(bits, g) == {}
  {
    if bits != [] { ProductOfZero(bits[..|bits| - 1], g); }
  }

  /** Division by a polynomial of degree `n` leaves one quotient and one remainder below degree `n`. */
  lemma RemainderIsUnique(q: seq<bool>, r: Poly, s: seq<bool>, t: Poly, g: Poly, n: nat)
    requires |q| == |s| && n in g && Below(g, n + 1) && Below(r, n) && Below(t, n)
    requires Add(Product(q, g), r) == Add(Product(s, g), t)
    ensures q == s && r == t
  {
    hide Product;
    ProductAdds(q, s, g);
    var p := Product(XorBits(q, s), g);
    assert p == Add(r, t) by { CancelSums(Product(q, g), r, Product(s, g), t); }
    if true in XorBits(q, s) {
      var top := ProductReaches(XorBits(q, s), g, n);
      assert false;
    }
    forall i | 0 <= i < |q|
      ensures q[i] == s[i]
    {
      assert XorBits(q, s)[i] in XorBits(q, s);
    }
    ProductOfZero(XorBits(q, s), g);
    assert r == t by { AddIsEmpty(r, t); }
  }

  lemma CancelSums(a: Poly, b: Poly, c: Poly, d: Poly)
    requires Add(a, b) == Add(c, d)
    ensures Add(a, c) == Add(b, d)
  {
    forall i
      ensures i in Add(a, c) <==> i in Add(b, d)
    {
      assert i in Add(a, b) <==> i in Add(c, d);
    }
  }

  lemma AddIsEmpty(a: Poly, b: Poly)
    requires Add(a, b) == {}
    ensures a == b
  {
    forall i
      ensures i in a <==> i in b
    {
      assert i !in Add(a, b);
    }
  }
}

module OggRemainder {
  import opened OggChecksum
  import opened Polynomials

  // ----- A register as a polynomial ---------------------------------------------------------------

  function Doubles(c: Word, n: nat): Word
    decreases n
  {
    if n == 0 then c else Doubles(Double(c), n - 1)
  }

  /** The top `n` bits of a word, highest first. */
  function TopBits(c: Word, n: nat): (r: seq<bool>)
    ensures |r| == n
  {
    seq(n, i requires 0 <= i < n => Top(Doubles(c, i)))
  }

  /** The polynomial of degree below 32 that a register holds. */
  function Register(c: Word): Poly { Product(TopBits(c, 32), {0}) }

  /** x^32 plus the register's generator. */
  function Divisor(): Poly { Add({32}, Register(GENERATOR)) }

  lemma {:induction false} DoublesCompose(c: Word, m: nat, n: nat)
    ensures Doubles(c, m + n) == Doubles(Doubles(c, m), n)
    decreases m
  {
    if m > 0 { DoublesCompose(Double(c), m - 1, n); }
  }

  lemma {:induction false} DoublesAreLinear(a: Word, b: Word, n: nat)
    ensures Doubles(Sum(a, b), n) == Sum(Doubles(a, n), Doubles(b, n))
    decreases n
  {
    hide Sum, Double;
    if n > 0 {
      DoubleOfSum(a, b);
      DoublesAreLinear(Double(a), Double(b), n - 1);
    }
  }

  function Up4(c: Word): Word { c << 4 }

  function Up8(c: Word): Word { c << 8 }

  lemma FourDoubles(c: Word)
    ensures Doubles(c, 4) == Up4(c)
  {
    hide Double, Up4;
    assert Doubles(c, 4) == Doubles(Double(c), 3);
    assert Doubles(Double(c), 3) == Doubles(Double(Double(c)), 2);
    assert Doubles(Double(Double(c)), 2) == Doubles(Double(Double(Double(c))), 1);
    assert Doubles(Double(Double(Double(c))), 1) == Doubles(Double(Double(Double(Double(c)))), 0);
    FourShifts(c);
  }

  lemma FourShifts(c: Word)
    ensures Double(Double(Double(Double(c)))) == Up4(c)
  {
  }

  lemma TwoShifts(c: Word)
    ensures Up4(Up4(c)) == Up8(c)
  {
  }

  lemma FourBytesUp(c: Word)
    ensures Up8(Up8(Up8(Up8(c)))) == 0
  {
  }

  lemma EightDoubles(c: Word)
    ensures Doubles(c, 8) == Up8(c)
  {
    hide Doubles, Up4, Up8;
    DoublesCompose(c, 4, 4);
    FourDoubles(c);
    FourDoubles(Up4(c));
    TwoShifts(c);
  }

  /** Thirty-two doublings push every bit out. */
  lemma AllBitsLeave(c: Word)
    ensures Doubles(c, 32) == 0
  {
    hide Doubles, Up8;
    DoublesCompose(c, 8, 24);
    DoublesCompose(Up8(c), 8, 16);
    DoublesCompose(Up8(Up8(c)), 8, 8);
    EightDoubles(c);
    EightDoubles(Up8(c));
    EightDoubles(Up8(Up8(c)));
    EightDoubles(Up8(Up8(Up8(c))));
    FourBytesUp(c);
  }

  lemma {:induction false} NoTopBitsIsZero(c: Word, n: nat)
    requires forall i :: 0 <= i < n ==> !Top(Doubles(c, i))
    requires Doubles(c, n) == 0
    ensures c == 0
  {
    hide Doubles;
    if n > 0 {
      DoublesCompose(c, n - 1, 1);
      OneDouble(Doubles(c, n - 1));
      NoTopBitsIsZero(c, n - 1);
    } else {
      NoDouble(c);
    }
  }

  lemma NoDouble(c: Word)
    ensures Doubles(c, 0) == c
  {
  }

  lemma OneDouble(c: Word)
    ensures Doubles(c, 1) == Double(c)
    ensures Double(c) == 0 && !Top(c) ==> c == 0
  {
  }

  lemma TopBitsOfSum(a: Word, b: Word, n: nat)
    ensures TopBits(Sum(a, b), n) == XorBits(TopBits(a, n), TopBits(b, n))
  {
    hide Sum, Top;
    forall i | 0 <= i < n
      ensures Top(Doubles(Sum(a, b), i)) == (Top(Doubles(a, i)) != Top(Doubles(b, i)))
    {
      DoublesAreLinear(a, b, i);
      TopOfSum(Doubles(a, i), Doubles(b, i));
    }
  }

  lemma RegisterOfSum(a: Word, b: Word)
    ensures Register(Sum(a, b)) == Add(Register(a), Register(b))
  {
    hide Sum;
    TopBitsOfSum(a, b, 32);
    ProductAdds(TopBits(a, 32), TopBits(b, 32), {0});
  }

  lemma {:induction false} ProductIsBelow(bits: seq<bool>)
    ensures Below(Product(bits, {0}), |bits|)
  {
    if bits != [] { ProductIsBelow(bits[..|bits| - 1]); }
  }

  lemma {:induction false} FirstBit(bit: bool, bits: seq<bool>)
    ensures Product([bit] + bits, {0}) == Add(Scale(bit, {|bits|}), Product(bits, {0}))
  {
    if bits == [] {
      assert [bit] + bits == [bit] && [bit][..0] == [];
    } else {
      var last := |bits| - 1;
      FirstBit(bit, bits[..last]);
      assert ([bit] + bits)[..last + 1] == [bit] + bits[..last];
      FirstBitStep(bit, last, Product(bits[..last], {0}), Scale(bits[last], {0}));
    }
  }

  lemma FirstBitStep(bit: bool, n: nat, p: Poly, s: Poly)
    ensures Add(TimesX(Add(Scale(bit, {n}), p)), s) == Add(Scale(bit, {n + 1}), Add(TimesX(p), s))
  {
  }

  /** Doubling a register multiplies its polynomial by x; the bit pushed out had exponent 32. */
  lemma DoublingIsTimesX(c: Word)
    ensures TimesX(Register(c)) == Add(Scale(Top(c), {32}), Register(Double(c)))
  {
    hide Top, Double, Product;
    var rest := TopBits(Double(c), 31);
    assert TopBits(c, 32) == [Top(c)] + rest;
    FirstBit(Top(c), rest);
    LastBitIsClear(c);
    assert TopBits(Double(c), 32) == rest + [false];
    AppendClear(rest);
    PushOut(Top(c), Product(rest, {0}));
  }

  lemma PushOut(bit: bool, p: Poly)
    ensures TimesX(Add(Scale(bit, {31}), p)) == Add(Scale(bit, {32}), TimesX(p))
  {
  }

  lemma AppendClear(bits: seq<bool>)
    ensures Product(bits + [false], {0}) == TimesX(Product(bits, {0}))
  {
    assert (bits + [false])[..|bits|] == bits;
  }

  lemma LastBitIsClear(c: Word)
    ensures !Top(Doubles(Double(c), 31))
  {
    AllBitsLeave(c);
  }

  // ----- One bit at a time --------------------------------------------------------------------------

  /** A message bit enters at the top of the register before the shift. */
  function FeedBit(c: Word, bit: bool): Word { Shift(if bit then Sum(c, 0x8000_0000) else c) }

  function FeedBits(c: Word, bits: seq<bool>): Word {
    if bits == [] then c else FeedBit(FeedBits(c, bits[..|bits| - 1]), bits[|bits| - 1])
  }

  /** The quotient bits: what leaves the register at each step. */
  function Quotient(bits: seq<bool>): (q: seq<bool>)
    ensures |q| == |bits|
  {
    if bits == [] then []
    else
      var last := |bits| - 1;
      Quotient(bits[..last]) + [Top(FeedBits(0, bits[..last])) != bits[last]]
  }

  lemma EnteringBit(c: Word, bit: bool)
    ensures FeedBit(c, bit) == if Top(c) != bit then Sum(Double(c), GENERATOR) else Double(c)
  {
    hide Top, Double, Sum;
    TopOfSum(c, 0x8000_0000);
    DoubleOfSum(c, 0x8000_0000);
    TopWord();
    SumLaws(Double(c), 0);
  }

  lemma TopWord()
    ensures Top(0x8000_0000) && Double(0x8000_0000) == 0
  {
  }

  /** One step divides: what enters and the old register are the divisor's share and the new register. */
  lemma StepDivides(c: Word, bit: bool)
    ensures Add(TimesX(Register(c)), Scale(bit, {32}))
      == Add(Scale(Top(c) != bit, Divisor()), Register(FeedBit(c, bit)))
  {
    hide Top, Double, Sum, Register, FeedBit;
    EnteringBit(c, bit);
    DoublingIsTimesX(c);
    RegisterOfSum(Double(c), GENERATOR);
    StepAlgebra(Top(c), bit, Register(Double(c)), Register(GENERATOR));
  }

  lemma StepAlgebra(top: bool, bit: bool, p: Poly, g: Poly)
    ensures Add(Add(Scale(top, {32}), p), Scale(bit, {32}))
      == Add(Scale(top != bit, Add({32}, g)), if top != bit then Add(p, g) else p)
  {
  }

  /** The message times x^32 is the quotient times the divisor plus the register. */
  lemma {:induction false} BitsDivide(bits: seq<bool>)
    ensures Product(bits, {32}) == Add(Product(Quotient(bits), Divisor()), Register(FeedBits(0, bits)))
  {
    hide Register, Add, TimesX, FeedBit, Divisor, Top;
    if bits == [] {
      RegisterOfZero();
      AddNothing();
    } else {
      var last := |bits| - 1;
      var rest, c := bits[..last], FeedBits(0, bits[..last]);
      BitsDivide(rest);
      StepDivides(c, bits[last]);
      var q := Quotient(bits);
      assert q[..last] == Quotient(rest) && q[last] == (Top(c) != bits[last]);
      Carry(Product(Quotient(rest), Divisor()), Register(c), Scale(bits[last], {32}),
            Scale(q[last], Divisor()), Register(FeedBits(0, bits)));
    }
  }

  lemma Carry(p: Poly, r: Poly, s: Poly, d: Poly, t: Poly)
    requires Add(TimesX(r), s) == Add(d, t)
    ensures Add(TimesX(Add(p, r)), s) == Add(Add(TimesX(p), d), t)
  {
    forall i
      ensures i in Add(TimesX(Add(p, r)), s) <==> i in Add(Add(TimesX(p), d), t)
    {
      assert i in Add(TimesX(r), s) <==> i in Add(d, t);
    }
  }

  lemma {:induction false} ZeroStaysZero(n: nat)
    ensures Doubles(0, n) == 0
  {
    if n > 0 { ZeroStaysZero(n - 1); }
  }

  lemma RegisterOfZero()
    ensures Register(0) == {}
  {
    hide Product;
    forall i: nat | i < 32
      ensures !TopBits(0, 32)[i]
    {
      ZeroStaysZero(i);
    }
    ProductOfZero(TopBits(0, 32), {0});
  }

  // ----- Whole pages ----------------------------------------------------------------------------------

  /** The bits of a page in transmission order: byte by byte, highest bit first. */
  function PageBits(page: seq<Byte>): seq<bool> {
    if page == [] then [] else PageBits(page[..|page| - 1]) + TopBits(Lifted(page[|page| - 1]), 8)
  }

  lemma {:induction false} ShiftsFeedBits(c: Word, w: Word, n: nat)
    ensures Shifts(Sum(c, w), n) == Sum(FeedBits(c, TopBits(w, n)), Doubles(w, n))
  {
    hide Sum, Top, Double, Shift;
    if n > 0 {
      ShiftsFeedBits(c, w, n - 1);
      var d, v := FeedBits(c, TopBits(w, n - 1)), Doubles(w, n - 1);
      assert TopBits(w, n)[..n - 1] == TopBits(w, n - 1);
      DoublesCompose(w, n - 1, 1);
      OneDouble(v);
      ShiftFeedsBit(d, v);
    }
  }

  lemma ShiftFeedsBit(c: Word, w: Word)
    ensures Shift(Sum(c, w)) == Sum(FeedBit(c, Top(w)), Double(w))
  {
    hide Sum, Top, Double, FeedBit;
    EnteringBit(c, Top(w));
    TopOfSum(c, w);
    DoubleOfSum(c, w);
    SumCancels(Double(c), Double(w), GENERATOR);
  }

  lemma {:induction false} FeedBitsAppend(c: Word, a: seq<bool>, b: seq<bool>)
    ensures FeedBits(c, a + b) == FeedBits(FeedBits(c, a), b)
  {
    hide FeedBit;
    if b == [] {
      assert a + b == a;
    } else {
      assert (a + b)[..|a + b| - 1] == a + b[..|b| - 1];
      FeedBitsAppend(c, a, b[..|b| - 1]);
    }
  }

  lemma ByteIsEightBits(c: Word, b: Byte)
    ensures FeedByte(c, b) == FeedBits(c, TopBits(Lifted(b), 8))
  {
    hide Sum, FeedBits, Shifts, Doubles, Lifted;
    ShiftsFeedBits(c, Lifted(b), 8);
    LiftedLeaves(b);
    SumLaws(FeedBits(c, TopBits(Lifted(b), 8)), 0);
  }

  lemma LiftedLeaves(b: Byte)
    ensures Doubles(Lifted(b), 8) == 0
  {
    hide Doubles;
    EightDoubles(Lifted(b));
    LiftedUp(b);
  }

  lemma LiftedUp(b: Byte)
    ensures Up8(Lifted(b)) == 0
  {
  }

  lemma {:induction false} FeedIsFeedBits(page: seq<Byte>)
    ensures Crc(page) == FeedBits(0, PageBits(page))
  {
    hide FeedByte, FeedBits;
    if page == [] {
      NoBits();
    } else {
      var rest, last := page[..|page| - 1], page[|page| - 1];
      FeedIsFeedBits(rest);
      ByteIsEightBits(Crc(rest), last);
      FeedBitsAppend(0, PageBits(rest), TopBits(Lifted(last), 8));
    }
  }

  lemma NoBits()
    ensures FeedBits(0, []) == 0
  {
  }

  /** A word is a remainder of the page if some quotient leaves it. */
  ghost predicate IsRemainder(page: seq<Byte>, w: Word) {
    exists q: seq<bool> :: |q| == |PageBits(page)|
      && Product(PageBits(page), {32}) == Add(Product(q, Divisor()), Register(w))
  }

  /** The checksum is the one and only remainder of the page, shifted by 32, modulo the divisor. */
  lemma CrcIsTheRemainder(page: seq<Byte>, w: Word)
    ensures IsRemainder(page, w) <==> w == Crc(page)
  {
    hide Product, Register, Divisor, Crc, FeedBits;
    var bits := PageBits(page);
    FeedIsFeedBits(page);
    BitsDivide(bits);
    if IsRemainder(page, w) {
      var q: seq<bool> :| |q| == |bits| && Product(bits, {32}) == Add(Product(q, Divisor()), Register(w));
      DivisorHasDegree32();
      RegisterIsBelow(w);
      RegisterIsBelow(Crc(page));
      RemainderIsUnique(q, Register(w), Quotient(bits), Register(Crc(page)), Divisor(), 32);
      RegisterIsInjective(w, Crc(page));
    }
  }

  lemma RegisterIsBelow(c: Word)
    ensures Below(Register(c), 32)
  {
    ProductIsBelow(TopBits(c, 32));
  }

  lemma DivisorHasDegree32()
    ensures 32 in Divisor() && Below(Divisor(), 33)
  {
    hide Register;
    RegisterIsBelow(GENERATOR);
  }

  lemma RegisterIsInjective(a: Word, b: Word)
    requires Register(a) == Register(b)
    ensures a == b
  {
    hide Product, Sum, Top;
    RegisterOfSum(a, b);
    var c := Sum(a, b);
    assert Register(c) == {};
    if true in TopBits(c, 32) {
      var top := ProductReaches(TopBits(c, 32), {0}, 0);
      assert false;
    }
    forall i | 0 <= i < 32
      ensures !Top(Doubles(c, i))
    {
      assert TopBits(c, 32)[i] in TopBits(c, 32);
    }
    AllBitsLeave(c);
    NoTopBitsIsZero(c, 32);
    SumIsZero(a, b);
  }

  lemma SumIsZero(a: Word, b: Word)
    requires Sum(a, b) == 0
    ensures a == b
  {
  }
}
