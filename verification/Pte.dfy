/** Page-table entries and addresses, bit by bit (mm.h, mm64.h, bitops.h). */
module Ptes {

  // ---- Masks. Without CONFIG64 the 32-bit GENMASK is in force, so masks of entries are 32 bits wide. ----

  function Bit(n: nat): bv64
    requires n < 32
  {
    1 << n
  }

  function GenMask(h: nat, l: nat): bv64
    requires l <= h < 32
  {
    ((0xffff_ffff << l) & 0xffff_ffff) & (0xffff_ffff >> (31 - h))
  }

  function GenMask64(h: nat, l: nat): bv64
    requires l <= h < 64
  {
    (0xffff_ffff_ffff_ffff << l) & (0xffff_ffff_ffff_ffff >> (63 - h))
  }

  const PRESENT: bv64 := 0x8000_0000
  const SWAPPED: bv64 := 0x4000_0000
  const FPN_MASK: bv64 := 0x1fff
  const SWPTYP_MASK: bv64 := 0x1f
  const SWPOFF_MASK: bv64 := 0x3ff_ffe0
  const PT_MASK: bv64 := 0x1f_f000
  const PMD_MASK: bv64 := 0x3fe0_0000
  const PUD_MASK: bv64 := 0x7f_c000_0000
  const P4D_MASK: bv64 := 0xff80_0000_0000
  const PGD_MASK: bv64 := 0x1ff_0000_0000_0000

  /** The constants are what the macros compute from their bit positions. */
  lemma Masks()
    ensures PRESENT == Bit(31) && SWAPPED == Bit(30)
    ensures FPN_MASK == GenMask(12, 0) && SWPTYP_MASK == GenMask(4, 0) && SWPOFF_MASK == GenMask(25, 5)
    ensures PT_MASK == GenMask64(20, 12) && PMD_MASK == GenMask64(29, 21) && PUD_MASK == GenMask64(38, 30)
    ensures P4D_MASK == GenMask64(47, 39) && PGD_MASK == GenMask64(56, 48)
  {
  }

  /** ~mask of a 32-bit mask, widened to the 64-bit entry. */
  function Not32(mask: bv64): bv64 {
    (!mask) & 0xffff_ffff
  }

  function SetBit(v: bv64, mask: bv64): bv64 { v | mask }

  function ClrBit(v: bv64, mask: bv64): bv64 { v & Not32(mask) }

  function SetVal(v: bv64, value: bv64, mask: bv64, offst: nat): bv64
    requires offst < 32
  {
    (v & Not32(mask)) | ((value << offst) & mask)
  }

  function GetVal(v: bv64, mask: bv64, offst: nat): bv64
    requires offst < 32
  {
    (v & mask) >> offst
  }

  // ---- Entries ----

  /** pte_set_fpn on an entry. */
  function SetFpn(v: bv64, fpn: bv64): bv64 {
    SetVal(ClrBit(SetBit(v, PRESENT), SWAPPED), fpn, FPN_MASK, 0)
  }

  /** pte_set_swap on an entry. */
  function SetSwap(v: bv64, swptyp: bv64, swpoff: bv64): bv64 {
    SetVal(SetVal(SetBit(SetBit(v, PRESENT), SWAPPED), swptyp, SWPTYP_MASK, 0), swpoff, SWPOFF_MASK, 5)
  }

  /** pte_get_entry reads the low 32 bits. */
  function Entry(v: bv64): bv64 { v & 0xffff_ffff }

  predicate Present(e: bv64) { e & PRESENT != 0 }

  predicate Swapped(e: bv64) { e & SWAPPED != 0 }

  /** PAGING_FPN. */
  function FpnBits(e: bv64): bv64 { GetVal(e, FPN_MASK, 0) }

  /** PAGING_SWP. */
  function SwpBits(e: bv64): bv64 { GetVal(e, SWPOFF_MASK, 5) }

  lemma FpnMarks(v: bv64, fpn: bv64)
    ensures var e := Entry(SetFpn(v, fpn)); Present(e) && !Swapped(e)
  {
  }

  /** The frame field is 13 bits wide: a frame number survives the round trip exactly when it is below 8192. */
  lemma FpnFitsExactly(v: bv64, fpn: bv64)
    ensures FpnBits(Entry(SetFpn(v, fpn))) == fpn <==> fpn < 0x2000
  {
  }

  /** Writing a frame number marks the page resident and reads back, whatever the entry held before. */
  lemma FpnRoundTrip(v: bv64, fpn: bv64)
    requires fpn < 0x2000
    ensures var e := Entry(SetFpn(v, fpn)); Present(e) && !Swapped(e) && FpnBits(e) == fpn
  {
    FpnMarks(v, fpn);
    FpnFitsExactly(v, fpn);
  }

  /** A swapped entry still counts as present, and its frame field shows bits of the swap offset. */
  lemma SwapRoundTrip(v: bv64, swpoff: bv64)
    requires swpoff < 0x20_0000
    ensures var e := Entry(SetSwap(v, 0, swpoff));
            Present(e) && Swapped(e) && SwpBits(e) == swpoff && FpnBits(e) == (swpoff & 0xff) << 5
  {
    SwapMarks(v, 0, swpoff);
    SwapOffset(v, swpoff);
    SwapClash(v, swpoff);
  }

  /** The swap offset that has been written is read back, whatever is around it. */
  lemma OffsetReads(v: bv64, swpoff: bv64)
    requires swpoff < 0x20_0000
    ensures SwpBits(Entry(SetVal(v, swpoff, SWPOFF_MASK, 5))) == swpoff
  {
  }

  lemma SwapOffset(v: bv64, swpoff: bv64)
    requires swpoff < 0x20_0000
    ensures SwpBits(Entry(SetSwap(v, 0, swpoff))) == swpoff
  {
    OffsetReads(SetVal(SetBit(SetBit(v, PRESENT), SWAPPED), 0, SWPTYP_MASK, 0), swpoff);
  }

  lemma SwapClash(v: bv64, swpoff: bv64)
    ensures FpnBits(Entry(SetSwap(v, 0, swpoff))) == (swpoff & 0xff) << 5
  {
  }

  lemma SwapMarks(v: bv64, swptyp: bv64, swpoff: bv64)
    ensures var e := Entry(SetSwap(v, swptyp, swpoff)); Present(e) && Swapped(e)
  {
  }

  // ---- The five-level split of an address ----

  datatype Path = Path(pgd: bv64, p4d: bv64, pud: bv64, pmd: bv64, pt: bv64)

  /** get_pd_from_address. */
  function PathOf(addr: bv64): Path {
    Path((addr & PGD_MASK) >> 48, (addr & P4D_MASK) >> 39, (addr & PUD_MASK) >> 30,
         (addr & PMD_MASK) >> 21, (addr & PT_MASK) >> 12)
  }

  /** get_pd_from_pagenum. */
  function PathOfPage(pgn: bv64): Path {
    PathOf(pgn << 12)
  }

  /** The range check of get_pd_from_address never fails. */
  lemma PathInRange(addr: bv64)
    ensures var p := PathOf(addr); p.pgd < 512 && p.p4d < 512 && p.pud < 512 && p.pmd < 512 && p.pt < 512
  {
  }

  function AddrOf(p: Path, offset: bv64): bv64 {
    (p.pgd << 48) | (p.p4d << 39) | (p.pud << 30) | (p.pmd << 21) | (p.pt << 12) | offset
  }

  /** Below 2^57 the five indices and the page offset determine the address, and only there. */
  lemma PathInverse(addr: bv64)
    ensures AddrOf(PathOf(addr), addr & 0xfff) == addr <==> addr < 0x200_0000_0000_0000
  {
  }

  /** Any five indices in range are those of an address. */
  lemma PathOnto(p: Path, offset: bv64)
    requires p.pgd < 512 && p.p4d < 512 && p.pud < 512 && p.pmd < 512 && p.pt < 512 && offset < 0x1000
    ensures PathOf(AddrOf(p, offset)) == p
  {
  }

  // ---- The page offset ----

  function NBits2(n: bv64): nat { if n & 2 != 0 then 1 else 0 }

  function NBits4(n: bv64): nat { if n & 0xc != 0 then 2 + NBits2(n >> 2) else NBits2(n) }

  function NBits8(n: bv64): nat { if n & 0xf0 != 0 then 4 + NBits4(n >> 4) else NBits4(n) }

  function NBits16(n: bv64): nat { if n & 0xff00 != 0 then 8 + NBits8(n >> 8) else NBits8(n) }

  /** PAGING64_ADDR_OFFST_MASK takes its bits from the 256-byte page constants, so it keeps eight bits of an address. */
  lemma OffsetMask(addr: bv64)
    ensures NBits16(256) == 8
    ensures GenMask64(NBits16(256) - 1, 0) == 0xff
    ensures addr & 0xff == addr % 256
  {
  }

  // ---- Numbers as machine words ----

  predicate Odd(n: nat) {
    n % 2 == 1
  }

  /** One more binary digit at the end. */
  function Join(h: bv64, bit: bool): bv64 {
    if bit then (h << 1) | 1 else h << 1
  }

  predicate LastBit(b: bv64) {
    b & 1 == 1
  }

  /** n as an unsigned 64-bit word in binary, wrapping around. */
  function Word(n: nat): bv64 {
    if n == 0 then 0 else Join(Word(n / 2), Odd(n))
  }

  /** The number a word stands for. */
  function Num(b: bv64): nat
    decreases b
  {
    if b == 0 then 0 else 2 * Num(b >> 1) + if LastBit(b) then 1 else 0
  }

  function Pow(k: nat): (p: nat)
    ensures p > 0
  {
    if k == 0 then 1 else 2 * Pow(k - 1)
  }

  /** m has its k lowest bits set and no others. */
  predicate IsMask(k: nat, m: bv64) {
    if k == 0 then m == 0 else m & 1 == 1 && IsMask(k - 1, m >> 1)
  }

  lemma NumStep(b: bv64)
    ensures Num(b) == 2 * Num(b >> 1) + if LastBit(b) then 1 else 0
  {
  }

  lemma HalfMasked(h: bv64, bit: bool, m: bv64)
    requires m & 1 == 1
    ensures (Join(h, bit) & m) >> 1 == h & (m >> 1) && (LastBit(Join(h, bit) & m) <==> bit)
  {
  }

  lemma HalfAnd(b: bv64, m: bv64)
    ensures (b & m) >> 1 == (b >> 1) & (m >> 1)
  {
  }

  /** The number that the k lowest binary digits of n make. */
  function Low(n: nat, k: nat): nat
    decreases k
  {
    if k == 0 then 0 else 2 * Low(n / 2, k - 1) + if Odd(n) then 1 else 0
  }

  lemma Regroup(n: nat, h: nat, q: nat, p: nat, l: nat, r: nat)
    requires n == 2 * h + r && h == q * p + l
    ensures n == q * (2 * p) + (2 * l + r)
  {
  }

  /** They are what is left of n when multiples of 2^k are taken away. */
  lemma {:induction false} LowIs(n: nat, k: nat) returns (q: nat)
    ensures n == q * Pow(k) + Low(n, k) && Low(n, k) < Pow(k)
    decreases k
  {
    if k == 0 {
      q := n;
    } else {
      q := LowIs(n / 2, k - 1);
      Regroup(n, n / 2, q, Pow(k - 1), Low(n / 2, k - 1), if Odd(n) then 1 else 0);
    }
  }

  lemma WordIs(n: nat, h: bv64) returns (w: bv64)
    requires h == Word(n / 2)
    ensures w == Word(n) && w == Join(h, Odd(n))
  {
    w := Join(h, Odd(n));
  }

  lemma NumJoin(w: bv64, h: bv64, bit: bool, m: bv64, g: bv64) returns (b: bv64)
    requires m & 1 == 1 && w == Join(h, bit) && g == h & (m >> 1)
    ensures b == w & m && Num(b) == 2 * Num(g) + if bit then 1 else 0
  {
    b := w & m;
    HalfMasked(h, bit, m);
    NumStep(b);
  }

  lemma NoDigits(w: bv64, m: bv64) returns (b: bv64)
    requires m == 0
    ensures b == w & m && Num(b) == 0
  {
    b := 0;
  }

  /** The low k bits of a word stand for the k lowest digits of its number. */
  lemma {:induction false} NumMasked(n: nat, k: nat, m: bv64) returns (w: bv64, b: bv64)
    requires IsMask(k, m)
    ensures w == Word(n) && b == w & m && Num(b) == Low(n, k)
    decreases k, 1
  {
    if k == 0 {
      w := Word(n);
      b := NoDigits(w, m);
    } else {
      w, b := NextMasked(n, k, m);
    }
  }

  lemma {:induction false} NextMasked(n: nat, k: nat, m: bv64) returns (w: bv64, b: bv64)
    requires k > 0 && m & 1 == 1 && IsMask(k - 1, m >> 1)
    ensures w == Word(n) && b == w & m && Num(b) == Low(n, k)
    decreases k, 0
  {
    var h, g := NumMasked(n / 2, k - 1, m >> 1);
    w := WordIs(n, h);
    b := NumJoin(w, h, Odd(n), m, g);
  }

  lemma HalfBelow(b: bv64, m: bv64, p: nat)
    requires Num((b >> 1) & (m >> 1)) < p
    ensures Num(b & m) < 2 * p
  {
    HalfAnd(b, m);
    NumStep(b & m);
  }

  /** The low k bits of any word stand for a number below 2^k. */
  lemma {:induction false} NumBelow(b: bv64, k: nat, m: bv64)
    requires IsMask(k, m)
    ensures Num(b & m) < Pow(k)
    decreases k
  {
    if k == 0 {
      var z := NoDigits(b, m);
    } else {
      NumBelow(b >> 1, k - 1, m >> 1);
      HalfBelow(b, m, Pow(k - 1));
    }
  }

  lemma NumDouble(b: bv64, c: bv64)
    requires b < 0x1_0000 && c == b << 1
    ensures Num(c) == 2 * Num(b)
  {
    Doubled(b, c);
    NumStep(c);
  }

  lemma Doubled(b: bv64, c: bv64)
    requires b < 0x1_0000 && c == b << 1
    ensures c >> 1 == b && !LastBit(c)
  {
  }

  /** The frame number of an entry. */
  function Fpn(v: bv64): (f: nat)
  {
    Num(FpnBits(Entry(v)))
  }

  /** The swap offset of an entry. */
  function Swp(v: bv64): nat {
    Num(SwpBits(Entry(v)))
  }

  lemma MaskUp(k: nat, h: bv64, m: bv64)
    requires IsMask(k, h) && m >> 1 == h && m & 1 == 1
    ensures IsMask(k + 1, m)
  {
  }

  lemma Mask8()
    ensures IsMask(8, 0xff) && Pow(8) == 256
  {
    MaskUp(0, 0, 1);
    MaskUp(1, 1, 3);
    MaskUp(2, 3, 7);
    MaskUp(3, 7, 0xf);
    MaskUp(4, 0xf, 0x1f);
    MaskUp(5, 0x1f, 0x3f);
    MaskUp(6, 0x3f, 0x7f);
    MaskUp(7, 0x7f, 0xff);
  }

  lemma Mask9()
    ensures IsMask(9, 0x1ff) && Pow(9) == 512
  {
    Mask8();
    MaskUp(8, 0xff, 0x1ff);
  }

  lemma Mask13()
    ensures IsMask(13, 0x1fff) && Pow(13) == 0x2000
  {
    Mask9();
    MaskUp(9, 0x1ff, 0x3ff);
    MaskUp(10, 0x3ff, 0x7ff);
    MaskUp(11, 0x7ff, 0xfff);
    MaskUp(12, 0xfff, 0x1fff);
  }

  /** The frame field holds no number from 8192 on. */
  lemma FpnSmall(v: bv64)
    ensures Fpn(v) < 0x2000
  {
    Mask13();
    NumBelow(Entry(v), 13, 0x1fff);
    FpnField(v);
  }

  lemma FpnField(v: bv64)
    ensures FpnBits(Entry(v)) == Entry(v) & 0x1fff
  {
  }

  /** What comes back of a frame number is its low 13 bits. */
  lemma FpnLow(v: bv64, fpn: bv64)
    ensures FpnBits(Entry(SetFpn(v, fpn))) == fpn & 0x1fff
  {
  }

  lemma FpnOf(v: bv64, w: bv64, b: bv64)
    requires b == w & 0x1fff
    ensures Fpn(SetFpn(v, w)) == Num(b)
  {
    FpnLow(v, w);
  }

  lemma Remainder256(n: nat, q: nat, l: nat)
    requires n == q * 256 + l && l < 256
    ensures n % 256 == l
  {
  }

  lemma Remainder512(n: nat, q: nat, l: nat)
    requires n == q * 512 + l && l < 512
    ensures n % 512 == l
  {
  }

  lemma Remainder8192(n: nat, q: nat, l: nat)
    requires n == q * 0x2000 + l && l < 0x2000
    ensures n % 0x2000 == l
  {
  }

  /** A frame number read back from an entry is the one written, modulo 8192. */
  lemma SetFpnMod(v: bv64, f: nat) returns (w: bv64)
    ensures w == Word(f) && Fpn(SetFpn(v, w)) == f % 0x2000
  {
    Mask13();
    var b;
    w, b := NumMasked(f, 13, 0x1fff);
    FpnOf(v, w, b);
    var q := LowIs(f, 13);
    Remainder8192(f, q, Low(f, 13));
  }

  lemma SetFpnReads(v: bv64, f: nat) returns (w: bv64)
    requires f < 0x2000
    ensures w == Word(f) && Present(Entry(SetFpn(v, w))) && !Swapped(Entry(SetFpn(v, w))) && Fpn(SetFpn(v, w)) == f
  {
    w := SetFpnMod(v, f);
    FpnMarks(v, w);
  }

  lemma FiveShifts(b: bv64, c: bv64) returns (b1: bv64, b2: bv64, b3: bv64, b4: bv64)
    requires b < 0x100 && c == b << 5
    ensures b1 == b << 1 && b2 == b1 << 1 && b3 == b2 << 1 && b4 == b3 << 1 && c == b4 << 1
    ensures b1 < 0x1_0000 && b2 < 0x1_0000 && b3 < 0x1_0000 && b4 < 0x1_0000
  {
    b1, b2, b3, b4 := b << 1, b << 2, b << 3, b << 4;
  }

  lemma Times32(b: bv64, c: bv64)
    requires b < 0x100 && c == b << 5
    ensures Num(c) == 32 * Num(b)
  {
    var b1, b2, b3, b4 := FiveShifts(b, c);
    NumDouble(b, b1);
    NumDouble(b1, b2);
    NumDouble(b2, b3);
    NumDouble(b3, b4);
    NumDouble(b4, c);
  }

  /** The frame number that the entry of a page in swap frame s spells. */
  lemma SwapSpells(v: bv64, s: nat) returns (w: bv64)
    ensures w == Word(s) && Fpn(SetSwap(v, 0, w)) == 32 * (s % 256)
  {
    Mask8();
    var b;
    w, b := NumMasked(s, 8, 0xff);
    SwapClash(v, w);
    Times32(b, b << 5);
    var q := LowIs(s, 8);
    Remainder256(s, q, Low(s, 8));
  }

  lemma Mask21()
    ensures IsMask(21, 0x1f_ffff) && Pow(21) == 0x20_0000
  {
    Mask13();
    MaskUp(13, 0x1fff, 0x3fff);
    MaskUp(14, 0x3fff, 0x7fff);
    MaskUp(15, 0x7fff, 0xffff);
    MaskUp(16, 0xffff, 0x1_ffff);
    MaskUp(17, 0x1_ffff, 0x3_ffff);
    MaskUp(18, 0x3_ffff, 0x7_ffff);
    MaskUp(19, 0x7_ffff, 0xf_ffff);
    MaskUp(20, 0xf_ffff, 0x1f_ffff);
  }

  lemma OffsetLow(v: bv64, swpoff: bv64)
    ensures SwpBits(Entry(SetVal(v, swpoff, SWPOFF_MASK, 5))) == swpoff & 0x1f_ffff
  {
  }

  lemma SwpOf(v: bv64, w: bv64, b: bv64)
    requires b == w & 0x1f_ffff
    ensures Swp(SetSwap(v, 0, w)) == Num(b)
  {
    OffsetLow(SetVal(SetBit(SetBit(v, PRESENT), SWAPPED), 0, SWPTYP_MASK, 0), w);
  }

  lemma Remainder2M(n: nat, q: nat, l: nat)
    requires n == q * 0x20_0000 + l && l < 0x20_0000
    ensures n % 0x20_0000 == l
  {
  }

  /** A swap offset read back from an entry is the one written, modulo 2^21. */
  lemma SetSwapMod(v: bv64, s: nat) returns (w: bv64)
    ensures w == Word(s) && Swp(SetSwap(v, 0, w)) == s % 0x20_0000
  {
    Mask21();
    var b;
    w, b := NumMasked(s, 21, 0x1f_ffff);
    SwpOf(v, w, b);
    var q := LowIs(s, 21);
    Remainder2M(s, q, Low(s, 21));
  }

  // ---- The rest of an entry ----

  /** Neither setter touches bits 26 to 29 of an entry, and SetFpn leaves bits 13 to 29 alone. */
  lemma OtherBits(v: bv64, x: bv64, y: bv64)
    ensures Entry(SetFpn(v, x)) & 0x3fff_e000 == Entry(v) & 0x3fff_e000
    ensures Entry(SetSwap(v, x, y)) & 0x3c00_0000 == Entry(v) & 0x3c00_0000
  {
  }

  /** The swap type has five bits. */
  lemma SwapType(v: bv64, swptyp: bv64, swpoff: bv64)
    ensures GetVal(Entry(SetSwap(v, swptyp, swpoff)), SWPTYP_MASK, 0) == swptyp & 0x1f
  {
  }

  /** The table index of a page number. */
  function PtIndex(pgn: nat): (i: nat)
    ensures i < 512
  {
    LowBits(Word(pgn));
    Mask9();
    NumBelow(Word(pgn), 9, 0x1ff);
    Num(PathOfPage(Word(pgn)).pt)
  }

  /** The table index of a page number is its low nine bits, whatever the higher ones are. */
  lemma LowBits(w: bv64)
    ensures PathOfPage(w).pt == w & 0x1ff
  {
  }

  /** The only table that is consulted is indexed by the page number modulo 512. */
  lemma PtIndexMod(pgn: nat)
    ensures PtIndex(pgn) == pgn % 512
  {
    Mask9();
    var w, b := NumMasked(pgn, 9, 0x1ff);
    LowBits(w);
    var q := LowIs(pgn, 9);
    Remainder512(pgn, q, Low(pgn, 9));
  }
}
