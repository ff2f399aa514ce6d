/** What __read, __write and __free let through and where accesses go, in terms of the symbol table and the masks. */
module Accesses {
  import opened Common
  import opened Ptes
  import opened Memory
  import opened Regions

  /** The variable has such a byte: it is one of the 30, and the offset stays before its end. */
  predicate InVariable(mm: Mm, rgid: int, offset: nat)
    requires mm.Wf()
  {
    0 <= rgid < 30 && mm.sym[rgid].start + offset < mm.sym[rgid].end
  }

  /** Its address. */
  function AddressIn(mm: Mm, rgid: int, offset: nat): nat
    requires mm.Wf() && InVariable(mm, rgid, offset)
  {
    mm.sym[rgid].start + offset
  }

  // ---- Addresses ----

  /** PAGING64_ADDR_OFFST_MASK. */
  function OffsetMaskBits(): bv64 {
    GenMask64(NBits16(256) - 1, 0)
  }

  /** What the offset mask keeps of an address. */
  function Kept(a: nat): bv64 {
    Word(a) & OffsetMaskBits()
  }

  lemma KeptIs(a: nat)
    ensures Num(Kept(a)) == a % 256
  {
    OffsetMask(0);
    Mask8();
    var w, b := NumMasked(a, 8, 0xff);
    var q := LowIs(a, 8);
    Remainder256(a, q, Low(a, 8));
  }

  lemma JoinMasked(w: bv64, h: bv64, bit: bool, m: bv64, g: bv64) returns (b: bv64)
    requires m & 1 == 1 && w == Join(h, bit) && g == h & (m >> 1)
    ensures b == w & m && b == Join(g, bit)
  {
    b := w & m;
  }

  lemma WordJoin(l: nat, n: nat, g: bv64, b: bv64)
    requires g == Word(l) && b == Join(g, Odd(n))
    ensures b == Word(2 * l + if Odd(n) then 1 else 0)
  {
    if l == 0 && !Odd(n) {
    } else {
      assert (2 * l + if Odd(n) then 1 else 0) / 2 == l;
    }
  }

  /** The k lowest bits of a number's word are the word of its k lowest digits. */
  lemma {:induction false} MaskedWord(n: nat, k: nat, m: bv64) returns (w: bv64, b: bv64)
    requires IsMask(k, m)
    ensures w == Word(n) && b == w & m && b == Word(Low(n, k))
    decreases k, 1
  {
    if k == 0 {
      w := Word(n);
      b := NoDigits(w, m);
    } else {
      w, b := NextMaskedWord(n, k, m);
    }
  }

  lemma {:induction false} NextMaskedWord(n: nat, k: nat, m: bv64) returns (w: bv64, b: bv64)
    requires k > 0 && m & 1 == 1 && IsMask(k - 1, m >> 1)
    ensures w == Word(n) && b == w & m && b == Word(Low(n, k))
    decreases k, 0
  {
    var h, g := MaskedWord(n / 2, k - 1, m >> 1);
    w := WordIs(n, h);
    b := JoinMasked(w, h, Odd(n), m, g);
    WordJoin(Low(n / 2, k - 1), n, g, b);
  }

  /** The mask keeps the same of two addresses exactly when they agree modulo 256. */
  lemma KeptExactly(a: nat, b: nat)
    ensures Kept(a) == Kept(b) <==> a % 256 == b % 256
  {
    KeptIs(a);
    KeptIs(b);
    OffsetMask(0);
    Mask8();
    if a % 256 == b % 256 {
      var q := LowIs(a, 8);
      var r := LowIs(b, 8);
      Remainder256(a, q, Low(a, 8));
      Remainder256(b, r, Low(b, 8));
      var v, x := MaskedWord(a, 8, 0xff);
      var w, y := MaskedWord(b, 8, 0xff);
    }
  }

  /** get_phyaddr on the offset that the mask leaves. */
  lemma PhysicalExactly(f: nat, a: nat)
    ensures Physical(f, a) == f * 4096 + Num(Word(a) & GenMask64(NBits16(256) - 1, 0))
  {
    KeptIs(a);
  }

  /** The addresses of bytes of two variables differ, and so do those of two bytes of one. */
  lemma AddressesDiffer(mm: Mm, i: int, o: nat, j: int, u: nat)
    requires mm.Wf() && Separate(mm) && InVariable(mm, i, o) && InVariable(mm, j, u) && (i != j || o != u)
    ensures AddressIn(mm, i, o) != AddressIn(mm, j, u)
  {
    if i != j && AddressIn(mm, i, o) == AddressIn(mm, j, u) {
      var all := mm.sym + mm.free;
      var x, y := if i < j then i else j, if i < j then j else i;
      var a := AddressIn(mm, i, o);
      assert all[x] == mm.sym[x] && all[y] == mm.sym[y];
      assert In(all[x], a) == 1 && In(all[y], a) == 1;
      assert Shares(all[x], all[y]);
    }
  }

  // ---- Reading, writing, freeing ----

  /** What a fetched page gives at an address. */
  function ByteAt(g: Fetched, a: nat): ReadResult {
    if g.frame.None? || g.frame.value * 4096 + a % 256 >= |g.ram.bytes| then Unset
    else Value(g.ram.bytes[g.frame.value * 4096 + a % 256])
  }

  lemma ReadAt(mm: Mm, ram: Phy, swp: Phy, rgid: int, offset: nat, g: Fetched)
    requires mm.Wf() && InVariable(mm, rgid, offset)
    requires g == GetPage(mm, ram, swp, AddressIn(mm, rgid, offset) / 4096)
    ensures Read(mm, ram, swp, rgid, offset) == (ByteAt(g, AddressIn(mm, rgid, offset)), g)
  {
  }

  /**
   * __read refuses exactly what is not a byte of the variable, and then nothing changes; anything else goes to the
   * page of the byte's own address, and gives what is there.
   */
  lemma ReadExactly(mm: Mm, ram: Phy, swp: Phy, rgid: int, offset: nat)
    requires mm.Wf() && rgid != 30
    ensures InVariable(mm, rgid, offset) ==>
              var a := AddressIn(mm, rgid, offset);
              var g := GetPage(mm, ram, swp, a / 4096);
              Read(mm, ram, swp, rgid, offset) == (ByteAt(g, a), g)
    ensures !InVariable(mm, rgid, offset) ==>
              Read(mm, ram, swp, rgid, offset) == (Refused, Fetched(None, mm, ram, swp))
  {
    if InVariable(mm, rgid, offset) {
      ReadAt(mm, ram, swp, rgid, offset, GetPage(mm, ram, swp, AddressIn(mm, rgid, offset) / 4096));
    }
  }

  /** What a fetched page is after a byte has been stored at an address of it. */
  function StoredAt(g: Fetched, a: nat, b: bv8): Fetched {
    if g.frame.None? || g.frame.value * 4096 + a % 256 >= |g.ram.bytes| then g
    else g.(ram := g.ram.(bytes := g.ram.bytes[g.frame.value * 4096 + a % 256 := b]))
  }

  lemma WriteAt(mm: Mm, ram: Phy, swp: Phy, rgid: int, offset: nat, b: bv8, g: Fetched)
    requires mm.Wf() && InVariable(mm, rgid, offset)
    requires g == GetPage(mm, ram, swp, AddressIn(mm, rgid, offset) / 4096)
    ensures Write(mm, ram, swp, rgid, offset, b)
         == (if ByteAt(g, AddressIn(mm, rgid, offset)) == Unset then Dropped else Done,
             StoredAt(g, AddressIn(mm, rgid, offset), b))
  {
  }

  /** __write does the same; a byte that has no place is dropped. */
  lemma WriteExactly(mm: Mm, ram: Phy, swp: Phy, rgid: int, offset: nat, b: bv8)
    requires mm.Wf() && rgid != 30
    ensures InVariable(mm, rgid, offset) ==>
              var a := AddressIn(mm, rgid, offset);
              var g := GetPage(mm, ram, swp, a / 4096);
              Write(mm, ram, swp, rgid, offset, b)
                == (if ByteAt(g, a) == Unset then Dropped else Done, StoredAt(g, a, b))
    ensures !InVariable(mm, rgid, offset) ==>
              Write(mm, ram, swp, rgid, offset, b) == (WriteRefused, Fetched(None, mm, ram, swp))
  {
    if InVariable(mm, rgid, offset) {
      WriteAt(mm, ram, swp, rgid, offset, b, GetPage(mm, ram, swp, AddressIn(mm, rgid, offset) / 4096));
    }
  }

  /**
   * __free refuses exactly what is not allocated, or only as nothing at address 0; a second free of a variable is
   * refused, and so is every access to it.
   */
  lemma FreeExactly(mm: Mm, rgid: int)
    requires mm.Wf() && rgid != 30
    ensures var (ok, m) := Free(mm, rgid);
            && (ok <==> 0 <= rgid < 30 && mm.sym[rgid] != Region(0, 0))
            && (!ok ==> m == mm)
            && (ok ==>
                  && m.free == (if mm.sym[rgid].start < mm.sym[rgid].end then [mm.sym[rgid]] else []) + mm.free
                  && m == mm.(sym := m.sym, free := m.free)
                  && Free(m, rgid) == (false, m)
                  && (forall offset: nat :: !InVariable(m, rgid, offset))
                  && (forall i :: 0 <= i < 30 && i != rgid ==> m.sym[i] == mm.sym[i]))
  {
  }

  /** A process that has just been loaded has no variable: it frees, reads and writes nothing. */
  lemma NothingAtFirst(ram: Phy, swp: Phy, rgid: int, offset: nat, b: bv8)
    requires rgid != 30
    ensures Free(NewMm(), rgid) == (false, NewMm())
    ensures Read(NewMm(), ram, swp, rgid, offset).0 == Refused
    ensures Write(NewMm(), ram, swp, rgid, offset, b).0 == WriteRefused
  {
  }
}
