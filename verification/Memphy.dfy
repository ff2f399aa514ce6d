/** mm-memphy.c: a device of bytes with a list of free frames. */
module Memphys {
  import opened Common
  import opened Memory

  class Memphy {
    var free: seq<nat>
    const storage: array<bv8>

    ghost function View(): Phy
      reads this, storage
    {
      Phy(free, storage[..])
    }

    /** init_memphy: zeroed storage, formatted. */
    constructor (size: nat)
      ensures View() == NewPhy(size) && fresh(storage)
    {
      storage := new bv8[size](i => 0);
      free := [];
      new;
      Format();
      assert storage[..] == NewPhy(size).bytes;
    }

    /** MEMPHY_format: the frames in ascending order. */
    method Format()
      requires free == []
      modifies this
      ensures free == seq(storage.Length / PAGE, i => i)
    {
      var numfp := storage.Length / PAGE;
      if numfp == 0 {
        return;
      }
      free := [0];
      for iter := 1 to numfp
        invariant free == seq(iter, i => i)
      {
        free := free + [iter];
      }
    }

    /** MEMPHY_get_freefp. */
    method GetFreefp() returns (fpn: Option<nat>)
      modifies this
      ensures old(free) == [] ==> fpn == None && free == []
      ensures old(free) != [] ==> fpn == Some(old(free)[0]) && free == old(free)[1..]
    {
      if free == [] {
        return None;
      }
      fpn := Some(free[0]);
      free := free[1..];
    }

    /** MEMPHY_put_freefp. */
    method PutFreefp(fpn: nat)
      modifies this
      ensures free == [fpn] + old(free)
    {
      free := [fpn] + free;
    }

    /** MEMPHY_read on a random-access device; None is the error return. */
    method ReadByte(addr: nat) returns (value: Option<bv8>)
      ensures value == if addr < storage.Length then Some(storage[addr]) else None
    {
      if addr >= storage.Length {
        return None;
      }
      value := Some(storage[addr]);
    }

    /** MEMPHY_write on a random-access device. */
    method WriteByte(addr: nat, data: bv8) returns (ok: bool)
      modifies storage
      ensures ok <==> addr < storage.Length
      ensures storage[..] == if ok then old(storage[..])[addr := data] else old(storage[..])
    {
      if addr >= storage.Length {
        return false;
      }
      storage[addr] := data;
      ok := true;
    }

    /** __swap_cp_page: 256 bytes, from the other device's frame to this one's. */
    method SwapCpPage(src: Memphy, srcfpn: nat, dstfpn: nat)
      requires src.storage != storage
      modifies storage
      ensures storage[..] == SwapCopy(src.storage[..], srcfpn, old(storage[..]), dstfpn, 0)
    {
      var cellidx := 0;
      while cellidx < CELLS
        invariant cellidx <= CELLS
        invariant SwapCopy(src.storage[..], srcfpn, storage[..], dstfpn, cellidx)
               == SwapCopy(src.storage[..], srcfpn, old(storage[..]), dstfpn, 0)
      {
        var data := src.ReadByte(srcfpn * CELLS + cellidx);
        if data.Some? {
          var _ := WriteByte(dstfpn * CELLS + cellidx, data.value);
        }
        cellidx := cellidx + 1;
      }
    }
  }
}
