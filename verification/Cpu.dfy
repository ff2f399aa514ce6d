/** cpu.c and the library calls of libmem.c: a process and the execution of one instruction. */
module Cpus {
  import opened Memory
  import opened Accesses
  import opened Memphys
  import opened LibMem
  import opened Worlds
  import I = Instructions

  /** The part of pcb_t that run works on. */
  class Process {
    const pid: nat
    const code: seq<I.Inst>
    const mm: MmStruct
    const regs: array<bv64>
    var pc: nat

    constructor (pid: nat, code: seq<I.Inst>, mm: MmStruct)
      ensures this.pid == pid && this.code == code && this.mm == mm && pc == 0
      ensures Valid() && fresh(regs)
    {
      this.pid, this.code, this.mm, pc := pid, code, mm, 0;
      regs := new bv64[I.REGISTERS](i => 0);
    }

    predicate Valid() {
      regs.Length == I.REGISTERS
    }

    /** The devices are two, and no array serves two purposes. */
    ghost predicate Uses(ram: Memphy, swp: Memphy) {
      && mm.Apart(ram) && mm.Apart(swp) && swp.storage != ram.storage && swp != ram
      && regs != mm.pt && regs as object != mm.symrgtbl
      && regs as object != ram.storage && regs as object != swp.storage
    }

    /** This process's memory and the devices, as a world of one process. */
    ghost function Around(ram: Memphy, swp: Memphy): World
      reads mm, mm.pt, mm.symrgtbl, ram, ram.storage, swp, swp.storage
    {
      World(map[pid := mm.View()], ram.View(), swp.View())
    }

    /** The status an instruction ends with. */
    ghost function Status(ram: Memphy, swp: Memphy, ins: I.Inst): int
      requires mm.Valid() && Legal(Around(ram, swp), Exec(pid, ins))
      reads mm, mm.pt, mm.symrgtbl, ram, ram.storage, swp, swp.storage
    {
      match ins
      case Calc => 0
      case Alloc(_, _) => 0
      case Free(rgid) => if rgid < 30 && mm.View().sym[rgid] != Region(0, 0) then 0 else -1
      case Read(rgid, offset, _) => if InVariable(mm.View(), rgid, offset) then 0 else -1
      case Write(_, rgid, offset) => if InVariable(mm.View(), rgid, offset) then 0 else -1
    }

    /**
     * The registers an instruction leaves. A read that succeeds without a value delivers `stale`, whatever the
     * uninitialised byte of libread happens to hold.
     */
    ghost function Registers(ram: Memphy, swp: Memphy, ins: I.Inst, stale: bv8): seq<bv64>
      requires Valid() && mm.Valid() && Legal(Around(ram, swp), Exec(pid, ins))
      reads regs, mm, mm.pt, mm.symrgtbl, ram, ram.storage, swp, swp.storage
    {
      if !ins.Read? then regs[..]
      else Delivered(regs[..], ins.dest, Memory.Read(mm.View(), ram.View(), swp.View(), ins.rgid, ins.offset).0, stale)
    }

    /** liballoc. */
    method LibAlloc(size: nat, rgid: nat, ram: Memphy, swp: Memphy) returns (stat: int)
      requires mm.Valid() && Uses(ram, swp) && Legal(Around(ram, swp), Exec(pid, I.Alloc(size, rgid)))
      modifies mm, mm.pt, mm.symrgtbl, ram
      ensures mm.Valid() && Around(ram, swp) == Do(old(Around(ram, swp)), Exec(pid, I.Alloc(size, rgid)))
      ensures stat == 0 == old(Status(ram, swp, I.Alloc(size, rgid)))
    {
      var _ := mm.Alloc(ram, rgid, size);
      stat := 0;
    }

    /** libfree. */
    method LibFree(rgid: nat, ram: Memphy, swp: Memphy) returns (stat: int)
      requires mm.Valid() && Uses(ram, swp) && Legal(Around(ram, swp), Exec(pid, I.Free(rgid)))
      modifies mm, mm.symrgtbl
      ensures mm.Valid() && Around(ram, swp) == Do(old(Around(ram, swp)), Exec(pid, I.Free(rgid)))
      ensures stat == old(Status(ram, swp, I.Free(rgid)))
           == if rgid < 30 && old(mm.symrgtbl[..])[rgid] != Region(0, 0) then 0 else -1
    {
      var ok := mm.Free(rgid);
      stat := if ok then 0 else -1;
    }

    /** libread: the status, and the byte for the destination register. */
    method LibRead(rgid: nat, offset: nat, ram: Memphy, swp: Memphy, stale: bv8) returns (stat: int, data: bv8)
      requires mm.Valid() && Uses(ram, swp) && rgid != SYMBOLS
      modifies mm, mm.pt, ram, swp, swp.storage
      ensures mm.Valid()
      ensures var (r, g) := Memory.Read(old(mm.View()), old(ram.View()), old(swp.View()), rgid, offset);
              && mm.View() == g.mm && ram.View() == g.ram && swp.View() == g.swp
              && stat == (if old(InVariable(mm.View(), rgid, offset)) then 0 else -1)
              && (r == Refused <==> stat == -1)
              && (r.Value? ==> data == r.b) && (r.Unset? ==> data == stale)
    {
      ReadExactly(mm.View(), ram.View(), swp.View(), rgid, offset);
      data := stale;
      var r := mm.Read(rgid, offset, ram, swp);
      if r == Refused {
        return -1, data;
      }
      if r.Value? {
        data := r.b;
      }
      stat := 0;
    }

    /** libwrite. */
    method LibWrite(data: bv8, rgid: nat, offset: nat, ram: Memphy, swp: Memphy) returns (stat: int)
      requires mm.Valid() && Uses(ram, swp) && rgid != SYMBOLS
      modifies mm, mm.pt, ram, ram.storage, swp, swp.storage
      ensures mm.Valid()
      ensures var (r, g) := Memory.Write(old(mm.View()), old(ram.View()), old(swp.View()), rgid, offset, data);
              && mm.View() == g.mm && ram.View() == g.ram && swp.View() == g.swp
              && stat == (if old(InVariable(mm.View(), rgid, offset)) then 0 else -1)
              && (r == WriteRefused <==> stat == -1)
    {
      WriteExactly(mm.View(), ram.View(), swp.View(), rgid, offset, data);
      var r := mm.Write(rgid, offset, data, ram, swp);
      stat := if r == WriteRefused then -1 else 0;
    }

    /** A READ instruction: libread, and the register if it went well. */
    method ReadTo(rgid: nat, offset: nat, dest: nat, ram: Memphy, swp: Memphy, stale: bv8) returns (stat: int)
      requires Valid() && mm.Valid() && Uses(ram, swp) && Legal(Around(ram, swp), Exec(pid, I.Read(rgid, offset, dest)))
      modifies regs, mm, mm.pt, ram, swp, swp.storage
      ensures mm.Valid() && Around(ram, swp) == Do(old(Around(ram, swp)), Exec(pid, I.Read(rgid, offset, dest)))
      ensures stat == old(Status(ram, swp, I.Read(rgid, offset, dest)))
      ensures regs[..] == old(Registers(ram, swp, I.Read(rgid, offset, dest), stale))
    {
      SoloRead(pid, mm.View(), ram.View(), swp.View(), rgid, offset, dest);
      var data;
      stat, data := LibRead(rgid, offset, ram, swp, stale);
      if stat == 0 {
        regs[dest] := data as bv64;
      }
    }

    /** A WRITE instruction. */
    method WriteFrom(data: bv8, rgid: nat, offset: nat, ram: Memphy, swp: Memphy) returns (stat: int)
      requires mm.Valid() && Uses(ram, swp) && Legal(Around(ram, swp), Exec(pid, I.Write(data, rgid, offset)))
      modifies mm, mm.pt, ram, ram.storage, swp, swp.storage
      ensures mm.Valid() && Around(ram, swp) == Do(old(Around(ram, swp)), Exec(pid, I.Write(data, rgid, offset)))
      ensures stat == old(Status(ram, swp, I.Write(data, rgid, offset)))
    {
      SoloWrite(pid, mm.View(), ram.View(), swp.View(), rgid, offset, data);
      stat := LibWrite(data, rgid, offset, ram, swp);
    }

    /** The opcode switch of run. */
    method Execute(ins: I.Inst, ram: Memphy, swp: Memphy, stale: bv8) returns (stat: int)
      requires Valid() && mm.Valid() && Uses(ram, swp) && Legal(Around(ram, swp), Exec(pid, ins))
      modifies regs, mm, mm.pt, mm.symrgtbl, ram, ram.storage, swp, swp.storage
      ensures mm.Valid() && Around(ram, swp) == Do(old(Around(ram, swp)), Exec(pid, ins))
      ensures stat == old(Status(ram, swp, ins)) && regs[..] == old(Registers(ram, swp, ins, stale))
      ensures ins.Calc? ==> stat == 0 && Around(ram, swp) == old(Around(ram, swp))
      ensures !ins.Read? ==> regs[..] == old(regs[..])
    {
      match ins
      case Calc => stat := 0;
      case Alloc(size, rgid) => stat := LibAlloc(size, rgid, ram, swp);
      case Free(rgid) => stat := LibFree(rgid, ram, swp);
      case Read(rgid, offset, dest) => stat := ReadTo(rgid, offset, dest, ram, swp, stale);
      case Write(data, rgid, offset) => stat := WriteFrom(data, rgid, offset, ram, swp);
    }

    /**
     * run: past the end nothing happens and the status is 1; otherwise the instruction at pc is one operation of
     * the memory model.
     */
    method Run(ram: Memphy, swp: Memphy, stale: bv8) returns (stat: int)
      requires Valid() && mm.Valid() && Uses(ram, swp)
      requires pc < |code| ==> Legal(Around(ram, swp), Exec(pid, code[pc]))
      modifies this, regs, mm, mm.pt, mm.symrgtbl, ram, ram.storage, swp, swp.storage
      ensures Valid() && mm.Valid()
      ensures old(pc) >= |code| ==>
                stat == 1 && pc == old(pc) && Around(ram, swp) == old(Around(ram, swp)) && regs[..] == old(regs[..])
      ensures old(pc) < |code| ==>
                && pc == old(pc) + 1
                && Around(ram, swp) == Do(old(Around(ram, swp)), Exec(pid, code[old(pc)]))
                && stat == old(Status(ram, swp, code[pc])) && regs[..] == old(Registers(ram, swp, code[pc], stale))
    {
      if pc >= |code| {
        return 1;
      }
      var ins := code[pc];
      pc := pc + 1;
      stat := Execute(ins, ram, swp, stale);
    }
  }

  /** The registers after a read with this result. */
  function Delivered(regs: seq<bv64>, dest: nat, r: ReadResult, stale: bv8): (s: seq<bv64>)
    requires dest < |regs|
    ensures |s| == |regs| && forall i :: 0 <= i < |regs| && i != dest ==> s[i] == regs[i]
    ensures r.Refused? ==> s[dest] == regs[dest]
    ensures r.Unset? ==> s[dest] == stale as bv64
    ensures r.Value? ==> s[dest] == r.b as bv64
  {
    match r
    case Refused => regs
    case Unset => regs[dest := stale as bv64]
    case Value(b) => regs[dest := b as bv64]
  }

  /** A read in a world of one process; it is refused exactly outside the variable. */
  lemma SoloRead(pid: nat, mm: Mm, ram: Phy, swp: Phy, rgid: nat, offset: nat, dest: nat)
    requires mm.Wf() && rgid != SYMBOLS && dest < I.REGISTERS
    ensures var (r, g) := Read(mm, ram, swp, rgid, offset);
            && Do(World(map[pid := mm], ram, swp), Exec(pid, I.Read(rgid, offset, dest)))
               == World(map[pid := g.mm], g.ram, g.swp)
            && (r == Refused <==> Resolve(mm, rgid, offset).None?)
  {
    assert forall m: Mm :: map[pid := mm][pid := m] == map[pid := m];
  }

  lemma SoloWrite(pid: nat, mm: Mm, ram: Phy, swp: Phy, rgid: nat, offset: nat, b: bv8)
    requires mm.Wf() && rgid != SYMBOLS
    ensures var (r, g) := Write(mm, ram, swp, rgid, offset, b);
            && Do(World(map[pid := mm], ram, swp), Exec(pid, I.Write(b, rgid, offset)))
               == World(map[pid := g.mm], g.ram, g.swp)
            && (r == WriteRefused <==> Resolve(mm, rgid, offset).None?)
  {
    assert forall m: Mm :: map[pid := mm][pid := m] == map[pid := m];
  }
}
