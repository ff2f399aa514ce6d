/** The instructions of a simulated program (common.h), the user-issued SYSCALL apart. */
module Instructions {
  const REGISTERS := 10

  datatype Inst =
    | Calc
    | Alloc(size: nat, rgid: nat)
    | Free(rgid: nat)
    | Read(rgid: nat, offset: nat, dest: nat)
    | Write(data: bv8, rgid: nat, offset: nat)
}
