/**
 * Operand handling shared by every emulated VMX instruction: the guest's
 * general-purpose registers, the success/failure flag convention of VMX
 * instructions (Intel SDM Vol. 3C, section 30.2 "Conventions"), the privilege
 * check and the decoding of the instruction's operands.
 */
module VmxInst {
  import opened Wrappers


  /** RFLAGS bits. */
  const CF: bv64 := 0x1
  const PF: bv64 := 0x4
  const AF: bv64 := 0x10
  const ZF: bv64 := 0x40
  const SF: bv64 := 0x80
  const TF: bv64 := 0x100
  const OF: bv64 := 0x800
  const VM: bv64 := 0x2_0000

  /** The six arithmetic flags VMX instructions report their status in. */
  const StatusFlags: bv64 := 0x8d5

  /** CR0.PE and CR4.VMXE. */
  const CR0_PE: bv64 := 0x1
  const CR4_VMXE: bv64 := 0x2000

  /** Number of general-purpose registers of a 64-bit guest, RAX..R15. */
  const NumGprs: nat := 16

  /** Segment-register numbers of the instruction-information field. */
  const SegES: nat := 0
  const SegCS: nat := 1
  const SegGS: nat := 5
  const NumSegs: nat := 6

  /** The three outcomes of a VMX instruction. */
  datatype OpResult = VmSucceed | VmFailValid | VmFailInvalid

  /** The status bits each outcome sets: none, ZF or CF. */
  function StatusBits(res: OpResult): (b: bv64)
    ensures b & !StatusFlags == 0
    ensures res == VmSucceed <==> b == 0
  {
    match res
    case VmSucceed => 0
    case VmFailValid => ZF
    case VmFailInvalid => CF
  }

  /**
   * vmreturn: clear CF, PF, AF, ZF, SF and OF, then set nothing on success,
   * ZF for VMfailValid and CF for VMfailInvalid.
   */
  function VmReturn(eflags: bv64, res: OpResult): (r: bv64)
    ensures r & !StatusFlags == eflags & !StatusFlags
    ensures r & StatusFlags == StatusBits(res)
  {
    (eflags & !StatusFlags) | StatusBits(res)
  }

  /** The outcome a guest reads back from the flags vmreturn leaves. */
  function StatusOf(eflags: bv64): OpResult
  {
    if eflags & CF != 0 then VmFailInvalid
    else if eflags & ZF != 0 then VmFailValid
    else VmSucceed
  }

  /** The flags vmreturn writes encode the outcome unambiguously. */
  lemma VmReturnDecodes(eflags: bv64, res: OpResult)
    ensures StatusOf(VmReturn(eflags, res)) == res
  {
  }

  /** reg_read: a register by its instruction-information number; 0 beyond R15. */
  function RegRead(gpr: seq<bv64>, index: nat): (value: bv64)
    requires |gpr| == NumGprs
    ensures index >= NumGprs ==> value == 0
    ensures index < NumGprs ==> value == gpr[index]
  {
    if index < NumGprs then gpr[index] else 0
  }

  /** The guest's saved registers (struct cpu_user_regs). */
  class UserRegs {
    var gpr: seq<bv64>
    var eflags: bv64

    ghost predicate Valid()
      reads this
    {
      |gpr| == NumGprs
    }

    constructor (gpr: seq<bv64>, eflags: bv64)
      requires |gpr| == NumGprs
      ensures Valid() && this.gpr == gpr && this.eflags == eflags
    {
      this.gpr := gpr;
      this.eflags := eflags;
    }

    /** reg_write: store into a register; a number beyond R15 changes nothing. */
    method RegWrite(index: nat, value: bv64)
      requires Valid()
      modifies this
      ensures Valid() && eflags == old(eflags)
      ensures RegRead(gpr, index) == (if index < NumGprs then value else 0)
      ensures forall k :: 0 <= k < NumGprs && k != index ==> gpr[k] == old(gpr[k])
    {
      if index < NumGprs {
        gpr := gpr[index := value];
      }
    }

    /** vmreturn applied to the saved flags. */
    method VmReturnTo(res: OpResult)
      modifies this
      ensures gpr == old(gpr) && eflags == VmReturn(old(eflags), res)
    {
      eflags := VmReturn(eflags, res);
    }
  }

  /** A segment register as the segment query service reports it. */
  datatype Segment = Segment(sel: bv16, base: bv64, limit: bv32, longMode: bool)

  /** The guest processor mode the privilege check consults. */
  datatype GuestMode = GuestMode(cr0: bv64, cr4: bv64, longModeEnabled: bool, cs: Segment)

  /** The exceptions the interpreter injects. */
  datatype Fault = InvalidOp | GpFault

  /**
   * vmx_inst_check_privilege.  VMXON needs CR0.PE and CR4.VMXE, every other
   * instruction needs a VMXON region; virtual-8086 mode and a 64-bit guest
   * outside a 64-bit code segment raise #UD; only then does CPL > 0 raise #GP.
   */
  function CheckPrivilege(mode: GuestMode, eflags: bv64, vmxonRegionPa: bv64, vmxopCheck: bool): (r: Option<Fault>)
    ensures r == None <==>
      (if vmxopCheck then mode.cr0 & CR0_PE != 0 && mode.cr4 & CR4_VMXE != 0 else vmxonRegionPa != 0) &&
      eflags & VM == 0 && !(mode.longModeEnabled && !mode.cs.longMode) &&
      mode.cs.sel & 3 == 0
    ensures !(if vmxopCheck then mode.cr0 & CR0_PE != 0 && mode.cr4 & CR4_VMXE != 0 else vmxonRegionPa != 0) ==>
      r == Some(InvalidOp)
    ensures eflags & VM != 0 ==> r == Some(InvalidOp)
    ensures mode.longModeEnabled && !mode.cs.longMode ==> r == Some(InvalidOp)
    ensures r == Some(GpFault) <==>
      (if vmxopCheck then mode.cr0 & CR0_PE != 0 && mode.cr4 & CR4_VMXE != 0 else vmxonRegionPa != 0) &&
      eflags & VM == 0 && !(mode.longModeEnabled && !mode.cs.longMode) &&
      mode.cs.sel & 3 != 0
  {
    if (vmxopCheck && (mode.cr0 & CR0_PE == 0 || mode.cr4 & CR4_VMXE == 0)) ||
       (!vmxopCheck && vmxonRegionPa == 0) then
      Some(InvalidOp)
    else if eflags & VM != 0 || (mode.longModeEnabled && !mode.cs.longMode) then
      Some(InvalidOp)
    else if mode.cs.sel & 3 > 0 then
      Some(GpFault)
    else
      None
  }

  /**
   * The instruction-information field of the VM exit, as the named fields
   * the architecture defines for VMX instructions.
   */
  datatype InstInfo = InstInfo(
    scaling: nat,
    reg1: nat,
    addrSize: nat,
    isRegister: bool,
    segment: nat,
    indexReg: nat,
    indexInvalid: bool,
    baseReg: nat,
    baseInvalid: bool,
    reg2: nat)

  /** Field ranges the processor reports: 2, 4, 3, 4 and 4 bits, address size 16, 32 or 64. */
  predicate WellFormed(info: InstInfo)
  {
    info.scaling < 4 && info.reg1 < NumGprs && info.addrSize <= 2 && info.segment < 8 &&
    info.indexReg < NumGprs && info.baseReg < NumGprs && info.reg2 < NumGprs
  }

  /** Everything decode consults beyond the registers and nested state. */
  datatype Trap = Trap(
    mode: GuestMode,
    info: InstInfo,
    qualification: bv64,
    segs: seq<Segment>,
    load: Option<bv64>,
    storeOk: bool)

  predicate TrapOk(t: Trap)
  {
    WellFormed(t.info) && |t.segs| == NumSegs
  }

  /** Where the first operand lives. */
  datatype Operand = RegOperand(reg1: nat) | MemOperand(addr: bv64, len: bv64)

  datatype Decoded = Decoded(op: Operand, reg2: nat)

  datatype DecodeResult =
    | DecodeOk(inst: Decoded, operand: bv64)
    | DecodeFault(fault: Fault)
    | CopyFault

  /** The operand size in bytes, 1 << (address size + 1). */
  function OperandSize(info: InstInfo): (size: bv64)
    requires info.addrSize <= 2
    ensures size == 2 || size == 4 || size == 8
  {
    if info.addrSize == 0 then 2 else if info.addrSize == 1 then 4 else 8
  }

  /** The low `size` bytes of a 64-bit value. */
  function ByteMask(size: bv64): bv64
  {
    if size == 2 then 0xffff else if size == 4 then 0xffff_ffff else 0xffff_ffff_ffff_ffff
  }

  /** index * (1 << scaling), wrapping at 64 bits. */
  function Scaled(index: bv64, scaling: nat): bv64
    requires scaling < 4
  {
    if scaling == 0 then index
    else if scaling == 1 then index << 1
    else if scaling == 2 then index << 2
    else index << 3
  }

  /**
   * A copy of `size` bytes from guest memory over a 64-bit variable: the low
   * `size` bytes come from memory, the rest keep their old value.
   */
  function Merge(init: bv64, loaded: bv64, size: bv64): (r: bv64)
    ensures r & ByteMask(size) == loaded & ByteMask(size)
    ensures r & !ByteMask(size) == init & !ByteMask(size)
  {
    (init & !ByteMask(size)) | (loaded & ByteMask(size))
  }

  /** base + index * (1 << scaling) + displacement, wrapping at 64 bits. */
  function EffectiveOffset(gpr: seq<bv64>, info: InstInfo, disp: bv64): bv64
    requires |gpr| == NumGprs && info.scaling < 4
  {
    var base := if info.baseInvalid then 0 else RegRead(gpr, info.baseReg);
    var index := if info.indexInvalid then 0 else RegRead(gpr, info.indexReg);
    base + Scaled(index, info.scaling) + disp
  }

  /** Segment base plus effective offset. */
  function LinearAddress(gpr: seq<bv64>, t: Trap): bv64
    requires |gpr| == NumGprs && TrapOk(t) && t.info.segment < NumSegs
  {
    t.segs[t.info.segment].base + EffectiveOffset(gpr, t.info, t.qualification)
  }

  /** The segment-limit check; waived in long mode except for GS. */
  predicate WithinLimit(offset: bv64, size: bv64, seg: Segment, longMode: bool, segment: nat)
  {
    !(offset > seg.limit as bv64 || offset + size > seg.limit as bv64) ||
    (longMode && segment != SegGS)
  }

  /**
   * The memory-operand half of decode_vmx_inst: segment number, limit check,
   * then the read of `size` bytes into the low bytes of `init`.
   */
  function DecodeMemory(gpr: seq<bv64>, t: Trap, wantOperand: bool, init: bv64): (r: DecodeResult)
    requires |gpr| == NumGprs && TrapOk(t)
    ensures r.DecodeOk? ==>
      t.info.segment < NumSegs &&
      WithinLimit(EffectiveOffset(gpr, t.info, t.qualification), OperandSize(t.info),
                  t.segs[t.info.segment], t.mode.longModeEnabled, t.info.segment) &&
      r.inst == Decoded(MemOperand(LinearAddress(gpr, t), OperandSize(t.info)), t.info.reg2)
    ensures r.DecodeOk? && !wantOperand ==> r.operand == init
    ensures r.DecodeOk? && wantOperand ==>
      t.load.Some? && r.operand == Merge(init, t.load.value, OperandSize(t.info))
    ensures (t.info.segment < NumSegs &&
             WithinLimit(EffectiveOffset(gpr, t.info, t.qualification), OperandSize(t.info),
                         t.segs[t.info.segment], t.mode.longModeEnabled, t.info.segment) &&
             (wantOperand ==> t.load.Some?)) ==> r.DecodeOk?
    ensures r.DecodeFault? ==> r.fault == GpFault
    ensures r.CopyFault? <==>
      wantOperand && t.load.None? && t.info.segment < NumSegs &&
      WithinLimit(EffectiveOffset(gpr, t.info, t.qualification), OperandSize(t.info),
                  t.segs[t.info.segment], t.mode.longModeEnabled, t.info.segment)
  {
    if t.info.segment > 5 then DecodeFault(GpFault)
    else
      var seg := t.segs[t.info.segment];
      var size := OperandSize(t.info);
      var offset := EffectiveOffset(gpr, t.info, t.qualification);
      if !WithinLimit(offset, size, seg, t.mode.longModeEnabled, t.info.segment) then
        DecodeFault(GpFault)
      else if wantOperand && t.load.None? then CopyFault
      else
        var operand := if wantOperand then Merge(init, t.load.value, size) else init;
        DecodeOk(Decoded(MemOperand(LinearAddress(gpr, t), size), t.info.reg2), operand)
  }

  /**
   * decode_vmx_inst.  `init` is what the operand variable held before the
   * call; a memory read of `size` bytes replaces only its low bytes.
   */
  function Decode(gpr: seq<bv64>, eflags: bv64, vmxonRegionPa: bv64, vmxopCheck: bool,
                  t: Trap, wantOperand: bool, init: bv64): (r: DecodeResult)
    requires |gpr| == NumGprs && TrapOk(t)
    ensures CheckPrivilege(t.mode, eflags, vmxonRegionPa, vmxopCheck).Some? ==>
      r == DecodeFault(CheckPrivilege(t.mode, eflags, vmxonRegionPa, vmxopCheck).value)
    ensures r.DecodeOk? ==> CheckPrivilege(t.mode, eflags, vmxonRegionPa, vmxopCheck) == None
    ensures r.DecodeOk? ==> r.inst.reg2 == t.info.reg2
    ensures r.DecodeOk? && !wantOperand ==> r.operand == init
    ensures r.DecodeOk? && t.info.isRegister ==>
      r.inst.op == RegOperand(t.info.reg1) &&
      (wantOperand ==> r.operand == RegRead(gpr, t.info.reg1))
    ensures CheckPrivilege(t.mode, eflags, vmxonRegionPa, vmxopCheck) == None && !t.info.isRegister ==>
      r == DecodeMemory(gpr, t, wantOperand, init)
  {
    var priv := CheckPrivilege(t.mode, eflags, vmxonRegionPa, vmxopCheck);
    if priv.Some? then DecodeFault(priv.value)
    else if t.info.isRegister then
      var operand := if wantOperand then RegRead(gpr, t.info.reg1) else init;
      DecodeOk(Decoded(RegOperand(t.info.reg1), t.info.reg2), operand)
    else DecodeMemory(gpr, t, wantOperand, init)
  }

  /** A register operand never faults once the privilege check passes. */
  lemma RegisterOperandDecodes(gpr: seq<bv64>, eflags: bv64, vmxonRegionPa: bv64, vmxopCheck: bool,
                               t: Trap, wantOperand: bool, init: bv64)
    requires |gpr| == NumGprs && TrapOk(t) && t.info.isRegister
    requires CheckPrivilege(t.mode, eflags, vmxonRegionPa, vmxopCheck) == None
    ensures Decode(gpr, eflags, vmxonRegionPa, vmxopCheck, t, wantOperand, init).DecodeOk?
  {
  }
}
