/**
 * The nested-VMX instruction interpreter: the state an L1 hypervisor sees
 * through its VMX instructions (VMXON region, current virtual VMCS, its
 * mapped I/O bitmaps, a pending VM entry) and the handlers of VMXON,
 * VMXOFF, VMPTRLD, VMPTRST, VMCLEAR, VMREAD, VMWRITE, VMLAUNCH and
 * VMRESUME, together with the updates of the shadow VMCS controls.
 *
 * Guest memory is an oracle: `pages` maps a guest frame number to the page
 * a read-write mapping of it yields (a 512-slot array), `roPages` maps a
 * guest frame number to the contents a read-only mapping yields; a frame
 * missing from `roPages` is a failed mapping (NULL).  Stores to guest
 * memory are returned as `GuestStore` records.
 */
module NestedVmx {
  import opened Wrappers
  import opened VvmcsCodec
  import opened VmxInst
  import opened ShadowControl
  import Vmcs

  /** The "no current VMCS" address. */
  const VmcxEaddr: bv64 := 0xffff_ffff_ffff_ffff

  /**
   * The virtual-VMCS field holding the launch state.  Its encoding comes
   * from a header that is not part of this model; 0x6a00 stands for it.
   */
  const LaunchState: bv32 := 0x6a00

  /** X86EMUL_OKAY and X86EMUL_EXCEPTION. */
  datatype EmulRc = EmulOkay | EmulException

  /** A store of the `len` low bytes of `value` to guest linear address `addr`. */
  datatype GuestStore = GuestStore(addr: bv64, len: bv64, value: bv64)

  /** The guest frame number of a guest-physical address, gpa >> PAGE_SHIFT. */
  function FrameOf(gpa: bv64): nat
  {
    gpa as nat / 4096
  }

  /** A VMCS pointer must be 4-KByte aligned. */
  predicate Misaligned(gpa: bv64)
  {
    gpa & 0xfff != 0
  }

  /** The launch state as the handlers read it: the field's low 32 bits, as an int. */
  function Launched(vvmcs: seq<bv64>): bool
    requires |vvmcs| == VvmcsSlots
  {
    Lo32(GetVvmcs(vvmcs, LaunchState)) != 0
  }

  /** The encodings after whose VMWRITE the I/O bitmap A or B is mapped again. */
  predicate NamesBitmapA(enc: bv64)
  {
    enc == IoBitmapA as bv64 || enc == IoBitmapAHigh as bv64
  }

  predicate NamesBitmapB(enc: bv64)
  {
    enc == IoBitmapB as bv64 || enc == IoBitmapBHigh as bv64
  }

  /** __shadow_control: the value set_shadow_control writes for `field`, widened to a VMCS field value. */
  function ShadowControlValue(vvmcs: seq<bv64>, field: bv32, host: bv64): bv64
    requires |vvmcs| == VvmcsSlots
  {
    MergeControl(GetVvmcs(vvmcs, field), Lo32(host)) as bv64
  }

  /** The page the shadow VMCS's I/O bitmap fields point at, by machine address. */
  datatype IoBitmapPages = IoBitmapPages(host: bv64, shared: (bool, bool) -> bv64)

  /** The machine address of bitmap A for a choice; bitmap B is the next page. */
  function BitmapAddress(pages: IoBitmapPages, c: IoBitmapChoice): bv64
  {
    match c
    case HostIoBitmap => pages.host
    case SharedIoBitmap(port80, portED) => pages.shared(port80, portED)
  }

  /**
   * The machine address nvmx_update_exec_control writes to IO_BITMAP_A, or
   * None when L1 intercepts all I/O and the bitmap fields are left alone.
   */
  function ShadowBitmapAddress(nested: bv32, bitmapA: Option<seq<bv8>>, pages: IoBitmapPages): Option<bv64>
    requires NeedsL1Bitmap(nested) ==> bitmapA.Some? && |bitmapA.value| == PageSize
  {
    match IoBitmapFor(nested, bitmapA)
    case None => None
    case Some(c) => Some(BitmapAddress(pages, c))
  }

  /** The machine address of the page after `a` (IO_BITMAP_B follows IO_BITMAP_A). */
  function NextPage(a: bv64): bv64
  {
    a + 4096
  }

  /** The merged primary controls as the VMCS field value. */
  function ExecControlValue(nested: bv32, host: bv32): bv64
  {
    ExecControlFor(nested, host) as bv64
  }

  /**
   * The shadow VMCS fields after nvmx_update_exec_control, given the
   * current ones: the I/O bitmap pair unless L1 intercepts all I/O, then
   * the merged primary controls.
   */
  function ExecControlFields(fields: map<nat, bv64>, nested: bv32, host: bv32,
                             bitmapA: Option<seq<bv8>>, pages: IoBitmapPages): map<nat, bv64>
    requires NeedsL1Bitmap(nested) ==> bitmapA.Some? && |bitmapA.value| == PageSize
  {
    var withBitmaps :=
      match ShadowBitmapAddress(nested, bitmapA, pages)
      case None => fields
      case Some(a) => fields[IoBitmapA as nat := a][IoBitmapB as nat := NextPage(a)];
    withBitmaps[ExecControl as nat := ExecControlValue(nested, host)]
  }

  /**
   * What nvmx_update_exec_control leaves in the shadow VMCS: the merged
   * controls; no bitmap field written when L1 intercepts all I/O; otherwise
   * L0's own bitmap pair when L1 intercepts no I/O and the shared pair chosen
   * from L1's bitmap A when it uses I/O bitmaps.
   */
  lemma ExecControlFieldsWrites(fields: map<nat, bv64>, nested: bv32, host: bv32,
                                bitmapA: Option<seq<bv8>>, pages: IoBitmapPages)
    requires NeedsL1Bitmap(nested) ==> bitmapA.Some? && |bitmapA.value| == PageSize
    ensures var r := ExecControlFields(fields, nested, host, bitmapA, pages);
      r[ExecControl as nat] == ExecControlFor(nested, host) as bv64 &&
      (PioControl(nested) == UncondIoExiting ==>
         r == fields[ExecControl as nat := ExecControlFor(nested, host) as bv64]) &&
      (PioControl(nested) == 0 ==>
         r[IoBitmapA as nat] == pages.host && r[IoBitmapB as nat] == NextPage(pages.host)) &&
      (NeedsL1Bitmap(nested) ==>
         var a := BitmapAddress(pages, ShadowIoBitmap(bitmapA.value));
         r[IoBitmapA as nat] == a && r[IoBitmapB as nat] == NextPage(a))
  {
  }

  /** The nested-VMX state of one vCPU (struct nestedvmx with struct nestedvcpu). */
  class NestedVcpu {
    /** The vCPU's own VMX state (its physical VMCS and launch flag). */
    const arch: Vmcs.ArchVmx
    var vmxonRegionPa: bv64
    /** The mapped virtual VMCS page; never reset by a purge. */
    var vvmcx: array?<bv64>
    var vvmcxAddr: bv64
    var n1vmcx: Vmcs.VmcsRegion?
    /** Whether the shadow VMCS page is allocated. */
    var n2vmcx: bool
    /** The mapped I/O bitmaps A and B; None is NULL. */
    var iobitmap: seq<Option<seq<bv8>>>
    var vmentryPending: bool
    var intrInfo: bv32
    var intrErrorCode: bv32

    /** A vCPU in no VMX operation: no VMXON region, no current VMCS, nothing mapped. */
    constructor (arch: Vmcs.ArchVmx)
      ensures this.arch == arch && Valid()
      ensures vmxonRegionPa == 0 && vvmcx == null && vvmcxAddr == VmcxEaddr && n1vmcx == null && !n2vmcx
      ensures iobitmap == [None, None] && !vmentryPending && intrInfo == 0 && intrErrorCode == 0
    {
      this.arch := arch;
      vmxonRegionPa := 0;
      vvmcx := null;
      vvmcxAddr := VmcxEaddr;
      n1vmcx := null;
      n2vmcx := false;
      iobitmap := [None, None];
      vmentryPending := false;
      intrInfo := 0;
      intrErrorCode := 0;
    }

    /**
     * The virtual VMCS is one page of slots and is mapped whenever an address
     * is current; each mapped I/O bitmap is one page.
     */
    ghost predicate Valid()
      reads this
    {
      |iobitmap| == 2 &&
      (vvmcx != null ==> vvmcx.Length == VvmcsSlots) &&
      (vvmcxAddr != VmcxEaddr ==> vvmcx != null) &&
      (forall i :: 0 <= i < 2 && iobitmap[i].Some? ==> |iobitmap[i].value| == PageSize)
    }

    /**
     * The state the VMX instruction handlers other than VMXON leave alone:
     * the L1 VMCS, the shadow VMCS page and the interrupt to be injected.
     */
    ghost function Untouched(): (Vmcs.VmcsRegion?, bool, bv32, bv32)
      reads this
    {
      (n1vmcx, n2vmcx, intrInfo, intrErrorCode)
    }

    /** What a guest-memory oracle must provide: read-only pages of one page each. */
    static ghost predicate PagesOk(roPages: map<nat, seq<bv8>>)
    {
      forall f :: f in roPages ==> |roPages[f]| == PageSize
    }

    /** The read-write mapping oracle yields virtual-VMCS sized pages. */
    static ghost predicate RwPagesOk(pages: map<nat, array<bv64>>)
    {
      forall f :: f in pages ==> pages[f].Length == VvmcsSlots
    }

    /** The result of hvm_map_guest_frame_ro. */
    static function MapRo(roPages: map<nat, seq<bv8>>, gpa: bv64): Option<seq<bv8>>
    {
      if FrameOf(gpa) in roPages then Some(roPages[FrameOf(gpa)]) else None
    }

    /**
     * nvmx_vcpu_initialise: the shadow page pointer takes the allocation's
     * result, so a failed allocation leaves no shadow page and -ENOMEM, with
     * the rest of the state as it was.
     */
    method Initialise(allocOk: bool) returns (rc: int)
      modifies this
      ensures !allocOk ==>
        rc == Vmcs.ENOMEM && !n2vmcx && vmxonRegionPa == old(vmxonRegionPa) && vvmcx == old(vvmcx) &&
        vvmcxAddr == old(vvmcxAddr) && n1vmcx == old(n1vmcx) && iobitmap == old(iobitmap) &&
        vmentryPending == old(vmentryPending) && intrInfo == old(intrInfo) && intrErrorCode == old(intrErrorCode)
      ensures allocOk ==>
        rc == 0 && Valid() && n2vmcx && vmxonRegionPa == 0 && vvmcx == null &&
        vvmcxAddr == VmcxEaddr && intrInfo == 0 && intrErrorCode == 0 && iobitmap == [None, None] &&
        n1vmcx == old(n1vmcx) && vmentryPending == old(vmentryPending)
    {
      n2vmcx := allocOk;
      if !allocOk {
        return Vmcs.ENOMEM;
      }
      vmxonRegionPa := 0;
      vvmcx := null;
      vvmcxAddr := VmcxEaddr;
      intrInfo := 0;
      intrErrorCode := 0;
      iobitmap := [None, None];
      rc := 0;
    }

    /**
     * nvmx_purge_vvmcs: no VMCS is current and no I/O bitmap is mapped
     * afterwards.  The pointer to the virtual VMCS page is kept: the source
     * compares it with NULL where it means to assign it.
     */
    method Purge()
      requires Valid()
      modifies this
      ensures Valid() && vvmcxAddr == VmcxEaddr && iobitmap == [None, None]
      ensures vvmcx == old(vvmcx) && vmxonRegionPa == old(vmxonRegionPa) && n1vmcx == old(n1vmcx)
      ensures n2vmcx == old(n2vmcx) && vmentryPending == old(vmentryPending)
      ensures intrInfo == old(intrInfo) && intrErrorCode == old(intrErrorCode)
    {
      vvmcxAddr := VmcxEaddr;
      for i := 0 to 2
        invariant |iobitmap| == 2 && vvmcxAddr == VmcxEaddr
        invariant forall k :: 0 <= k < i ==> iobitmap[k] == None
        invariant forall k :: i <= k < 2 ==> iobitmap[k] == old(iobitmap[k])
        invariant vvmcx == old(vvmcx) && vmxonRegionPa == old(vmxonRegionPa) && n1vmcx == old(n1vmcx)
        invariant n2vmcx == old(n2vmcx) && vmentryPending == old(vmentryPending)
        invariant intrInfo == old(intrInfo) && intrErrorCode == old(intrErrorCode)
      {
        if iobitmap[i].Some? {
          iobitmap := iobitmap[i := None];
        }
      }
      assert iobitmap == [None, None];
    }

    /** nvmx_vcpu_destroy: purge, then release the shadow VMCS page. */
    method Destroy()
      requires Valid()
      modifies this
      ensures Valid() && vvmcxAddr == VmcxEaddr && iobitmap == [None, None] && !n2vmcx
      ensures vvmcx == old(vvmcx) && vmxonRegionPa == old(vmxonRegionPa) && n1vmcx == old(n1vmcx)
      ensures vmentryPending == old(vmentryPending) && intrInfo == old(intrInfo) && intrErrorCode == old(intrErrorCode)
    {
      Purge();
      if n2vmcx {
        n2vmcx := false;
      }
    }

    /**
     * __map_io_bitmap: remap bitmap A (index 0) or B (index 1) from the
     * guest-physical address the virtual VMCS holds for it.
     */
    method MapIoBitmap(field: bv32, roPages: map<nat, seq<bv8>>)
      requires Valid() && vvmcx != null && PagesOk(roPages)
      modifies this
      ensures Valid()
      ensures vvmcx == old(vvmcx) && vvmcxAddr == old(vvmcxAddr) && vmxonRegionPa == old(vmxonRegionPa)
      ensures var index := if field == IoBitmapA then 0 else 1;
        iobitmap == old(iobitmap)[index := MapRo(roPages, GetVvmcs(vvmcx[..], field))]
      ensures n1vmcx == old(n1vmcx) && n2vmcx == old(n2vmcx) && vmentryPending == old(vmentryPending)
      ensures intrInfo == old(intrInfo) && intrErrorCode == old(intrErrorCode)
    {
      var index := if field == IoBitmapA then 0 else 1;
      var gpa := GetVvmcs(vvmcx[..], field);
      iobitmap := iobitmap[index := MapRo(roPages, gpa)];
    }

    /** map_io_bitmap_all. */
    method MapIoBitmapAll(roPages: map<nat, seq<bv8>>)
      requires Valid() && vvmcx != null && PagesOk(roPages)
      modifies this
      ensures Valid()
      ensures vvmcx == old(vvmcx) && vvmcxAddr == old(vvmcxAddr) && vmxonRegionPa == old(vmxonRegionPa)
      ensures iobitmap == [MapRo(roPages, GetVvmcs(vvmcx[..], IoBitmapA)),
                           MapRo(roPages, GetVvmcs(vvmcx[..], IoBitmapB))]
      ensures Untouched() == old(Untouched()) && vmentryPending == old(vmentryPending)
    {
      MapIoBitmap(IoBitmapA, roPages);
      MapIoBitmap(IoBitmapB, roPages);
    }

    /**
     * nvmx_handle_vmxon: the decoded memory operand becomes the VMXON
     * region; the vCPU's own VMCS is recorded as the L1 VMCS and is no
     * longer launched.
     */
    method Vmxon(regs: UserRegs, t: Trap) returns (rc: EmulRc)
      requires Valid() && regs.Valid() && TrapOk(t)
      modifies this, regs, arch
      ensures Valid() && regs.Valid()
      ensures var d := old(Decode(regs.gpr, regs.eflags, vmxonRegionPa, true, t, true, 0));
        if d.DecodeOk? then
          rc == EmulOkay && vmxonRegionPa == d.operand && n1vmcx == old(arch.vmcs) && !arch.launched &&
          regs.gpr == old(regs.gpr) && regs.eflags == VmReturn(old(regs.eflags), VmSucceed) &&
          vvmcx == old(vvmcx) && vvmcxAddr == old(vvmcxAddr) && iobitmap == old(iobitmap) &&
          vmentryPending == old(vmentryPending) && arch.vmcs == old(arch.vmcs) &&
          arch.activeCpu == old(arch.activeCpu) && arch.ioBitmapA == old(arch.ioBitmapA) &&
          arch.ioBitmapB == old(arch.ioBitmapB) && n2vmcx == old(n2vmcx) &&
          intrInfo == old(intrInfo) && intrErrorCode == old(intrErrorCode)
        else
          rc == EmulException && unchanged(this, regs, arch)
    {
      var d := Decode(regs.gpr, regs.eflags, vmxonRegionPa, true, t, true, 0);
      if !d.DecodeOk? {
        return EmulException;
      }
      vmxonRegionPa := d.operand;
      n1vmcx := arch.vmcs;
      arch.launched := false;
      regs.VmReturnTo(VmSucceed);
      rc := EmulOkay;
    }

    /** nvmx_handle_vmxoff: purge the current VMCS and leave VMX operation. */
    method Vmxoff(regs: UserRegs, mode: GuestMode) returns (rc: EmulRc)
      requires Valid() && regs.Valid()
      modifies this, regs
      ensures Valid() && regs.Valid()
      ensures var fault := old(CheckPrivilege(mode, regs.eflags, vmxonRegionPa, false));
        if fault == None then
          rc == EmulOkay && vmxonRegionPa == 0 && vvmcxAddr == VmcxEaddr && iobitmap == [None, None] &&
          vvmcx == old(vvmcx) && vmentryPending == old(vmentryPending) && Untouched() == old(Untouched()) &&
          regs.gpr == old(regs.gpr) && regs.eflags == VmReturn(old(regs.eflags), VmSucceed)
        else
          rc == EmulException && unchanged(this, regs)
    {
      var fault := CheckPrivilege(mode, regs.eflags, vmxonRegionPa, false);
      if fault.Some? {
        return EmulException;
      }
      Purge();
      vmxonRegionPa := 0;
      regs.VmReturnTo(VmSucceed);
      rc := EmulOkay;
    }

    /**
     * VMPTRLD after a successful decode of `gpa`: fail-invalid for the VMXON
     * region or a misaligned address; otherwise purge when another VMCS is
     * current and map `gpa` when none is (then) current.
     */
    method LoadPointer(regs: UserRegs, gpa: bv64, pages: map<nat, array<bv64>>, roPages: map<nat, seq<bv8>>)
      requires Valid() && regs.Valid() && PagesOk(roPages) && RwPagesOk(pages)
      requires !(gpa == vmxonRegionPa || Misaligned(gpa)) && vvmcxAddr != gpa ==> FrameOf(gpa) in pages
      modifies this, regs
      ensures Valid() && regs.Valid() && regs.gpr == old(regs.gpr)
      ensures vmxonRegionPa == old(vmxonRegionPa) && vmentryPending == old(vmentryPending)
      ensures Untouched() == old(Untouched())
      ensures gpa == vmxonRegionPa || Misaligned(gpa) ==>
        regs.eflags == VmReturn(old(regs.eflags), VmFailInvalid) && unchanged(this)
      ensures !(gpa == vmxonRegionPa || Misaligned(gpa)) ==>
        regs.eflags == VmReturn(old(regs.eflags), VmSucceed) && vvmcxAddr == gpa
      ensures !(gpa == vmxonRegionPa || Misaligned(gpa)) && old(vvmcxAddr) == gpa ==> unchanged(this)
      ensures !(gpa == vmxonRegionPa || Misaligned(gpa)) && old(vvmcxAddr) != gpa ==>
        vvmcx == pages[FrameOf(gpa)] &&
        iobitmap == [MapRo(roPages, GetVvmcs(vvmcx[..], IoBitmapA)),
                     MapRo(roPages, GetVvmcs(vvmcx[..], IoBitmapB))]
    {
      if gpa == vmxonRegionPa || Misaligned(gpa) {
        regs.VmReturnTo(VmFailInvalid);
        return;
      }
      if vvmcxAddr != gpa {
        Purge();
      }
      if vvmcxAddr == VmcxEaddr {
        vvmcx := pages[FrameOf(gpa)];
        vvmcxAddr := gpa;
        MapIoBitmapAll(roPages);
      }
      regs.VmReturnTo(VmSucceed);
    }

    /** The operand VMPTRLD, VMPTRST and VMCLEAR decode: a guest-physical address read from memory. */
    function PointerOperand(regs: UserRegs, t: Trap): DecodeResult
      requires regs.Valid() && TrapOk(t)
      reads this, regs
    {
      Decode(regs.gpr, regs.eflags, vmxonRegionPa, false, t, true, 0)
    }

    /** nvmx_handle_vmptrld. */
    method Vmptrld(regs: UserRegs, t: Trap, pages: map<nat, array<bv64>>, roPages: map<nat, seq<bv8>>)
      returns (rc: EmulRc)
      requires Valid() && regs.Valid() && TrapOk(t) && PagesOk(roPages) && RwPagesOk(pages)
      requires var d := PointerOperand(regs, t);
        d.DecodeOk? && !(d.operand == vmxonRegionPa || Misaligned(d.operand)) && vvmcxAddr != d.operand ==>
          FrameOf(d.operand) in pages
      modifies this, regs
      ensures Valid() && regs.Valid()
      ensures var d := old(PointerOperand(regs, t));
        if !d.DecodeOk? then rc == EmulException && unchanged(this, regs)
        else if d.operand == old(vmxonRegionPa) || Misaligned(d.operand) then
          rc == EmulOkay && unchanged(this) && regs.gpr == old(regs.gpr) &&
          regs.eflags == VmReturn(old(regs.eflags), VmFailInvalid)
        else
          rc == EmulOkay && vvmcxAddr == d.operand && vmxonRegionPa == old(vmxonRegionPa) &&
          regs.gpr == old(regs.gpr) && regs.eflags == VmReturn(old(regs.eflags), VmSucceed) &&
          vmentryPending == old(vmentryPending) && Untouched() == old(Untouched()) &&
          (old(vvmcxAddr) == d.operand ==> unchanged(this)) &&
          (old(vvmcxAddr) != d.operand ==>
             vvmcx == pages[FrameOf(d.operand)] &&
             iobitmap == [MapRo(roPages, GetVvmcs(vvmcx[..], IoBitmapA)),
                          MapRo(roPages, GetVvmcs(vvmcx[..], IoBitmapB))])
    {
      var d := PointerOperand(regs, t);
      if !d.DecodeOk? {
        return EmulException;
      }
      LoadPointer(regs, d.operand, pages, roPages);
      rc := EmulOkay;
    }

    /**
     * nvmx_handle_vmptrst: store the current-VMCS address to the memory
     * operand.  The operand is decoded like every pointer operand, so its old
     * contents are read first.
     */
    method Vmptrst(regs: UserRegs, t: Trap) returns (rc: EmulRc, stored: Option<GuestStore>)
      requires Valid() && regs.Valid() && TrapOk(t) && !t.info.isRegister
      modifies regs
      ensures regs.Valid() && regs.gpr == old(regs.gpr)
      ensures var d := old(PointerOperand(regs, t));
        if !d.DecodeOk? || !t.storeOk then rc == EmulException && stored == None && unchanged(regs)
        else
          rc == EmulOkay && d.inst.op.MemOperand? &&
          stored == Some(GuestStore(d.inst.op.addr, d.inst.op.len, vvmcxAddr)) &&
          regs.eflags == VmReturn(old(regs.eflags), VmSucceed)
    {
      var d := PointerOperand(regs, t);
      if !d.DecodeOk? {
        return EmulException, None;
      }
      var gpa := vvmcxAddr;
      if !t.storeOk {
        return EmulException, None;
      }
      stored := Some(GuestStore(d.inst.op.addr, d.inst.op.len, gpa));
      regs.VmReturnTo(VmSucceed);
      rc := EmulOkay;
    }

    /**
     * VMCLEAR after a successful decode of `gpa`: fail-invalid when it is
     * misaligned; nothing when another VMCS is current; otherwise the launch
     * state of the current VMCS (if any) is cleared and the VMCS purged.
     */
    method ClearPointer(regs: UserRegs, gpa: bv64)
      requires Valid() && regs.Valid()
      modifies this, regs, vvmcx
      ensures Valid() && regs.Valid() && regs.gpr == old(regs.gpr)
      ensures vvmcx == old(vvmcx) && vmxonRegionPa == old(vmxonRegionPa) && vmentryPending == old(vmentryPending)
      ensures Untouched() == old(Untouched())
      ensures Misaligned(gpa) ==>
        regs.eflags == VmReturn(old(regs.eflags), VmFailInvalid) && unchanged(this) &&
        (vvmcx != null ==> unchanged(vvmcx))
      ensures !Misaligned(gpa) ==> regs.eflags == VmReturn(old(regs.eflags), VmSucceed)
      ensures !Misaligned(gpa) && gpa != old(vvmcxAddr) && old(vvmcxAddr) != VmcxEaddr ==>
        unchanged(this) && unchanged(vvmcx)
      ensures !Misaligned(gpa) && (gpa == old(vvmcxAddr) || old(vvmcxAddr) == VmcxEaddr) ==>
        vvmcxAddr == VmcxEaddr && iobitmap == [None, None]
      ensures !Misaligned(gpa) && gpa == old(vvmcxAddr) && old(vvmcxAddr) != VmcxEaddr ==>
        vvmcx[..] == SetVvmcsSpec(old(vvmcx[..]), LaunchState, 0)
      ensures old(vvmcxAddr) == VmcxEaddr && vvmcx != null ==> unchanged(vvmcx)
    {
      if Misaligned(gpa) {
        regs.VmReturnTo(VmFailInvalid);
        return;
      }
      if gpa != vvmcxAddr && vvmcxAddr != VmcxEaddr {
        regs.VmReturnTo(VmSucceed);
        return;
      }
      if vvmcxAddr != VmcxEaddr {
        SetVvmcs(vvmcx, LaunchState, 0);
      }
      Purge();
      regs.VmReturnTo(VmSucceed);
    }

    /** nvmx_handle_vmclear. */
    method Vmclear(regs: UserRegs, t: Trap) returns (rc: EmulRc)
      requires Valid() && regs.Valid() && TrapOk(t)
      modifies this, regs, vvmcx
      ensures Valid() && regs.Valid() && vvmcx == old(vvmcx)
      ensures var d := old(PointerOperand(regs, t));
        if !d.DecodeOk? then
          rc == EmulException && unchanged(this, regs) && (vvmcx != null ==> unchanged(vvmcx))
        else if Misaligned(d.operand) then
          rc == EmulOkay && regs.eflags == VmReturn(old(regs.eflags), VmFailInvalid) && unchanged(this) &&
          (vvmcx != null ==> unchanged(vvmcx))
        else if d.operand != old(vvmcxAddr) && old(vvmcxAddr) != VmcxEaddr then
          rc == EmulOkay && regs.eflags == VmReturn(old(regs.eflags), VmSucceed) && unchanged(this) &&
          unchanged(vvmcx)
        else
          rc == EmulOkay && regs.eflags == VmReturn(old(regs.eflags), VmSucceed) &&
          vvmcxAddr == VmcxEaddr && iobitmap == [None, None] && vmxonRegionPa == old(vmxonRegionPa) &&
          vmentryPending == old(vmentryPending) && Untouched() == old(Untouched()) &&
          (old(vvmcxAddr) == VmcxEaddr && vvmcx != null ==> unchanged(vvmcx)) &&
          (old(vvmcxAddr) != VmcxEaddr ==> vvmcx[..] == SetVvmcsSpec(old(vvmcx[..]), LaunchState, 0))
    {
      var d := PointerOperand(regs, t);
      if !d.DecodeOk? {
        return EmulException;
      }
      ClearPointer(regs, d.operand);
      rc := EmulOkay;
    }

    /** The operand VMREAD decodes: only its location, no value is read. */
    function ReadOperand(regs: UserRegs, t: Trap): DecodeResult
      requires regs.Valid() && TrapOk(t)
      reads this, regs
    {
      Decode(regs.gpr, regs.eflags, vmxonRegionPa, false, t, false, 0)
    }

    /**
     * nvmx_handle_vmread: the field named by the low 32 bits of register
     * reg2 goes to the register or memory operand.  The virtual VMCS is read
     * without checking that one is current.
     */
    method Vmread(regs: UserRegs, t: Trap) returns (rc: EmulRc, stored: Option<GuestStore>)
      requires Valid() && regs.Valid() && TrapOk(t)
      requires ReadOperand(regs, t).DecodeOk? ==> vvmcx != null
      modifies regs
      ensures regs.Valid()
      ensures var d := old(ReadOperand(regs, t));
        if !d.DecodeOk? then rc == EmulException && stored == None && unchanged(regs)
        else
          var value := GetVvmcs(vvmcx[..], Lo32(RegRead(old(regs.gpr), d.inst.reg2)));
          match d.inst.op
          case MemOperand(addr, len) =>
            if t.storeOk then
              rc == EmulOkay && stored == Some(GuestStore(addr, len, value)) && regs.gpr == old(regs.gpr) &&
              regs.eflags == VmReturn(old(regs.eflags), VmSucceed)
            else rc == EmulException && stored == None && unchanged(regs)
          case RegOperand(reg1) =>
            rc == EmulOkay && stored == None && RegRead(regs.gpr, reg1) == value &&
            (forall k :: 0 <= k < NumGprs && k != reg1 ==> regs.gpr[k] == old(regs.gpr[k])) &&
            regs.eflags == VmReturn(old(regs.eflags), VmSucceed)
    {
      var d := ReadOperand(regs, t);
      if !d.DecodeOk? {
        return EmulException, None;
      }
      var value := GetVvmcs(vvmcx[..], Lo32(RegRead(regs.gpr, d.inst.reg2)));
      stored := None;
      match d.inst.op {
        case MemOperand(addr, len) =>
          if !t.storeOk {
            return EmulException, None;
          }
          stored := Some(GuestStore(addr, len, value));
        case RegOperand(reg1) =>
          regs.RegWrite(reg1, value);
      }
      regs.VmReturnTo(VmSucceed);
      rc := EmulOkay;
    }

    /** The operand VMWRITE decodes; `stale` is what the operand variable held before. */
    function WriteOperand(regs: UserRegs, t: Trap, stale: bv64): DecodeResult
      requires regs.Valid() && TrapOk(t)
      reads this, regs
    {
      Decode(regs.gpr, regs.eflags, vmxonRegionPa, false, t, true, stale)
    }

    /**
     * nvmx_handle_vmwrite: the operand is written to the field named by the
     * low 32 bits of register reg2; when the full register names an I/O
     * bitmap address field, that bitmap is mapped again.
     */
    method Vmwrite(regs: UserRegs, t: Trap, stale: bv64, roPages: map<nat, seq<bv8>>) returns (rc: EmulRc)
      requires Valid() && regs.Valid() && TrapOk(t) && PagesOk(roPages)
      requires WriteOperand(regs, t, stale).DecodeOk? ==> vvmcx != null
      modifies this, regs, vvmcx
      ensures Valid() && regs.Valid() && regs.gpr == old(regs.gpr)
      ensures vvmcx == old(vvmcx) && vvmcxAddr == old(vvmcxAddr) && vmxonRegionPa == old(vmxonRegionPa)
      ensures vmentryPending == old(vmentryPending) && Untouched() == old(Untouched())
      ensures var d := old(WriteOperand(regs, t, stale));
        if !d.DecodeOk? then
          rc == EmulException && unchanged(this, regs) && (vvmcx != null ==> unchanged(vvmcx))
        else
          var enc := RegRead(regs.gpr, d.inst.reg2);
          rc == EmulOkay && regs.eflags == VmReturn(old(regs.eflags), VmSucceed) &&
          vvmcx[..] == SetVvmcsSpec(old(vvmcx[..]), Lo32(enc), d.operand) &&
          iobitmap == (if NamesBitmapA(enc) then old(iobitmap)[0 := MapRo(roPages, GetVvmcs(vvmcx[..], IoBitmapA))]
                       else if NamesBitmapB(enc) then old(iobitmap)[1 := MapRo(roPages, GetVvmcs(vvmcx[..], IoBitmapB))]
                       else old(iobitmap))
    {
      var d := WriteOperand(regs, t, stale);
      if !d.DecodeOk? {
        return EmulException;
      }
      var enc := RegRead(regs.gpr, d.inst.reg2);
      SetVvmcs(vvmcx, Lo32(enc), d.operand);
      if NamesBitmapA(enc) {
        MapIoBitmap(IoBitmapA, roPages);
      } else if NamesBitmapB(enc) {
        MapIoBitmap(IoBitmapB, roPages);
      }
      regs.VmReturnTo(VmSucceed);
      rc := EmulOkay;
    }

    /**
     * The entry check of nvmx_vmresume: a VMCS is current and either both
     * I/O bitmaps are mapped or L1 does not use I/O bitmaps.
     */
    predicate ReadyToEnter()
      requires Valid()
      reads this, vvmcx
    {
      vvmcxAddr != VmcxEaddr &&
      ((iobitmap[0].Some? && iobitmap[1].Some?) || N2ExecControl(vvmcx[..]) & ActivateIoBitmap == 0)
    }

    /**
     * nvmx_vmresume: after the privilege check, a VM entry is made pending
     * when ready, otherwise the instruction fails invalid; both report
     * X86EMUL_OKAY.
     */
    method NvmxVmresume(regs: UserRegs, mode: GuestMode) returns (rc: EmulRc)
      requires Valid() && regs.Valid()
      modifies this, regs
      ensures Valid() && regs.Valid() && regs.gpr == old(regs.gpr)
      ensures vvmcx == old(vvmcx) && vvmcxAddr == old(vvmcxAddr) && iobitmap == old(iobitmap)
      ensures vmxonRegionPa == old(vmxonRegionPa) && Untouched() == old(Untouched())
      ensures if old(CheckPrivilege(mode, regs.eflags, vmxonRegionPa, false)).Some? then
          rc == EmulException && unchanged(this, regs)
        else if old(ReadyToEnter()) then
          rc == EmulOkay && vmentryPending && regs.eflags == old(regs.eflags)
        else
          rc == EmulOkay && vmentryPending == old(vmentryPending) &&
          regs.eflags == VmReturn(old(regs.eflags), VmFailInvalid)
    {
      var fault := CheckPrivilege(mode, regs.eflags, vmxonRegionPa, false);
      if fault.Some? {
        return EmulException;
      }
      if ReadyToEnter() {
        vmentryPending := true;
      } else {
        regs.VmReturnTo(VmFailInvalid);
      }
      rc := EmulOkay;
    }

    /** nvmx_handle_vmresume: fail-valid unless the current VMCS was launched. */
    method HandleVmresume(regs: UserRegs, mode: GuestMode) returns (rc: EmulRc)
      requires Valid() && regs.Valid() && vvmcx != null
      modifies this, regs
      ensures Valid() && regs.Valid() && regs.gpr == old(regs.gpr)
      ensures vvmcx == old(vvmcx) && vvmcxAddr == old(vvmcxAddr) && iobitmap == old(iobitmap)
      ensures vmxonRegionPa == old(vmxonRegionPa) && Untouched() == old(Untouched())
      ensures !Launched(old(vvmcx[..])) ==>
        rc == EmulException && regs.eflags == VmReturn(old(regs.eflags), VmFailValid) && unchanged(this)
      ensures Launched(old(vvmcx[..])) && old(CheckPrivilege(mode, regs.eflags, vmxonRegionPa, false)).Some? ==>
        rc == EmulException && unchanged(this, regs)
      ensures Launched(old(vvmcx[..])) && old(CheckPrivilege(mode, regs.eflags, vmxonRegionPa, false)) == None ==>
        rc == EmulOkay &&
        (old(ReadyToEnter()) ==> vmentryPending && regs.eflags == old(regs.eflags)) &&
        (!old(ReadyToEnter()) ==>
           vmentryPending == old(vmentryPending) && regs.eflags == VmReturn(old(regs.eflags), VmFailInvalid))
    {
      var launched := Launched(vvmcx[..]);
      if !launched {
        regs.VmReturnTo(VmFailValid);
        return EmulException;
      }
      rc := NvmxVmresume(regs, mode);
    }

    /**
     * nvmx_handle_vmlaunch: fail-valid if the current VMCS was launched;
     * otherwise the launch state is set whenever nvmx_vmresume reports
     * X86EMUL_OKAY, which includes its fail-invalid outcome.
     */
    method HandleVmlaunch(regs: UserRegs, mode: GuestMode) returns (rc: EmulRc)
      requires Valid() && regs.Valid() && vvmcx != null
      modifies this, regs, vvmcx
      ensures Valid() && regs.Valid() && regs.gpr == old(regs.gpr)
      ensures vvmcx == old(vvmcx) && vvmcxAddr == old(vvmcxAddr) && iobitmap == old(iobitmap)
      ensures vmxonRegionPa == old(vmxonRegionPa) && Untouched() == old(Untouched())
      ensures Launched(old(vvmcx[..])) ==>
        rc == EmulException && regs.eflags == VmReturn(old(regs.eflags), VmFailValid) &&
        unchanged(this) && unchanged(vvmcx)
      ensures !Launched(old(vvmcx[..])) && old(CheckPrivilege(mode, regs.eflags, vmxonRegionPa, false)).Some? ==>
        rc == EmulException && unchanged(this, regs) && unchanged(vvmcx)
      ensures !Launched(old(vvmcx[..])) && old(CheckPrivilege(mode, regs.eflags, vmxonRegionPa, false)) == None ==>
        rc == EmulOkay && vvmcx[..] == SetVvmcsSpec(old(vvmcx[..]), LaunchState, 1) &&
        (old(ReadyToEnter()) ==> vmentryPending && regs.eflags == old(regs.eflags)) &&
        (!old(ReadyToEnter()) ==>
           vmentryPending == old(vmentryPending) && regs.eflags == VmReturn(old(regs.eflags), VmFailInvalid))
    {
      var launched := Launched(vvmcx[..]);
      if launched {
        regs.VmReturnTo(VmFailValid);
        return EmulException;
      }
      rc := NvmxVmresume(regs, mode);
      if rc == EmulOkay {
        SetVvmcs(vvmcx, LaunchState, 1);
      }
    }

    /**
     * nvmx_update_exec_control on the shadow VMCS `shadow`.  Bitmap A is read
     * without a NULL check when L1 uses I/O bitmaps.
     */
    method UpdateExecControl(shadow: Vmcs.VmcsRegion, host: bv32, pages: IoBitmapPages)
      requires Valid() && vvmcx != null
      requires NeedsL1Bitmap(N2ExecControl(vvmcx[..])) ==> iobitmap[0].Some?
      modifies shadow
      ensures shadow.fields ==
        ExecControlFields(old(shadow.fields), N2ExecControl(vvmcx[..]), host, iobitmap[0], pages)
    {
      var nested := N2ExecControl(vvmcx[..]);
      var bitmap := ShadowBitmapAddress(nested, iobitmap[0], pages);
      if bitmap.Some? {
        shadow.fields := shadow.fields[IoBitmapA as nat := bitmap.value];
        shadow.fields := shadow.fields[IoBitmapB as nat := NextPage(bitmap.value)];
      }
      shadow.fields := shadow.fields[ExecControl as nat := ExecControlValue(nested, host)];
    }

    /** set_shadow_control: L1's value of `field` merged with L0's, written to the shadow VMCS. */
    method SetShadowControl(shadow: Vmcs.VmcsRegion, field: bv32, host: bv64)
      requires Valid() && vvmcx != null
      modifies shadow
      ensures shadow.fields == old(shadow.fields)[field as nat := ShadowControlValue(vvmcx[..], field, host)]
    {
      shadow.fields := shadow.fields[field as nat := ShadowControlValue(vvmcx[..], field, host)];
    }

    /** nvmx_update_secondary_exec_control. */
    method UpdateSecondaryExecControl(shadow: Vmcs.VmcsRegion, value: bv64)
      requires Valid() && vvmcx != null
      modifies shadow
      ensures shadow.fields ==
        old(shadow.fields)[SecondaryExecControl as nat := ShadowControlValue(vvmcx[..], SecondaryExecControl, value)]
    {
      SetShadowControl(shadow, SecondaryExecControl, value);
    }

    /** nvmx_update_exception_bitmap. */
    method UpdateExceptionBitmap(shadow: Vmcs.VmcsRegion, value: bv64)
      requires Valid() && vvmcx != null
      modifies shadow
      ensures shadow.fields ==
        old(shadow.fields)[ExceptionBitmap as nat := ShadowControlValue(vvmcx[..], ExceptionBitmap, value)]
    {
      SetShadowControl(shadow, ExceptionBitmap, value);
    }

    /** VMPTRLD of a valid address followed by VMPTRST stores exactly that address. */
    method LoadThenStore(regs: UserRegs, t1: Trap, t2: Trap, pages: map<nat, array<bv64>>,
                         roPages: map<nat, seq<bv8>>)
      returns (rc1: EmulRc, rc2: EmulRc, stored: Option<GuestStore>)
      requires Valid() && regs.Valid() && TrapOk(t1) && TrapOk(t2) && !t2.info.isRegister
      requires PagesOk(roPages) && RwPagesOk(pages)
      requires var d := PointerOperand(regs, t1);
        d.DecodeOk? && !(d.operand == vmxonRegionPa || Misaligned(d.operand)) && vvmcxAddr != d.operand ==>
          FrameOf(d.operand) in pages
      modifies this, regs
      ensures var d := old(PointerOperand(regs, t1));
        d.DecodeOk? && !(d.operand == old(vmxonRegionPa) || Misaligned(d.operand)) && rc2 == EmulOkay ==>
          rc1 == EmulOkay && stored.Some? && stored.value.value == d.operand
    {
      rc1 := Vmptrld(regs, t1, pages, roPages);
      rc2, stored := Vmptrst(regs, t2);
    }

    /** A second VMLAUNCH of the same VMCS fails valid once the first reported X86EMUL_OKAY. */
    method LaunchTwice(regs: UserRegs, mode: GuestMode) returns (rc1: EmulRc, rc2: EmulRc)
      requires Valid() && regs.Valid() && vvmcx != null
      modifies this, regs, vvmcx
      ensures rc1 == EmulOkay ==> rc2 == EmulException && StatusOf(regs.eflags) == VmFailValid
    {
      rc1 := HandleVmlaunch(regs, mode);
      if rc1 == EmulOkay {
        LaunchStateRoundTrip(old(vvmcx[..]), 1);
      }
      ghost var eflags := regs.eflags;
      rc2 := HandleVmlaunch(regs, mode);
      VmReturnDecodes(eflags, VmFailValid);
    }
  }

  /** After writing `v` to the launch state, the handlers see it as launched exactly when v's low half is nonzero. */
  lemma LaunchStateRoundTrip(vvmcs: seq<bv64>, v: bv64)
    requires |vvmcs| == VvmcsSlots
    ensures Launched(SetVvmcsSpec(vvmcs, LaunchState, v)) <==> Lo32(v) != 0
  {
  }

  /**
   * Writing the launch state leaves the fields the entry check and the
   * control merge read: the primary controls and both I/O bitmap addresses.
   */
  lemma LaunchStateKeepsControls(vvmcs: seq<bv64>, v: bv64)
    requires |vvmcs| == VvmcsSlots
    ensures var r := SetVvmcsSpec(vvmcs, LaunchState, v);
      GetVvmcs(r, ExecControl) == GetVvmcs(vvmcs, ExecControl) &&
      GetVvmcs(r, IoBitmapA) == GetVvmcs(vvmcs, IoBitmapA) &&
      GetVvmcs(r, IoBitmapB) == GetVvmcs(vvmcs, IoBitmapB)
  {
    var r := SetVvmcsSpec(vvmcs, LaunchState, v);
    assert SlotOf(LaunchState) == 448;
    assert SlotOf(ExecControl) == 257 && SlotOf(IoBitmapA) == 128 && SlotOf(IoBitmapB) == 129;
    assert r[257] == vvmcs[257] && r[128] == vvmcs[128] && r[129] == vvmcs[129];
  }
}
