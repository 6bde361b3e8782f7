/**
 * Management of the physical VMCS of an HVM vCPU: the one-shot geometry read
 * from IA32_VMX_BASIC, allocation, the CPU affinity of a VMCS (the processor
 * it was last loaded on, where its state may still be cached) and the staged
 * construction of its initial contents.
 *
 * A VMCS may be loaded (made current) on one processor at a time; before it
 * is used elsewhere it has to be cleared on the processor it was active on.
 * `Hardware.current` records the current-VMCS pointer of every processor and
 * `Affine` states that a vCPU's VMCS is current nowhere but on the processor
 * its `activeCpu` names.
 */
module Vmcs {
  import opened Wrappers

  const PageSize: nat := 4096
  const ENOMEM: int := -12

  /** RFLAGS.TF and the #DB bit of the exception bitmap (vector 1). */
  const TF: bv64 := 0x100
  const DbMask: bv64 := 0x2

  /** Field encodings (Intel SDM Vol. 3C, Appendix B). */
  const PinBasedControls: nat := 0x4000
  const ExitControls: nat := 0x400c
  const EntryControls: nat := 0x4012
  const IoBitmapA: nat := 0x2000
  const IoBitmapB: nat := 0x2002
  const ExceptionBitmap: nat := 0x4004

  function Pow2(n: nat): (r: nat)
    ensures r >= 1
  {
    if n == 0 then 1 else 2 * Pow2(n - 1)
  }

  /**
   * The page order of a size: the least order whose 2^order pages cover it.
   */
  function OrderFromBytes(size: nat): (order: nat)
    ensures size <= PageSize * Pow2(order)
    ensures order == 0 || PageSize * Pow2(order - 1) < size
  {
    if size <= PageSize then 0
    else
      var half := (size + 1) / 2;
      var o := OrderFromBytes(half);
      assert PageSize * Pow2(o + 1) == 2 * (PageSize * Pow2(o));
      o + 1
  }

  /** The static vmcs_size, vmcs_order and vmcs_revision_id. */
  class VmcsConfig {
    var size: nat
    var order: nat
    var revisionId: bv32

    ghost predicate Valid()
      reads this
    {
      size < 0x2000 && order == OrderFromBytes(size)
    }

    constructor ()
      ensures Valid() && size == 0 && order == 0 && revisionId == 0
    {
      size := 0;
      order := 0;
      revisionId := 0;
    }

    /**
     * vmx_init_vmcs_config: `msrLow` and `msrHigh` are the two halves of
     * IA32_VMX_BASIC.  Only the first call with a non-zero size has effect.
     */
    method Init(msrLow: bv32, msrHigh: bv32)
      requires Valid()
      modifies this
      ensures Valid()
      ensures old(size) != 0 ==> size == old(size) && order == old(order) && revisionId == old(revisionId)
      ensures old(size) == 0 ==>
        revisionId == msrLow && size == (msrHigh & 0x1fff) as nat && order == OrderFromBytes(size)
    {
      if size != 0 {
        return;
      }
      revisionId := msrLow;
      size := (msrHigh & 0x1fff) as nat;
      order := OrderFromBytes(size);
    }
  }

  /**
   * A VMCS region: the revision identifier in its first four bytes, the
   * rest of the allocated pages, and the fields as the processor's VMREAD and
   * VMWRITE see them.
   */
  class VmcsRegion {
    var revisionId: bv32
    const data: array<bv8>
    var fields: map<nat, bv64>

    /** Fresh pages of `n` bytes after the revision field, holding whatever they held. */
    constructor (n: nat)
      ensures fresh(data) && data.Length == n && fields == map[]
    {
      data := new bv8[n];
      fields := map[];
    }
  }

  /**
   * vmx_alloc_vmcs: NULL when the page allocator fails; otherwise pages of
   * the configured order, zero through vmcs_size, stamped with the revision.
   */
  method AllocVmcs(cfg: VmcsConfig, allocOk: bool) returns (r: VmcsRegion?)
    requires cfg.Valid()
    ensures r == null <==> !allocOk
    ensures r != null ==>
      fresh(r) && fresh(r.data) && r.fields == map[] && r.revisionId == cfg.revisionId &&
      4 + r.data.Length == PageSize * Pow2(cfg.order) && cfg.size <= 4 + r.data.Length &&
      forall i :: 0 <= i < cfg.size - 4 ==> r.data[i] == 0
  {
    if !allocOk {
      return null;
    }
    r := new VmcsRegion(PageSize * Pow2(cfg.order) - 4);
    var n := if cfg.size < 4 then 0 else cfg.size - 4;
    var i := 0;
    while i < n
      invariant 0 <= i <= n <= r.data.Length
      invariant r.fields == map[]
      invariant forall k :: 0 <= k < i ==> r.data[k] == 0
    {
      r.data[i] := 0;
      i := i + 1;
    }
    r.revisionId := cfg.revisionId;
  }

  /** The current-VMCS pointer of every processor. */
  class Hardware {
    var current: map<int, VmcsRegion>

    /** VMPTRLD on `cpu`. */
    method Vmptrld(cpu: int, r: VmcsRegion)
      modifies this
      ensures current == old(current)[cpu := r]
    {
      current := current[cpu := r];
    }

    /** VMCLEAR on `cpu`: the region stops being current there. */
    method Vmpclear(cpu: int, r: VmcsRegion)
      modifies this
      ensures current == Cleared(old(current), cpu, r)
    {
      if cpu in current && current[cpu] == r {
        current := current - {cpu};
      }
    }
  }

  /** The current-VMCS map after VMCLEAR of `r` on `cpu`. */
  function Cleared(current: map<int, VmcsRegion>, cpu: int, r: VmcsRegion): (m: map<int, VmcsRegion>)
    ensures cpu !in m || m[cpu] != r
    ensures forall c :: c in m <==> c in current && !(c == cpu && current[c] == r)
    ensures forall c :: c in m ==> m[c] == current[c]
  {
    if cpu in current && current[cpu] == r then current - {cpu} else current
  }

  /**
   * The current-VMCS map after vmx_clear_vmcs of `r` when it was active on
   * `active` (-1: active nowhere, nothing is cleared).
   */
  function AfterClear(current: map<int, VmcsRegion>, active: int, r: VmcsRegion?): map<int, VmcsRegion>
    requires active != -1 ==> r != null
  {
    if active == -1 then current else Cleared(current, active, r)
  }

  /** RFLAGS.TF is set. */
  predicate TrapFlag(eflags: bv64)
  {
    eflags & TF != 0
  }

  /** Values of the controls stage that live in headers: the MONITOR_* constants. */
  datatype Monitor = Monitor(pinBased: bv64, exitControls: bv64, entryControls: bv64, exceptionBitmap: bv64)

  /** One __vmwrite of a construction stage; unchecked writes do not feed the stage's error. */
  datatype VmWrite = VmWrite(field: nat, value: bv64, checked: bool)

  /**
   * The __vmwrite oracle: the status it returns for a field, zero for
   * success.  A failed write leaves the VMCS unchanged.
   */
  function Status(status: map<nat, bv32>, field: nat): bv32
  {
    if field in status then status[field] else 0
  }

  /** error |= rc */
  function Accumulate(error: bv32, rc: bv32): (r: bv32)
    ensures r == 0 <==> error == 0 && rc == 0
  {
    error | rc
  }

  /** The error a stage accumulates with `error |= __vmwrite(...)`. */
  function StageError(writes: seq<VmWrite>, status: map<nat, bv32>): bv32
  {
    if |writes| == 0 then 0
    else
      var last := writes[|writes| - 1];
      var before := StageError(writes[..|writes| - 1], status);
      if last.checked then Accumulate(before, Status(status, last.field)) else before
  }

  /** The VMCS fields after a stage's writes. */
  function Apply(fields: map<nat, bv64>, writes: seq<VmWrite>, status: map<nat, bv32>): map<nat, bv64>
  {
    if |writes| == 0 then fields
    else
      var last := writes[|writes| - 1];
      var before := Apply(fields, writes[..|writes| - 1], status);
      if Status(status, last.field) == 0 then before[last.field := last.value] else before
  }

  /** A stage reports success exactly when every checked write succeeded. */
  lemma {:induction false} StageErrorZero(writes: seq<VmWrite>, status: map<nat, bv32>)
    ensures StageError(writes, status) == 0 <==>
      forall i :: 0 <= i < |writes| && writes[i].checked ==> Status(status, writes[i].field) == 0
  {
    if |writes| > 0 {
      var init := writes[..|writes| - 1];
      StageErrorZero(init, status);
      var last := writes[|writes| - 1];
      assert forall i :: 0 <= i < |init| ==> init[i] == writes[i];
    }
  }

  /** A write that succeeds is visible after the stage unless a later write of the same field succeeds. */
  lemma {:induction false} ApplyKeepsLastWrite(fields: map<nat, bv64>, writes: seq<VmWrite>, status: map<nat, bv32>, i: nat)
    requires i < |writes| && Status(status, writes[i].field) == 0
    requires forall k :: i < k < |writes| ==> writes[k].field != writes[i].field
    ensures writes[i].field in Apply(fields, writes, status)
    ensures Apply(fields, writes, status)[writes[i].field] == writes[i].value
  {
    var init := writes[..|writes| - 1];
    var last := writes[|writes| - 1];
    var before := Apply(fields, init, status);
    assert Apply(fields, writes, status) ==
      if Status(status, last.field) == 0 then before[last.field := last.value] else before;
    if i < |writes| - 1 {
      assert init[i] == writes[i];
      ApplyKeepsLastWrite(fields, init, status, i);
      assert last.field != writes[i].field;
    } else {
      assert last == writes[i];
      assert Status(status, last.field) == 0;
      assert Apply(fields, writes, status) == before[last.field := last.value];
      assert before[last.field := last.value][last.field] == last.value;
    }
  }

  /** construct_vmcs_controls on x86_64: the pin-based, exit and entry controls and both I/O bitmaps. */
  function ControlsStage(m: Monitor, bitmapA: bv64, bitmapB: bv64): seq<VmWrite>
  {
    [VmWrite(PinBasedControls, m.pinBased, true),
     VmWrite(ExitControls, m.exitControls, true),
     VmWrite(EntryControls, m.entryControls, true),
     VmWrite(IoBitmapA, bitmapA, true),
     VmWrite(IoBitmapB, bitmapB, true)]
  }

  /** The outcome of construct_vmcs: its error and the VMCS fields it leaves. */
  datatype Construction = Construction(error: bv32, fields: map<nat, bv64>)

  /**
   * construct_vmcs: controls, host state and guest state in this order, then
   * the exception bitmap, then the #DB bit according to RFLAGS.TF; the first
   * stage that reports an error ends the construction with that error.
   */
  function ConstructSpec(fields: map<nat, bv64>, status: map<nat, bv32>, m: Monitor,
                         bitmapA: bv64, bitmapB: bv64, host: seq<VmWrite>, guest: seq<VmWrite>,
                         eflags: bv64): Construction
  {
    var controls := ControlsStage(m, bitmapA, bitmapB);
    var f1 := Apply(fields, controls, status);
    var f2 := Apply(f1, host, status);
    var f3 := Apply(f2, guest, status);
    if StageError(controls, status) != 0 then Construction(StageError(controls, status), f1)
    else if StageError(host, status) != 0 then Construction(StageError(host, status), f2)
    else if StageError(guest, status) != 0 then Construction(StageError(guest, status), f3)
    else ExceptionBitmapStage(f3, status, m.exceptionBitmap, eflags)
  }

  /**
   * The last step of construct_vmcs: write the exception bitmap, then set
   * its #DB bit exactly when the guest starts with RFLAGS.TF set.
   */
  function ExceptionBitmapStage(fields: map<nat, bv64>, status: map<nat, bv32>, bitmap: bv64,
                                eflags: bv64): Construction
  {
    if Status(status, ExceptionBitmap) != 0 then Construction(Status(status, ExceptionBitmap), fields)
    else Construction(0, fields[ExceptionBitmap := UpdateBits(bitmap, DbMask, TrapFlag(eflags))])
  }

  /**
   * A successful construction leaves the exception bitmap of the monitor
   * with #DB intercepted exactly when the guest starts with RFLAGS.TF set.
   */
  lemma ConstructTrapsDebugIffTrapFlag(fields: map<nat, bv64>, status: map<nat, bv32>, m: Monitor,
                                       bitmapA: bv64, bitmapB: bv64, host: seq<VmWrite>,
                                       guest: seq<VmWrite>, eflags: bv64)
    ensures var c := ConstructSpec(fields, status, m, bitmapA, bitmapB, host, guest, eflags);
      c.error == 0 ==>
        ExceptionBitmap in c.fields &&
        (c.fields[ExceptionBitmap] & DbMask != 0 <==> TrapFlag(eflags)) &&
        c.fields[ExceptionBitmap] & !DbMask == m.exceptionBitmap & !DbMask
  {
    UpdateBitsMasks(m.exceptionBitmap, DbMask, TrapFlag(eflags));
  }

  /**
   * The error construct_vmcs returns is the first stage error: a failing
   * stage stops every later stage, and success means every checked write of
   * every stage succeeded.
   */
  lemma ConstructErrorIsFirstStageError(fields: map<nat, bv64>, status: map<nat, bv32>, m: Monitor,
                                        bitmapA: bv64, bitmapB: bv64, host: seq<VmWrite>,
                                        guest: seq<VmWrite>, eflags: bv64)
    ensures var c := ConstructSpec(fields, status, m, bitmapA, bitmapB, host, guest, eflags);
      c.error == 0 <==>
        (forall i :: 0 <= i < |ControlsStage(m, bitmapA, bitmapB)| && ControlsStage(m, bitmapA, bitmapB)[i].checked ==>
           Status(status, ControlsStage(m, bitmapA, bitmapB)[i].field) == 0) &&
        (forall i :: 0 <= i < |host| && host[i].checked ==> Status(status, host[i].field) == 0) &&
        (forall i :: 0 <= i < |guest| && guest[i].checked ==> Status(status, guest[i].field) == 0) &&
        Status(status, ExceptionBitmap) == 0
    ensures var c := ConstructSpec(fields, status, m, bitmapA, bitmapB, host, guest, eflags);
      StageError(ControlsStage(m, bitmapA, bitmapB), status) != 0 ==>
        c == Construction(StageError(ControlsStage(m, bitmapA, bitmapB), status),
                          Apply(fields, ControlsStage(m, bitmapA, bitmapB), status))
    ensures var c := ConstructSpec(fields, status, m, bitmapA, bitmapB, host, guest, eflags);
      var f1 := Apply(fields, ControlsStage(m, bitmapA, bitmapB), status);
      StageError(ControlsStage(m, bitmapA, bitmapB), status) == 0 && StageError(host, status) != 0 ==>
        c == Construction(StageError(host, status), Apply(f1, host, status))
    ensures var c := ConstructSpec(fields, status, m, bitmapA, bitmapB, host, guest, eflags);
      var f2 := Apply(Apply(fields, ControlsStage(m, bitmapA, bitmapB), status), host, status);
      StageError(ControlsStage(m, bitmapA, bitmapB), status) == 0 && StageError(host, status) == 0 &&
      StageError(guest, status) != 0 ==>
        c == Construction(StageError(guest, status), Apply(f2, guest, status))
  {
    StageErrorZero(ControlsStage(m, bitmapA, bitmapB), status);
    StageErrorZero(host, status);
    StageErrorZero(guest, status);
  }

  /** __vmwrite on the working VMCS. */
  method Vmwrite(r: VmcsRegion, field: nat, value: bv64, status: map<nat, bv32>) returns (error: bv32)
    modifies r
    ensures error == Status(status, field)
    ensures r.fields == (if error == 0 then old(r.fields)[field := value] else old(r.fields))
    ensures r.revisionId == old(r.revisionId)
  {
    error := Status(status, field);
    if error == 0 {
      r.fields := r.fields[field := value];
    }
  }

  /** One stage of construct_*: every write in order, ORing the checked statuses. */
  method RunStage(r: VmcsRegion, writes: seq<VmWrite>, status: map<nat, bv32>) returns (error: bv32)
    modifies r
    ensures error == StageError(writes, status)
    ensures r.fields == Apply(old(r.fields), writes, status)
    ensures r.revisionId == old(r.revisionId)
  {
    error := 0;
    var i := 0;
    while i < |writes|
      invariant 0 <= i <= |writes|
      invariant error == StageError(writes[..i], status)
      invariant r.fields == Apply(old(r.fields), writes[..i], status)
      invariant r.revisionId == old(r.revisionId)
    {
      var w := writes[i];
      var rc := Vmwrite(r, w.field, w.value, status);
      if w.checked {
        error := Accumulate(error, rc);
      }
      assert writes[..i + 1][..i] == writes[..i] && writes[..i + 1][i] == w;
      i := i + 1;
    }
    assert writes[..i] == writes;
  }

  /** A value with the bits of `mask` set or cleared. */
  function UpdateBits(value: bv64, mask: bv64, setBits: bool): bv64
  {
    if setBits then value | mask else value & !mask
  }

  /** The bits of `mask` are all set or all clear as asked; no other bit changes. */
  lemma UpdateBitsMasks(value: bv64, mask: bv64, setBits: bool)
    ensures UpdateBits(value, mask, setBits) & mask == (if setBits then mask else 0)
    ensures UpdateBits(value, mask, setBits) & !mask == value & !mask
  {
  }

  /**
   * __vm_set_bit / __vm_clear_bit: read the field, set or clear the bits of
   * `mask`, write it back.
   */
  method VmUpdateBits(r: VmcsRegion, field: nat, mask: bv64, setBits: bool, status: map<nat, bv32>)
    returns (error: bv32)
    requires field in r.fields
    modifies r
    ensures error == Status(status, field)
    ensures r.fields == (if error == 0 then old(r.fields)[field := UpdateBits(old(r.fields[field]), mask, setBits)] else old(r.fields))
  {
    var tmp := r.fields[field];
    tmp := UpdateBits(tmp, mask, setBits);
    error := Vmwrite(r, field, tmp, status);
  }

  /**
   * construct_vmcs on the working VMCS `r`.  The host and guest stages are
   * given as their write lists; `eflags` is the guest's initial RFLAGS.
   */
  method ConstructVmcs(r: VmcsRegion, status: map<nat, bv32>, m: Monitor, bitmapA: bv64, bitmapB: bv64,
                       host: seq<VmWrite>, guest: seq<VmWrite>, eflags: bv64) returns (error: bv32)
    modifies r
    ensures Construction(error, r.fields) ==
      ConstructSpec(old(r.fields), status, m, bitmapA, bitmapB, host, guest, eflags)
  {
    error := RunStage(r, ControlsStage(m, bitmapA, bitmapB), status);
    if error != 0 {
      return;
    }
    error := RunStage(r, host, status);
    if error != 0 {
      return;
    }
    error := RunStage(r, guest, status);
    if error != 0 {
      return;
    }
    error := InstallExceptionBitmap(r, m.exceptionBitmap, eflags, status);
  }

  /** The exception-bitmap step of construct_vmcs on the working VMCS. */
  method InstallExceptionBitmap(r: VmcsRegion, bitmap: bv64, eflags: bv64, status: map<nat, bv32>)
    returns (error: bv32)
    modifies r
    ensures Construction(error, r.fields) == ExceptionBitmapStage(old(r.fields), status, bitmap, eflags)
  {
    ghost var fields: map<nat, bv64> := r.fields;
    error := Vmwrite(r, ExceptionBitmap, bitmap, status);
    if error != 0 {
      return;
    }
    var withDb := UpdateBits(bitmap, DbMask, TrapFlag(eflags));
    assert fields[ExceptionBitmap := bitmap][ExceptionBitmap := withDb] == fields[ExceptionBitmap := withDb];
    error := VmUpdateBits(r, ExceptionBitmap, DbMask, TrapFlag(eflags), status);
  }

  /** The VMX part of a vCPU (struct arch_vmx_struct). */
  class ArchVmx {
    var vmcs: VmcsRegion?
    var activeCpu: int
    var launched: bool
    /** Machine addresses of the two I/O bitmap pages; None is NULL. */
    var ioBitmapA: Option<bv64>
    var ioBitmapB: Option<bv64>

    constructor (ioBitmapA: Option<bv64>, ioBitmapB: Option<bv64>)
      ensures vmcs == null && activeCpu == -1 && !launched
      ensures this.ioBitmapA == ioBitmapA && this.ioBitmapB == ioBitmapB
    {
      vmcs := null;
      activeCpu := -1;
      launched := false;
      this.ioBitmapA := ioBitmapA;
      this.ioBitmapB := ioBitmapB;
    }

    /** A recorded processor is a real one, and only a vCPU with a VMCS has one. */
    ghost predicate Valid()
      reads this
    {
      activeCpu >= -1 && (activeCpu != -1 ==> vmcs != null)
    }

    /** The VMCS is current on no processor except the one `activeCpu` names. */
    ghost predicate Affine(hw: Hardware)
      reads this, hw
    {
      vmcs != null ==> forall c :: c in hw.current && hw.current[c] == vmcs ==> c == activeCpu && activeCpu != -1
    }

    /** __vmx_clear_vmcs, running on `cpu`. */
    method ClearOn(hw: Hardware, cpu: int)
      requires vmcs != null
      modifies this, hw
      ensures activeCpu == -1 && !launched
      ensures vmcs == old(vmcs) && ioBitmapA == old(ioBitmapA) && ioBitmapB == old(ioBitmapB)
      ensures hw.current == Cleared(old(hw.current), cpu, vmcs)
    {
      hw.Vmpclear(cpu, vmcs);
      activeCpu := -1;
      launched := false;
    }

    /**
     * vmx_clear_vmcs: nothing when the VMCS is active nowhere; otherwise clear
     * it on the processor it is active on, locally or by a synchronous call
     * to that processor.
     */
    method ClearVmcs(hw: Hardware, cpu: int)
      requires Valid()
      modifies this, hw
      ensures Valid() && activeCpu == -1
      ensures vmcs == old(vmcs) && ioBitmapA == old(ioBitmapA) && ioBitmapB == old(ioBitmapB)
      ensures old(activeCpu) == -1 ==> launched == old(launched) && hw.current == old(hw.current)
      ensures old(activeCpu) != -1 ==> !launched && hw.current == Cleared(old(hw.current), old(activeCpu), vmcs)
      ensures old(Affine(hw)) ==> vmcs != null ==> forall c :: c in hw.current ==> hw.current[c] != vmcs
    {
      var active := activeCpu;
      if active == -1 {
        return;
      }
      if active == cpu {
        ClearOn(hw, cpu);
        return;
      }
      ClearOn(hw, active);
    }

    /** vmx_load_vmcs: VMPTRLD on `cpu`, which becomes the recorded processor. */
    method LoadVmcs(hw: Hardware, cpu: int)
      requires vmcs != null && cpu >= 0
      modifies this, hw
      ensures Valid() && activeCpu == cpu
      ensures vmcs == old(vmcs) && launched == old(launched)
      ensures ioBitmapA == old(ioBitmapA) && ioBitmapB == old(ioBitmapB)
      ensures hw.current == old(hw.current)[cpu := vmcs]
      ensures old(Affine(hw)) && old(activeCpu) in {-1, cpu} ==> Affine(hw)
    {
      hw.Vmptrld(cpu, vmcs);
      activeCpu := cpu;
    }

    /**
     * vmx_vmcs_enter: to touch another vCPU's VMCS, clear it where it is
     * active and load it here.  Nothing happens for the running vCPU.
     */
    method VmcsEnter(hw: Hardware, cur: ArchVmx, cpu: int)
      requires Valid() && Affine(hw) && vmcs != null && cpu >= 0
      modifies this, hw
      ensures Valid() && Affine(hw) && vmcs == old(vmcs)
      ensures this == cur ==> activeCpu == old(activeCpu) && launched == old(launched) && hw.current == old(hw.current)
      ensures this != cur ==> activeCpu == cpu && cpu in hw.current && hw.current[cpu] == vmcs
      ensures this != cur && old(activeCpu) != -1 ==> !launched
      ensures this != cur && old(activeCpu) == -1 ==> launched == old(launched)
      ensures this != cur ==> hw.current == AfterClear(old(hw.current), old(activeCpu), vmcs)[cpu := vmcs]
      ensures ioBitmapA == old(ioBitmapA) && ioBitmapB == old(ioBitmapB)
    {
      if this == cur {
        return;
      }
      ClearVmcs(hw, cpu);
      LoadVmcs(hw, cpu);
    }

    /**
     * vmx_vmcs_exit: clear the other vCPU's VMCS again and, when the running
     * vCPU is an HVM guest, load its VMCS back on this processor.
     */
    method VmcsExit(hw: Hardware, cur: ArchVmx, curIsHvm: bool, cpu: int)
      requires Valid() && Affine(hw) && cpu >= 0
      requires this != cur && curIsHvm ==> cur.vmcs != null && cur.vmcs != vmcs && cur.Affine(hw) && cur.activeCpu in {-1, cpu}
      modifies this, hw, cur
      ensures Valid() && Affine(hw) && vmcs == old(vmcs)
      ensures this == cur ==> activeCpu == old(activeCpu) && launched == old(launched) && hw.current == old(hw.current)
      ensures this != cur ==> activeCpu == -1 && (vmcs != null ==> forall c :: c in hw.current ==> hw.current[c] != vmcs)
      ensures this != cur && curIsHvm ==>
        cur.activeCpu == cpu && cpu in hw.current && hw.current[cpu] == cur.vmcs && cur.Affine(hw)
      ensures this != cur && !curIsHvm ==> cur.activeCpu == old(cur.activeCpu)
      ensures this != cur ==>
        hw.current == if curIsHvm then AfterClear(old(hw.current), old(activeCpu), vmcs)[cpu := cur.vmcs]
                      else AfterClear(old(hw.current), old(activeCpu), vmcs)
      ensures ioBitmapA == old(ioBitmapA) && ioBitmapB == old(ioBitmapB)
      ensures this != cur ==>
        (old(activeCpu) == -1 ==> launched == old(launched)) && (old(activeCpu) != -1 ==> !launched)
      ensures cur.vmcs == old(cur.vmcs) && cur.launched == old(cur.launched)
      ensures cur.ioBitmapA == old(cur.ioBitmapA) && cur.ioBitmapB == old(cur.ioBitmapB)
    {
      if this == cur {
        return;
      }
      ClearVmcs(hw, cpu);
      if curIsHvm {
        cur.LoadVmcs(hw, cpu);
      }
    }

    /**
     * vmx_create_vmcs: -ENOMEM when allocation fails (the VMCS pointer is
     * then NULL); otherwise 0 with a fresh VMCS cleared on this processor.
     */
    method CreateVmcs(cfg: VmcsConfig, hw: Hardware, allocOk: bool, cpu: int) returns (rc: int)
      requires cfg.Valid()
      modifies this, hw
      ensures ioBitmapA == old(ioBitmapA) && ioBitmapB == old(ioBitmapB)
      ensures !allocOk ==>
        rc == ENOMEM && vmcs == null && activeCpu == old(activeCpu) &&
        launched == old(launched) && hw.current == old(hw.current)
      ensures allocOk ==>
        rc == 0 && vmcs != null && fresh(vmcs) && vmcs.revisionId == cfg.revisionId &&
        activeCpu == -1 && !launched && Valid() && Affine(hw) && hw.current == old(hw.current)
    {
      vmcs := AllocVmcs(cfg, allocOk);
      if vmcs == null {
        return ENOMEM;
      }
      ClearOn(hw, cpu);
      rc := 0;
    }

    /**
     * vmx_destroy_vmcs: nothing without a VMCS; otherwise clear it, free the
     * I/O bitmaps and the VMCS.  The freed VMCS is current nowhere.
     */
    method DestroyVmcs(hw: Hardware, cpu: int)
      requires Valid() && Affine(hw)
      modifies this, hw
      ensures old(vmcs) == null ==> unchanged(this) && hw.current == old(hw.current)
      ensures old(vmcs) != null ==>
        vmcs == null && ioBitmapA == None && ioBitmapB == None && activeCpu == -1 &&
        (old(activeCpu) == -1 ==> launched == old(launched)) && (old(activeCpu) != -1 ==> !launched) &&
        hw.current == AfterClear(old(hw.current), old(activeCpu), old(vmcs)) &&
        forall c :: c in hw.current ==> hw.current[c] != old(vmcs)
      ensures Valid()
    {
      if vmcs == null {
        return;
      }
      ClearVmcs(hw, cpu);
      ioBitmapA := None;
      ioBitmapB := None;
      vmcs := null;
    }

    /**
     * The affinity branch of arch_vmx_do_resume: reload in place when the
     * VMCS is active here, otherwise clear it where it was and load it here.
     */
    method DoResume(hw: Hardware, cpu: int)
      requires Valid() && Affine(hw) && vmcs != null && cpu >= 0
      modifies this, hw
      ensures Valid() && Affine(hw) && vmcs == old(vmcs)
      ensures activeCpu == cpu && cpu in hw.current && hw.current[cpu] == vmcs
      ensures old(activeCpu) == cpu || old(activeCpu) == -1 ==> launched == old(launched)
      ensures old(activeCpu) != cpu && old(activeCpu) != -1 ==> !launched
      ensures hw.current ==
        (if old(activeCpu) == cpu then old(hw.current) else AfterClear(old(hw.current), old(activeCpu), vmcs))[cpu := vmcs]
      ensures ioBitmapA == old(ioBitmapA) && ioBitmapB == old(ioBitmapB)
    {
      if activeCpu == cpu {
        LoadVmcs(hw, cpu);
      } else {
        ClearVmcs(hw, cpu);
        LoadVmcs(hw, cpu);
      }
    }
  }

  /** One cell of a VMCS dump line: the field's value, or the dashes of a failed read. */
  datatype DumpCell = DumpCell(addr: nat, rowStart: bool, value: Option<bv64>)

  /** The width code of a field encoding, bits 14:13. */
  function WidthCode(enc: nat): (code: nat)
    ensures code < 4
  {
    (enc / 0x2000) % 4
  }

  /** What __vmread finds for a field: its value, or none when the read fails. */
  function Lookup(fields: map<nat, bv64>, addr: nat): (v: Option<bv64>)
    ensures v.Some? <==> addr in fields
    ensures v.Some? ==> v.value == fields[addr]
  {
    if addr in fields then Some(fields[addr]) else None
  }

  /**
   * The cells of a section walk: the first at `start`, each next one `incr`
   * further, none past `end`, a row every fourth cell, each holding what
   * VMREAD finds for its encoding.
   */
  ghost predicate Walk(cells: seq<DumpCell>, fields: map<nat, bv64>, start: nat, end: nat, incr: nat)
  {
    (|cells| > 0 ==> cells[0].addr == start) &&
    (forall k :: 0 < k < |cells| ==> cells[k].addr == cells[k - 1].addr + incr) &&
    (forall k :: 0 <= k < |cells| ==>
      cells[k].addr <= end && cells[k].rowStart == (k % 4 == 0) && cells[k].value == Lookup(fields, cells[k].addr))
  }

  /**
   * print_section: every encoding from `start` to `end` in steps of `incr`,
   * four to a line, each printed in the width of the section's first field.
   * `fields` are the fields VMREAD finds in the current VMCS.
   */
  method PrintSection(fields: map<nat, bv64>, start: nat, end: nat, incr: nat)
    returns (code: nat, cells: seq<DumpCell>)
    requires incr > 0 && end + incr < 0x1_0000_0000
    ensures code == WidthCode(start)
    ensures Walk(cells, fields, start, end, incr)
    ensures start > end ==> cells == []
    ensures start <= end ==> |cells| > 0 && end < cells[|cells| - 1].addr + incr
  {
    code := (start / 0x2000) % 4;
    cells := [];
    var addr := start;
    var j := 0;
    while addr <= end
      invariant j == |cells| && start <= addr
      invariant start > end ==> j == 0
      invariant j > 0 ==> cells[j - 1].addr + incr == addr
      invariant j == 0 ==> addr == start
      invariant Walk(cells, fields, start, end, incr)
      decreases end + incr - addr
    {
      cells := cells + [DumpCell(addr, j % 4 == 0, Lookup(fields, addr))];
      addr := addr + incr;
      j := j + 1;
    }
  }

  /** The cell k of a walk is at start + k * incr. */
  lemma {:induction false} WalkAddress(cells: seq<DumpCell>, fields: map<nat, bv64>, start: nat, end: nat,
                                       incr: nat, k: nat)
    requires Walk(cells, fields, start, end, incr) && k < |cells|
    ensures cells[k].addr == start + k * incr
  {
    if k > 0 {
      WalkAddress(cells, fields, start, end, incr, k - 1);
    }
  }

  /** A section walk that stops past `end` prints (end - start) / incr + 1 fields. */
  lemma SectionLength(cells: seq<DumpCell>, fields: map<nat, bv64>, start: nat, end: nat, incr: nat)
    requires incr > 0 && start <= end
    requires Walk(cells, fields, start, end, incr)
    requires |cells| > 0 && end < cells[|cells| - 1].addr + incr
    ensures |cells| == (end - start) / incr + 1
  {
    var j := |cells|;
    WalkAddress(cells, fields, start, end, incr, j - 1);
    assert (j - 1) * incr + incr == j * incr;
    CountSteps(start, end, incr, j);
  }

  /** The number of steps a counting loop from `start` past `end` takes. */
  lemma CountSteps(start: nat, end: nat, incr: nat, j: nat)
    requires incr > 0 && start <= end
    requires end < start + j * incr && (j == 0 || (j - 1) * incr <= end - start)
    ensures j == (end - start) / incr + 1
  {
    var q := (end - start) / incr;
    var r := (end - start) % incr;
    assert end - start == q * incr + r && 0 <= r < incr;
    if j <= q {
      assert j * incr <= q * incr by { MulMono(j, q, incr); }
    } else if j >= q + 2 {
      assert (q + 1) * incr <= (j - 1) * incr by { MulMono(q + 1, j - 1, incr); }
    }
  }

  lemma MulMono(a: nat, b: nat, c: nat)
    requires a <= b
    ensures a * c <= b * c
  {
  }

  /** A section of vmcs_dump_vcpu: its header text and its encoding range. */
  datatype Section = Section(header: string, start: nat, end: nat, incr: nat)

  /**
   * The field width a header names by its first word, as a width code:
   * "Natural", or 16, 64 or 32 followed by "-bit".
   */
  function HeaderWidth(header: string): (code: Option<nat>)
    ensures code.Some? ==> code.value < 4
  {
    if |header| < 7 then None
    else if header[0] == 'N' then Some(3)
    else if header[2] != '-' then None
    else if header[0] == '1' && header[1] == '6' then Some(0)
    else if header[0] == '6' && header[1] == '4' then Some(1)
    else if header[0] == '3' && header[1] == '2' then Some(2)
    else None
  }

  /** The hex digits print_section prints a value with, per width code. */
  function CellDigits(code: nat): nat
    requires code < 4
  {
    if code == 0 then 4 else if code == 2 then 8 else 16
  }

  /** The twelve sections vmcs_dump_vcpu prints. */
  function DumpSections(): seq<Section>
  {
    [Section("16-bit Guest-State Fields", 0x800, 0x80e, 2),
     Section("16-bit Host-State Fields", 0xc00, 0xc0c, 2),
     Section("64-bit Control Fields", 0x2000, 0x2013, 1),
     Section("64-bit Guest-State Fields", 0x2800, 0x2803, 1),
     Section("32-bit Control Fields", 0x4000, 0x401c, 2),
     Section("32-bit RO Data Fields", 0x4400, 0x440e, 2),
     Section("32-bit Guest-State Fields", 0x4800, 0x482a, 2),
     Section("32-bit Host-State Fields", 0x4c00, 0x4c00, 2),
     Section("Natural 64-bit Control Fields", 0x6000, 0x600e, 2),
     Section("64-bit RO Data Fields", 0x6400, 0x640a, 2),
     Section("Natural 64-bit Guest-State Fields", 0x6800, 0x6826, 2),
     Section("Natural 64-bit Host-State Fields", 0x6c00, 0x6c16, 2)]
  }

  /**
   * Every header names a width.  The width print_section takes from the
   * start field agrees with the header's except for the read-only
   * natural-width data section, whose header says 64-bit; both widths print
   * sixteen hex digits, so every section prints in the width its header
   * names.  Every range is non-empty with a positive step.
   */
  lemma DumpSectionWidths(i: nat)
    requires i < |DumpSections()|
    ensures var sec := DumpSections()[i];
      HeaderWidth(sec.header).Some? && sec.incr > 0 && sec.start <= sec.end < 0x8000 &&
      CellDigits(WidthCode(sec.start)) == CellDigits(HeaderWidth(sec.header).value) &&
      (i != 9 <==> WidthCode(sec.start) == HeaderWidth(sec.header).value)
  {
  }
}
