# Nested VMX, VMCS lifecycle and the netif backend registry, in Dafny

This project models three parts of Xen and its paravirtualised Linux.

1. **Nested VMX emulation** (`xen/arch/x86/hvm/vmx/vvmx.c`). An L1 guest hypervisor runs VMX instructions, and L0 emulates them.
   - `vvmcs_codec.dfy`: the field codec of the one-page virtual VMCS. It maps a field encoding to a 64-bit slot and applies the field's width rules on every read and write.
   - `vmx_inst.dfy`: the VM-instruction result flags. It also covers general-purpose register access, the privilege check and operand decoding.
   - `shadow_control.dfy`: the "strict" merge of L1's execution controls with L0's. When L1 exits on I/O through a bitmap, it also picks which shared I/O bitmap to use.
   - `nested_vmx.dfy`: the per-vCPU nested state as a class. It holds the VMXON region, the current virtual VMCS and its mapped I/O bitmaps. Its methods are the VMXON, VMXOFF, VMPTRLD, VMPTRST, VMCLEAR, VMREAD, VMWRITE, VMLAUNCH and VMRESUME handlers. It also has the shadow-control updates and two multi-instruction scenarios.
2. **Physical VMCS management** (`xen/arch/x86/hvm/vmx/vmcs.c`), in `vmcs.dfy`.
   - The VMCS size configuration and allocation.
   - Which CPU a vCPU's VMCS is loaded on, and whether it has been launched: clear, load, enter, exit, create, destroy and resume.
   - VMCS construction as staged writes that stop at the first failure.
   - The section-by-section dump walk.
3. **Network backend interface registry** (`xenolinux-2.4.26-sparse/arch/xen/drivers/netif/backend/interface.c`), in `netif.dfy`.
   - A table of 1024 hash chains of interfaces keyed by (domain id, handle).
   - Create, destroy, connect and disconnect.
   - The deferred disconnect completion, which moves an interface DISCONNECTED → CONNECTED → DISCONNECTING → DISCONNECTED.

`wrappers.dfy` holds the `Option` type.

Field encodings and bit positions follow Intel SDM Vol. 3C, Appendix B ("Field Encoding in VMCS") and chapter 24, "Virtual-Machine Control Structures".

Several things are parameters of the methods because the model does not perform them:
- guest-memory copies (their outcome and the loaded value);
- page mappings of guest frames (maps from frame number to the mapped page);
- the VMX instruction-information and exit-qualification reads;
- `__vmwrite` statuses;
- kernel allocations and device-registration outcomes;
- page-remapping errors.

Notes on the code as written, which the model follows:
- `vvmcs_offset` moves offset 0 to slot 0x3f. Offset 0 is the triple (width 16, type 0, index 0), so that field shares slot 0x3f with (width 16, type 1, index 31). `VvmcsCodec.OffsetInjective` states exactly this collision.
- A 16-bit or 32-bit `__set_vvmcs` replaces the whole slot with the truncated value; it does not keep the slot's upper bits. Only a write to the high half of a 64-bit field keeps the other half.
- `nvmx_purge_vvmcs` compares the virtual-VMCS pointer with NULL (`==`) instead of assigning it. So after a purge the pointer still names the old page while the address is back to "none". `NestedVmx.NestedVcpu.Purge` keeps `vvmcx` unchanged.
- `nvmx_handle_vmlaunch` marks the virtual VMCS launched whenever `nvmx_vmresume` returns OKAY, including when that call only reported VMfailInvalid.
- `vmcs_dump_vcpu` heads the section starting at 0x6400 "64-bit RO Data Fields", but its fields are natural-width. `print_section` takes the width from the start field, and natural and 64-bit values both print as sixteen hex digits, so the dump is unaffected (`Vmcs.DumpSectionWidths`).
- VMREAD, VMWRITE, VMLAUNCH and VMRESUME use the virtual-VMCS page pointer without checking that a VMCS is current. The model makes the mapped page a precondition of those handlers (`vvmcx != null`). So it does not say what happens when they run before any VMPTRLD. In particular, VMLAUNCH or VMRESUME before a VMPTRLD does not fail invalid up front in the source.
- The Xen side is modelled for an x86_64 build: registers R8 to R15 exist (`VmxInst.RegRead`, `VmxInst.UserRegs.RegWrite`), the control stage leaves out the `CONFIG_X86_PAE` writes of the I/O-bitmap high words, and the host and guest stages are inputs, so their `__x86_64__` branches are not told apart.
- `netif_connect` ORs the two remapping results before classifying them. When the two mappings fail with different errors, the reported status is ERROR (`Netif.BothRemapsFailing`).

## Model

| member | source | states |
|---|---|---|
| VvmcsCodec.AccessType | xen/arch/x86/hvm/vmx/vvmx.c:145-147 | the access-type bit of an encoding is 0 or 1 |
| VvmcsCodec.FieldIndex | xen/arch/x86/hvm/vmx/vvmx.c:145-147 | the index field of an encoding is below 512 |
| VvmcsCodec.FieldType | xen/arch/x86/hvm/vmx/vvmx.c:145-147 | the type field of an encoding is one of 4 values |
| VvmcsCodec.FieldWidth | xen/arch/x86/hvm/vmx/vvmx.c:145-147 | the width field of an encoding is one of 4 values |
| VvmcsCodec.VvmcsOffset | xen/arch/x86/hvm/vmx/vvmx.c:128-138 | every slot lies strictly inside the 512-slot page (slot 0 is never used); slot 0x3f can be produced only by a 16-bit field of type 0 or 1 |
| VvmcsCodec.SlotOf | xen/arch/x86/hvm/vmx/vvmx.c:146-148 | every encoding is stored in a slot 1..511 of the page |
| VvmcsCodec.OffsetInjective | xen/arch/x86/hvm/vmx/vvmx.c:128-138 | two different (width, type, index mod 32) triples share a slot if and only if they are the zero triple and (16-bit, type 1, index 31) |
| VvmcsCodec.ReadSlot | xen/arch/x86/hvm/vmx/vvmx.c:150-167 | a 16-bit read yields at most 0xffff; a 32-bit read or a high-half read yields at most 32 bits; a natural-width or full 64-bit read yields the slot unchanged |
| VvmcsCodec.GetVvmcs | xen/arch/x86/hvm/vmx/vvmx.c:140-168 | a 16-bit read yields at most 16 bits, a 32-bit or high-half read at most 32 bits, and a full read of a 64-bit or natural-width field the whole of that field's slot |
| VvmcsCodec.WriteSlot | xen/arch/x86/hvm/vmx/vvmx.c:179-203 | reading back with the same encoding gives the written value truncated to the field's width; a high-half write keeps the slot's low 32 bits |
| VvmcsCodec.SetVvmcsSpec | xen/arch/x86/hvm/vmx/vvmx.c:170-204 | after a write, reading the field gives the truncated value; every other slot is unchanged; a high-half write keeps the low half of its slot |
| VvmcsCodec.SetVvmcs | xen/arch/x86/hvm/vmx/vvmx.c:170-204 | the in-place write of the page array leaves exactly the contents SetVvmcsSpec describes |
| VvmcsCodec.Partner | xen/arch/x86/hvm/vmx/vvmx.c:146-148 | the full and high encodings of a 64-bit field share one slot and differ in access type |
| VvmcsCodec.HighWriteThenFullRead | xen/arch/x86/hvm/vmx/vvmx.c:150-190 | after writing the high half of a 64-bit field, a full read gives the old low half and the written value's low 32 bits as its high half |
| VvmcsCodec.FullWriteThenHighRead | xen/arch/x86/hvm/vmx/vvmx.c:150-192 | after a full 64-bit write, reading the high half gives the value's upper 32 bits |
| VvmcsCodec.WritesToDistinctSlotsCommute | xen/arch/x86/hvm/vmx/vvmx.c:170-204 | writes to fields in different slots commute |
| VmxInst.StatusBits | xen/arch/x86/hvm/vmx/vvmx.c:380-391 | the flags an outcome sets lie within CF/PF/AF/ZF/SF/OF, and none are set exactly for success |
| VmxInst.VmReturn | xen/arch/x86/hvm/vmx/vvmx.c:372-394 | every flag outside the six status flags is kept; the status flags become exactly those of the outcome |
| VmxInst.VmReturnDecodes | xen/arch/x86/hvm/vmx/vvmx.c:372-394 | the outcome can be read back from the flags vmreturn leaves (success, VMfailValid via ZF, VMfailInvalid via CF) |
| VmxInst.RegRead | xen/arch/x86/hvm/vmx/vvmx.c:206-235 | the sixteen register indices read their register; any other index reads 0 |
| VmxInst.UserRegs.RegWrite | xen/arch/x86/hvm/vmx/vvmx.c:237-263 | the written register then reads the value, an out-of-range index writes nothing, and every other register and the flags are unchanged |
| VmxInst.UserRegs.VmReturnTo | xen/arch/x86/hvm/vmx/vvmx.c:372-394 | the flags register becomes VmReturn of its old value; the registers are unchanged |
| VmxInst.CheckPrivilege | xen/arch/x86/hvm/vmx/vvmx.c:272-307 | no fault if and only if the mode check passes (CR0.PE and CR4.VMXE for VMXON, otherwise a VMXON region), not virtual-8086, not compatibility mode, and CPL 0; a failed mode check, virtual-8086 and compatibility mode give #UD; #GP exactly when those checks pass and CPL > 0 |
| VmxInst.OperandSize | xen/arch/x86/hvm/vmx/vvmx.c:348 | a memory operand is 2, 4 or 8 bytes |
| VmxInst.Merge | xen/arch/x86/hvm/vmx/vvmx.c:355-358 | a copy of `size` bytes replaces exactly the low `size` bytes of the operand and keeps the rest |
| VmxInst.DecodeMemory | xen/arch/x86/hvm/vmx/vvmx.c:330-361 | success exactly when the segment number is at most 5, the offset is within the limit (or long mode and not GS) and a wanted operand is copied, giving the linear address and the length; other segment or limit failures are #GP; a failed operand copy is reported apart from #GP |
| VmxInst.Decode | xen/arch/x86/hvm/vmx/vvmx.c:309-370 | a privilege fault is returned as is; success implies the privilege check passed; reg2 is always the instruction's; a register operand reads that register; a memory operand is decoded as DecodeMemory says |
| VmxInst.RegisterOperandDecodes | xen/arch/x86/hvm/vmx/vvmx.c:324-329 | a register-form instruction that passes the privilege check always decodes |
| ShadowControl.Lo32 | xen/arch/x86/hvm/vmx/vvmx.c:265-270 | the u32 cast keeps exactly the low 32 bits |
| ShadowControl.MergeControl | xen/arch/x86/hvm/vmx/vvmx.c:400-407 | every control L0 sets is set in the result, and outside L0's controls the result is L1's value |
| ShadowControl.ShadowIoBitmap | xen/arch/x86/hvm/vmx/vvmx.c:416-427 | the shared bitmap pair is selected by whether ports 0x80 and 0xED are intercepted in L1's bitmap A |
| ShadowControl.PioControl | xen/arch/x86/hvm/vmx/vvmx.c:436 | the I/O case holds only the two I/O-exiting controls |
| ShadowControl.ExecControlFor | xen/arch/x86/hvm/vmx/vvmx.c:429-448 | the TPR-shadow, MSR-bitmap and secondary controls come from L0 alone; every other control outside the I/O pair is L1's OR L0's |
| ShadowControl.IoBitmapFor | xen/arch/x86/hvm/vmx/vvmx.c:436-467 | no bitmap exactly when L1 asked for unconditional I/O exiting alone; L0's own bitmap when L1 asked for neither; otherwise the shared bitmap chosen from L1's bitmap A |
| ShadowControl.UnconditionalIoCase | xen/arch/x86/hvm/vmx/vvmx.c:438-445 | in the unconditional case the shadow exits on every I/O instruction without bitmaps and keeps every other control of L0 |
| ShadowControl.BitmapCase | xen/arch/x86/hvm/vmx/vvmx.c:429-468 | otherwise the shadow's I/O controls are exactly L0's, and every control of L0 is kept |
| ShadowControl.MergeKeepsNestedRequests | xen/arch/x86/hvm/vmx/vvmx.c:396-448 | strictness: every exit condition L1 asked for, outside the controls L0 reserves, is set in the shadow |
| NestedVmx.ExecControlFieldsWrites | xen/arch/x86/hvm/vmx/vvmx.c:429-468 | the control word written is ExecControlFor; in the unconditional case nothing else is written; otherwise bitmaps A and B are the chosen page and the page after it |
| NestedVmx.NestedVcpu.constructor | xen/arch/x86/hvm/vmx/vvmx.c:32-53 | a fresh nested state: no VMXON region, no current virtual VMCS, no mapped bitmaps |
| NestedVmx.NestedVcpu.Initialise | xen/arch/x86/hvm/vmx/vvmx.c:32-53 | a failed shadow-VMCS allocation returns -ENOMEM and leaves no shadow VMCS, with every other field as it was; otherwise the state is reset and a shadow VMCS exists |
| NestedVmx.NestedVcpu.Purge | xen/arch/x86/hvm/vmx/vvmx.c:508-525 | the current address becomes "none" and both bitmap mappings are dropped; the page pointer and everything else are unchanged |
| NestedVmx.NestedVcpu.Destroy | xen/arch/x86/hvm/vmx/vvmx.c:55-65 | a purge, then the shadow VMCS is released; the VMXON region, the page pointer, the L1 VMCS, the pending entry and the pending interrupt are unchanged |
| NestedVmx.NestedVcpu.MapIoBitmap | xen/arch/x86/hvm/vmx/vvmx.c:489-500 | the bitmap slot for the field (A is 0, any other field 1) becomes the read-only mapping of the frame the virtual VMCS names; nothing else changes |
| NestedVmx.NestedVcpu.MapIoBitmapAll | xen/arch/x86/hvm/vmx/vvmx.c:502-506 | both bitmap slots are the mappings of the frames named by the virtual VMCS's bitmap A and B fields; the L1 VMCS, the shadow VMCS page and the pending interrupt are unchanged |
| NestedVmx.NestedVcpu.Vmxon | xen/arch/x86/hvm/vmx/vvmx.c:531-563 | on a successful decode the VMXON region is the operand, the L1 VMCS is recorded, the vCPU is not launched and the result is VMsucceed, with the shadow VMCS page, the pending interrupt and the vCPU's own VMCS, CPU and I/O bitmaps unchanged; on a failed decode nothing changes |
| NestedVmx.NestedVcpu.Vmxoff | xen/arch/x86/hvm/vmx/vvmx.c:565-580 | when privileged, purge, clear the VMXON region and report VMsucceed; the L1 VMCS, the shadow VMCS page and the pending interrupt are unchanged; otherwise nothing changes |
| NestedVmx.NestedVcpu.LoadPointer | xen/arch/x86/hvm/vmx/vvmx.c:650-666 | the VMXON region or a misaligned address gives VMfailInvalid with no change; the current address gives VMsucceed with no change; a new address purges, maps the page and both bitmaps, and gives VMsucceed; the L1 VMCS, the shadow VMCS page and the pending interrupt are unchanged |
| NestedVmx.NestedVcpu.Vmptrld | xen/arch/x86/hvm/vmx/vvmx.c:638-670 | a decode failure changes nothing; otherwise LoadPointer's outcome on the decoded address: VMfailInvalid with no change, or VMsucceed with the address current and, for a new address, its page mapped and both bitmaps remapped from it; the L1 VMCS, the shadow VMCS page and the pending interrupt are unchanged |
| NestedVmx.NestedVcpu.Vmptrst | xen/arch/x86/hvm/vmx/vvmx.c:672-692 | on success the current address is stored at the decoded memory operand and the result is VMsucceed; a failed decode or store raises an exception with no change |
| NestedVmx.NestedVcpu.ClearPointer | xen/arch/x86/hvm/vmx/vvmx.c:708-727 | misaligned gives VMfailInvalid; a different address while one is current gives VMsucceed and no change; otherwise the launch state is cleared (when a VMCS is current), the state is purged and VMsucceed is reported; the L1 VMCS, the shadow VMCS page and the pending interrupt are unchanged |
| NestedVmx.NestedVcpu.Vmclear | xen/arch/x86/hvm/vmx/vvmx.c:694-728 | a decode failure changes nothing; otherwise ClearPointer's outcome on the decoded address, with the virtual VMCS page unchanged unless its launch state is cleared; the L1 VMCS, the shadow VMCS page and the pending interrupt are unchanged |
| NestedVmx.NestedVcpu.Vmread | xen/arch/x86/hvm/vmx/vvmx.c:730-757 | the field named by reg2 is read through the codec and goes to the destination register (other registers unchanged) or is stored to memory; VMsucceed; decode or store failure raises an exception with no change |
| NestedVmx.NestedVcpu.Vmwrite | xen/arch/x86/hvm/vmx/vvmx.c:759-782 | the operand is written through the codec to the field named by reg2; writing either half of bitmap A or B remaps that bitmap; VMsucceed; the L1 VMCS, the shadow VMCS page and the pending interrupt are unchanged; a decode failure changes nothing |
| NestedVmx.NestedVcpu.NvmxVmresume | xen/arch/x86/hvm/vmx/vvmx.c:582-601 | unprivileged: exception, no change; with a current VMCS and either both bitmaps mapped or bitmap activation off, a VM entry is pending; otherwise VMfailInvalid; the L1 VMCS, the shadow VMCS page and the pending interrupt are unchanged |
| NestedVmx.NestedVcpu.HandleVmresume | xen/arch/x86/hvm/vmx/vvmx.c:603-615 | a never-launched virtual VMCS gives VMfailValid and an exception; otherwise NvmxVmresume's outcome; the VMXON region L1 VMCS, the shadow VMCS page and the pending interrupt are unchanged |
| NestedVmx.NestedVcpu.HandleVmlaunch | xen/arch/x86/hvm/vmx/vvmx.c:617-636 | an already-launched VMCS gives VMfailValid and an exception; otherwise NvmxVmresume's outcome, and on OKAY the launch state becomes 1; the VMXON region L1 VMCS, the shadow VMCS page and the pending interrupt are unchanged |
| NestedVmx.NestedVcpu.UpdateExecControl | xen/arch/x86/hvm/vmx/vvmx.c:429-468 | the shadow VMCS's fields become ExecControlFields of L1's controls, L0's controls and L1's mapped bitmap A |
| NestedVmx.NestedVcpu.SetShadowControl | xen/arch/x86/hvm/vmx/vvmx.c:409-414 | exactly the given field of the shadow VMCS becomes L1's value ORed with L0's |
| NestedVmx.NestedVcpu.UpdateSecondaryExecControl | xen/arch/x86/hvm/vmx/vvmx.c:470-474 | the secondary controls become the strict merge of L1's and L0's |
| NestedVmx.NestedVcpu.UpdateExceptionBitmap | xen/arch/x86/hvm/vmx/vvmx.c:476-479 | the exception bitmap becomes the strict merge of L1's and L0's |
| NestedVmx.NestedVcpu.LoadThenStore | xen/arch/x86/hvm/vmx/vvmx.c:638-692 | VMPTRLD of a valid address followed by a successful VMPTRST stores that same address |
| NestedVmx.NestedVcpu.LaunchTwice | xen/arch/x86/hvm/vmx/vvmx.c:617-636 | after a VMLAUNCH that returns OKAY, a second VMLAUNCH fails with VMfailValid and an exception |
| NestedVmx.LaunchStateRoundTrip | xen/arch/x86/hvm/vmx/vvmx.c:608-633 | after writing the launch state, the vCPU reads as launched exactly when the written value's low 32 bits are nonzero |
| NestedVmx.LaunchStateKeepsControls | xen/arch/x86/hvm/vmx/vvmx.c:592-633 | writing the launch state leaves the exec controls and both bitmap addresses as they were |
| Vmcs.OrderFromBytes | xen/arch/x86/hvm/vmx/vmcs.c:44-57 | the allocation order is the least order whose pages hold the VMCS size |
| Vmcs.VmcsConfig.constructor | xen/arch/x86/hvm/vmx/vmcs.c:44-57 | an unconfigured size (0) before the first initialisation |
| Vmcs.VmcsConfig.Init | xen/arch/x86/hvm/vmx/vmcs.c:44-57 | the first call takes the revision id from the MSR's low word, the size from bits 12:0 of the high word and the order from the size; later calls change nothing |
| Vmcs.VmcsRegion.constructor | xen/arch/x86/hvm/vmx/vmcs.c:59-73 | a fresh VMCS body of the given length with no fields written |
| Vmcs.AllocVmcs | xen/arch/x86/hvm/vmx/vmcs.c:59-73 | null exactly when allocation fails; otherwise a fresh region of 2^order pages, the configured size zeroed and the revision id set |
| Vmcs.Hardware.Vmptrld | xen/arch/x86/hvm/vmx/vmcs.c:103-107 | the VMCS becomes the CPU's current VMCS |
| Vmcs.Hardware.Vmpclear | xen/arch/x86/hvm/vmx/vmcs.c:80-88 | the VMCS stops being current on that CPU, and nothing else changes |
| Vmcs.Cleared | xen/arch/x86/hvm/vmx/vmcs.c:80-88 | a clear removes exactly the CPU's entry when it names the VMCS |
| Vmcs.Accumulate | xen/arch/x86/hvm/vmx/vmcs.c:155-178 | the ORed error is zero exactly when both parts are zero |
| Vmcs.StageErrorZero | xen/arch/x86/hvm/vmx/vmcs.c:155-178 | a stage reports no error if and only if every checked write in it succeeded |
| Vmcs.ApplyKeepsLastWrite | xen/arch/x86/hvm/vmx/vmcs.c:155-178 | a successful write that is not overwritten later in the stage is in the resulting fields |
| Vmcs.ConstructTrapsDebugIffTrapFlag | xen/arch/x86/hvm/vmx/vmcs.c:470-481 | after a successful construction the exception bitmap intercepts #DB exactly when the guest's TF is set, and its other bits are the monitor's default |
| Vmcs.ConstructErrorIsFirstStageError | xen/arch/x86/hvm/vmx/vmcs.c:447-482 | construction succeeds if and only if every checked write of every stage succeeds; a failing stage is reported with its own error, with the writes of the earlier stages and of that stage done and no later stage run |
| Vmcs.Vmwrite | xen/arch/x86/hvm/vmx/vmcs.c:470-474 | a write with status 0 sets the field; otherwise nothing changes; the status is returned |
| Vmcs.RunStage | xen/arch/x86/hvm/vmx/vmcs.c:155-178 | running a stage's writes returns the stage's error and leaves the fields Apply describes |
| Vmcs.UpdateBitsMasks | xen/arch/x86/hvm/vmx/vmcs.c:476-479 | setting or clearing bits changes exactly the masked bits |
| Vmcs.VmUpdateBits | xen/arch/x86/hvm/vmx/vmcs.c:476-479 | a read-modify-write of one field that succeeds updates only the masked bits of that field |
| Vmcs.ConstructVmcs | xen/arch/x86/hvm/vmx/vmcs.c:447-482 | the in-place construction returns the error and leaves the fields ConstructSpec describes |
| Vmcs.InstallExceptionBitmap | xen/arch/x86/hvm/vmx/vmcs.c:470-481 | the default exception bitmap is written, then its #DB bit is set or cleared by TF, stopping at the first failed write |
| Vmcs.ArchVmx.constructor | xen/arch/x86/hvm/vmx/vmcs.c:484-490 | no VMCS, not active on any CPU, not launched |
| Vmcs.ArchVmx.ClearOn | xen/arch/x86/hvm/vmx/vmcs.c:80-88 | the CPU stops holding the VMCS; the vCPU is inactive and not launched |
| Vmcs.ArchVmx.ClearVmcs | xen/arch/x86/hvm/vmx/vmcs.c:90-101 | an inactive VMCS is left alone; an active one is cleared on its CPU and is no longer launched; when each VMCS was current only on its vCPU's active CPU, afterwards no CPU holds it |
| Vmcs.ArchVmx.LoadVmcs | xen/arch/x86/hvm/vmx/vmcs.c:103-107 | the VMCS becomes current on the calling CPU and the vCPU is active there; affinity holds when it was inactive or already there |
| Vmcs.ArchVmx.VmcsEnter | xen/arch/x86/hvm/vmx/vmcs.c:109-129 | entering the current vCPU changes nothing; another vCPU's VMCS is cleared from its old CPU (dropping "launched") and loaded on this one, and no other CPU's current VMCS changes; the I/O bitmaps are unchanged |
| Vmcs.ArchVmx.VmcsExit | xen/arch/x86/hvm/vmx/vmcs.c:131-143 | another vCPU's VMCS is cleared everywhere (dropping "launched" when it was active), and the current HVM vCPU's own, unchanged VMCS is reloaded on this CPU with its launched flag kept, and no other CPU's current VMCS changes; both vCPUs' I/O bitmaps are unchanged |
| Vmcs.ArchVmx.CreateVmcs | xen/arch/x86/hvm/vmx/vmcs.c:484-490 | allocation failure gives -ENOMEM and no VMCS; otherwise a fresh VMCS with the configured revision, inactive and not launched, and no CPU's current VMCS changes |
| Vmcs.ArchVmx.DestroyVmcs | xen/arch/x86/hvm/vmx/vmcs.c:492-509 | with no VMCS nothing changes; otherwise it is cleared from every CPU, freed, and both I/O bitmaps are dropped; only the CPU it was active on loses it as current VMCS; "launched" is lost only when the VMCS was active |
| Vmcs.ArchVmx.DoResume | xen/arch/x86/hvm/vmx/vmcs.c:527-543 | afterwards the VMCS is current on the calling CPU and the vCPU is active there; "launched" is lost only when it moved from another CPU; apart from that CPU and the calling one, no CPU's current VMCS changes; the I/O bitmaps are unchanged |
| Vmcs.WidthCode | xen/arch/x86/hvm/vmx/vmcs.c:577-578 | a section's width code is one of 4 values |
| Vmcs.Lookup | xen/arch/x86/hvm/vmx/vmcs.c:588-591 | a field reads as present exactly when it is in the VMCS, with its value |
| Vmcs.PrintSection | xen/arch/x86/hvm/vmx/vmcs.c:567-595 | the walk visits start, start+incr, … up to the last address not above end; each cell has a row break every fourth cell and the field's value or "absent" |
| Vmcs.WalkAddress | xen/arch/x86/hvm/vmx/vmcs.c:580-592 | the k-th cell of the walk is at start + k·incr |
| Vmcs.SectionLength | xen/arch/x86/hvm/vmx/vmcs.c:580-592 | a section of a non-empty range has (end − start)/incr + 1 cells |
| Vmcs.DumpSectionWidths | xen/arch/x86/hvm/vmx/vmcs.c:598-612 | every section's header names a width and its range is non-empty with a positive step; the width taken from the start field equals the header's for every section but the read-only natural-width one, whose header says 64-bit, and every section prints as many digits as its header's width |
| Netif.NetifHash | xenolinux-2.4.26-sparse/arch/xen/drivers/netif/backend/interface.c:12-13 | the bucket of a key lies in [0, 1024) |
| Netif.FirstMatch | xenolinux-2.4.26-sparse/arch/xen/drivers/netif/backend/interface.c:22-24 | the first position in a chain holding the key, or the chain's length: no earlier entry matches, and the entry there matches |
| Netif.Registry.constructor | xenolinux-2.4.26-sparse/arch/xen/drivers/netif/backend/interface.c:294-296 | every chain is empty and the table is valid |
| Netif.Registry.FindByHandle | xenolinux-2.4.26-sparse/arch/xen/drivers/netif/backend/interface.c:19-26 | the walk returns the first entry of the key's chain with that domid and handle, and null if and only if the table holds no such entry |
| Netif.Registry.ChainSlot | xenolinux-2.4.26-sparse/arch/xen/drivers/netif/backend/interface.c:103-157 | the pointer-to-pointer walk stops at the first entry with the key, or at the chain's end |
| Netif.Registry.FindIffContains | xenolinux-2.4.26-sparse/arch/xen/drivers/netif/backend/interface.c:19-26 | in a valid table, the lookup succeeds exactly for keys present anywhere in the table, and what it finds is in the table and has the key |
| Netif.Netif.constructor | xenolinux-2.4.26-sparse/arch/xen/drivers/netif/backend/interface.c:89-100 | a new interface is zeroed except for its key, MAC and credit: DISCONNECTED, no references, credit ~0, credit period 0 |
| Netif.DeviceMac | xenolinux-2.4.26-sparse/arch/xen/drivers/netif/backend/interface.c:118-124 | the device MAC differs from the requested one in byte 2 and agrees with it in every other byte |
| Netif.Registry.Create | xenolinux-2.4.26-sparse/arch/xen/drivers/netif/backend/interface.c:72-139 | allocation failure gives OUT_OF_MEMORY; an existing key gives INTERFACE_EXISTS; registration failure gives OUT_OF_MEMORY; the table is unchanged in all three cases; otherwise a fresh interface in its initial state with the flipped MAC is appended at the end of its chain, becomes what the lookup finds, the table stays valid, and the result is OKAY |
| Netif.Registry.Destroy | xenolinux-2.4.26-sparse/arch/xen/drivers/netif/backend/interface.c:141-171 | an absent key gives INTERFACE_NOT_FOUND; an interface that is not DISCONNECTED gives INTERFACE_CONNECTED with no change; otherwise exactly that entry is unlinked with the others in order, the key is gone, the table stays valid, and the result is OKAY |
| Netif.Unlink | xenolinux-2.4.26-sparse/arch/xen/drivers/netif/backend/interface.c:166-167 | unlinking one position removes that entry and keeps the others in order |
| Netif.UnlinkKeepsValid | xenolinux-2.4.26-sparse/arch/xen/drivers/netif/backend/interface.c:141-171 | unlinking the entry with a key keeps every entry in its bucket and every key unique, and leaves no entry with the key |
| Netif.AppendKeepsValid | xenolinux-2.4.26-sparse/arch/xen/drivers/netif/backend/interface.c:103-135 | appending a new key at the end of its own chain keeps every entry in its bucket and every key unique |
| Netif.AppendedIsFound | xenolinux-2.4.26-sparse/arch/xen/drivers/netif/backend/interface.c:134-135 | an entry appended to a chain without its key is the first match of the new chain |
| Netif.UnlinkAppended | xenolinux-2.4.26-sparse/arch/xen/drivers/netif/backend/interface.c:134-167 | unlinking the entry just appended restores the chain |
| Netif.RemapStatus | xenolinux-2.4.26-sparse/arch/xen/drivers/netif/backend/interface.c:216-223 | -ENOMEM gives OUT_OF_MEMORY, -EFAULT gives MAPPING_ERROR, and any other error gives ERROR (each in both directions) |
| Netif.BothRemapsFailing | xenolinux-2.4.26-sparse/arch/xen/drivers/netif/backend/interface.c:208-223 | when one remapping fails with -ENOMEM and the other with -EFAULT, the ORed error is reported as ERROR |
| Netif.ConnectStatus | xenolinux-2.4.26-sparse/arch/xen/drivers/netif/backend/interface.c:201-262 | for a disconnected interface: OKAY exactly with a virtual area and no remapping error; OUT_OF_MEMORY without an area; otherwise the remapping status |
| Netif.Netif.Attach | xenolinux-2.4.26-sparse/arch/xen/drivers/netif/backend/interface.c:228-237 | the interface records its event channel, interrupt and frames, becomes CONNECTED and takes one reference; the MAC and credit are unchanged |
| Netif.Registry.Connect | xenolinux-2.4.26-sparse/arch/xen/drivers/netif/backend/interface.c:173-263 | an absent key gives INTERFACE_NOT_FOUND; an interface that is not DISCONNECTED gives INTERFACE_CONNECTED; otherwise the ConnectStatus; only the found interface may change, only on OKAY, and then it is CONNECTED with its refcount one higher |
| Netif.Netif.BeginDisconnect | xenolinux-2.4.26-sparse/arch/xen/drivers/netif/backend/interface.c:280-289 | the interface becomes DISCONNECTING, keeps the request id and drops one reference; other fields are unchanged |
| Netif.Registry.Disconnect | xenolinux-2.4.26-sparse/arch/xen/drivers/netif/backend/interface.c:265-292 | an absent key returns 1 with INTERFACE_NOT_FOUND; otherwise 0 with no status; a CONNECTED interface becomes DISCONNECTING with the request id and one reference fewer, its event channel, IRQ, MAC, shared frames and credit settings unchanged; any other status is unchanged |
| Netif.Netif.DisconnectComplete | xenolinux-2.4.26-sparse/arch/xen/drivers/netif/backend/interface.c:28-70 | requires DISCONNECTING; the interface becomes DISCONNECTED and the response carries the saved request id, its domid and handle, and OKAY |
| Netif.Registry.Session | xenolinux-2.4.26-sparse/arch/xen/drivers/netif/backend/interface.c:28-292 | connect, disconnect and completion of a disconnected interface, with every service succeeding, report OKAY and 0, echo the request id, and leave the interface DISCONNECTED with its original refcount |
| Netif.Registry.Lifetime | xenolinux-2.4.26-sparse/arch/xen/drivers/netif/backend/interface.c:72-292 | create, a session and destroy of a new key all report OKAY and leave the table as it was |

## Left out

- Concurrency: `vcpu_pause`, spin locks, cross-CPU calls in `vmx_vmcs_enter`/`vmx_vmcs_exit`, and the memory barriers of the netif code. Only the sequential effect on the active CPU, the launched flag and the interface status is modelled.
- The field encoding of the launch state comes from a header that is not part of this model. `NestedVmx.LaunchState` is a placeholder encoding whose slot differs from the exec-control and I/O-bitmap slots, and the launch-state properties are stated for that placeholder.
- The VMX instruction-information bit layout comes from a header that is not part of this model. The model takes its fields already extracted.
- Guest-memory copies (`hvm_copy_from_guest_virt`, `hvm_copy_to_guest_virt`) are outcome parameters, and a store is returned as a `GuestStore` value instead of writing guest memory.
- Guest-frame mappings: read-only bitmap pages are modelled as a snapshot of their contents when mapped, so later guest writes to those pages are not seen. Unmapping and reference counts of mappings are not modelled.
- NestedVmx.NestedVcpu.Vmptrst: requires the memory form of the instruction. The register form reads a register, and the source ignores that case when it copies to `decode.mem`.
- NestedVmx.NestedVcpu.Vmptrld: requires that a new, valid address has a writable mapping, i.e. the guest frame exists. A failed `hvm_map_guest_frame_rw` (NULL) is not modelled.
- NestedVmx.NestedVcpu.Vmxon: the hardware `__vmpclear`/`__vmptrld` of the L1 VMCS and the page copy into the shadow VMCS are not modelled; only the recorded pointers and the launched flag are.
- NestedVmx.NestedVcpu.Destroy and NestedVmx.NestedVcpu.Purge: the hardware clear of the shadow VMCS (`__clear_current_vvmcs`) is not modelled.
- The `__vmwrite` calls in the shadow-control updates are assumed to succeed; they have no error path in the source.
- The nested vCPU accessors `nvmx_vcpu_reset`, `nvmx_vcpu_guestcr3`, `nvmx_vcpu_hostcr3` and `nvmx_vcpu_asid` return constants or are unimplemented in the source; they are not modelled.
- Vmcs: the host-state and guest-state stages of construction are inputs (sequences of field writes) rather than the register values `construct_vmcs_host` and `construct_init_vmcs_guest` compute. `vmx_set_host_env`, `vmx_do_launch` and the launch/resume failure paths are not modelled.
- Vmcs.PrintSection: the console output is modelled as the list of cells printed; the text formatting is not. It requires end + incr below 2^32, so the 32-bit address never wraps; every section of the dump meets this.
- Netif: kernel services (`alloc_netdev`, `register_netdev`, `get_vm_area`, `direct_remap_area_pages`, `bind_evtchn_to_irq`, `request_irq`, `dev_open`/`dev_close`, bridge calls, `ctrl_if_send_response`) are outcome parameters or are not modelled. The bridge set-up in `netif_interface_init` is not modelled.
- Netif.Netif.BeginDisconnect: `netif_put` is defined in a header that is not part of this model. The model only decrements the reference count; it does not trigger the completion when the count reaches zero, so `DisconnectComplete` is a separate step.
- Netif.NetifHash is computed as the 32-bit XOR reduced mod 1024, which equals masking its low ten bits. That equality is not proved in the model.
- Each hash chain is modelled as a sequence of interfaces in chain order, not as `hash_next` pointers. The pointer-to-pointer append and unlink become sequence updates.
