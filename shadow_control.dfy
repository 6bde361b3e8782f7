/**
 * Merging the execution controls the L1 hypervisor asked for (read from the
 * virtual VMCS) with the controls L0 needs, to obtain the controls of the
 * shadow VMCS that runs the L2 guest.  The merge is "strict": the L2 guest
 * exits whenever either hypervisor wants it to.
 */
module ShadowControl {
  import opened VvmcsCodec
  import opened Wrappers

  /** Field encodings (Intel SDM Vol. 3C, Appendix B). */
  const IoBitmapA: bv32 := 0x2000
  const IoBitmapAHigh: bv32 := 0x2001
  const IoBitmapB: bv32 := 0x2002
  const IoBitmapBHigh: bv32 := 0x2003
  const ExecControl: bv32 := 0x4002
  const ExceptionBitmap: bv32 := 0x4004
  const SecondaryExecControl: bv32 := 0x401e

  /** Primary processor-based execution controls. */
  const TprShadow: bv32 := 0x0020_0000
  const UncondIoExiting: bv32 := 0x0100_0000
  const ActivateIoBitmap: bv32 := 0x0200_0000
  const ActivateMsrBitmap: bv32 := 0x1000_0000
  const ActivateSecondary: bv32 := 0x8000_0000

  /** The two I/O-exiting controls. */
  const PioBits: bv32 := 0x0300_0000
  /** Controls L0 never passes through from L1: TPR shadow, MSR bitmap, secondary controls and both I/O controls. */
  const RemovedBits: bv32 := 0x9320_0000
  /** Controls L0 takes only from its own setting, whatever the I/O case. */
  const HostOnlyBits: bv32 := 0x9020_0000

  const PageSize: nat := 4096

  /** The low 32 bits of a 64-bit value, as a C cast to u32 keeps them. */
  function Lo32(x: bv64): (r: bv32)
    ensures r as bv64 == x & Low32
  {
    (x & Low32) as bv32
  }

  /** __n2_exec_control: the primary controls L1 wrote into the virtual VMCS. */
  function N2ExecControl(vvmcs: seq<bv64>): bv32
    requires |vvmcs| == VvmcsSlots
  {
    Lo32(GetVvmcs(vvmcs, ExecControl))
  }

  /**
   * __shadow_control: L1's value of a control field (the low 32 bits of its
   * virtual-VMCS value) ORed with L0's, so a control set by either is set.
   */
  function MergeControl(nested: bv64, host: bv32): (r: bv32)
    ensures r & host == host
    ensures r & !host == Lo32(nested) & !host
  {
    Lo32(nested) | host
  }

  /**
   * An I/O port's bit in an I/O bitmap (Intel SDM Vol. 3C, section 24.6.4):
   * bit port % 8 of byte port / 8.
   */
  predicate PortIntercepted(bitmap: seq<bv8>, port: nat)
    requires port / 8 < |bitmap|
  {
    bitmap[port / 8] & ((1 as bv8) << (port % 8)) != 0
  }

  /** The I/O bitmap pages the shadow VMCS may point at. */
  datatype IoBitmapChoice =
    | HostIoBitmap
    | SharedIoBitmap(port80: bool, portED: bool)

  /**
   * _shadow_io_bitmap: the shared bitmap pair chosen by whether L1 intercepts
   * ports 0x80 and 0xED in its bitmap A.
   */
  function ShadowIoBitmap(bitmapA: seq<bv8>): (c: IoBitmapChoice)
    requires |bitmapA| == PageSize
    ensures c == SharedIoBitmap(PortIntercepted(bitmapA, 0x80), PortIntercepted(bitmapA, 0xed))
  {
    SharedIoBitmap(bitmapA[0x10] & 0x01 != 0, bitmapA[0x1d] & 0x20 != 0)
  }

  /** The I/O case L1 selected: which of the two I/O controls it set. */
  function PioControl(nested: bv32): (p: bv32)
    ensures p & !PioBits == 0
  {
    nested & PioBits
  }

  /** True when L1's bitmap A must be consulted. */
  predicate NeedsL1Bitmap(nested: bv32)
  {
    PioControl(nested) != 0 && PioControl(nested) != UncondIoExiting
  }

  /**
   * The control word nvmx_update_exec_control writes into the shadow VMCS:
   * L1's controls without the removed ones, ORed with L0's; when L1 asked
   * for unconditional I/O exiting alone, that control is forced on and
   * I/O-bitmap activation off.
   */
  function ExecControlFor(nested: bv32, host: bv32): (c: bv32)
    ensures c & HostOnlyBits == host & HostOnlyBits
    ensures c & !RemovedBits == (nested | host) & !RemovedBits
  {
    var shadow := (nested & !RemovedBits) | host;
    if nested & PioBits == UncondIoExiting then (shadow | UncondIoExiting) & !ActivateIoBitmap
    else shadow
  }

  /**
   * The I/O bitmap nvmx_update_exec_control installs: none when L1
   * intercepts all I/O, L0's own bitmap when L1 intercepts none, otherwise
   * the shared bitmap chosen from L1's bitmap A.  `bitmapA` is L1's bitmap
   * A as currently mapped; it is read only in the last case.
   */
  function IoBitmapFor(nested: bv32, bitmapA: Option<seq<bv8>>): (b: Option<IoBitmapChoice>)
    requires NeedsL1Bitmap(nested) ==> bitmapA.Some? && |bitmapA.value| == PageSize
    ensures b == None <==> PioControl(nested) == UncondIoExiting
    ensures PioControl(nested) == 0 ==> b == Some(HostIoBitmap)
    ensures NeedsL1Bitmap(nested) ==> b == Some(ShadowIoBitmap(bitmapA.value))
  {
    var pio := nested & PioBits;
    if pio == UncondIoExiting then None
    else if pio == 0 then Some(HostIoBitmap)
    else Some(ShadowIoBitmap(bitmapA.value))
  }

  /**
   * When L1 asked for unconditional I/O exiting without I/O bitmaps, the
   * shadow controls exit on every I/O instruction and do not use bitmaps,
   * whatever L0 asked for; every other control of L0 is kept.
   */
  lemma UnconditionalIoCase(nested: bv32, host: bv32)
    requires PioControl(nested) == UncondIoExiting
    ensures ExecControlFor(nested, host) & PioBits == UncondIoExiting
    ensures ExecControlFor(nested, host) & host == host & !ActivateIoBitmap
  {
  }

  /**
   * Otherwise the shadow I/O controls are exactly L0's: I/O-bitmap
   * activation is present only if L0 supplies it, and every control of L0
   * is kept.
   */
  lemma BitmapCase(nested: bv32, host: bv32)
    requires PioControl(nested) != UncondIoExiting
    ensures ExecControlFor(nested, host) & PioBits == host & PioBits
    ensures ExecControlFor(nested, host) & host == host
  {
  }

  /** Strictness: every exit condition L1 asked for outside the removed controls survives. */
  lemma MergeKeepsNestedRequests(nested: bv32, host: bv32)
    ensures ExecControlFor(nested, host) & (nested & !RemovedBits) == nested & !RemovedBits
  {
  }
}
