/**
 * Field codec of the virtual VMCS used by nested VMX.
 *
 * A field encoding (Intel SDM Vol. 3C, Appendix B, "Field Encoding in VMCS")
 * packs an access type (bit 0), an index (bits 9:1), a type (bits 11:10) and
 * a width (bits 14:13).  The virtual VMCS is one page of 512 64-bit slots; the
 * codec maps (width, type, index & 0x1f) to a slot and applies the width rules
 * of the field on every read and write.
 */
module VvmcsCodec {

  /** Width codes, bits 14:13 of a field encoding. */
  const Width16: bv32 := 0
  const Width64: bv32 := 1
  const Width32: bv32 := 2
  const WidthNatural: bv32 := 3

  /** Number of 64-bit slots in the one-page virtual VMCS. */
  const VvmcsSlots: nat := 512

  /** The slot the all-zero triple is moved to (the 16-bit VPID field). */
  const VpidSlot: bv32 := 0x3f

  const Low16: bv64 := 0xffff
  const Low32: bv64 := 0xffff_ffff

  function AccessType(enc: bv32): (a: bv32)
    ensures a < 2
  {
    enc & 1
  }

  function FieldIndex(enc: bv32): (i: bv32)
    ensures i < 0x200
  {
    (enc >> 1) & 0x1ff
  }

  function FieldType(enc: bv32): (t: bv32)
    ensures t < 4
  {
    (enc >> 10) & 3
  }

  function FieldWidth(enc: bv32): (w: bv32)
    ensures w < 4
  {
    (enc >> 13) & 3
  }

  /** True when the encoding names the upper half of a 64-bit field. */
  predicate IsHighAccess(enc: bv32)
  {
    FieldWidth(enc) == Width64 && AccessType(enc) == 1
  }

  /**
   * The slot of a (width, type, index) triple: index & 0x1f in bits 4:0, the
   * type in bits 6:5 and the width in bits 8:7; offset 0 is moved to 0x3f.
   */
  function VvmcsOffset(width: bv32, typ: bv32, index: bv32): (r: bv32)
    requires width < 4 && typ < 4
    ensures 0 < r < 512
    ensures r == VpidSlot ==> width == 0 && (typ == 1 || typ == 0)
  {
    var offset := (index & 0x1f) | (typ << 5) | (width << 7);
    if offset == 0 then VpidSlot else offset
  }

  /** The slot a field encoding is stored in. */
  function SlotOf(enc: bv32): (r: nat)
    ensures 0 < r < VvmcsSlots
  {
    var offset := VvmcsOffset(FieldWidth(enc), FieldType(enc), FieldIndex(enc));
    offset as nat
  }

  /**
   * The offset is collision-free on (width, type, index & 0x1f) except that
   * the zero triple shares the VPID slot with (width 0, type 1, index 31).
   */
  lemma OffsetInjective(w1: bv32, t1: bv32, i1: bv32, w2: bv32, t2: bv32, i2: bv32)
    requires w1 < 4 && t1 < 4 && w2 < 4 && t2 < 4
    requires (w1, t1, i1 & 0x1f) != (w2, t2, i2 & 0x1f)
    ensures VvmcsOffset(w1, t1, i1) == VvmcsOffset(w2, t2, i2) <==>
      ({(w1, t1, i1 & 0x1f), (w2, t2, i2 & 0x1f)} == {(0, 0, 0), (0, 1, 31)})
  {
  }

  /** The value a read with the given encoding yields from a slot value. */
  function ReadSlot(slot: bv64, enc: bv32): (r: bv64)
    ensures FieldWidth(enc) == Width16 ==> r <= Low16
    ensures FieldWidth(enc) == Width32 || IsHighAccess(enc) ==> r <= Low32
    ensures FieldWidth(enc) == WidthNatural || (FieldWidth(enc) == Width64 && !IsHighAccess(enc)) ==> r == slot
  {
    var w := FieldWidth(enc);
    if w == Width16 then slot & Low16
    else if w == Width64 then (if AccessType(enc) == 1 then slot >> 32 else slot)
    else if w == Width32 then slot & Low32
    else slot
  }

  /**
   * __get_vvmcs: read the field named by the encoding.  A 16-bit read
   * yields at most 16 bits, a 32-bit or high-half read at most 32, and a
   * full read of a 64-bit or natural-width field the whole slot.
   */
  function GetVvmcs(content: seq<bv64>, enc: bv32): (r: bv64)
    requires |content| == VvmcsSlots
    ensures FieldWidth(enc) == Width16 ==> r <= Low16
    ensures FieldWidth(enc) == Width32 || IsHighAccess(enc) ==> r <= Low32
    ensures FieldWidth(enc) == WidthNatural || (FieldWidth(enc) == Width64 && !IsHighAccess(enc)) ==>
      r == content[SlotOf(enc)]
  {
    ReadSlot(content[SlotOf(enc)], enc)
  }

  /**
   * The new slot value after a write: 16- and 32-bit writes replace the
   * whole slot with the masked value, a high write keeps the low 32 bits of
   * the slot, every other write stores the value unchanged.
   */
  function WriteSlot(slot: bv64, enc: bv32, val: bv64): (r: bv64)
    ensures ReadSlot(r, enc) == Truncated(enc, val)
    ensures IsHighAccess(enc) ==> r & Low32 == slot & Low32
  {
    var w := FieldWidth(enc);
    if w == Width16 then val & Low16
    else if w == Width64 then (if AccessType(enc) == 1 then (slot & Low32) | (val << 32) else val)
    else if w == Width32 then val & Low32
    else val
  }

  /** What a read returns after a write of val: val cut to the field's width. */
  function Truncated(enc: bv32, val: bv64): bv64
  {
    var w := FieldWidth(enc);
    if w == Width16 then val & Low16
    else if w == Width32 || IsHighAccess(enc) then val & Low32
    else val
  }

  /** The virtual VMCS after __set_vvmcs: one slot changes. */
  function SetVvmcsSpec(content: seq<bv64>, enc: bv32, val: bv64): (r: seq<bv64>)
    requires |content| == VvmcsSlots
    ensures |r| == VvmcsSlots
    ensures GetVvmcs(r, enc) == Truncated(enc, val)
    ensures forall i :: 0 <= i < VvmcsSlots && i != SlotOf(enc) ==> r[i] == content[i]
    ensures IsHighAccess(enc) ==> r[SlotOf(enc)] & Low32 == content[SlotOf(enc)] & Low32
  {
    var k := SlotOf(enc);
    content[k := WriteSlot(content[k], enc, val)]
  }

  /** __set_vvmcs: write the field named by the encoding in place. */
  method SetVvmcs(vvmcs: array<bv64>, enc: bv32, val: bv64)
    requires vvmcs.Length == VvmcsSlots
    modifies vvmcs
    ensures vvmcs[..] == SetVvmcsSpec(old(vvmcs[..]), enc, val)
  {
    var offset := SlotOf(enc);
    var res := vvmcs[offset];
    var w := FieldWidth(enc);
    if w == Width16 {
      res := val & Low16;
    } else if w == Width64 {
      if AccessType(enc) == 1 {
        res := res & Low32;
        res := res | (val << 32);
      } else {
        res := val;
      }
    } else if w == Width32 {
      res := val & Low32;
    } else {
      res := val;
    }
    vvmcs[offset] := res;
  }

  /** The encoding that differs only in the access-type bit. */
  function Partner(enc: bv32): (p: bv32)
    ensures SlotOf(p) == SlotOf(enc)
    ensures AccessType(p) != AccessType(enc)
  {
    enc ^ 1
  }

  /**
   * Split access of a 64-bit field: writing the high half leaves what a full
   * read returns in its low 32 bits unchanged, and the full read sees the
   * written value in its high 32 bits.
   */
  lemma HighWriteThenFullRead(content: seq<bv64>, enc: bv32, val: bv64)
    requires |content| == VvmcsSlots
    requires IsHighAccess(enc)
    ensures GetVvmcs(SetVvmcsSpec(content, enc, val), Partner(enc)) & Low32 ==
            GetVvmcs(content, Partner(enc)) & Low32
    ensures GetVvmcs(SetVvmcsSpec(content, enc, val), Partner(enc)) >> 32 == val & Low32
  {
  }

  /** Writing the full 64-bit field and reading the high half gives the top half. */
  lemma FullWriteThenHighRead(content: seq<bv64>, enc: bv32, val: bv64)
    requires |content| == VvmcsSlots
    requires FieldWidth(enc) == Width64 && AccessType(enc) == 0
    ensures GetVvmcs(SetVvmcsSpec(content, enc, val), Partner(enc)) == val >> 32
  {
  }

  /** Writes to two different slots commute. */
  lemma WritesToDistinctSlotsCommute(content: seq<bv64>, e1: bv32, v1: bv64, e2: bv32, v2: bv64)
    requires |content| == VvmcsSlots
    requires SlotOf(e1) != SlotOf(e2)
    ensures SetVvmcsSpec(SetVvmcsSpec(content, e1, v1), e2, v2) ==
            SetVvmcsSpec(SetVvmcsSpec(content, e2, v2), e1, v1)
  {
  }
}
