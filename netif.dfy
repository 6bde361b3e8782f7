/**
 * The network-interface registry of the network backend driver: a table of
 * 1024 hash chains of interfaces keyed by (domain id, handle), and the
 * per-interface connection state machine
 * DISCONNECTED -> CONNECTED -> DISCONNECTING -> DISCONNECTED.
 *
 * Each chain is a sequence in chain order.  Net-device, bridge, interrupt
 * and page-remapping services are oracles: their outcomes are parameters.
 */
module Netif {
  import opened Wrappers


  const HashSize: nat := 1024
  const EthAlen: nat := 6

  /** Remapping errors as the 32-bit two's-complement ints the kernel returns. */
  const ENOMEM: bv32 := 0xffff_fff4
  const EFAULT: bv32 := 0xffff_fff2

  /** ~0UL on the 32-bit kernel. */
  const NoCreditLimit: bv32 := 0xffff_ffff

  datatype ConnStatus = Disconnected | Connected | Disconnecting

  /** The NETIF_BE_STATUS_* codes written to a control message's status field. */
  datatype BeStatus =
    | Okay
    | Error
    | InterfaceExists
    | InterfaceNotFound
    | InterfaceConnected
    | OutOfMemory
    | MappingError

  /** The deferred response to a disconnect request. */
  datatype DisconnectResponse = DisconnectResponse(id: bv8, domid: bv16, handle: bv32, status: BeStatus)

  /** NETIF_HASH: the low ten bits of domid ^ handle. */
  function NetifHash(domid: bv16, handle: bv32): (h: nat)
    ensures h < HashSize
  {
    ((domid as bv32 ^ handle) as nat) % HashSize
  }

  /** One interface (netif_t). */
  class Netif {
    const domid: bv16
    const handle: bv32
    var status: ConnStatus
    var refcnt: int
    var disconnectRspid: bv8
    var creditBytes: bv32
    var remainingCredit: bv32
    var creditUsec: bv32
    var mac: seq<bv8>
    var evtchn: bv32
    var irq: int
    var txShmemFrame: bv32
    var rxShmemFrame: bv32

    /**
     * The state netif_create gives a new interface: zeroed, then the key, the
     * device MAC, status DISCONNECTED, no references and no credit limit.
     */
    ghost predicate Initial(domid: bv16, handle: bv32, mac: seq<bv8>)
      reads this
    {
      this.domid == domid && this.handle == handle && this.mac == mac &&
      status == Disconnected && refcnt == 0 && disconnectRspid == 0 &&
      creditBytes == NoCreditLimit && remainingCredit == NoCreditLimit && creditUsec == 0 &&
      evtchn == 0 && irq == 0 && txShmemFrame == 0 && rxShmemFrame == 0
    }

    constructor (domid: bv16, handle: bv32, mac: seq<bv8>)
      ensures Initial(domid, handle, mac)
    {
      this.domid := domid;
      this.handle := handle;
      status := Disconnected;
      refcnt := 0;
      disconnectRspid := 0;
      creditBytes := NoCreditLimit;
      remainingCredit := NoCreditLimit;
      creditUsec := 0;
      this.mac := mac;
      evtchn := 0;
      irq := 0;
      txShmemFrame := 0;
      rxShmemFrame := 0;
    }

    /**
     * The state change of a successful netif_connect: the interface records
     * its event channel, interrupt and shared frames, becomes connected and
     * takes a reference (netif_get).
     */
    method Attach(evtchn: bv32, irq: int, txFrame: bv32, rxFrame: bv32)
      modifies this
      ensures status == Connected && refcnt == old(refcnt) + 1
      ensures this.evtchn == evtchn && this.irq == irq && txShmemFrame == txFrame && rxShmemFrame == rxFrame
      ensures mac == old(mac) && disconnectRspid == old(disconnectRspid)
      ensures creditBytes == old(creditBytes) && remainingCredit == old(remainingCredit) && creditUsec == old(creditUsec)
    {
      this.evtchn := evtchn;
      this.irq := irq;
      txShmemFrame := txFrame;
      rxShmemFrame := rxFrame;
      status := Connected;
      refcnt := refcnt + 1;
    }

    /**
     * The state change of netif_disconnect on a connected interface: it starts
     * disconnecting, keeps the request id for the deferred response and drops
     * the reference taken at connection (netif_put).
     */
    method BeginDisconnect(rspId: bv8)
      modifies this
      ensures status == Disconnecting && disconnectRspid == rspId && refcnt == old(refcnt) - 1
      ensures evtchn == old(evtchn) && irq == old(irq) && mac == old(mac)
      ensures txShmemFrame == old(txShmemFrame) && rxShmemFrame == old(rxShmemFrame)
      ensures creditBytes == old(creditBytes) && remainingCredit == old(remainingCredit) && creditUsec == old(creditUsec)
    {
      status := Disconnecting;
      disconnectRspid := rspId;
      refcnt := refcnt - 1;
    }

    /**
     * __netif_disconnect_complete: a disconnecting interface becomes
     * disconnected; the response carries its key and the saved request id.
     */
    method DisconnectComplete() returns (rsp: DisconnectResponse)
      requires status == Disconnecting
      modifies this
      ensures status == Disconnected
      ensures rsp == DisconnectResponse(disconnectRspid, domid, handle, Okay)
      ensures refcnt == old(refcnt) && disconnectRspid == old(disconnectRspid) && mac == old(mac)
      ensures evtchn == old(evtchn) && irq == old(irq)
      ensures txShmemFrame == old(txShmemFrame) && rxShmemFrame == old(rxShmemFrame)
      ensures creditBytes == old(creditBytes) && remainingCredit == old(remainingCredit) && creditUsec == old(creditUsec)
    {
      rsp := DisconnectResponse(disconnectRspid, domid, handle, Okay);
      status := Disconnected;
    }
  }

  predicate Matches(n: Netif, domid: bv16, handle: bv32)
  {
    n.domid == domid && n.handle == handle
  }

  /** The position of the first interface of `chain` with the key, or |chain| when there is none. */
  function FirstMatch(chain: seq<Netif>, domid: bv16, handle: bv32): (i: nat)
    ensures i <= |chain|
    ensures forall k :: 0 <= k < i ==> !Matches(chain[k], domid, handle)
    ensures i < |chain| ==> Matches(chain[i], domid, handle)
  {
    if |chain| == 0 then 0
    else if Matches(chain[0], domid, handle) then 0
    else 1 + FirstMatch(chain[1..], domid, handle)
  }

  /** The MAC the device gets: the requested one with the low bit of byte 2 flipped. */
  function DeviceMac(mac: seq<bv8>): (r: seq<bv8>)
    requires |mac| == EthAlen
    ensures |r| == EthAlen && r[2] != mac[2]
    ensures forall k :: 0 <= k < EthAlen && k != 2 ==> r[k] == mac[k]
  {
    mac[2 := mac[2] ^ 1]
  }

  /** The status netif_connect reports for a nonzero remapping error. */
  function RemapStatus(error: bv32): (s: BeStatus)
    ensures s == OutOfMemory <==> error == ENOMEM
    ensures s == MappingError <==> error == EFAULT
    ensures s == Error <==> error != ENOMEM && error != EFAULT
  {
    if error == ENOMEM then OutOfMemory
    else if error == EFAULT then MappingError
    else Error
  }

  /** The two remapping errors are ORed: when both mappings fail, the status is ERROR whatever they were. */
  lemma BothRemapsFailing(e1: bv32, e2: bv32)
    requires e1 == ENOMEM || e1 == EFAULT
    requires e2 == ENOMEM || e2 == EFAULT
    requires e1 != e2
    ensures RemapStatus(e1 | e2) == Error
  {
  }

  /** The hash table (netif_hash) of interface chains. */
  class Registry {
    const buckets: array<seq<Netif>>

    /**
     * Every interface sits in the chain its key hashes to, and no chain holds
     * two interfaces with the same key.
     */
    ghost predicate Valid()
      reads this, buckets
    {
      buckets.Length == HashSize &&
      (forall h, i :: 0 <= h < HashSize && 0 <= i < |buckets[h]| ==>
        NetifHash(buckets[h][i].domid, buckets[h][i].handle) == h) &&
      (forall h, i, j :: 0 <= h < HashSize && 0 <= i < j < |buckets[h]| ==>
        !Matches(buckets[h][j], buckets[h][i].domid, buckets[h][i].handle))
    }

    /** Whether some interface of the table has the key. */
    ghost predicate Contains(domid: bv16, handle: bv32)
      requires buckets.Length == HashSize
      reads this, buckets
    {
      exists h, i :: 0 <= h < HashSize && 0 <= i < |buckets[h]| && Matches(buckets[h][i], domid, handle)
    }

    /** The interfaces of the table. */
    ghost function Members(): set<Netif>
      reads this, buckets
    {
      set h, i | 0 <= h < buckets.Length && 0 <= i < |buckets[h]| :: buckets[h][i]
    }

    /** netif_interface_init: every chain empty. */
    constructor ()
      ensures Valid() && fresh(buckets)
      ensures forall h :: 0 <= h < HashSize ==> buckets[h] == []
    {
      buckets := new seq<Netif>[HashSize](_ => []);
    }

    /**
     * netif_find_by_handle: walk the key's chain to the first interface with
     * the key.
     */
    method FindByHandle(domid: bv16, handle: bv32) returns (r: Netif?)
      requires Valid()
      ensures r == Find(domid, handle)
      ensures r != null ==> Matches(r, domid, handle) && r in Members()
      ensures r == null <==> !Contains(domid, handle)
    {
      var chain := buckets[NetifHash(domid, handle)];
      var i := 0;
      while i < |chain| && !Matches(chain[i], domid, handle)
        invariant 0 <= i <= |chain|
        invariant forall k :: 0 <= k < i ==> !Matches(chain[k], domid, handle)
      {
        i := i + 1;
      }
      FirstMatchIsUnique(chain, domid, handle, i);
      r := if i < |chain| then chain[i] else null;
      if r == null {
        AbsentFromChain(domid, handle);
      }
    }

    /**
     * The pointer-to-pointer walk of netif_create and netif_destroy: the
     * position in the key's chain of the first interface with the key, or
     * the chain's end.
     */
    method ChainSlot(domid: bv16, handle: bv32) returns (i: nat)
      requires buckets.Length == HashSize
      ensures i == FirstMatch(buckets[NetifHash(domid, handle)], domid, handle)
    {
      var chain := buckets[NetifHash(domid, handle)];
      i := 0;
      while i < |chain| && !Matches(chain[i], domid, handle)
        invariant 0 <= i <= |chain|
        invariant forall k :: 0 <= k < i ==> !Matches(chain[k], domid, handle)
      {
        i := i + 1;
      }
      FirstMatchIsUnique(chain, domid, handle, i);
    }

    /** An interface found nowhere in its key's chain is nowhere in the table. */
    lemma AbsentFromChain(domid: bv16, handle: bv32)
      requires Valid()
      requires forall k :: 0 <= k < |buckets[NetifHash(domid, handle)]| ==>
        !Matches(buckets[NetifHash(domid, handle)][k], domid, handle)
      ensures !Contains(domid, handle)
    {
    }

    /** Find: the interface netif_find_by_handle returns, or null. */
    function Find(domid: bv16, handle: bv32): (r: Netif?)
      requires buckets.Length == HashSize
      reads this, buckets
    {
      var chain := buckets[NetifHash(domid, handle)];
      var i := FirstMatch(chain, domid, handle);
      if i < |chain| then chain[i] else null
    }

    /** In a valid table, Find succeeds exactly for a key the table contains. */
    lemma FindIffContains(domid: bv16, handle: bv32)
      requires Valid()
      ensures Find(domid, handle) != null <==> Contains(domid, handle)
      ensures Find(domid, handle) != null ==>
        Matches(Find(domid, handle), domid, handle) && Find(domid, handle) in Members()
    {
      var chain := buckets[NetifHash(domid, handle)];
      var i := FirstMatch(chain, domid, handle);
      if i < |chain| {
        assert Matches(buckets[NetifHash(domid, handle)][i], domid, handle);
      } else {
        AbsentFromChain(domid, handle);
      }
    }

    /**
     * netif_create: a new disconnected interface with no credit limit is
     * appended at the end of its chain, unless device allocation fails, the
     * key is already present, or device registration fails.
     */
    method Create(domid: bv16, handle: bv32, mac: seq<bv8>, allocOk: bool, registerOk: bool)
      returns (status: BeStatus, nif: Netif?)
      requires Valid() && |mac| == EthAlen
      modifies buckets
      ensures Valid()
      ensures !allocOk ==> status == OutOfMemory
      ensures allocOk && old(Contains(domid, handle)) ==> status == InterfaceExists
      ensures allocOk && !old(Contains(domid, handle)) && !registerOk ==> status == OutOfMemory
      ensures status == Okay <==> allocOk && !old(Contains(domid, handle)) && registerOk
      ensures status != Okay ==> buckets[..] == old(buckets[..]) && nif == null
      ensures status == Okay ==>
        nif != null && fresh(nif) &&
        buckets[..] == old(buckets[..])[NetifHash(domid, handle) := old(buckets[NetifHash(domid, handle)]) + [nif]]
      ensures status == Okay ==> nif != null && nif.Initial(domid, handle, DeviceMac(mac))
      ensures status == Okay ==> Find(domid, handle) == nif
    {
      nif := null;
      if !allocOk {
        return OutOfMemory, null;
      }
      var h := NetifHash(domid, handle);
      var chain := buckets[h];
      var i := ChainSlot(domid, handle);
      FindIffContains(domid, handle);
      if i < |chain| {
        return InterfaceExists, null;
      }
      var created := new Netif(domid, handle, DeviceMac(mac));
      if !registerOk {
        return OutOfMemory, null;
      }
      buckets[h] := chain + [created];
      AppendKeepsValid(old(buckets[..]), buckets[..], h, created);
      nif := created;
      status := Okay;
      AppendedIsFound(chain, created, domid, handle);
    }

    /**
     * netif_destroy: the interface with the key is unlinked from its chain,
     * unless it is absent or not disconnected.
     */
    method Destroy(domid: bv16, handle: bv32) returns (status: BeStatus)
      requires Valid()
      modifies buckets
      ensures Valid()
      ensures status == InterfaceNotFound <==> !old(Contains(domid, handle))
      ensures status == InterfaceConnected <==>
        old(Contains(domid, handle)) && old(Find(domid, handle).status) != Disconnected
      ensures status == Okay <==>
        old(Contains(domid, handle)) && old(Find(domid, handle).status) == Disconnected
      ensures status != Okay ==> buckets[..] == old(buckets[..])
      ensures status == Okay ==>
        var h := NetifHash(domid, handle);
        buckets[..] == old(buckets[..])[h := Unlink(old(buckets[h]), FirstMatch(old(buckets[h]), domid, handle))]
      ensures status == Okay ==> !Contains(domid, handle)
    {
      var h := NetifHash(domid, handle);
      var chain := buckets[h];
      FindIffContains(domid, handle);
      var i := ChainSlot(domid, handle);
      if i == |chain| {
        return InterfaceNotFound;
      }
      if chain[i].status != Disconnected {
        return InterfaceConnected;
      }
      buckets[h] := Unlink(chain, i);
      UnlinkKeepsValid(old(buckets[..]), buckets[..], h, i, domid, handle);
      return Okay;
    }

    /**
     * netif_connect: a disconnected interface gets its event channel, its
     * interrupt and its two shared-memory frames, becomes connected and takes
     * a reference.  `vmaOk` is whether the two-page virtual area was
     * allocated, `e1` and `e2` the results of remapping the transmit and
     * receive frames, `irq` what binding the event channel returns.
     */
    method Connect(domid: bv16, handle: bv32, evtchn: bv32, txFrame: bv32, rxFrame: bv32,
                   vmaOk: bool, e1: bv32, e2: bv32, irq: int)
      returns (status: BeStatus)
      requires Valid()
      modifies Find(domid, handle)
      ensures Find(domid, handle) == null ==> status == InterfaceNotFound
      ensures Find(domid, handle) != null && old(Find(domid, handle).status) != Disconnected ==>
        status == InterfaceConnected
      ensures Find(domid, handle) != null && old(Find(domid, handle).status) == Disconnected ==>
        status == ConnectStatus(vmaOk, e1 | e2)
      ensures status != Okay && Find(domid, handle) != null ==> unchanged(Find(domid, handle))
      ensures status == Okay ==>
        var n := Find(domid, handle);
        n != null && n.status == Connected && n.refcnt == old(n.refcnt) + 1 &&
        n.evtchn == evtchn && n.irq == irq && n.txShmemFrame == txFrame && n.rxShmemFrame == rxFrame &&
        n.mac == old(n.mac) && n.disconnectRspid == old(n.disconnectRspid) &&
        n.creditBytes == old(n.creditBytes) && n.remainingCredit == old(n.remainingCredit) &&
        n.creditUsec == old(n.creditUsec)
    {
      var nif := FindByHandle(domid, handle);
      if nif == null {
        return InterfaceNotFound;
      }
      if nif.status != Disconnected {
        return InterfaceConnected;
      }
      if !vmaOk {
        return OutOfMemory;
      }
      var error := e1 | e2;
      if error != 0 {
        return RemapStatus(error);
      }
      FindIffContains(domid, handle);
      nif.Attach(evtchn, irq, txFrame, rxFrame);
      status := Okay;
    }

    /**
     * netif_disconnect: a connected interface starts disconnecting, saves the
     * request id for the deferred response and drops its reference.  The
     * result is 1 (with status INTERFACE_NOT_FOUND) when the caller must
     * answer at once, 0 when the response is deferred or none is due.
     */
    method Disconnect(domid: bv16, handle: bv32, rspId: bv8) returns (rc: int, status: Option<BeStatus>)
      requires Valid()
      modifies Find(domid, handle)
      ensures rc == 1 <==> Find(domid, handle) == null
      ensures rc == 1 ==> status == Some(InterfaceNotFound)
      ensures rc != 1 ==> rc == 0 && status == None
      ensures rc == 0 && old(Find(domid, handle).status) == Connected ==>
        var n := Find(domid, handle);
        n.status == Disconnecting && n.disconnectRspid == rspId && n.refcnt == old(n.refcnt) - 1 &&
        n.evtchn == old(n.evtchn) && n.irq == old(n.irq) && n.mac == old(n.mac) &&
        n.txShmemFrame == old(n.txShmemFrame) && n.rxShmemFrame == old(n.rxShmemFrame) &&
        n.creditBytes == old(n.creditBytes) && n.remainingCredit == old(n.remainingCredit) &&
        n.creditUsec == old(n.creditUsec)
      ensures rc == 0 && old(Find(domid, handle).status) != Connected ==> unchanged(Find(domid, handle))
    {
      var nif := FindByHandle(domid, handle);
      if nif == null {
        return 1, Some(InterfaceNotFound);
      }
      FindIffContains(domid, handle);
      if nif.status == Connected {
        nif.BeginDisconnect(rspId);
      }
      return 0, None;
    }

    /**
     * A connection session of an existing disconnected interface with every
     * kernel service succeeding: connect, disconnect and complete the
     * disconnection.  The interface ends disconnected again, holding the
     * reference count it started with, and the response echoes the request id.
     */
    method Session(domid: bv16, handle: bv32, evtchn: bv32, irq: int, txFrame: bv32, rxFrame: bv32, rspId: bv8)
      returns (connected: BeStatus, rc: int, rsp: DisconnectResponse)
      requires Valid() && Find(domid, handle) != null && Find(domid, handle).status == Disconnected
      modifies Find(domid, handle)
      ensures connected == Okay && rc == 0
      ensures rsp == DisconnectResponse(rspId, domid, handle, Okay)
      ensures Find(domid, handle).status == Disconnected && Find(domid, handle).refcnt == old(Find(domid, handle).refcnt)
    {
      var nif := Find(domid, handle);
      ghost var refs := nif.refcnt;
      connected := Connect(domid, handle, evtchn, txFrame, rxFrame, true, 0, 0, irq);
      assert nif.status == Connected && nif.refcnt == refs + 1;
      var status;
      rc, status := Disconnect(domid, handle, rspId);
      assert nif.status == Disconnecting && nif.refcnt == refs && nif.disconnectRspid == rspId;
      rsp := nif.DisconnectComplete();
    }

    /**
     * A whole interface lifetime with every kernel service succeeding:
     * create, connect, disconnect, complete the disconnection and destroy.
     * Every step reports OKAY, the response echoes the request id, and the
     * table ends as it started.
     */
    method Lifetime(domid: bv16, handle: bv32, mac: seq<bv8>, evtchn: bv32, irq: int,
                    txFrame: bv32, rxFrame: bv32, rspId: bv8)
      returns (created: BeStatus, connected: BeStatus, rc: int, rsp: DisconnectResponse, destroyed: BeStatus)
      requires Valid() && |mac| == EthAlen && !Contains(domid, handle)
      modifies buckets
      ensures Valid()
      ensures created == Okay && connected == Okay && rc == 0 && destroyed == Okay
      ensures rsp == DisconnectResponse(rspId, domid, handle, Okay)
      ensures buckets[..] == old(buckets[..])
    {
      var nif;
      ghost var h := NetifHash(domid, handle);
      ghost var chain := buckets[h];
      created, nif := Create(domid, handle, mac, true, true);
      ghost var withNif := buckets[..];
      assert withNif == old(buckets[..])[h := chain + [nif]];
      connected, rc, rsp := Session(domid, handle, evtchn, irq, txFrame, rxFrame, rspId);
      destroyed := Destroy(domid, handle);
      UnlinkAppended(chain, nif);
      assert buckets[..] == withNif[h := chain];
    }
  }

  /**
   * The status netif_connect reports for a disconnected interface: OUT_OF_MEMORY
   * without a virtual area, the remapping status for a nonzero combined error,
   * OKAY otherwise.
   */
  function ConnectStatus(vmaOk: bool, error: bv32): (s: BeStatus)
    ensures s == Okay <==> vmaOk && error == 0
    ensures !vmaOk ==> s == OutOfMemory
    ensures vmaOk && error != 0 ==> s == RemapStatus(error)
  {
    if !vmaOk then OutOfMemory
    else if error != 0 then RemapStatus(error)
    else Okay
  }

  /** The chain without its entry at position i, the others in order. */
  function Unlink(chain: seq<Netif>, i: nat): (r: seq<Netif>)
    requires i < |chain|
    ensures |r| == |chain| - 1
    ensures forall k :: 0 <= k < i ==> r[k] == chain[k]
    ensures forall k :: i <= k < |r| ==> r[k] == chain[k + 1]
  {
    chain[..i] + chain[i + 1..]
  }

  /** Unlinking the entry just appended gives back the chain. */
  lemma UnlinkAppended(chain: seq<Netif>, n: Netif)
    ensures Unlink(chain + [n], |chain|) == chain
  {
    assert (chain + [n])[..|chain|] == chain;
  }

  /** Valid, stated on the contents of the chain array. */
  ghost predicate ValidChains(t: seq<seq<Netif>>)
  {
    |t| == HashSize &&
    (forall h, i :: 0 <= h < HashSize && 0 <= i < |t[h]| ==> NetifHash(t[h][i].domid, t[h][i].handle) == h) &&
    (forall h, i, j :: 0 <= h < HashSize && 0 <= i < j < |t[h]| ==> !Matches(t[h][j], t[h][i].domid, t[h][i].handle))
  }

  /** Appending an interface to the chain its key hashes to, when that chain lacks the key, keeps the table valid. */
  lemma AppendKeepsValid(t: seq<seq<Netif>>, u: seq<seq<Netif>>, h: nat, n: Netif)
    requires ValidChains(t) && h < HashSize && h == NetifHash(n.domid, n.handle)
    requires forall k :: 0 <= k < |t[h]| ==> !Matches(t[h][k], n.domid, n.handle)
    requires u == t[h := t[h] + [n]]
    ensures ValidChains(u)
  {
    forall a, b | 0 <= a < b < |u[h]|
      ensures !Matches(u[h][b], u[h][a].domid, u[h][a].handle)
    {
      assert u[h][a] == t[h][a];
    }
  }

  /** Unlinking the only entry with a key keeps the table valid and removes the key. */
  lemma UnlinkKeepsValid(t: seq<seq<Netif>>, u: seq<seq<Netif>>, h: nat, i: nat, domid: bv16, handle: bv32)
    requires ValidChains(t) && h < HashSize && i < |t[h]|
    requires h == NetifHash(domid, handle) && Matches(t[h][i], domid, handle)
    requires u == t[h := Unlink(t[h], i)]
    ensures ValidChains(u)
    ensures forall k :: 0 <= k < |u[h]| ==> !Matches(u[h][k], domid, handle)
  {
    forall a, b | 0 <= a < b < |u[h]|
      ensures !Matches(u[h][b], u[h][a].domid, u[h][a].handle)
    {
      var a' := if a < i then a else a + 1;
      var b' := if b < i then b else b + 1;
      assert u[h][a] == t[h][a'] && u[h][b] == t[h][b'];
    }
    forall k | 0 <= k < |u[h]|
      ensures !Matches(u[h][k], domid, handle)
    {
      if k < i {
        assert u[h][k] == t[h][k];
      } else {
        assert u[h][k] == t[h][k + 1];
      }
    }
  }

  /** An interface appended to a chain without its key is the chain's first match. */
  lemma AppendedIsFound(chain: seq<Netif>, n: Netif, domid: bv16, handle: bv32)
    requires forall k :: 0 <= k < |chain| ==> !Matches(chain[k], domid, handle)
    requires Matches(n, domid, handle)
    ensures FirstMatch(chain + [n], domid, handle) == |chain|
  {
    FirstMatchIsUnique(chain + [n], domid, handle, |chain|);
  }

  /** The first match is the position a walk that stops at the first match reaches. */
  lemma FirstMatchIsUnique(chain: seq<Netif>, domid: bv16, handle: bv32, i: nat)
    requires i <= |chain|
    requires forall k :: 0 <= k < i ==> !Matches(chain[k], domid, handle)
    requires i < |chain| ==> Matches(chain[i], domid, handle)
    ensures i == FirstMatch(chain, domid, handle)
  {
  }
}
