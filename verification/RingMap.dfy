/** Rings in the kernel: built in private, then stored with one update of the outer map. */
module RingMap {
  import opened Basics
  import opened Maps

  /** install_ring: a ring of the wrong size is refused before anything is written. */
  method InstallRing(kernel: Kernel, vipId: nat, ring: seq<U32>) returns (ok: bool)
    modifies kernel
    ensures ok <==> |ring| == RING_SIZE
    ensures ok ==> kernel.View() == Put(old(kernel.View()), PutRing(vipId, ring))
    ensures !ok ==> kernel.View() == old(kernel.View())
  {
    if |ring| != RING_SIZE {
      return false;
    }
    var inner := new U32[RING_SIZE](i requires 0 <= i < |ring| => ring[i]);
    assert inner[..] == ring;
    kernel.Update(PutRing(vipId, inner[..]));
    return true;
  }

  /** remove_ring: a ring that is not there is no error. */
  method RemoveRing(kernel: Kernel, vipId: nat)
    modifies kernel
    ensures kernel.View() == Put(old(kernel.View()), DelRing(vipId))
    ensures vipId !in kernel.maps.rings
  {
    kernel.Update(DelRing(vipId));
  }
}
