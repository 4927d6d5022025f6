/** The block device on the other side of the queue: what it makes of a chain of descriptors (sections 2.6.5 and 5.2.6
    of the Virtual I/O Device specification 1.1). */
module VirtioDevice {
  import opened Params
  import opened Blocks

  /** What a descriptor points to: nothing, the request header of a chain, a buffer, or the status byte of a chain. */
  datatype Target = Null | Op(head: nat) | Buffer(b: nat) | StatusOf(head: nat)
  datatype Desc = Desc(addr: Target, len: nat, flags: nat, next: nat)

  /** struct virtio_blk_req. */
  datatype Req = Req(typ: nat, sector: nat)

  predicate HasNext(d: Desc) { d.flags % 2 == 1 }
  predicate DeviceWrites(d: Desc) { d.flags / 2 % 2 == 1 }

  /** The status byte, where it goes, and the memory and the disk afterwards. */
  datatype Served = Served(status: nat, head: nat, bufs: map<nat, Block>, platter: seq<byte>) | Malformed

  /** The disk with the block stored from byte off on. */
  function Stored(platter: seq<byte>, off: nat, data: Block): seq<byte>
    requires off + BSIZE <= |platter|
  {
    platter[..off] + data + platter[off + BSIZE..]
  }

  /** A request of type 0 reads sectors of 512 bytes from the disk into memory the device may write to, one of type 1
      writes them from memory it may not. */
  function Transfer(req: Req, d: Desc, head: nat, bufs: map<nat, Block>, platter: seq<byte>): Served
    requires d.addr.Buffer? && d.addr.b in bufs
  {
    var off := req.sector * 512;
    if d.len != BSIZE || off + BSIZE > |platter| then Served(1, head, bufs, platter)
    else if req.typ == 0 && DeviceWrites(d) then Served(0, head, bufs[d.addr.b := platter[off..off + BSIZE]], platter)
    else if req.typ == 1 && !DeviceWrites(d) then Served(0, head, bufs, Stored(platter, off, bufs[d.addr.b]))
    else Served(2, head, bufs, platter)
  }

  /** The device reads the header, follows the chain to the data, and then to the status byte. */
  function Serve(desc: seq<Desc>, ops: seq<Req>, h: nat, bufs: map<nat, Block>, platter: seq<byte>): Served {
    if !(h < |desc| && desc[h].addr.Op? && desc[h].addr.head < |ops| && desc[h].len == 16) then Malformed
    else if !(HasNext(desc[h]) && !DeviceWrites(desc[h]) && desc[h].next < |desc|) then Malformed
    else
      var d := desc[desc[h].next];
      if !(d.addr.Buffer? && d.addr.b in bufs && HasNext(d) && d.next < |desc|) then Malformed
      else
        var s := desc[d.next];
        if !(s.addr.StatusOf? && s.len == 1 && DeviceWrites(s) && !HasNext(s)) then Malformed
        else Transfer(ops[desc[h].addr.head], d, s.addr.head, bufs, platter)
  }
}
