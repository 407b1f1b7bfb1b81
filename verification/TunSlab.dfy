/**
 * The Android tunnel's read slab: one allocation is cut into eight slots, each handed out as a
 * packet that shares the slab's memory and no byte of anyone else's.
 */
module TunSlab {

  import opened Wrappers

  const SLAB_PACKETS: nat := 8

  type Byte = b: nat | b < 256

  datatype SlabError = TooLarge | ZeroSize | InvalidLength

  /** A slot of some slab; the packet is its first `length` bytes. */
  datatype Packet = Packet(buffer: array<Byte>, offset: nat, slot: nat, length: nat)

  predicate WellPlaced(p: Packet) {
    0 < p.length <= p.slot && p.offset + p.slot <= p.buffer.Length
  }

  predicate Apart(p: Packet, q: Packet) {
    p.buffer != q.buffer || p.offset + p.slot <= q.offset || q.offset + q.slot <= p.offset
  }

  function Bytes(p: Packet): seq<Byte>
    reads p.buffer
    requires WellPlaced(p)
  {
    p.buffer[p.offset..p.offset + p.length]
  }

  function Patched(s: seq<Byte>, i: nat, value: Byte): seq<Byte>
    requires i < |s|
  {
    s[i := value]
  }

  /** Slabs needed for `n` packets when `free` slots are left. */
  function Slabs(n: nat, free: nat): nat {
    if n <= free then 0 else (n - free + SLAB_PACKETS - 1) / SLAB_PACKETS
  }

  /** The slabs and free slots after `n` packets that began with `left` slots of their size. */
  ghost predicate Spent(n: nat, left: nat, slabs: int, free: nat, fits: bool) {
    && slabs == Slabs(n, left)
    && if fits then free == left + SLAB_PACKETS * Slabs(n, left) - n else n == 0 && left == 0
  }

  lemma NoSlabs(left: nat, free: nat, fits: bool)
    requires if fits then free == left else left == 0
    ensures Spent(0, left, 0, free, fits)
  {
  }

  lemma OneMore(n: nat, left: nat, slabs: int, free: nat, fits: bool)
    requires left <= SLAB_PACKETS && Spent(n, left, slabs, free, fits)
    ensures
      var renew := !fits || free == 0;
      Spent(n + 1, left, slabs + (if renew then 1 else 0), (if renew then SLAB_PACKETS else free) - 1, true)
  {
  }

  lemma SpentMeans(n: nat, left: nat, slabs: int, free: nat, fits: bool)
    requires Spent(n, left, slabs, free, fits)
    ensures slabs == Slabs(n, left)
  {
  }

  lemma SlotsLeft(length: nat, size: nat, free: nat)
    requires size > 0 && length == size * free
    ensures length < size <==> free == 0
    ensures free > 0 ==> length - size == size * (free - 1)
  {
    if free > 0 {
      assert size * free == size + size * (free - 1);
    }
  }

  lemma SameSlice(a: seq<Byte>, b: seq<Byte>, from: nat, lo: nat, hi: nat)
    requires lo <= hi <= from <= |a| == |b|
    requires forall k :: 0 <= k < from ==> a[k] == b[k]
    ensures a[lo..hi] == b[lo..hi]
  {
  }

  lemma Continued(before: seq<seq<Byte>>, datas: seq<seq<Byte>>, i: nat)
    requires i < |datas|
    ensures datas[i] in datas && (before + datas[..i]) + [datas[i]] == before + datas[..i + 1]
  {
    assert datas[..i + 1] == datas[..i] + [datas[i]];
  }

  class Slab {
    var storage: array<Byte>
    var start: nat
    var slotSize: nat
    const usizeMax: nat

    ghost var free: nat
    ghost var dropped: nat
    ghost var allocations: nat
    ghost var packets: seq<Packet>

    /** The slots in use, the slots left and the slots given up are the slots ever allocated. */
    ghost predicate Conserved()
      reads this
    {
      |packets| + free + dropped == SLAB_PACKETS * allocations && free <= SLAB_PACKETS
    }

    /** No two packets share a byte, and none reaches into what is left of the slab. */
    ghost predicate Separate()
      reads this
    {
      && (forall i :: 0 <= i < |packets| ==> WellPlaced(packets[i]))
      && (forall i, j :: 0 <= i < j < |packets| ==> Apart(packets[i], packets[j]))
      && (forall i :: 0 <= i < |packets| && packets[i].buffer == storage ==> packets[i].offset + packets[i].slot <= start)
    }

    ghost predicate Valid()
      reads this
    {
      && start <= storage.Length
      && storage.Length - start == slotSize * free
      && (slotSize == 0 ==> free == 0)
      && Conserved()
      && Separate()
    }

    /** What every packet handed out holds. */
    ghost function Contents(): seq<seq<Byte>>
      reads this, set i | 0 <= i < |packets| :: packets[i].buffer
      requires Valid()
    {
      seq(|packets|, i requires 0 <= i < |packets| && WellPlaced(packets[i])
                       reads this, set j | 0 <= j < |packets| :: packets[j].buffer => Bytes(packets[i]))
    }

    constructor (maximum: nat)
      ensures Valid() && packets == [] && allocations == 0 && slotSize == 0 && usizeMax == maximum
    {
      storage := new Byte[0];
      start, slotSize, usizeMax := 0, 0, maximum;
      free, dropped, allocations, packets := 0, 0, 0, [];
    }

    method Prepare(size: nat) returns (r: Result<bool, SlabError>)
      requires Valid()
      modifies this
      ensures Valid() && packets == old(packets) && Contents() == old(Contents())
      ensures size * SLAB_PACKETS > usizeMax ==> r == Err(TooLarge)
      ensures size == 0 ==> r == Err(ZeroSize)
      ensures r.Err? ==> unchanged(this) && (size == 0 || size * SLAB_PACKETS > usizeMax)
      ensures r.Ok? ==>
        && slotSize == size && free > 0 && storage.Length - start >= slotSize
        && (r.value <==> old(slotSize) != size || old(free) == 0)
        && allocations == old(allocations) + (if r.value then 1 else 0)
        && free == (if r.value then SLAB_PACKETS else old(free))
        && dropped == old(dropped) + (if r.value then old(free) else 0)
        && (if r.value then fresh(storage) else storage == old(storage) && start == old(start))
    {
      hide Contents, Separate, WellPlaced;
      var slabBytes := size * SLAB_PACKETS;
      if slabBytes > usizeMax {
        return Err(TooLarge);
      }
      if size == 0 {
        return Err(ZeroSize);
      }
      if slotSize == size {
        SlotsLeft(storage.Length - start, slotSize, free);
      }
      var renew := slotSize != size || storage.Length - start < size;
      if renew {
        Renew(size, slabBytes);
      }
      SlotsLeft(storage.Length - start, slotSize, free);
      return Ok(renew);
    }

    /** A new slab of eight slots; what was left of the old one is given up. */
    method Renew(size: nat, slabBytes: nat)
      requires Valid() && size > 0 && slabBytes == size * SLAB_PACKETS
      modifies this
      ensures Valid() && packets == old(packets) && Contents() == old(Contents()) && fresh(storage)
      ensures slotSize == size && free == SLAB_PACKETS && dropped == old(dropped) + old(free)
      ensures allocations == old(allocations) + 1
    {
      var slab := new Byte[slabBytes](_ => 0);
      storage, start, slotSize := slab, 0, size;
      dropped, free, allocations := dropped + free, SLAB_PACKETS, allocations + 1;
    }

    /** A read into the slice that `read_buffer` hands out. */
    method ReadInto(data: seq<Byte>)
      requires Valid() && storage.Length - start >= slotSize && |data| <= slotSize
      modifies storage
      ensures storage[start..start + |data|] == data
      ensures Contents() == old(Contents())
    {
      ghost var before := storage[..];
      Fill(storage, start, data);
      forall i | 0 <= i < |packets|
        ensures Contents()[i] == old(Contents()[i])
      {
        var p := packets[i];
        assert WellPlaced(p);
        if p.buffer == storage {
          SameSlice(before, storage[..], start, p.offset, p.offset + p.length);
        }
      }
    }

    static method Fill(buffer: array<Byte>, from: nat, data: seq<Byte>)
      requires from + |data| <= buffer.Length
      modifies buffer
      ensures buffer[from..from + |data|] == data
      ensures forall k :: 0 <= k < buffer.Length && (k < from || k >= from + |data|) ==> buffer[k] == old(buffer[k])
    {
      for i := 0 to |data|
        invariant forall k :: 0 <= k < i ==> buffer[from + k] == data[k]
        invariant forall k :: 0 <= k < buffer.Length && (k < from || k >= from + |data|) ==> buffer[k] == old(buffer[k])
      {
        buffer[from + i] := data[i];
      }
    }

    method TakePacket(length: nat) returns (r: Result<Packet, SlabError>)
      requires Valid()
      modifies this
      ensures Valid()
      ensures r.Err? <==> length == 0 || length > slotSize || old(free) == 0
      ensures r.Err? ==> r.error == InvalidLength && unchanged(this)
      ensures r.Ok? ==>
        && packets == old(packets) + [r.value] && old(start) + length <= storage.Length
        && Contents() == old(Contents()) + [storage[old(start)..old(start) + length]]
        && free == old(free) - 1
      ensures allocations == old(allocations) && dropped == old(dropped)
      ensures slotSize == old(slotSize) && storage == old(storage)
    {
      hide Contents, Separate, WellPlaced, Conserved;
      if slotSize > 0 {
        SlotsLeft(storage.Length - start, slotSize, free);
      }
      if length == 0 || length > slotSize || storage.Length - start < slotSize {
        return Err(InvalidLength);
      }
      var packet := Packet(storage, start, slotSize, length);
      Issue(packet);
      return Ok(packet);
    }

    /** The next slot becomes a packet. */
    method Issue(packet: Packet)
      requires Valid() && free > 0 && start + slotSize <= storage.Length
      requires storage.Length - (start + slotSize) == slotSize * (free - 1)
      requires packet == Packet(storage, start, slotSize, packet.length) && 0 < packet.length <= slotSize
      modifies `start, `free, `packets
      ensures Valid() && packets == old(packets) + [packet] && free == old(free) - 1
      ensures start == old(start) + slotSize
      ensures Contents() == old(Contents()) + [storage[old(start)..old(start) + packet.length]]
    {
      start := start + slotSize;
      free := free - 1;
      packets := packets + [packet];
      assert forall i :: 0 <= i < |old(packets)| ==> packets[i] == old(packets)[i];
      assert Bytes(packets[|old(packets)|]) == storage[old(start)..old(start) + packet.length];
    }

    /** The owner of one packet writes to it; no other packet and no free slot changes. */
    method WritePacket(p: Packet, ghost k: nat, i: nat, value: Byte)
      requires Valid() && k < |packets| && packets[k] == p && i < p.length
      modifies p.buffer
      ensures i < old(|Contents()[k]|)
      ensures Contents() == old(Contents())[k := Patched(old(Contents()[k]), i, value)]
      ensures storage[start..] == old(storage[start..])
    {
      assert WellPlaced(p);
      p.buffer[p.offset + i] := value;
      forall j | 0 <= j < |packets|
        ensures Contents()[j] == if j == k then Patched(old(Contents()[k]), i, value) else old(Contents()[j])
      {
        assert WellPlaced(packets[j]);
        assert j != k ==> if j < k then Apart(packets[j], p) else Apart(p, packets[j]);
      }
    }

    /** One packet: prepare, read, take. */
    method ReadPacket(data: seq<Byte>, size: nat)
      requires Valid() && 0 < |data| <= size && size * SLAB_PACKETS <= usizeMax
      modifies this, storage
      ensures Valid() && Contents() == old(Contents()) + [data] && slotSize == size
      ensures var renew := old(slotSize) != size || old(free) == 0;
        && allocations == old(allocations) + (if renew then 1 else 0)
        && free == (if renew then SLAB_PACKETS else old(free)) - 1
      ensures storage == old(storage) || fresh(storage)
    {
      hide Contents, Separate, WellPlaced;
      var prepared := Prepare(size);
      ReadInto(data);
      var packet := TakePacket(|data|);
    }

    /** Any number of packets read one after another at one size. */
    method Stream(datas: seq<seq<Byte>>, size: nat)
      requires Valid() && 0 < size && size * SLAB_PACKETS <= usizeMax
      requires forall d :: d in datas ==> 0 < |d| <= size
      modifies this, storage
      ensures Valid() && Contents() == old(Contents()) + datas
      ensures allocations == old(allocations) + Slabs(|datas|, if old(slotSize) == size then old(free) else 0)
    {
      hide Slabs, Contents, Separate, WellPlaced, Spent, Valid;
      ghost var left := if slotSize == size then free else 0;
      ghost var before, from := Contents(), allocations;
      LeftIsFew();
      NoSlabs(left, free, slotSize == size);
      assert before + datas[..0] == before;
      for i := 0 to |datas|
        invariant Valid() && Contents() == before + datas[..i]
        invariant Spent(i, left, allocations - from, free, slotSize == size)
        invariant storage == old(storage) || fresh(storage)
      {
        OneMore(i, left, allocations - from, free, slotSize == size);
        Continued(before, datas, i);
        ReadPacket(datas[i], size);
      }
      assert datas[..|datas|] == datas;
      SpentMeans(|datas|, left, allocations - from, free, slotSize == size);
    }

    lemma LeftIsFew()
      requires Valid()
      ensures free <= SLAB_PACKETS
    {
    }
  }
}
