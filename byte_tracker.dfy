/** Anti-denial-of-service accounting of the bytes held by thin blocks that
    are being reconstructed: one process-wide total, and a byte count in
    each block under construction. A delete larger than the total is
    refused and leaves the total as it was, so that a bogus size report
    cannot reset the accounting to zero while other blocks are still being
    built. */
module ByteTracker {

  /** The state of one thin block under reconstruction; of it, only the
      number of bytes accumulated so far is modelled. */
  class BlockThinRelay {
    var nCurrentBlockSize: nat

    constructor ()
      ensures nCurrentBlockSize == 0
    {
      nCurrentBlockSize := 0;
    }

    /** Clears the block's state, which zeroes its byte count. */
    method SetNull()
      modifies this`nCurrentBlockSize
      ensures nCurrentBlockSize == 0
    {
      nCurrentBlockSize := 0;
    }
  }

  /** The total after a request to delete `bytes` from `total`: the request
      is honoured exactly when it fits and refused otherwise, so the total
      can only reach 0 through a delete of exactly what is left. */
  function Deleted(total: nat, bytes: nat): (r: nat)
    ensures bytes <= total ==> r + bytes == total
    ensures bytes > total ==> r == total
    ensures r <= total
  {
    if bytes <= total then total - bytes else total
  }

  /** A refused delete cannot zero the total: after a delete the total is 0
      only if it already was or the delete asked for exactly all of it. */
  lemma DeleteNeverResets(total: nat, bytes: nat)
    ensures Deleted(total, bytes) == 0 <==> total == 0 || bytes == total
  {
  }

  /** The process-wide tracker (`thinrelay` in the node). */
  class ThinRelay {
    var totalBlockBytes: nat

    constructor ()
      ensures totalBlockBytes == 0
    {
      totalBlockBytes := 0;
    }

    /** Accounts `bytes` more to the total and to the block they belong to. */
    method AddTotalBlockBytes(bytes: nat, pblock: BlockThinRelay)
      modifies this`totalBlockBytes, pblock`nCurrentBlockSize
      ensures totalBlockBytes == old(totalBlockBytes) + bytes
      ensures pblock.nCurrentBlockSize == old(pblock.nCurrentBlockSize) + bytes
    {
      pblock.nCurrentBlockSize := pblock.nCurrentBlockSize + bytes;
      totalBlockBytes := totalBlockBytes + bytes;
    }

    /** Releases `bytes` from the total unless that is more than it holds;
      no block's count changes. */
    method DeleteTotalBlockBytes(bytes: nat)
      modifies this`totalBlockBytes
      ensures totalBlockBytes == Deleted(old(totalBlockBytes), bytes)
    {
      if bytes <= totalBlockBytes {
        totalBlockBytes := totalBlockBytes - bytes;
      }
    }

    method ResetTotalBlockBytes()
      modifies this`totalBlockBytes
      ensures totalBlockBytes == 0
    {
      totalBlockBytes := 0;
    }

    method GetTotalBlockBytes() returns (total: nat)
      ensures total == totalBlockBytes
    {
      total := totalBlockBytes;
    }
  }

  // A value-level account of sequences of tracker calls, with blocks named
  // by number, for stating what a whole series of calls does.

  datatype Op = Add(bytes: nat, block: nat) | Delete(bytes: nat) | Reset | SetNull(block: nat)

  /** The tracker's total and the byte count of every block (absent: 0). */
  datatype Tracker = Tracker(total: nat, sizes: map<nat, nat>)

  function BlockSize(t: Tracker, b: nat): nat
  {
    if b in t.sizes then t.sizes[b] else 0
  }

  /** The effect of one call on the tracker and the blocks. */
  function Step(t: Tracker, op: Op): (r: Tracker)
    ensures op.Add? ==> r.total == t.total + op.bytes
                        && BlockSize(r, op.block) == BlockSize(t, op.block) + op.bytes
    ensures op.Delete? ==> r.total == Deleted(t.total, op.bytes) && r.sizes == t.sizes
    ensures op.Reset? ==> r.total == 0 && r.sizes == t.sizes
    ensures op.SetNull? ==> r.total == t.total && BlockSize(r, op.block) == 0
    ensures forall b :: (op.Add? || op.SetNull?) && b != op.block ==> BlockSize(r, b) == BlockSize(t, b)
  {
    match op
    case Add(n, b) => Tracker(t.total + n, t.sizes[b := BlockSize(t, b) + n])
    case Delete(n) => Tracker(Deleted(t.total, n), t.sizes)
    case Reset => Tracker(0, t.sizes)
    case SetNull(b) => Tracker(t.total, t.sizes[b := 0])
  }

  /** The trace state of a tracker with a single block, named 0. */
  function OneBlock(total: nat, size: nat): (t: Tracker)
    ensures t.total == total && BlockSize(t, 0) == size
  {
    Tracker(total, map[0 := size])
  }

  /** Step agrees with the methods of ThinRelay and BlockThinRelay: on a
      tracker with one block, each call kind moves the total and the block's
      count exactly as the corresponding method's postcondition says. */
  lemma StepMatchesMethods(total: nat, size: nat, bytes: nat)
    ensures Step(OneBlock(total, size), Add(bytes, 0)) == OneBlock(total + bytes, size + bytes)
    ensures Step(OneBlock(total, size), Delete(bytes)) == OneBlock(Deleted(total, bytes), size)
    ensures Step(OneBlock(total, size), Reset) == OneBlock(0, size)
    ensures Step(OneBlock(total, size), SetNull(0)) == OneBlock(total, 0)
  {
    assert map[0 := size][0 := size + bytes] == map[0 := size + bytes];
    assert map[0 := size][0 := 0] == map[0 := 0];
  }

  /** The effect of a series of calls, first to last. */
  function Run(t: Tracker, ops: seq<Op>): Tracker
    decreases |ops|
  {
    if ops == [] then t else Run(Step(t, ops[0]), ops[1..])
  }

  predicate OnlyAdds(ops: seq<Op>) { forall i :: 0 <= i < |ops| ==> ops[i].Add? }

  predicate OnlyDeletes(ops: seq<Op>) { forall i :: 0 <= i < |ops| ==> ops[i].Delete? }

  /** Bytes added by a series of calls, over all blocks. */
  function BytesAdded(ops: seq<Op>): nat
    decreases |ops|
  {
    if ops == [] then 0 else (if ops[0].Add? then ops[0].bytes else 0) + BytesAdded(ops[1..])
  }

  /** Bytes added by a series of calls to block b. */
  function BytesAddedTo(ops: seq<Op>, b: nat): nat
    decreases |ops|
  {
    if ops == [] then 0
    else (if ops[0].Add? && ops[0].block == b then ops[0].bytes else 0) + BytesAddedTo(ops[1..], b)
  }

  /** Bytes asked for by the deletes of a series of calls. */
  function BytesDeleted(ops: seq<Op>): nat
    decreases |ops|
  {
    if ops == [] then 0 else (if ops[0].Delete? then ops[0].bytes else 0) + BytesDeleted(ops[1..])
  }

  /** With adds only, the total grows by the sum of all amounts and each
      block by the sum of the amounts added to it. */
  lemma {:induction false} AddsAccumulate(t: Tracker, ops: seq<Op>, b: nat)
    requires OnlyAdds(ops)
    ensures Run(t, ops).total == t.total + BytesAdded(ops)
    ensures BlockSize(Run(t, ops), b) == BlockSize(t, b) + BytesAddedTo(ops, b)
    decreases |ops|
  {
    if ops != [] {
      AddsAccumulate(Step(t, ops[0]), ops[1..], b);
    }
  }

  /** With deletes only, no block's count changes, the total never grows,
      it never loses more than was asked for, and it loses exactly what was
      asked for when that much was there. */
  lemma {:induction false} DeletesRelease(t: Tracker, ops: seq<Op>)
    requires OnlyDeletes(ops)
    ensures Run(t, ops).sizes == t.sizes
    ensures Run(t, ops).total <= t.total <= Run(t, ops).total + BytesDeleted(ops)
    ensures BytesDeleted(ops) <= t.total ==> Run(t, ops).total + BytesDeleted(ops) == t.total
    decreases |ops|
  {
    if ops != [] {
      DeletesRelease(Step(t, ops[0]), ops[1..]);
    }
  }

  /** After a reset and then adds only, the total is exactly what was added. */
  lemma ResetThenAdds(t: Tracker, ops: seq<Op>)
    requires OnlyAdds(ops)
    ensures Run(t, [Reset] + ops).total == BytesAdded(ops)
  {
    assert ([Reset] + ops)[1..] == ops;
    AddsAccumulate(Step(t, Reset), ops, 0);
  }

  /** Clearing a block and adding n to it leaves the block at n and the
      total n higher. */
  lemma SetNullThenAdd(t: Tracker, b: nat, n: nat)
    ensures BlockSize(Run(t, [SetNull(b), Add(n, b)]), b) == n
    ensures Run(t, [SetNull(b), Add(n, b)]).total == t.total + n
  {
    var cleared := Step(t, SetNull(b));
    assert [SetNull(b), Add(n, b)][1..] == [Add(n, b)];
    assert Run(t, [SetNull(b), Add(n, b)]) == Run(cleared, [Add(n, b)]);
    assert Run(cleared, [Add(n, b)]) == Step(cleared, Add(n, b));
  }
}
