/**
  Striping a message over several queue pairs (comm/src/rdma_transport.h,
  comm/src/rdma_van.h) and the pool whose indices travel as immediate data
  (comm/src/van_common.h).
 */
module Striping {
  import opened Prelude

  // ---------------------------------------------------------------- chunks

  datatype Chunk = Chunk(offset: nat, length: nat)

  // Adjacent chunks from 0 to len.
  ghost predicate Covers(chunks: seq<Chunk>, len: nat) {
    && chunks != [] && chunks[0].offset == 0
    && (forall i :: 0 < i < |chunks| ==> chunks[i].offset == chunks[i - 1].offset + chunks[i - 1].length)
    && chunks[|chunks| - 1].offset + chunks[|chunks| - 1].length == len
  }

  // The work requests of a striped send: the first takes the remainder.
  method Stripe(len: nat, qps: nat) returns (chunks: seq<Chunk>)
    requires qps > 0
    ensures |chunks| == qps && Covers(chunks, len)
    ensures chunks[0].length == len / qps + len % qps && forall i :: 0 < i < qps ==> chunks[i].length == len / qps
  {
    var chunk := len / qps;
    var length := chunk + len % qps;
    var address := 0;
    chunks := [Chunk(address, length)];
    Remaining(len, qps);
    address := address + length;
    length := chunk;
    for qp := 1 to qps
      invariant |chunks| == qp && chunks[0] == Chunk(0, chunk + len % qps) && length == chunk
      invariant address + Times(qps - qp, chunk) == len
      invariant forall i :: 0 < i < qp ==> chunks[i].length == chunk
      invariant forall i :: 0 < i < qp ==> chunks[i].offset == chunks[i - 1].offset + chunks[i - 1].length
      invariant chunks[qp - 1].offset + chunks[qp - 1].length == address
    {
      chunks := chunks + [Chunk(address, length)];
      address := address + length;
    }
  }

  ghost function Times(k: nat, c: nat): nat {
    if k == 0 then 0 else Times(k - 1, c) + c
  }

  lemma {:induction false} TimesIs(k: nat, c: nat)
    ensures Times(k, c) == k * c
  {
    if k > 0 { TimesIs(k - 1, c); }
  }

  lemma Remaining(len: nat, qps: nat)
    requires qps > 0
    ensures len / qps + len % qps + Times(qps - 1, len / qps) == len
  {
    TimesIs(qps - 1, len / qps);
    assert (qps - 1) * (len / qps) + len / qps == qps * (len / qps);
  }

  // Every byte lies in exactly one chunk.
  lemma {:induction false} InOneChunk(chunks: seq<Chunk>, len: nat, p: nat)
    requires Covers(chunks, len) && p < len
    ensures exists i :: 0 <= i < |chunks| && In(chunks[i], p)
    ensures forall i, j :: 0 <= i < j < |chunks| ==> !(In(chunks[i], p) && In(chunks[j], p))
  {
    ChunksGrow(chunks, len);
    var i := 0;
    while !In(chunks[i], p)
      invariant i < |chunks| && chunks[i].offset <= p
      decreases |chunks| - i
    {
      i := i + 1;
    }
  }

  predicate In(c: Chunk, p: nat) {
    c.offset <= p < c.offset + c.length
  }

  lemma ChunksGrow(chunks: seq<Chunk>, len: nat)
    requires Covers(chunks, len)
    ensures forall i, j :: 0 <= i < j < |chunks| ==> chunks[i].offset + chunks[i].length <= chunks[j].offset
  {
    forall i, j | 0 <= i < j < |chunks| ensures chunks[i].offset + chunks[i].length <= chunks[j].offset {
      ChunkBefore(chunks, len, i, j);
    }
  }

  lemma {:induction false} ChunkBefore(chunks: seq<Chunk>, len: nat, i: nat, j: nat)
    requires Covers(chunks, len) && i < j < |chunks|
    ensures chunks[i].offset + chunks[i].length <= chunks[j].offset
    decreases j
  {
    if i < j - 1 { ChunkBefore(chunks, len, i, j - 1); }
  }

  // ---------------------------------------------------------------- immediate data

  function SlaveImmediate(idx: bv32): bv32 {
    idx | 0x8000
  }

  predicate IsSlave(imm: bv32) {
    imm & 0x8000 != 0
  }

  // A slave's immediate is always recognised, whatever the index.
  lemma SlaveRecognised(idx: bv32)
    ensures IsSlave(SlaveImmediate(idx))
  {
  }

  // No index of the pool is taken for a slave's immediate exactly when the pool
  // has at most 32768 entries.
  lemma PoolSizeLimit(size: bv32)
    ensures (forall idx: bv32 :: idx < size ==> !IsSlave(idx)) <==> size <= 0x8000
  {
    assert IsSlave(0x8000);
    forall idx: bv32 | idx < 0x8000 ensures !IsSlave(idx) {
      SmallIndex(idx);
    }
  }

  lemma SmallIndex(idx: bv32)
    requires idx < 0x8000
    ensures idx & 0x8000 == 0
  {
  }

  class AddressPool<T(==)> {
    var indices: seq<nat>         // free indices, first in first out
    var table: seq<Option<T>>

    // Exactly the empty places are free, each once.
    ghost predicate Valid()
      reads this
    {
      && (forall i :: i in indices <==> 0 <= i < |table| && table[i] == None)
      && Distinct(indices)
    }

    constructor (maxEntries: nat)
      ensures Valid() && |table| == maxEntries && forall i :: 0 <= i < maxEntries ==> table[i] == None
    {
      indices, table := seq(maxEntries, i => i), seq(maxEntries, _ => None);
      new;
      assert forall i :: 0 <= i < |indices| ==> indices[i] == i;
      forall i ensures i in indices <==> 0 <= i < maxEntries {
        if 0 <= i < maxEntries { assert indices[i] == i; }
      }
    }

    // None when the pool is exhausted.
    method StoreAddress(x: T) returns (idx: Option<nat>)
      requires Valid()
      modifies this
      ensures Valid() && (idx.None? <==> forall i :: 0 <= i < |old(table)| ==> old(table)[i] != None)
      ensures table == if idx.Some? && idx.value < |old(table)| then old(table)[idx.value := Some(x)] else old(table)
      ensures idx.Some? ==> idx.value < |table| && old(table)[idx.value] == None
    {
      if indices == [] { return None; }
      var i := indices[0];
      assert i in indices;
      TailLacksHead(indices);
      indices := indices[1..];
      table := table[i := Some(x)];
      return Some(i);
    }

    // None when nothing is stored there.
    method GetAddressAndRelease(idx: nat) returns (x: Option<T>)
      requires Valid() && idx < |table|
      modifies this
      ensures Valid() && x == old(table)[idx] && table == old(table)[idx := None]
    {
      x := table[idx];
      if x == None { return; }
      indices := indices + [idx];
      table := table[idx := None];
    }
  }
}
