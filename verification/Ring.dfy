/**
 The bridge's ring of SLOT_COUNT buffers, as a value: the producer slot is the
 next one to fill, the consumer slot the oldest one still in use, and one slot
 is always kept free so that full and empty differ.
 */
module Ring {
  import opened Bytes

  const SLOT_COUNT: nat := 128
  const BUF_SIZE: nat := 4096

  /** One buffer: `data` is the whole allocation, `size` says how much of it is in use. */
  datatype Buffer = Buffer(size: nat, data: bytes)

  datatype Ring = Ring(slots: seq<Buffer>, producer: nat, consumer: nat)

  function NextSlot(slot: nat): nat {
    (slot + 1) % SLOT_COUNT
  }

  predicate Full(r: Ring) {
    NextSlot(r.producer) == r.consumer
  }

  predicate Empty(r: Ring) {
    r.producer == r.consumer
  }

  /** The i-th slot counted from slot `c`, around the ring once. */
  function Slot(c: nat, i: nat): nat {
    if c + i < SLOT_COUNT then c + i else c + i - SLOT_COUNT
  }

  /** How many slots are in use: consumer up to, not including, producer. */
  function Used(r: Ring): (n: int) {
    if r.consumer <= r.producer then r.producer - r.consumer else r.producer + SLOT_COUNT - r.consumer
  }

  ghost predicate Shape(r: Ring) {
    && |r.slots| == SLOT_COUNT
    && r.producer < SLOT_COUNT && r.consumer < SLOT_COUNT
    && forall j :: 0 <= j < SLOT_COUNT ==> |r.slots[j].data| == BUF_SIZE && r.slots[j].size <= BUF_SIZE
  }

  function Content(b: Buffer): bytes
    requires b.size <= |b.data|
  {
    b.data[..b.size]
  }

  /** What the ring holds, oldest buffer first. */
  ghost function Queue(r: Ring): (q: seq<bytes>)
    requires Shape(r)
    ensures |q| == Used(r)
  {
    seq(Used(r), i requires 0 <= i < Used(r) => Content(r.slots[Slot(r.consumer, i)]))
  }

  /** The emptiness and fullness tests say what the used count says, for every pair of cursors. */
  lemma FullAndEmpty(r: Ring)
    requires r.producer < SLOT_COUNT && r.consumer < SLOT_COUNT
    ensures Empty(r) <==> Used(r) == 0
    ensures Full(r) <==> Used(r) == SLOT_COUNT - 1
    ensures Used(r) < SLOT_COUNT && Slot(r.consumer, Used(r)) == r.producer
  {
  }

  lemma SlotStep(c: nat, i: nat)
    requires c < SLOT_COUNT && i < SLOT_COUNT
    ensures NextSlot(Slot(c, i)) == Slot(c, i + 1)
  {
  }

  lemma SlotsDiffer(c: nat, i: nat, j: nat)
    requires c < SLOT_COUNT && i < j < SLOT_COUNT
    ensures Slot(c, i) != Slot(c, j)
  {
  }

  /** Overwrite the front of a buffer, as a receive into it does. */
  function Fill(b: Buffer, chunk: bytes): Buffer
    requires |chunk| <= |b.data|
  {
    Buffer(|chunk|, chunk + b.data[|chunk|..])
  }

  /** A receive into the producer slot. */
  function PutOne(r: Ring, chunk: bytes): Ring
    requires r.producer < |r.slots| && |chunk| <= |r.slots[r.producer].data|
  {
    Ring(r.slots[r.producer := Fill(r.slots[r.producer], chunk)], NextSlot(r.producer), r.consumer)
  }

  /** A run of receives that fits the ring: a fresh slot for each, each at most one buffer. */
  ghost predicate Fits(r: Ring, chunks: seq<bytes>) {
    && Shape(r)
    && Used(r) + |chunks| < SLOT_COUNT
    && forall i :: 0 <= i < |chunks| ==> 1 <= |chunks[i]| <= BUF_SIZE
  }

  ghost function Put(r: Ring, chunks: seq<bytes>): (t: Ring)
    requires Fits(r, chunks)
    ensures Shape(t) && t.consumer == r.consumer && Used(t) == Used(r) + |chunks|
    decreases |chunks|
  {
    if chunks == [] then
      r
    else
      var m := Put(r, chunks[..|chunks| - 1]);
      FullAndEmpty(m);
      PutOne(m, chunks[|chunks| - 1])
  }

  /** A receive appends to the queue and touches no slot in use. */
  lemma PutOneQueue(r: Ring, chunk: bytes)
    requires Shape(r) && !Full(r) && 1 <= |chunk| <= BUF_SIZE
    ensures Shape(PutOne(r, chunk)) && Used(PutOne(r, chunk)) == Used(r) + 1
    ensures Queue(PutOne(r, chunk)) == Queue(r) + [chunk]
    ensures forall i :: 0 <= i < Used(r) ==> PutOne(r, chunk).slots[Slot(r.consumer, i)] == r.slots[Slot(r.consumer, i)]
  {
    var t := PutOne(r, chunk);
    FullAndEmpty(r);
    forall i | 0 <= i < Used(r)
      ensures t.slots[Slot(r.consumer, i)] == r.slots[Slot(r.consumer, i)]
    {
      SlotsDiffer(r.consumer, i, Used(r));
    }
    assert Content(t.slots[r.producer]) == chunk;
  }

  /** A run of receives appends exactly its chunks, in order, and touches no slot in use. */
  lemma {:induction false} PutQueue(r: Ring, chunks: seq<bytes>)
    requires Fits(r, chunks)
    ensures Queue(Put(r, chunks)) == Queue(r) + chunks
    ensures forall i :: 0 <= i < Used(r) ==> Put(r, chunks).slots[Slot(r.consumer, i)] == r.slots[Slot(r.consumer, i)]
    decreases |chunks|
  {
    if chunks != [] {
      var n := |chunks| - 1;
      PutQueue(r, chunks[..n]);
      var m := Put(r, chunks[..n]);
      FullAndEmpty(m);
      PutOneQueue(m, chunks[n]);
      assert chunks == chunks[..n] + [chunks[n]];
    }
  }

  /** Advance the consumer past `k` slots. */
  function Release(r: Ring, k: nat): Ring {
    r.(consumer := Slot(r.consumer, k))
  }

  lemma ReleaseQueue(r: Ring, k: nat)
    requires Shape(r) && k <= Used(r)
    ensures Shape(Release(r, k)) && Used(Release(r, k)) == Used(r) - k
    ensures Queue(Release(r, k)) == Queue(r)[k..]
  {
    assert Used(Release(r, k)) == Used(r) - k;
    assert forall i :: 0 <= i < Used(r) - k ==> Slot(Release(r, k).consumer, i) == Slot(r.consumer, k + i);
  }
}
