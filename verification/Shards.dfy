/** Several shards working on the shared tiers at once, one cache operation at a time. */
module Shards {
  import opened Pdata
  import opened TraceValues
  import opened Lru

  // ----- which shard owns a trace -----

  const FNV_OFFSET: bv32 := 2166136261
  const FNV_PRIME: bv32 := 16777619
  const SEED: seq<Byte> := [0x73, 0x33, 0x33, 0x64]

  function Bits(b: Byte): bv32 { b as bv32 }

  function Mix(h: bv32, x: bv32): bv32 { (h ^ x) * FNV_PRIME }

  /** Writing bytes to a 32-bit FNV-1a hash. */
  function Write(h: bv32, bytes: seq<Byte>): bv32
    decreases |bytes|
  {
    if bytes == [] then h else Write(Mix(h, Bits(bytes[0])), bytes[1..])
  }

  /** `shardIDForTrace`: a shard from 0 to n - 1, a function of the trace ID alone. */
  function ShardIDForTrace(tid: TraceID, n: nat): (shard: nat)
    requires 0 < n < 0x1_0000_0000
    ensures shard < n
  {
    (Write(Write(FNV_OFFSET, SEED), tid.bytes) as int) % n
  }

  /** The hash of one write of everything is that of several writes, in order. */
  lemma {:induction false} WriteConcat(h: bv32, a: seq<Byte>, b: seq<Byte>)
    ensures Write(h, a + b) == Write(Write(h, a), b)
    decreases |a|
  {
    if a == [] {
      assert a + b == b;
    } else {
      WriteConcat(Mix(h, Bits(a[0])), a[1..], b);
      assert (a + b)[1..] == a[1..] + b;
    }
  }

  lemma BitsOf(b: Byte)
    ensures b == 0x33 ==> Bits(b) == 0x33
    ensures b == 0x61 ==> Bits(b) == 0x61
    ensures b == 0x62 ==> Bits(b) == 0x62
    ensures b == 0x64 ==> Bits(b) == 0x64
    ensures b == 0x66 ==> Bits(b) == 0x66
    ensures b == 0x6f ==> Bits(b) == 0x6f
    ensures b == 0x72 ==> Bits(b) == 0x72
    ensures b == 0x73 ==> Bits(b) == 0x73
  {
  }

  lemma WriteByte(h: bv32, bytes: seq<Byte>, b: bv32, h': bv32)
    requires bytes != [] && Bits(bytes[0]) == b && Mix(h, b) == h'
    ensures Write(h, bytes) == Write(h', bytes[1..])
  {
  }

  /** The published 32-bit FNV-1a hash of "foobar". */
  lemma FnvOfFoobar(s: seq<Byte>)
    requires s == [0x66, 0x6f, 0x6f, 0x62, 0x61, 0x72]
    ensures Write(FNV_OFFSET, s) == 0xbf9cf968
  {
    forall i | 0 <= i < |s| { BitsOf(s[i]); }
    WriteByte(0x811c9dc5, s, 0x66, 0xe30c2799);
    WriteByte(0xe30c2799, s[1..], 0x6f, 0x6222e842);
    WriteByte(0x6222e842, s[2..], 0x6f, 0xa9f37ed7);
    WriteByte(0xa9f37ed7, s[3..], 0x62, 0x3f5076ef);
    WriteByte(0x3f5076ef, s[4..], 0x61, 0x39aaa18a);
    WriteByte(0x39aaa18a, s[5..], 0x72, 0xbf9cf968);
  }

  lemma HashOfSeed()
    ensures Write(FNV_OFFSET, SEED) == 0x772a50bc
  {
    forall i | 0 <= i < |SEED| { BitsOf(SEED[i]); }
    WriteByte(0x811c9dc5, SEED, 0x73, 0xf60c4582);
    WriteByte(0xf60c4582, SEED[1..], 0x33, 0x0651b5a3);
    WriteByte(0x0651b5a3, SEED[2..], 0x33, 0x82a0d1b0);
    WriteByte(0x82a0d1b0, SEED[3..], 0x64, 0x772a50bc);
  }

  /** The shard is the hash of the seed followed by the trace ID, modulo the shard count. */
  lemma ShardIsSeededHash(tid: TraceID, n: nat)
    requires 0 < n < 0x1_0000_0000
    ensures ShardIDForTrace(tid, n) == (Write(0x811c9dc5, SEED + tid.bytes) as int) % n
    ensures ShardIDForTrace(tid, n) == (Write(0x772a50bc, tid.bytes) as int) % n
  {
    HashOfSeed();
    WriteConcat(FNV_OFFSET, SEED, tid.bytes);
  }

  // ----- shards and the shared tiers -----

  /** Where a shard is between two operations on the shared tiers. `Owns`: it works on a trace and
      may start an operation of the tiered cache; the others are in the middle of one. */
  datatype Pc = Free | Owns(id: TraceID) | PutLow(id: TraceID) | PutHigh(id: TraceID) | Deleting(id: TraceID)

  /** A held object is represented by its priority, which its owner may change in place. */
  datatype System = System(primary: Lru<Priority>, secondary: Lru<Priority>, pcs: seq<Pc>)

  datatype Action =
    | Begin(id: TraceID) | End
    | GetPrimary | GetSecondary
    | Mutate(p: Priority)
    | DeletePrimaryForPut | PutSecondary(v: Priority)
    | DeleteSecondaryForPut | PutPrimary(w: Priority)
    | DeletePrimary | DeleteSecondary

  ghost predicate Valid(y: System) {
    y.primary.Valid() && y.secondary.Valid()
  }

  function Mutated(c: Lru<Priority>, id: TraceID, p: Priority): Lru<Priority> {
    if id in c.vals then c.Mutated(id, p) else c
  }

  /** Which shard works on a trace. */
  type Owner = TraceID -> nat

  /** One cache operation of shard `i`. A shard only begins on a trace that it owns. Evictions
      that the operation causes may hit traces of any shard. */
  ghost predicate ShardStep(y: System, y': System, i: nat, a: Action, owner: Owner) {
    && i < |y.pcs| && |y'.pcs| == |y.pcs|
    && var pc := y.pcs[i];
    match a
    case Begin(id) => pc == Free && owner(id) == i && y' == y.(pcs := y.pcs[i := Owns(id)])
    case End => pc.Owns? && y' == y.(pcs := y.pcs[i := Free])
    case GetPrimary => pc.Owns? && y' == y.(primary := y.primary.Touched(pc.id))
    case GetSecondary => pc.Owns? && y' == y.(secondary := y.secondary.Touched(pc.id))
    case Mutate(p) => pc.Owns? && y' == y.(primary := Mutated(y.primary, pc.id, p),
        secondary := Mutated(y.secondary, pc.id, p))
    case DeletePrimaryForPut => pc.Owns? && y' == y.(primary := y.primary.Removed(pc.id),
        pcs := y.pcs[i := PutLow(pc.id)])
    case PutSecondary(v) => pc.PutLow? && y' == y.(secondary := y.secondary.Added(pc.id, v),
        pcs := y.pcs[i := Owns(pc.id)])
    case DeleteSecondaryForPut => pc.Owns? && y' == y.(secondary := y.secondary.Removed(pc.id),
        pcs := y.pcs[i := PutHigh(pc.id)])
    case PutPrimary(v) => pc.PutHigh? && y' == y.(primary := y.primary.Added(pc.id, v), pcs := y.pcs[i := Owns(pc.id)])
    case DeletePrimary => pc.Owns? && y' == y.(primary := y.primary.Removed(pc.id), pcs := y.pcs[i := Deleting(pc.id)])
    case DeleteSecondary => pc.Deleting? && y' == y.(secondary := y.secondary.Removed(pc.id),
        pcs := y.pcs[i := Owns(pc.id)])
  }

  /** A resize of the primary tier. The code runs it under the write lock, when every shard is free. */
  ghost predicate ResizeStep(y: System, y': System, size: nat) {
    (forall i :: 0 <= i < |y.pcs| ==> y.pcs[i] == Free) && y' == y.(primary := y.primary.Resized(size))
  }

  ghost predicate Step(y: System, y': System, owner: Owner) {
    (exists i: nat, a :: ShardStep(y, y', i, a, owner)) || (exists size: nat :: ResizeStep(y, y', size))
  }

  // ----- the invariant -----

  /** A shard works on traces it owns, and what it has deleted for a put stays deleted. */
  ghost predicate PcOk(y: System, i: nat, owner: Owner)
    requires i < |y.pcs|
  {
    && (y.pcs[i] != Free ==> owner(y.pcs[i].id) == i)
    && (y.pcs[i].PutLow? ==> y.pcs[i].id !in y.primary.vals)
    && (y.pcs[i].PutHigh? ==> y.pcs[i].id !in y.secondary.vals)
  }

  ghost predicate TiersInv(y: System, owner: Owner) {
    && Valid(y)
    && y.primary.vals.Keys !! y.secondary.vals.Keys
    && (forall i :: 0 <= i < |y.pcs| ==> PcOk(y, i, owner))
  }

  /** An operation of shard `i` on its own trace, which inserts no other key anywhere. */
  lemma OthersUnaffected(y: System, y': System, i: nat, id: TraceID, owner: Owner)
    requires TiersInv(y, owner) && owner(id) == i
    requires |y'.pcs| == |y.pcs| && (forall j :: 0 <= j < |y.pcs| && j != i ==> y'.pcs[j] == y.pcs[j])
    requires y'.primary.vals.Keys <= y.primary.vals.Keys + {id}
    requires y'.secondary.vals.Keys <= y.secondary.vals.Keys + {id}
    ensures forall j :: 0 <= j < |y.pcs| && j != i ==> PcOk(y', j, owner)
  {
    forall j | 0 <= j < |y.pcs| && j != i ensures PcOk(y', j, owner) {
      assert PcOk(y, j, owner);
    }
  }

  lemma KeysAfter(c: Lru<Priority>, id: TraceID, v: Priority)
    requires c.Valid()
    ensures c.Touched(id).Valid() && c.Touched(id).vals == c.vals
    ensures c.Removed(id).Valid() && c.Removed(id).vals.Keys == c.vals.Keys - {id}
    ensures c.Added(id, v).Valid() && c.Added(id, v).vals.Keys <= c.vals.Keys + {id}
    ensures Mutated(c, id, v).Valid() && Mutated(c, id, v).vals.Keys == c.vals.Keys
  {
    TouchedValid(c, id);
    RemovedValid(c, id);
    AddedValid(c, id, v);
  }

  /** The effect of one operation of shard `i` on the keys of the tiers. */
  lemma ShardStepKeys(y: System, y': System, i: nat, a: Action, id: TraceID, owner: Owner)
    requires TiersInv(y, owner) && ShardStep(y, y', i, a, owner)
    requires id == if a.Begin? then a.id else y.pcs[i].id
    ensures Valid(y') && owner(id) == i
    ensures y'.primary.vals.Keys <= y.primary.vals.Keys + (if a.PutPrimary? then {id} else {})
    ensures y'.secondary.vals.Keys <= y.secondary.vals.Keys + (if a.PutSecondary? then {id} else {})
    ensures forall j :: 0 <= j < |y.pcs| && j != i ==> y'.pcs[j] == y.pcs[j]
  {
    assert PcOk(y, i, owner);
    var v := if a.PutSecondary? then a.v else if a.PutPrimary? then a.w else if a.Mutate? then a.p else Low;
    KeysAfter(y.primary, id, v);
    KeysAfter(y.secondary, id, v);
  }

  lemma ShardStepKeeps(y: System, y': System, i: nat, a: Action, owner: Owner)
    requires TiersInv(y, owner) && ShardStep(y, y', i, a, owner)
    ensures TiersInv(y', owner)
  {
    var id := if a.Begin? then a.id else y.pcs[i].id;
    ShardStepKeys(y, y', i, a, id, owner);
    assert PcOk(y, i, owner);
    OthersUnaffected(y, y', i, id, owner);
    assert PcOk(y', i, owner);
  }

  lemma ResizeKeeps(y: System, y': System, size: nat, owner: Owner)
    requires TiersInv(y, owner) && ResizeStep(y, y', size)
    ensures TiersInv(y', owner)
  {
    ResizedValid(y.primary, size);
    forall i | 0 <= i < |y'.pcs| ensures PcOk(y', i, owner) { assert PcOk(y, i, owner); }
  }

  // ----- executions -----

  ghost predicate IsExecution(ys: seq<System>, owner: Owner) {
    && ys != []
    && Valid(ys[0]) && ys[0].primary.vals == map[] && ys[0].secondary.vals == map[]
    && (forall i :: 0 <= i < |ys[0].pcs| ==> ys[0].pcs[i] == Free)
    && (forall k :: 0 <= k < |ys| - 1 ==> Step(ys[k], ys[k + 1], owner))
  }

  lemma {:induction false} ExecutionKeeps(ys: seq<System>, owner: Owner, k: nat)
    requires IsExecution(ys, owner) && k < |ys|
    ensures TiersInv(ys[k], owner)
  {
    if k > 0 {
      ExecutionKeeps(ys, owner, k - 1);
      var y, y' := ys[k - 1], ys[k];
      assert Step(ys[k - 1], ys[k - 1 + 1], owner);
      if i: nat, a :| ShardStep(y, y', i, a, owner) {
        ShardStepKeeps(y, y', i, a, owner);
      } else {
        var size: nat :| ResizeStep(y, y', size);
        ResizeKeeps(y, y', size, owner);
      }
    }
  }

  /** With any number of shards interleaving at the grain of one cache operation, no trace is ever
      in both tiers, not even in the middle of a put. */
  lemma TiersDisjointUnderConcurrency(ys: seq<System>, n: nat, k: nat, id: TraceID)
    requires 0 < n < 0x1_0000_0000 && k < |ys|
    requires IsExecution(ys, (tid: TraceID) => ShardIDForTrace(tid, n))
    ensures !(id in ys[k].primary.vals && id in ys[k].secondary.vals)
  {
    ExecutionKeeps(ys, (tid: TraceID) => ShardIDForTrace(tid, n), k);
  }
}
