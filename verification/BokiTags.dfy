/** Stream tags of the shared log: 64-bit values built from a string hash and three kind bits. */
module BokiTags {
  import opened Wrappers

  type Hash = string -> bv64

  const INTENT_LOG_TAG: bv64 := 1
  const INTENT_STEP_STREAM_LOW_BITS: bv64 := 2
  const LOCK_STREAM_LOW_BITS: bv64 := 3
  const TRANSACTION_STREAM_LOW_BITS: bv64 := 4

  /** Shift the hash, add the kind bits, and refuse the two reserved values (Panic). */
  function MakeTag(h: bv64, lowBits: bv64): (tag: Result<bv64>)
    ensures lowBits == 2 || lowBits == 3 || lowBits == 4 ==> tag.Ok? && tag.value & 7 == lowBits
  {
    var tag := (h << 3) + lowBits;
    if tag == 0 || !tag == 0 then Panic("Invalid tag") else Ok(tag)
  }

  /** The part of a hash that a tag has room for. */
  function Low61(h: bv64): bv64 {
    h & 0x1FFF_FFFF_FFFF_FFFF
  }

  /** Those bits, read off a tag. */
  function HashBits(tag: bv64, lowBits: bv64): bv64 {
    (tag - lowBits) >> 3
  }

  lemma TagHasHashBits(h: bv64, lowBits: bv64)
    requires lowBits == 2 || lowBits == 3 || lowBits == 4
    ensures MakeTag(h, lowBits).Ok? && HashBits(MakeTag(h, lowBits).value, lowBits) == Low61(h)
  {
    MakeTagAdds(h, lowBits);
    HashBitsBack(h, lowBits);
  }

  lemma MakeTagAdds(h: bv64, lowBits: bv64)
    requires lowBits == 2 || lowBits == 3 || lowBits == 4
    ensures MakeTag(h, lowBits) == Ok((h << 3) + lowBits)
  {
  }

  lemma HashBitsBack(h: bv64, lowBits: bv64)
    ensures HashBits((h << 3) + lowBits, lowBits) == Low61(h)
  {
  }

  lemma HighBitsLost(h: bv64, lowBits: bv64)
    requires lowBits == 2 || lowBits == 3 || lowBits == 4
    ensures MakeTag(Low61(h), lowBits) == MakeTag(h, lowBits)
  {
    MakeTagAdds(h, lowBits);
    MakeTagAdds(Low61(h), lowBits);
    SameShift(h);
  }

  lemma SameShift(h: bv64)
    ensures Low61(h) << 3 == h << 3
  {
  }

  /** Within a kind, tags are equal exactly when the hashes are, but for their three highest bits. */
  lemma TagsTellHashes(h1: bv64, h2: bv64, lowBits: bv64)
    requires lowBits == 2 || lowBits == 3 || lowBits == 4
    ensures MakeTag(h1, lowBits) == MakeTag(h2, lowBits) <==> Low61(h1) == Low61(h2)
  {
    TagHasHashBits(h1, lowBits);
    TagHasHashBits(h2, lowBits);
    HighBitsLost(h1, lowBits);
    HighBitsLost(h2, lowBits);
    if MakeTag(h1, lowBits) == MakeTag(h2, lowBits) {
      assert HashBits(MakeTag(h1, lowBits).value, lowBits) == HashBits(MakeTag(h2, lowBits).value, lowBits);
    }
    if Low61(h1) == Low61(h2) {
      assert MakeTag(Low61(h1), lowBits) == MakeTag(Low61(h2), lowBits);
    }
  }

  function IntentStepStreamTag(hash: Hash, instanceId: string): (tag: bv64)
    ensures tag & 7 == 2
  {
    MakeTag(hash(instanceId), INTENT_STEP_STREAM_LOW_BITS).value
  }

  function TransactionStreamTag(hash: Hash, lambdaId: string, txnId: string): (tag: bv64)
    ensures tag & 7 == 4
  {
    MakeTag(hash(lambdaId) ^ hash(txnId), TRANSACTION_STREAM_LOW_BITS).value
  }

  function LockStreamTag(hash: Hash, lockId: string): (tag: bv64)
    ensures tag & 7 == 3
  {
    MakeTag(hash(lockId), LOCK_STREAM_LOW_BITS).value
  }

  /** Streams of one kind share a tag exactly when the hashes of their names agree in those bits. */
  lemma CollidesExactlyWhenHashesDo(hash: Hash, a: string, b: string, l1: string, t1: string, l2: string, t2: string)
    ensures IntentStepStreamTag(hash, a) == IntentStepStreamTag(hash, b) <==> Low61(hash(a)) == Low61(hash(b))
    ensures LockStreamTag(hash, a) == LockStreamTag(hash, b) <==> Low61(hash(a)) == Low61(hash(b))
    ensures TransactionStreamTag(hash, l1, t1) == TransactionStreamTag(hash, l2, t2) <==>
              Low61(hash(l1) ^ hash(t1)) == Low61(hash(l2) ^ hash(t2))
  {
    TagsTellHashes(hash(a), hash(b), INTENT_STEP_STREAM_LOW_BITS);
    TagsTellHashes(hash(a), hash(b), LOCK_STREAM_LOW_BITS);
    TagsTellHashes(hash(l1) ^ hash(t1), hash(l2) ^ hash(t2), TRANSACTION_STREAM_LOW_BITS);
  }

  /** Streams of different kinds never share a tag, whatever the hash function does. */
  lemma KindsNeverCollide(hash: Hash, instanceId: string, lockId: string, lambdaId: string, txnId: string)
    ensures IntentStepStreamTag(hash, instanceId) != LockStreamTag(hash, lockId)
    ensures IntentStepStreamTag(hash, instanceId) != TransactionStreamTag(hash, lambdaId, txnId)
    ensures LockStreamTag(hash, lockId) != TransactionStreamTag(hash, lambdaId, txnId)
    ensures INTENT_LOG_TAG !in {IntentStepStreamTag(hash, instanceId), LockStreamTag(hash, lockId),
                                TransactionStreamTag(hash, lambdaId, txnId)}
  {
    assert INTENT_LOG_TAG & 7 == 1;
    assert IntentStepStreamTag(hash, instanceId) & 7 == 2;
    assert LockStreamTag(hash, lockId) & 7 == 3;
    assert TransactionStreamTag(hash, lambdaId, txnId) & 7 == 4;
  }
}
