/** The checkpoint descriptor and when one follows another. */
module Checkpoint {
  import opened Common

  const MAX_MESSAGE := 1048576

  datatype Descriptor = Descriptor(
    root: Identity, stream: Identity, contract: Digest, previous: Digest, payload: Digest, logHead: Digest,
    auditReceipt: Digest, generation: Counter, covered: Counter, trustEpoch: Counter,
    replayEpoch: Counter, replayToken: Counter, replaySequence: Counter, payloadSize: Counter, quiescent: bool)

  predicate Valid(d: Descriptor) {
    && d.root != ZERO_ID && d.stream != ZERO_ID && d.contract != ZERO && d.payload != ZERO
    && d.generation > 0 && d.trustEpoch > 0 && 1 <= d.payloadSize <= MAX_MESSAGE && d.quiescent
    && d.auditReceipt != ZERO && (d.covered == 0 || d.logHead != ZERO)
    && ((d.generation == 1 && d.previous == ZERO) || (d.generation > 1 && d.previous != ZERO))
  }

  predicate Follows(before: Descriptor, after: Descriptor, beforeHash: Digest) {
    && Valid(before) && Valid(after) && beforeHash != ZERO && before.generation < LAST_COUNTER
    && after.generation == before.generation + 1 && after.previous == beforeHash
    && after.root == before.root && after.stream == before.stream && after.contract == before.contract
    && after.covered >= before.covered && (after.covered != before.covered || after.logHead == before.logHead)
    && after.trustEpoch >= before.trustEpoch
    && after.replayEpoch >= before.replayEpoch && after.replayToken >= before.replayToken
    && (after.replayEpoch > before.replayEpoch || after.replayToken > before.replayToken
        || after.replaySequence >= before.replaySequence)
  }

  /** No high-water mark of `after` lies below that of `before`. */
  predicate NotBelow(before: Descriptor, after: Descriptor) {
    && after.root == before.root && after.stream == before.stream && after.contract == before.contract
    && after.covered >= before.covered && (after.covered == before.covered ==> after.logHead == before.logHead)
    && after.trustEpoch >= before.trustEpoch
    && after.replayEpoch >= before.replayEpoch && after.replayToken >= before.replayToken
    && (after.replayEpoch == before.replayEpoch && after.replayToken == before.replayToken ==>
          after.replaySequence >= before.replaySequence)
  }

  /** What a descriptor must say of itself and of its payload: whose it is, under which contract, what it covers, and
      that it is the first one exactly if it names no predecessor. */
  predicate WellMade(d: Descriptor, size: nat) {
    && ZERO_ID !in {d.root, d.stream} && ZERO !in {d.contract, d.payload, d.auditReceipt}
    && d.payloadSize == size && 0 < size <= 0x10_0000 && d.quiescent && d.trustEpoch != 0
    && (d.covered > 0 ==> d.logHead != ZERO)
    && d.generation != 0 && (d.previous == ZERO <==> d.generation == 1)
  }

  lemma ValidIff(d: Descriptor)
    ensures Valid(d) <==> WellMade(d, d.payloadSize)
  {
  }

  /** One descriptor follows another exactly when both are well made, it is the next generation, it names the other by
      its digest, and no high-water mark falls. Marks may stay where they are. */
  lemma FollowsIff(before: Descriptor, after: Descriptor, beforeHash: Digest)
    ensures Follows(before, after, beforeHash) <==>
      && WellMade(before, before.payloadSize) && WellMade(after, after.payloadSize)
      && after.generation - before.generation == 1 && after.previous == beforeHash && NotBelow(before, after)
  {
    ValidIff(before);
    ValidIff(after);
    hide Valid;
  }
}
