/**
 The symmetric sender-key ratchet of one room epoch.
 The specification is one line, `MessageKeyAt(ck0, i)`; the receiver's chain position and its
 bounded cache of skipped keys are shown to agree with it.
 */
module Ratchet {
  import opened Prelude
  import opened LargestIndices
  import opened Sodium

  const MAX_SKIPPED_MESSAGE_KEYS: nat := 200

  datatype RatchetStep = RatchetStep(messageKey: Secret, nextChain: Secret)

  /** A chain key of the wrong size yields two empty keys. */
  function DeriveRatchetStep(chain: Secret): RatchetStep {
    if chain.Size() != KEY_BYTES then RatchetStep(Raw([]), Raw([]))
    else RatchetStep(Digest(0x01, chain), Digest(0x02, chain))
  }

  // ---- the one-line specification --------------------------------------------------------

  function ChainAt(ck0: Secret, n: nat): Secret {
    if n == 0 then ck0 else Digest(0x02, ChainAt(ck0, n - 1))
  }

  function MessageKeyAt(ck0: Secret, i: nat): Secret {
    Digest(0x01, ChainAt(ck0, i))
  }

  lemma {:induction false} ChainAtSize(ck0: Secret, n: nat)
    requires ck0.Size() == KEY_BYTES
    ensures ChainAt(ck0, n).Size() == KEY_BYTES
  {
  }

  /** Restarting a chain at position `n` shifts every later position by `n`. */
  lemma {:induction false} ChainAtAdds(ck0: Secret, n: nat, i: nat)
    ensures ChainAt(ChainAt(ck0, n), i) == ChainAt(ck0, n + i)
    decreases i
  {
    if i != 0 {
      ChainAtAdds(ck0, n, i - 1);
      assert n + i - 1 == n + (i - 1);
    }
  }

  function Depth(s: Secret): nat {
    match s
    case Raw(_) => 0
    case Digest(_, of) => 1 + Depth(of)
  }

  lemma {:induction false} ChainDepth(ck0: Secret, n: nat)
    ensures Depth(ChainAt(ck0, n)) == Depth(ck0) + n
  {
    if n != 0 {
      ChainDepth(ck0, n - 1);
    }
  }

  /** No chain key, and so no message key, ever repeats along a chain. */
  lemma {:induction false} KeysDistinct(ck0: Secret, i: nat, j: nat)
    ensures ChainAt(ck0, i) == ChainAt(ck0, j) <==> i == j
    ensures MessageKeyAt(ck0, i) == MessageKeyAt(ck0, j) <==> i == j
  {
    ChainDepth(ck0, i);
    ChainDepth(ck0, j);
  }

  // ---- the sender ------------------------------------------------------------------------

  datatype Outbound = Outbound(chain: Secret, index: Uint32, keyId: string)

  /** `OutboundSenderKey::advance`: the index is a `uint32_t` and wraps. */
  function Advance(out: Outbound, nextChain: Secret): Outbound {
    if nextChain.Size() != KEY_BYTES then out
    else out.(chain := nextChain, index := (out.index + 1) % TWO_32)
  }

  /** After `n` advances the sender is at position `n` of its chain, and its 32-bit index has gone round. */
  function AdvanceAll(out: Outbound, n: nat): Outbound {
    if n == 0 then out
    else
      var before := AdvanceAll(out, n - 1);
      Advance(before, DeriveRatchetStep(before.chain).nextChain)
  }

  lemma {:induction false} AdvanceAllIs(ck0: Secret, keyId: string, n: nat)
    requires ck0.Size() == KEY_BYTES
    ensures AdvanceAll(Outbound(ck0, 0, keyId), n) == Outbound(ChainAt(ck0, n), n % TWO_32, keyId)
  {
    if n != 0 {
      AdvanceAllIs(ck0, keyId, n - 1);
      ChainAtSize(ck0, n - 1);
    }
  }

  /** A key of the wrong size neither yields nor moves anything. */
  lemma {:induction false} WrongSizeIsInert(k: Inbound, out: Outbound, key: Secret, index: Uint32)
    ensures k.chain.Size() != 32 ==> Take(k, index) == (k, None)
    ensures key.Size() != 32 ==> Advance(out, key) == out && DeriveRatchetStep(key) == RatchetStep(Raw([]), Raw([]))
  {
  }

  // ---- the receiver ----------------------------------------------------------------------

  datatype Inbound = Inbound(chain: Secret, next: Uint32, skipped: map<nat, Secret>)

  function FreshInbound(chainKey: Secret): Inbound {
    Inbound(chainKey, 0, map[])
  }

  predicate HasIndex(k: Inbound, index: Uint32) {
    if index < k.next then index in k.skipped
    else index - k.next <= MAX_SKIPPED_MESSAGE_KEYS
  }

  /** The cache holds at most 200 keys. */
  predicate WithinCap(m: map<nat, Secret>) {
    |m| <= MAX_SKIPPED_MESSAGE_KEYS
  }

  /** The keys of positions `from`, ..., `from + n - 1` of a chain whose key at `from` is `chain`. */
  function SkippedRange(chain: Secret, from: nat, n: nat): (r: map<nat, Secret>)
    ensures forall j :: j in r <==> from <= j < from + n
  {
    if n == 0 then map[]
    else SkippedRange(chain, from, n - 1)[from + n - 1 := MessageKeyAt(chain, n - 1)]
  }

  lemma {:induction false} SkippedRangeAt(chain: Secret, from: nat, n: nat, j: nat)
    requires from <= j < from + n
    ensures SkippedRange(chain, from, n)[j] == MessageKeyAt(chain, j - from)
  {
    if j != from + n - 1 {
      SkippedRangeAt(chain, from, n - 1, j);
    }
  }

  /** The cache restricted to its 200 largest indices. */
  function KeepLargestKeys(m: map<nat, Secret>): map<nat, Secret>
    decreases |m|
  {
    if WithinCap(m) then m
    else
      SizeWithout(m, Least(m.Keys));
      KeepLargestKeys(m - {Least(m.Keys)})
  }

  lemma {:induction false} SizeWithout(m: map<nat, Secret>, j: nat)
    requires j in m
    ensures |m - {j}| == |m| - 1
    ensures (m - {j}).Keys == m.Keys - {j}
  {
    assert (m - {j}).Keys == m.Keys - {j};
    assert |m - {j}| == |(m - {j}).Keys|;
    assert |m| == |m.Keys|;
  }

  lemma {:induction false} StaysWithinCap(m: map<nat, Secret>, j: nat)
    requires WithinCap(m) && j in m
    ensures WithinCap(m - {j})
  {
    SizeWithout(m, j);
  }

  lemma {:induction false} KeptKeys(m: map<nat, Secret>)
    ensures KeepLargestKeys(m).Keys == KeepLargest(m.Keys, MAX_SKIPPED_MESSAGE_KEYS)
    ensures forall j | j in KeepLargestKeys(m) :: j in m && KeepLargestKeys(m)[j] == m[j]
    ensures WithinCap(KeepLargestKeys(m))
    decreases |m|
  {
    assert |m| == |m.Keys|;
    KeepsAtMost(m.Keys, MAX_SKIPPED_MESSAGE_KEYS);
    if !WithinCap(m) {
      var least := Least(m.Keys);
      SizeWithout(m, least);
      KeptKeys(m - {least});
    }
  }

  /** Inserting into a trimmed cache and trimming again equals one trim of everything. */
  lemma {:induction false} TrimInsertTrim(m: map<nat, Secret>, j: nat, key: Secret)
    ensures KeepLargestKeys(KeepLargestKeys(m)[j := key]) == KeepLargestKeys(m[j := key])
  {
    hide WithinCap, KeepLargestKeys, KeepLargest;
    var once, all := KeepLargestKeys(m)[j := key], m[j := key];
    KeptKeys(m);
    assert once.Keys == KeepLargest(m.Keys, MAX_SKIPPED_MESSAGE_KEYS) + {j};
    assert all.Keys == m.Keys + {j};
    TrimThenInsert(m.Keys, j, MAX_SKIPPED_MESSAGE_KEYS);
    KeptKeys(once);
    KeptKeys(all);
  }

  /**
   The cache after skipping `n` positions: the 200 largest of the old cache plus the skipped range.
   Skipping nothing evicts nothing.
   */
  function CachedAfter(k: Inbound, n: nat): map<nat, Secret> {
    if n == 0 then k.skipped else KeepLargestKeys(k.skipped + SkippedRange(k.chain, k.next, n))
  }

  /** A cache within the cap is its own 200 largest, so one formula covers all cases. */
  lemma {:induction false} CachedAfterKeeps(k: Inbound, n: nat)
    requires WithinCap(k.skipped)
    ensures CachedAfter(k, n) == KeepLargestKeys(k.skipped + SkippedRange(k.chain, k.next, n))
  {
    if n == 0 {
      assert k.skipped + SkippedRange(k.chain, k.next, 0) == k.skipped;
    }
  }

  lemma {:induction false} CachedAfterSelects(k: Inbound, n: nat)
    ensures var all := k.skipped + SkippedRange(k.chain, k.next, n);
      forall j | j in CachedAfter(k, n) :: j in all && CachedAfter(k, n)[j] == all[j]
  {
    hide KeepLargestKeys, WithinCap;
    KeptKeys(k.skipped + SkippedRange(k.chain, k.next, n));
  }

  lemma {:induction false} CachedAfterOneMore(k: Inbound, n: nat)
    ensures KeepLargestKeys(CachedAfter(k, n)[k.next + n := MessageKeyAt(k.chain, n)]) == CachedAfter(k, n + 1)
  {
    hide WithinCap, KeepLargestKeys;
    var before := k.skipped + SkippedRange(k.chain, k.next, n);
    var key := MessageKeyAt(k.chain, n);
    assert before[k.next + n := key] == k.skipped + SkippedRange(k.chain, k.next, n + 1);
    if n == 0 {
      assert before == k.skipped;
    } else {
      TrimInsertTrim(before, k.next + n, key);
    }
  }

  /** What taking the key of `index` does to a receiver, in closed form. */
  function Take(k: Inbound, index: Uint32): (Inbound, Option<Secret>) {
    if k.chain.Size() != KEY_BYTES then (k, None)
    else if index < k.next then
      if index in k.skipped then (k.(skipped := k.skipped - {index}), Some(k.skipped[index]))
      else (k, None)
    else if index - k.next > MAX_SKIPPED_MESSAGE_KEYS then (k, None)
    else
      var n := index - k.next;
      (Inbound(ChainAt(k.chain, n + 1), (index + 1) % TWO_32, CachedAfter(k, n)),
       Some(MessageKeyAt(k.chain, n)))
  }

  // ---- the receiver agrees with the specification ----------------------------------------

  ghost predicate Refines(ck0: Secret, k: Inbound) {
    && ck0.Size() == KEY_BYTES
    && k.chain == ChainAt(ck0, k.next)
    && WithinCap(k.skipped)
    && forall j | j in k.skipped :: j < k.next && k.skipped[j] == MessageKeyAt(ck0, j)
  }

  /** The positions `from`, ..., `end - 1`. */
  function Span(from: nat, end: nat): (r: set<nat>)
    ensures forall j :: j in r <==> from <= j < end
  {
    if end <= from then {} else Span(from, end - 1) + {end - 1}
  }

  lemma {:induction false} FreshRefines(ck0: Secret)
    requires ck0.Size() == KEY_BYTES
    ensures Refines(ck0, FreshInbound(ck0))
  {
  }

  lemma {:induction false} CachedAfterMatches(ck0: Secret, k: Inbound, n: nat)
    requires Refines(ck0, k)
    ensures CachedAfter(k, n).Keys == KeepLargest(k.skipped.Keys + Span(k.next, k.next + n), MAX_SKIPPED_MESSAGE_KEYS)
    ensures WithinCap(CachedAfter(k, n))
    ensures forall j | j in CachedAfter(k, n) :: j < k.next + n && CachedAfter(k, n)[j] == MessageKeyAt(ck0, j)
  {
    hide WithinCap, KeepLargestKeys, KeepLargest, SkippedRange, Span, ChainAt;
    var range := SkippedRange(k.chain, k.next, n);
    var all := k.skipped + range;
    assert range.Keys == Span(k.next, k.next + n);
    assert all.Keys == k.skipped.Keys + range.Keys;
    CachedAfterKeeps(k, n);
    KeptKeys(all);
    forall j | j in all ensures j < k.next + n && all[j] == MessageKeyAt(ck0, j) {
      PositionKey(ck0, k, n, j);
    }
  }

  lemma {:induction false} PositionKey(ck0: Secret, k: Inbound, n: nat, j: nat)
    requires Refines(ck0, k) && (j in k.skipped || k.next <= j < k.next + n)
    ensures (k.skipped + SkippedRange(k.chain, k.next, n))[j] == MessageKeyAt(ck0, j)
    ensures j < k.next + n
  {
    hide ChainAt, SkippedRange, WithinCap;
    if k.next <= j < k.next + n {
      SkippedRangeAt(k.chain, k.next, n, j);
      ChainAtAdds(ck0, k.next, j - k.next);
    }
  }

  lemma {:induction false} TakeCached(ck0: Secret, k: Inbound, index: Uint32)
    requires Refines(ck0, k) && index in k.skipped
    ensures var (k', key) := Take(k, index);
      && Refines(ck0, k') && key == Some(MessageKeyAt(ck0, index))
      && k'.next == k.next && k'.skipped.Keys == k.skipped.Keys - {index}
  {
    hide WithinCap;
    ChainAtSize(ck0, k.next);
    StaysWithinCap(k.skipped, index);
  }

  lemma {:induction false} TakeAhead(ck0: Secret, k: Inbound, index: Uint32)
    requires Refines(ck0, k) && k.next <= index <= k.next + MAX_SKIPPED_MESSAGE_KEYS && index + 1 < TWO_32
    ensures var (k', key) := Take(k, index);
      && Refines(ck0, k') && key == Some(MessageKeyAt(ck0, index))
      && k'.next == index + 1
      && k'.skipped.Keys == KeepLargest(k.skipped.Keys + Span(k.next, index), MAX_SKIPPED_MESSAGE_KEYS)
  {
    hide WithinCap, KeepLargestKeys, KeepLargest, CachedAfter, Span, ChainAt;
    var n := index - k.next;
    ChainAtSize(ck0, k.next);
    CachedAfterMatches(ck0, k, n);
    ChainAtAdds(ck0, k.next, n + 1);
    ChainAtAdds(ck0, k.next, n);
    assert k.next + n == index && k.next + (n + 1) == index + 1;
  }

  /**
   Below the wrap-around, taking a key yields exactly the specified key when `has_index` says so
   and nothing (with no change) otherwise, and the cache is the 200 largest skipped indices.
   */
  lemma {:induction false} TakeRefines(ck0: Secret, k: Inbound, index: Uint32)
    requires Refines(ck0, k) && index + 1 < TWO_32
    ensures var (k', key) := Take(k, index);
      && Refines(ck0, k')
      && key == (if HasIndex(k, index) then Some(MessageKeyAt(ck0, index)) else None)
      && (!HasIndex(k, index) ==> k' == k)
      && (HasIndex(k, index) && index < k.next ==>
            k'.next == k.next && k'.skipped.Keys == k.skipped.Keys - {index})
      && (HasIndex(k, index) && index >= k.next ==>
            k'.next == index + 1
            && k'.skipped.Keys == KeepLargest(k.skipped.Keys + Span(k.next, index), MAX_SKIPPED_MESSAGE_KEYS))
  {
    hide WithinCap, KeepLargestKeys, KeepLargest, CachedAfter, Span, ChainAt;
    ChainAtSize(ck0, k.next);
    if HasIndex(k, index) {
      if index < k.next {
        TakeCached(ck0, k, index);
      } else {
        TakeAhead(ck0, k, index);
      }
    }
  }

  function TakeAll(k: Inbound, indices: seq<Uint32>): Inbound {
    if indices == [] then k else Take(TakeAll(k, indices[..|indices| - 1]), indices[|indices| - 1]).0
  }

  /** So in every state that any takes can reach below the wrap-around, the receiver agrees with the chain. */
  lemma {:induction false} ReachableRefines(ck0: Secret, indices: seq<Uint32>)
    requires ck0.Size() == KEY_BYTES && forall i | 0 <= i < |indices| :: indices[i] + 1 < TWO_32
    ensures Refines(ck0, TakeAll(FreshInbound(ck0), indices))
    decreases |indices|
  {
    hide Refines, Take;
    if indices == [] {
      FreshRefines(ck0);
    } else {
      var n := |indices| - 1;
      ReachableRefines(ck0, indices[..n]);
      TakeRefines(ck0, TakeAll(FreshInbound(ck0), indices[..n]), indices[n]);
    }
  }

  /** The only successful take that loses the refinement is the one whose position wraps to zero. */
  lemma {:induction false} RefinementLostOnlyByWrap(ck0: Secret, k: Inbound, index: Uint32)
    requires Refines(ck0, k) && HasIndex(k, index)
    ensures Refines(ck0, Take(k, index).0) <==> index != TWO_32 - 1
    ensures Take(k, index).1 == Some(MessageKeyAt(ck0, index))
    ensures index == TWO_32 - 1 ==> Take(k, index).0.next == 0
  {
    hide WithinCap, KeepLargestKeys, KeepLargest, CachedAfter;
    ChainAtSize(ck0, k.next);
    if index != TWO_32 - 1 {
      TakeRefines(ck0, k, index);
    } else {
      ChainAtAdds(ck0, k.next, index - k.next + 1);
      KeysDistinct(ck0, TWO_32, 0);
      assert ChainAt(ck0, 0) == ck0;
    }
  }

  /** An index whose key is gone for good. */
  predicate Consumed(k: Inbound, index: Uint32) {
    index < k.next && index !in k.skipped
  }

  lemma {:induction false} CachedAfterAddsOnlySkipped(k: Inbound, n: nat, j: nat)
    requires j in CachedAfter(k, n)
    ensures j in k.skipped || k.next <= j < k.next + n
  {
    hide CachedAfter;
    CachedAfterSelects(k, n);
  }

  /** A taken index is consumed, and no later take brings a consumed index back or yields its key. */
  lemma {:induction false} ConsumedForever(k: Inbound, taken: Uint32, index: Uint32)
    requires taken + 1 < TWO_32 && Consumed(k, index)
    ensures Consumed(Take(k, taken).0, index)
    ensures Take(k, index) == (k, None)
  {
    hide WithinCap, KeepLargestKeys, CachedAfter;
    if k.next <= taken && index in CachedAfter(k, taken - k.next) {
      CachedAfterAddsOnlySkipped(k, taken - k.next, index);
    }
  }

  /** Every cached index lies below the chain position. */
  predicate Orderly(k: Inbound) {
    forall j | j in k.skipped :: j < k.next
  }

  lemma {:induction false} TakenIsConsumed(k: Inbound, taken: Uint32)
    requires taken + 1 < TWO_32 && Orderly(k)
    ensures Orderly(Take(k, taken).0)
    ensures Take(k, taken).1.Some? ==> Consumed(Take(k, taken).0, taken)
  {
    hide WithinCap, KeepLargestKeys, CachedAfter;
    if k.next <= taken {
      var cached := CachedAfter(k, taken - k.next);
      forall j | j in cached ensures j < taken {
        CachedAfterAddsOnlySkipped(k, taken - k.next, j);
      }
    }
  }

  class InboundSenderKey {
    var chain: Secret
    var next: Uint32
    var skipped: map<nat, Secret>

    function State(): Inbound
      reads this
    {
      Inbound(chain, next, skipped)
    }

    /** The cache never holds more than 200 keys. */
    ghost predicate Valid()
      reads this
    {
      WithinCap(skipped)
    }

    constructor (chainKey: Secret)
      ensures Valid() && State() == FreshInbound(chainKey)
    {
      chain := chainKey;
      next := 0;
      skipped := map[];
    }

    /** `restore`: take over a snapshot. */
    method Restore(snapshot: Inbound)
      modifies this
      ensures State() == snapshot
    {
      chain, next, skipped := snapshot.chain, snapshot.next, snapshot.skipped;
    }

    /** Evict the lowest index until the cache fits. */
    method TrimSkipped()
      modifies this`skipped
      ensures Valid()
      ensures skipped == KeepLargestKeys(old(skipped))
    {
      while |skipped| > MAX_SKIPPED_MESSAGE_KEYS
        invariant KeepLargestKeys(skipped) == KeepLargestKeys(old(skipped))
        decreases |skipped|
      {
        var least := Least(skipped.Keys);
        SizeWithout(skipped, least);
        skipped := skipped - {least};
      }
    }

    /** Advance the chain to `index`, caching and evicting one position at a time. */
    method FastForward(index: Uint32)
      requires chain.Size() == KEY_BYTES && next <= index
      modifies this
      ensures old(Valid()) ==> Valid()
      ensures next == index && chain.Size() == KEY_BYTES
      ensures chain == ChainAt(old(chain), index - old(next))
      ensures skipped == CachedAfter(old(State()), index - old(next))
    {
      hide WithinCap, KeepLargestKeys, SkippedRange;
      ghost var start := State();
      while next < index
        invariant start.next <= next <= index
        invariant chain.Size() == KEY_BYTES
        invariant chain == ChainAt(start.chain, next - start.next)
        invariant skipped == CachedAfter(start, next - start.next)
        invariant old(Valid()) ==> Valid()
      {
        CachedAfterOneMore(start, next - start.next);
        var step := DeriveRatchetStep(chain);
        skipped := skipped[next := step.messageKey];
        chain := step.nextChain;
        next := next + 1;
        TrimSkipped();
      }
    }

    /** Taking a key, with eviction inside the fast-forward loop, computes the closed form. */
    method TakeMessageKey(index: Uint32) returns (key: Option<Secret>)
      modifies this
      ensures old(Valid()) ==> Valid()
      ensures (State(), key) == Take(old(State()), index)
    {
      hide KeepLargestKeys, CachedAfter;
      if chain.Size() != KEY_BYTES {
        return None;
      }
      if index < next {
        if index !in skipped {
          return None;
        }
        key := Some(skipped[index]);
        if WithinCap(skipped) {
          StaysWithinCap(skipped, index);
        }
        skipped := skipped - {index};
        return;
      }
      if index - next > MAX_SKIPPED_MESSAGE_KEYS {
        return None;
      }
      FastForward(index);
      var step := DeriveRatchetStep(chain);
      chain := step.nextChain;
      next := (next + 1) % TWO_32;
      return Some(step.messageKey);
    }
  }
}
