/** What an accepted configuration means for the components that are built from it. */
module ValidatedLoops {
  import opened Backoff
  import opened ConfigLimits
  import SpscRing

  /** Every field of the network section that is 32 bits wide in the program. */
  predicate Fits32(n: Network) {
    n.retryBaseMs < UINT32_LIMIT && n.retryMaxMs < UINT32_LIMIT
  }

  /**
    The sink's worker may rely on a batch of at least one record and on 1 <= base <= max. The delays double up to the
    cap exactly when the cap, as accepted, is below 2^31: validate does not see to that.
  */
  lemma AcceptedBackoff(l: Limits)
    requires l.memory.critical <= l.memory.warning && Fits32(l.network)
    ensures var n := After(l).network;
            && n.batchSize >= 1 && 1 <= n.retryBaseMs <= n.retryMaxMs
            && ((forall k: nat :: RetryDelay(n.retryBaseMs, n.retryMaxMs, k)
                                  == Min(n.retryBaseMs * Pow2(k), n.retryMaxMs))
                <==> n.retryMaxMs < UINT32_LIMIT / 2)
  {
    AcceptedIsInRange(l);
    var n := After(l).network;
    assert NetworkOk(n);
    hide InRange;
    BackoffExactly(n.retryBaseMs, n.retryMaxMs);
  }

  /** A ring of the accepted capacity keeps back exactly the accepted number of slots. */
  lemma AcceptedReserve(l: Limits, dropInfo: bool, dropWarning: bool)
    requires l.memory.critical <= l.memory.warning
    ensures var q := After(l).queues;
            SpscRing.Reserve(SpscRing.RingConfig(q.capacity + 1, q.reserved, dropInfo, dropWarning)) == q.reserved
  {
    AcceptedIsInRange(l);
    hide After;
  }
}
