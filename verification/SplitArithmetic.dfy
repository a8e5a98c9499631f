// The basis-point split of a disputed escrow.

module SplitArithmetic {
  import opened EscrowSpec

  /** A split fails exactly on an i128 overflow; otherwise it floors the freelancer's share and loses nothing. */
  lemma SplitShares(remaining: i128, bps: u32)
    requires 0 < remaining && bps <= BPS_DENOMINATOR
    ensures Shares(remaining, Split, bps).Bad? <==> remaining * bps > I128_MAX
    ensures match Shares(remaining, Split, bps)
            case Bad(error) => error == Overflow
            case Good(f, c) =>
              && f + c == remaining
              && f * BPS_DENOMINATOR <= remaining * bps < (f + 1) * BPS_DENOMINATOR
  {
    ShareBounds(remaining, bps);
    assert remaining * bps >= 0;
  }

  /** More basis points never pay the freelancer less, and never succeed where fewer overflow. */
  lemma SplitMonotone(remaining: i128, low: u32, high: u32)
    requires 0 < remaining && low <= high <= BPS_DENOMINATOR
    requires Shares(remaining, Split, high).Good?
    ensures Shares(remaining, Split, low).Good?
    ensures Shares(remaining, Split, low).freelancer <= Shares(remaining, Split, high).freelancer
    ensures Shares(remaining, Split, low).client >= Shares(remaining, Split, high).client
  {
    Scale(remaining, low, high);
    SplitShares(remaining, low);
    SplitShares(remaining, high);
  }

  lemma Scale(factor: nat, low: int, high: int)
    requires low <= high
    ensures factor * low <= factor * high
  {
  }

  /** The two ends of a split pay what a full refund and a full release pay. */
  lemma SplitEnds(remaining: i128)
    requires 0 < remaining
    ensures Shares(remaining, Split, 0) == Shares(remaining, RefundToClient, 0)
    ensures remaining * BPS_DENOMINATOR <= I128_MAX ==>
              Shares(remaining, Split, BPS_DENOMINATOR) == Shares(remaining, ReleaseToFreelancer, 0)
  {
  }
}
