/** The tier table: each NFT tier earns rewards at a fixed multiplier. */
module Tiers {

  /** Multiplier for tiers 1 to 3, and the default for every other tier. */
  const DEFAULT_MULTIPLIER: nat := 3

  /** `getMultiplierForTier`: tiers 1, 2 and 3 earn 4, 5 and 6; any other
      tier earns the default. */
  function Multiplier(tier: int): (m: nat)
    ensures DEFAULT_MULTIPLIER <= m <= DEFAULT_MULTIPLIER + 3
    ensures m == DEFAULT_MULTIPLIER <==> tier < 1 || tier > 3
    ensures 1 <= tier <= 3 ==> m == DEFAULT_MULTIPLIER + tier
  {
    match tier
    case 1 => 4
    case 2 => 5
    case 3 => 6
    case _ => DEFAULT_MULTIPLIER
  }
}
