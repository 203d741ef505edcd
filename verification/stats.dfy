/** The staking summary: the owned NFTs (with their tiers) joined to the
    replayed token records by token id, with a reward figure for tokens
    that are staked, and counts of staked and rented records. */
module Stats {
  import opened JsPrims
  import opened TokenState
  import opened History
  import opened Tiers

  /** One owned NFT as the ownership reader reports it. */
  datatype OwnedNft = OwnedNft(tokenId: nat, tier: int, multiplier: nat)

  /** The list `getNFTsByAddress` builds from the token id and tier it
      reads for each index below the balance; those reads are given. */
  function OwnedList(entries: seq<(nat, int)>): (r: seq<OwnedNft>)
    ensures |r| == |entries|
    ensures forall i :: 0 <= i < |r| ==>
      r[i].tokenId == entries[i].0 && r[i].tier == entries[i].1
      && r[i].multiplier == Multiplier(entries[i].1)
  {
    seq(|entries|, i requires 0 <= i < |entries| => OwnedNft(entries[i].0, entries[i].1, Multiplier(entries[i].1)))
  }

  /** `nftMap.get(detail.tokenId.toString())`: the map is built from the
      owned list, so a later entry for the same id wins; a NaN id matches
      nothing. */
  function LookupOwned(owned: seq<OwnedNft>, id: TokenId): (r: Option<OwnedNft>)
    ensures r.None? <==> forall i :: 0 <= i < |owned| ==> id != Some(owned[i].tokenId)
    ensures r.Some? ==> id == Some(r.value.tokenId)
    ensures r.Some? ==>
      (exists i :: 0 <= i < |owned| && owned[i] == r.value
         && (forall j :: i < j < |owned| ==> owned[j].tokenId != r.value.tokenId))
  {
    if |owned| == 0 then None
    else
      var last := owned[|owned| - 1];
      if id == Some(last.tokenId) then Some(last)
      else
        var r := LookupOwned(owned[..|owned| - 1], id);
        assert r.Some? ==>
          (exists i :: 0 <= i < |owned| - 1 && owned[i] == r.value
             && (forall j :: i < j < |owned| ==> owned[j].tokenId != r.value.tokenId));
        r
  }

  /** The join reads the owned list: a record is enriched exactly when
      some owned entry carries its id, and then with that entry's tier and
      the multiplier of that tier. */
  lemma EnrichFromOwnedReads(entries: seq<(nat, int)>, rec: TokenRecord, now: int)
    ensures var d := Enrich(OwnedList(entries), rec, now);
      && (d.enrichment.None? <==> forall i :: 0 <= i < |entries| ==> rec.tokenId != Some(entries[i].0))
      && (d.enrichment.Some? ==>
            exists i :: 0 <= i < |entries| && rec.tokenId == Some(entries[i].0)
              && d.enrichment.value.tier == entries[i].1
              && d.enrichment.value.multiplier == Multiplier(entries[i].1))
  {
    var owned := OwnedList(entries);
    var d := Enrich(owned, rec, now);
    if d.enrichment.Some? {
      var nft := LookupOwned(owned, rec.tokenId).value;
      var i :| 0 <= i < |owned| && owned[i] == nft;
      assert rec.tokenId == Some(entries[i].0);
    }
  }

  // ---------------------------------------------------------------------
  // Rewards
  // ---------------------------------------------------------------------

  const MS_PER_DAY: nat := 1000 * 60 * 60 * 24

  /** `calculateRewards`: days staked (fractional) times the multiplier. */
  function Rewards(durationMs: int, multiplier: int): (r: real)
    ensures r * MS_PER_DAY as real == durationMs as real * multiplier as real
    ensures 0 <= durationMs && 0 <= multiplier ==> 0.0 <= r
  {
    (durationMs as real / MS_PER_DAY as real) * multiplier as real
  }

  /** Rewards accrue linearly: a whole number of days staked earns that
      many days times the multiplier. */
  lemma RewardsWholeDays(days: int, multiplier: int)
    ensures Rewards(days * MS_PER_DAY, multiplier) == (days * multiplier) as real
  {
    var d := MS_PER_DAY as real;
    assert (days * MS_PER_DAY) as real == days as real * d;
    assert days as real * d / d == days as real;
  }

  // ---------------------------------------------------------------------
  // The join
  // ---------------------------------------------------------------------

  datatype Enrichment = Enrichment(tier: int, multiplier: nat, currentRewards: real)

  /** A replayed record, with the ownership fields when the token is
      currently owned. */
  datatype Detail = Detail(record: TokenRecord, enrichment: Option<Enrichment>)

  /** The reward guard `status === 'staked' && currentStakeTime`. */
  predicate Accruing(rec: TokenRecord)
  {
    rec.status == Staked && Truthy(rec.currentStakeTime)
  }

  /** The body of `transactionDetails.map(...)` for one record. */
  function Enrich(owned: seq<OwnedNft>, rec: TokenRecord, now: int): (d: Detail)
    ensures d.record == rec
    ensures d.enrichment.None? <==> forall i :: 0 <= i < |owned| ==> rec.tokenId != Some(owned[i].tokenId)
    ensures d.enrichment.Some? ==>
      && LookupOwned(owned, rec.tokenId) == Some(OwnedNft(rec.tokenId.value, d.enrichment.value.tier, d.enrichment.value.multiplier))
      && (!Accruing(rec) ==> d.enrichment.value.currentRewards == 0.0)
      && (Accruing(rec) ==>
            d.enrichment.value.currentRewards ==
            Rewards(now - rec.currentStakeTime.value.n, d.enrichment.value.multiplier))
  {
    match LookupOwned(owned, rec.tokenId)
    case None => Detail(rec, None)
    case Some(nft) =>
      var rewards := if Accruing(rec) then Rewards(now - rec.currentStakeTime.value.n, nft.multiplier) else 0.0;
      Detail(rec, Some(Enrichment(nft.tier, nft.multiplier, rewards)))
  }

  /** `filter(detail => detail.status === s).length`. */
  function CountStatus(ds: seq<Detail>, s: Status): (n: nat)
    ensures n <= |ds|
    ensures n == 0 <==> forall i :: 0 <= i < |ds| ==> ds[i].record.status != s
    ensures n == |ds| <==> forall i :: 0 <= i < |ds| ==> ds[i].record.status == s
  {
    if |ds| == 0 then 0
    else CountStatus(ds[..|ds| - 1], s) + (if ds[|ds| - 1].record.status == s then 1 else 0)
  }

  /** Every detail is counted under exactly one status. */
  lemma {:induction false} CountStatusPartition(ds: seq<Detail>)
    ensures CountStatus(ds, Unstaked) + CountStatus(ds, Staked) + CountStatus(ds, Rented) == |ds|
  {
    if |ds| > 0 {
      CountStatusPartition(ds[..|ds| - 1]);
    }
  }

  datatype StakingStats = StakingStats(
    totalNFTs: nat,
    stakedNFTs: nat,
    rentedNFTs: nat,
    nftDetails: seq<Detail>)

  /** The synchronous part of `calculateStakingStats`, with `now` given. */
  function Summarise(owned: seq<OwnedNft>, details: seq<TokenRecord>, now: int): (r: StakingStats)
    ensures r.totalNFTs == |owned|
    ensures |r.nftDetails| == |details|
    ensures forall i :: 0 <= i < |details| ==>
      r.nftDetails[i] == Enrich(owned, details[i], now) && r.nftDetails[i].record == details[i]
    ensures r.stakedNFTs + r.rentedNFTs + CountStatus(r.nftDetails, Unstaked) == |details|
    ensures r.stakedNFTs == CountStatus(r.nftDetails, Staked)
    ensures r.rentedNFTs == CountStatus(r.nftDetails, Rented)
  {
    var enriched := seq(|details|, i requires 0 <= i < |details| => Enrich(owned, details[i], now));
    CountStatusPartition(enriched);
    StakingStats(|owned|, CountStatus(enriched, Staked), CountStatus(enriched, Rented), enriched)
  }

  /** `calculateStakingStats` once both inputs are fetched. */
  function CalculateStakingStats(owned: seq<OwnedNft>, txs: seq<Tx>, address: string, now: int): (r: StakingStats)
    ensures r.totalNFTs == |owned|
    ensures r.stakedNFTs + r.rentedNFTs <= |r.nftDetails|
    ensures forall i, j :: 0 <= i < j < |r.nftDetails| ==>
      r.nftDetails[i].record.tokenId != r.nftDetails[j].record.tokenId
    ensures forall i :: 0 <= i < |r.nftDetails| ==> WellFormed(r.nftDetails[i].record)
  {
    TransactionDetailsWellFormed(txs, address);
    Summarise(owned, TransactionDetails(txs, address), now)
  }

  /** A staked token held for two whole days at tier 2 has earned 10. */
  lemma TwoDaysAtTierTwo(rec: TokenRecord, stakedAt: int)
    requires rec.tokenId == Some(5) && rec.status == Staked
    requires rec.currentStakeTime == Some(Finite(stakedAt)) && stakedAt != 0
    ensures Enrich(OwnedList([(5, 2)]), rec, stakedAt + 2 * MS_PER_DAY).enrichment ==
      Some(Enrichment(2, 5, 10.0))
  {
    RewardsWholeDays(2, 5);
  }

  /** A token counts as staked exactly when the wallet's last recognised
      call for it was a stake, and as rented exactly when it was a rent. */
  lemma StatusIsLastCall(txs: seq<Tx>, address: string)
    ensures var r, cs := TransactionDetails(txs, address), Calls(txs, address);
      forall i :: 0 <= i < |r| ==>
        && (r[i].status == Staked <==> LastAction(Only(cs, r[i].tokenId)) == Some(Stake))
        && (r[i].status == Rented <==> LastAction(Only(cs, r[i].tokenId)) == Some(Rent))
  {
    var cs := Calls(txs, address);
    var r := TransactionDetails(txs, address);
    RecordsPerToken(cs);
    assert r == Records(Replay(cs));
    forall i | 0 <= i < |r|
      ensures r[i].status == Staked <==> LastAction(Only(cs, r[i].tokenId)) == Some(Stake)
      ensures r[i].status == Rented <==> LastAction(Only(cs, r[i].tokenId)) == Some(Rent)
    {
      var only := Only(cs, r[i].tokenId);
      assert r[i] == Run(Fresh(r[i].tokenId), only);
      FreshRunStatus(r[i].tokenId, only);
    }
  }
}
