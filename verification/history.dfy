/** Rebuilding per-token staking state from a wallet's transaction list:
    keep the wallet's successful transactions, decode each, and fold them
    in the given order into a map from token id to record that remembers
    the order in which ids were first seen. */
module History {
  import opened JsPrims
  import opened TokenState
  import opened Decoder

  /** The fields of one indexer transaction that the replay reads. */
  datatype Tx = Tx(from: string, isError: string, input: string, timeStamp: string, hash: string)

  /** `parseInt(tx.timeStamp) * 1000`: seconds to milliseconds. */
  function TimestampMillis(timeStamp: string): (t: Num)
    ensures t.NaN? <==> |timeStamp| == 0 || !IsDigit(timeStamp[0], 10)
  {
    match ParseInt(timeStamp, 10)
    case None => NaN
    case Some(seconds) => Finite(seconds * 1000)
  }

  /** A decimal seconds string, as the indexer sends it, reads back as
      that many seconds in milliseconds. */
  lemma TimestampMillisOfDecimal(seconds: nat)
    ensures TimestampMillis(ToDigits(seconds, 10)) == Finite(seconds * 1000)
  {
    var ds := ToDigits(seconds, 10);
    ParseIntPadded(seconds, 10, |ds|, []);
    assert PadLeft(ds, |ds|) + [] == ds;
  }

  /** Selector, token id and timestamp of one transaction. */
  function DecodeTx(tx: Tx): (c: Call)
    ensures c.action.Some? <==> Selector(tx.input) in {STAKE_ID, UNSTAKE_ID, RENT_ID}
    ensures c.action == Classify(Selector(tx.input))
    ensures c.tokenId == DecodeTokenId(tx.input) && c.hash == tx.hash
    ensures c.timestamp == TimestampMillis(tx.timeStamp)
  {
    Call(Classify(Selector(tx.input)), DecodeTokenId(tx.input), TimestampMillis(tx.timeStamp), tx.hash)
  }

  /** Round trip: a transaction that calls stake, unstake or rent on a
      256-bit token id, with a decimal seconds timestamp, decodes to that
      action, that token id and that time in milliseconds. */
  lemma DecodeEncodedTx(from: string, action: Action, tokenId: nat, seconds: nat, hash: string)
    requires tokenId < TOKEN_ID_LIMIT
    ensures var id := match action case Stake => STAKE_ID case Unstake => UNSTAKE_ID case Rent => RENT_ID;
      DecodeTx(Tx(from, "0", EncodeCall(id, tokenId), ToDigits(seconds, 10), hash))
        == Call(Some(action), Some(tokenId), Finite(seconds * 1000), hash)
  {
    var id := match action case Stake => STAKE_ID case Unstake => UNSTAKE_ID case Rent => RENT_ID;
    DecodeEncodeCall(id, tokenId);
    TimestampMillisOfDecimal(seconds);
  }

  function DecodeAll(txs: seq<Tx>): (cs: seq<Call>)
    ensures |cs| == |txs|
    ensures forall i :: 0 <= i < |txs| ==> cs[i] == DecodeTx(txs[i])
  {
    seq(|txs|, i requires 0 <= i < |txs| => DecodeTx(txs[i]))
  }

  /** The filter: sent by the queried wallet, compared case-insensitively,
      and not failed. */
  predicate Relevant(tx: Tx, address: string)
  {
    ToLower(tx.from) == ToLower(address) && tx.isError == "0"
  }

  /** The wallet's successful transactions, in their original order. */
  function Filter(txs: seq<Tx>, address: string): (r: seq<Tx>)
    ensures |r| <= |txs|
    ensures forall i :: 0 <= i < |r| ==> Relevant(r[i], address)
    ensures forall t :: t in r <==> t in txs && Relevant(t, address)
  {
    if |txs| == 0 then []
    else
      var front := Filter(txs[..|txs| - 1], address);
      var t := txs[|txs| - 1];
      assert txs == txs[..|txs| - 1] + [t];
      if Relevant(t, address) then front + [t] else front
  }

  lemma {:induction false} FilterConcat(a: seq<Tx>, b: seq<Tx>, address: string)
    ensures Filter(a + b, address) == Filter(a, address) + Filter(b, address)
    decreases |b|
  {
    if |b| == 0 {
      assert a + b == a;
    } else {
      var front := b[..|b| - 1];
      assert (a + b)[..|a + b| - 1] == a + front;
      assert (a + b)[|a + b| - 1] == b[|b| - 1];
      FilterConcat(a, front, address);
    }
  }

  /** Filtering depends on the address only through its lower-case form. */
  lemma {:induction false} FilterCaseInsensitive(txs: seq<Tx>, a1: string, a2: string)
    requires ToLower(a1) == ToLower(a2)
    ensures Filter(txs, a1) == Filter(txs, a2)
  {
    if |txs| > 0 {
      FilterCaseInsensitive(txs[..|txs| - 1], a1, a2);
    }
  }

  // ---------------------------------------------------------------------
  // The replay
  // ---------------------------------------------------------------------

  /** The replay's state: the map of records and its insertion order. */
  datatype Ledger = Ledger(order: seq<TokenId>, records: map<TokenId, TokenRecord>)

  predicate NoDuplicates<T(==)>(s: seq<T>)
  {
    forall i, j :: 0 <= i < j < |s| ==> s[i] != s[j]
  }

  /** The insertion order lists each key of the map once, and every
      record is filed under its own token id. */
  ghost predicate Valid(l: Ledger)
  {
    && NoDuplicates(l.order)
    && (forall k :: k in l.records <==> k in l.order)
    && (forall k :: k in l.records ==> l.records[k].tokenId == k)
  }

  /** One transaction of the forEach: create the record on first sight
      (whatever the selector), then apply the selector switch to it. */
  function Step(l: Ledger, c: Call): (r: Ledger)
    requires Valid(l)
    ensures Valid(r)
    ensures c.tokenId in r.records
    ensures c.tokenId in l.records ==>
      r.order == l.order && r.records[c.tokenId] == Apply(l.records[c.tokenId], c)
    ensures c.tokenId !in l.records ==>
      r.order == l.order + [c.tokenId] && r.records[c.tokenId] == Apply(Fresh(c.tokenId), c)
    ensures c.tokenId !in l.records && c.action.None? ==> r.records[c.tokenId] == Fresh(c.tokenId)
    ensures forall k :: k != c.tokenId ==> (k in r.records <==> k in l.records)
    ensures forall k :: k != c.tokenId && k in l.records ==> r.records[k] == l.records[k]
  {
    var k := c.tokenId;
    var known := k in l.records;
    var rec := if known then l.records[k] else Fresh(k);
    var order := if known then l.order else l.order + [k];
    assert forall i :: 0 <= i < |l.order| ==> order[i] == l.order[i];
    Ledger(order, l.records[k := Apply(rec, c)])
  }

  /** What `Step` does to the record of one token `k`. */
  lemma StepRecord(l: Ledger, c: Call, k: TokenId)
    requires Valid(l)
    ensures k in Step(l, c).records <==> k in l.records || k == c.tokenId
    ensures k in Step(l, c).records ==>
      Step(l, c).records[k] ==
        (if k != c.tokenId then l.records[k]
         else if k in l.records then Apply(l.records[k], c)
         else Apply(Fresh(k), c))
  {
  }

  /** The whole forEach, in the given order. */
  function Replay(cs: seq<Call>): (l: Ledger)
    ensures Valid(l)
  {
    if |cs| == 0 then Ledger([], map[]) else Step(Replay(cs[..|cs| - 1]), cs[|cs| - 1])
  }

  /** `Array.from(nftStatus.values())`: the records in insertion order. */
  function Records(l: Ledger): (rs: seq<TokenRecord>)
    requires Valid(l)
    ensures |rs| == |l.order|
    ensures forall i :: 0 <= i < |rs| ==> rs[i] == l.records[l.order[i]]
    ensures forall i, j :: 0 <= i < j < |rs| ==> rs[i].tokenId != rs[j].tokenId
  {
    seq(|l.order|, i requires 0 <= i < |l.order| => l.records[l.order[i]])
  }

  /** The decoded calls the replay sees for `address`. */
  function Calls(txs: seq<Tx>, address: string): seq<Call>
  {
    DecodeAll(Filter(txs, address))
  }

  /** `getTransactionDetails` once the transaction list is fetched. */
  function TransactionDetails(txs: seq<Tx>, address: string): (r: seq<TokenRecord>)
    ensures forall i, j :: 0 <= i < j < |r| ==> r[i].tokenId != r[j].tokenId
  {
    Records(Replay(Calls(txs, address)))
  }

  // ---------------------------------------------------------------------
  // Reference descriptions of the replay
  // ---------------------------------------------------------------------

  ghost predicate Mentions(cs: seq<Call>, k: TokenId)
  {
    exists i :: 0 <= i < |cs| && cs[i].tokenId == k
  }

  /** Where token `k` is first referenced. */
  ghost function FirstIndex(cs: seq<Call>, k: TokenId): (i: nat)
    requires Mentions(cs, k)
    ensures i < |cs| && cs[i].tokenId == k
    ensures forall j :: 0 <= j < i ==> cs[j].tokenId != k
  {
    if cs[0].tokenId == k then 0
    else
      assert Mentions(cs[1..], k) by {
        var i :| 0 <= i < |cs| && cs[i].tokenId == k;
        assert cs[1..][i - 1].tokenId == k;
      }
      1 + FirstIndex(cs[1..], k)
  }

  /** The calls that reference token `k`, in order. */
  function Only(cs: seq<Call>, k: TokenId): (r: seq<Call>)
    ensures |r| <= |cs|
    ensures forall i :: 0 <= i < |r| ==> r[i].tokenId == k
  {
    if |cs| == 0 then []
    else
      var c := cs[|cs| - 1];
      Only(cs[..|cs| - 1], k) + (if c.tokenId == k then [c] else [])
  }

  lemma {:induction false} OnlyUnmentioned(cs: seq<Call>, k: TokenId)
    requires !Mentions(cs, k)
    ensures Only(cs, k) == []
  {
    if |cs| > 0 {
      OnlyUnmentioned(cs[..|cs| - 1], k);
    }
  }

  /** A non-empty call list references `k` exactly when its front does
      or its last call does. */
  lemma MentionsLast(cs: seq<Call>, k: TokenId)
    requires |cs| > 0
    ensures Mentions(cs, k) <==> Mentions(cs[..|cs| - 1], k) || cs[|cs| - 1].tokenId == k
  {
    var front := cs[..|cs| - 1];
    if Mentions(front, k) {
      var i :| 0 <= i < |front| && front[i].tokenId == k;
      assert cs[i].tokenId == k;
    }
    if Mentions(cs, k) {
      var i :| 0 <= i < |cs| && cs[i].tokenId == k;
      if i < |front| { assert front[i].tokenId == k; }
    }
  }

  /** A reference with no earlier one is the first reference. */
  lemma FirstIndexUnique(cs: seq<Call>, k: TokenId, i: nat)
    requires i < |cs| && cs[i].tokenId == k
    requires forall j :: 0 <= j < i ==> cs[j].tokenId != k
    ensures Mentions(cs, k) && FirstIndex(cs, k) == i
  {
  }

  /** The first reference to `k` is in the front when the front references
      it, and is the last call otherwise. */
  lemma FirstIndexLast(cs: seq<Call>, k: TokenId)
    requires |cs| > 0 && Mentions(cs, k)
    ensures Mentions(cs[..|cs| - 1], k) ==> FirstIndex(cs, k) == FirstIndex(cs[..|cs| - 1], k)
    ensures !Mentions(cs[..|cs| - 1], k) ==> FirstIndex(cs, k) == |cs| - 1
  {
    var front := cs[..|cs| - 1];
    if Mentions(front, k) {
      var j := FirstIndex(front, k);
      assert forall m :: 0 <= m <= j ==> cs[m] == front[m];
      FirstIndexUnique(cs, k, j);
    } else {
      MentionsLast(cs, k);
      assert forall m :: 0 <= m < |front| ==> cs[m] == front[m];
      FirstIndexUnique(cs, k, |cs| - 1);
    }
  }

  /** Exactly the referenced token ids are recorded, in the order of
      their first reference. */
  lemma {:induction false} ReplayOrder(cs: seq<Call>)
    ensures forall k :: k in Replay(cs).order <==> Mentions(cs, k)
    ensures forall i, j :: 0 <= i < j < |Replay(cs).order| ==>
      FirstIndex(cs, Replay(cs).order[i]) < FirstIndex(cs, Replay(cs).order[j])
  {
    if |cs| > 0 {
      var front := cs[..|cs| - 1];
      ReplayOrder(front);
      var o0, o := Replay(front).order, Replay(cs).order;
      forall k ensures k in o <==> Mentions(cs, k) {
        MentionsLast(cs, k);
      }
      forall i, j | 0 <= i < j < |o|
        ensures FirstIndex(cs, o[i]) < FirstIndex(cs, o[j])
      {
        MentionsLast(cs, o[i]);
        MentionsLast(cs, o[j]);
        FirstIndexLast(cs, o[i]);
        FirstIndexLast(cs, o[j]);
        if j == |o0| {
          assert o[i] == o0[i];
        } else {
          assert o[i] == o0[i] && o[j] == o0[j];
        }
      }
    }
  }

  /** The replay holds a record for exactly the referenced token ids. */
  lemma {:induction false} ReplayKeys(cs: seq<Call>, k: TokenId)
    ensures k in Replay(cs).records <==> Mentions(cs, k)
  {
    if |cs| > 0 {
      var front := cs[..|cs| - 1];
      StepRecord(Replay(front), cs[|cs| - 1], k);
      ReplayKeys(front, k);
      MentionsLast(cs, k);
    }
  }

  /** Tokens evolve independently: the record of token `k` is what its
      own calls alone make of a fresh record. */
  lemma {:induction false} ReplayRecord(cs: seq<Call>, k: TokenId)
    ensures k in Replay(cs).records <==> Mentions(cs, k)
    ensures k in Replay(cs).records ==> Replay(cs).records[k] == Run(Fresh(k), Only(cs, k))
  {
    ReplayKeys(cs, k);
    if |cs| > 0 && k in Replay(cs).records {
      var front, c := cs[..|cs| - 1], cs[|cs| - 1];
      var l0 := Replay(front);
      assert Replay(cs) == Step(l0, c);
      StepRecord(l0, c, k);
      var only0 := Only(front, k);
      if c.tokenId != k {
        assert Only(cs, k) == only0;
        ReplayRecord(front, k);
      } else {
        assert Only(cs, k) == only0 + [c];
        RunAppend(Fresh(k), only0, c);
        if k in l0.records {
          ReplayRecord(front, k);
        } else {
          ReplayKeys(front, k);
          OnlyUnmentioned(front, k);
        }
      }
    }
  }

  /** Every replayed record is well formed. */
  lemma ReplayWellFormed(cs: seq<Call>)
    ensures forall k :: k in Replay(cs).records ==> WellFormed(Replay(cs).records[k])
  {
    forall k | k in Replay(cs).records ensures WellFormed(Replay(cs).records[k]) {
      ReplayRecord(cs, k);
    }
  }

  /** The replay yields a record for exactly the referenced token ids. */
  lemma RecordsCoverReferencedIds(cs: seq<Call>)
    ensures var r := Records(Replay(cs));
      forall k :: (exists i :: 0 <= i < |r| && r[i].tokenId == k) <==> Mentions(cs, k)
  {
    var l := Replay(cs);
    var r := Records(l);
    forall k ensures (exists i :: 0 <= i < |r| && r[i].tokenId == k) <==> Mentions(cs, k) {
      ReplayRecord(cs, k);
      if k in l.order {
        var i :| 0 <= i < |l.order| && l.order[i] == k;
        assert r[i].tokenId == k;
      }
      if exists i :: 0 <= i < |r| && r[i].tokenId == k {
        var i :| 0 <= i < |r| && r[i].tokenId == k;
        assert l.order[i] in l.order;
      }
    }
  }

  /** The replayed records come in the order in which their token ids are
      first referenced. */
  lemma RecordsInFirstSeenOrder(cs: seq<Call>)
    ensures var r := Records(Replay(cs));
      && (forall i :: 0 <= i < |r| ==> Mentions(cs, r[i].tokenId))
      && (forall i, j :: 0 <= i < j < |r| ==>
            FirstIndex(cs, r[i].tokenId) < FirstIndex(cs, r[j].tokenId))
  {
    var l := Replay(cs);
    ReplayOrder(cs);
    assert forall i :: 0 <= i < |Records(l)| ==> Records(l)[i].tokenId == l.order[i];
  }

  /** Each replayed record is what its token's own calls alone make of a
      fresh record: tokens evolve independently. */
  lemma RecordsPerToken(cs: seq<Call>)
    ensures var r := Records(Replay(cs));
      forall i :: 0 <= i < |r| ==> r[i] == Run(Fresh(r[i].tokenId), Only(cs, r[i].tokenId))
  {
    var l := Replay(cs);
    var r := Records(l);
    forall i | 0 <= i < |r|
      ensures r[i] == Run(Fresh(r[i].tokenId), Only(cs, r[i].tokenId))
    {
      ReplayRecord(cs, l.order[i]);
    }
  }

  /** `getTransactionDetails` returns one record per token id referenced
      by the wallet's successful transactions, in order of first
      reference, each built from that token's transactions alone. */
  lemma TransactionDetailsPerToken(txs: seq<Tx>, address: string)
    ensures var cs, r := Calls(txs, address), TransactionDetails(txs, address);
      && (forall k :: (exists i :: 0 <= i < |r| && r[i].tokenId == k) <==> Mentions(cs, k))
      && (forall i :: 0 <= i < |r| ==> Mentions(cs, r[i].tokenId))
      && (forall i, j :: 0 <= i < j < |r| ==>
            FirstIndex(cs, r[i].tokenId) < FirstIndex(cs, r[j].tokenId))
      && (forall i :: 0 <= i < |r| ==> r[i] == Run(Fresh(r[i].tokenId), Only(cs, r[i].tokenId)))
  {
    var cs := Calls(txs, address);
    assert TransactionDetails(txs, address) == Records(Replay(cs));
    RecordsCoverReferencedIds(cs);
    RecordsInFirstSeenOrder(cs);
    RecordsPerToken(cs);
  }

  /** Every record `getTransactionDetails` returns is well formed. */
  lemma TransactionDetailsWellFormed(txs: seq<Tx>, address: string)
    ensures forall i :: 0 <= i < |TransactionDetails(txs, address)| ==>
      WellFormed(TransactionDetails(txs, address)[i])
  {
    var cs := Calls(txs, address);
    var l := Replay(cs);
    assert TransactionDetails(txs, address) == Records(l);
    ReplayWellFormed(cs);
  }

  /** A transaction from another sender, or one that failed, changes
      nothing: the result is as if it were not in the list. */
  lemma IrrelevantTxIgnored(before: seq<Tx>, tx: Tx, after: seq<Tx>, address: string)
    requires !Relevant(tx, address)
    ensures TransactionDetails(before + [tx] + after, address) ==
            TransactionDetails(before + after, address)
  {
    FilterConcat(before + [tx], after, address);
    FilterConcat(before, [tx], address);
    FilterConcat(before, after, address);
    assert [tx][..0] == [];
  }

  /** The queried address may be written in any letter case. */
  lemma AddressCaseInsensitive(txs: seq<Tx>, address: string)
    ensures TransactionDetails(txs, address) == TransactionDetails(txs, ToLower(address))
  {
    ToLowerIdempotent(address);
    FilterCaseInsensitive(txs, address, ToLower(address));
  }
}
