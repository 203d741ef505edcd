/** The per-token state machine that the history replay drives: a token
    is unstaked, staked or rented, and each recognised call moves it and
    appends to one of its two histories. */
module TokenState {
  import opened JsPrims

  /** A decoded token id; `None` is the NaN that `parseInt` yields for a
      payload with no leading hex digit (NaN is a valid map key). */
  type TokenId = Option<nat>

  datatype Status = Unstaked | Staked | Rented

  datatype Action = Stake | Unstake | Rent

  /** Entries of `stakeHistory`: a stake, or an unstake that measured how
      long the token had been staked. */
  datatype StakeEvent =
    | StakeEntry(timestamp: Num, hash: string)
    | UnstakeEntry(timestamp: Num, duration: Num, hash: string)

  datatype RentEvent = RentEntry(timestamp: Num, hash: string)

  datatype TokenRecord = TokenRecord(
    tokenId: TokenId,
    status: Status,
    stakeHistory: seq<StakeEvent>,
    rentHistory: seq<RentEvent>,
    currentStakeTime: Option<Num>,
    currentRentTime: Option<Num>,
    lastAction: Option<Action>)

  /** One filtered transaction after decoding: the recognised action (if
      its selector is one of the three), the token id, the timestamp in
      milliseconds and the transaction hash. */
  datatype Call = Call(action: Option<Action>, tokenId: TokenId, timestamp: Num, hash: string)

  function StatusAfter(a: Action): Status
  {
    match a
    case Stake => Staked
    case Unstake => Unstaked
    case Rent => Rented
  }

  /** What every record reachable from a fresh one satisfies:
      - untouched records are exactly fresh ones;
      - the status is the one the last action leads to;
      - a staked token has a stake time and an unstaked one has none;
      - a stake time, when present, is that of the last stake-history
        entry, which is a stake;
      - a rent time is present exactly when some rent happened, and is
        that of the last rent;
      - every unstake entry directly follows a stake with a truthy time,
        and its duration is measured from that stake. */
  ghost predicate WellFormed(r: TokenRecord)
  {
    && (r.lastAction.None? ==>
          r.status == Unstaked && r.stakeHistory == [] && r.rentHistory == []
          && r.currentStakeTime.None? && r.currentRentTime.None?)
    && (r.lastAction.Some? ==> r.status == StatusAfter(r.lastAction.value))
    && (r.status == Staked ==> r.currentStakeTime.Some?)
    && (r.status == Unstaked ==> r.currentStakeTime.None?)
    && (r.currentStakeTime.Some? ==>
          |r.stakeHistory| > 0
          && r.stakeHistory[|r.stakeHistory| - 1] ==
             StakeEntry(r.currentStakeTime.value, r.stakeHistory[|r.stakeHistory| - 1].hash))
    && (r.currentRentTime.Some? <==> |r.rentHistory| > 0)
    && (r.currentRentTime.Some? ==>
          r.currentRentTime.value == r.rentHistory[|r.rentHistory| - 1].timestamp)
    && (forall i :: 0 <= i < |r.stakeHistory| && r.stakeHistory[i].UnstakeEntry? ==>
          && i > 0
          && r.stakeHistory[i - 1].StakeEntry?
          && Truthy(Some(r.stakeHistory[i - 1].timestamp))
          && r.stakeHistory[i].duration ==
             Sub(r.stakeHistory[i].timestamp, r.stakeHistory[i - 1].timestamp))
  }

  /** The record created the first time a token id is seen. */
  function Fresh(id: TokenId): (r: TokenRecord)
    ensures r.tokenId == id && r.status == Unstaked && r.lastAction.None?
    ensures r.stakeHistory == [] && r.rentHistory == []
    ensures r.currentStakeTime.None? && r.currentRentTime.None?
    ensures WellFormed(r)
  {
    TokenRecord(id, Unstaked, [], [], None, None, None)
  }

  /** The selector switch applied to one record. */
  function Apply(rec: TokenRecord, c: Call): (r: TokenRecord)
    ensures r.tokenId == rec.tokenId
    ensures WellFormed(rec) ==> WellFormed(r)
    // an unrecognised selector changes nothing
    ensures c.action.None? ==> r == rec
    // stake: staked since now, one stake entry, rent side untouched
    ensures c.action == Some(Stake) ==>
      && r.status == Staked && r.currentStakeTime == Some(c.timestamp)
      && r.lastAction == Some(Stake)
      && r.stakeHistory == rec.stakeHistory + [StakeEntry(c.timestamp, c.hash)]
      && r.rentHistory == rec.rentHistory && r.currentRentTime == rec.currentRentTime
    // unstake: stake time cleared, an entry only if a truthy stake time was held
    ensures c.action == Some(Unstake) ==>
      && r.status == Unstaked && r.currentStakeTime.None?
      && r.lastAction == Some(Unstake)
      && (Truthy(rec.currentStakeTime) ==>
            r.stakeHistory == rec.stakeHistory +
              [UnstakeEntry(c.timestamp, Sub(c.timestamp, rec.currentStakeTime.value), c.hash)])
      && (!Truthy(rec.currentStakeTime) ==> r.stakeHistory == rec.stakeHistory)
      && r.rentHistory == rec.rentHistory && r.currentRentTime == rec.currentRentTime
    // rent: rented since now, one rent entry, stake side untouched
    ensures c.action == Some(Rent) ==>
      && r.status == Rented && r.currentRentTime == Some(c.timestamp)
      && r.lastAction == Some(Rent)
      && r.rentHistory == rec.rentHistory + [RentEntry(c.timestamp, c.hash)]
      && r.stakeHistory == rec.stakeHistory && r.currentStakeTime == rec.currentStakeTime
  {
    match c.action
    case None => rec
    case Some(Stake) =>
      rec.(status := Staked,
           currentStakeTime := Some(c.timestamp),
           stakeHistory := rec.stakeHistory + [StakeEntry(c.timestamp, c.hash)],
           lastAction := Some(Stake))
    case Some(Unstake) =>
      var history :=
        if Truthy(rec.currentStakeTime) then
          rec.stakeHistory +
            [UnstakeEntry(c.timestamp, Sub(c.timestamp, rec.currentStakeTime.value), c.hash)]
        else rec.stakeHistory;
      rec.(status := Unstaked,
           stakeHistory := history,
           currentStakeTime := None,
           lastAction := Some(Unstake))
    case Some(Rent) =>
      rec.(status := Rented,
           currentRentTime := Some(c.timestamp),
           rentHistory := rec.rentHistory + [RentEntry(c.timestamp, c.hash)],
           lastAction := Some(Rent))
  }

  /** The calls of one token applied in order. */
  function Run(rec: TokenRecord, cs: seq<Call>): (r: TokenRecord)
    ensures r.tokenId == rec.tokenId
    ensures WellFormed(rec) ==> WellFormed(r)
  {
    if |cs| == 0 then rec else Apply(Run(rec, cs[..|cs| - 1]), cs[|cs| - 1])
  }

  // ---------------------------------------------------------------------
  // Reference descriptions of a run, independent of the fold
  // ---------------------------------------------------------------------

  /** The last recognised action among `cs`, if any. */
  function LastAction(cs: seq<Call>): (a: Option<Action>)
    ensures a.Some? ==>
      (exists i :: 0 <= i < |cs| && cs[i].action == a
         && (forall j :: i < j < |cs| ==> cs[j].action.None?))
    ensures a.None? ==> forall i :: 0 <= i < |cs| ==> cs[i].action.None?
  {
    if |cs| == 0 then None
    else if cs[|cs| - 1].action.Some? then cs[|cs| - 1].action
    else LastAction(cs[..|cs| - 1])
  }

  /** The rent entries that the rent calls among `cs` produce, in order. */
  function RentEntries(cs: seq<Call>): (es: seq<RentEvent>)
    ensures |es| <= |cs|
  {
    if |cs| == 0 then []
    else
      var c := cs[|cs| - 1];
      RentEntries(cs[..|cs| - 1]) + (if c.action == Some(Rent) then [RentEntry(c.timestamp, c.hash)] else [])
  }

  function CountAction(cs: seq<Call>, a: Action): (n: nat)
    ensures n <= |cs|
  {
    if |cs| == 0 then 0
    else CountAction(cs[..|cs| - 1], a) + (if cs[|cs| - 1].action == Some(a) then 1 else 0)
  }

  function CountStakeEntries(h: seq<StakeEvent>): nat
  {
    if |h| == 0 then 0
    else CountStakeEntries(h[..|h| - 1]) + (if h[|h| - 1].StakeEntry? then 1 else 0)
  }

  lemma CountStakeEntriesAppend(h: seq<StakeEvent>, e: StakeEvent)
    ensures CountStakeEntries(h + [e]) == CountStakeEntries(h) + (if e.StakeEntry? then 1 else 0)
  {
    assert (h + [e])[..|h|] == h;
  }

  /** The status of a replayed token is the one its last recognised call
      leads to, and `lastAction` names that call; calls with no
      recognised selector leave the record as it was. */
  lemma {:induction false} RunStatusIsLastAction(rec: TokenRecord, cs: seq<Call>)
    ensures LastAction(cs).Some? ==>
      Run(rec, cs).lastAction == LastAction(cs)
      && Run(rec, cs).status == StatusAfter(LastAction(cs).value)
    ensures LastAction(cs).None? ==> Run(rec, cs) == rec
  {
    if |cs| > 0 {
      var front, c := cs[..|cs| - 1], cs[|cs| - 1];
      RunStatusIsLastAction(rec, front);
      assert Run(rec, cs) == Apply(Run(rec, front), c);
      if c.action.Some? {
        assert LastAction(cs) == c.action;
      } else {
        assert LastAction(cs) == LastAction(front);
      }
    }
  }

  /** Running one more call is applying it to the run so far. */
  lemma RunAppend(rec: TokenRecord, cs: seq<Call>, c: Call)
    ensures Run(rec, cs + [c]) == Apply(Run(rec, cs), c)
  {
    assert (cs + [c])[..|cs|] == cs;
  }

  /** Starting from a fresh record, a token ends staked exactly when its
      last recognised call is a stake, and rented exactly when it is a
      rent. */
  lemma FreshRunStatus(id: TokenId, cs: seq<Call>)
    ensures Run(Fresh(id), cs).status == Staked <==> LastAction(cs) == Some(Stake)
    ensures Run(Fresh(id), cs).status == Rented <==> LastAction(cs) == Some(Rent)
  {
    RunStatusIsLastAction(Fresh(id), cs);
  }

  /** The rent history is exactly the rent calls, in order; a rent time
      once set is never cleared, and it is the time of the last rent. */
  lemma {:induction false} RunRentHistory(rec: TokenRecord, cs: seq<Call>)
    ensures Run(rec, cs).rentHistory == rec.rentHistory + RentEntries(cs)
    ensures rec.currentRentTime.Some? ==> Run(rec, cs).currentRentTime.Some?
    ensures CountAction(cs, Rent) == 0 ==> Run(rec, cs).currentRentTime == rec.currentRentTime
  {
    if |cs| > 0 {
      var front := cs[..|cs| - 1];
      RunRentHistory(rec, front);
      assert CountAction(cs, Rent) == CountAction(front, Rent) + (if cs[|cs| - 1].action == Some(Rent) then 1 else 0);
      assert rec.rentHistory + RentEntries(front) + (if cs[|cs| - 1].action == Some(Rent) then [RentEntry(cs[|cs| - 1].timestamp, cs[|cs| - 1].hash)] else [])
          == rec.rentHistory + RentEntries(cs);
    }
  }

  /** Every stake call leaves exactly one stake entry in the history. */
  lemma {:induction false} RunStakeEntries(rec: TokenRecord, cs: seq<Call>)
    ensures CountStakeEntries(Run(rec, cs).stakeHistory) ==
      CountStakeEntries(rec.stakeHistory) + CountAction(cs, Stake)
  {
    if |cs| > 0 {
      var front := cs[..|cs| - 1];
      var c := cs[|cs| - 1];
      var mid := Run(rec, front);
      RunStakeEntries(rec, front);
      match c.action
      case None =>
      case Some(Stake) =>
        CountStakeEntriesAppend(mid.stakeHistory, StakeEntry(c.timestamp, c.hash));
      case Some(Unstake) =>
        if Truthy(mid.currentStakeTime) {
          CountStakeEntriesAppend(mid.stakeHistory,
            UnstakeEntry(c.timestamp, Sub(c.timestamp, mid.currentStakeTime.value), c.hash));
        }
      case Some(Rent) =>
    }
  }

  // ---------------------------------------------------------------------
  // Concrete histories
  // ---------------------------------------------------------------------

  /** A run of two calls applies the first, then the second. */
  lemma RunTwo(rec: TokenRecord, c0: Call, c1: Call)
    ensures Run(rec, [c0, c1]) == Apply(Apply(rec, c0), c1)
  {
    var cs := [c0, c1];
    assert cs[..1] == [c0] && [c0][..0] == [];
    assert Run(rec, [c0]) == Apply(Run(rec, []), c0);
    assert Run(rec, cs) == Apply(Run(rec, [c0]), c1);
  }

  /** Stake then unstake: the unstake entry carries the time between the
      two, and the token ends unstaked with no stake time. */
  lemma StakeThenUnstake(id: TokenId, t0: int, t1: int, h0: string, h1: string)
    requires t0 != 0
    ensures var r := Run(Fresh(id), [Call(Some(Stake), id, Finite(t0), h0), Call(Some(Unstake), id, Finite(t1), h1)]);
      && r.status == Unstaked && r.currentStakeTime.None? && r.lastAction == Some(Unstake)
      && r.stakeHistory == [StakeEntry(Finite(t0), h0), UnstakeEntry(Finite(t1), Finite(t1 - t0), h1)]
  {
    var cs := [Call(Some(Stake), id, Finite(t0), h0), Call(Some(Unstake), id, Finite(t1), h1)];
    RunTwo(Fresh(id), cs[0], cs[1]);
  }

  /** A stake at time 0 is forgotten by the next unstake: 0 is falsy, so
      no unstake entry is recorded. */
  lemma StakeAtTimeZeroLeavesNoDuration(id: TokenId, t1: int, h0: string, h1: string)
    ensures var r := Run(Fresh(id), [Call(Some(Stake), id, Finite(0), h0), Call(Some(Unstake), id, Finite(t1), h1)]);
      && r.status == Unstaked && r.currentStakeTime.None?
      && r.stakeHistory == [StakeEntry(Finite(0), h0)]
  {
    var cs := [Call(Some(Stake), id, Finite(0), h0), Call(Some(Unstake), id, Finite(t1), h1)];
    RunTwo(Fresh(id), cs[0], cs[1]);
  }

  /** Renting a staked token leaves its stake time in place, so a rented
      token can still hold a stake time; a later stake makes it staked
      again while the rent time stays set. */
  lemma StakeRentStake(id: TokenId, t0: int, t1: int, t2: int, h0: string, h1: string, h2: string)
    ensures var cs := [Call(Some(Stake), id, Finite(t0), h0), Call(Some(Rent), id, Finite(t1), h1)];
      var r := Run(Fresh(id), cs);
      && r.status == Rented && r.currentStakeTime == Some(Finite(t0))
      && r.rentHistory == [RentEntry(Finite(t1), h1)]
      && var r' := Apply(r, Call(Some(Stake), id, Finite(t2), h2));
         r'.status == Staked && r'.currentRentTime == Some(Finite(t1))
  {
    var cs := [Call(Some(Stake), id, Finite(t0), h0), Call(Some(Rent), id, Finite(t1), h1)];
    RunTwo(Fresh(id), cs[0], cs[1]);
  }
}
