/** Reading a staking-contract call: the four-byte method selector (the
    first ten characters, "0x" included) picks one of three actions, and
    the rest of the input is read as one hexadecimal token id. */
module Decoder {
  import opened JsPrims
  import opened TokenState

  const STAKE_ID: string := "0xa422b640"
  const UNSTAKE_ID: string := "0x52b23c3d"
  const RENT_ID: string := "0x9e9c4f3e"

  /** Characters of the selector, "0x" included. */
  const SELECTOR_LENGTH: nat := 10

  /** Hex characters of one 32-byte ABI word. */
  const WORD_LENGTH: nat := 64

  /** 2^256: token ids are `uint256` values. */
  const TOKEN_ID_LIMIT: nat := 0x1_0000000000000000_0000000000000000_0000000000000000_0000000000000000

  lemma TokenIdLimitIsWordRange()
    ensures Pow(16, WORD_LENGTH) == TOKEN_ID_LIMIT
  {
    PowAdd(16, 1, 1);
    PowAdd(16, 2, 2);
    PowAdd(16, 4, 4);
    PowAdd(16, 8, 8);
    PowAdd(16, 16, 16);
    PowAdd(16, 32, 32);
    assert Pow(16, 1) == 0x10;
    assert Pow(16, 2) == 0x100;
    assert Pow(16, 4) == 0x1_0000;
    assert Pow(16, 8) == 0x1_0000_0000;
    assert Pow(16, 16) == 0x1_0000000000000000;
    assert Pow(16, 32) == 0x1_0000000000000000_0000000000000000;
  }

  /** `input.slice(0, 10)`: at most the first ten characters. */
  function Selector(input: string): (sel: string)
    ensures sel <= input
    ensures |sel| == if |input| < SELECTOR_LENGTH then |input| else SELECTOR_LENGTH
  {
    if |input| < SELECTOR_LENGTH then input else input[..SELECTOR_LENGTH]
  }

  /** `input.slice(10)`: whatever follows the selector. */
  function Payload(input: string): (p: string)
    ensures Selector(input) + p == input
  {
    if |input| < SELECTOR_LENGTH then [] else input[SELECTOR_LENGTH..]
  }

  /** The switch on `METHOD_IDS`: exact, case-sensitive comparison. */
  function Classify(sel: string): (a: Option<Action>)
    ensures a == Some(Stake) <==> sel == STAKE_ID
    ensures a == Some(Unstake) <==> sel == UNSTAKE_ID
    ensures a == Some(Rent) <==> sel == RENT_ID
  {
    if sel == STAKE_ID then Some(Stake)
    else if sel == UNSTAKE_ID then Some(Unstake)
    else if sel == RENT_ID then Some(Rent)
    else None
  }

  /** `decodeTransactionInput`: `parseInt(input.slice(10), 16)`. */
  function DecodeTokenId(input: string): (id: TokenId)
    ensures id.None? <==> |Payload(input)| == 0 || !IsDigit(Payload(input)[0], 16)
  {
    ParseInt(Payload(input), 16)
  }

  /** The input a wallet sends for `method(tokenId)`: the selector then
      the token id as one zero-padded 32-byte word. */
  function EncodeCall(selector: string, tokenId: nat): (input: string)
    requires |selector| == SELECTOR_LENGTH
    requires tokenId < TOKEN_ID_LIMIT
    ensures |input| == SELECTOR_LENGTH + WORD_LENGTH
  {
    TokenIdLimitIsWordRange();
    ToDigitsLength(tokenId, 16, WORD_LENGTH);
    selector + PadLeft(ToDigits(tokenId, 16), WORD_LENGTH)
  }

  /** Round trip: decoding an encoded call gives back its selector and
      its token id, for every 256-bit token id. */
  lemma DecodeEncodeCall(selector: string, tokenId: nat)
    requires |selector| == SELECTOR_LENGTH
    requires tokenId < TOKEN_ID_LIMIT
    ensures Selector(EncodeCall(selector, tokenId)) == selector
    ensures DecodeTokenId(EncodeCall(selector, tokenId)) == Some(tokenId)
  {
    TokenIdLimitIsWordRange();
    var input := EncodeCall(selector, tokenId);
    ToDigitsLength(tokenId, 16, WORD_LENGTH);
    var word := PadLeft(ToDigits(tokenId, 16), WORD_LENGTH);
    assert input[..SELECTOR_LENGTH] == selector;
    assert Payload(input) == word;
    ParseIntPadded(tokenId, 16, WORD_LENGTH, []);
    assert word + [] == word;
  }

  /** Calls built with the three method ids are classified as their
      actions. */
  lemma ClassifyEncodedCalls(tokenId: nat)
    requires tokenId < TOKEN_ID_LIMIT
    ensures Classify(Selector(EncodeCall(STAKE_ID, tokenId))) == Some(Stake)
    ensures Classify(Selector(EncodeCall(UNSTAKE_ID, tokenId))) == Some(Unstake)
    ensures Classify(Selector(EncodeCall(RENT_ID, tokenId))) == Some(Rent)
  {
    DecodeEncodeCall(STAKE_ID, tokenId);
    DecodeEncodeCall(UNSTAKE_ID, tokenId);
    DecodeEncodeCall(RENT_ID, tokenId);
  }
}
