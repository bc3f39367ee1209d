/**
 * Records of the oracle's feeds and what the two tweet functions compute
 * from one of them before posting (twitter.py:95-133).
 */
module Feed {
  import opened Wrappers
  import opened Rotation
  import Address
  import opened Amount

  /**
   * One element of a feed's JSON list. A field is `None` when the key is
   * absent, or, for `reward_wei`, when `int(...)` cannot read it as a
   * non-negative integer.
   */
  datatype Record = Record(
    block: Option<int>,
    rewardWei: Option<nat>,
    slot: Option<int>,
    validatorIndex: Option<int>,
    withdrawalAddress: Option<string>)

  /** The values a tweet interpolates into its fixed template. */
  datatype Tweet =
    | NewBlockTweet(reward: string, partyEmoji: string, phrase: string, validatorIndex: int, slotUrl: string)
    | WrongFeeTweet(address: string, sadEmoji: string, amount: string, slotUrl: string)

  /** What the per-feed error boundary (twitter.py:144, twitter.py:155) catches. */
  datatype StepError =
    | MissingField(name: string)   // KeyError, or ValueError from int(...)
    | EmptyUnpack                  // ValueError: unpacking "" into two names
    | UncaughtPublishError         // create_tweet raised something other than TweepyException

  /**
   * What `create_tweet` did: it returned, it raised `TweepyException`
   * (caught and logged inside the tweet function), or it raised anything
   * else, which escapes the tweet function.
   */
  datatype PublishResult = Published | TweepyError | OtherError

  /**
   * The `try`/`except tweepy.TweepyException` around `create_tweet`
   * (twitter.py:109-113, twitter.py:129-133): the tweet function returns
   * normally unless rendering already raised or the call raised something
   * that is not a TweepyException.
   */
  function CreateTweet(rendered: Result<Tweet, StepError>, publish: PublishResult): (r: Result<Tweet, StepError>)
    ensures r.Ok? <==> rendered.Ok? && !publish.OtherError?
    ensures r.Ok? ==> r == rendered
    ensures rendered.Ok? && publish.OtherError? ==> r == Err(UncaughtPublishError)
    ensures rendered.Err? ==> r == rendered
  {
    if rendered.Ok? && publish.OtherError? then Err(UncaughtPublishError) else rendered
  }

  const SlotUrlPrefix := "https://beaconcha.in/slot/"

  /** `f"https://beaconcha.in/slot/{block_data['slot']}"` */
  function SlotUrl(slot: int): (url: string)
    ensures |url| > |SlotUrlPrefix| && url[..|SlotUrlPrefix|] == SlotUrlPrefix
    ensures slot >= 0 ==> var digits := url[|SlotUrlPrefix|..];
      && (forall i :: 0 <= i < |digits| ==> '0' <= digits[i] <= '9')
      && (|digits| > 1 ==> digits[0] != '0')
      && DigitsValue(digits) == slot
    ensures slot < 0 ==> url[|SlotUrlPrefix|] == '-'
  {
    var url := SlotUrlPrefix + IntText(slot);
    assert url[|SlotUrlPrefix|..] == IntText(slot);
    if slot >= 0 then
      NatTextRoundTrip(slot);
      NatTextNoLeadingZero(slot);
      url
    else
      url
  }

  /**
   * `tweet_new_block` up to the call of `create_tweet`, as written: the new
   * value of `last_twit_index` and the tweet, or the error raised. At or
   * below 0.1 ETH the conditional expression yields `""`, whose unpacking
   * into two names raises before any index moves (twitter.py:98).
   */
  function RenderNewBlock(rec: Record, twitIndex: int): (r: (int, Result<Tweet, StepError>))
    ensures r.1.Ok? <==> rec.rewardWei.Some? && rec.rewardWei.value > PartyThresholdWei
                         && rec.slot.Some? && rec.validatorIndex.Some?
    ensures r.1.Ok? ==> r.1.value.NewBlockTweet?
                        && r.1.value.reward == ShownAmount(rec.rewardWei.value)
                        && r.1.value.validatorIndex == rec.validatorIndex.value
                        && r.1.value.slotUrl == SlotUrl(rec.slot.value)
                        && r.1.value.partyEmoji in HappyEmojis
                        && r.1.value.phrase in SmoothOperatorPhrases
    ensures rec.rewardWei.Some? && rec.rewardWei.value <= PartyThresholdWei ==> r == (twitIndex, Err(EmptyUnpack))
    ensures rec.rewardWei.None? ==> r.0 == twitIndex
    ensures rec.rewardWei.Some? && rec.rewardWei.value > PartyThresholdWei ==> 0 <= r.0 < ListLength
  {
    if rec.rewardWei.None? then (twitIndex, Err(MissingField("reward_wei")))
    else
      var wei := rec.rewardWei.value;
      if wei <= PartyThresholdWei then (twitIndex, Err(EmptyUnpack))
      else
        var (partyEmoji, i1) := GetNextItem(HappyEmojis, twitIndex);
        var (phrase, i2) := GetNextItem(SmoothOperatorPhrases, i1);
        if rec.slot.None? then (i2, Err(MissingField("slot")))
        else if rec.validatorIndex.None? then (i2, Err(MissingField("validator_index")))
        else (i2, Ok(NewBlockTweet(ShownAmount(wei), partyEmoji, phrase, rec.validatorIndex.value, SlotUrl(rec.slot.value))))
  }

  /**
   * `tweet_new_block` as its conditional evidently means it: no party emoji
   * and no index step at or below 0.1 ETH, then the phrase as usual.
   */
  function RenderNewBlockIntended(rec: Record, twitIndex: int): (r: (int, Result<Tweet, StepError>))
    ensures r.1.Ok? <==> rec.rewardWei.Some? && rec.slot.Some? && rec.validatorIndex.Some?
    ensures r.1.Ok? ==> r.1.value.NewBlockTweet?
                        && r.1.value.reward == ShownAmount(rec.rewardWei.value)
                        && r.1.value.validatorIndex == rec.validatorIndex.value
                        && r.1.value.slotUrl == SlotUrl(rec.slot.value)
                        && (r.1.value.partyEmoji == "" <==> rec.rewardWei.value <= PartyThresholdWei)
    ensures rec.rewardWei.Some? ==> 0 <= r.0 < ListLength
  {
    if rec.rewardWei.None? then (twitIndex, Err(MissingField("reward_wei")))
    else
      var wei := rec.rewardWei.value;
      var (partyEmoji, i1) := if wei > PartyThresholdWei then GetNextItem(HappyEmojis, twitIndex) else ("", twitIndex);
      var (phrase, i2) := GetNextItem(SmoothOperatorPhrases, i1);
      if rec.slot.None? then (i2, Err(MissingField("slot")))
      else if rec.validatorIndex.None? then (i2, Err(MissingField("validator_index")))
      else (i2, Ok(NewBlockTweet(ShownAmount(wei), partyEmoji, phrase, rec.validatorIndex.value, SlotUrl(rec.slot.value))))
  }

  /**
   * `tweet_wrong_fee_block` up to the call of `create_tweet`: the new value
   * of `last_twit_index` and the tweet, or the error raised.
   */
  function RenderWrongFee(rec: Record, twitIndex: int): (r: (int, Result<Tweet, StepError>))
    ensures r.1.Ok? <==> rec.rewardWei.Some? && rec.withdrawalAddress.Some? && rec.slot.Some?
    ensures r.1.Ok? ==> r.1.value.WrongFeeTweet?
                        && r.1.value.amount == ShownAmount(rec.rewardWei.value)
                        && r.1.value.address == Address.ShortenAddress(rec.withdrawalAddress.value)
                        && r.1.value.slotUrl == SlotUrl(rec.slot.value)
                        && r.1.value.sadEmoji in SadEmojis
    ensures rec.rewardWei.None? || rec.withdrawalAddress.None? ==> r.0 == twitIndex
    ensures rec.rewardWei.Some? && rec.withdrawalAddress.Some? ==> r.0 == (twitIndex + 1) % ListLength
  {
    if rec.rewardWei.None? then (twitIndex, Err(MissingField("reward_wei")))
    else if rec.withdrawalAddress.None? then (twitIndex, Err(MissingField("withdrawal_address")))
    else
      var shortened := Address.ShortenAddress(rec.withdrawalAddress.value);
      var (sadEmoji, i1) := GetNextItem(SadEmojis, twitIndex);
      if rec.slot.None? then (i1, Err(MissingField("slot")))
      else (i1, Ok(WrongFeeTweet(shortened, sadEmoji, ShownAmount(rec.rewardWei.value), SlotUrl(rec.slot.value))))
  }

  /** A new block above 0.1 ETH moves the shared index twice: once for the emoji, once for the phrase. */
  lemma {:induction false} NewBlockAdvancesTwice(rec: Record, twitIndex: int)
    requires rec.rewardWei.Some? && rec.rewardWei.value > PartyThresholdWei
    ensures RenderNewBlock(rec, twitIndex).0 == Advanced(ListLength, twitIndex, 2) == (twitIndex + 2) % ListLength
  {
    AdvancedIsShift(ListLength, twitIndex, 2);
  }

  /** A wrong-fee block with its reward and address moves the shared index once. */
  lemma {:induction false} WrongFeeAdvancesOnce(rec: Record, twitIndex: int)
    requires rec.rewardWei.Some? && rec.withdrawalAddress.Some?
    ensures RenderWrongFee(rec, twitIndex).0 == Advanced(ListLength, twitIndex, 1) == (twitIndex + 1) % ListLength
  {
    AdvancedIsShift(ListLength, twitIndex, 1);
  }

  /** Under the intended reading a low reward moves the index once, a high one twice. */
  lemma {:induction false} IntendedAdvances(rec: Record, twitIndex: int)
    requires rec.rewardWei.Some?
    ensures RenderNewBlockIntended(rec, twitIndex).0
            == (if rec.rewardWei.value > PartyThresholdWei then (twitIndex + 2) else (twitIndex + 1)) % ListLength
  {
    if rec.rewardWei.value > PartyThresholdWei {
      AdvancedIsShift(ListLength, twitIndex, 2);
    } else {
      AdvancedIsShift(ListLength, twitIndex, 1);
    }
  }

  /**
   * The as-written and intended renderings agree above the threshold;
   * at or below it only the intended one produces a tweet.
   */
  lemma RenderingsAgreeAboveThreshold(rec: Record, twitIndex: int)
    requires rec.rewardWei.Some? && rec.rewardWei.value > PartyThresholdWei
    ensures RenderNewBlock(rec, twitIndex) == RenderNewBlockIntended(rec, twitIndex)
  {
  }
}
