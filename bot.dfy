/**
 * The script's module globals and its ledger file, updated in place by the
 * functions and the loop of twitter.py. Each method is proved against the
 * functions of module Step, Ledger and Feed that say what it computes.
 */
module Bot {
  import opened Wrappers
  import opened Rotation
  import Address
  import Amount
  import Ledger
  import opened Feed
  import Step

  class SmoothBot {
    var lastProposedBlock: int
    var lastWrongFeeBlock: int
    var lastTwitIndex: int
    /** The contents of `data/last_blocks.json` as a read would see them. */
    var lastBlocksFile: Ledger.LedgerFile

    /** The abstract state the methods are specified on. */
    function State(): Step.BotState
      reads this
    {
      Step.BotState(lastProposedBlock, lastWrongFeeBlock, lastTwitIndex, lastBlocksFile)
    }

    /** The shared index always points into the three-entry decoration lists. */
    predicate Valid()
      reads this
    {
      0 <= lastTwitIndex < ListLength
    }

    /** Start-up: index 0, then both last blocks loaded from the file (twitter.py:35-38, twitter.py:79-80). */
    constructor (file: Ledger.LedgerFile)
      ensures State() == Step.Initial(file)
      ensures Valid() && Step.Consistent(State())
    {
      lastProposedBlock := 0;
      lastWrongFeeBlock := 0;
      lastTwitIndex := 0;
      lastBlocksFile := file;
      new;
      lastProposedBlock := LoadLastBlock(Ledger.ProposedBlocksKey);
      lastWrongFeeBlock := LoadLastBlock(Ledger.WrongFeeBlocksKey);
    }

    /** `load_last_block`: the stored block for `endpoint`, 0 when the key or the file is missing. */
    method LoadLastBlock(endpoint: string) returns (blockNumber: int)
      ensures blockNumber == Ledger.LoadLastBlock(lastBlocksFile, endpoint)
      ensures lastBlocksFile.Readable? && endpoint in lastBlocksFile.data ==> blockNumber == lastBlocksFile.data[endpoint]
      ensures lastBlocksFile.Unreadable? ==> blockNumber == 0
    {
      match lastBlocksFile {
        case Readable(data) =>
          blockNumber := if endpoint in data then data[endpoint] else 0;
        case Unreadable =>
          blockNumber := 0;
      }
    }

    /** `save_last_block`: read the object (or start from `{}`), set one key, write it back. */
    method SaveLastBlock(endpoint: string, blockNumber: int)
      modifies this`lastBlocksFile
      ensures lastBlocksFile == Ledger.SaveLastBlock(old(lastBlocksFile), endpoint, blockNumber)
    {
      var data: map<string, int> := map[];
      if lastBlocksFile.Readable? {
        data := lastBlocksFile.data;
      }
      data := data[endpoint := blockNumber];
      lastBlocksFile := Ledger.Readable(data);
    }

    /**
     * `tweet_new_block`: moves the shared index, builds the tweet and posts
     * it, where `publish` is what `create_tweet` did. Returns the tweet, or
     * the exception that escapes the function.
     */
    method TweetNewBlock(rec: Record, publish: PublishResult) returns (result: Result<Tweet, StepError>)
      modifies this`lastTwitIndex
      ensures lastTwitIndex == RenderNewBlock(rec, old(lastTwitIndex)).0
      ensures result == CreateTweet(RenderNewBlock(rec, old(lastTwitIndex)).1, publish)
    {
      if rec.rewardWei.None? {
        return Err(MissingField("reward_wei"));
      }
      var rewardWei := rec.rewardWei.value;
      if rewardWei <= Amount.PartyThresholdWei {
        return Err(EmptyUnpack);
      }
      var (partyEmoji, emojiIndex) := GetNextItem(HappyEmojis, lastTwitIndex);
      lastTwitIndex := emojiIndex;
      var (phrase, phraseIndex) := GetNextItem(SmoothOperatorPhrases, lastTwitIndex);
      lastTwitIndex := phraseIndex;
      if rec.slot.None? {
        return Err(MissingField("slot"));
      }
      var slotUrl := SlotUrl(rec.slot.value);
      if rec.validatorIndex.None? {
        return Err(MissingField("validator_index"));
      }
      var tweet := NewBlockTweet(Amount.ShownAmount(rewardWei), partyEmoji, phrase, rec.validatorIndex.value, slotUrl);
      if publish.OtherError? {
        return Err(UncaughtPublishError);
      }
      result := Ok(tweet);
    }

    /**
     * `tweet_wrong_fee_block`: moves the shared index, builds the tweet and
     * posts it, where `publish` is what `create_tweet` did. Returns the
     * tweet, or the exception that escapes the function.
     */
    method TweetWrongFeeBlock(rec: Record, publish: PublishResult) returns (result: Result<Tweet, StepError>)
      modifies this`lastTwitIndex
      ensures lastTwitIndex == RenderWrongFee(rec, old(lastTwitIndex)).0
      ensures result == CreateTweet(RenderWrongFee(rec, old(lastTwitIndex)).1, publish)
    {
      if rec.rewardWei.None? {
        return Err(MissingField("reward_wei"));
      }
      var amount := Amount.ShownAmount(rec.rewardWei.value);
      if rec.withdrawalAddress.None? {
        return Err(MissingField("withdrawal_address"));
      }
      var shortened := Address.ShortenAddress(rec.withdrawalAddress.value);
      var (sadEmoji, sadIndex) := GetNextItem(SadEmojis, lastTwitIndex);
      lastTwitIndex := sadIndex;
      if rec.slot.None? {
        return Err(MissingField("slot"));
      }
      var tweet := WrongFeeTweet(shortened, sadEmoji, amount, SlotUrl(rec.slot.value));
      if publish.OtherError? {
        return Err(UncaughtPublishError);
      }
      result := Ok(tweet);
    }

    /**
     * The body of the guard (twitter.py:141-143 / twitter.py:152-154):
     * advance the in-memory block, call the tweet function, save the block
     * if it returned normally.
     */
    method PostNewBlock(feed: Step.FeedKind, rec: Record, block: int, publish: PublishResult) returns (outcome: Step.FeedOutcome)
      requires Valid()
      modifies this
      ensures Valid()
      ensures (State(), outcome) == Step.Commit(old(State()), feed, block, Step.Render(feed, rec, old(lastTwitIndex)), publish)
    {
      ghost var rendered := Step.Render(feed, rec, lastTwitIndex);
      ghost var advanced := Step.WithLastBlock(State(), feed, block).(lastTwitIndex := rendered.0);
      if feed == Step.ProposedBlocks {
        lastProposedBlock := block;
      } else {
        lastWrongFeeBlock := block;
      }
      var result := TweetFor(feed, rec, publish);
      assert State() == advanced;
      if result.Err? {
        return Step.Failed(result.error);
      }
      SaveLastBlock(Step.Key(feed), block);
      outcome := Step.Posted(result.value, publish);
    }

    /** The tweet function of `feed`: `tweet_new_block` or `tweet_wrong_fee_block` (twitter.py:142, 153). */
    method TweetFor(feed: Step.FeedKind, rec: Record, publish: PublishResult) returns (result: Result<Tweet, StepError>)
      modifies this`lastTwitIndex
      ensures lastTwitIndex == Step.Render(feed, rec, old(lastTwitIndex)).0
      ensures result == CreateTweet(Step.Render(feed, rec, old(lastTwitIndex)).1, publish)
    {
      if feed == Step.ProposedBlocks {
        result := TweetNewBlock(rec, publish);
      } else {
        result := TweetWrongFeeBlock(rec, publish);
      }
    }

    /**
     * One feed's block of the loop body: guard on the last record, then
     * PostNewBlock. `publish` is what `create_tweet` did; the tweet
     * functions swallow a TweepyException.
     */
    method ProcessFeed(feed: Step.FeedKind, fetched: Option<seq<Record>>, publish: PublishResult) returns (outcome: Step.FeedOutcome)
      requires Valid()
      modifies this
      ensures Valid()
      ensures (State(), outcome) == Step.FeedStep(old(State()), feed, fetched, publish)
    {
      ghost var before := State();
      if fetched.None? || |fetched.value| == 0 {
        assert Step.CheckGuard(before, feed, fetched) == Step.NoNewBlock;
        return Step.Skipped;
      }
      var last := fetched.value[|fetched.value| - 1];
      if last.block.None? {
        assert Step.CheckGuard(before, feed, fetched) == Step.MissingBlock;
        return Step.Failed(MissingField("block"));
      }
      var lastBlock := if feed == Step.ProposedBlocks then lastProposedBlock else lastWrongFeeBlock;
      if last.block.value == lastBlock {
        assert Step.CheckGuard(before, feed, fetched) == Step.NoNewBlock;
        return Step.Skipped;
      }
      assert Step.CheckGuard(before, feed, fetched) == Step.NewBlock(last, last.block.value);
      assert Step.FeedStep(before, feed, fetched, publish)
          == Step.Commit(before, feed, last.block.value, Step.Render(feed, last, lastTwitIndex), publish);
      outcome := PostNewBlock(feed, last, last.block.value, publish);
    }

    /** One pass of `while True`: both feeds, each behind its own error boundary. */
    method Cycle(input: Step.TickInput) returns (outcome: Step.TickOutcome)
      requires Valid()
      modifies this
      ensures Valid()
      ensures (State(), outcome) == Step.Tick(old(State()), input)
    {
      var proposed := ProcessFeed(Step.ProposedBlocks, input.proposed, input.proposedPublish);
      var wrongFee := ProcessFeed(Step.WrongFeeBlocks, input.wrongFee, input.wrongFeePublish);
      outcome := Step.TickOutcome(proposed, wrongFee);
    }

    /** The polling loop over a finite run of inputs, one cycle per input. */
    method RunCycles(inputs: seq<Step.TickInput>) returns (log: seq<Step.TickOutcome>)
      requires Valid()
      modifies this
      ensures Valid()
      ensures (State(), log) == Step.Run(old(State()), inputs)
    {
      log := [];
      var i := 0;
      while i < |inputs|
        invariant 0 <= i <= |inputs|
        invariant Valid()
        invariant (State(), log) == Step.Run(old(State()), inputs[..i])
      {
        ghost var before := State();
        Step.RunExtends(old(State()), inputs, i);
        var outcome := Cycle(inputs[i]);
        assert (State(), outcome) == Step.Tick(before, inputs[i]);
        log := log + [outcome];
        i := i + 1;
      }
      assert inputs[..i] == inputs;
    }
  }
}
