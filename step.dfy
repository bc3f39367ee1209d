/**
 * One pass of the polling loop (twitter.py:135-160) as a function of the
 * bot's state: the per-feed step of twitter.py:137-145 and
 * twitter.py:148-156, a tick over both feeds, and a run of ticks.
 */
module Step {
  import opened Wrappers
  import opened Rotation
  import opened Ledger
  import opened Feed

  /** The module globals the loop updates, and the ledger file on disk. */
  datatype BotState = BotState(lastProposedBlock: int, lastWrongFeeBlock: int, lastTwitIndex: int, file: LedgerFile)

  datatype FeedKind = ProposedBlocks | WrongFeeBlocks

  /** What one feed's step did, as its log lines would tell. */
  datatype FeedOutcome =
    | Skipped                                  // nothing fetched, empty list, or no new block
    | Posted(tweet: Tweet, publish: PublishResult)   // create_tweet returned or raised TweepyException
    | Failed(error: StepError)                 // an exception reached the feed's error boundary

  /** The fetch results of one tick and what `create_tweet` did for each feed. */
  datatype TickInput = TickInput(
    proposed: Option<seq<Record>>, proposedPublish: PublishResult,
    wrongFee: Option<seq<Record>>, wrongFeePublish: PublishResult)

  datatype TickOutcome = TickOutcome(proposed: FeedOutcome, wrongFee: FeedOutcome)

  /** The state when the script starts: both blocks loaded from the file, index 0 (twitter.py:35-38, 79-80). */
  function Initial(file: LedgerFile): (s: BotState)
    ensures Consistent(s) && s.lastTwitIndex == 0 && s.file == file
  {
    BotState(LoadLastBlock(file, ProposedBlocksKey), LoadLastBlock(file, WrongFeeBlocksKey), 0, file)
  }

  function LastBlock(s: BotState, feed: FeedKind): int {
    if feed == ProposedBlocks then s.lastProposedBlock else s.lastWrongFeeBlock
  }

  function WithLastBlock(s: BotState, feed: FeedKind, block: int): (r: BotState)
    ensures LastBlock(r, feed) == block
    ensures r.lastTwitIndex == s.lastTwitIndex && r.file == s.file
    ensures LastBlock(r, Other(feed)) == LastBlock(s, Other(feed))
  {
    if feed == ProposedBlocks then s.(lastProposedBlock := block) else s.(lastWrongFeeBlock := block)
  }

  /** The feed that is not `feed`. */
  function Other(feed: FeedKind): (g: FeedKind)
    ensures g != feed
  {
    if feed == ProposedBlocks then WrongFeeBlocks else ProposedBlocks
  }

  function Key(feed: FeedKind): (key: string)
    ensures key in {ProposedBlocksKey, WrongFeeBlocksKey}
  {
    if feed == ProposedBlocks then ProposedBlocksKey else WrongFeeBlocksKey
  }

  function Render(feed: FeedKind, rec: Record, twitIndex: int): (r: (int, Result<Tweet, StepError>)) {
    if feed == ProposedBlocks then RenderNewBlock(rec, twitIndex) else RenderWrongFee(rec, twitIndex)
  }

  /** Where the step stands after the guard of twitter.py:140 / twitter.py:151. */
  datatype Guard = NoNewBlock | MissingBlock | NewBlock(rec: Record, block: int)

  /** `if blocks and blocks[-1]['block'] != last_block`: only the last record is looked at. */
  function CheckGuard(s: BotState, feed: FeedKind, fetched: Option<seq<Record>>): (g: Guard)
    ensures g.NewBlock? <==> (fetched.Some? && |fetched.value| > 0 && fetched.value[|fetched.value| - 1].block.Some?
                              && fetched.value[|fetched.value| - 1].block.value != LastBlock(s, feed))
    ensures g.NewBlock? ==> g.rec == fetched.value[|fetched.value| - 1] && g.block == g.rec.block.value
  {
    if fetched.None? || |fetched.value| == 0 then NoNewBlock
    else
      var rec := fetched.value[|fetched.value| - 1];
      if rec.block.None? then MissingBlock
      else if rec.block.value == LastBlock(s, feed) then NoNewBlock
      else NewBlock(rec, rec.block.value)
  }

  /**
   * After the guard let a new block through: the in-memory last block is
   * already advanced and the index moves as the rendering moved it. The
   * file is saved only when the tweet function returned normally: when
   * `create_tweet` returned or raised TweepyException, not when rendering
   * or `create_tweet` raised anything else.
   */
  function Commit(s: BotState, feed: FeedKind, block: int, rendered: (int, Result<Tweet, StepError>), publish: PublishResult): (r: (BotState, FeedOutcome))
    ensures LastBlock(r.0, feed) == block && r.0.lastTwitIndex == rendered.0
    ensures LastBlock(r.0, Other(feed)) == LastBlock(s, Other(feed))
    ensures r.1.Posted? <==> rendered.1.Ok? && !publish.OtherError?
    ensures r.1.Posted? ==> r.1.tweet == rendered.1.value && r.1.publish == publish
    ensures r.1.Posted? ==> r.0.file == SaveLastBlock(s.file, Key(feed), block)
    ensures !r.1.Posted? ==> r.1.Failed? && r.0.file == s.file
  {
    var s1 := WithLastBlock(s, feed, block).(lastTwitIndex := rendered.0);
    match CreateTweet(rendered.1, publish)
    case Err(e) => (s1, Failed(e))
    case Ok(tweet) => (s1.(file := SaveLastBlock(s1.file, Key(feed), block)), Posted(tweet, publish))
  }

  /** One feed's step of the loop body, as written. */
  function FeedStep(s: BotState, feed: FeedKind, fetched: Option<seq<Record>>, publish: PublishResult): (r: (BotState, FeedOutcome))
    ensures !CheckGuard(s, feed, fetched).NewBlock? ==> r.0 == s && !r.1.Posted?
    ensures CheckGuard(s, feed, fetched).NewBlock? ==> LastBlock(r.0, feed) == CheckGuard(s, feed, fetched).block
    ensures LastBlock(r.0, Other(feed)) == LastBlock(s, Other(feed))
    ensures r.1.Posted? ==> r.0.file == SaveLastBlock(s.file, Key(feed), LastBlock(r.0, feed))
    ensures !r.1.Posted? ==> r.0.file == s.file
  {
    match CheckGuard(s, feed, fetched)
    case NoNewBlock => (s, Skipped)
    case MissingBlock => (s, Failed(MissingField("block")))
    case NewBlock(rec, block) => Commit(s, feed, block, Render(feed, rec, s.lastTwitIndex), publish)
  }

  /** One feed's step with the proposed-block tweet as intended (see RenderNewBlockIntended). */
  function FeedStepIntended(s: BotState, feed: FeedKind, fetched: Option<seq<Record>>, publish: PublishResult): (r: (BotState, FeedOutcome)) {
    match CheckGuard(s, feed, fetched)
    case NoNewBlock => (s, Skipped)
    case MissingBlock => (s, Failed(MissingField("block")))
    case NewBlock(rec, block) =>
      var rendered := if feed == ProposedBlocks then RenderNewBlockIntended(rec, s.lastTwitIndex) else RenderWrongFee(rec, s.lastTwitIndex);
      Commit(s, feed, block, rendered, publish)
  }

  /** One pass of `while True`: proposed blocks, then wrong-fee blocks, each behind its own error boundary. */
  function Tick(s: BotState, input: TickInput): (r: (BotState, TickOutcome))
    ensures r.1.proposed == FeedStep(s, ProposedBlocks, input.proposed, input.proposedPublish).1
    ensures r.0.lastProposedBlock == FeedStep(s, ProposedBlocks, input.proposed, input.proposedPublish).0.lastProposedBlock
    ensures r.0.lastWrongFeeBlock == FeedStep(s, WrongFeeBlocks, input.wrongFee, input.wrongFeePublish).0.lastWrongFeeBlock
    ensures 0 <= s.lastTwitIndex < ListLength ==> 0 <= r.0.lastTwitIndex < ListLength
  {
    var (s1, o1) := FeedStep(s, ProposedBlocks, input.proposed, input.proposedPublish);
    var (s2, o2) := FeedStep(s1, WrongFeeBlocks, input.wrongFee, input.wrongFeePublish);
    if 0 <= s.lastTwitIndex < ListLength then
      IndexStaysInRange(s, ProposedBlocks, input.proposed, input.proposedPublish);
      IndexStaysInRange(s1, WrongFeeBlocks, input.wrongFee, input.wrongFeePublish);
      (s2, TickOutcome(o1, o2))
    else
      (s2, TickOutcome(o1, o2))
  }

  /** The state and log after running the ticks in order. */
  function Run(s: BotState, inputs: seq<TickInput>): (r: (BotState, seq<TickOutcome>))
    ensures |r.1| == |inputs|
    ensures 0 <= s.lastTwitIndex < ListLength ==> 0 <= r.0.lastTwitIndex < ListLength
    decreases |inputs|
  {
    if inputs == [] then (s, [])
    else
      var (s1, log) := Run(s, inputs[..|inputs| - 1]);
      var (s2, o) := Tick(s1, inputs[|inputs| - 1]);
      (s2, log + [o])
  }

  /** A run over one more input is the run over the prefix followed by one tick. */
  lemma RunExtends(s: BotState, inputs: seq<TickInput>, i: nat)
    requires i < |inputs|
    ensures var (s1, log) := Run(s, inputs[..i]);
      Run(s, inputs[..i + 1]) == (Tick(s1, inputs[i]).0, log + [Tick(s1, inputs[i]).1])
  {
    assert inputs[..i + 1][..i] == inputs[..i];
  }

  // ---------------------------------------------------------------------
  // Properties of one step

  /** The step's data leaves nothing to do: no list, an empty list, a last record without a block, or the stored block. */
  predicate Settled(s: BotState, feed: FeedKind, fetched: Option<seq<Record>>) {
    !CheckGuard(s, feed, fetched).NewBlock?
  }

  /** A settled step changes nothing and posts nothing. */
  lemma SettledStepIsQuiet(s: BotState, feed: FeedKind, fetched: Option<seq<Record>>, publish: PublishResult)
    requires Settled(s, feed, fetched)
    ensures FeedStep(s, feed, fetched, publish).0 == s
    ensures !FeedStep(s, feed, fetched, publish).1.Posted?
  {
  }

  /** Nothing fetched, an empty list, or a last block equal to the stored one: the step changes nothing. */
  lemma NoChangeCases(s: BotState, feed: FeedKind, fetched: Option<seq<Record>>, publish: PublishResult)
    requires || fetched.None?
             || (fetched.Some? && fetched.value == [])
             || (fetched.Some? && |fetched.value| > 0 && fetched.value[|fetched.value| - 1].block == Some(LastBlock(s, feed)))
    ensures FeedStep(s, feed, fetched, publish) == (s, Skipped)
  {
  }

  /** Once a step has run, the same data is settled: a second step on it changes nothing. */
  lemma {:induction false} StepSettles(s: BotState, feed: FeedKind, fetched: Option<seq<Record>>, publish: PublishResult)
    ensures Settled(FeedStep(s, feed, fetched, publish).0, feed, fetched)
  {
    var s' := FeedStep(s, feed, fetched, publish).0;
    if CheckGuard(s, feed, fetched).NewBlock? {
      assert LastBlock(s', feed) == CheckGuard(s, feed, fetched).block;
    } else {
      assert s' == s;
    }
  }

  /** Running the step twice on the same data posts at most once, and the second run changes nothing. */
  lemma {:induction false} StepTwicePostsOnce(s: BotState, feed: FeedKind, fetched: Option<seq<Record>>, p1: PublishResult, p2: PublishResult)
    ensures var s1 := FeedStep(s, feed, fetched, p1).0;
      FeedStep(s1, feed, fetched, p2) == (s1, FeedStep(s1, feed, fetched, p2).1)
      && !FeedStep(s1, feed, fetched, p2).1.Posted?
  {
    StepSettles(s, feed, fetched, p1);
    SettledStepIsQuiet(FeedStep(s, feed, fetched, p1).0, feed, fetched, p2);
  }

  /**
   * A step posts exactly when the guard lets a new block through, the tweet
   * function builds its tweet, and `create_tweet` raises nothing but
   * possibly a TweepyException.
   */
  lemma PostsExactlyWhen(s: BotState, feed: FeedKind, fetched: Option<seq<Record>>, publish: PublishResult)
    ensures var g := CheckGuard(s, feed, fetched);
      FeedStep(s, feed, fetched, publish).1.Posted?
      <==> g.NewBlock? && Render(feed, g.rec, s.lastTwitIndex).1.Ok? && !publish.OtherError?
  {
  }

  /** Only the last element of the fetched list matters. */
  lemma OnlyLastRecordMatters(s: BotState, feed: FeedKind, xs: seq<Record>, ys: seq<Record>, last: Record, publish: PublishResult)
    ensures FeedStep(s, feed, Some(xs + [last]), publish) == FeedStep(s, feed, Some(ys + [last]), publish)
  {
    assert (xs + [last])[|xs + [last]| - 1] == last;
    assert (ys + [last])[|ys + [last]| - 1] == last;
  }

  /** Whether `create_tweet` returned or raised TweepyException never changes the state. */
  lemma PublishOutcomeIgnored(s: BotState, feed: FeedKind, fetched: Option<seq<Record>>)
    ensures FeedStep(s, feed, fetched, Published).0 == FeedStep(s, feed, fetched, TweepyError).0
  {
  }

  /**
   * Newness is `!=`: a lower block number than the stored one is posted and
   * overwrites the ledger, and so is a block whose tweet raised
   * TweepyException. Only an exception of another kind leaves the file as
   * it was, with memory already advanced.
   */
  lemma {:induction false} LowerBlockIsPosted(s: BotState, feed: FeedKind, rec: Record, publish: PublishResult)
    requires rec.block.Some? && rec.block.value < LastBlock(s, feed)
    requires Render(feed, rec, s.lastTwitIndex).1.Ok?
    ensures var (s', o) := FeedStep(s, feed, Some([rec]), publish);
      && LastBlock(s', feed) == rec.block.value
      && (!publish.OtherError? ==> o.Posted? && o.publish == publish && LoadLastBlock(s'.file, Key(feed)) == rec.block.value)
      && (publish.OtherError? ==> o == Failed(UncaughtPublishError) && s'.file == s.file)
  {
    var block := rec.block.value;
    assert CheckGuard(s, feed, Some([rec])) == NewBlock(rec, block);
    var rendered := Render(feed, rec, s.lastTwitIndex);
    assert FeedStep(s, feed, Some([rec]), publish) == Commit(s, feed, block, rendered, publish);
    LoadAfterSave(WithLastBlock(s, feed, block).file, Key(feed), block);
  }

  /** The in-memory last blocks agree with what a restart would load from the file. */
  predicate Consistent(s: BotState) {
    && s.lastProposedBlock == LoadLastBlock(s.file, ProposedBlocksKey)
    && s.lastWrongFeeBlock == LoadLastBlock(s.file, WrongFeeBlocksKey)
  }

  /**
   * A step keeps memory and file in agreement unless it raised after the
   * guard let a new block through.
   */
  lemma {:induction false} StepKeepsConsistency(s: BotState, feed: FeedKind, fetched: Option<seq<Record>>, publish: PublishResult)
    requires Consistent(s)
    ensures var (s', o) := FeedStep(s, feed, fetched, publish);
      Consistent(s') || (o.Failed? && CheckGuard(s, feed, fetched).NewBlock?)
  {
    match CheckGuard(s, feed, fetched)
    case NoNewBlock =>
    case MissingBlock =>
    case NewBlock(rec, block) =>
      var (s', o) := FeedStep(s, feed, fetched, publish);
      if o.Posted? {
        var other := if feed == ProposedBlocks then WrongFeeBlocks else ProposedBlocks;
        LoadAfterSave(s.file, Key(feed), block);
        if s.file.Readable? {
          SaveKeepsOtherFeeds(s.file, Key(feed), block, Key(other));
        } else {
          SaveOverUnreadableForgets(Key(feed), block, Key(other));
        }
      }
  }

  /**
   * A new proposed block at or below 0.1 ETH: the unpack raises, nothing is
   * tweeted, the in-memory block is advanced but the file is not saved, so
   * memory and file disagree, and the same data never gets another try.
   */
  lemma {:induction false} LowRewardDiverges(s: BotState, rec: Record, publish: PublishResult)
    requires Consistent(s)
    requires rec.block.Some? && rec.block.value != s.lastProposedBlock
    requires rec.rewardWei.Some? && rec.rewardWei.value <= Amount.PartyThresholdWei
    ensures var (s', o) := FeedStep(s, ProposedBlocks, Some([rec]), publish);
      && o == Failed(EmptyUnpack)
      && s'.lastProposedBlock == rec.block.value
      && s'.lastTwitIndex == s.lastTwitIndex
      && s'.file == s.file
      && !Consistent(s')
      && Settled(s', ProposedBlocks, Some([rec]))
  {
    StepSettles(s, ProposedBlocks, Some([rec]), publish);
  }

  /**
   * With the intended tweet function, a last record with all the fields its
   * feed reads is always posted and saved, unless `create_tweet` raised
   * something other than TweepyException.
   */
  lemma {:induction false} IntendedKeepsConsistency(s: BotState, feed: FeedKind, fetched: Option<seq<Record>>, publish: PublishResult)
    requires Consistent(s)
    requires fetched.Some? && |fetched.value| > 0
    requires var rec := fetched.value[|fetched.value| - 1];
      && rec.block.Some? && rec.rewardWei.Some? && rec.slot.Some?
      && (feed == ProposedBlocks ==> rec.validatorIndex.Some?)
      && (feed == WrongFeeBlocks ==> rec.withdrawalAddress.Some?)
    ensures var (s', o) := FeedStepIntended(s, feed, fetched, publish);
      (Consistent(s') && !o.Failed?) || (publish.OtherError? && o == Failed(UncaughtPublishError))
  {
    match CheckGuard(s, feed, fetched)
    case NoNewBlock =>
    case MissingBlock =>
    case NewBlock(rec, block) =>
      var other := if feed == ProposedBlocks then WrongFeeBlocks else ProposedBlocks;
      LoadAfterSave(s.file, Key(feed), block);
      if s.file.Readable? {
        SaveKeepsOtherFeeds(s.file, Key(feed), block, Key(other));
      } else {
        SaveOverUnreadableForgets(Key(feed), block, Key(other));
      }
  }

  /** Every step keeps the shared index inside the decoration lists. */
  lemma IndexStaysInRange(s: BotState, feed: FeedKind, fetched: Option<seq<Record>>, publish: PublishResult)
    requires 0 <= s.lastTwitIndex < ListLength
    ensures 0 <= FeedStep(s, feed, fetched, publish).0.lastTwitIndex < ListLength
  {
  }

  /** A feed's step never touches the other feed's last block. */
  lemma StepLeavesOtherFeed(s: BotState, feed: FeedKind, other: FeedKind, fetched: Option<seq<Record>>, publish: PublishResult)
    requires other != feed
    ensures LastBlock(FeedStep(s, feed, fetched, publish).0, other) == LastBlock(s, other)
  {
  }

  // ---------------------------------------------------------------------
  // Properties of ticks

  /**
   * Each feed is attempted in every tick, whatever happened to the other
   * one: the wrong-fee feed posts, skips or fails with the same error as it
   * would on its own, and its remembered block ends the same. Only the
   * emoji drawn and the file it saves into can differ, through the shared
   * index and file.
   */
  lemma {:induction false} FailureIsolation(s: BotState, input: TickInput)
    ensures var alone := FeedStep(s, WrongFeeBlocks, input.wrongFee, input.wrongFeePublish);
      && (Tick(s, input).1.wrongFee.Posted? <==> alone.1.Posted?)
      && (Tick(s, input).1.wrongFee.Skipped? <==> alone.1.Skipped?)
      && (Tick(s, input).1.wrongFee.Failed? <==> alone.1.Failed?)
      && (alone.1.Failed? ==> Tick(s, input).1.wrongFee.error == alone.1.error)
      && Tick(s, input).0.lastWrongFeeBlock == alone.0.lastWrongFeeBlock
  {
    var s1 := FeedStep(s, ProposedBlocks, input.proposed, input.proposedPublish).0;
    assert LastBlock(s1, WrongFeeBlocks) == LastBlock(s, WrongFeeBlocks);
    assert Tick(s, input).1.wrongFee == FeedStep(s1, WrongFeeBlocks, input.wrongFee, input.wrongFeePublish).1;
    OutcomeDependsOnOwnBlock(s1, s, WrongFeeBlocks, input.wrongFee, input.wrongFeePublish);
  }

  /** Whether a rendering fails, and with which error, does not depend on the shared index. */
  lemma RenderErrorIgnoresIndex(feed: FeedKind, rec: Record, i: int, j: int)
    ensures Render(feed, rec, i).1.Ok? <==> Render(feed, rec, j).1.Ok?
    ensures Render(feed, rec, i).1.Err? ==> Render(feed, rec, i).1 == Render(feed, rec, j).1
  {
  }

  /**
   * A feed's outcome kind, its error and its remembered block after the step
   * depend only on that feed's remembered block, not on the shared index,
   * the file or the other feed.
   */
  lemma OutcomeDependsOnOwnBlock(s: BotState, t: BotState, feed: FeedKind, fetched: Option<seq<Record>>, publish: PublishResult)
    requires LastBlock(s, feed) == LastBlock(t, feed)
    ensures var (ss, os) := FeedStep(s, feed, fetched, publish);
      var (st, ot) := FeedStep(t, feed, fetched, publish);
      && (os.Posted? <==> ot.Posted?)
      && (os.Skipped? <==> ot.Skipped?)
      && (os.Failed? <==> ot.Failed?)
      && (os.Failed? ==> os.error == ot.error)
      && LastBlock(ss, feed) == LastBlock(st, feed)
  {
    assert CheckGuard(s, feed, fetched) == CheckGuard(t, feed, fetched);
    match CheckGuard(s, feed, fetched)
    case NoNewBlock =>
    case MissingBlock =>
    case NewBlock(rec, block) =>
      RenderErrorIgnoresIndex(feed, rec, s.lastTwitIndex, t.lastTwitIndex);
  }

  /**
   * Once a tick has run, another tick on the same fetched data changes
   * nothing and posts nothing, whatever `create_tweet` would do this time:
   * a block whose tweet raised TweepyException is not retried.
   */
  lemma {:induction false} TickTwiceIsQuiet(s: BotState, input: TickInput, input2: TickInput)
    requires input2.proposed == input.proposed && input2.wrongFee == input.wrongFee
    ensures var s1 := Tick(s, input).0;
      && Tick(s1, input2).0 == s1
      && !Tick(s1, input2).1.proposed.Posted?
      && !Tick(s1, input2).1.wrongFee.Posted?
  {
    var (sp, _) := FeedStep(s, ProposedBlocks, input.proposed, input.proposedPublish);
    var (s1, _) := FeedStep(sp, WrongFeeBlocks, input.wrongFee, input.wrongFeePublish);
    StepSettles(s, ProposedBlocks, input.proposed, input.proposedPublish);
    StepSettles(sp, WrongFeeBlocks, input.wrongFee, input.wrongFeePublish);
    // the wrong-fee step keeps the proposed feed settled
    assert LastBlock(s1, ProposedBlocks) == LastBlock(sp, ProposedBlocks);
    SettledStepIsQuiet(s1, ProposedBlocks, input2.proposed, input2.proposedPublish);
    SettledStepIsQuiet(s1, WrongFeeBlocks, input2.wrongFee, input2.wrongFeePublish);
  }

  /**
   * Polling identical data again and again posts each feed at most once:
   * every tick after the first leaves the state as the first one left it
   * and posts nothing, whatever `create_tweet` does on the later ticks.
   */
  lemma {:induction false} RepeatedTicksPostOnce(s: BotState, inputs: seq<TickInput>)
    requires |inputs| > 0
    requires forall k :: 0 <= k < |inputs| ==> inputs[k].proposed == inputs[0].proposed && inputs[k].wrongFee == inputs[0].wrongFee
    ensures Run(s, inputs).0 == Tick(s, inputs[0]).0
    ensures forall k :: 1 <= k < |inputs| ==> !Run(s, inputs).1[k].proposed.Posted? && !Run(s, inputs).1[k].wrongFee.Posted?
  {
    var n := |inputs|;
    if n == 1 {
      assert inputs[..0] == [];
    } else {
      var prefix := inputs[..n - 1];
      RepeatedTicksPostOnce(s, prefix);
      TickTwiceIsQuiet(s, inputs[0], inputs[n - 1]);
      var log := Run(s, inputs).1;
      assert log == Run(s, prefix).1 + [Tick(Run(s, prefix).0, inputs[n - 1]).1];
      forall k | 1 <= k < n
        ensures !log[k].proposed.Posted? && !log[k].wrongFee.Posted?
      {
        if k < n - 1 {
          assert log[k] == Run(s, prefix).1[k];
        }
      }
    }
  }

  /**
   * When the file is missing at start and both feeds post in one tick, the
   * first save creates the file and the second keeps the first's entry.
   */
  lemma {:induction false} FirstTickCreatesLedger(input: TickInput)
    requires Tick(Initial(Unreadable), input).1.proposed.Posted?
    requires Tick(Initial(Unreadable), input).1.wrongFee.Posted?
    ensures var s := Tick(Initial(Unreadable), input).0;
      Consistent(s) && s.file.Readable? && s.file.data.Keys == {ProposedBlocksKey, WrongFeeBlocksKey}
  {
    var s0 := Initial(Unreadable);
    StepKeepsConsistency(s0, ProposedBlocks, input.proposed, input.proposedPublish);
    PostedSaves(s0, ProposedBlocks, input.proposed, input.proposedPublish);
    var s1 := FeedStep(s0, ProposedBlocks, input.proposed, input.proposedPublish).0;
    StepKeepsConsistency(s1, WrongFeeBlocks, input.wrongFee, input.wrongFeePublish);
    PostedSaves(s1, WrongFeeBlocks, input.wrongFee, input.wrongFeePublish);
  }

  /** A posting step saves its block under its feed's key, and a step that does not post leaves the file alone. */
  lemma PostedSaves(s: BotState, feed: FeedKind, fetched: Option<seq<Record>>, publish: PublishResult)
    ensures var (s', o) := FeedStep(s, feed, fetched, publish);
      if o.Posted? then s'.file == SaveLastBlock(s.file, Key(feed), LastBlock(s', feed)) else s'.file == s.file
  {
  }
}
