# smooth-bot: deduplication and ledger model

A Dafny model of the decision logic of the Smooth pool's Twitter bot
(`twitter.py`). The bot polls two oracle feeds, proposed blocks and
wrong-fee blocks. On each pass it looks at the last record of each list
and compares its `block` with the block it remembers. When they differ, it
advances the remembered block, builds a tweet and records the block in
`data/last_blocks.json`.

The model covers:

- `get_next_item` and the one global rotation index, `last_twit_index`,
  shared by the happy-emoji, sad-emoji and phrase lists (module `Rotation`);
- `shorten_address`, with Python's slice semantics (module `Address`);
- the reward shown in a tweet: `reward_wei / 10^18`, exactly, with four
  decimals (module `Amount`);
- the ledger file, read whole, changed at one key and written whole; a
  missing or corrupt file reads as `{}` (module `Ledger`);
- what `tweet_new_block` and `tweet_wrong_fee_block` compute: the index
  moves, the tweet's values, the exceptions that escape, and the effect of
  `create_tweet` returning, raising `TweepyException` (caught) or raising
  anything else (escapes) (module `Feed`);
- one feed's step, one pass of the loop and a run of passes, as pure
  functions of the bot state (module `Step`);
- the module globals and the file as a class, `Bot.SmoothBot`. Its methods
  update the fields the way the script does, and each is proved equal to
  the matching function in `Step`, `Ledger` or `Feed`.

The model follows the code as written, including where its behaviour may be
unexpected:

- `shorten_address` has no guard for short inputs, so `"abc"` becomes
  `"abc...abc"`;
- a tweet whose publication raises `TweepyException` still advances and
  saves the ledger, because that exception is caught inside the tweet
  functions, so it is never retried; any other exception from
  `create_tweet` escapes to the step's `except`, after memory was advanced
  and before the save;
- there is no rate-limit handling, no message-length truncation, no
  donations feed and no block-type classifier;
- rewards are rounded to four places by Python's default decimal context,
  which breaks ties to even, not away from zero.

## Model

In the rows below, a step *posts* (outcome `Posted`) when it hands its
tweet to `create_tweet` and that call returns or raises `TweepyException`:
in both cases the tweet function returns normally and the block is saved,
although in the second nothing was published.

| member | source | states |
|---|---|---|
| `Rotation.GetNextItem` | twitter.py:40-42 | the returned position is in `[0, len)`, the item is the list's entry there, and it is the cyclic successor of an in-range `last_index` (wrapping from `len-1` to 0) |
| `Rotation.AdvancedIsShift` | twitter.py:40-42 | advancing the index k times from i lands on `(i + k) % len` |
| `Address.ShortenAddress` | twitter.py:91-93 | for length >= 10: 13 characters, the first 6 of the address, `"..."`, the last 4 |
| `Address.ShortenAddressShape` | twitter.py:91-93 | for every length n, with h = min(n,6) and t = min(n,4): the result has h + 3 + t characters, the first h of the address, `"..."`, then the last t of the address |
| `Address.ShortAddressRepeated` | twitter.py:91-93 | an address of at most 4 characters comes out as itself, `"..."`, itself |
| `Address.ShortenKeepsEnds` | twitter.py:91-93 | character by character, a full-length address keeps its first six and last four characters around three dots |
| `Address.ShortenExamples` | twitter.py:91-93 | the 42-character address `"0x388C818CA8B9251b393131C08a736A67ccB19297"` gives `"0x388C...9297"`, `"abc"` gives `"abc...abc"`, `""` gives `"..."` |
| `Amount.ShownUnits` | twitter.py:104 | the shown number of ten-thousandths is within half a unit of the exact `wei / 10^18` |
| `Amount.ShownUnitsIsNearest` | twitter.py:104 | unless the value is an exact tie, every other number of ten-thousandths is strictly farther from `wei / 10^18` than the shown one |
| `Amount.ExactWhenMultiple` | twitter.py:104 | a whole number of ten-thousandths is shown exactly |
| `Amount.NatTextNoLeadingZero` | twitter.py:104 | like Python's `str`, the digits written for n start with `'0'` only when n is 0, which is written `"0"` |
| `Amount.NatTextRoundTrip` | twitter.py:104 | reading back the decimal digits written for n gives n |
| `Amount.AmountText` | twitter.py:104 | the text of a number of ten-thousandths has at least six characters, with the decimal point fifth from the end |
| `Amount.ShownAmount` | twitter.py:104 | the text shown for a reward has at least six characters, with the decimal point fifth from the end |
| `Amount.ShownAmountReadsBack` | twitter.py:104 | the shown text is digits without a leading zero (except a lone `0`), a point and four digits, and read back it is within half a ten-thousandth of an ether of the reward |
| `Amount.AmountTextRoundTrip` | twitter.py:104 | the shown text is digits without a leading zero (except a lone `0`), a point and four digits, and reading it back gives the shown number of ten-thousandths |
| `Amount.ShownAmountExamples` | twitter.py:126 | 0.15 ETH shows as `0.1500`, 1 wei as `0.0000` |
| `Ledger.LoadLastBlock` | twitter.py:68-76 | the stored value when the file is readable and has the key; a non-zero result is always the value stored under the key, so a missing key or an unreadable file gives 0 |
| `Ledger.SaveLastBlock` | twitter.py:53-65 | afterwards the file is readable and holds `endpoint: n`; over a readable file every other key is kept with its value and no key is added; over a missing or corrupt file `endpoint` is the only key |
| `Ledger.LoadAfterSave` | twitter.py:53-76 | `load_last_block(e)` after `save_last_block(e, n)` gives n |
| `Ledger.SaveKeepsOtherFeeds` | twitter.py:53-65 | over a readable file, saving one feed leaves what every other feed loads unchanged |
| `Ledger.SaveOverUnreadableForgets` | twitter.py:54-62 | saving over a missing or corrupt file makes every other feed load 0 |
| `Ledger.SaveIdempotent` | twitter.py:53-65 | saving the same block twice equals saving it once |
| `Ledger.SavesCommute` | twitter.py:53-65 | saves to two different feeds commute, over a readable or an unreadable file |
| `Feed.SlotUrl` | twitter.py:100 | the URL is the `beaconcha.in/slot/` prefix followed by the slot: for a non-negative slot, decimal digits without a leading zero that read back as the slot; for a negative one, a minus sign first |
| `Feed.CreateTweet` | twitter.py:109-113 | a built tweet survives `create_tweet` unless it raised something other than `TweepyException`, which escapes as an error; an error from building the tweet is passed on unchanged |
| `Feed.RenderNewBlock` | twitter.py:95-108 | a tweet results exactly when `reward_wei` is present and above 0.1 ETH and `slot` and `validator_index` are present; it carries the shown reward, the validator index, the slot URL, a happy emoji and a phrase; at or below 0.1 ETH it raises the unpack error and leaves the index alone |
| `Feed.RenderWrongFee` | twitter.py:116-128 | a tweet results exactly when `reward_wei`, `withdrawal_address` and `slot` are present; it carries the shortened address, the shown amount, the slot URL and a sad emoji; the index is untouched when the reward or the address is missing and advanced once, to `(i + 1) % 3`, otherwise |
| `Feed.RenderNewBlockIntended` | twitter.py:98 | corrected rendering: a tweet results whenever the fields are present; the party emoji is empty exactly at or below 0.1 ETH |
| `Feed.NewBlockAdvancesTwice` | twitter.py:96-99 | above 0.1 ETH the shared index advances twice: `(i + 2) % 3` |
| `Feed.WrongFeeAdvancesOnce` | twitter.py:117-120 | a wrong-fee block with reward and address advances the index once: `(i + 1) % 3` |
| `Feed.IntendedAdvances` | twitter.py:98-99 | with the corrected rendering, a low reward advances the index once and a high one twice |
| `Feed.RenderingsAgreeAboveThreshold` | twitter.py:98 | above 0.1 ETH the as-written and corrected renderings are identical |
| `Step.Initial` | twitter.py:78-80 | the start state loads both last blocks from the file, agrees with it, and has index 0 |
| `Step.Commit` | twitter.py:141-143 | after the guard: memory holds the new block and the index the tweet function left; the step posts exactly when the tweet was built and `create_tweet` raised nothing but `TweepyException`, and then the file is saved under the feed's key; otherwise it fails and the file is untouched; the other feed's block is kept |
| `Step.FeedStep` | twitter.py:139-143 | when the guard lets nothing through the state is unchanged and nothing is posted; otherwise memory holds the new block; the other feed's block is kept; the file is saved under the feed's key exactly when the step posts |
| `Step.Tick` | twitter.py:135-157 | a pass runs the proposed-blocks step on the old state, and its remembered blocks are those each feed's step alone would leave |
| `Step.Run` | twitter.py:135-160 | a run of passes logs one outcome per pass and keeps the shared index in `[0, 3)` |
| `Step.RunExtends` | twitter.py:135-160 | a run over one more input is the run over the prefix followed by one pass on the new input |
| `Step.CheckGuard` | twitter.py:140 | a new block is reported exactly when the list is non-empty, its last record has a block, and that block `!=` the remembered one; the record taken is the last one |
| `Step.SettledStepIsQuiet` | twitter.py:139-143 | when the guard lets nothing through, the step leaves the state unchanged and posts nothing |
| `Step.NoChangeCases` | twitter.py:139-143 | `None`, `[]`, or a last block equal to the stored one: the step changes nothing and is skipped |
| `Step.StepSettles` | twitter.py:140-141 | after one step on some data, the guard lets nothing through for the same data |
| `Step.StepTwicePostsOnce` | twitter.py:139-143 | a second step on the same data changes nothing and does not post |
| `Step.PostsExactlyWhen` | twitter.py:140-143 | a step posts if and only if the guard lets a new block through, the tweet function builds its tweet, and `create_tweet` raised nothing but `TweepyException` |
| `Step.OnlyLastRecordMatters` | twitter.py:140-142 | two lists with the same last record give the same step |
| `Step.PublishOutcomeIgnored` | twitter.py:109-113 | whether `create_tweet` returned or raised `TweepyException` never changes the resulting state |
| `Step.LowerBlockIsPosted` | twitter.py:140-143 | a block lower than the stored one is taken into memory; unless `create_tweet` raised something other than `TweepyException` it is posted and the file holds it, otherwise the step fails and the file is unchanged |
| `Step.StepKeepsConsistency` | twitter.py:137-145 | from a state whose memory agrees with the file, a step keeps them in agreement unless it raised after the guard let a new block through |
| `Step.LowRewardDiverges` | twitter.py:137-145 | a new proposed block at or below 0.1 ETH: unpack error, no tweet, memory advanced, file unchanged, memory and file disagree, and the same data is never retried |
| `Step.IntendedKeepsConsistency` | twitter.py:137-145 | with the corrected rendering, a last record with the fields its own feed reads never fails and memory and file stay in agreement, unless `create_tweet` raised something other than `TweepyException` |
| `Step.IndexStaysInRange` | twitter.py:40-42 | every step keeps the shared index in `[0, 3)` |
| `Step.StepLeavesOtherFeed` | twitter.py:139-154 | one feed's step never changes the other feed's remembered block |
| `Step.RenderErrorIgnoresIndex` | twitter.py:95-128 | whether a tweet function raises, and which exception, does not depend on the shared index |
| `Step.OutcomeDependsOnOwnBlock` | twitter.py:137-156 | a feed's outcome kind, its error and its remembered block afterwards depend only on that feed's remembered block |
| `Step.FailureIsolation` | twitter.py:137-156 | whatever the proposed-blocks step did, the wrong-fee step in the same pass posts, skips or fails (with the same error) exactly as it would on its own, and leaves the same remembered block |
| `Step.TickTwiceIsQuiet` | twitter.py:135-156 | a second pass over the same fetched data changes nothing and posts on neither feed, whatever `create_tweet` would do on it, so a tweet that raised `TweepyException` is never retried |
| `Step.RepeatedTicksPostOnce` | twitter.py:135-160 | over any number of passes on identical fetched data, whatever `create_tweet` does on each, the final state is that of the first pass, and no later pass posts on either feed |
| `Step.PostedSaves` | twitter.py:141-143 | a posting step saves its block under its own key; any other step leaves the file untouched |
| `Step.FirstTickCreatesLedger` | twitter.py:53-65 | starting without a file, two posts in one pass leave a readable file with exactly both keys, in agreement with memory |
| `Bot.SmoothBot.constructor` | twitter.py:34-38 | the start state is `Step.Initial` of the file: both blocks loaded, index 0 |
| `Bot.SmoothBot.LoadLastBlock` | twitter.py:68-76 | returns the stored value for the key, or 0 when the key is absent or the file unreadable |
| `Bot.SmoothBot.SaveLastBlock` | twitter.py:53-66 | the file becomes `Ledger.SaveLastBlock` of the old file; no other field changes |
| `Bot.SmoothBot.TweetNewBlock` | twitter.py:95-113 | the index is that of `Feed.RenderNewBlock` on the old index, and the result is its tweet passed through `Feed.CreateTweet`; nothing else changes |
| `Bot.SmoothBot.TweetWrongFeeBlock` | twitter.py:116-133 | the index is that of `Feed.RenderWrongFee` on the old index, and the result is its tweet passed through `Feed.CreateTweet`; nothing else changes |
| `Bot.SmoothBot.TweetFor` | twitter.py:141-143 | calling the feed's tweet function moves the index and returns the result of `Step.Render` on the old index, passed through `Feed.CreateTweet` |
| `Bot.SmoothBot.PostNewBlock` | twitter.py:141-143 | setting the block, tweeting and saving give the state and outcome of `Step.Commit` on the old state |
| `Bot.SmoothBot.ProcessFeed` | twitter.py:137-145 | the new state and the outcome are `Step.FeedStep` of the old state; the index stays in range |
| `Bot.SmoothBot.Cycle` | twitter.py:135-157 | the new state and the outcomes are `Step.Tick` of the old state |
| `Bot.SmoothBot.RunCycles` | twitter.py:135-160 | after a finite run of passes, the state and the log are `Step.Run` of the old state |

## Left out

- HTTP fetching (`fetch_data`, twitter.py:82-89) is not modelled: a fetch result is `Option<seq<Record>>`, with `None` for a network error. A JSON body that is not a list is not modelled.
- Record fields hold only their expected types. A JSON value of another type (a string `block`, a non-string address) has no counterpart, except `reward_wei`, whose `None` also stands for a value `int()` cannot read.
- The Twitter client and `create_tweet` (twitter.py:21-24, 110, 130) are not modelled; their effect is a `PublishResult` parameter: returned, raised `TweepyException`, or raised another exception. Exceptions outside `Exception` (such as `KeyboardInterrupt`), which would end the script, are not modelled.
- A ledger file that parses as JSON but is not an object (a list, say) makes `data.get` raise `AttributeError` in `load_last_block` at start-up (twitter.py:72-73, 79-80), outside any `try`, which stops the script; in `save_last_block` the same file makes the step fail. Neither is modelled: the file is either an object or unreadable.
- File I/O and JSON encoding are not modelled: the file is `Readable(map)` or `Unreadable` (missing or corrupt). A write failure inside `save_last_block`, which the step's `except` would catch, is not modelled.
- Credentials from `dotenv`/`os.getenv`, logging, `Web3()` and `time.sleep(300)` are not modelled. The infinite loop is modelled as a run over a finite sequence of pass inputs.
- Web3's `from_wei` range check is not modelled: a negative reward or one of 2^256 wei or more would raise. `reward_wei` is a `nat`, so a negative reward cannot be represented.
- The `> 0.1` test compares a `Decimal` with a float, so its true cutoff is a few wei above 10^17. The model uses the integer threshold 10^17 wei.
- The wording and layout of the tweet text are not modelled. A tweet carries the values the template interpolates: the shown amount, the emoji, the phrase, the validator index or shortened address, and the slot URL.
- Amount.ShownUnits: its contract does not say which of the two nearest values is shown at an exact tie. The function breaks ties to even.

## Findings

| source | as written | input that shows it | evidently intended | confidence | as-written member | corrected member |
|---|---|---|---|---|---|---|
| twitter.py:98 | `party_emoji, last_twit_index = get_next_item(...) if reward_eth > 0.1 else ""`: at or below 0.1 ETH the right side is `""`, and unpacking it into two names raises `ValueError`. The step's `except` catches it after `last_proposed_block` was already advanced, so the block is never tweeted, the file is not saved, and memory and file disagree. | a new proposed block with `reward_wei` = 100000000000000000 (0.1 ETH) and all other fields present | no party emoji and no index step, then the usual phrase, tweet and save | high; not executed | `Step.LowRewardDiverges` | `Step.IntendedKeepsConsistency` |

`Feed.RenderNewBlock` and `Step.FeedStep` model the code as written, and
`Bot.SmoothBot` follows them. `Feed.RenderNewBlockIntended` and
`Step.FeedStepIntended` are the corrected definitions, and the corrected
property is proved about them.
