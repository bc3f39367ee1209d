/**
 * The ledger of last published blocks, `data/last_blocks.json`
 * (twitter.py:10, twitter.py:53-76): a flat object from feed name to block
 * number, read whole, changed at one key and written whole.
 */
module Ledger {

  /**
   * What reading the file gives: its object, or nothing when the file is
   * missing or does not parse (FileNotFoundError, JSONDecodeError).
   */
  datatype LedgerFile = Readable(data: map<string, int>) | Unreadable

  /** The keys under which the two feeds are recorded. */
  const ProposedBlocksKey := "proposed_blocks"
  const WrongFeeBlocksKey := "wrong_fee_blocks"

  /** `load_last_block`: the stored block for `endpoint`, 0 when absent or when the file cannot be read. */
  function LoadLastBlock(file: LedgerFile, endpoint: string): (n: int)
    ensures file.Readable? && endpoint in file.data ==> n == file.data[endpoint]
    ensures n != 0 ==> file.Readable? && endpoint in file.data && file.data[endpoint] == n
  {
    match file
    case Readable(data) => if endpoint in data then data[endpoint] else 0
    case Unreadable => 0
  }

  /**
   * `save_last_block`: start from the file's object, or from `{}` when it
   * cannot be read, set one key and write the object back.
   */
  function SaveLastBlock(file: LedgerFile, endpoint: string, blockNumber: int): (r: LedgerFile)
    ensures r.Readable? && endpoint in r.data && r.data[endpoint] == blockNumber
    ensures file.Readable? ==> r.data.Keys == file.data.Keys + {endpoint}
    ensures file.Readable? ==> forall k :: k in file.data && k != endpoint ==> r.data[k] == file.data[k]
    ensures file.Unreadable? ==> r.data.Keys == {endpoint}
  {
    var data := if file.Readable? then file.data else map[];
    Readable(data[endpoint := blockNumber])
  }

  /** A load after `save_last_block(endpoint, n)` gives n. */
  lemma LoadAfterSave(file: LedgerFile, endpoint: string, n: int)
    ensures LoadLastBlock(SaveLastBlock(file, endpoint, n), endpoint) == n
  {
  }

  /** Saving one feed leaves every other feed's stored block as it was, when the file was readable. */
  lemma SaveKeepsOtherFeeds(file: LedgerFile, endpoint: string, n: int, other: string)
    requires file.Readable? && other != endpoint
    ensures LoadLastBlock(SaveLastBlock(file, endpoint, n), other) == LoadLastBlock(file, other)
  {
  }

  /**
   * Saving over a missing or corrupt file keeps only the saved feed: every
   * other feed loads 0 afterwards, whatever it held before the file broke.
   */
  lemma SaveOverUnreadableForgets(endpoint: string, n: int, other: string)
    requires other != endpoint
    ensures LoadLastBlock(SaveLastBlock(Unreadable, endpoint, n), other) == 0
  {
  }

  /** Saving the same value twice is the same as saving it once. */
  lemma SaveIdempotent(file: LedgerFile, endpoint: string, n: int)
    ensures SaveLastBlock(SaveLastBlock(file, endpoint, n), endpoint, n) == SaveLastBlock(file, endpoint, n)
  {
  }

  /** Saves to two different feeds commute, whether or not the file was readable. */
  lemma SavesCommute(file: LedgerFile, e1: string, n1: int, e2: string, n2: int)
    requires e1 != e2
    ensures SaveLastBlock(SaveLastBlock(file, e1, n1), e2, n2) == SaveLastBlock(SaveLastBlock(file, e2, n2), e1, n1)
  {
    var a := SaveLastBlock(SaveLastBlock(file, e1, n1), e2, n2);
    var b := SaveLastBlock(SaveLastBlock(file, e2, n2), e1, n1);
    assert a.data == b.data;
  }
}
