/** Shortening of withdrawal addresses for display (twitter.py:91-93). */
module Address {

  /** Python's `s[:k]` for k >= 0: the first k characters, or all of s when it is shorter. */
  function Head(s: string, k: nat): (r: string)
    ensures |r| == if |s| < k then |s| else k
    ensures r <= s
  {
    if |s| < k then s else s[..k]
  }

  /** Python's `s[-k:]` for k > 0: the last k characters, or all of s when it is shorter. */
  function Tail(s: string, k: nat): (r: string)
    requires k > 0
    ensures |r| == if |s| < k then |s| else k
    ensures r == s[|s| - |r|..]
  {
    if |s| < k then s else s[|s| - k..]
  }

  /**
   * `address[:6] + '...' + address[-4:]`. There is no length guard: a short
   * address keeps the slice semantics, so characters can appear twice.
   */
  function ShortenAddress(address: string): (r: string)
    ensures |address| >= 10 ==> |r| == 13
    ensures |address| >= 10 ==> r[..6] == address[..6] && r[6..9] == "..." && r[9..] == address[|address| - 4..]
  {
    Head(address, 6) + "..." + Tail(address, 4)
  }

  /**
   * For every length: the first min(n, 6) characters, three dots, then the
   * last min(n, 4) characters of the address.
   */
  lemma ShortenAddressShape(address: string)
    ensures var n := |address|;
      var h := if n < 6 then n else 6;
      var t := if n < 4 then n else 4;
      var r := ShortenAddress(address);
      && |r| == h + 3 + t
      && r[..h] == address[..h]
      && r[h..h + 3] == "..."
      && r[h + 3..] == address[n - t..]
  {
    var n := |address|;
    var h := if n < 6 then n else 6;
    var head, tail := Head(address, 6), Tail(address, 4);
    var r := ShortenAddress(address);
    assert r == head + "..." + tail;
    assert r[..h] == head;
    assert r[h..h + 3] == "...";
    assert r[h + 3..] == tail;
  }

  /** Addresses of four characters or fewer come out whole on both sides of the dots. */
  lemma ShortAddressRepeated(address: string)
    requires |address| <= 4
    ensures ShortenAddress(address) == address + "..." + address
  {
  }

  /** A full-length address keeps its first six and last four characters and nothing in between. */
  lemma {:induction false} ShortenKeepsEnds(address: string, i: nat)
    requires |address| >= 10 && i < 13
    ensures ShortenAddress(address)[i] == if i < 6 then address[i] else if i < 9 then '.' else address[|address| - 13 + i]
  {
    var r := ShortenAddress(address);
    if i < 6 {
      assert r[i] == r[..6][i];
    } else if i < 9 {
      assert r[i] == r[6..9][i - 6];
    } else {
      assert r[i] == r[9..][i - 9];
    }
  }

  /** Examples: a 42-character Ethereum address, a short string, and the empty string. */
  lemma ShortenExamples()
    ensures ShortenAddress("0x388C818CA8B9251b393131C08a736A67ccB19297") == "0x388C...9297"
    ensures ShortenAddress("abc") == "abc...abc"
    ensures ShortenAddress("") == "..."
  {
    ShortAddressRepeated("abc");
  }
}
