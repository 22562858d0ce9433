/** The jitter that both src/net/node.rs (lines 316-322) and src/net/ntp.rs (lines 51-52)
    derive from a series of delays: zero first, then absolute consecutive differences. */
module Jitter {
  import opened Wrappers

  function Distance(a: int, b: int): nat {
    if a < b then b - a else a - b
  }

  /** The distance to the previous delay; zero when there is none. */
  function Next(last: Option<int>, delay: int): nat {
    match last
    case None => 0
    case Some(prev) => Distance(delay, prev)
  }

  function LastOf(delays: seq<int>): Option<int> {
    if |delays| == 0 then None else Some(delays[|delays| - 1])
  }

  function Differences(delays: seq<int>): (r: seq<nat>)
    ensures |r| == |delays|
  {
    if |delays| == 0 then []
    else
      var before := delays[..|delays| - 1];
      Differences(before) + [Next(LastOf(before), delays[|delays| - 1])]
  }

  function Total(s: seq<nat>): nat {
    if |s| == 0 then 0 else Total(s[..|s| - 1]) + s[|s| - 1]
  }

  lemma Append(delays: seq<int>, delay: int)
    ensures Differences(delays + [delay]) == Differences(delays) + [Next(LastOf(delays), delay)]
    ensures LastOf(delays + [delay]) == Some(delay)
  {
  }

  lemma {:induction false} DifferencesAt(delays: seq<int>, i: nat)
    requires i < |delays|
    ensures Differences(delays)[i] == if i == 0 then 0
            else if delays[i] < delays[i - 1] then delays[i - 1] - delays[i] else delays[i] - delays[i - 1]
  {
    if i < |delays| - 1 {
      DifferencesAt(delays[..|delays| - 1], i);
    }
  }

  /** The recorded jitters add up to at least the net change of the delay. */
  lemma {:induction false} TotalCoversSpan(delays: seq<int>)
    requires |delays| > 0
    ensures Total(Differences(delays)) >= delays[|delays| - 1] - delays[0]
    ensures Total(Differences(delays)) >= delays[0] - delays[|delays| - 1]
  {
    var before := delays[..|delays| - 1];
    if |before| > 0 {
      TotalCoversSpan(before);
      DifferencesAt(delays, |before|);
      assert Differences(delays)[..|before|] == Differences(before);
    }
  }
}
