/**
  The traffic chart of the network panel (`components/NetworkPanel.tsx`): once
  a second a random sample is appended to the chart's data, and the oldest
  sample is dropped once there are more than 20. The clock's formatted time
  and the three random draws are arguments.
 */
module NetworkPanel {
  import opened Types
  import opened Draws

  /** The chart never holds more samples than this. */
  const WindowSize: nat := 20

  /**
    One sample: upload in [0, 500) KB/s, download in [0, 1000) KB/s and
    between 5 and 24 open connections.
   */
  function NewSample(time: string, up: Unit, down: Unit, conns: Unit): (p: NetworkPacket)
    ensures p.time == time
    ensures 0 <= p.upload < 500 && 0 <= p.download < 1000 && 5 <= p.connections < 25
  {
    NetworkPacket(time, Pick(up, 500), Pick(down, 1000), Pick(conns, 20) + 5)
  }

  /** Every value in the advertised ranges can be drawn. */
  lemma SampleRangesAreTight(up: nat, down: nat, conns: nat)
    requires up < 500 && down < 1000 && 5 <= conns < 25
    ensures exists ru: Unit, rd: Unit, rc: Unit ::
              NewSample("", ru, rd, rc) == NetworkPacket("", up, down, conns)
  {
    var ru: Unit := up as real / 500.0;
    var rd: Unit := down as real / 1000.0;
    var rc: Unit := (conns - 5) as real / 20.0;
    assert NewSample("", ru, rd, rc) == NetworkPacket("", up, down, conns);
  }

  /** The update function of one timer firing: append, then shift once if the chart grew past 20. */
  function Push(window: seq<NetworkPacket>, p: NetworkPacket): (next: seq<NetworkPacket>)
    ensures |window| <= WindowSize ==> |next| <= WindowSize
    ensures |next| > 0 && next[|next| - 1] == p
    ensures |window| < WindowSize ==> next == window + [p]
    ensures |window| >= WindowSize ==> |next| == |window| && next == window[1..] + [p]
  {
    var grown := window + [p];
    if |grown| > WindowSize then grown[1..] else grown
  }

  /** The chart after the timer has fired once for each sample of `samples`, starting empty. */
  function Feed(samples: seq<NetworkPacket>): seq<NetworkPacket>
    decreases |samples|
  {
    if samples == [] then [] else Push(Feed(samples[..|samples| - 1]), samples[|samples| - 1])
  }

  /** The most recent `n` samples, or all of them when there are fewer. */
  function Latest(samples: seq<NetworkPacket>, n: nat): (tail: seq<NetworkPacket>)
    ensures |tail| == if |samples| < n then |samples| else n
  {
    if |samples| <= n then samples else samples[|samples| - n..]
  }

  /** The chart always shows exactly the 20 most recent samples, oldest first. */
  lemma {:induction false} FeedShowsLatest(samples: seq<NetworkPacket>)
    ensures Feed(samples) == Latest(samples, WindowSize)
    decreases |samples|
  {
    if samples != [] {
      var prefix, p := samples[..|samples| - 1], samples[|samples| - 1];
      FeedShowsLatest(prefix);
      assert samples == prefix + [p];
      if |prefix| >= WindowSize {
        var start := |prefix| - WindowSize;
        assert prefix[start..][1..] + [p] == samples[start + 1..];
      }
    }
  }

  /** Once 20 samples have arrived, every further sample pushes out exactly the oldest one. */
  lemma FullWindowSlides(samples: seq<NetworkPacket>, p: NetworkPacket)
    requires |samples| >= WindowSize
    ensures |Feed(samples + [p])| == WindowSize
    ensures Feed(samples + [p]) == Feed(samples)[1..] + [p]
  {
    FeedShowsLatest(samples);
    assert (samples + [p])[..|samples|] == samples;
  }
}
