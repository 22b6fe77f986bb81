/** The meteor list of `ShootingStars` in `client/src/App.jsx`: three meteors to start with,
    and on every tick one new meteor appended after trimming the list to its last fifteen. The
    meteors' random parameters are not modelled; a meteor is any value. */
module ShootingStars {

  /** The last `k` entries of `s`, or all of it when it is shorter. */
  function Last<M>(s: seq<M>, k: nat): (r: seq<M>)
    ensures |r| == if |s| <= k then |s| else k
  {
    if |s| <= k then s else s[|s| - k..]
  }

  /** One tick's updater: `prev.length > 15 ? [...prev.slice(prev.length - 15), m] : [...prev, m]`.
      The new meteor comes last, after the latest (at most fifteen) old ones in their order. */
  function Tick<M>(prev: seq<M>, m: M): (r: seq<M>)
    ensures |r| == (if |prev| > 15 then 15 else |prev|) + 1
    ensures r[|r| - 1] == m && r[..|r| - 1] == Last(prev, 15)
  {
    if |prev| > 15 then prev[|prev| - 15..] + [m] else prev + [m]
  }

  /** The list after the first render's three meteors and the ticks that brought `news`. */
  function Run<M>(initial: seq<M>, news: seq<M>): seq<M>
  {
    if news == [] then initial else Tick(Run(initial, news[..|news| - 1]), news[|news| - 1])
  }

  /** The list is always the latest sixteen meteors ever created, in creation order, as long as
      the start holds no more than sixteen. */
  lemma {:induction false} RunKeepsLatest<M>(initial: seq<M>, news: seq<M>)
    requires |initial| <= 16
    ensures Run(initial, news) == Last(initial + news, 16)
  {
    if news != [] {
      var before, m := news[..|news| - 1], news[|news| - 1];
      RunKeepsLatest(initial, before);
      var h := initial + before;
      assert initial + news == h + [m];
      if |h| > 15 {
        assert Last(h, 16)[1..] == h[|h| - 15..];
      }
    }
  }

  /** Starting from three, the list never holds more than sixteen meteors, and holds exactly
      sixteen once thirteen ticks have passed. */
  lemma AtMostSixteen<M>(initial: seq<M>, news: seq<M>)
    requires |initial| == 3
    ensures |Run(initial, news)| <= 16
    ensures |Run(initial, news)| == if |news| >= 13 then 16 else 3 + |news|
  {
    RunKeepsLatest(initial, news);
  }
}
