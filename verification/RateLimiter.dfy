/** The sliding-window limiter, against a limiter that remembers every accepted call for ever. */
module RateLimiter {
  const WINDOW := 60.0

  /** Drops expired times from the front only. */
  function Prune(window: seq<real>, now: real): seq<real> {
    if window != [] && now - window[0] > WINDOW then Prune(window[1..], now) else window
  }

  datatype Verdict = Verdict(allowed: bool, window: seq<real>)

  function Decide(window: seq<real>, perMin: int, now: real): Verdict {
    if perMin <= 0 then Verdict(true, window)
    else
      var live := Prune(window, now);
      if |live| >= perMin then Verdict(false, live) else Verdict(true, live + [now])
  }

  class Limiter {
    var hits: map<string, seq<real>>

    constructor ()
      ensures hits == map[]
    {
      hits := map[];
    }

    function WindowOf(key: string): seq<real>
      reads this
    {
      if key in hits then hits[key] else []
    }

    /** Only this key's window changes. */
    method Allow(key: string, perMin: int, now: real) returns (allowed: bool)
      modifies this
      ensures allowed == Decide(old(WindowOf(key)), perMin, now).allowed
      ensures hits == if perMin <= 0 then old(hits)
                      else old(hits)[key := Decide(old(WindowOf(key)), perMin, now).window]
    {
      if perMin <= 0 {
        return true;
      }
      var window := WindowOf(key);
      while window != [] && now - window[0] > WINDOW
        invariant Prune(window, now) == Prune(old(WindowOf(key)), now)
      {
        window := window[1..];
      }
      if |window| >= perMin {
        hits := hits[key := window];
        return false;
      }
      hits := hits[key := window + [now]];
      return true;
    }
  }

  // ---------- Full history ----------

  /** Accepted calls in the closed interval from `lo` to `hi`. */
  function Within(accepted: seq<real>, lo: real, hi: real): nat {
    if accepted == [] then 0
    else
      Within(accepted[..|accepted| - 1], lo, hi)
      + if lo <= accepted[|accepted| - 1] <= hi then 1 else 0
  }

  /** The limiter that forgets nothing: refuse when the last 60 seconds are full. */
  predicate FullAllows(accepted: seq<real>, perMin: int, now: real) {
    perMin <= 0 || Within(accepted, now - 60.0, now) < perMin
  }

  /** Both limiters fed the same calls: the window, every accepted time, and both lists of answers. */
  datatype Trace = Trace(window: seq<real>, accepted: seq<real>, answers: seq<bool>, fullAnswers: seq<bool>)

  function Feed(calls: seq<real>, perMin: int): Trace {
    if calls == [] then Trace([], [], [], [])
    else
      var n := |calls| - 1;
      var t := Feed(calls[..n], perMin);
      var v := Decide(t.window, perMin, calls[n]);
      Trace(v.window, if v.allowed then t.accepted + [calls[n]] else t.accepted,
            t.answers + [v.allowed], t.fullAnswers + [FullAllows(t.accepted, perMin, calls[n])])
  }

  ghost predicate Sorted(s: seq<real>) {
    forall i, j :: 0 <= i < j < |s| ==> s[i] <= s[j]
  }

  /** The window is the tail of the history, and all that was dropped had expired by `now`. */
  ghost predicate Tracks(window: seq<real>, accepted: seq<real>, now: real) {
    && |window| <= |accepted| && window == accepted[|accepted| - |window|..]
    && Sorted(accepted) && (forall i :: 0 <= i < |accepted| ==> accepted[i] <= now)
    && (forall i :: 0 <= i < |accepted| - |window| ==> now - accepted[i] > WINDOW)
  }

  lemma {:induction false} PruneTracks(window: seq<real>, accepted: seq<real>, now: real)
    requires Tracks(window, accepted, now)
    ensures Tracks(Prune(window, now), accepted, now)
    ensures Prune(window, now) != [] ==> now - Prune(window, now)[0] <= WINDOW
  {
    if window != [] && now - window[0] > WINDOW {
      var k := |accepted| - |window|;
      assert window[0] == accepted[k] && window[1..] == accepted[k + 1..];
      assert Tracks(window[1..], accepted, now);
      PruneTracks(window[1..], accepted, now);
    }
  }

  lemma {:induction false} WithinSplit(a: seq<real>, b: seq<real>, lo: real, hi: real)
    ensures Within(a + b, lo, hi) == Within(a, lo, hi) + Within(b, lo, hi)
  {
    if b == [] {
      assert a + b == a;
    } else {
      var n := |b| - 1;
      assert (a + b)[..|a + b| - 1] == a + b[..n];
      WithinSplit(a, b[..n], lo, hi);
    }
  }

  lemma {:induction false} WithinNone(a: seq<real>, lo: real, hi: real)
    requires forall i :: 0 <= i < |a| ==> a[i] < lo
    ensures Within(a, lo, hi) == 0
  {
    if a != [] {
      WithinNone(a[..|a| - 1], lo, hi);
    }
  }

  lemma {:induction false} WithinAll(a: seq<real>, lo: real, hi: real)
    requires forall i :: 0 <= i < |a| ==> lo <= a[i] <= hi
    ensures Within(a, lo, hi) == |a|
  {
    if a != [] {
      WithinAll(a[..|a| - 1], lo, hi);
    }
  }

  /** The pruned window is exactly the last 60 seconds of the history. */
  lemma PrunedIsRecent(window: seq<real>, accepted: seq<real>, now: real)
    requires Tracks(window, accepted, now)
    ensures |Prune(window, now)| == Within(accepted, now - 60.0, now)
  {
    PruneTracks(window, accepted, now);
    var live := Prune(window, now);
    var k := |accepted| - |live|;
    assert accepted == accepted[..k] + live;
    WithinSplit(accepted[..k], live, now - WINDOW, now);
    WithinNone(accepted[..k], now - WINDOW, now);
    forall i | 0 <= i < |live| ensures now - WINDOW <= live[i] <= now {
      assert live[i] == accepted[k + i] && live[0] == accepted[k];
    }
    WithinAll(live, now - WINDOW, now);
  }

  /** One call: the verdict is the full-history one, and the window goes on tracking. */
  lemma DecideTracks(window: seq<real>, accepted: seq<real>, perMin: int, now: real)
    requires Tracks(window, accepted, now) && perMin > 0
    ensures var v := Decide(window, perMin, now);
      && v.allowed == FullAllows(accepted, perMin, now)
      && Tracks(v.window, if v.allowed then accepted + [now] else accepted, now)
  {
    PruneTracks(window, accepted, now);
    PrunedIsRecent(window, accepted, now);
    var live := Prune(window, now);
    var more := accepted + [now];
    assert more[|more| - |live + [now]|..] == live + [now];
  }

  lemma TracksLater(window: seq<real>, accepted: seq<real>, now: real, later: real)
    requires Tracks(window, accepted, now) && now <= later
    ensures Tracks(window, accepted, later)
  {
  }

  lemma {:induction false} FeedTracks(calls: seq<real>, perMin: int, now: real)
    requires Sorted(calls) && perMin > 0
    requires forall i :: 0 <= i < |calls| ==> calls[i] <= now
    ensures Tracks(Feed(calls, perMin).window, Feed(calls, perMin).accepted, now)
  {
    if calls != [] {
      var n := |calls| - 1;
      var t := Feed(calls[..n], perMin);
      FeedTracks(calls[..n], perMin, calls[n]);
      DecideTracks(t.window, t.accepted, perMin, calls[n]);
      TracksLater(Feed(calls, perMin).window, Feed(calls, perMin).accepted, calls[n], now);
    }
  }

  /** For a fixed limit and a clock that does not run backwards, dropping old times never changes an
      answer: the deque limiter and the one that forgets nothing agree on every call. */
  lemma {:induction false} RefinesFullHistory(calls: seq<real>, perMin: int)
    requires Sorted(calls)
    ensures Feed(calls, perMin).answers == Feed(calls, perMin).fullAnswers
  {
    if calls != [] {
      var n := |calls| - 1;
      var t := Feed(calls[..n], perMin);
      RefinesFullHistory(calls[..n], perMin);
      if perMin > 0 {
        FeedTracks(calls[..n], perMin, calls[n]);
        DecideTracks(t.window, t.accepted, perMin, calls[n]);
      }
    }
  }

  lemma {:induction false} WithinMonotone(a: seq<real>, lo: real, hi: real, lo': real, hi': real)
    requires lo' <= lo && (forall i :: 0 <= i < |a| && a[i] <= hi ==> a[i] <= hi')
    ensures Within(a, lo, hi) <= Within(a, lo', hi')
  {
    if a != [] {
      WithinMonotone(a[..|a| - 1], lo, hi, lo', hi');
    }
  }

  /** An allowed call leaves room for itself in every 60 seconds that reach it. */
  lemma AllowedFits(window: seq<real>, accepted: seq<real>, perMin: int, now: real, from: real)
    requires Tracks(window, accepted, now) && perMin > 0 && Decide(window, perMin, now).allowed
    requires Within(accepted, from, from + 60.0) <= perMin
    ensures Within(accepted + [now], from, from + 60.0) <= perMin
  {
    assert (accepted + [now])[..|accepted|] == accepted;
    if from <= now <= from + 60.0 {
      PrunedIsRecent(window, accepted, now);
      WithinMonotone(accepted, from, from + 60.0, now - WINDOW, now);
    }
  }

  /** No closed 60-second interval ever holds more accepted calls than the limit. */
  lemma {:induction false} AtMostLimit(calls: seq<real>, perMin: int, from: real)
    requires Sorted(calls) && perMin > 0
    ensures Within(Feed(calls, perMin).accepted, from, from + 60.0) <= perMin
  {
    if calls != [] {
      var n := |calls| - 1;
      var t := Feed(calls[..n], perMin);
      AtMostLimit(calls[..n], perMin, from);
      FeedTracks(calls[..n], perMin, calls[n]);
      if Decide(t.window, perMin, calls[n]).allowed {
        AllowedFits(t.window, t.accepted, perMin, calls[n], from);
      }
    }
  }

  /** A limit of nothing, or less, is no limit: every call is allowed and none is remembered. */
  lemma {:induction false} NoLimit(calls: seq<real>, perMin: int)
    requires perMin <= 0
    ensures var t := Feed(calls, perMin);
      t.window == [] && |t.answers| == |calls| && forall i :: 0 <= i < |calls| ==> t.answers[i]
  {
    if calls != [] {
      NoLimit(calls[..|calls| - 1], perMin);
    }
  }

  /** Under a positive limit, a call that is exactly 60 seconds old still counts, and an older one does not. */
  lemma SixtySecondsCount(at: real, later: real)
    requires at <= later
    ensures Feed([at, later], 1).answers == [true, later > at + 60.0]
  {
    var calls := [at, later];
    assert calls[..1] == [at] && [at][..0] == [];
    assert Feed([at][..0], 1) == Trace([], [], [], []);
    assert Feed([at], 1).window == [at] && Feed([at], 1).answers == [true];
    assert Prune([at], later) == if later - at > 60.0 then [] else [at] by {
      assert [at][1..] == [];
    }
  }

  // ---------- Many keys ----------

  datatype Call = Call(key: string, at: real)

  /** The windows of all keys, and one answer per call, each call going the way of `Allow`. */
  datatype Traffic = Traffic(hits: map<string, seq<real>>, answers: seq<bool>)

  function Serve(calls: seq<Call>, perMin: int): (t: Traffic)
    ensures |t.answers| == |calls|
  {
    if calls == [] then Traffic(map[], [])
    else
      var n := |calls| - 1;
      var t, c := Serve(calls[..n], perMin), calls[n];
      var v := Decide(if c.key in t.hits then t.hits[c.key] else [], perMin, c.at);
      Traffic(if perMin <= 0 then t.hits else t.hits[c.key := v.window], t.answers + [v.allowed])
  }

  /** The times of one key's calls. */
  function TimesOf(calls: seq<Call>, key: string): seq<real> {
    if calls == [] then []
    else
      var n := |calls| - 1;
      TimesOf(calls[..n], key) + if calls[n].key == key then [calls[n].at] else []
  }

  /** The answers one key's calls got. */
  function AnswersOf(calls: seq<Call>, answers: seq<bool>, key: string): seq<bool>
    requires |answers| == |calls|
  {
    if calls == [] then []
    else
      var n := |calls| - 1;
      AnswersOf(calls[..n], answers[..n], key) + if calls[n].key == key then [answers[n]] else []
  }

  /** Keys do not disturb each other: in any mixed traffic, each key gets the answers, and is left with the
      window, that its own calls alone would have. */
  lemma {:induction false} KeysAreIndependent(calls: seq<Call>, perMin: int, key: string)
    ensures var t, alone := Serve(calls, perMin), Feed(TimesOf(calls, key), perMin);
      && AnswersOf(calls, t.answers, key) == alone.answers
      && (if key in t.hits then t.hits[key] else []) == alone.window
  {
    if calls != [] {
      var n := |calls| - 1;
      var t, before := Serve(calls, perMin), Serve(calls[..n], perMin);
      KeysAreIndependent(calls[..n], perMin, key);
      assert t.answers[..n] == before.answers;
      if calls[n].key == key {
        var times := TimesOf(calls, key);
        assert times[..|times| - 1] == TimesOf(calls[..n], key) && times[|times| - 1] == calls[n].at;
      } else {
        assert TimesOf(calls, key) == TimesOf(calls[..n], key);
        assert AnswersOf(calls, t.answers, key) == AnswersOf(calls[..n], before.answers, key);
      }
    }
  }

  lemma {:induction false} TimesSorted(calls: seq<Call>, key: string)
    requires forall i, j :: 0 <= i < j < |calls| ==> calls[i].at <= calls[j].at
    ensures Sorted(TimesOf(calls, key))
    ensures forall i :: 0 <= i < |TimesOf(calls, key)| ==> TimesOf(calls, key)[i] <= calls[|calls| - 1].at
  {
    if |calls| > 1 {
      TimesSorted(calls[..|calls| - 1], key);
    }
  }

  /** So in mixed traffic under a clock that does not run backwards, every key is answered as if all its
      accepted calls were remembered, and no closed 60-second interval holds more of them than the limit. */
  lemma MixedTraffic(calls: seq<Call>, perMin: int, key: string, from: real)
    requires forall i, j :: 0 <= i < j < |calls| ==> calls[i].at <= calls[j].at
    ensures var alone := Feed(TimesOf(calls, key), perMin);
      && AnswersOf(calls, Serve(calls, perMin).answers, key) == alone.fullAnswers
      && (perMin > 0 ==> Within(alone.accepted, from, from + 60.0) <= perMin)
  {
    TimesSorted(calls, key);
    KeysAreIndependent(calls, perMin, key);
    RefinesFullHistory(TimesOf(calls, key), perMin);
    if perMin > 0 {
      AtMostLimit(TimesOf(calls, key), perMin, from);
    }
  }
}
