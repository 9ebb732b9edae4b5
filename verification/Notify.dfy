/** The notification queue: ticks that stop at every send, with enqueues and other ticks in between. */
module Notify {
  import opened Prelude

  const MAX_ATTEMPTS := 3
  const BASE_DELAY_MS := 30000

  datatype Msg = Msg(id: nat, attempts: nat, nextAt: int)

  function Pow4(n: nat): nat {
    if n == 0 then 1 else 4 * Pow4(n - 1)
  }

  function Backoff(attempts: nat): nat
    requires attempts > 0
  {
    BASE_DELAY_MS * Pow4(attempts - 1)
  }

  // ---------- The tick, as functions ----------

  function Due(queue: seq<Msg>, now: int): seq<Msg> {
    if queue == [] then []
    else Due(queue[..|queue| - 1], now) + if queue[|queue| - 1].nextAt <= now then [queue[|queue| - 1]] else []
  }

  function Later(queue: seq<Msg>, now: int): seq<Msg> {
    if queue == [] then []
    else Later(queue[..|queue| - 1], now) + if queue[|queue| - 1].nextAt > now then [queue[|queue| - 1]] else []
  }

  function Earliest(queue: seq<Msg>): int
    requires queue != []
  {
    var last := queue[|queue| - 1].nextAt;
    if |queue| == 1 then last
    else
      var rest := Earliest(queue[..|queue| - 1]);
      if last < rest then last else rest
  }

  /** A timer already set is left alone; otherwise one is set for the earliest message. */
  function Scheduled(timer: Option<int>, queue: seq<Msg>, now: int): Option<int> {
    if timer.Some? || queue == [] then timer
    else Some(if Earliest(queue) < now then now else Earliest(queue))
  }

  // ---------- The protocol ----------

  /** `ticks` holds what each started tick has still to send, its head being in flight; a finished tick
      is empty. `fails` counts the failed sends of every message ever enqueued. */
  datatype Sys = Sys(
    queue: seq<Msg>, timer: Option<int>, ticks: seq<seq<Msg>>, now: int,
    delivered: set<nat>, dropped: set<nat>, fails: seq<nat>, sends: nat)

  datatype Step = Wait(ms: nat) | Enqueue | Fire | SendDone(tick: nat, ok: bool)

  function Settle(s: Sys, m: Msg, ok: bool): Sys
    requires m.id < |s.fails|
  {
    var s1 := s.(sends := s.sends + 1);
    if ok then s1.(delivered := s.delivered + {m.id})
    else
      var attempts := m.attempts + 1;
      var s2 := s1.(fails := s.fails[m.id := s.fails[m.id] + 1]);
      if attempts >= MAX_ATTEMPTS then s2.(dropped := s.dropped + {m.id})
      else s2.(queue := s.queue + [Msg(m.id, attempts, s.now + Backoff(attempts))])
  }

  function EndTick(s: Sys): Sys {
    s.(timer := Scheduled(s.timer, s.queue, s.now))
  }

  function Apply(s: Sys, step: Step): Sys {
    match step
    case Wait(ms) => s.(now := s.now + ms)
    case Enqueue =>
      var queue := s.queue + [Msg(|s.fails|, 0, s.now)];
      s.(queue := queue, timer := Scheduled(s.timer, queue, s.now), fails := s.fails + [0])
    case Fire =>
      if s.timer.None? || s.now < s.timer.value then s
      else
        var due := Due(s.queue, s.now);
        var started := s.(timer := None, queue := Later(s.queue, s.now));
        if due == [] then EndTick(started) else started.(ticks := s.ticks + [due])
    case SendDone(i, ok) =>
      if i >= |s.ticks| || s.ticks[i] == [] || s.ticks[i][0].id >= |s.fails| then s
      else
        var sent := Settle(s, s.ticks[i][0], ok);
        var rest := s.ticks[i][1..];
        var moved := sent.(ticks := s.ticks[i := rest]);
        if rest == [] then EndTick(moved) else moved
  }

  const EMPTY := Sys([], None, [], 0, {}, {}, [], 0)

  function Run(steps: seq<Step>): Sys {
    if steps == [] then EMPTY else Apply(Run(steps[..|steps| - 1]), steps[|steps| - 1])
  }

  // ---------- Where a message is ----------

  function Count(ms: seq<Msg>, id: nat): nat {
    if ms == [] then 0 else Count(ms[..|ms| - 1], id) + if ms[|ms| - 1].id == id then 1 else 0
  }

  function InFlight(ticks: seq<seq<Msg>>, id: nat): nat {
    if ticks == [] then 0 else InFlight(ticks[..|ticks| - 1], id) + Count(ticks[|ticks| - 1], id)
  }

  /** In how many places a message is: queued, being sent by a tick, delivered, dropped. */
  function Places(s: Sys, id: nat): nat {
    Count(s.queue, id) + InFlight(s.ticks, id)
    + (if id in s.delivered then 1 else 0) + (if id in s.dropped then 1 else 0)
  }

  lemma CountAppend(ms: seq<Msg>, m: Msg, id: nat)
    ensures Count(ms + [m], id) == Count(ms, id) + if m.id == id then 1 else 0
  {
    assert (ms + [m])[..|ms|] == ms;
  }

  lemma {:induction false} CountHead(ms: seq<Msg>, id: nat)
    requires ms != []
    ensures Count(ms, id) == Count(ms[1..], id) + if ms[0].id == id then 1 else 0
  {
    var n := |ms| - 1;
    if n == 0 {
      assert Count(ms[..0], id) == 0;
    } else {
      CountHead(ms[..n], id);
      assert ms[..n][1..] == ms[1..][..n - 1];
    }
  }

  lemma {:induction false} CountPartition(queue: seq<Msg>, now: int, id: nat)
    ensures Count(Due(queue, now), id) + Count(Later(queue, now), id) == Count(queue, id)
  {
    if queue != [] {
      var n := |queue| - 1;
      CountPartition(queue[..n], now, id);
      var due, later := Due(queue[..n], now), Later(queue[..n], now);
      if queue[n].nextAt <= now {
        CountAppend(due, queue[n], id);
        assert Due(queue, now) == due + [queue[n]] && Later(queue, now) == later;
      } else {
        CountAppend(later, queue[n], id);
        assert Due(queue, now) == due && Later(queue, now) == later + [queue[n]];
      }
    }
  }

  lemma InFlightAppend(ticks: seq<seq<Msg>>, due: seq<Msg>, id: nat)
    ensures InFlight(ticks + [due], id) == InFlight(ticks, id) + Count(due, id)
  {
    assert (ticks + [due])[..|ticks|] == ticks;
  }

  lemma {:induction false} InFlightUpdate(ticks: seq<seq<Msg>>, i: nat, due: seq<Msg>, id: nat)
    requires i < |ticks|
    ensures InFlight(ticks[i := due], id) == InFlight(ticks, id) - Count(ticks[i], id) + Count(due, id)
    ensures Count(ticks[i], id) <= InFlight(ticks, id)
  {
    var n := |ticks| - 1;
    if i == n {
      assert ticks[i := due][..n] == ticks[..n];
    } else {
      assert ticks[i := due][..n] == ticks[..n][i := due];
      InFlightUpdate(ticks[..n], i, due, id);
    }
  }

  // ---------- Invariant ----------

  ghost predicate MsgOk(s: Sys, m: Msg) {
    && m.id < |s.fails| && m.attempts == s.fails[m.id] < MAX_ATTEMPTS
    && m.nextAt <= s.now + Backoff(2)
  }

  ghost predicate AllOk(s: Sys, ms: seq<Msg>) {
    forall i :: 0 <= i < |ms| ==> MsgOk(s, ms[i])
  }

  /** Sends spent on a message: its failures, and the success if there was one. */
  function Tries(s: Sys, id: nat): nat
    requires id < |s.fails|
  {
    s.fails[id] + if id in s.delivered then 1 else 0
  }

  function TriesUpTo(s: Sys, n: nat): nat
    requires n <= |s.fails|
  {
    if n == 0 then 0 else TriesUpTo(s, n - 1) + Tries(s, n - 1)
  }

  ghost predicate Placed(s: Sys) {
    && (forall id {:trigger Places(s, id)} :: 0 <= id < |s.fails| ==> Places(s, id) == 1)
    && (forall id {:trigger Places(s, id)} :: |s.fails| <= id ==> Places(s, id) == 0)
  }

  ghost predicate Counted(s: Sys) {
    && (forall id :: id in s.dropped ==> id < |s.fails| && s.fails[id] == MAX_ATTEMPTS)
    && (forall id :: id in s.delivered ==> id < |s.fails| && s.fails[id] < MAX_ATTEMPTS)
    && TriesUpTo(s, |s.fails|) == s.sends
  }

  ghost predicate Timed(s: Sys) {
    && AllOk(s, s.queue) && (forall i :: 0 <= i < |s.ticks| ==> AllOk(s, s.ticks[i]))
    && (s.timer.Some? ==> s.timer.value <= s.now + Backoff(2))
    && (s.queue != [] ==> s.timer.Some? || exists i :: 0 <= i < |s.ticks| && s.ticks[i] != [])
  }

  ghost predicate Inv(s: Sys) {
    Placed(s) && Counted(s) && Timed(s)
  }

  lemma {:induction false} DueSubset(queue: seq<Msg>, now: int, s: Sys)
    requires AllOk(s, queue)
    ensures AllOk(s, Due(queue, now)) && AllOk(s, Later(queue, now))
  {
    if queue != [] {
      var n := |queue| - 1;
      assert forall i :: 0 <= i < n ==> queue[..n][i] == queue[i];
      DueSubset(queue[..n], now, s);
    }
  }

  lemma {:induction false} EarliestBound(queue: seq<Msg>)
    requires queue != []
    ensures forall i :: 0 <= i < |queue| ==> Earliest(queue) <= queue[i].nextAt
    ensures exists i :: 0 <= i < |queue| && queue[i].nextAt == Earliest(queue)
  {
    var n := |queue| - 1;
    if n > 0 {
      EarliestBound(queue[..n]);
      forall i | 0 <= i < n ensures Earliest(queue) <= queue[i].nextAt {
        assert queue[..n][i] == queue[i];
      }
      var i :| 0 <= i < n && queue[..n][i].nextAt == Earliest(queue[..n]);
      assert queue[i].nextAt == Earliest(queue[..n]);
    }
    assert queue[n].nextAt == Earliest(queue) || (n > 0 && Earliest(queue[..n]) == Earliest(queue));
  }

  lemma ScheduledBound(s: Sys)
    requires AllOk(s, s.queue) && (s.timer.Some? ==> s.timer.value <= s.now + Backoff(2))
    ensures var t := Scheduled(s.timer, s.queue, s.now);
      && (t.Some? ==> t.value <= s.now + Backoff(2))
      && (s.queue != [] ==> t.Some?)
  {
    assert Backoff(2) == 120000;
    if s.queue != [] {
      EarliestBound(s.queue);
    }
  }

  lemma EndTickKeeps(s: Sys)
    requires Placed(s) && Counted(s) && AllOk(s, s.queue)
    requires forall i :: 0 <= i < |s.ticks| ==> AllOk(s, s.ticks[i])
    requires s.timer.Some? ==> s.timer.value <= s.now + Backoff(2)
    ensures Inv(EndTick(s))
  {
    var s' := EndTick(s);
    ScheduledBound(s);
    forall id ensures Places(s', id) == Places(s, id) {
    }
    SameTries(s, s', |s.fails|);
    SameMsgs(s, s');
  }

  lemma {:induction false} SameTries(s: Sys, s': Sys, n: nat)
    requires n <= |s.fails| && n <= |s'.fails|
    requires forall id :: 0 <= id < n ==> Tries(s', id) == Tries(s, id)
    ensures TriesUpTo(s', n) == TriesUpTo(s, n)
  {
    if n > 0 {
      SameTries(s, s', n - 1);
    }
  }

  lemma SameMsgs(s: Sys, s': Sys)
    requires s.fails <= s'.fails && s.now <= s'.now
    ensures forall ms :: AllOk(s, ms) ==> AllOk(s', ms)
  {
    forall ms | AllOk(s, ms) ensures AllOk(s', ms) {
      forall i | 0 <= i < |ms| ensures MsgOk(s', ms[i]) {
        assert MsgOk(s, ms[i]);
      }
    }
  }

  lemma EnqueueKeeps(s: Sys)
    requires Inv(s)
    ensures Inv(Apply(s, Enqueue))
  {
    var n, m := |s.fails|, Msg(|s.fails|, 0, s.now);
    var s1 := s.(queue := s.queue + [m], fails := s.fails + [0]);
    forall id ensures Places(s1, id) == Places(s, id) + if id == n then 1 else 0 {
      CountAppend(s.queue, m, id);
    }
    assert Places(s, n) == 0;
    SameTries(s, s1, n);
    SameMsgs(s, s1);
    assert Backoff(2) == 120000 && MsgOk(s1, m);
    EndTickKeeps(s1);
  }

  /** Taking the due messages out of the queue, before anything else. */
  lemma TakeDue(s: Sys, s1: Sys, extra: seq<seq<Msg>>)
    requires Inv(s)
    requires s1 == s.(timer := None, queue := Later(s.queue, s.now), ticks := s.ticks + extra)
    requires extra == if Due(s.queue, s.now) == [] then [] else [Due(s.queue, s.now)]
    ensures Placed(s1) && Counted(s1) && AllOk(s1, s1.queue)
    ensures forall i :: 0 <= i < |s1.ticks| ==> AllOk(s1, s1.ticks[i])
  {
    DueSubset(s.queue, s.now, s);
    SameMsgs(s, s1);
    SameTries(s, s1, |s.fails|);
    assert s.ticks + [] == s.ticks;
    forall id ensures Places(s1, id) == Places(s, id) {
      CountPartition(s.queue, s.now, id);
      InFlightAppend(s.ticks, Due(s.queue, s.now), id);
    }
  }

  lemma FireKeeps(s: Sys)
    requires Inv(s)
    ensures Inv(Apply(s, Fire))
  {
    if s.timer.Some? && s.timer.value <= s.now {
      var due := Due(s.queue, s.now);
      var s1 := s.(timer := None, queue := Later(s.queue, s.now));
      assert s.ticks + [] == s.ticks;
      if due == [] {
        TakeDue(s, s1, []);
        EndTickKeeps(s1);
      } else {
        var s2 := s1.(ticks := s.ticks + [due]);
        TakeDue(s, s2, [due]);
        assert s2.ticks[|s.ticks|] != [];
      }
    }
  }

  /** One more try is booked on message `k`. */
  lemma {:induction false} TriesBump(s: Sys, s': Sys, k: nat, n: nat)
    requires k < n <= |s.fails| && n <= |s'.fails|
    requires forall id :: 0 <= id < n ==> Tries(s', id) == Tries(s, id) + if id == k then 1 else 0
    ensures TriesUpTo(s', n) == TriesUpTo(s, n) + 1
  {
    if n - 1 == k {
      SameTries(s, s', n - 1);
    } else {
      TriesBump(s, s', k, n - 1);
    }
  }

  /** A message other than `k` keeps its failure count. */
  lemma OthersOk(s: Sys, s': Sys, k: nat, ms: seq<Msg>)
    requires AllOk(s, ms) && Count(ms, k) == 0
    requires s'.now == s.now && |s'.fails| == |s.fails|
    requires forall id :: 0 <= id < |s.fails| && id != k ==> s'.fails[id] == s.fails[id]
    ensures AllOk(s', ms)
  {
    forall i | 0 <= i < |ms| ensures MsgOk(s', ms[i]) {
      assert MsgOk(s, ms[i]);
      CountZero(ms, k, i);
    }
  }

  lemma {:induction false} CountZero(ms: seq<Msg>, id: nat, i: nat)
    requires Count(ms, id) == 0 && i < |ms|
    ensures ms[i].id != id
  {
    if i < |ms| - 1 {
      CountZero(ms[..|ms| - 1], id, i);
    }
  }

  /** The message in flight is nowhere else. */
  lemma OnlyInFlight(s: Sys, i: nat)
    requires Placed(s) && i < |s.ticks| && s.ticks[i] != [] && s.ticks[i][0].id < |s.fails|
    ensures var k := s.ticks[i][0].id;
      && k !in s.delivered && k !in s.dropped && Count(s.queue, k) == 0 && Count(s.ticks[i][1..], k) == 0
      && forall j :: 0 <= j < |s.ticks| && j != i ==> Count(s.ticks[j], k) == 0
  {
    var k := s.ticks[i][0].id;
    assert Places(s, k) == 1;
    CountHead(s.ticks[i], k);
    InFlightUpdate(s.ticks, i, [], k);
    forall j | 0 <= j < |s.ticks| && j != i ensures Count(s.ticks[j], k) == 0 {
      InFlightUpdate(s.ticks[i := []], j, [], k);
    }
  }

  lemma SendPlaces(s: Sys, i: nat, ok: bool, id: nat)
    requires Placed(s) && i < |s.ticks| && s.ticks[i] != [] && s.ticks[i][0].id < |s.fails|
    ensures Places(Settle(s, s.ticks[i][0], ok).(ticks := s.ticks[i := s.ticks[i][1..]]), id) == Places(s, id)
  {
    var m := s.ticks[i][0];
    CountHead(s.ticks[i], id);
    InFlightUpdate(s.ticks, i, s.ticks[i][1..], id);
    OnlyInFlight(s, i);
    SettlePlaces(s, m, ok, id);
  }

  /** The message's new place replaces the one it had in flight. */
  lemma SettlePlaces(s: Sys, m: Msg, ok: bool, id: nat)
    requires m.id < |s.fails| && m.id !in s.delivered && m.id !in s.dropped
    ensures var s' := Settle(s, m, ok);
      && s'.ticks == s.ticks
      && Count(s'.queue, id) + (if id in s'.delivered then 1 else 0) + (if id in s'.dropped then 1 else 0)
         == Count(s.queue, id) + (if id in s.delivered then 1 else 0) + (if id in s.dropped then 1 else 0)
            + if m.id == id then 1 else 0
  {
    if !ok && m.attempts + 1 < MAX_ATTEMPTS {
      CountAppend(s.queue, Msg(m.id, m.attempts + 1, s.now + Backoff(m.attempts + 1)), id);
    }
  }

  /** The counts and the other messages after one send. */
  lemma SendCounts(s: Sys, s1: Sys, i: nat, ok: bool)
    requires Inv(s) && i < |s.ticks| && s.ticks[i] != [] && s.ticks[i][0].id < |s.fails|
    requires s1 == Settle(s, s.ticks[i][0], ok).(ticks := s.ticks[i := s.ticks[i][1..]])
    ensures Counted(s1) && AllOk(s1, s1.queue)
    ensures forall j :: 0 <= j < |s1.ticks| ==> AllOk(s1, s1.ticks[j])
  {
    var m, rest := s.ticks[i][0], s.ticks[i][1..];
    assert AllOk(s, s.ticks[i]) && MsgOk(s, m);
    assert Backoff(1) == 30000 && Backoff(2) == 120000;
    OnlyInFlight(s, i);
    TriesBump(s, s1, m.id, |s.fails|);
    OthersOk(s, s1, m.id, s.queue);
    OthersOk(s, s1, m.id, rest);
    forall j | 0 <= j < |s1.ticks| ensures AllOk(s1, s1.ticks[j]) {
      if j != i {
        OthersOk(s, s1, m.id, s.ticks[j]);
      }
    }
  }

  lemma SendKeeps(s: Sys, i: nat, ok: bool)
    requires Inv(s)
    ensures Inv(Apply(s, SendDone(i, ok)))
  {
    if i < |s.ticks| && s.ticks[i] != [] && s.ticks[i][0].id < |s.fails| {
      var rest := s.ticks[i][1..];
      var s1 := Settle(s, s.ticks[i][0], ok).(ticks := s.ticks[i := rest]);
      SendCounts(s, s1, i, ok);
      forall id ensures Places(s1, id) == Places(s, id) {
        SendPlaces(s, i, ok, id);
      }
      if rest == [] {
        EndTickKeeps(s1);
      } else {
        assert s1.ticks[i] != [];
      }
    }
  }

  lemma StepKeeps(s: Sys, step: Step)
    requires Inv(s)
    ensures Inv(Apply(s, step))
  {
    match step
    case Wait(ms) =>
      var s' := Apply(s, step);
      forall id ensures Places(s', id) == Places(s, id) {
      }
      SameTries(s, s', |s.fails|);
      SameMsgs(s, s');
    case Enqueue => EnqueueKeeps(s);
    case Fire => FireKeeps(s);
    case SendDone(i, ok) => SendKeeps(s, i, ok);
  }

  lemma {:induction false} RunInv(steps: seq<Step>)
    ensures Inv(Run(steps))
  {
    if steps == [] {
      forall id ensures Places(EMPTY, id) == 0 {
      }
    } else {
      RunInv(steps[..|steps| - 1]);
      StepKeeps(Run(steps[..|steps| - 1]), steps[|steps| - 1]);
    }
  }

  // ---------- What the pieces do ----------

  /** A failed send is tried again 30 seconds after the first time and two minutes after the second; after
      the third the message is given up. A successful one is delivered and nothing else. */
  lemma RetryTimes(s: Sys, m: Msg)
    requires m.id < |s.fails|
    ensures var ok, failed := Settle(s, m, true), Settle(s, m, false);
      && ok == s.(sends := s.sends + 1, delivered := s.delivered + {m.id})
      && failed.sends == s.sends + 1 && failed.fails == s.fails[m.id := s.fails[m.id] + 1]
      && failed.delivered == s.delivered
      && (m.attempts == 0 ==> failed.queue == s.queue + [Msg(m.id, 1, s.now + 30000)] && failed.dropped == s.dropped)
      && (m.attempts == 1 ==> failed.queue == s.queue + [Msg(m.id, 2, s.now + 120000)] && failed.dropped == s.dropped)
      && (m.attempts >= 2 ==> failed.queue == s.queue && failed.dropped == s.dropped + {m.id})
  {
    assert Pow4(1) == 4;
  }

  /** A tick takes exactly the messages whose time has come, and leaves exactly the others, both in the
      order they were queued. */
  lemma {:induction false} DueIs(queue: seq<Msg>, m: Msg, now: int)
    ensures Due([], now) == [] && Later([], now) == []
    ensures Due(queue + [m], now) == Due(queue, now) + if m.nextAt <= now then [m] else []
    ensures Later(queue + [m], now) == Later(queue, now) + if m.nextAt <= now then [] else [m]
  {
    assert (queue + [m])[..|queue|] == queue;
  }

  /** A timer that is set stays; otherwise one is set, for a message's time if none is due yet and for now
      if one is, and no message would have to wait longer than its own time. */
  lemma ScheduledIs(timer: Option<int>, queue: seq<Msg>, now: int)
    ensures var t := Scheduled(timer, queue, now);
      && (timer.Some? ==> t == timer)
      && (timer.None? && queue == [] ==> t.None?)
      && (timer.None? && queue != [] ==>
            && t.Some? && t.value >= now
            && (t.value == now || exists i :: 0 <= i < |queue| && queue[i].nextAt == t.value)
            && (forall i :: 0 <= i < |queue| ==> t.value <= queue[i].nextAt || t.value == now)
            && (t.value == now <==> exists i :: 0 <= i < |queue| && queue[i].nextAt <= now))
  {
    if queue != [] {
      EarliestBound(queue);
    }
  }

  /** A tick starts only when its timer has run out, and then with exactly what is due. */
  lemma FireIs(s: Sys)
    ensures s.timer.None? || s.now < s.timer.value ==> Apply(s, Fire) == s
    ensures s.timer.Some? && s.timer.value <= s.now ==>
      && Apply(s, Fire).queue == Later(s.queue, s.now)
      && Apply(s, Fire).ticks == s.ticks + (if Due(s.queue, s.now) == [] then [] else [Due(s.queue, s.now)])
  {
  }

  // ---------- Theorems ----------

  /** Every message ever enqueued is in exactly one place: queued, in flight in one tick, delivered or
      dropped. It is sent at most three times and dropped exactly when three sends failed. */
  lemma MessagesConserved(steps: seq<Step>, id: nat)
    requires id < |Run(steps).fails|
    ensures var s := Run(steps);
      && Places(s, id) == 1
      && Tries(s, id) <= 3
      && (id in s.dropped <==> s.fails[id] == 3)
  {
    RunInv(steps);
    var s := Run(steps);
    assert Places(s, id) == 1;
    LiveOrDone(s, id);
  }

  lemma LiveOrDone(s: Sys, id: nat)
    requires Inv(s) && id < |s.fails|
    ensures s.fails[id] <= MAX_ATTEMPTS && (s.fails[id] == MAX_ATTEMPTS ==> id in s.dropped)
  {
    assert Places(s, id) == 1;
    if id !in s.dropped && id !in s.delivered {
      if Count(s.queue, id) > 0 {
        FindMsg(s, s.queue, id);
      } else {
        FindTick(s, s.ticks, id);
      }
    }
  }

  lemma {:induction false} FindMsg(s: Sys, ms: seq<Msg>, id: nat)
    requires AllOk(s, ms) && Count(ms, id) > 0
    ensures id < |s.fails| && s.fails[id] < MAX_ATTEMPTS
  {
    var n := |ms| - 1;
    assert MsgOk(s, ms[n]);
    if ms[n].id != id {
      assert forall i :: 0 <= i < n ==> ms[..n][i] == ms[i];
      FindMsg(s, ms[..n], id);
    }
  }

  lemma {:induction false} FindTick(s: Sys, ticks: seq<seq<Msg>>, id: nat)
    requires (forall i :: 0 <= i < |ticks| ==> AllOk(s, ticks[i])) && InFlight(ticks, id) > 0
    ensures id < |s.fails| && s.fails[id] < MAX_ATTEMPTS
  {
    var n := |ticks| - 1;
    if Count(ticks[n], id) > 0 {
      FindMsg(s, ticks[n], id);
    } else {
      FindTick(s, ticks[..n], id);
    }
  }

  lemma {:induction false} TriesBound(s: Sys, n: nat)
    requires n <= |s.fails| && forall id :: 0 <= id < n ==> Tries(s, id) <= MAX_ATTEMPTS
    ensures TriesUpTo(s, n) <= MAX_ATTEMPTS * n
  {
    if n > 0 {
      TriesBound(s, n - 1);
    }
  }

  /** The number of sends never exceeds three per message, so sending comes to an end. */
  lemma SendsBounded(steps: seq<Step>)
    ensures Run(steps).sends <= 3 * |Run(steps).fails|
  {
    RunInv(steps);
    var s := Run(steps);
    forall id | 0 <= id < |s.fails| ensures Tries(s, id) <= MAX_ATTEMPTS {
      MessagesConserved(steps, id);
    }
    TriesBound(s, |s.fails|);
  }

  /** Nothing is stranded: a non-empty queue has a timer or a running tick, and once neither is left
      every message was delivered or dropped. */
  lemma NothingStranded(steps: seq<Step>, id: nat)
    requires id < |Run(steps).fails|
    ensures var s := Run(steps);
      s.timer.None? && (forall i :: 0 <= i < |s.ticks| ==> s.ticks[i] == [])
      ==> s.queue == [] && (id in s.delivered || id in s.dropped)
  {
    RunInv(steps);
    var s := Run(steps);
    if s.timer.None? && forall i :: 0 <= i < |s.ticks| ==> s.ticks[i] == [] {
      NoneInFlight(s.ticks, id);
      assert Places(s, id) == 1;
    }
  }

  lemma {:induction false} NoneInFlight(ticks: seq<seq<Msg>>, id: nat)
    requires forall i :: 0 <= i < |ticks| ==> ticks[i] == []
    ensures InFlight(ticks, id) == 0
  {
    if ticks != [] {
      NoneInFlight(ticks[..|ticks| - 1], id);
    }
  }

  /** A new message is due at once, but its tick is due at once exactly when no later timer was already
      set; the wait is at most two minutes, the longest back-off that ever occurs. */
  lemma FreshMessageWaits(steps: seq<Step>)
    ensures var s, s' := Run(steps), Apply(Run(steps), Enqueue);
      && s'.timer.Some? && s'.timer.value <= s.now + 120000
      && (s'.timer.value <= s.now <==> s.timer.None? || s.timer.value <= s.now)
  {
    RunInv(steps);
    var s := Run(steps);
    EnqueueKeeps(s);
    EarliestBound(s.queue + [Msg(|s.fails|, 0, s.now)]);
    assert (s.queue + [Msg(|s.fails|, 0, s.now)])[|s.queue|].nextAt == s.now;
    assert Backoff(2) == 120000;
  }

  // ---------- The service ----------

  class NotifyService {
    var queue: seq<Msg>
    var timer: Option<int>

    constructor ()
      ensures queue == [] && timer == None
    {
      queue, timer := [], None;
    }

    /** Finds the earliest message with one pass over the queue. */
    method Schedule(now: int)
      modifies this`timer
      ensures timer == Scheduled(old(timer), queue, now)
    {
      if timer.Some? || queue == [] {
        return;
      }
      var next := queue[0].nextAt;
      for i := 1 to |queue|
        invariant next == Earliest(queue[..i])
      {
        assert queue[..i + 1][..i] == queue[..i];
        if queue[i].nextAt < next {
          next := queue[i].nextAt;
        }
      }
      assert queue[..|queue|] == queue;
      timer := Some(if next < now then now else next);
    }

    method Enqueue(id: nat, now: int)
      modifies this
      ensures queue == old(queue) + [Msg(id, 0, now)]
      ensures timer == Scheduled(old(timer), queue, now)
    {
      queue := queue + [Msg(id, 0, now)];
      Schedule(now);
    }

    /** The timer goes off: the due messages leave the queue for this tick. */
    method StartTick(now: int) returns (due: seq<Msg>)
      modifies this
      ensures timer == None && due == Due(old(queue), now) && queue == Later(old(queue), now)
    {
      timer := None;
      var kept: seq<Msg> := [];
      due := [];
      for i := 0 to |queue|
        invariant queue == old(queue) && timer == None
        invariant due == Due(queue[..i], now) && kept == Later(queue[..i], now)
      {
        assert queue[..i + 1][..i] == queue[..i];
        if queue[i].nextAt <= now {
          due := due + [queue[i]];
        } else {
          kept := kept + [queue[i]];
        }
      }
      assert queue[..|queue|] == queue;
      queue := kept;
    }

    /** A send came back; a failed message waits longer each time, and is given up after the third. */
    method Sent(item: Msg, ok: bool, now: int) returns (gaveUp: bool)
      modifies this`queue
      ensures gaveUp == (!ok && item.attempts + 1 >= MAX_ATTEMPTS)
      ensures queue == old(queue)
        + if ok || gaveUp then [] else [Msg(item.id, item.attempts + 1, now + Backoff(item.attempts + 1))]
    {
      if ok {
        return false;
      }
      var attempts := item.attempts + 1;
      if attempts >= MAX_ATTEMPTS {
        return true;
      }
      queue := queue + [Msg(item.id, attempts, now + Backoff(attempts))];
      return false;
    }
  }
}
