/** The per-client fixed-window rate limiter that guards the credential endpoints
    (src/common/http/auth-throttle.guard.ts).

    `Step` is the guard's behaviour on values; the class runs it on mutable fields. The
    reference limiter `SoloStep` watches one key only and never deletes anything. */
module AuthThrottle {
  import opened Wrappers

  const SWEEP_INTERVAL_MS := 60_000

  datatype Window = Window(count: nat, resetAt: int)

  datatype Decision = Admitted | Limited(retryAfterSeconds: int)

  datatype Limits = Limits(max: int, windowMs: int)

  datatype Store = Store(windows: map<string, Window>, lastSweep: int)

  /** `now` counts milliseconds since 1970. */
  datatype Request = Request(key: string, now: nat)

  const EmptyStore := Store(map[], 0)

  /** Both limits are validated as positive integers when the environment is read. */
  predicate Positive(l: Limits) {
    l.max >= 1 && l.windowMs >= 1
  }

  function CeilDiv(a: int, b: int): int
    requires b > 0
  {
    (a + b - 1) / b
  }

  function RetryAfter(resetAt: int, now: int): int {
    var seconds := CeilDiv(resetAt - now, 1000);
    if seconds < 1 then 1 else seconds
  }

  function KeyFor(ip: string, route: string): string {
    ip + ":" + route
  }

  // ---------------------------------------------------------------- the guard on values

  function Unexpired(windows: map<string, Window>, now: int): map<string, Window> {
    map k | k in windows && windows[k].resetAt > now :: windows[k]
  }

  function Swept(s: Store, now: int): Store {
    if now - s.lastSweep < SWEEP_INTERVAL_MS then s else Store(Unexpired(s.windows, now), now)
  }

  /** The decision for one window, shared by the guard and the reference limiter. */
  function Decide(existing: Option<Window>, now: int, l: Limits): (Window, Decision) {
    if existing.None? || existing.value.resetAt <= now then
      (Window(1, now + l.windowMs), Admitted)
    else if existing.value.count >= l.max then
      (existing.value, Limited(RetryAfter(existing.value.resetAt, now)))
    else
      (existing.value.(count := existing.value.count + 1), Admitted)
  }

  function Find(windows: map<string, Window>, key: string): Option<Window> {
    if key in windows then Some(windows[key]) else None
  }

  function Step(s: Store, r: Request, l: Limits): (Store, Decision) {
    var swept := Swept(s, r.now);
    var (w, d) := Decide(Find(swept.windows, r.key), r.now, l);
    (swept.(windows := swept.windows[r.key := w]), d)
  }

  function Run(s: Store, history: seq<Request>, l: Limits): (Store, seq<Decision>)
    decreases |history|
  {
    if history == [] then (s, [])
    else
      var (s1, d) := Step(s, history[0], l);
      var (s2, ds) := Run(s1, history[1..], l);
      (s2, [d] + ds)
  }

  // ---------------------------------------------------------------- the guard on fields

  class AuthThrottleGuard {
    var windows: map<string, Window>
    var lastSweep: int
    const limits: Limits

    ghost function State(): Store
      reads this
    {
      Store(windows, lastSweep)
    }

    constructor (limits: Limits)
      ensures State() == EmptyStore && this.limits == limits
    {
      this.limits := limits;
      windows, lastSweep := map[], 0;
    }

    method CanActivate(ip: string, route: string, now: nat) returns (d: Decision)
      modifies this
      ensures (State(), d) == Step(old(State()), Request(KeyFor(ip, route), now), limits)
    {
      Sweep(now);
      var key := KeyFor(ip, route);
      if key !in windows || windows[key].resetAt <= now {
        windows := windows[key := Window(1, now + limits.windowMs)];
        return Admitted;
      }
      var existing := windows[key];
      if existing.count >= limits.max {
        assert windows[key := existing] == windows;
        return Limited(RetryAfter(existing.resetAt, now));
      }
      windows := windows[key := existing.(count := existing.count + 1)];
      return Admitted;
    }

    /** Drops expired windows, at most once a minute, by visiting every stored key. */
    method Sweep(now: int)
      modifies this
      ensures State() == Swept(old(State()), now)
    {
      if now - lastSweep < SWEEP_INTERVAL_MS {
        return;
      }
      lastSweep := now;
      var pending := windows.Keys;
      while pending != {}
        invariant lastSweep == now
        invariant pending <= windows.Keys <= old(windows).Keys
        invariant forall k :: k in windows ==> windows[k] == old(windows)[k]
        invariant forall k :: k in old(windows) && k !in windows ==> old(windows)[k].resetAt <= now
        invariant forall k :: k in windows && k !in pending ==> windows[k].resetAt > now
        decreases pending
      {
        var key :| key in pending;
        pending := pending - {key};
        if windows[key].resetAt <= now {
          windows := windows - {key};
        }
      }
      assert windows == Unexpired(old(windows), now);
    }
  }

  // ---------------------------------------------------------------- the reference limiter

  /** One key's limiter, which keeps its last window for ever. */
  function SoloStep(w: Option<Window>, now: int, l: Limits): (Option<Window>, Decision) {
    var (w', d) := Decide(w, now, l);
    (Some(w'), d)
  }

  function SoloRun(w: Option<Window>, times: seq<int>, l: Limits): seq<Decision>
    decreases |times|
  {
    if times == [] then []
    else
      var (w', d) := SoloStep(w, times[0], l);
      [d] + SoloRun(w', times[1..], l)
  }

  ghost predicate Ordered(history: seq<Request>) {
    forall i, j :: 0 <= i < j < |history| ==> history[i].now <= history[j].now
  }

  ghost predicate NonDecreasing(times: seq<int>) {
    forall i, j :: 0 <= i < j < |times| ==> times[i] <= times[j]
  }

  function TimesOf(history: seq<Request>, key: string): seq<int> {
    if history == [] then []
    else (if history[0].key == key then [history[0].now] else []) + TimesOf(history[1..], key)
  }

  function DecisionsOf(history: seq<Request>, decisions: seq<Decision>, key: string): seq<Decision>
    requires |history| == |decisions|
  {
    if history == [] then []
    else (if history[0].key == key then [decisions[0]] else []) + DecisionsOf(history[1..], decisions[1..], key)
  }

  lemma RunLength(s: Store, history: seq<Request>, l: Limits)
    ensures |Run(s, history, l).1| == |history|
    decreases |history|
  {
    if history != [] {
      RunLength(Step(s, history[0], l).0, history[1..], l);
    }
  }

  /** A stored window and the reference's are the same, or the stored one was swept away when
      the reference's had expired. */
  ghost predicate Agree(stored: Option<Window>, solo: Option<Window>, lastSweep: int) {
    stored == solo || (stored.None? && solo.Some? && solo.value.resetAt <= lastSweep)
  }

  /** The sweep shows itself first where a request of the key finds its window gone while the
      reference still has it open: both may even admit it, but from then on they count from
      different windows. */
  ghost predicate SweepParts(s: Store, r: Request, solo: Option<Window>) {
    Find(s.windows, r.key).None? && solo.Some? && r.now < solo.value.resetAt
  }

  ghost predicate Counted(solo: Option<Window>) {
    solo.Some? ==> solo.value.count >= 1
  }

  /** The guard and the reference decide alike, and go on agreeing, exactly if it does not. */
  lemma WhenTheSweepShows(s: Store, r: Request, l: Limits, solo: Option<Window>)
    requires Positive(l) && Counted(solo) && Agree(Find(s.windows, r.key), solo, s.lastSweep)
    ensures
      var (s', d) := Step(s, r, l);
      var (solo', d') := SoloStep(solo, r.now, l);
      && (d == d' && Agree(Find(s'.windows, r.key), solo', s'.lastSweep) <==> !SweepParts(s, r, solo))
      && Counted(solo')
    ensures SweepParts(s, r, solo) ==> r.now < s.lastSweep
  {}

  /** The guard keeps step with the reference through a history. */
  ghost predicate InStep(s: Store, history: seq<Request>, l: Limits, key: string, solo: Option<Window>)
    decreases |history|
  {
    history != [] ==>
      var (s', d) := Step(s, history[0], l);
      var (solo', d') := SoloStep(solo, history[0].now, l);
      if history[0].key == key then
        d == d' && Agree(Find(s'.windows, key), solo', s'.lastSweep) && InStep(s', history[1..], l, key, solo')
      else InStep(s', history[1..], l, key, solo)
  }

  ghost predicate NeverParts(s: Store, history: seq<Request>, l: Limits, key: string, solo: Option<Window>)
    decreases |history|
  {
    history != [] ==>
      var s' := Step(s, history[0], l).0;
      if history[0].key == key then
        !SweepParts(s, history[0], solo) && NeverParts(s', history[1..], l, key, SoloStep(solo, history[0].now, l).0)
      else NeverParts(s', history[1..], l, key, solo)
  }

  /** Over whole histories, in any order of time: the guard keeps step with the limiter that
      never deletes if and only if no request of the key finds its window swept away while
      the reference's is open. */
  lemma {:induction false} WhenTheSweepShowsInARun(s: Store, history: seq<Request>, l: Limits, key: string,
      solo: Option<Window>)
    requires Positive(l) && Counted(solo) && Agree(Find(s.windows, key), solo, s.lastSweep)
    ensures InStep(s, history, l, key, solo) <==> NeverParts(s, history, l, key, solo)
    decreases |history|
  {
    if history != [] {
      var r, rest := history[0], history[1..];
      var s' := Step(s, r, l).0;
      if r.key == key {
        WhenTheSweepShows(s, r, l, solo);
        if !SweepParts(s, r, solo) {
          WhenTheSweepShowsInARun(s', rest, l, key, SoloStep(solo, r.now, l).0);
        }
      } else {
        StepKeepsAgreement(s, r, l, key, solo);
        WhenTheSweepShowsInARun(s', rest, l, key, solo);
      }
    }
  }

  lemma StepKeepsAgreement(s: Store, r: Request, l: Limits, key: string, solo: Option<Window>)
    requires Agree(Find(s.windows, key), solo, s.lastSweep)
    requires r.key == key ==> s.lastSweep <= r.now
    ensures
      var (s', d) := Step(s, r, l);
      if r.key == key then
        var (solo', d') := SoloStep(solo, r.now, l);
        d == d' && Agree(Find(s'.windows, key), solo', s'.lastSweep)
      else Agree(Find(s'.windows, key), solo, s'.lastSweep)
  {}

  /** No request of the key is dated before the sweep that precedes it. */
  ghost predicate NeverBeforeSweep(s: Store, history: seq<Request>, l: Limits, key: string)
    decreases |history|
  {
    history != [] ==>
      && (history[0].key == key ==> s.lastSweep <= history[0].now)
      && NeverBeforeSweep(Step(s, history[0], l).0, history[1..], l, key)
  }

  lemma {:induction false} RunRefinesSolo(s: Store, history: seq<Request>, l: Limits, key: string, solo: Option<Window>)
    requires NeverBeforeSweep(s, history, l, key) && Agree(Find(s.windows, key), solo, s.lastSweep)
    ensures |Run(s, history, l).1| == |history|
    ensures DecisionsOf(history, Run(s, history, l).1, key) == SoloRun(solo, TimesOf(history, key), l)
    decreases |history|
  {
    RunLength(s, history, l);
    if history != [] {
      var r, rest := history[0], history[1..];
      var (s', d) := Step(s, r, l);
      StepKeepsAgreement(s, r, l, key, solo);
      RunLength(s', rest, l);
      assert Run(s, history, l).1 == [d] + Run(s', rest, l).1;
      assert Run(s, history, l).1[1..] == Run(s', rest, l).1;
      if r.key == key {
        var (solo', d') := SoloStep(solo, r.now, l);
        RunRefinesSolo(s', rest, l, key, solo');
        assert TimesOf(history, key)[1..] == TimesOf(rest, key);
      } else {
        RunRefinesSolo(s', rest, l, key, solo);
        assert TimesOf(history, key) == TimesOf(rest, key);
      }
    }
  }

  /** The sweep is invisible as long as no request of the key is dated before the last sweep:
      what the key is told depends on its own requests only, and is what a limiter that never
      deletes would have told it. */
  lemma SweepIsInvisible(history: seq<Request>, l: Limits, key: string)
    requires NeverBeforeSweep(EmptyStore, history, l, key)
    ensures |Run(EmptyStore, history, l).1| == |history|
    ensures DecisionsOf(history, Run(EmptyStore, history, l).1, key) == SoloRun(None, TimesOf(history, key), l)
  {
    RunRefinesSolo(EmptyStore, history, l, key, None);
  }

  /** A clock that does not step back is enough for that. */
  lemma {:induction false} OrderedIsNeverBeforeSweep(s: Store, history: seq<Request>, l: Limits, key: string)
    requires Ordered(history) && (history != [] ==> s.lastSweep <= history[0].now)
    ensures NeverBeforeSweep(s, history, l, key)
    decreases |history|
  {
    if history != [] {
      OrderedIsNeverBeforeSweep(Step(s, history[0], l).0, history[1..], l, key);
    }
  }

  lemma OtherTrafficIsIrrelevant(h1: seq<Request>, h2: seq<Request>, l: Limits, key: string)
    requires NeverBeforeSweep(EmptyStore, h1, l, key) && NeverBeforeSweep(EmptyStore, h2, l, key)
    requires TimesOf(h1, key) == TimesOf(h2, key)
    ensures |Run(EmptyStore, h1, l).1| == |h1| && |Run(EmptyStore, h2, l).1| == |h2|
    ensures DecisionsOf(h1, Run(EmptyStore, h1, l).1, key) == DecisionsOf(h2, Run(EmptyStore, h2, l).1, key)
  {
    SweepIsInvisible(h1, l, key);
    SweepIsInvisible(h2, l, key);
  }

  /** A clock that steps back over a sweep can show it: "a" is refused by the reference
      limiter, while the guard has swept its window on "b"'s later call and admits it. */
  lemma ClockStepBackShowsTheSweep()
    ensures
      var l := Limits(1, 60_000);
      var s1 := Step(EmptyStore, Request("a", 0), l).0;
      var s2 := Step(s1, Request("b", 60_000), l).0;
      && Step(s2, Request("a", 59_999), l).1 == Admitted
      && SoloRun(None, [0, 59_999], l) == [Admitted, Limited(1)]
  {
    var l := Limits(1, 60_000);
    var s1 := Step(EmptyStore, Request("a", 0), l).0;
    assert s1 == Store(map["a" := Window(1, 60_000)], 0);
    assert Unexpired(s1.windows, 60_000) == map[];
    var s2 := Step(s1, Request("b", 60_000), l).0;
    assert s2 == Store(map["b" := Window(1, 120_000)], 60_000);
    assert "a" != "b" && "a" !in s2.windows;
    assert [0, 59_999][1..] == [59_999] && [59_999][1..] == [];
    assert SoloRun(Some(Window(1, 60_000)), [59_999], l) == [Limited(1)];
  }

  /** A refusal names the least whole number of seconds, at least one, after which the window
      is over: a request that long later is admitted, and none that comes a whole second
      earlier. */
  lemma RefusalsSayHowLong(s: Store, r: Request, l: Limits, seconds: int)
    requires Positive(l) && Step(s, r, l).1 == Limited(seconds)
    ensures r.key in s.windows && s.windows[r.key].count >= l.max && r.now < s.windows[r.key].resetAt
    ensures
      && seconds >= 1
      && s.windows[r.key].resetAt <= r.now + 1000 * seconds
      && (seconds > 1 ==> r.now + 1000 * (seconds - 1) < s.windows[r.key].resetAt)
    ensures
      var after := Step(s, r, l).0;
      && Step(after, Request(r.key, r.now + 1000 * seconds), l).1 == Admitted
      && (seconds > 1 ==> Step(after, Request(r.key, r.now + 1000 * (seconds - 1)), l).1.Limited?)
  {}

  // ---------------------------------------------------------------- what the store retains

  ghost predicate Retained(s: Store) {
    forall k :: k in s.windows ==> s.windows[k].resetAt > s.lastSweep
  }

  ghost predicate Fresh(s: Store, now: int) {
    Retained(s) && s.lastSweep <= now < s.lastSweep + SWEEP_INTERVAL_MS
  }

  lemma StepIsFresh(s: Store, r: Request, l: Limits)
    requires Positive(l) && Retained(s) && s.lastSweep <= r.now
    ensures Fresh(Step(s, r, l).0, r.now)
  {}

  /** After any call no window that expired a minute ago is left, so the map cannot hold
      more keys than the recent traffic had. */
  lemma {:induction false} StoredWindowsAreRecent(s: Store, history: seq<Request>, l: Limits)
    requires Positive(l) && Ordered(history) && history != []
    requires Retained(s) && s.lastSweep <= history[0].now
    ensures
      var s' := Run(s, history, l).0;
      forall k :: k in s'.windows ==> s'.windows[k].resetAt > history[|history| - 1].now - SWEEP_INTERVAL_MS
    decreases |history|
  {
    var r, rest := history[0], history[1..];
    StepIsFresh(s, r, l);
    if rest == [] {
      assert Run(Step(s, r, l).0, rest, l).0 == Step(s, r, l).0;
    } else {
      StoredWindowsAreRecent(Step(s, r, l).0, rest, l);
      assert Run(s, history, l).0 == Run(Step(s, r, l).0, rest, l).0;
    }
  }

  // ---------------------------------------------------------------- how many are admitted

  /** Requests of one key admitted at a time in [from, to). */
  function AdmittedIn(w: Option<Window>, times: seq<int>, l: Limits, from: int, to: int): nat
    decreases |times|
  {
    if times == [] then 0
    else
      var (w', d) := SoloStep(w, times[0], l);
      (if d.Admitted? && from <= times[0] < to then 1 else 0) + AdmittedIn(w', times[1..], l, from, to)
  }

  function RequestsIn(times: seq<int>, from: int, to: int): nat {
    if times == [] then 0
    else (if from <= times[0] < to then 1 else 0) + RequestsIn(times[1..], from, to)
  }

  function Min(a: int, b: int): int {
    if a <= b then a else b
  }

  lemma {:induction false} NothingAfter(w: Option<Window>, times: seq<int>, l: Limits, from: int, to: int)
    requires NonDecreasing(times) && times != [] && times[0] >= to
    ensures AdmittedIn(w, times, l, from, to) == 0 && RequestsIn(times, from, to) == 0
    decreases |times|
  {
    if |times| > 1 {
      NothingAfter(SoloStep(w, times[0], l).0, times[1..], l, from, to);
    }
  }

  /** While a window is open it admits exactly its first `max - count` further requests. */
  lemma {:induction false} OpenWindowAdmits(w: Window, times: seq<int>, l: Limits, from: int, to: int)
    requires Positive(l) && NonDecreasing(times)
    requires times != [] ==> from <= times[0]
    requires to <= w.resetAt && w.count <= l.max
    ensures AdmittedIn(Some(w), times, l, from, to) == Min(l.max - w.count, RequestsIn(times, from, to))
    decreases |times|
  {
    if times != [] {
      if times[0] >= to {
        NothingAfter(Some(w), times, l, from, to);
      } else {
        OpenWindowAdmits(SoloStep(Some(w), times[0], l).0.value, times[1..], l, from, to);
      }
    }
  }

  /** Each window admits exactly the first `max` requests that fall in it: never fewer,
      never more. `times[0]` is the request that opens the window. */
  lemma WindowAdmitsExactlyMax(w: Option<Window>, times: seq<int>, l: Limits)
    requires Positive(l) && NonDecreasing(times) && times != []
    requires w.None? || w.value.resetAt <= times[0]
    ensures
      var from, to := times[0], times[0] + l.windowMs;
      AdmittedIn(w, times, l, from, to) == Min(l.max, RequestsIn(times, from, to))
  {
    var from, to, rest := times[0], times[0] + l.windowMs, times[1..];
    assert SoloStep(w, from, l) == (Some(Window(1, to)), Admitted);
    OpenWindowAdmits(Window(1, to), rest, l, from, to);
    assert AdmittedIn(w, times, l, from, to) == 1 + AdmittedIn(Some(Window(1, to)), rest, l, from, to);
    assert RequestsIn(times, from, to) == 1 + RequestsIn(rest, from, to);
  }

  /** Starting no earlier than `from` with nothing open, an interval of one window length
      holds at most `max` admissions. */
  lemma FreshStartAdmitsAtMostMax(w: Option<Window>, times: seq<int>, l: Limits, from: int)
    requires Positive(l) && NonDecreasing(times) && times != []
    requires w.None? || w.value.resetAt <= times[0]
    requires from <= times[0]
    ensures AdmittedIn(w, times, l, from, from + l.windowMs) <= l.max
  {
    var to := from + l.windowMs;
    if times[0] >= to {
      NothingAfter(w, times, l, from, to);
    } else {
      OpenWindowAdmits(Window(1, times[0] + l.windowMs), times[1..], l, from, to);
    }
  }

  ghost predicate Sound(w: Option<Window>, l: Limits) {
    w.Some? ==> 1 <= w.value.count <= l.max
  }

  /** Before `from` nothing is counted; from then on an interval sees what is left of an
      open window and at most one whole later one. */
  lemma {:induction false} SlidingBound(w: Option<Window>, times: seq<int>, l: Limits, from: int)
    requires Positive(l) && NonDecreasing(times) && Sound(w, l)
    ensures AdmittedIn(w, times, l, from, from + l.windowMs) <= 2 * l.max - 1
    ensures times != [] && from <= times[0] && w.Some? && w.value.resetAt > times[0] ==>
              AdmittedIn(w, times, l, from, from + l.windowMs) <= 2 * l.max - w.value.count
    decreases |times|
  {
    if times != [] {
      var now, rest := times[0], times[1..];
      if now >= from && (w.None? || w.value.resetAt <= now) {
        FreshStartAdmitsAtMostMax(w, times, l, from);
      } else {
        var w' := SoloStep(w, now, l).0;
        SlidingBound(w', rest, l, from);
        if now >= from && rest != [] && rest[0] >= w.value.resetAt {
          FreshStartAdmitsAtMostMax(w', rest, l, from);
        }
      }
    }
  }

  /** No interval as long as a window, wherever it starts, admits more than 2 * max - 1
      requests of one key. */
  lemma AtMostTwiceMaxLessOne(times: seq<int>, l: Limits, from: int)
    requires Positive(l) && NonDecreasing(times)
    ensures AdmittedIn(None, times, l, from, from + l.windowMs) <= 2 * l.max - 1
  {
    SlidingBound(None, times, l, from);
  }

  /** Windows of a millisecond never straddle an interval's start. */
  lemma {:induction false} MillisecondWindows(w: Option<Window>, times: seq<int>, l: Limits, from: int)
    requires Positive(l) && l.windowMs == 1 && NonDecreasing(times)
    requires w.Some? ==> w.value.resetAt <= from
    ensures AdmittedIn(w, times, l, from, from + 1) <= l.max
    decreases |times|
  {
    if times != [] {
      if times[0] >= from {
        FreshStartAdmitsAtMostMax(w, times, l, from);
      } else {
        MillisecondWindows(SoloStep(w, times[0], l).0, times[1..], l, from);
      }
    }
  }

  /** The most that an interval as long as a window can admit. */
  function LargestBurst(l: Limits): int {
    if l.windowMs >= 2 then 2 * l.max - 1 else l.max
  }

  /** No interval as long as a window, wherever it starts, admits more of one key than that. */
  lemma NoBurstIsLarger(times: seq<int>, l: Limits, from: int)
    requires Positive(l) && NonDecreasing(times)
    ensures AdmittedIn(None, times, l, from, from + l.windowMs) <= LargestBurst(l)
  {
    if l.windowMs >= 2 {
      AtMostTwiceMaxLessOne(times, l, from);
    } else {
      MillisecondWindows(None, times, l, from);
    }
  }

  // ---------------------------------------------------------------- the bound is reached

  function Repeat(n: nat, t: int): seq<int> {
    seq(n, _ => t)
  }

  lemma {:induction false} BurstAdmits(w: Window, n: nat, t: int, tail: seq<int>, l: Limits, from: int, to: int)
    requires w.count + n <= l.max && t < w.resetAt && from <= t < to
    ensures AdmittedIn(Some(w), Repeat(n, t) + tail, l, from, to)
         == n + AdmittedIn(Some(Window(w.count + n, w.resetAt)), tail, l, from, to)
    decreases n
  {
    if n == 0 {
      assert Repeat(0, t) + tail == tail;
    } else {
      var times := Repeat(n, t) + tail;
      assert times[0] == t && times[1..] == Repeat(n - 1, t) + tail;
      BurstAdmits(Window(w.count + 1, w.resetAt), n - 1, t, tail, l, from, to);
    }
  }

  lemma BurstsAreOrdered(n: nat, w: nat)
    requires w >= 2
    ensures NonDecreasing([0] + (Repeat(n, w - 1) + ([w] + (Repeat(n, w) + []))))
  {}

  /** One early request, max - 1 at the very end of its window and max at the start of the
      next. */
  lemma TwiceMaxLessOneIsReached(l: Limits)
    requires Positive(l) && l.windowMs >= 2
    ensures
      var w := l.windowMs;
      var times := [0] + (Repeat(l.max - 1, w - 1) + ([w] + (Repeat(l.max - 1, w) + [])));
      NonDecreasing(times) && AdmittedIn(None, times, l, w - 1, w - 1 + w) == 2 * l.max - 1
  {
    var w := l.windowMs;
    var from, to := w - 1, w - 1 + w;
    var late := [w] + (Repeat(l.max - 1, w) + []);
    var mid := Repeat(l.max - 1, w - 1) + late;
    var times := [0] + mid;
    assert times[0] == 0 && times[1..] == mid;
    BurstAdmits(Window(1, w), l.max - 1, w - 1, late, l, from, to);
    assert late[0] == w && late[1..] == Repeat(l.max - 1, w) + [];
    BurstAdmits(Window(1, w + w), l.max - 1, w, [], l, from, to);
    BurstsAreOrdered(l.max - 1, w);
  }

  lemma OneWindowFills(l: Limits)
    requires Positive(l)
    ensures
      var times := [0] + (Repeat(l.max - 1, 0) + []);
      NonDecreasing(times) && AdmittedIn(None, times, l, 0, l.windowMs) == l.max
  {
    var rest := Repeat(l.max - 1, 0) + [];
    assert ([0] + rest)[1..] == rest;
    BurstAdmits(Window(1, l.windowMs), l.max - 1, 0, [], l, 0, l.windowMs);
  }

  /** For every limit the bound is attained. */
  lemma LargestBurstIsReached(l: Limits) returns (times: seq<int>, from: int)
    requires Positive(l)
    ensures NonDecreasing(times) && AdmittedIn(None, times, l, from, from + l.windowMs) == LargestBurst(l)
    ensures forall i :: 0 <= i < |times| ==> times[i] >= 0
  {
    var w := l.windowMs;
    if w >= 2 {
      TwiceMaxLessOneIsReached(l);
      times, from := [0] + (Repeat(l.max - 1, w - 1) + ([w] + (Repeat(l.max - 1, w) + []))), w - 1;
    } else {
      OneWindowFills(l);
      times, from := [0] + (Repeat(l.max - 1, 0) + []), 0;
    }
  }

  // ---------------------------------------------------------------- bursts of the guard itself

  /** The requests of a key that were admitted at a time in [from, to). */
  function AdmittedByGuard(history: seq<Request>, decisions: seq<Decision>, key: string, from: int, to: int): nat
    requires |history| == |decisions|
  {
    if history == [] then 0
    else
      (if history[0].key == key && decisions[0].Admitted? && from <= history[0].now < to then 1 else 0)
      + AdmittedByGuard(history[1..], decisions[1..], key, from, to)
  }

  /** In step with the reference, the guard admits what the reference admits. */
  lemma {:induction false} GuardAdmitsLikeSolo(
      s: Store, history: seq<Request>, l: Limits, key: string, solo: Option<Window>, from: int, to: int)
    requires NeverBeforeSweep(s, history, l, key) && Agree(Find(s.windows, key), solo, s.lastSweep)
    ensures |Run(s, history, l).1| == |history|
    ensures AdmittedByGuard(history, Run(s, history, l).1, key, from, to)
         == AdmittedIn(solo, TimesOf(history, key), l, from, to)
    decreases |history|
  {
    RunLength(s, history, l);
    if history != [] {
      var r, rest := history[0], history[1..];
      var (s', d) := Step(s, r, l);
      StepKeepsAgreement(s, r, l, key, solo);
      RunLength(s', rest, l);
      assert Run(s, history, l).1 == [d] + Run(s', rest, l).1;
      assert Run(s, history, l).1[1..] == Run(s', rest, l).1;
      if r.key == key {
        GuardAdmitsLikeSolo(s', rest, l, key, SoloStep(solo, r.now, l).0, from, to);
        assert TimesOf(history, key)[1..] == TimesOf(rest, key);
      } else {
        GuardAdmitsLikeSolo(s', rest, l, key, solo, from, to);
        assert TimesOf(history, key) == TimesOf(rest, key);
      }
    }
  }

  lemma {:induction false} TimesAreOrdered(history: seq<Request>, key: string)
    requires Ordered(history)
    ensures NonDecreasing(TimesOf(history, key))
    ensures history != [] ==> forall i :: 0 <= i < |TimesOf(history, key)| ==>
      history[0].now <= TimesOf(history, key)[i]
    decreases |history|
  {
    if |history| > 1 {
      TimesAreOrdered(history[1..], key);
    }
  }

  /** Whatever the traffic, in no interval as long as a window does the guard admit more
      requests of one key than the largest burst. */
  lemma GuardBurstsAreBounded(history: seq<Request>, l: Limits, key: string, from: int)
    requires Positive(l) && Ordered(history)
    ensures |Run(EmptyStore, history, l).1| == |history|
    ensures AdmittedByGuard(history, Run(EmptyStore, history, l).1, key, from, from + l.windowMs) <= LargestBurst(l)
  {
    OrderedIsNeverBeforeSweep(EmptyStore, history, l, key);
    GuardAdmitsLikeSolo(EmptyStore, history, l, key, None, from, from + l.windowMs);
    TimesAreOrdered(history, key);
    NoBurstIsLarger(TimesOf(history, key), l, from);
  }

  function HistoryOf(key: string, times: seq<int>): seq<Request>
    requires forall i :: 0 <= i < |times| ==> times[i] >= 0
  {
    seq(|times|, i requires 0 <= i < |times| => Request(key, times[i]))
  }

  lemma {:induction false} TimesOfHistory(key: string, times: seq<int>)
    requires forall i :: 0 <= i < |times| ==> times[i] >= 0
    ensures TimesOf(HistoryOf(key, times), key) == times
    decreases |times|
  {
    if times != [] {
      assert HistoryOf(key, times)[1..] == HistoryOf(key, times[1..]);
      TimesOfHistory(key, times[1..]);
    }
  }

  /** And for every limit a history makes it admit that many. */
  lemma GuardBurstIsReached(l: Limits, key: string) returns (history: seq<Request>, from: int)
    requires Positive(l)
    ensures Ordered(history) && |Run(EmptyStore, history, l).1| == |history|
    ensures AdmittedByGuard(history, Run(EmptyStore, history, l).1, key, from, from + l.windowMs) == LargestBurst(l)
  {
    var times;
    times, from := LargestBurstIsReached(l);
    history := HistoryOf(key, times);
    TimesOfHistory(key, times);
    OrderedIsNeverBeforeSweep(EmptyStore, history, l, key);
    GuardAdmitsLikeSolo(EmptyStore, history, l, key, None, from, from + l.windowMs);
  }

  // ---------------------------------------------------------------- who shares a window

  /** Distinct clients never share a window: an address holds no '/', and a route starts
      with one, so the joined key splits in one place only. */
  lemma KeyIsInjective(ip1: string, route1: string, ip2: string, route2: string)
    requires '/' !in ip1 && '/' !in ip2
    requires route1 != [] && route1[0] == '/' && route2 != [] && route2[0] == '/'
    requires KeyFor(ip1, route1) == KeyFor(ip2, route2)
    ensures ip1 == ip2 && route1 == route2
  {
    var k := KeyFor(ip1, route1);
    assert k[|ip1| + 1] == '/' && k[|ip2| + 1] == '/';
    assert forall i :: 0 <= i <= |ip1| ==> k[i] == (if i < |ip1| then ip1[i] else ':');
    assert forall i :: 0 <= i <= |ip2| ==> k[i] == (if i < |ip2| then ip2[i] else ':');
    assert |ip1| == |ip2|;
    assert ip1 == k[..|ip1|] && ip2 == k[..|ip2|];
    assert route1 == k[|ip1| + 1..] && route2 == k[|ip2| + 1..];
  }
}
