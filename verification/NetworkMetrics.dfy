/** The network quality controller of src/network_performance_metrics.cc and the five-level ladder of
    include/network_types.h. */
module NetworkMetrics {

  /** The underlying value of a NetworkType; VeryLow is 1 and Highest is 5. */
  type Level = int

  const VERY_LOW: Level := 1
  const HIGHEST: Level := 5

  const ERROR_LIMIT := 5
  const PERCENTAGE_DROP := 10
  const LOOP_CHECK_SECONDS := 1
  const STABLE_TRIGGER_SECONDS := 30

  function Raised(l: Level): Level {
    if l != HIGHEST then l + 1 else l
  }

  function Lowered(l: Level): Level {
    if l != VERY_LOW then l - 1 else l
  }

  datatype Notice =
    | Upgraded(level: Level, byteRate: int)
    | Downgraded(level: Level, byteRate: int)
    | Changed(level: Level, byteRate: int)

  datatype State = State(byteRate: nat, oldCbs: nat, stable: nat, errors: nat, level: Level, notices: seq<Notice>)

  /** How a sample was dealt with. */
  datatype Branch = CountError | Downgrade | Upgrade | CountStable

  /** `newByteRateFromPercentage`, in exact arithmetic */
  function TenPercent(s: State): nat {
    s.byteRate * PERCENTAGE_DROP / 100
  }

  /** `byteRateShouldDrop` */
  predicate ShouldDrop(s: State, cbs: nat) {
    cbs < s.byteRate / 3
  }

  function BranchFor(s: State, cbs: nat): Branch {
    if ShouldDrop(s, cbs) || cbs == s.oldCbs then
      if cbs == s.oldCbs && s.errors < ERROR_LIMIT then CountError else Downgrade
    else if s.stable > STABLE_TRIGGER_SECONDS then Upgrade
    else CountStable
  }

  /** What a listener is told when the level goes from `old` to `level`. */
  function Notices(before: Level, level: Level, byteRate: int): seq<Notice> {
    if level > before then [Upgraded(level, byteRate), Changed(level, byteRate)]
    else if level < before then [Downgraded(level, byteRate), Changed(level, byteRate)]
    else []
  }

  /** `handleNetworkProfiler` for one sample, with or without a listener. */
  function Handle(s: State, cbs: nat, listening: bool): State {
    var b := BranchFor(s, cbs);
    var level := if b.Downgrade? then Lowered(s.level) else if b.Upgrade? then Raised(s.level) else s.level;
    var rate := if b.Downgrade? then s.byteRate - TenPercent(s)
                else if b.Upgrade? then s.byteRate + TenPercent(s) else s.byteRate;
    State(s.byteRate, cbs,
          if b.Downgrade? || b.Upgrade? then 0 else if b.CountStable? then s.stable + LOOP_CHECK_SECONDS else s.stable,
          if b.Downgrade? || b.Upgrade? then 0 else if b.CountError? then s.errors + 1 else s.errors,
          level,
          s.notices + if listening then Notices(s.level, level, rate) else [])
  }

  // ----- the class

  class NetworkPerformanceMetrics {
    var byteRate: nat
    var oldCbs: nat
    var stableNetCounter: nat
    var networkErrorCounter: nat
    var currentNetwork: Level
    var stopped: bool
    var notices: seq<Notice>  // the calls made to the listener

    function View(): State
      reads this
    {
      State(byteRate, oldCbs, stableNetCounter, networkErrorCounter, currentNetwork, notices)
    }

    constructor (byteRate: nat)
      ensures View() == State(byteRate, 0, 0, 0, HIGHEST, []) && stopped
    {
      this.byteRate := byteRate;
      oldCbs, stableNetCounter, networkErrorCounter := 0, 0, 0;
      currentNetwork, stopped, notices := HIGHEST, true, [];
    }

    /** Nothing when it is running; the flag is changed before the counters are cleared, which may fail. */
    method Start(lockFree: bool) returns (thrown: bool)
      modifies this
      ensures View() == (if old(stopped) && lockFree then Cleared(old(View())) else old(View())) && !stopped
      ensures thrown <==> old(stopped) && !lockFree
    {
      if !stopped {
        return false;
      }
      stopped := false;
      thrown := Clear(lockFree);
    }

    method Stop()
      modifies this`stopped
      ensures stopped
    {
      stopped := true;
    }

    /** Clears only if nobody holds the lock; otherwise giving back a lock it does not hold throws. */
    method Clear(lockFree: bool) returns (thrown: bool)
      modifies this`oldCbs, this`stableNetCounter, this`networkErrorCounter
      ensures View() == Step(old(View()), Event.Clear(lockFree))
      ensures thrown <==> !lockFree
    {
      if lockFree {
        oldCbs := 0;
        stableNetCounter := 0;
        networkErrorCounter := 0;
      }
      thrown := !lockFree;
    }

    method SetByteRate(value: nat)
      modifies this`byteRate
      ensures View() == Step(old(View()), Event.SetByteRate(value)) == old(View()).(byteRate := value)
    {
      byteRate := value;
    }

    /** One tick of the timer; an idle second is not a sample. */
    method Tick(cbs: nat, listening: bool)
      modifies this
      ensures View() == (if old(stopped) || cbs == 0 then old(View()) else Handle(old(View()), cbs, listening))
      ensures !stopped ==> View() == Step(old(View()), Sample(cbs, listening))
      ensures stopped == old(stopped)
    {
      if stopped {
        return;
      }
      if cbs > 0 {
        HandleNetworkProfiler(cbs, listening);
      }
    }

    method HandleNetworkProfiler(cbs: nat, listening: bool)
      modifies this
      ensures View() == Handle(old(View()), cbs, listening) && stopped == old(stopped)
    {
      var newNetworkType := currentNetwork;
      var newByteRate: int := byteRate;
      if cbs < byteRate / 3 || cbs == oldCbs {
        if cbs == oldCbs && networkErrorCounter < ERROR_LIMIT {
          networkErrorCounter := networkErrorCounter + 1;
        } else {
          newNetworkType := Lowered(newNetworkType);
          stableNetCounter := 0;
          networkErrorCounter := 0;
          newByteRate := byteRate - TenPercent(View());
        }
      } else if stableNetCounter > STABLE_TRIGGER_SECONDS {
        newNetworkType := Raised(newNetworkType);
        stableNetCounter := 0;
        networkErrorCounter := 0;
        newByteRate := byteRate + TenPercent(View());
      } else {
        stableNetCounter := stableNetCounter + LOOP_CHECK_SECONDS;
      }
      NotifyListenersIfNeeded(newNetworkType, newByteRate, listening);
      currentNetwork := newNetworkType;
      oldCbs := cbs;
    }

    method NotifyListenersIfNeeded(newNetworkType: Level, newByteRate: int, listening: bool)
      modifies this`notices
      ensures notices == old(notices) + if listening then Notices(currentNetwork, newNetworkType, newByteRate) else []
    {
      if listening {
        var notify := false;
        if newNetworkType > currentNetwork {
          notices := notices + [Upgraded(newNetworkType, newByteRate)];
          notify := true;
        } else if newNetworkType < currentNetwork {
          notices := notices + [Downgraded(newNetworkType, newByteRate)];
          notify := true;
        }
        if notify {
          notices := notices + [Changed(newNetworkType, newByteRate)];
        }
      }
    }
  }

  // ----- runs

  datatype Event = Sample(cbs: nat, listening: bool) | Clear(lockFree: bool) | SetByteRate(value: nat)

  function Cleared(s: State): State {
    s.(oldCbs := 0, stable := 0, errors := 0)
  }

  function Step(s: State, e: Event): State {
    match e
    case Sample(cbs, listening) => if cbs == 0 then s else Handle(s, cbs, listening)
    case Clear(lockFree) => if lockFree then Cleared(s) else s
    case SetByteRate(value) => s.(byteRate := value)
  }

  function Run(s: State, es: seq<Event>): State
    decreases |es|
  {
    if es == [] then s else Run(Step(s, es[0]), es[1..])
  }

  /** A handled sample that takes branch `b`, with a reading equal to the last one when `repeated`. */
  predicate Takes(s: State, e: Event, b: Branch, repeated: bool) {
    e.Sample? && e.cbs > 0 && BranchFor(s, e.cbs) == b && (repeated ==> e.cbs == s.oldCbs)
  }

  function Count(s: State, es: seq<Event>, b: Branch, repeated: bool): nat
    decreases |es|
  {
    if es == [] then 0 else
    (if Takes(s, es[0], b, repeated) then 1 else 0) + Count(Step(s, es[0]), es[1..], b, repeated)
  }

  function Samples(es: seq<Event>): nat {
    if es == [] then 0 else (if es[0].Sample? && es[0].cbs > 0 then 1 else 0) + Samples(es[1..])
  }

  predicate CountersInRange(s: State) {
    s.stable <= 31 && s.errors <= ERROR_LIMIT
  }

  lemma {:induction false} AmortisedBound(s: State, es: seq<Event>)
    requires CountersInRange(s)
    ensures CountersInRange(Run(s, es))
    ensures 32 * Count(s, es, Upgrade, false) + 6 * Count(s, es, Downgrade, true)
            + Run(s, es).stable + Run(s, es).errors
            <= Samples(es) + s.stable + s.errors
    decreases |es|
  {
    if es != [] {
      AmortisedBound(Step(s, es[0]), es[1..]);
    }
  }

  function Fresh(byteRate: nat): State {
    State(byteRate, 0, 0, 0, HIGHEST, [])
  }

  /** Over every run of the controller, with byte-rate changes and restarts in between: every upgrade takes
      32 samples and every downgrade on an unchanged reading takes 6, and no sample pays twice. */
  lemma UpgradesAndStallsArePaidFor(byteRate: nat, es: seq<Event>)
    ensures var s := Run(Fresh(byteRate), es);
            && 32 * Count(Fresh(byteRate), es, Upgrade, false) + s.stable
               + 6 * Count(Fresh(byteRate), es, Downgrade, true) + s.errors <= Samples(es)
            && s.stable <= 31 && s.errors <= 5
  {
    AmortisedBound(Fresh(byteRate), es);
  }

  function Ups(ns: seq<Notice>): nat {
    if ns == [] then 0 else (if ns[0].Upgraded? then 1 else 0) + Ups(ns[1..])
  }

  function Downs(ns: seq<Notice>): nat {
    if ns == [] then 0 else (if ns[0].Downgraded? then 1 else 0) + Downs(ns[1..])
  }

  lemma {:induction false} NoticesAppend(xs: seq<Notice>, ys: seq<Notice>)
    ensures Ups(xs + ys) == Ups(xs) + Ups(ys) && Downs(xs + ys) == Downs(xs) + Downs(ys)
  {
    if xs == [] {
      assert xs + ys == ys;
    } else {
      NoticesAppend(xs[1..], ys);
      assert (xs + ys)[1..] == xs[1..] + ys;
    }
  }

  /** The notices replay a walk on the ladder that starts at `from`: pairs of a direction notice one level up
      or down and a changed notice with the same content. */
  predicate Replays(ns: seq<Notice>, from: Level, to: Level) {
    if ns == [] then from == to else
    && |ns| >= 2
    && ((ns[0].Upgraded? && ns[0].level == from + 1) || (ns[0].Downgraded? && ns[0].level == from - 1))
    && ns[1] == Changed(ns[0].level, ns[0].byteRate)
    && Replays(ns[2..], ns[0].level, to)
  }

  lemma {:induction false} ReplaysAppend(xs: seq<Notice>, ys: seq<Notice>, a: Level, b: Level, c: Level)
    requires Replays(xs, a, b) && Replays(ys, b, c)
    ensures Replays(xs + ys, a, c)
  {
    if xs == [] {
      assert xs + ys == ys;
    } else {
      ReplaysAppend(xs[2..], ys, xs[0].level, b, c);
      assert (xs + ys)[2..] == xs[2..] + ys;
    }
  }

  predicate Announced(s: State) {
    && VERY_LOW <= s.level <= HIGHEST
    && s.level == HIGHEST + Ups(s.notices) - Downs(s.notices)
    && Replays(s.notices, HIGHEST, s.level)
  }

  lemma OneStepIsAnnounced(before: Level, level: Level, byteRate: int)
    requires before - 1 <= level <= before + 1
    ensures var ns := Notices(before, level, byteRate);
            Ups(ns) - Downs(ns) == level - before && Replays(ns, before, level)
  {
    var ns := Notices(before, level, byteRate);
    if ns != [] {
      assert ns[1..] == [Changed(level, byteRate)] && ns[2..] == [];
      assert Ups(ns[1..]) == Ups(ns[2..]) && Downs(ns[1..]) == Downs(ns[2..]);
    }
  }

  lemma AnnouncedStep(s: State, e: Event)
    requires Announced(s) && (e.Sample? ==> e.listening)
    ensures Announced(Step(s, e))
  {
    if e.Sample? && e.cbs > 0 {
      hide Ups, Downs, Replays;
      var s1 := Step(s, e);
      var added := s1.notices[|s.notices|..];
      assert s1.notices == s.notices + added;
      var rate :| added == Notices(s.level, s1.level, rate);
      OneStepIsAnnounced(s.level, s1.level, rate);
      NoticesAppend(s.notices, added);
      ReplaysAppend(s.notices, added, HIGHEST, s.level, s1.level);
    }
  }

  lemma {:induction false} AnnouncedRun(s: State, es: seq<Event>)
    requires Announced(s) && forall e :: e in es && e.Sample? ==> e.listening
    ensures Announced(Run(s, es))
    decreases |es|
  {
    hide Announced, Step;
    if es != [] {
      AnnouncedStep(s, es[0]);
      AnnouncedRun(Step(s, es[0]), es[1..]);
    }
  }

  /** While a listener is present, the level stays between 1 and 5 and is 5 plus the upgrade notices minus the
      downgrade notices; and the notices spell out every change, once and in the right direction. */
  lemma LadderIsAnnounced(byteRate: nat, es: seq<Event>)
    requires forall e :: e in es && e.Sample? ==> e.listening
    ensures var s := Run(Fresh(byteRate), es);
            && 1 <= s.level <= 5
            && s.level == 5 + Ups(s.notices) - Downs(s.notices)
            && Replays(s.notices, HIGHEST, s.level)
  {
    AnnouncedRun(Fresh(byteRate), es);
  }

  // ----- what moves the level

  predicate OnLadder(s: State) {
    VERY_LOW <= s.level <= HIGHEST
  }

  /** One reading, by the numbers. It lowers the level when it is below a third of the byte rate and not a repetition,
      or when it repeats the previous one for the sixth time; it raises it when it is neither and more than thirty
      stable seconds have passed. */
  lemma LevelMovesExactlyWhen(s: State, cbs: nat, listening: bool)
    requires OnLadder(s)
    ensures var t, repeated, low := Handle(s, cbs, listening), cbs == s.oldCbs, cbs < s.byteRate / 3;
            && t.oldCbs == cbs && t.byteRate == s.byteRate
            && if (low && !repeated) || (repeated && s.errors >= 5) then
                 t.level == (if s.level > 1 then s.level - 1 else 1) && t.stable == 0 && t.errors == 0
               else if repeated then
                 t.level == s.level && t.stable == s.stable && t.errors == s.errors + 1
               else if s.stable > 30 then
                 t.level == (if s.level < 5 then s.level + 1 else 5) && t.stable == 0 && t.errors == 0
               else
                 t.level == s.level && t.stable == s.stable + 1 && t.errors == s.errors
  {
  }

  /** What a listener is told of it: the direction and a change, with nine tenths of the byte rate, rounded up, after a
      step down and eleven tenths, rounded down, after a step up; and nothing when the level stays. */
  lemma AnnouncedRates(s: State, cbs: nat)
    requires OnLadder(s)
    ensures var t, nine, eleven := Handle(s, cbs, true), (9 * s.byteRate + 9) / 10, 11 * s.byteRate / 10;
            t.notices == s.notices + if t.level < s.level then [Downgraded(t.level, nine), Changed(t.level, nine)]
                                     else if t.level == s.level then []
                                     else [Upgraded(t.level, eleven), Changed(t.level, eleven)]
    ensures Handle(s, cbs, false).notices == s.notices
  {
  }

  /** Readings that are all at least a third of the byte rate, not zero, and each unlike the one before. */
  predicate Healthy(readings: seq<nat>, before: nat, byteRate: nat) {
    readings == [] ||
    (&& readings[0] > 0 && readings[0] >= byteRate / 3 && readings[0] != before
     && Healthy(readings[1..], readings[0], byteRate))
  }

  /** A healthy list has healthy starts, and what follows each is healthy behind it. */
  lemma {:induction false} HealthyParts(readings: seq<nat>, before: nat, byteRate: nat, n: nat)
    requires Healthy(readings, before, byteRate) && n < |readings|
    ensures Healthy(readings[..n], before, byteRate)
    ensures readings[n] > 0 && readings[n] >= byteRate / 3 && readings[n] != if n == 0 then before else readings[n - 1]
  {
    if n > 0 {
      HealthyParts(readings[1..], readings[0], byteRate, n - 1);
      assert readings[..n][1..] == readings[1..][..n - 1];
    }
  }

  function SamplesOf(readings: seq<nat>, listening: bool): seq<Event> {
    if readings == [] then [] else [Sample(readings[0], listening)] + SamplesOf(readings[1..], listening)
  }

  lemma {:induction false} HealthySecondsAdd(s: State, readings: seq<nat>, listening: bool)
    requires OnLadder(s) && Healthy(readings, s.oldCbs, s.byteRate) && s.stable + |readings| <= 31
    ensures var t := Run(s, SamplesOf(readings, listening));
            && t.stable == s.stable + |readings| && t.level == s.level && t.errors == s.errors
            && t.byteRate == s.byteRate && t.notices == s.notices
            && t.oldCbs == if readings == [] then s.oldCbs else readings[|readings| - 1]
    decreases |readings|
  {
    if readings != [] {
      var s1, rest := Handle(s, readings[0], listening), readings[1..];
      LevelMovesExactlyWhen(s, readings[0], listening);
      assert SamplesOf(readings, listening)[0] == Sample(readings[0], listening);
      assert SamplesOf(readings, listening)[1..] == SamplesOf(rest, listening);
      HealthySecondsAdd(s1, rest, listening);
    }
  }

  lemma {:induction false} SamplesAppend(xs: seq<nat>, x: nat, listening: bool)
    ensures SamplesOf(xs + [x], listening) == SamplesOf(xs, listening) + [Sample(x, listening)]
  {
    if xs == [] {
      assert xs + [x] == [x];
    } else {
      SamplesAppend(xs[1..], x, listening);
      assert (xs + [x])[1..] == xs[1..] + [x];
    }
  }

  lemma {:induction false} RunAppend(s: State, es: seq<Event>, e: Event)
    ensures Run(s, es + [e]) == Step(Run(s, es), e)
    decreases |es|
  {
    if es == [] {
      assert es + [e] == [e] && [e][1..] == [];
    } else {
      RunAppend(Step(s, es[0]), es[1..], e);
      assert (es + [e])[1..] == es[1..] + [e];
    }
  }

  /** From zero stable seconds, 31 healthy readings leave the level alone and the 32nd raises it, once. */
  lemma HealthyReadingsRaise(s: State, readings: seq<nat>, listening: bool)
    requires OnLadder(s) && s.stable == 0 && |readings| == 32 && Healthy(readings, s.oldCbs, s.byteRate)
    ensures Run(s, SamplesOf(readings[..31], listening)).level == s.level
    ensures var t := Run(s, SamplesOf(readings, listening));
            t.level == (if s.level < 5 then s.level + 1 else 5) && t.stable == 0
  {
    hide Run, Handle, SamplesOf;
    var front, last := readings[..31], readings[31];
    HealthyParts(readings, s.oldCbs, s.byteRate, 31);
    assert readings == front + [last];
    HealthySecondsAdd(s, front, listening);
    SamplesAppend(front, last, listening);
    RunAppend(s, SamplesOf(front, listening), Sample(last, listening));
    LevelMovesExactlyWhen(Run(s, SamplesOf(front, listening)), last, listening);
  }

  /** A cleared controller counts from zero again, whatever it had counted: it takes the same 32 readings. */
  lemma ClearingStartsAnew(s: State, readings: seq<nat>, listening: bool)
    requires OnLadder(s) && |readings| == 32 && Healthy(readings, 0, s.byteRate)
    ensures var c := Step(s, Event.Clear(true));
            && Run(c, SamplesOf(readings[..31], listening)).level == s.level
            && Run(c, SamplesOf(readings, listening)).level == (if s.level < 5 then s.level + 1 else 5)
  {
    HealthyReadingsRaise(Step(s, Event.Clear(true)), readings, listening);
  }

  function Repeated(cbs: nat, n: nat): seq<nat> {
    if n == 0 then [] else [cbs] + Repeated(cbs, n - 1)
  }

  lemma {:induction false} RepetitionsAreCounted(s: State, n: nat, listening: bool)
    requires OnLadder(s) && s.oldCbs > 0 && s.errors + n <= 5
    ensures var t := Run(s, SamplesOf(Repeated(s.oldCbs, n), listening));
            t.errors == s.errors + n && t.level == s.level && t.oldCbs == s.oldCbs && t.stable == s.stable
    decreases n
  {
    if n > 0 {
      var readings := Repeated(s.oldCbs, n);
      LevelMovesExactlyWhen(s, s.oldCbs, listening);
      assert readings[1..] == Repeated(s.oldCbs, n - 1);
      assert SamplesOf(readings, listening)[1..] == SamplesOf(Repeated(s.oldCbs, n - 1), listening);
      RepetitionsAreCounted(Handle(s, s.oldCbs, listening), n - 1, listening);
    }
  }

  /** From zero errors, five repetitions of a reading leave the level alone and the sixth lowers it. */
  lemma SixRepetitionsLower(s: State, listening: bool)
    requires OnLadder(s) && s.oldCbs > 0 && s.errors == 0
    ensures var t := Run(s, SamplesOf(Repeated(s.oldCbs, 5), listening));
            && t.level == s.level
            && Step(t, Sample(s.oldCbs, listening)).level == (if s.level > 1 then s.level - 1 else 1)
  {
    hide Run, Handle;
    RepetitionsAreCounted(s, 5, listening);
    LevelMovesExactlyWhen(Run(s, SamplesOf(Repeated(s.oldCbs, 5), listening)), s.oldCbs, listening);
  }

  /** Readings are judged by the byte rate that was set last; a second without traffic changes nothing. */
  lemma NewRateCounts(s: State, rate: nat, cbs: nat, listening: bool)
    requires OnLadder(s) && 0 < cbs != s.oldCbs && s.stable <= 30
    ensures var t := Run(s, [SetByteRate(rate), Sample(0, listening), Sample(cbs, listening)]);
            t.level == if cbs < rate / 3 && s.level > 1 then s.level - 1 else s.level
  {
    hide Handle;
    var s1 := s.(byteRate := rate);
    var e1, e2 := Sample(0, listening), Sample(cbs, listening);
    assert Run(s1, [e1, e2]) == Run(s1, [e2]) == Run(Handle(s1, cbs, listening), []) by {
      assert [e1, e2][1..] == [e2] && [e2][1..] == [];
    }
    assert [SetByteRate(rate), e1, e2][1..] == [e1, e2];
    LevelMovesExactlyWhen(s1, cbs, listening);
  }
}
