/** The control part of the panel's thread: holding it, applying configurations, and what happens after an overload. */
module Hub75Supervisor {
  import Arith

  const OVERLOAD_RESTART_MS: nat := 200
  const OVERLOAD_TRIPS: nat := 3
  const OVERLOAD_WINDOW_MS: nat := 10000

  /** What one pass of the loop finds: whether the panel is to be held, how many configurations were set since
      the last pass, whether the stored one enables the panel, whether starting it succeeds (there can be two
      starts in a pass), whether the interrupt tripped, and the time. */
  datatype Seen = Seen(hold: bool, sets: nat, enabled: bool, startOk: bool, restartOk: bool, tripped: bool, now: nat)

  /** The loop's variables, the configuration generation counter among them; `restarts` only counts the automatic
      restarts since `trips` was last set to 0. */
  datatype State = State(
    held: bool, running: bool, counter: int, generation: int,
    restartAt: nat, tripWindow: nat, trips: nat, restarts: nat)

  const INITIAL: State := State(false, false, 0, -1, 0, 0, 0, 0)

  // ---- one pass, piece by piece ----

  function Held(st: State, hold: bool): State {
    if hold == st.held then st
    else if hold then st.(held := true, running := false, restartAt := 0)
    else st.(held := false, counter := st.counter + 1)
  }

  /** A pass that sets the panel up again from the stored configuration. */
  predicate Applies(st: State, seen: Seen) {
    var s := Held(st.(counter := st.counter + seen.sets), seen.hold);
    s.counter != s.generation && !s.held
  }

  function Applied(st: State, enabled: bool, startOk: bool): State {
    st.(generation := st.counter, running := enabled && startOk, restartAt := 0, trips := 0, restarts := 0)
  }

  function Tripped(st: State, now: nat): State {
    var expired := now - st.tripWindow > OVERLOAD_WINDOW_MS;
    var s := if expired then st.(tripWindow := now, trips := 0, restarts := 0) else st;
    s.(running := false, trips := s.trips + 1,
       restartAt := if s.trips + 1 >= OVERLOAD_TRIPS then 0 else now + OVERLOAD_RESTART_MS)
  }

  function Restarted(st: State, restartOk: bool, now: nat): State {
    if !st.running && st.restartAt != 0 && now >= st.restartAt
    then st.(restartAt := 0, running := restartOk, restarts := st.restarts + 1) else st
  }

  function Passed(st: State, seen: Seen): State {
    var s := Held(st.(counter := st.counter + seen.sets), seen.hold);
    var t := if Applies(st, seen) then Applied(s, seen.enabled, seen.startOk) else s;
    var u := if seen.tripped && t.running then Tripped(t, seen.now) else t;
    Restarted(u, seen.restartOk, seen.now)
  }

  function PassedAll(st: State, seen: seq<Seen>): State
    decreases |seen|
  {
    if seen == [] then st else Passed(PassedAll(st, seen[..|seen| - 1]), seen[|seen| - 1])
  }

  function Reached(seen: seq<Seen>): State {
    PassedAll(INITIAL, seen)
  }

  // ---- what happens in a pass, whatever the counters say ----

  /** The state as a pass looks at it: after the hold flag and a configuration that may have been applied. */
  function Looked(st: State, seen: Seen): State {
    var s := Held(st.(counter := st.counter + seen.sets), seen.hold);
    if Applies(st, seen) then Applied(s, seen.enabled, seen.startOk) else s
  }

  /** The interrupt tripped and the panel is running as the pass looks at it. */
  predicate TripsIn(st: State, seen: Seen) {
    seen.tripped && Looked(st, seen).running
  }

  /** The pass starts a stopped panel again without a new configuration. */
  predicate RestartsIn(st: State, seen: Seen) {
    var s := Looked(st, seen);
    !s.running && !TripsIn(st, seen) && s.restartAt != 0 && seen.now >= s.restartAt
  }

  /** How many passes of a run trip. */
  function TripCount(st: State, seen: seq<Seen>): nat
    decreases |seen|
  {
    if seen == [] then 0
    else
      var n := |seen| - 1;
      TripCount(st, seen[..n]) + if TripsIn(PassedAll(st, seen[..n]), seen[n]) then 1 else 0
  }

  /** How many passes of a run start the panel again by themselves. */
  function RestartCount(st: State, seen: seq<Seen>): nat
    decreases |seen|
  {
    if seen == [] then 0
    else
      var n := |seen| - 1;
      RestartCount(st, seen[..n]) + if RestartsIn(PassedAll(st, seen[..n]), seen[n]) then 1 else 0
  }

  /** A stretch of passes that applies no configuration and whose trips all come inside a window. */
  predicate InWindow(st: State, seen: seq<Seen>, window: int) {
    forall i | 0 <= i < |seen| ::
      && !Applies(PassedAll(st, seen[..i]), seen[i])
      && (TripsIn(PassedAll(st, seen[..i]), seen[i]) ==> seen[i].now <= window + OVERLOAD_WINDOW_MS)
  }

  /** A stretch of passes in which nothing is applied and nothing trips. */
  predicate Quiet(st: State, seen: seq<Seen>) {
    forall i | 0 <= i < |seen| ::
      !Applies(PassedAll(st, seen[..i]), seen[i]) && !TripsIn(PassedAll(st, seen[..i]), seen[i])
  }

  // ---- what every run keeps ----

  predicate Safe(st: State) {
    && (st.held ==> !st.running && st.restartAt == 0)
    && (st.running ==> st.restartAt == 0)
    && st.trips <= OVERLOAD_TRIPS
    && (st.trips == OVERLOAD_TRIPS ==> !st.running && st.restartAt == 0)
    && st.restarts + (if st.restartAt != 0 then 1 else 0) <= Arith.Min(st.trips, OVERLOAD_TRIPS - 1)
    && st.counter >= st.generation
  }

  lemma PassKeepsSafe(st: State, seen: Seen)
    requires Safe(st)
    ensures Safe(Passed(st, seen))
  {
  }

  lemma {:induction false} PassesKeepSafe(st: State, seen: seq<Seen>)
    requires Safe(st)
    ensures Safe(PassedAll(st, seen))
    decreases |seen|
  {
    if seen == [] {
    } else {
      PassesKeepSafe(st, seen[..|seen| - 1]);
      PassKeepsSafe(PassedAll(st, seen[..|seen| - 1]), seen[|seen| - 1]);
    }
  }

  /** Over every run: a held panel is off with no restart scheduled, and so is one that has used up its trips. */
  lemma AlwaysSafe(seen: seq<Seen>)
    ensures var st := Reached(seen);
            && Safe(st)
            && (st.held ==> !st.running && st.restartAt == 0)
            && (st.trips >= OVERLOAD_TRIPS ==> !st.running && st.restartAt == 0)
  {
    PassesKeepSafe(INITIAL, seen);
  }

  // ---- trips ----

  /** A trip opens a window if the last one is over, else it is the next in it; below the third it schedules a
      restart, the third leaves the panel stopped. */
  lemma TripSchedules(st: State, seen: Seen)
    requires Safe(st) && TripsIn(st, seen)
    ensures var after := Passed(st, seen);
            var before := if Applies(st, seen) then 0 else st.trips;
            var opens := seen.now > st.tripWindow + OVERLOAD_WINDOW_MS;
            && !after.running
            && after.tripWindow == (if opens then seen.now else st.tripWindow)
            && after.trips == (if opens then 1 else before + 1) <= OVERLOAD_TRIPS
            && after.restartAt == if after.trips < OVERLOAD_TRIPS then seen.now + OVERLOAD_RESTART_MS else 0
  {
  }

  lemma PassCounts(st: State, seen: Seen)
    requires Safe(st) && !Applies(st, seen)
    requires TripsIn(st, seen) ==> seen.now <= st.tripWindow + OVERLOAD_WINDOW_MS
    ensures var after := Passed(st, seen);
            && Safe(after) && after.tripWindow == st.tripWindow
            && after.trips == st.trips + (if TripsIn(st, seen) then 1 else 0)
            && after.restarts == st.restarts + (if RestartsIn(st, seen) then 1 else 0)
  {
  }

  /** Over passes that apply nothing and whose trips come within OVERLOAD_WINDOW_MS of the window's start, the window
      stays and exactly the trips and the restarts that happen are counted. */
  lemma {:induction false} WindowCounts(st: State, seen: seq<Seen>)
    requires Safe(st) && InWindow(st, seen, st.tripWindow)
    ensures var after := PassedAll(st, seen);
            && Safe(after) && after.tripWindow == st.tripWindow
            && after.trips == st.trips + TripCount(st, seen)
            && after.restarts == st.restarts + RestartCount(st, seen)
    decreases |seen|
  {
    hide Passed, Applies, TripsIn, RestartsIn, Safe;
    if seen == [] {
    } else {
      var n := |seen| - 1;
      assert forall i | 0 <= i < n :: seen[..n][..i] == seen[..i];
      WindowCounts(st, seen[..n]);
      PassCounts(PassedAll(st, seen[..n]), seen[n]);
    }
  }

  /** The window's trips stop the panel exactly from the third on: then it is off with nothing scheduled. And the
      window sees at most two automatic restarts. */
  lemma ThirdTripStops(st: State, seen: seq<Seen>)
    requires Safe(st) && InWindow(st, seen, st.tripWindow)
    ensures var after := PassedAll(st, seen);
            && (after.trips == OVERLOAD_TRIPS <==> st.trips + TripCount(st, seen) >= OVERLOAD_TRIPS)
            && (st.trips + TripCount(st, seen) >= OVERLOAD_TRIPS ==> !after.running && after.restartAt == 0)
            && RestartCount(st, seen) <= OVERLOAD_TRIPS - 1
  {
    WindowCounts(st, seen);
  }

  /** From the trip that opens a window on: two more inside it stop the panel, fewer don't, and from that trip on the
      panel restarts by itself at most twice. */
  lemma WindowFromItsTrip(st: State, first: Seen, seen: seq<Seen>)
    requires Safe(st) && TripsIn(st, first) && first.now > st.tripWindow + OVERLOAD_WINDOW_MS
    requires InWindow(Passed(st, first), seen, first.now)
    ensures var after, more := PassedAll(Passed(st, first), seen), TripCount(Passed(st, first), seen);
            && after.tripWindow == first.now && after.trips == 1 + more
            && (more >= 2 <==> after.trips == OVERLOAD_TRIPS)
            && (more >= 2 ==> !after.running && after.restartAt == 0)
            && RestartCount(Passed(st, first), seen) <= 2
  {
    TripSchedules(st, first);
    PassKeepsSafe(st, first);
    WindowCounts(Passed(st, first), seen);
  }

  lemma {:induction false} QuietKeeps(st: State, seen: seq<Seen>)
    requires Safe(st) && Quiet(st, seen)
    ensures var after := PassedAll(st, seen);
            Safe(after) && after.trips == st.trips && after.tripWindow == st.tripWindow
    decreases |seen|
  {
    hide Passed, Applies, TripsIn, RestartsIn, Safe;
    if seen == [] {
    } else {
      var n := |seen| - 1;
      assert forall i | 0 <= i < n :: seen[..n][..i] == seen[..i];
      QuietKeeps(st, seen[..n]);
      PassCounts(PassedAll(st, seen[..n]), seen[n]);
    }
  }

  /** The state after a trip, some quiet passes, a trip, some quiet passes and a third trip. */
  function AfterThree(st: State, a: Seen, between: seq<Seen>, b: Seen, after: seq<Seen>, c: Seen): State {
    Passed(PassedAll(Passed(PassedAll(Passed(st, a), between), b), after), c)
  }

  /** Three trips in a row, none of them more than OVERLOAD_WINDOW_MS after another, are meant to leave the panel off
      until the configuration changes. They do exactly if the window that is open at the first of them doesn't run
      out between it and the third - it is over at the first already, or not even at the third; else the panel
      restarts. */
  lemma ThreeTripsStop(st: State, a: Seen, between: seq<Seen>, b: Seen, later: seq<Seen>, c: Seen)
    requires Safe(st) && TripsIn(st, a) && a.now <= b.now <= c.now <= a.now + OVERLOAD_WINDOW_MS
    requires var s := Passed(st, a);
             Quiet(s, between) && TripsIn(PassedAll(s, between), b) && !Applies(PassedAll(s, between), b)
    requires var t := Passed(PassedAll(Passed(st, a), between), b);
             Quiet(t, later) && TripsIn(PassedAll(t, later), c) && !Applies(PassedAll(t, later), c)
    ensures var end, window := AfterThree(st, a, between, b, later, c), st.tripWindow + OVERLOAD_WINDOW_MS;
            && (end.trips == OVERLOAD_TRIPS && !end.running && end.restartAt == 0 <==> !(a.now <= window < c.now))
            && (a.now <= window < c.now ==> end.restartAt == c.now + OVERLOAD_RESTART_MS)
  {
    var s := Passed(st, a);
    PassKeepsSafe(st, a);
    TripSchedules(st, a);
    QuietKeeps(s, between);
    var t0 := PassedAll(s, between);
    PassKeepsSafe(t0, b);
    TripSchedules(t0, b);
    QuietKeeps(Passed(t0, b), later);
    var u := PassedAll(Passed(t0, b), later);
    PassKeepsSafe(u, c);
    TripSchedules(u, c);
    RunningHasTrips(t0, b);
    RunningHasTrips(u, c);
    hide Passed, PassedAll, Applies, TripsIn, Quiet;
  }

  lemma RunningHasTrips(st: State, seen: Seen)
    requires Safe(st) && TripsIn(st, seen) && !Applies(st, seen)
    ensures st.trips < OVERLOAD_TRIPS
  {
  }

  lemma StoppedStep(st: State, seen: Seen)
    requires Safe(st) && st.trips == OVERLOAD_TRIPS && !Applies(st, seen)
    ensures Safe(Passed(st, seen)) && Passed(st, seen).trips == OVERLOAD_TRIPS
  {
  }

  /** Once the third trip has stopped the panel, it stays off through every pass that doesn't apply a configuration. */
  lemma {:induction false} StoppedStaysOff(st: State, seen: seq<Seen>)
    requires Safe(st) && st.trips == OVERLOAD_TRIPS
    requires forall i | 0 <= i < |seen| :: !Applies(PassedAll(st, seen[..i]), seen[i])
    ensures var after := PassedAll(st, seen);
            Safe(after) && after.trips == OVERLOAD_TRIPS && !after.running && after.restartAt == 0
    decreases |seen|
  {
    hide Applies, Passed;
    if seen == [] {
    } else {
      var n := |seen| - 1;
      assert forall i | 0 <= i < n :: seen[..n][..i] == seen[..i];
      StoppedStaysOff(st, seen[..n]);
      StoppedStep(PassedAll(st, seen[..n]), seen[n]);
    }
  }

  /** A pass sets the panel up exactly if it isn't to be held, and it was until now or there is a configuration that
      wasn't applied yet: a new one, or one set before that. */
  lemma AppliesWhen(st: State, seen: Seen)
    requires Safe(st)
    ensures Applies(st, seen) <==> !seen.hold && (st.held || seen.sets > 0 || st.counter != st.generation)
  {
  }

  /** A pass that sets the panel up and sees no trip leaves it running exactly if the configuration enables it and it
      starts, with no restart scheduled, no trip counted and nothing left to apply. */
  lemma ApplySetsUp(st: State, seen: Seen)
    requires Safe(st) && Applies(st, seen)
    ensures var after := Passed(st, seen);
            && after.generation == after.counter
            && (!seen.tripped || !seen.enabled || !seen.startOk ==>
                  after.running == (seen.enabled && seen.startOk) && after.restartAt == 0 && after.trips == 0)
  {
  }

  /** The panel is held exactly while it is asked to be, and off as long. */
  lemma HoldFollows(st: State, seen: Seen)
    requires Safe(st)
    ensures Passed(st, seen).held == seen.hold
    ensures seen.hold ==> !Passed(st, seen).running && Passed(st, seen).restartAt == 0
  {
  }

  /** A pass that finds nothing new changes nothing. */
  lemma NothingNew(st: State, seen: Seen)
    requires Safe(st) && seen.hold == st.held && seen.sets == 0 && (st.held || st.counter == st.generation)
    requires !seen.tripped && (st.restartAt == 0 || seen.now < st.restartAt)
    ensures Passed(st, seen) == st
  {
  }

  lemma RestartComes(st: State, seen: Seen)
    requires Safe(st) && st.restartAt != 0 && !seen.hold && !Applies(st, seen)
    ensures var after := Passed(st, seen);
            if seen.now >= st.restartAt then after.running == seen.restartOk && after.restartAt == 0
            else !after.running && after.restartAt == st.restartAt
  {
  }

  /** Passes before a time that neither hold the panel nor apply a configuration. */
  predicate Waiting(st: State, seen: seq<Seen>, until: nat) {
    forall i | 0 <= i < |seen| ::
      !seen[i].hold && !Applies(PassedAll(st, seen[..i]), seen[i]) && seen[i].now < until
  }

  lemma {:induction false} WaitingKeeps(st: State, seen: seq<Seen>)
    requires Safe(st) && st.restartAt != 0 && Waiting(st, seen, st.restartAt)
    ensures var after := PassedAll(st, seen); Safe(after) && !after.running && after.restartAt == st.restartAt
    decreases |seen|
  {
    hide Passed, Applies;
    if seen == [] {
    } else {
      var n := |seen| - 1;
      assert forall i | 0 <= i < n :: seen[..n][..i] == seen[..i];
      WaitingKeeps(st, seen[..n]);
      RestartComes(PassedAll(st, seen[..n]), seen[n]);
      PassKeepsSafe(PassedAll(st, seen[..n]), seen[n]);
    }
  }

  /** A trip that isn't the window's third brings the panel back: at the first pass OVERLOAD_RESTART_MS later, unless
      it is held or a configuration is applied before. */
  lemma TripComesBack(st: State, trip: Seen, waiting: seq<Seen>, last: Seen)
    requires Safe(st) && TripsIn(st, trip)
    requires trip.now > st.tripWindow + OVERLOAD_WINDOW_MS || Applies(st, trip) || st.trips < OVERLOAD_TRIPS - 1
    requires Waiting(Passed(st, trip), waiting, trip.now + OVERLOAD_RESTART_MS)
    requires var s := PassedAll(Passed(st, trip), waiting);
             !last.hold && !Applies(s, last) && last.now >= trip.now + OVERLOAD_RESTART_MS
    ensures Passed(PassedAll(Passed(st, trip), waiting), last).running == last.restartOk
  {
    TripSchedules(st, trip);
    PassKeepsSafe(st, trip);
    WaitingKeeps(Passed(st, trip), waiting);
    RestartComes(PassedAll(Passed(st, trip), waiting), last);
  }

  // ---- a window that runs out ----

  lemma PassedNext(st: State, seen: seq<Seen>, next: Seen)
    ensures PassedAll(st, seen + [next]) == Passed(PassedAll(st, seen), next)
    ensures TripCount(st, seen + [next]) == TripCount(st, seen) + if TripsIn(PassedAll(st, seen), next) then 1 else 0
  {
    assert (seen + [next])[..|seen|] == seen;
  }

  /** What the thread finds around a trip and the restart after it. */
  function TripAndRestart(now: nat): seq<Seen> {
    [Seen(false, 0, true, true, true, true, now),
     Seen(false, 0, true, true, true, false, now + OVERLOAD_RESTART_MS)]
  }

  /** A trip that isn't the last one of its window, and the restart after it. */
  lemma TripPair(seen: seq<Seen>, now: nat)
    requires var st := Reached(seen);
             && Safe(st) && st.running && !st.held && st.counter == st.generation
             && (now > st.tripWindow + OVERLOAD_WINDOW_MS || st.trips < OVERLOAD_TRIPS - 1)
    ensures var st, after := Reached(seen), Reached(seen + TripAndRestart(now));
            && Safe(after) && after.running && !after.held && after.counter == after.generation
            && after.tripWindow == (if now > st.tripWindow + OVERLOAD_WINDOW_MS then now else st.tripWindow)
            && after.trips == (if now > st.tripWindow + OVERLOAD_WINDOW_MS then 1 else st.trips + 1)
            && TripCount(INITIAL, seen + TripAndRestart(now)) == TripCount(INITIAL, seen) + 1
  {
    var trip, restart := TripAndRestart(now)[0], TripAndRestart(now)[1];
    PassedNext(INITIAL, seen, trip);
    PassedNext(INITIAL, seen + [trip], restart);
    PassKeepsSafe(Reached(seen), trip);
    PassKeepsSafe(Reached(seen + [trip]), restart);
    assert seen + TripAndRestart(now) == seen + [trip] + [restart];
    hide PassedAll, TripCount;
  }

  /** A start and three trips after it. */
  function LateTrips(start: Seen, a: nat, b: nat, c: nat): seq<Seen> {
    [start] + TripAndRestart(a) + TripAndRestart(b) + TripAndRestart(c)
  }

  lemma FirstPass(st: State, first: Seen)
    ensures PassedAll(st, [first]) == Passed(st, first)
    ensures TripCount(st, [first]) == if TripsIn(st, first) then 1 else 0
  {
    assert [first][..0] == [];
  }

  /** However close together they come - 9000, 9500 and 10001 ms after the start, say - when the first two come before
      OVERLOAD_WINDOW_MS and the third after, the panel runs again after them, with one trip counted: the window that
      is open at the first is the one the start found, and it runs out before the third. */
  lemma LateTripsRestart(start: Seen, a: nat, b: nat, c: nat)
    requires a <= b <= OVERLOAD_WINDOW_MS < c
    requires !start.hold && start.enabled && start.startOk && !start.tripped
    ensures TripCount(INITIAL, LateTrips(start, a, b, c)) == OVERLOAD_TRIPS
    ensures Reached(LateTrips(start, a, b, c)).running && Reached(LateTrips(start, a, b, c)).trips == 1
  {
    FirstPass(INITIAL, start);
    PassKeepsSafe(INITIAL, start);
    hide PassedAll, TripCount, Safe, TripAndRestart;
    var s := [start];
    TripPair(s, a);
    TripPair(s + TripAndRestart(a), b);
    TripPair(s + TripAndRestart(a) + TripAndRestart(b), c);
  }

  // ---- the thread ----

  class Task {
    var held: bool
    var running: bool
    // hub75_generation, and the one last applied.
    var counter: int
    var generation: int
    var restartAt: nat
    var tripWindow: nat
    var trips: nat
    ghost var restarts: nat

    ghost function View(): State
      reads this
    {
      State(held, running, counter, generation, restartAt, tripWindow, trips, restarts)
    }

    constructor ()
      ensures View() == INITIAL
    {
      held, running, counter, generation := false, false, 0, -1;
      restartAt, tripWindow, trips, restarts := 0, 0, 0, 0;
    }

    /** Follows the hold flag: releasing it counts as a new configuration. */
    method Hold(hold: bool)
      modifies this
      ensures View() == Held(old(View()), hold)
    {
      if hold != held {
        held := hold;
        if held {
          running := false;
          restartAt := 0;
        } else {
          counter := counter + 1;
        }
      }
    }

    method Apply(enabled: bool, startOk: bool)
      modifies this
      ensures View() == Applied(old(View()), enabled, startOk)
    {
      generation := counter;
      running := false;
      if enabled {
        running := startOk;
      }
      restartAt := 0;
      trips, restarts := 0, 0;
    }

    method Trip(now: nat)
      modifies this
      ensures View() == Tripped(old(View()), now)
    {
      running := false;
      if now - tripWindow > OVERLOAD_WINDOW_MS {
        tripWindow := now;
        trips, restarts := 0, 0;
      }
      trips := trips + 1;
      if trips >= OVERLOAD_TRIPS {
        restartAt := 0;
      } else {
        restartAt := now + OVERLOAD_RESTART_MS;
      }
    }

    method Restart(restartOk: bool, now: nat)
      modifies this
      ensures View() == Restarted(old(View()), restartOk, now)
    {
      if !running && restartAt != 0 && now >= restartAt {
        restartAt := 0;
        running := restartOk;
        restarts := restarts + 1;
      }
    }

    /** One pass of the thread's loop, up to where it redraws the frame. */
    method Pass(seen: Seen)
      modifies this
      ensures View() == Passed(old(View()), seen)
    {
      hide Held, Applied, Tripped, Restarted;
      counter := counter + seen.sets;
      Hold(seen.hold);
      if counter != generation && !held {
        Apply(seen.enabled, seen.startOk);
      }
      if seen.tripped && running {
        Trip(seen.now);
      }
      Restart(seen.restartOk, seen.now);
    }
  }
}
