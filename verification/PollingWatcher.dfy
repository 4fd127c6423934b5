/**
 The polling config watcher: per path a debounce over a history of readings, over all paths a
 periodic audit.  `Observe` says what one reading does to one path; the class below is the
 watcher itself, proved to do exactly that for every path on every poll.
 */
module PollingWatcher {
  import opened Common

  datatype FileSignature = FileSignature(mtimeNs: int, size: nat, digest: string)

  /** The signature of a watched file, or `None` when it is absent. */
  type Reading = Option<FileSignature>

  datatype PendingChange = PendingChange(firstSeenAt: real, signature: Reading)

  datatype PathState = PathState(last: Reading, pending: Option<PendingChange>)

  datatype Observation = Observation(now: real, reading: Reading)

  // ----- One path -----

  predicate Ripe(p: PendingChange, now: real, debounce: real) {
    now - p.firstSeenAt >= debounce
  }

  /** Whether a reading gets the path reported as changed. */
  predicate Reports(s: PathState, o: Observation, debounce: real) {
    s.pending.Some? && Ripe(s.pending.value, o.now, debounce) &&
    (o.reading == s.last || o.reading == s.pending.value.signature)
  }

  function Observe(s: PathState, o: Observation, debounce: real): PathState {
    if Reports(s, o, debounce) then
      PathState(s.pending.value.signature, None)
    else if o.reading == s.last || (s.pending.Some? && s.pending.value.signature == o.reading) then
      s
    else
      PathState(s.last, Some(PendingChange(o.now, o.reading)))
  }

  /** The state after the first `n` readings of a history. */
  function At(s: PathState, history: seq<Observation>, n: nat, debounce: real): PathState
    requires n <= |history|
  {
    if n == 0 then s else Observe(At(s, history, n - 1, debounce), history[n - 1], debounce)
  }

  predicate Reported(s: PathState, history: seq<Observation>, i: nat, debounce: real)
    requires i < |history|
  {
    Reports(At(s, history, i, debounce), history[i], debounce)
  }

  function ReportCount(s: PathState, history: seq<Observation>, n: nat, debounce: real): nat
    requires n <= |history|
  {
    if n == 0 then 0
    else ReportCount(s, history, n - 1, debounce) + (if Reported(s, history, n - 1, debounce) then 1 else 0)
  }

  predicate Sane(s: PathState) {
    s.pending.Some? ==> s.pending.value.signature != s.last
  }

  /** A pending signature never equals the last reported one. */
  lemma {:induction false} PendingDiffersFromLast(s: PathState, history: seq<Observation>, n: nat, debounce: real)
    requires Sane(s) && n <= |history|
    ensures Sane(At(s, history, n, debounce))
  {
    if n > 0 {
      PendingDiffersFromLast(s, history, n - 1, debounce);
    }
  }

  // ----- Convergence -----

  /** How many reports a path still owes once its file stays at `c`. */
  function Owed(s: PathState, c: Reading): nat {
    if s.last != c then 1 else if s.pending.Some? then 2 else 0
  }

  predicate Steady(history: seq<Observation>, from: nat, c: Reading) {
    forall k :: from <= k < |history| ==> history[k].reading == c
  }

  predicate Timely(history: seq<Observation>) {
    forall j, k :: 0 <= j <= k < |history| ==> history[j].now <= history[k].now
  }

  /** Once a file reads the same at every poll, each report pays off one that was owed and nothing
      else changes what is owed: at most two more reports, however long the history. */
  lemma {:induction false} SteadyFilePaysItsReports(s: PathState, history: seq<Observation>, m: nat, n: nat, c: Reading, debounce: real)
    requires Sane(s) && m <= n <= |history| && Steady(history, m, c)
    ensures 0 <= ReportCount(s, history, n, debounce) - ReportCount(s, history, m, debounce)
         == Owed(At(s, history, m, debounce), c) - Owed(At(s, history, n, debounce), c) <= 2
    decreases n
  {
    if m < n {
      SteadyFilePaysItsReports(s, history, m, n - 1, c, debounce);
      PendingDiffersFromLast(s, history, n - 1, debounce);
    }
  }

  /** The bound is reached: a change that is reverted within the debounce is still reported, the
      reverted signature becomes the last one, and the file is reported again for being back. */
  lemma RevertedChangeReportsTwice(a: Reading, b: Reading, t: real, debounce: real)
    requires a != b && debounce > 0.0
    ensures var history := [Observation(t, b), Observation(t + debounce, a),
                            Observation(t + debounce, a), Observation(t + 2.0 * debounce, a)];
            && !Reported(PathState(a, None), history, 0, debounce)
            && Reported(PathState(a, None), history, 1, debounce)
            && !Reported(PathState(a, None), history, 2, debounce)
            && Reported(PathState(a, None), history, 3, debounce)
  {
    var s := PathState(a, None);
    var history := [Observation(t, b), Observation(t + debounce, a),
                    Observation(t + debounce, a), Observation(t + 2.0 * debounce, a)];
  }

  /** Pending changes are never dated after the latest reading. */
  lemma {:induction false} PendingIsPast(s: PathState, history: seq<Observation>, n: nat, debounce: real)
    requires s.pending.None? && Timely(history) && n < |history|
    ensures var p := At(s, history, n, debounce).pending; p.Some? ==> p.value.firstSeenAt <= history[n].now
  {
    if n > 0 {
      PendingIsPast(s, history, n - 1, debounce);
    }
  }

  /** From `from` on every reading is `c` and so is the last reported signature: quiet for good. */
  lemma {:induction false} QuietStaysQuiet(s: PathState, history: seq<Observation>, from: nat, n: nat, c: Reading, debounce: real)
    requires from <= n <= |history| && Steady(history, from, c)
    requires At(s, history, from, debounce) == PathState(c, None)
    ensures At(s, history, n, debounce) == PathState(c, None)
    ensures forall k :: from <= k < n ==> !Reported(s, history, k, debounce)
    decreases n
  {
    if from < n {
      QuietStaysQuiet(s, history, from, n - 1, c, debounce);
    }
  }

  /** A pending change whose signature is read, or reverted, at every poll is reported by the first
      poll that finds it ripe. */
  lemma {:induction false} PendingIsSettled(s: PathState, history: seq<Observation>, m: nat, n: nat, c: Reading, debounce: real)
    returns (k: nat)
    requires Sane(s) && m <= n < |history| && Steady(history, m, c)
    requires var p := At(s, history, m, debounce);
             && p.pending.Some? && (c == p.last || c == p.pending.value.signature)
             && Ripe(p.pending.value, history[n].now, debounce)
    ensures m <= k <= n && Reported(s, history, k, debounce)
    ensures At(s, history, k + 1, debounce) == PathState(At(s, history, m, debounce).pending.value.signature, None)
    decreases n - m
  {
    if Reported(s, history, m, debounce) {
      k := m;
    } else {
      k := PendingIsSettled(s, history, m + 1, n, c, debounce);
    }
  }

  /** A changed signature read at every poll from `m` to `n`, across the debounce, is reported by
      `n`, and the path is then quiet at that signature. */
  lemma SteadyChangeIsReported(s: PathState, history: seq<Observation>, m: nat, n: nat, c: Reading, debounce: real)
    requires s.pending.None? && Timely(history) && Steady(history, m, c)
    requires m < n < |history| && history[n].now >= history[m].now + debounce
    requires c != At(s, history, m, debounce).last
    ensures exists k :: m <= k <= n && Reported(s, history, k, debounce)
    ensures At(s, history, n + 1, debounce) == PathState(c, None)
  {
    PendingDiffersFromLast(s, history, m, debounce);
    PendingIsPast(s, history, m, debounce);
    var before := At(s, history, m, debounce);
    var k;
    if before.pending.Some? && before.pending.value.signature == c {
      k := PendingIsSettled(s, history, m, n, c, debounce);
    } else {
      k := PendingIsSettled(s, history, m + 1, n, c, debounce);
    }
    QuietStaysQuiet(s, history, k + 1, n + 1, c, debounce);
  }

  /** Convergence.  Once a file stays at `c` from `m` on, two spans of at least the debounce are
      enough, whatever was pending before: the path ends quiet, with `c` as its last signature,
      and stays so, and exactly the reports it owed at `m` were made. */
  lemma SteadyFileConverges(s: PathState, history: seq<Observation>, m: nat, i: nat, j: nat, c: Reading, debounce: real)
    requires s.pending.None? && Timely(history) && Steady(history, m, c)
    requires m <= i && i + 1 < j < |history|
    requires history[i].now >= history[m].now + debounce
    requires history[j].now >= history[i + 1].now + debounce
    ensures At(s, history, j + 1, debounce) == PathState(c, None)
    ensures At(s, history, |history|, debounce) == PathState(c, None)
    ensures forall k :: j < k < |history| ==> !Reported(s, history, k, debounce)
    ensures ReportCount(s, history, |history|, debounce) - ReportCount(s, history, m, debounce) == Owed(At(s, history, m, debounce), c)
  {
    OneReportLeft(s, history, m, i, c, debounce);
    if At(s, history, i + 1, debounce).last == c {
      QuietStaysQuiet(s, history, i + 1, j + 1, c, debounce);
    } else {
      SteadyChangeIsReported(s, history, i + 1, j, c, debounce);
    }
    QuietStaysQuiet(s, history, j + 1, |history|, c, debounce);
    SteadyFilePaysItsReports(s, history, m, |history|, c, debounce);
  }

  /** After one span of the debounce at `c`, at most one report is owed. */
  lemma OneReportLeft(s: PathState, history: seq<Observation>, m: nat, i: nat, c: Reading, debounce: real)
    requires s.pending.None? && Timely(history) && Steady(history, m, c)
    requires m <= i < |history| && history[i].now >= history[m].now + debounce
    ensures Owed(At(s, history, i + 1, debounce), c) <= 1
  {
    var before := At(s, history, m, debounce);
    if Owed(before, c) <= 1 {
      SteadyFilePaysItsReports(s, history, m, i + 1, c, debounce);
    } else {
      PendingIsPast(s, history, m, debounce);
      PendingDiffersFromLast(s, history, m, debounce);
      var k := PendingIsSettled(s, history, m, i, c, debounce);
      SteadyFilePaysItsReports(s, history, k + 1, i + 1, c, debounce);
    }
  }

  // ----- Debounce -----

  /** Reading `m` starts a new pending change. */
  predicate Opens(s: PathState, history: seq<Observation>, m: nat, debounce: real)
    requires m < |history|
  {
    var before := At(s, history, m, debounce);
    && history[m].reading != before.last
    && (before.pending.Some? ==> before.pending.value.signature != history[m].reading)
  }

  /** Between `m` and `n` nothing but the change of `m` and the signature it replaces is read, and
      no reading in between comes after the debounce. */
  predicate HeldOpen(s: PathState, history: seq<Observation>, m: nat, n: nat, debounce: real)
    requires m < n <= |history|
  {
    && Opens(s, history, m, debounce)
    && (forall k :: m < k < n ==>
          && history[k].now - history[m].now < debounce
          && (history[k].reading == history[m].reading ||
              history[k].reading == At(s, history, m, debounce).last))
  }

  lemma {:induction false} HeldOpenIsPending(s: PathState, history: seq<Observation>, m: nat, n: nat, debounce: real)
    requires Sane(s) && m < n <= |history| && HeldOpen(s, history, m, n, debounce)
    ensures At(s, history, n, debounce)
         == PathState(At(s, history, m, debounce).last, Some(PendingChange(history[m].now, history[m].reading)))
    decreases n
  {
    if m + 1 < n {
      HeldOpenIsPending(s, history, m, n - 1, debounce);
    } else {
      PendingDiffersFromLast(s, history, m, debounce);
    }
  }

  lemma {:induction false} PendingWasHeldOpen(s: PathState, history: seq<Observation>, n: nat, debounce: real) returns (m: nat)
    requires s.pending.None? && n <= |history|
    requires At(s, history, n, debounce).pending.Some?
    ensures m < n && HeldOpen(s, history, m, n, debounce)
    decreases n
  {
    if n == 0 {
      assert false;
    } else {
      if Opens(s, history, n - 1, debounce) {
        m := n - 1;
      } else {
        m := PendingWasHeldOpen(s, history, n - 1, debounce);
        HeldOpenIsPending(s, history, m, n - 1, debounce);
        PendingDiffersFromLast(s, history, m, debounce);
      }
    }
  }

  /** Debounce, exactly: reading `n` is reported if and only if some earlier reading `m` opened a
      change, every reading since, `n` included, was that change or the signature it replaced,
      and `n` is the first one that comes at least the debounce after `m`. */
  lemma ReportedIffHeldAcrossDebounce(s: PathState, history: seq<Observation>, n: nat, debounce: real)
    requires s.pending.None? && n < |history|
    ensures Reported(s, history, n, debounce) <==>
            exists m :: 0 <= m < n && HeldOpen(s, history, m, n, debounce)
                        && history[n].now - history[m].now >= debounce
                        && (history[n].reading == history[m].reading ||
                            history[n].reading == At(s, history, m, debounce).last)
  {
    if Reported(s, history, n, debounce) {
      var m := PendingWasHeldOpen(s, history, n, debounce);
      HeldOpenIsPending(s, history, m, n, debounce);
    }
    forall m | 0 <= m < n && HeldOpen(s, history, m, n, debounce)
      ensures At(s, history, n, debounce)
           == PathState(At(s, history, m, debounce).last, Some(PendingChange(history[m].now, history[m].reading)))
    {
      HeldOpenIsPending(s, history, m, n, debounce);
    }
  }

  // ----- The periodic schedule -----

  /** A poll as the schedule sees it: when it ran, whether the file_change audit let it get as far
      as the periodic check, and whether a periodic audit of its would complete. */
  datatype ScheduledPoll = ScheduledPoll(now: real, reached: bool, completes: bool)

  function DueAt(next: Option<real>, now: real, period: real): real {
    if next.None? then now + period else next.value
  }

  predicate StartsPeriodic(next: Option<real>, poll: ScheduledPoll, period: real) {
    poll.reached && poll.now >= DueAt(next, poll.now, period)
  }

  function Schedule(next: Option<real>, poll: ScheduledPoll, period: real): Option<real> {
    if !poll.reached then next
    else if StartsPeriodic(next, poll, period) && poll.completes then Some(poll.now + period)
    else Some(DueAt(next, poll.now, period))
  }

  function NextAt(start: Option<real>, polls: seq<ScheduledPoll>, n: nat, period: real): Option<real>
    requires n <= |polls|
  {
    if n == 0 then start else Schedule(NextAt(start, polls, n - 1, period), polls[n - 1], period)
  }

  predicate Starts(start: Option<real>, polls: seq<ScheduledPoll>, i: nat, period: real)
    requires i < |polls|
  {
    StartsPeriodic(NextAt(start, polls, i, period), polls[i], period)
  }

  /** After a completed periodic audit the next one is started by exactly the polls, among those
      that get as far as the check, that come at least one period later. */
  lemma {:induction false} PeriodicAuditsKeepTheirPeriod(start: Option<real>, polls: seq<ScheduledPoll>, i: nat, j: nat, period: real)
    requires i < j < |polls|
    requires Starts(start, polls, i, period) && polls[i].completes
    requires forall k :: i < k < j ==> !(Starts(start, polls, k, period) && polls[k].completes)
    ensures NextAt(start, polls, j, period) == Some(polls[i].now + period)
    ensures Starts(start, polls, j, period) <==> polls[j].reached && polls[j].now >= polls[i].now + period
    decreases j
  {
    if i + 1 < j {
      PeriodicAuditsKeepTheirPeriod(start, polls, i, j - 1, period);
      assert !(Starts(start, polls, j - 1, period) && polls[j - 1].completes);
    }
  }

  /** Once a due time is set, by the startup audit or otherwise, it stands until a periodic audit
      completes, and the polls that start one are exactly those, among those that get as far as the check,
      that come at that time or later. */
  lemma {:induction false} DueTimeStands(start: Option<real>, polls: seq<ScheduledPoll>, i: nat, j: nat, due: real, period: real)
    requires i <= j < |polls| && NextAt(start, polls, i, period) == Some(due)
    requires forall k :: i <= k < j ==> !(Starts(start, polls, k, period) && polls[k].completes)
    ensures NextAt(start, polls, j, period) == Some(due)
    ensures Starts(start, polls, j, period) <==> polls[j].reached && polls[j].now >= due
    decreases j
  {
    if i < j {
      DueTimeStands(start, polls, i, j - 1, due, period);
      assert !(Starts(start, polls, j - 1, period) && polls[j - 1].completes);
    }
  }

  /** The first periodic audit after a startup audit: until one completes, exactly the polls at its due time
      or later start one. */
  lemma FirstPeriodicAuditAfterStartup(due: real, polls: seq<ScheduledPoll>, j: nat, period: real)
    requires j < |polls| && forall k :: 0 <= k < j ==> !(Starts(Some(due), polls, k, period) && polls[k].completes)
    ensures Starts(Some(due), polls, j, period) <==> polls[j].reached && polls[j].now >= due
  {
    DueTimeStands(Some(due), polls, 0, j, due, period);
  }

  /** Without a startup audit the first poll that gets as far as the check sets the due time. */
  lemma {:induction false} FirstPeriodicAuditWithoutStartup(polls: seq<ScheduledPoll>, i: nat, j: nat, period: real)
    requires i < j < |polls| && polls[i].reached && period > 0.0
    requires forall k :: 0 <= k < i ==> !polls[k].reached
    requires forall k :: i < k < j ==> !(Starts(None, polls, k, period) && polls[k].completes)
    ensures !Starts(None, polls, i, period)
    ensures Starts(None, polls, j, period) <==> polls[j].reached && polls[j].now >= polls[i].now + period
  {
    NothingDueYet(polls, i, period);
    DueTimeStands(None, polls, i + 1, j, polls[i].now + period, period);
  }

  lemma {:induction false} NothingDueYet(polls: seq<ScheduledPoll>, i: nat, period: real)
    requires i <= |polls| && forall k :: 0 <= k < i ==> !polls[k].reached
    ensures NextAt(None, polls, i, period) == None
  {
    if i > 0 {
      NothingDueYet(polls, i - 1, period);
    }
  }

  // ----- The watcher -----

  datatype Target = Target(agentId: string, path: string)

  datatype Trigger = Startup | FileChange | Periodic

  datatype WatchEvent = WatchEvent(trigger: Trigger, paths: seq<string>, run: nat)

  /** How an audit run ends: it completes, its `audit.triggered` event is refused by the event
      store, or a config fails to parse after the event is written. */
  datatype AuditEnd = Completes | EventRefused | ParseFails

  /** The events of an audit that reach the event store. */
  function Recorded(events: seq<WatchEvent>, end: AuditEnd): seq<WatchEvent> {
    if end == EventRefused then [] else events
  }

  function Paths(targets: seq<Target>): seq<string> {
    seq(|targets|, i requires 0 <= i < |targets| => targets[i].path)
  }

  /** What one poll reads of `path`, one reading for each of the first `n` targets on it. */
  function Seen(targets: seq<Target>, readings: seq<Reading>, now: real, path: string, n: nat): seq<Observation>
    requires n <= |targets| == |readings|
  {
    if n == 0 then []
    else Seen(targets, readings, now, path, n - 1)
         + (if targets[n - 1].path == path then [Observation(now, readings[n - 1])] else [])
  }

  function On(targets: seq<Target>, paths: set<string>): seq<Target> {
    if targets == [] then []
    else On(targets[..|targets| - 1], paths)
         + (if targets[|targets| - 1].path in paths then [targets[|targets| - 1]] else [])
  }

  lemma {:induction false} OnOfConcat(a: seq<Target>, b: seq<Target>, paths: set<string>)
    ensures On(a + b, paths) == On(a, paths) + On(b, paths)
  {
    if b == [] {
      assert a + b == a;
    } else {
      assert (a + b)[..|a + b| - 1] == a + b[..|b| - 1];
      OnOfConcat(a, b[..|b| - 1], paths);
    }
  }

  /** A file_change audit covers exactly the targets on the reported paths, each as often as it is
      watched, and in their order. */
  lemma {:induction false} AuditCoversReportedTargets(targets: seq<Target>, paths: set<string>, t: Target)
    ensures t in On(targets, paths) <==> t in targets && t.path in paths
    ensures multiset(On(targets, paths))[t] == if t.path in paths then multiset(targets)[t] else 0
  {
    if targets != [] {
      var rest, last := targets[..|targets| - 1], targets[|targets| - 1];
      AuditCoversReportedTargets(rest, paths, t);
      assert targets == rest + [last];
      assert multiset(targets) == multiset(rest) + multiset{last};
      assert last.path in paths ==> multiset(On(targets, paths)) == multiset(On(rest, paths)) + multiset{last};
    }
  }

  /** Of two targets on reported paths the one watched earlier is audited earlier. */
  lemma AuditKeepsOrder(before: seq<Target>, t: Target, between: seq<Target>, u: Target, after: seq<Target>, paths: set<string>)
    requires t.path in paths && u.path in paths
    ensures On(before + [t] + between + [u] + after, paths)
         == On(before, paths) + [t] + On(between, paths) + [u] + On(after, paths)
  {
    OnOfConcat(before + [t] + between + [u], after, paths);
    OnOfConcat(before + [t] + between, [u], paths);
    OnOfConcat(before + [t], between, paths);
    OnOfConcat(before, [t], paths);
    OnOfOne(t, paths);
    OnOfOne(u, paths);
  }

  lemma OnOfOne(t: Target, paths: set<string>)
    requires t.path in paths
    ensures On([t], paths) == [t]
  {
    assert [t][..0] == [];
  }

  lemma {:induction false} OnlyThePastMatters(s: PathState, history: seq<Observation>, later: seq<Observation>, n: nat, debounce: real)
    requires n <= |history|
    ensures At(s, history + later, n, debounce) == At(s, history, n, debounce)
    ensures ReportCount(s, history + later, n, debounce) == ReportCount(s, history, n, debounce)
  {
    if n > 0 {
      OnlyThePastMatters(s, history, later, n - 1, debounce);
    }
  }

  /** `_last_signatures` and `_pending`. */
  datatype Tables = Tables(lastSignatures: map<string, Reading>, pending: map<string, PendingChange>)
  {
    function StateOf(path: string): PathState {
      PathState(if path in lastSignatures then lastSignatures[path] else None,
                if path in pending then Some(pending[path]) else None)
    }
  }

  /** One target of the polling loop. */
  function Read(t: Tables, path: string, o: Observation, debounce: real): (r: Tables)
    ensures r.StateOf(path) == Observe(t.StateOf(path), o, debounce)
    ensures forall other :: other != path ==> r.StateOf(other) == t.StateOf(other)
  {
    var s := t.StateOf(path);
    if Reports(s, o, debounce) then
      Tables(t.lastSignatures[path := s.pending.value.signature], t.pending - {path})
    else if o.reading == s.last || (s.pending.Some? && s.pending.value.signature == o.reading) then
      t
    else
      t.(pending := t.pending[path := PendingChange(o.now, o.reading)])
  }

  /** The first `n` targets of the polling loop: the tables after them and the stable paths. */
  function ReadAll(t: Tables, targets: seq<Target>, readings: seq<Reading>, now: real, n: nat, debounce: real)
    : (Tables, set<string>)
    requires n <= |targets| == |readings|
  {
    if n == 0 then (t, {})
    else
      var (before, stable) := ReadAll(t, targets, readings, now, n - 1, debounce);
      var path, o := targets[n - 1].path, Observation(now, readings[n - 1]);
      (Read(before, path, o, debounce),
       if Reports(before.StateOf(path), o, debounce) then stable + {path} else stable)
  }

  /** A poll gives each path exactly the readings of its own targets, and reports it if and only if
      one of them does. */
  lemma {:induction false} PathsAreIndependent(t: Tables, targets: seq<Target>, readings: seq<Reading>, now: real,
                                               path: string, n: nat, debounce: real)
    requires n <= |targets| == |readings|
    ensures var (after, stable) := ReadAll(t, targets, readings, now, n, debounce);
            var seen := Seen(targets, readings, now, path, n);
            && after.StateOf(path) == At(t.StateOf(path), seen, |seen|, debounce)
            && (path in stable <==> ReportCount(t.StateOf(path), seen, |seen|, debounce) > 0)
  {
    if n > 0 {
      PathsAreIndependent(t, targets, readings, now, path, n - 1, debounce);
      var seen := Seen(targets, readings, now, path, n - 1);
      var next := if targets[n - 1].path == path then [Observation(now, readings[n - 1])] else [];
      OnlyThePastMatters(t.StateOf(path), seen, next, |seen|, debounce);
      assert next == [] ==> seen + next == seen;
    }
  }

  datatype PollInput = PollInput(now: real, readings: seq<Reading>)

  predicate Fits(targets: seq<Target>, polls: seq<PollInput>) {
    forall k :: 0 <= k < |polls| ==> |polls[k].readings| == |targets|
  }

  /** The tables after the first `n` polls of a run. */
  function RunPolls(t: Tables, targets: seq<Target>, polls: seq<PollInput>, n: nat, debounce: real): Tables
    requires n <= |polls| && Fits(targets, polls)
  {
    if n == 0 then t
    else
      ReadAll(RunPolls(t, targets, polls, n - 1, debounce), targets, polls[n - 1].readings, polls[n - 1].now, |targets|, debounce).0
  }

  /** Everything the first `n` polls of a run read of a path. */
  function HistoryOf(targets: seq<Target>, polls: seq<PollInput>, path: string, n: nat): seq<Observation>
    requires n <= |polls| && Fits(targets, polls)
  {
    if n == 0 then []
    else HistoryOf(targets, polls, path, n - 1) + Seen(targets, polls[n - 1].readings, polls[n - 1].now, path, |targets|)
  }

  lemma {:induction false} HistoriesChain(s: PathState, history: seq<Observation>, later: seq<Observation>, n: nat, debounce: real)
    requires n <= |later|
    ensures At(s, history + later, |history| + n, debounce) == At(At(s, history, |history|, debounce), later, n, debounce)
  {
    if n == 0 {
      OnlyThePastMatters(s, history, later, |history|, debounce);
    } else {
      HistoriesChain(s, history, later, n - 1, debounce);
    }
  }

  lemma {:induction false} CountedIffReported(s: PathState, history: seq<Observation>, n: nat, debounce: real)
    requires n <= |history|
    ensures ReportCount(s, history, n, debounce) > 0 <==> exists i :: 0 <= i < n && Reported(s, history, i, debounce)
  {
    if n > 0 {
      CountedIffReported(s, history, n - 1, debounce);
    }
  }

  /** Over a whole run of polls each path goes through its own history. */
  lemma {:induction false} RunsFollowPathHistories(t: Tables, targets: seq<Target>, polls: seq<PollInput>, path: string, n: nat, debounce: real)
    requires n <= |polls| && Fits(targets, polls)
    ensures var history := HistoryOf(targets, polls, path, n);
            RunPolls(t, targets, polls, n, debounce).StateOf(path) == At(t.StateOf(path), history, |history|, debounce)
  {
    if n > 0 {
      RunsFollowPathHistories(t, targets, polls, path, n - 1, debounce);
      var seen := Seen(targets, polls[n - 1].readings, polls[n - 1].now, path, |targets|);
      PathsAreIndependent(RunPolls(t, targets, polls, n - 1, debounce), targets, polls[n - 1].readings, polls[n - 1].now, path, |targets|, debounce);
      HistoriesChain(t.StateOf(path), HistoryOf(targets, polls, path, n - 1), seen, |seen|, debounce);
    }
  }

  /** Poll `n` of a run reports a path if and only if one of the readings it takes of that path is
      a report in the path's history. */
  lemma PollReportsIffHistoryDoes(t: Tables, targets: seq<Target>, polls: seq<PollInput>, path: string, n: nat, debounce: real)
    requires n < |polls| && Fits(targets, polls)
    ensures var history := HistoryOf(targets, polls, path, n + 1);
            var before := RunPolls(t, targets, polls, n, debounce);
            path in ReadAll(before, targets, polls[n].readings, polls[n].now, |targets|, debounce).1 <==>
            exists i :: |HistoryOf(targets, polls, path, n)| <= i < |history| && Reported(t.StateOf(path), history, i, debounce)
  {
    RunsFollowPathHistories(t, targets, polls, path, n, debounce);
    PathsAreIndependent(RunPolls(t, targets, polls, n, debounce), targets, polls[n].readings, polls[n].now, path, |targets|, debounce);
    SegmentReports(t.StateOf(path), HistoryOf(targets, polls, path, n),
                   Seen(targets, polls[n].readings, polls[n].now, path, |targets|), debounce);
  }

  /** The reports in the later part of a history are those of that part on its own. */
  lemma SegmentReports(s: PathState, before: seq<Observation>, seen: seq<Observation>, debounce: real)
    ensures ReportCount(At(s, before, |before|, debounce), seen, |seen|, debounce) > 0 <==>
            exists i :: |before| <= i < |before + seen| && Reported(s, before + seen, i, debounce)
  {
    var middle := At(s, before, |before|, debounce);
    CountedIffReported(middle, seen, |seen|, debounce);
    forall i | 0 <= i < |seen|
      ensures Reported(middle, seen, i, debounce) == Reported(s, before + seen, |before| + i, debounce)
    {
      HistoriesChain(s, before, seen, i, debounce);
    }
    if i :| |before| <= i < |before + seen| && Reported(s, before + seen, i, debounce) {
      assert Reported(middle, seen, i - |before|, debounce);
    }
  }

  class PollingAuditWatcher {
    const targets: seq<Target>
    const debounceSeconds: real
    const periodicSeconds: real
    var lastSignatures: map<string, Reading>
    var pending: map<string, PendingChange>
    var nextPeriodicAt: Option<real>
    var runCounter: nat
    var triggered: seq<WatchEvent>  // the audit.triggered events, in order

    ghost function State(): Tables
      reads this`lastSignatures, this`pending
    {
      Tables(lastSignatures, pending)
    }

    constructor (targets: seq<Target>, debounceSeconds: real, periodicSeconds: real, initial: string -> Reading)
      ensures this.targets == targets && this.debounceSeconds == debounceSeconds && this.periodicSeconds == periodicSeconds
      ensures forall t :: t in targets ==> State().StateOf(t.path) == PathState(initial(t.path), None)
      ensures State().pending == map[] && nextPeriodicAt == None && runCounter == 0 && triggered == []
    {
      this.targets := targets;
      this.debounceSeconds := debounceSeconds;
      this.periodicSeconds := periodicSeconds;
      lastSignatures := map path | path in Paths(targets) :: initial(path);
      pending := map[];
      nextPeriodicAt := None;
      runCounter := 0;
      triggered := [];
      new;
      forall t | t in targets
        ensures t.path in lastSignatures
      {
        var i :| 0 <= i < |targets| && targets[i] == t;
        assert Paths(targets)[i] == t.path;
      }
    }

    /** The targets on the paths this poll reports. */
    ghost function ChangedBy(now: real, readings: seq<Reading>): seq<Target>
      requires |readings| == |targets|
      reads this`lastSignatures, this`pending
    {
      On(targets, ReadAll(State(), targets, readings, now, |targets|, debounceSeconds).1)
    }

    method StableChangedTargets(now: real, readings: seq<Reading>) returns (changed: seq<Target>)
      requires |readings| == |targets|
      modifies this`lastSignatures, this`pending
      ensures State() == ReadAll(old(State()), targets, readings, now, |targets|, debounceSeconds).0
      ensures changed == old(ChangedBy(now, readings))
    {
      var stablePaths: set<string> := {};
      var i := 0;
      while i < |targets|
        invariant 0 <= i <= |targets|
        invariant ReadAll(old(State()), targets, readings, now, i, debounceSeconds) == (State(), stablePaths)
      {
        var path, signature := targets[i].path, readings[i];
        if signature == (if path in lastSignatures then lastSignatures[path] else None) {
          if path in pending && now - pending[path].firstSeenAt >= debounceSeconds {
            stablePaths := stablePaths + {path};
            lastSignatures := lastSignatures[path := pending[path].signature];
            pending := pending - {path};
          }
        } else if path !in pending || pending[path].signature != signature {
          pending := pending[path := PendingChange(now, signature)];
        } else if now - pending[path].firstSeenAt >= debounceSeconds {
          stablePaths := stablePaths + {path};
          lastSignatures := lastSignatures[path := signature];
          pending := pending - {path};
        }
        i := i + 1;
      }
      changed := TargetsOn(stablePaths);
    }

    /** The list comprehension over the targets. */
    method TargetsOn(paths: set<string>) returns (found: seq<Target>)
      ensures found == On(targets, paths)
    {
      found := [];
      var i := 0;
      while i < |targets|
        invariant 0 <= i <= |targets|
        invariant found == On(targets[..i], paths)
      {
        assert targets[..i + 1][..i] == targets[..i];
        if targets[i].path in paths {
          found := found + [targets[i]];
        }
        i := i + 1;
      }
      assert targets[..|targets|] == targets;
    }

    method RunAudit(audited: seq<Target>, trigger: Trigger, end: AuditEnd) returns (event: WatchEvent, raised: bool)
      modifies this`runCounter, this`triggered
      ensures runCounter == old(runCounter) + 1
      ensures event == WatchEvent(trigger, Paths(audited), runCounter)
      ensures raised == (end != Completes)
      ensures triggered == old(triggered) + Recorded([event], end)
    {
      runCounter := runCounter + 1;
      event := WatchEvent(trigger, Paths(audited), runCounter);
      if end != EventRefused {
        triggered := triggered + [event];
      }
      raised := end != Completes;
    }

    method RunStartupAudit(now: real, end: AuditEnd) returns (event: WatchEvent, raised: bool)
      modifies this`nextPeriodicAt, this`runCounter, this`triggered
      ensures nextPeriodicAt == Some(now + periodicSeconds)
      ensures event == WatchEvent(Startup, Paths(targets), old(runCounter) + 1) && runCounter == event.run
      ensures raised == (end != Completes)
      ensures triggered == old(triggered) + Recorded([event], end)
    {
      nextPeriodicAt := Some(now + periodicSeconds);
      event, raised := RunAudit(targets, Startup, end);
    }

    /** The file_change half of a poll. */
    method RunChangedAudit(changed: seq<Target>, end: AuditEnd) returns (events: seq<WatchEvent>, raised: bool)
      modifies this`runCounter, this`triggered
      ensures events == FileChangeEvents(changed, old(runCounter))
      ensures raised == (changed != [] && end != Completes)
      ensures runCounter == old(runCounter) + |events|
      ensures triggered == old(triggered) + Recorded(events, end)
    {
      events, raised := [], false;
      if changed != [] {
        var event;
        event, raised := RunAudit(changed, FileChange, end);
        events := [event];
      }
    }

    /** The periodic half of a poll. */
    method RunDueAudit(now: real, end: AuditEnd) returns (events: seq<WatchEvent>, raised: bool)
      modifies this`nextPeriodicAt, this`runCounter, this`triggered
      ensures nextPeriodicAt == Schedule(old(nextPeriodicAt), ScheduledPoll(now, true, end == Completes), periodicSeconds)
      ensures events == PeriodicEvents(StartsPeriodic(old(nextPeriodicAt), ScheduledPoll(now, true, end == Completes), periodicSeconds),
                                       old(runCounter))
      ensures raised == (events != [] && end != Completes)
      ensures runCounter == old(runCounter) + |events|
      ensures triggered == old(triggered) + Recorded(events, end)
    {
      if nextPeriodicAt.None? {
        nextPeriodicAt := Some(now + periodicSeconds);
      }
      events, raised := [], false;
      if now >= nextPeriodicAt.value {
        var event;
        event, raised := RunAudit(targets, Periodic, end);
        events := [event];
        if !raised {
          nextPeriodicAt := Some(now + periodicSeconds);
        }
      }
    }

    ghost function FileChangeEvents(changed: seq<Target>, counter: nat): seq<WatchEvent> {
      if changed == [] then [] else [WatchEvent(FileChange, Paths(changed), counter + 1)]
    }

    ghost function PeriodicEvents(starts: bool, counter: nat): seq<WatchEvent> {
      if starts then [WatchEvent(Periodic, Paths(targets), counter + 1)] else []
    }

    /** One poll.  An audit that raises ends it: the events collected so far are lost to the
        caller, and a periodic audit that raises leaves its due time for the next poll to retry. */
    method Poll(now: real, readings: seq<Reading>, fileEnd: AuditEnd, periodicEnd: AuditEnd)
      returns (events: seq<WatchEvent>, raised: bool)
      requires |readings| == |targets|
      modifies this
      ensures State() == ReadAll(old(State()), targets, readings, now, |targets|, debounceSeconds).0
      ensures var changed := old(ChangedBy(now, readings));
              var poll := ScheduledPoll(now, changed == [] || fileEnd == Completes, periodicEnd == Completes);
              var starts := StartsPeriodic(old(nextPeriodicAt), poll, periodicSeconds);
              var first := if changed == [] then [] else [WatchEvent(FileChange, Paths(changed), old(runCounter) + 1)];
              var second := if starts then [WatchEvent(Periodic, Paths(targets), old(runCounter) + |first| + 1)] else [];
              && nextPeriodicAt == Schedule(old(nextPeriodicAt), poll, periodicSeconds)
              && raised == (!poll.reached || (starts && !poll.completes))
              && events == (if raised then [] else first + second)
              && runCounter == old(runCounter) + |first| + |second|
              && triggered == old(triggered) + (if fileEnd == EventRefused then [] else first)
                              + (if periodicEnd == EventRefused then [] else second)
    {
      var changed := StableChangedTargets(now, readings);
      events, raised := RunChangedAudit(changed, fileEnd);
      if raised {
        events := [];
        return;
      }
      var periodic;
      periodic, raised := RunDueAudit(now, periodicEnd);
      events := if raised then [] else events + periodic;
    }
  }
}
