/** From a webhook delivery to the Run that answers it: debounce, the dirty flag, the queue and the scheduler's claim.
    (django_connectors/webhooks/views.py _schedule, django_connectors/scheduler/base.py,
    django_connectors/services/runs.py) */
module Delivery {
  import opened Values

  type RunId = nat
  type DeliveryId = nat
  type SchedulerId = nat

  // ---------------------------------------------------------------- one Binding's row and its Runs

  datatype RunStatus = Queued | Running | Skipped | Finished

  /** `keyed` is a set `dedupe_key`, which the database keeps unique per Binding. */
  datatype RunRow = RunRow(status: RunStatus, keyed: bool)

  type Runs = map<RunId, RunRow>

  /** `usable` says the Binding is runnable and its Connection usable. */
  datatype Row = Row(usable: bool, dirty: bool, nextRunAt: Option<int>, lastSuccessAt: Option<int>,
                     lastFailureAt: Option<int>, minRunInterval: Option<int>, pollInterval: int)

  ghost predicate HasQueued(runs: Runs) { exists run :: run in runs && runs[run].keyed }

  /** The INSERT of `enqueue_run`: refused by the unique key when a queued Run already stands. */
  ghost function Enqueued(runs: Runs, run: RunId): Runs {
    if HasQueued(runs) || run in runs then runs else runs[run := RunRow(Queued, true)]
  }

  predicate Due(row: Row, now: int) {
    row.usable && (row.dirty || row.nextRunAt.None? || row.nextRunAt.value <= now)
  }

  /** The earliest moment a Binding may run again, if anything holds it back. */
  function MinIntervalFloor(row: Row): (floor: Option<int>)
    ensures floor.None?
       <==> row.minRunInterval in {None, Some(0)} || (row.lastSuccessAt.None? && row.lastFailureAt.None?)
    ensures floor.Some? ==>
              forall at :: row.lastSuccessAt == Some(at) || row.lastFailureAt == Some(at)
                ==> at + row.minRunInterval.value <= floor.value
    ensures floor.Some? ==>
              exists at :: (row.lastSuccessAt == Some(at) || row.lastFailureAt == Some(at))
                           && at + row.minRunInterval.value == floor.value
  {
    if row.minRunInterval in {None, Some(0)} then None
    else
      var last :=
        match (row.lastSuccessAt, row.lastFailureAt)
        case (None, failed) => failed
        case (ok, None) => ok
        case (Some(a), Some(b)) => Some(if a >= b then a else b);
      if last.None? then None
      else
        assert row.lastSuccessAt == Some(last.value) || row.lastFailureAt == Some(last.value);
        Some(last.value + row.minRunInterval.value)
  }

  predicate HeldBack(row: Row, now: int) { MinIntervalFloor(row).Some? && MinIntervalFloor(row).value > now }

  /** How many of these Bindings a sweep at `now` claims. */
  function Allowed(rows: seq<Row>, now: int): nat {
    if rows == [] then 0
    else Allowed(rows[..|rows| - 1], now) + if HeldBack(rows[|rows| - 1], now) then 0 else 1
  }

  function Deferred(row: Row, until: int): Row { row.(nextRunAt := Some(until)) }

  /** The claim is a compare-and-swap on the `next_run_at` that was selected. */
  predicate ClaimWins(row: Row, selected: Option<int>) { row.nextRunAt == selected }

  function Claimed(row: Row, selected: Option<int>, now: int): Row {
    if ClaimWins(row, selected) then row.(nextRunAt := Some(now + row.pollInterval), dirty := false) else row
  }

  /** A Binding as the scheduler and the webhook view change it. */
  class Binding {
    var usable: bool
    var dirty: bool
    var nextRunAt: Option<int>
    var lastSuccessAt: Option<int>
    var lastFailureAt: Option<int>
    var minRunInterval: Option<int>
    var pollInterval: int
    var runs: Runs

    ghost function Snapshot(): Row
      reads this
    {
      Row(usable, dirty, nextRunAt, lastSuccessAt, lastFailureAt, minRunInterval, pollInterval)
    }

    constructor (pollInterval: int, minRunInterval: Option<int>)
      ensures Snapshot() == Row(true, false, None, None, None, minRunInterval, pollInterval) && runs == map[]
    {
      usable, dirty, nextRunAt, lastSuccessAt, lastFailureAt := true, false, None, None, None;
      this.minRunInterval, this.pollInterval, runs := minRunInterval, pollInterval, map[];
    }

    method EnqueueRun(run: RunId) returns (queued: RunId)
      requires run !in runs
      modifies this`runs
      ensures runs == Enqueued(old(runs), run)
      ensures queued in runs && runs[queued].keyed
    {
      if other :| other in runs && runs[other].keyed {
        queued := other;
      } else {
        runs := runs[run := RunRow(Queued, true)];
        queued := run;
        assert queued in runs;
      }
    }

    /** `first` is what `cache.add` answers; every outcome leaves a trace of the delivery behind. */
    method Schedule(first: bool, run: RunId) returns (answer: string)
      requires run !in runs
      modifies this`dirty, this`runs
      ensures answer == if !usable then "deferred" else if !first then "debounced" else "accepted"
      ensures Snapshot() == old(Snapshot()).(dirty := old(dirty) || answer != "accepted")
      ensures runs == if answer == "accepted" then Enqueued(old(runs), run) else old(runs)
      ensures dirty || HasQueued(runs)
    {
      if !usable {
        dirty := true;
        return "deferred";
      }
      if !first {
        dirty := true;
        return "debounced";
      }
      var queued := EnqueueRun(run);
      answer := "accepted";
    }

    method Claim(selected: Option<int>, now: int) returns (won: bool)
      modifies this`nextRunAt, this`dirty
      ensures won <==> old(nextRunAt) == selected
      ensures Snapshot() == Claimed(old(Snapshot()), selected, now)
    {
      won := nextRunAt == selected;
      if won {
        nextRunAt, dirty := Some(now + pollInterval), false;
      }
    }

    /** One Binding's turn in a sweep that selected it: held back by the floor, or claimed and queued. */
    method Turn(now: int, run: RunId) returns (queued: Option<RunId>)
      requires run !in runs
      modifies this`nextRunAt, this`dirty, this`runs
      ensures queued.Some? <==> !HeldBack(old(Snapshot()), now)
      ensures TurnTaken(old(Snapshot()), old(runs), now, run, Snapshot(), runs)
      ensures var floor := MinIntervalFloor(old(Snapshot()));
              if HeldBack(old(Snapshot()), now)
              then queued == None && Snapshot() == Deferred(old(Snapshot()), floor.value) && runs == old(runs)
              else queued.Some? && queued.value in runs && runs[queued.value].keyed
                   && Snapshot() == old(Snapshot()).(nextRunAt := Some(now + pollInterval), dirty := false)
                   && runs == Enqueued(old(runs), run)
    {
      var selected := nextRunAt;
      var row := Row(usable, dirty, nextRunAt, lastSuccessAt, lastFailureAt, minRunInterval, pollInterval);
      var floor := MinIntervalFloor(row);
      if floor.Some? && floor.value > now {
        nextRunAt := floor;
        return None;
      }
      var won := Claim(selected, now);
      assert won;
      var existing := EnqueueRun(run);
      queued := Some(existing);
    }
  }

  /** What one turn makes of a Binding's row and Runs. */
  ghost predicate TurnTaken(before: Row, runsBefore: Runs, now: int, run: RunId, after: Row, runsAfter: Runs) {
    if HeldBack(before, now)
    then after == Deferred(before, MinIntervalFloor(before).value) && runsAfter == runsBefore
    else after == before.(nextRunAt := Some(now + before.pollInterval), dirty := false)
         && runsAfter == Enqueued(runsBefore, run) && HasQueued(runsAfter)
  }

  lemma NoneAllowed(now: int)
    ensures Allowed([], now) == 0
  {
  }

  lemma OneMoreAllowed(rows: seq<Row>, i: nat, now: int)
    requires i < |rows|
    ensures Allowed(rows[..i + 1], now) == Allowed(rows[..i], now) + if HeldBack(rows[i], now) then 0 else 1
  {
    assert rows[..i + 1][..i] == rows[..i];
  }

  /** One sweep, with no other scheduler about: every due Binding is held back by its floor or has its Run queued. */
  method RunDueBindings(due: seq<Binding>, now: int, run: RunId) returns (queued: seq<RunId>)
    requires forall i, j :: 0 <= i < j < |due| ==> due[i] != due[j]
    requires forall i :: 0 <= i < |due| ==> run !in due[i].runs
    modifies set i | 0 <= i < |due| :: due[i]
    ensures |queued| == Allowed(old(seq(|due|, i requires 0 <= i < |due| reads due => due[i].Snapshot())), now)
    ensures forall i :: 0 <= i < |due| ==>
              TurnTaken(old(due[i].Snapshot()), old(due[i].runs), now, run, due[i].Snapshot(), due[i].runs)
  {
    hide TurnTaken, HeldBack, MinIntervalFloor, Enqueued, Allowed;
    queued := [];
    NoneAllowed(now);
    ghost var rows := seq(|due|, i requires 0 <= i < |due| reads due => due[i].Snapshot());
    for i := 0 to |due|
      invariant |queued| == Allowed(rows[..i], now)
      invariant forall j :: i <= j < |due| ==>
                  due[j].Snapshot() == old(due[j].Snapshot()) && due[j].runs == old(due[j].runs)
      invariant forall j :: 0 <= j < i ==>
                  TurnTaken(old(due[j].Snapshot()), old(due[j].runs), now, run, due[j].Snapshot(), due[j].runs)
    {
      var answer := due[i].Turn(now, run);
      if answer.Some? {
        queued := queued + [answer.value];
      }
      OneMoreAllowed(rows, i, now);
    }
    assert rows[..|due|] == rows;
  }

  // ---------------------------------------------------------------- every interleaving

  /** A delivery between the statements of its request, then answered and waiting for a Run to start after it. */
  datatype Phase = Arrived | Deferring | Debouncing | Winning | Answered(honoured: Honour)

  /** What came after the answer: nothing yet, only skipped Runs, or a Run that started. */
  datatype Honour = Waiting | OnlySkipped | Started

  /** A scheduler holds a selected row, or has claimed the Binding and not yet queued its Run. */
  datatype Scheduler = Away | Selected(next: Option<int>, floor: Option<int>, now: int) | Claiming

  datatype State = State(row: Row, runs: Runs, window: bool, deliveries: map<DeliveryId, Phase>,
                         schedulers: map<SchedulerId, Scheduler>)

  datatype Event =
    | Arrive(d: DeliveryId)
    | Check(d: DeliveryId)
    | Debounce(d: DeliveryId)
    | MarkDirty(d: DeliveryId)
    | Enqueue(d: DeliveryId, run: RunId)
    | WindowEnds
    | Operate(usable: bool)
    | Select(x: SchedulerId, now: int)
    | Defer(x: SchedulerId)
    | Claim(x: SchedulerId)
    | QueueClaimed(x: SchedulerId, run: RunId)
    | Crash(x: SchedulerId)
    | Start(run: RunId)
    | Skip(run: RunId)
    | Finish(run: RunId, ok: bool, now: int)

  function Honoured(deliveries: map<DeliveryId, Phase>, started: bool): map<DeliveryId, Phase> {
    map d | d in deliveries ::
      if !deliveries[d].Answered? then deliveries[d]
      else if started then Answered(Started)
      else if deliveries[d].honoured.Waiting? then Answered(OnlySkipped)
      else deliveries[d]
  }

  predicate At(s: State, d: DeliveryId, phase: Phase) { d in s.deliveries && s.deliveries[d] == phase }

  /** One statement of one request, scheduler or worker. `Start` and `Skip` take any Run, queued or not. */
  ghost predicate Next(s: State, e: Event, t: State) {
    match e
    case Arrive(d) => d !in s.deliveries && t == s.(deliveries := s.deliveries[d := Arrived])
    case Check(d) =>
      && At(s, d, Arrived)
      && t == s.(deliveries := s.deliveries[d := if s.row.usable then Debouncing else Deferring])
    case Debounce(d) =>
      && At(s, d, Debouncing)
      && t == s.(window := true, deliveries := s.deliveries[d := if s.window then Deferring else Winning])
    case MarkDirty(d) =>
      && At(s, d, Deferring)
      && t == s.(row := s.row.(dirty := true), deliveries := s.deliveries[d := Answered(Waiting)])
    case Enqueue(d, run) =>
      && At(s, d, Winning) && run !in s.runs
      && t == s.(runs := Enqueued(s.runs, run), deliveries := s.deliveries[d := Answered(Waiting)])
    case WindowEnds => t == s.(window := false)
    case Operate(usable) => t == s.(row := s.row.(usable := usable))
    case Select(x, now) =>
      && (x in s.schedulers ==> s.schedulers[x].Away?) && Due(s.row, now)
      && t == s.(schedulers := s.schedulers[x := Selected(s.row.nextRunAt, MinIntervalFloor(s.row), now)])
    case Defer(x) =>
      && x in s.schedulers && s.schedulers[x].Selected?
      && s.schedulers[x].floor.Some? && s.schedulers[x].floor.value > s.schedulers[x].now
      && t == s.(row := Deferred(s.row, s.schedulers[x].floor.value), schedulers := s.schedulers[x := Away])
    case Claim(x) =>
      && x in s.schedulers && s.schedulers[x].Selected?
      && !(s.schedulers[x].floor.Some? && s.schedulers[x].floor.value > s.schedulers[x].now)
      && t == s.(row := Claimed(s.row, s.schedulers[x].next, s.schedulers[x].now),
                 schedulers := s.schedulers[x := if ClaimWins(s.row, s.schedulers[x].next) then Claiming else Away])
    case QueueClaimed(x, run) =>
      && x in s.schedulers && s.schedulers[x].Claiming? && run !in s.runs
      && t == s.(runs := Enqueued(s.runs, run), schedulers := s.schedulers[x := Away])
    case Crash(x) => x in s.schedulers && t == s.(schedulers := s.schedulers[x := Away])
    case Start(run) =>
      t == s.(runs := s.runs[run := RunRow(Running, false)], deliveries := Honoured(s.deliveries, true))
    case Skip(run) =>
      t == s.(runs := s.runs[run := RunRow(Skipped, false)], deliveries := Honoured(s.deliveries, false))
    case Finish(run, ok, now) =>
      && run in s.runs && s.runs[run].status.Running?
      && t == s.(runs := s.runs[run := RunRow(Finished, false)],
                 row := if ok then s.row.(lastSuccessAt := Some(now)) else s.row.(lastFailureAt := Some(now)))
  }

  ghost predicate Initial(s: State) {
    s.runs == map[] && s.deliveries == map[] && s.schedulers == map[] && !s.row.dirty
  }

  ghost predicate Trace(states: seq<State>, events: seq<Event>) {
    && |states| == |events| + 1
    && Initial(states[0])
    && forall i :: 0 <= i < |events| ==> Next(states[i], events[i], states[i + 1])
  }

  lemma IsNext(states: seq<State>, events: seq<Event>, n: nat)
    requires Trace(states, events) && n < |events|
    ensures |states| == |events| + 1 && Next(states[n], events[n], states[n + 1])
  {
  }

  ghost predicate SomeoneClaims(s: State) { exists x :: x in s.schedulers && s.schedulers[x].Claiming? }

  /** Something is left that will bring a Run. */
  ghost predicate Remembered(s: State) { s.row.dirty || HasQueued(s.runs) || SomeoneClaims(s) }

  predicate Forgettable(s: State, d: DeliveryId) { At(s, d, Answered(Waiting)) }

  ghost predicate NothingVanished(s: State) { forall d :: Forgettable(s, d) ==> Remembered(s) }

  ghost predicate OneQueued(runs: Runs) {
    && (forall r1, r2 :: r1 in runs && r2 in runs && runs[r1].keyed && runs[r2].keyed ==> r1 == r2)
    && (forall r :: r in runs ==> (runs[r].keyed <==> runs[r].status.Queued?))
  }

  lemma StepKeepsOneQueued(s: State, e: Event, t: State)
    requires OneQueued(s.runs) && Next(s, e, t)
    ensures OneQueued(t.runs)
  {
  }

  lemma EnqueueLeavesOne(runs: Runs, run: RunId)
    requires run !in runs
    ensures HasQueued(Enqueued(runs, run))
  {
    if !HasQueued(runs) { assert run in Enqueued(runs, run); }
  }

  /** A step other than a crash leaves what was remembered remembered, unless it starts or skips a Run. */
  lemma StepRemembers(s: State, e: Event, t: State)
    requires Next(s, e, t) && OneQueued(s.runs) && Remembered(s) && !e.Crash? && !e.Start? && !e.Skip?
    ensures Remembered(t)
  {
    hide Due, MinIntervalFloor;
    match e {
      case Enqueue(d, run) => EnqueueLeavesOne(s.runs, run);
      case QueueClaimed(x, run) => EnqueueLeavesOne(s.runs, run);
      case Claim(x) =>
        if ClaimWins(s.row, s.schedulers[x].next) { assert t.schedulers[x].Claiming?; }
        else if SomeoneClaims(s) { KeepsClaiming(s, t, x); }
      case Finish(run, ok, now) => if HasQueued(s.runs) { KeepsQueued(s.runs, t.runs, run); }
      case Select(x, now) => if SomeoneClaims(s) { KeepsClaiming(s, t, x); }
      case Defer(x) => if SomeoneClaims(s) { KeepsClaiming(s, t, x); }
      case _ =>
    }
  }

  lemma KeepsClaiming(s: State, t: State, x: SchedulerId)
    requires SomeoneClaims(s) && (x in s.schedulers ==> !s.schedulers[x].Claiming?)
    requires forall y :: y in s.schedulers && y != x ==> y in t.schedulers && t.schedulers[y] == s.schedulers[y]
    ensures SomeoneClaims(t)
  {
    var y :| y in s.schedulers && s.schedulers[y].Claiming?;
    assert t.schedulers[y].Claiming?;
  }

  lemma KeepsQueued(before: Runs, after: Runs, run: RunId)
    requires HasQueued(before) && run in before && before[run].status.Running? && OneQueued(before)
    requires after == before[run := RunRow(Finished, false)]
    ensures HasQueued(after)
  {
    var other :| other in before && before[other].keyed;
    assert after[other].keyed;
  }

  lemma StepKeepsPromise(s: State, e: Event, t: State)
    requires Next(s, e, t) && OneQueued(s.runs) && NothingVanished(s) && !CrashInClaim(s, e)
    ensures NothingVanished(t)
  {
    forall d | Forgettable(t, d) ensures Remembered(t) {
      if Forgettable(s, d) && e.Crash? {
        if SomeoneClaims(s) { KeepsClaiming(s, t, e.x); }
      } else if Forgettable(s, d) && !e.Start? && !e.Skip? {
        StepRemembers(s, e, t);
      } else if e.Enqueue? {
        EnqueueLeavesOne(s.runs, e.run);
      }
    }
  }

  /** A scheduler dies after clearing `dirty` and before queueing the Run. */
  predicate CrashInClaim(s: State, e: Event) {
    e.Crash? && e.x in s.schedulers && s.schedulers[e.x].Claiming?
  }

  ghost predicate NoCrashInClaim(states: seq<State>, events: seq<Event>)
    requires |states| == |events| + 1
  {
    forall i :: 0 <= i < |events| ==> !CrashInClaim(states[i], events[i])
  }

  /** At most one Run is ever queued, under every interleaving and every crash. */
  lemma {:induction false} AtMostOneQueued(states: seq<State>, events: seq<Event>, i: nat)
    requires Trace(states, events) && i < |states|
    ensures OneQueued(states[i].runs)
  {
    if i > 0 {
      AtMostOneQueued(states, events, i - 1);
      StepKeepsOneQueued(states[i - 1], events[i - 1], states[i]);
    }
  }

  /** No delivery silently vanishes: once answered, until a Run starts or is recorded as skipped after it, the dirty
      flag is up, or a Run is queued, or a scheduler is about to queue one. */
  lemma {:induction false} NoDeliveryVanishes(states: seq<State>, events: seq<Event>, i: nat)
    requires Trace(states, events) && NoCrashInClaim(states, events) && i < |states|
    ensures NothingVanished(states[i])
  {
    if i > 0 {
      NoDeliveryVanishes(states, events, i - 1);
      AtMostOneQueued(states, events, i - 1);
      StepKeepsPromise(states[i - 1], events[i - 1], states[i]);
    }
  }

  ghost predicate OtherClaims(s: State, x: SchedulerId) {
    exists y :: y in s.schedulers && y != x && s.schedulers[y].Claiming?
  }

  // ---------------------------------------------------------------- the class's calls are such steps

  ghost predicate Steps(states: seq<State>, events: seq<Event>) {
    && |states| == |events| + 1
    && forall i :: 0 <= i < |events| ==> Next(states[i], events[i], states[i + 1])
  }

  /** `Binding.Schedule` is the statements of one request with nothing in between. */
  lemma ScheduleIsItsStatements(s: State, d: DeliveryId, run: RunId) returns (states: seq<State>, events: seq<Event>)
    requires At(s, d, Arrived) && run !in s.runs
    ensures Steps(states, events) && states[0] == s
    ensures var t, accepted := states[|events|], s.row.usable && !s.window;
            && t.row == s.row.(dirty := s.row.dirty || !accepted)
            && t.runs == (if accepted then Enqueued(s.runs, run) else s.runs)
            && At(t, d, Answered(Waiting))
  {
    hide Due, MinIntervalFloor;
    if s.row.usable {
      var checked := s.(deliveries := s.deliveries[d := Debouncing]);
      var asked := s.(window := true, deliveries := s.deliveries[d := if s.window then Deferring else Winning]);
      var answered := s.deliveries[d := Answered(Waiting)];
      var t := if s.window then asked.(row := s.row.(dirty := true), deliveries := answered)
               else asked.(runs := Enqueued(s.runs, run), deliveries := answered);
      events := [Check(d), Debounce(d), if s.window then MarkDirty(d) else Enqueue(d, run)];
      states := [s, checked, asked, t];
      assert Next(s, events[0], checked) && Next(checked, events[1], asked) && Next(asked, events[2], t);
    } else {
      var checked := s.(deliveries := s.deliveries[d := Deferring]);
      var t := checked.(row := s.row.(dirty := true), deliveries := s.deliveries[d := Answered(Waiting)]);
      events := [Check(d), MarkDirty(d)];
      states := [s, checked, t];
      assert Next(s, events[0], checked) && Next(checked, events[1], t);
    }
  }

  /** `Binding.Turn` is the statements of one scheduler on a due Binding with nothing in between. */
  lemma TurnIsItsStatements(s: State, x: SchedulerId, now: int, run: RunId)
    returns (states: seq<State>, events: seq<Event>)
    requires (x in s.schedulers ==> s.schedulers[x].Away?) && Due(s.row, now) && run !in s.runs
    ensures Steps(states, events) && states[0] == s
    ensures TurnTaken(s.row, s.runs, now, run, states[|events|].row, states[|events|].runs)
  {
    hide Due, MinIntervalFloor, Enqueued, HasQueued;
    var floor := MinIntervalFloor(s.row);
    var selected := s.(schedulers := s.schedulers[x := Selected(s.row.nextRunAt, floor, now)]);
    assert Next(s, Select(x, now), selected);
    if HeldBack(s.row, now) {
      var t := selected.(row := Deferred(s.row, floor.value), schedulers := selected.schedulers[x := Away]);
      events := [Select(x, now), Defer(x)];
      states := [s, selected, t];
      assert Next(selected, events[1], t);
    } else {
      var row := Claimed(s.row, s.row.nextRunAt, now);
      var claimed := selected.(row := row, schedulers := selected.schedulers[x := Claiming]);
      var t := claimed.(runs := Enqueued(s.runs, run), schedulers := claimed.schedulers[x := Away]);
      events := [Select(x, now), Claim(x), QueueClaimed(x, run)];
      states := [s, selected, claimed, t];
      assert Next(selected, events[1], claimed);
      assert Next(claimed, events[2], t);
      EnqueueLeavesOne(s.runs, run);
    }
  }

  // ---------------------------------------------------------------- when a Binding is due, and who claims it

  /** The steps that move `next_run_at`: a deferral, or a claim that wins. */
  ghost predicate Reschedules(s: State, e: Event) {
    || e.Defer?
    || (e.Claim? && HasSelected(s, e.x) && ClaimWins(s.row, s.schedulers[e.x].next))
  }

  predicate HasSelected(s: State, x: SchedulerId) { x in s.schedulers && s.schedulers[x].Selected? }

  ghost predicate NotRescheduled(states: seq<State>, events: seq<Event>, i: nat, j: nat)
    requires i <= j <= |events| && |states| == |events| + 1
  {
    forall k :: i <= k < j ==> !Reschedules(states[k], events[k])
  }

  predicate MarkedDirty(events: seq<Event>, i: nat, j: nat)
    requires i <= j <= |events|
  {
    exists k :: i <= k < j && events[k].MarkDirty?
  }

  lemma OneMore(states: seq<State>, events: seq<Event>, i: nat, j: nat)
    requires i < j <= |events| && |states| == |events| + 1 && NotRescheduled(states, events, i, j)
    ensures NotRescheduled(states, events, i, j - 1) && !Reschedules(states[j - 1], events[j - 1])
    ensures MarkedDirty(events, i, j) <==> MarkedDirty(events, i, j - 1) || events[j - 1].MarkDirty?
  {
  }

  lemma StepKeepsRow(s: State, e: Event, t: State)
    requires Next(s, e, t) && !Reschedules(s, e)
    ensures t.row.nextRunAt == s.row.nextRunAt && t.row.pollInterval == s.row.pollInterval
    ensures t.row.dirty <==> s.row.dirty || e.MarkDirty?
  {
    hide Due, MinIntervalFloor, Enqueued, Honoured;
  }

  /** Until it is rescheduled, a row keeps its next run time, and is dirty if it was or a delivery marked it. */
  lemma {:induction false} RowUntilRescheduled(states: seq<State>, events: seq<Event>, i: nat, j: nat)
    requires Trace(states, events) && i <= j <= |events| && NotRescheduled(states, events, i, j)
    ensures !MarkedDirty(events, i, i)
    ensures states[j].row.nextRunAt == states[i].row.nextRunAt
    ensures states[j].row.pollInterval == states[i].row.pollInterval
    ensures states[j].row.dirty <==> states[i].row.dirty || MarkedDirty(events, i, j)
    decreases j
  {
    if i < j {
      hide Trace, Next, NotRescheduled, Reschedules, MarkedDirty;
      IsNext(states, events, j - 1);
      OneMore(states, events, i, j);
      RowUntilRescheduled(states, events, i, j - 1);
      StepKeepsRow(states[j - 1], events[j - 1], states[j]);
    }
  }

  /** A Binding held back until its floor is selected before then by every sweep, from the moment it is dirty: exactly
      when it was dirty as it was held back, or a delivery has marked it since, until it is next rescheduled. */
  lemma HeldBackIsDueIff(states: seq<State>, events: seq<Event>, i: nat, j: nat, until: int, now: int)
    requires Trace(states, events) && i < j <= |events|
    requires events[i].Defer? && states[i + 1].row.nextRunAt == Some(until)
    requires NotRescheduled(states, events, i + 1, j)
    ensures Due(states[j].row, now)
       <==> states[j].row.usable && (until <= now || states[i].row.dirty || MarkedDirty(events, i, j))
  {
    RowUntilRescheduled(states, events, i + 1, j);
    hide MinIntervalFloor;
    assert Next(states[i], events[i], states[i + 1]);
    if MarkedDirty(events, i, j) {
      var k :| i <= k < j && events[k].MarkDirty?;
      assert k != i;
    }
  }

  /** Of two schedulers, whenever each selected its row: the second one's claim wins too if and only if the first
      wrote back the very time the second had selected. */
  lemma SecondClaimWinsIff(states: seq<State>, events: seq<Event>, i: nat, j: nat)
    requires Trace(states, events) && i < j < |events| && NotRescheduled(states, events, i + 1, j)
    requires events[i].Claim? && Reschedules(states[i], events[i])
    requires events[j].Claim? && HasSelected(states[j], events[j].x)
    ensures var first, second := states[i].schedulers[events[i].x], states[j].schedulers[events[j].x];
            ClaimWins(states[j].row, second.next) <==> second.next == Some(first.now + states[i].row.pollInterval)
  {
    RowUntilRescheduled(states, events, i + 1, j);
    hide MinIntervalFloor, Due;
    assert Next(states[i], events[i], states[i + 1]) && Next(states[j], events[j], states[j + 1]);
  }

  lemma Longer(states: seq<State>, events: seq<Event>, e: Event, t: State)
    requires Trace(states, events) && Next(states[|events|], e, t)
    ensures Trace(states + [t], events + [e])
  {
    hide Next;
    var longer, more := states + [t], events + [e];
    assert forall k :: 0 <= k <= |events| ==> longer[k] == states[k];
    assert forall k :: 0 <= k < |events| ==> more[k] == events[k];
  }

  /** A Binding claimed at `now` already, and dirty again by the time two schedulers reach it in the same moment. */
  lemma DirtyAgain(row: Row, now: int) returns (states: seq<State>, events: seq<Event>)
    requires row.usable && !row.dirty && row.nextRunAt == Some(now + row.pollInterval)
    ensures Trace(states, events)
    ensures events == [Operate(false), Arrive(0), Check(0), MarkDirty(0), Operate(true)]
    ensures states[5] == State(row.(dirty := true), map[], false, map[0 := Answered(Waiting)], map[])
  {
    hide Due, MinIntervalFloor, Enqueued, Honoured;
    var off := row.(usable := false);
    states, events := [State(row, map[], false, map[], map[])], [];
    Longer(states, events, Operate(false), State(off, map[], false, map[], map[]));
    states, events := states + [State(off, map[], false, map[], map[])], events + [Operate(false)];
    Longer(states, events, Arrive(0), State(off, map[], false, map[0 := Arrived], map[]));
    states, events := states + [State(off, map[], false, map[0 := Arrived], map[])], events + [Arrive(0)];
    Longer(states, events, Check(0), State(off, map[], false, map[0 := Deferring], map[]));
    states, events := states + [State(off, map[], false, map[0 := Deferring], map[])], events + [Check(0)];
    var dirty := State(off.(dirty := true), map[], false, map[0 := Answered(Waiting)], map[]);
    Longer(states, events, MarkDirty(0), dirty);
    states, events := states + [dirty], events + [MarkDirty(0)];
    Longer(states, events, Operate(true), dirty.(row := row.(dirty := true)));
    states, events := states + [dirty.(row := row.(dirty := true))], events + [Operate(true)];
  }

  /** Such a history: both claims win, and two schedulers go on to queue a Run for one delivery. */
  lemma BothSchedulersClaim(row: Row, now: int) returns (states: seq<State>, events: seq<Event>)
    requires row.usable && !row.dirty && row.nextRunAt == Some(now + row.pollInterval) && !HeldBack(row, now)
    ensures Trace(states, events)
    ensures events == [Operate(false), Arrive(0), Check(0), MarkDirty(0), Operate(true),
                       Select(0, now), Select(1, now), Claim(0), Claim(1)]
    ensures states[9].schedulers == map[0 := Claiming, 1 := Claiming]
  {
    states, events := DirtyAgain(row, now);
    var s := states[5];
    var floor := MinIntervalFloor(s.row);
    assert floor == MinIntervalFloor(row) && Due(s.row, now);
    hide Due, MinIntervalFloor, Enqueued, Honoured, Trace;
    var held := Selected(row.nextRunAt, floor, now);
    var one, two := s.(schedulers := map[0 := held]), s.(schedulers := map[0 := held, 1 := held]);
    Longer(states, events, Select(0, now), one);
    Longer(states + [one], events + [Select(0, now)], Select(1, now), two);
    states, events := states + [one] + [two], events + [Select(0, now)] + [Select(1, now)];
    var claimed := two.(row := row, schedulers := map[0 := Claiming, 1 := held]);
    Longer(states, events, Claim(0), claimed);
    states, events := states + [claimed], events + [Claim(0)];
    var both := claimed.(schedulers := map[0 := Claiming, 1 := Claiming]);
    Longer(states, events, Claim(1), both);
    states, events := states + [both], events + [Claim(1)];
  }

  // ---------------------------------------------------------------- what a skipped Run does to the promise

  /** Answered, and no Run has started since. */
  predicate Unheard(s: State, d: DeliveryId) {
    d in s.deliveries && s.deliveries[d].Answered? && !s.deliveries[d].honoured.Started?
  }

  ghost predicate NoneForgotten(s: State) { forall d :: Unheard(s, d) ==> Remembered(s) }

  ghost predicate OtherQueued(runs: Runs, run: RunId) {
    exists other :: other in runs && other != run && runs[other].keyed
  }

  /** A crash in a claim, and a skipped Run, leave something behind that will bring another. */
  ghost predicate Spares(s: State, e: Event) {
    match e
    case Crash(x) =>
      CrashInClaim(s, e) && (exists d :: Unheard(s, d)) ==> s.row.dirty || HasQueued(s.runs) || OtherClaims(s, x)
    case Skip(run) =>
      (exists d :: Unheard(s, d)) ==> s.row.dirty || SomeoneClaims(s) || OtherQueued(s.runs, run)
    case _ => true
  }

  lemma SkipSparesIff(s: State, run: RunId, t: State)
    requires Next(s, Skip(run), t)
    ensures NoneForgotten(t) <==> Spares(s, Skip(run))
  {
    assert SomeoneClaims(t) <==> SomeoneClaims(s);
    assert forall d :: Unheard(t, d) <==> Unheard(s, d);
    if OtherQueued(s.runs, run) {
      var other :| other in s.runs && other != run && s.runs[other].keyed;
      assert t.runs[other].keyed;
    }
    if HasQueued(t.runs) {
      var other :| other in t.runs && t.runs[other].keyed;
      assert s.runs[other].keyed;
    }
  }

  lemma CrashSparesIff(s: State, x: SchedulerId, t: State)
    requires Next(s, Crash(x), t) && NoneForgotten(s)
    ensures NoneForgotten(t) <==> Spares(s, Crash(x))
  {
    assert forall d :: Unheard(t, d) <==> Unheard(s, d);
    if SomeoneClaims(t) {
      var y :| y in t.schedulers && t.schedulers[y].Claiming?;
      assert y != x && s.schedulers[y].Claiming?;
    }
    if OtherClaims(s, x) {
      var y :| y in s.schedulers && y != x && s.schedulers[y].Claiming?;
      assert t.schedulers[y].Claiming?;
    }
    if SomeoneClaims(s) && !CrashInClaim(s, Crash(x)) { KeepsClaiming(s, t, x); }
  }

  lemma StepForgetsIff(s: State, e: Event, t: State)
    requires Next(s, e, t) && OneQueued(s.runs) && NoneForgotten(s)
    ensures NoneForgotten(t) <==> Spares(s, e)
  {
    hide Remembered;
    if e.Skip? {
      SkipSparesIff(s, e.run, t);
    } else if e.Crash? {
      CrashSparesIff(s, e.x, t);
    } else if e.Start? {
      assert forall d :: !Unheard(t, d);
    } else {
      OtherStepsRemember(s, e, t);
    }
  }

  lemma OtherStepsRemember(s: State, e: Event, t: State)
    requires Next(s, e, t) && OneQueued(s.runs) && NoneForgotten(s) && !e.Skip? && !e.Crash? && !e.Start?
    ensures NoneForgotten(t)
  {
    forall d | Unheard(t, d) ensures Remembered(t) {
      if Unheard(s, d) {
        StepRemembers(s, e, t);
      } else if e.Enqueue? {
        EnqueueLeavesOne(s.runs, e.run);
      }
    }
  }

  /** Over every history: whatever was answered and no Run has started for since is remembered at every moment if and
      only if each crash in a claim, and each skipped Run, left something else that remembers it. */
  lemma NothingIsForgottenIff(states: seq<State>, events: seq<Event>)
    requires Trace(states, events)
    ensures (forall i :: 0 <= i < |states| ==> NoneForgotten(states[i]))
       <==> (forall i :: 0 <= i < |events| ==> Spares(states[i], events[i]))
  {
    hide Next, Spares, NoneForgotten;
    if forall i :: 0 <= i < |states| ==> NoneForgotten(states[i]) {
      forall i | 0 <= i < |events| ensures Spares(states[i], events[i]) {
        AtMostOneQueued(states, events, i);
        StepForgetsIff(states[i], events[i], states[i + 1]);
      }
    }
    if forall i :: 0 <= i < |events| ==> Spares(states[i], events[i]) {
      forall i | 0 <= i < |states| ensures NoneForgotten(states[i]) {
        SparedIsRemembered(states, events, i);
      }
    }
  }

  lemma {:induction false} SparedIsRemembered(states: seq<State>, events: seq<Event>, n: nat)
    requires Trace(states, events) && n <= |events|
    requires forall i :: 0 <= i < |events| ==> Spares(states[i], events[i])
    ensures NoneForgotten(states[n])
  {
    if n == 0 {
      assert forall d :: !Unheard(states[0], d);
    } else {
      hide Trace, Next, Spares, NoneForgotten, OneQueued;
      SparedIsRemembered(states, events, n - 1);
      AtMostOneQueued(states, events, n - 1);
      IsNext(states, events, n - 1);
      StepForgetsIff(states[n - 1], events[n - 1], states[n]);
    }
  }

  /** One delivery, accepted while another worker holds the lease; its Run is then skipped. */
  function Swallowing(row: Row): seq<State> {
    var queued: Runs := map[7 := RunRow(Queued, true)];
    var skipped: Runs := map[7 := RunRow(Skipped, false)];
    [State(row, map[], false, map[], map[]),
     State(row, map[], false, map[0 := Arrived], map[]),
     State(row, map[], false, map[0 := Debouncing], map[]),
     State(row, map[], true, map[0 := Winning], map[]),
     State(row, queued, true, map[0 := Answered(Waiting)], map[]),
     State(row, skipped, true, map[0 := Answered(OnlySkipped)], map[])]
  }

  const SWALLOWING: seq<Event> := [Arrive(0), Check(0), Debounce(0), Enqueue(0, 7), Skip(7)]

  lemma AcceptedInThreeSteps(row: Row)
    requires row.usable
    ensures var s := Swallowing(row);
            Next(s[0], Arrive(0), s[1]) && Next(s[1], Check(0), s[2]) && Next(s[2], Debounce(0), s[3])
  {
    hide Due, MinIntervalFloor;
  }

  lemma QueuedThenSkipped(row: Row)
    ensures var s := Swallowing(row); Next(s[3], Enqueue(0, 7), s[4]) && Next(s[4], Skip(7), s[5])
  {
    hide Due, MinIntervalFloor;
    var s := Swallowing(row);
    assert !HasQueued(s[3].runs);
    assert Honoured(s[4].deliveries, false) == s[5].deliveries;
  }

  /** Such a history: no Run ever starts for the delivery, and nothing remembers it. */
  lemma SkippedRunSwallowsItsDelivery(row: Row)
    requires row.usable && !row.dirty
    ensures Trace(Swallowing(row), SWALLOWING) && NoCrashInClaim(Swallowing(row), SWALLOWING)
    ensures var last := Swallowing(row)[5]; Unheard(last, 0) && !Remembered(last)
  {
    AcceptedInThreeSteps(row);
    QueuedThenSkipped(row);
    hide Next;
  }
}
