/** Per-Binding execution leases, statement by statement, under every interleaving of workers and reapers.
    (django_connectors/locks.py, django_connectors/services/runs.py run_binding and reap_stale_runs) */
module Locks {
  import opened Values

  type BindingId = nat
  type Token = nat
  type RunId = nat
  type WorkerId = nat
  type ReaperId = nat

  /** One row of the lock table; the database keeps at most one per Binding. */
  datatype Lease = Lease(token: Token, expiresAt: int)

  type LockTable = map<BindingId, Lease>

  // ---------------------------------------------------------------- what each statement does to the table

  /** A row that an acquirer whose clock read `now` may take: none at all, or an expired one. */
  predicate Takeable(rows: LockTable, binding: BindingId, now: int) {
    binding in rows ==> rows[binding].expiresAt <= now
  }

  function TakenOver(rows: LockTable, binding: BindingId, now: int, lease: Lease): LockTable {
    if binding in rows && rows[binding].expiresAt <= now then rows[binding := lease] else rows
  }

  function Inserted(rows: LockTable, binding: BindingId, lease: Lease): LockTable {
    if binding in rows then rows else rows[binding := lease]
  }

  /** Both statements of an acquirer with nothing between them. */
  function Acquired(rows: LockTable, binding: BindingId, now: int, lease: Lease): LockTable {
    Inserted(TakenOver(rows, binding, now, lease), binding, lease)
  }

  predicate Carries(rows: LockTable, binding: BindingId, token: Token) {
    binding in rows && rows[binding].token == token
  }

  function Released(rows: LockTable, binding: BindingId, token: Token): LockTable {
    if Carries(rows, binding, token) then rows - {binding} else rows
  }

  function Renewed(rows: LockTable, binding: BindingId, token: Token, expiresAt: int): LockTable {
    if Carries(rows, binding, token) then rows[binding := Lease(token, expiresAt)] else rows
  }

  function Reaped(rows: LockTable, now: int): LockTable {
    map b | b in rows && now < rows[b].expiresAt :: rows[b]
  }

  /** The lock table as the service functions change it when nothing runs between their statements. */
  class Leases {
    var rows: LockTable

    constructor ()
      ensures rows == map[]
    {
      rows := map[];
    }

    /** A lease is taken exactly when no unexpired one stands; a refusal changes nothing. */
    method Acquire(binding: BindingId, token: Token, now: int, duration: int) returns (taken: Option<Token>)
      modifies this
      ensures taken == if Takeable(old(rows), binding, now) then Some(token) else None
      ensures rows == if taken.Some? then old(rows)[binding := Lease(token, now + duration)] else old(rows)
      ensures rows == Acquired(old(rows), binding, now, Lease(token, now + duration))
    {
      var lease := Lease(token, now + duration);
      if binding in rows && rows[binding].expiresAt <= now {
        rows := rows[binding := lease];
        return Some(token);
      }
      if binding in rows {
        return None;
      }
      rows := rows[binding := lease];
      taken := Some(token);
    }

    /** Only the holder's own token removes its row, and no other row goes with it. */
    method Release(binding: BindingId, token: Token) returns (released: bool)
      modifies this
      ensures released <==> old(binding in rows && rows[binding].token == token)
      ensures rows.Keys == old(rows).Keys - if released then {binding} else {}
      ensures forall b :: b in rows ==> rows[b] == old(rows)[b]
      ensures rows == Released(old(rows), binding, token)
    {
      released := binding in rows && rows[binding].token == token;
      if released {
        rows := rows - {binding};
      }
    }

    method Renew(binding: BindingId, token: Token, now: int, duration: int) returns (renewed: bool)
      modifies this
      ensures renewed <==> old(binding in rows && rows[binding].token == token)
      ensures rows.Keys == old(rows).Keys
      ensures forall b :: b in rows ==>
                rows[b] == if renewed && b == binding then Lease(token, now + duration) else old(rows)[b]
      ensures rows == Renewed(old(rows), binding, token, now + duration)
    {
      renewed := binding in rows && rows[binding].token == token;
      if renewed {
        rows := rows[binding := Lease(token, now + duration)];
      }
    }

    method IsLocked(binding: BindingId, now: int) returns (locked: bool)
      ensures locked <==> !Takeable(rows, binding, now)
    {
      locked := binding in rows && now < rows[binding].expiresAt;
    }

    /** Reaping removes exactly the leases an acquirer could have taken over, so it frees nothing new. */
    method ReapExpired(now: int) returns (deleted: nat)
      modifies this
      ensures forall b :: Takeable(rows, b, now) <==> Takeable(old(rows), b, now)
      ensures forall b :: b in rows <==> !Takeable(old(rows), b, now)
      ensures forall b :: b in rows ==> b in old(rows) && rows[b] == old(rows)[b]
      ensures deleted == |old(rows).Keys - rows.Keys|
      ensures rows == Reaped(old(rows), now)
    {
      ghost var was := rows;
      var kept := Reaped(rows, now);
      assert kept.Keys <= rows.Keys;
      CountRemoved(rows.Keys, kept.Keys);
      deleted := |rows| - |kept|;
      rows := kept;
    }
  }

  /** Runs as the reaper sees them, next to the lock table. */
  class RunTable {
    var runs: map<RunId, RunRow>

    constructor ()
      ensures runs == map[]
    {
      runs := map[];
    }

    /** One undisturbed pass fails exactly the running Runs no unexpired lease protects. */
    method ReapStaleRuns(leases: Leases, now: int) returns (reaped: nat, failed: nat)
      modifies this, leases
      ensures runs == WithFailed(old(runs), Unprotected(old(runs), old(leases.rows), now))
      ensures failed == |Unprotected(old(runs), old(leases.rows), now)|
      ensures reaped == |old(leases.rows).Keys - leases.rows.Keys|
      ensures forall b :: b in leases.rows <==> !Takeable(old(leases.rows), b, now)
    {
      reaped := leases.ReapExpired(now);
      var stale := set run | run in runs && runs[run].status.Running? && runs[run].binding !in leases.rows;
      assert stale == Unprotected(runs, old(leases.rows), now);
      failed := Fail(stale);
    }

    method Fail(stale: set<RunId>) returns (failed: nat)
      requires stale <= runs.Keys
      modifies this
      ensures runs == WithFailed(old(runs), stale) && failed == |stale|
    {
      var left := stale;
      failed := 0;
      while left != {}
        invariant left <= stale && failed == |stale| - |left|
        invariant runs == WithFailed(old(runs), stale - left)
        decreases left
      {
        var run :| run in left;
        runs := runs[run := runs[run].(status := Failed)];
        left := left - {run};
        failed := failed + 1;
      }
      assert stale - left == stale;
    }
  }

  /** The Runs marked running on a Binding with no unexpired lease. */
  function Unprotected(runs: map<RunId, RunRow>, rows: LockTable, now: int): set<RunId> {
    set run | run in runs && runs[run].status.Running? && Takeable(rows, runs[run].binding, now)
  }

  function WithFailed(runs: map<RunId, RunRow>, stale: set<RunId>): map<RunId, RunRow> {
    map run | run in runs :: if run in stale then runs[run].(status := Failed) else runs[run]
  }

  lemma CountRemoved<T>(all: set<T>, kept: set<T>)
    requires kept <= all
    ensures |all - kept| == |all| - |kept|
  {
    assert all == kept + (all - kept);
  }

  // ---------------------------------------------------------------- interleaved workers and reapers

  /** Where a worker stands. Every number it holds was computed from a clock it read earlier. */
  datatype Phase =
    | Idle
    | Updating(now: int, token: Token, expiresAt: int)
    | Inserting(token: Token, expiresAt: int)
    | Holding(token: Token, expiresAt: int)
    | Renewing(token: Token, expiresAt: int, next: int)
    | Gone

  datatype Worker = Worker(binding: BindingId, phase: Phase)

  /** A reaper between its statements: the DELETE, the SELECT of stale Runs, and one save for each. */
  datatype Reaper = Resting | Deleting(now: int) | Selecting | Failing(stale: set<RunId>)

  datatype RunStatus = Running | Succeeded | Failed

  /** A Run that reached `_start`, or a recovery Run, and the worker executing it. */
  datatype RunRow = RunRow(binding: BindingId, status: RunStatus, worker: WorkerId)

  datatype State = State(clock: int, locks: LockTable, minted: set<Token>, workers: map<WorkerId, Worker>,
                         runs: map<RunId, RunRow>, reapers: map<ReaperId, Reaper>)

  datatype Event =
    | Tick(to: int)
    | Ask(w: WorkerId, binding: BindingId, token: Token, duration: int)
    | TakeOver(w: WorkerId)
    | Insert(w: WorkerId)
    | AskRenew(w: WorkerId, duration: int)
    | Renew(w: WorkerId)
    | Release(w: WorkerId)
    | Start(w: WorkerId, run: RunId)
    | Finish(w: WorkerId, run: RunId, status: RunStatus)
    | AskReap(r: ReaperId)
    | Reap(r: ReaperId)
    | SelectStale(r: ReaperId)
    | FailStale(r: ReaperId, run: RunId)

  function Moved(s: State, w: WorkerId, phase: Phase): State
    requires w in s.workers
  {
    s.(workers := s.workers[w := s.workers[w].(phase := phase)])
  }

  predicate Holds(phase: Phase) { phase.Holding? || phase.Renewing? }

  /** One statement of one process. A process that dies simply takes no further step. */
  ghost predicate Next(s: State, e: Event, t: State) {
    match e
    case Tick(to) => s.clock <= to && t == s.(clock := to)
    case Ask(w, binding, token, duration) =>
      && (w in s.workers ==> s.workers[w].phase.Idle?)
      && token !in s.minted
      && t == s.(minted := s.minted + {token},
                 workers := s.workers[w := Worker(binding, Updating(s.clock, token, s.clock + duration))])
    case TakeOver(w) =>
      && w in s.workers && s.workers[w].phase.Updating?
      && (var (b, p) := (s.workers[w].binding, s.workers[w].phase);
          var rows := TakenOver(s.locks, b, p.now, Lease(p.token, p.expiresAt));
          t == Moved(s, w, if b in s.locks && s.locks[b].expiresAt <= p.now then Holding(p.token, p.expiresAt)
                           else Inserting(p.token, p.expiresAt)).(locks := rows))
    case Insert(w) =>
      && w in s.workers && s.workers[w].phase.Inserting?
      && (var (b, p) := (s.workers[w].binding, s.workers[w].phase);
          t == Moved(s, w, if b in s.locks then Gone else Holding(p.token, p.expiresAt))
                 .(locks := Inserted(s.locks, b, Lease(p.token, p.expiresAt))))
    case AskRenew(w, duration) =>
      && w in s.workers && s.workers[w].phase.Holding?
      && t == Moved(s, w, Renewing(s.workers[w].phase.token, s.workers[w].phase.expiresAt, s.clock + duration))
    case Renew(w) =>
      && w in s.workers && s.workers[w].phase.Renewing?
      && (var (b, p) := (s.workers[w].binding, s.workers[w].phase);
          t == Moved(s, w, Holding(p.token, if Carries(s.locks, b, p.token) then p.next else p.expiresAt))
                 .(locks := Renewed(s.locks, b, p.token, p.next)))
    case Release(w) =>
      && w in s.workers && s.workers[w].phase.Holding?
      && t == Moved(s, w, Gone).(locks := Released(s.locks, s.workers[w].binding, s.workers[w].phase.token))
    case Start(w, run) =>
      && w in s.workers && Holds(s.workers[w].phase) && run !in s.runs
      && t == s.(runs := s.runs[run := RunRow(s.workers[w].binding, Running, w)])
    case Finish(w, run, status) =>
      && run in s.runs && s.runs[run].worker == w && w in s.workers && Holds(s.workers[w].phase) && !status.Running?
      && t == s.(runs := s.runs[run := s.runs[run].(status := status)])
    case AskReap(r) =>
      && (r in s.reapers ==> s.reapers[r].Resting? || s.reapers[r].Failing?)
      && t == s.(reapers := s.reapers[r := Deleting(s.clock)])
    case Reap(r) =>
      && r in s.reapers && s.reapers[r].Deleting?
      && t == s.(locks := Reaped(s.locks, s.reapers[r].now), reapers := s.reapers[r := Selecting])
    case SelectStale(r) =>
      && r in s.reapers && s.reapers[r].Selecting?
      && t == s.(reapers := s.reapers[r := Failing(StaleRuns(s))])
    case FailStale(r, run) =>
      && r in s.reapers && s.reapers[r].Failing? && run in s.reapers[r].stale && run in s.runs
      && t == s.(runs := s.runs[run := s.runs[run].(status := Failed)],
                 reapers := s.reapers[r := Failing(s.reapers[r].stale - {run})])
  }

  /** Running, with no lock row for its Binding. */
  function StaleRuns(s: State): set<RunId> {
    set run | run in s.runs && s.runs[run].status.Running? && s.runs[run].binding !in s.locks
  }

  ghost predicate Initial(s: State) {
    s.locks == map[] && s.minted == {} && s.workers == map[] && s.runs == map[] && s.reapers == map[]
  }

  ghost predicate Trace(states: seq<State>, events: seq<Event>) {
    && |states| == |events| + 1
    && Initial(states[0])
    && forall i :: 0 <= i < |events| ==> Next(states[i], events[i], states[i + 1])
  }

  // ---------------------------------------------------------------- the service functions are such steps

  ghost predicate Steps(states: seq<State>, events: seq<Event>) {
    && |states| == |events| + 1
    && forall i :: 0 <= i < |events| ==> Next(states[i], events[i], states[i + 1])
  }

  /** `Leases.Acquire` is the statements of one worker with nobody in between: the worker holds the lease if and only if
      the method takes it, and the table is the one the method leaves. */
  lemma AcquireIsItsStatements(s: State, w: WorkerId, binding: BindingId, token: Token, duration: int)
    returns (states: seq<State>, events: seq<Event>)
    requires (w in s.workers ==> s.workers[w].phase.Idle?) && token !in s.minted
    ensures Steps(states, events) && states[0] == s
    ensures var t, lease := states[|events|], Lease(token, s.clock + duration);
            && t.locks == Acquired(s.locks, binding, s.clock, lease)
            && w in t.workers && t.workers[w].binding == binding
            && t.workers[w].phase
               == (if Takeable(s.locks, binding, s.clock) then Holding(token, lease.expiresAt) else Gone)
            && t.clock == s.clock
  {
    var expiresAt := s.clock + duration;
    var asked := s.(minted := s.minted + {token},
                    workers := s.workers[w := Worker(binding, Updating(s.clock, token, expiresAt))]);
    var rows := TakenOver(s.locks, binding, s.clock, Lease(token, expiresAt));
    if binding in s.locks && s.locks[binding].expiresAt <= s.clock {
      events := [Ask(w, binding, token, duration), TakeOver(w)];
      states := [s, asked, Moved(asked, w, Holding(token, expiresAt)).(locks := rows)];
    } else {
      var updated := Moved(asked, w, Inserting(token, expiresAt)).(locks := rows);
      var inserted := Moved(updated, w, if binding in rows then Gone else Holding(token, expiresAt))
                      .(locks := Inserted(rows, binding, Lease(token, expiresAt)));
      events := [Ask(w, binding, token, duration), TakeOver(w), Insert(w)];
      states := [s, asked, updated, inserted];
      assert Next(s, events[0], asked) && Next(asked, events[1], updated) && Next(updated, events[2], inserted);
    }
  }

  /** `Leases.Release` is one statement, and `Leases.Renew` reads the clock and is one more. */
  lemma HolderCallsAreStatements(s: State, w: WorkerId, duration: int) returns (released: State, renewed: seq<State>)
    requires w in s.workers && s.workers[w].phase.Holding?
    ensures var (b, token) := (s.workers[w].binding, s.workers[w].phase.token);
            && Next(s, Release(w), released) && released.locks == Released(s.locks, b, token)
            && Steps(renewed, [AskRenew(w, duration), Renew(w)]) && renewed[0] == s
            && renewed[2].locks == Renewed(s.locks, b, token, s.clock + duration)
  {
    var (b, p) := (s.workers[w].binding, s.workers[w].phase);
    var next := s.clock + duration;
    released := Moved(s, w, Gone).(locks := Released(s.locks, b, p.token));
    var asked := Moved(s, w, Renewing(p.token, p.expiresAt, next));
    renewed := [s, asked, Moved(asked, w, Holding(p.token, if Carries(s.locks, b, p.token) then next else p.expiresAt))
                          .(locks := Renewed(s.locks, b, p.token, next))];
    assert Next(s, AskRenew(w, duration), asked) && Next(asked, Renew(w), renewed[2]);
  }

  /** `Leases.ReapExpired` reads the clock and is one statement. */
  lemma ReapIsItsStatements(s: State, r: ReaperId) returns (reaped: seq<State>)
    requires r in s.reapers ==> s.reapers[r].Resting? || s.reapers[r].Failing?
    ensures Steps(reaped, [AskReap(r), Reap(r)]) && reaped[0] == s && reaped[2].locks == Reaped(s.locks, s.clock)
  {
    var deleting := s.(reapers := s.reapers[r := Deleting(s.clock)]);
    reaped := [s, deleting, deleting.(locks := Reaped(s.locks, s.clock), reapers := s.reapers[r := Selecting])];
    assert Next(s, AskReap(r), deleting) && Next(deleting, Reap(r), reaped[2]);
  }

  // ---------------------------------------------------------------- the invariant

  function TokenOf(phase: Phase): Option<Token> {
    if phase.Idle? || phase.Gone? then None else Some(phase.token)
  }

  /** A worker that took the lease, has not released it, and whose lease has not run out. */
  predicate Live(s: State, w: WorkerId) {
    && w in s.workers
    && Holds(s.workers[w].phase)
    && s.clock < s.workers[w].phase.expiresAt
  }

  /** The table no longer carries this worker's token, and no statement of its own can put it back. */
  predicate Lost(s: State, w: WorkerId) {
    && w in s.workers
    && (s.workers[w].phase.Gone?
        || (Holds(s.workers[w].phase) && !Carries(s.locks, s.workers[w].binding, s.workers[w].phase.token)))
  }

  /** What is known of one worker. */
  predicate WorkerInv(s: State, w: WorkerId)
    requires w in s.workers
  {
    var (b, p) := (s.workers[w].binding, s.workers[w].phase);
    match p
    case Idle => true
    case Gone => true
    case Updating(now, token, _) => now <= s.clock && token in s.minted && Unused(s.locks, token)
    case Inserting(token, _) => token in s.minted && Unused(s.locks, token)
    case Holding(token, expiresAt) =>
      token in s.minted && (s.clock < expiresAt ==> b in s.locks && s.locks[b] == Lease(token, expiresAt))
    case Renewing(token, expiresAt, _) =>
      token in s.minted && (s.clock < expiresAt ==> b in s.locks && s.locks[b] == Lease(token, expiresAt))
  }

  predicate Unused(locks: LockTable, token: Token) {
    forall b :: b in locks ==> locks[b].token != token
  }

  ghost predicate TokensApart(s: State) {
    forall v, w :: v in s.workers && w in s.workers && v != w && TokenOf(s.workers[v].phase).Some?
      ==> TokenOf(s.workers[v].phase) != TokenOf(s.workers[w].phase)
  }

  ghost predicate Inv(s: State) {
    && (forall b :: b in s.locks ==> s.locks[b].token in s.minted)
    && (forall w :: w in s.workers ==> WorkerInv(s, w))
    && TokensApart(s)
    && (forall run :: run in s.runs ==> RunInv(s, run))
    && (forall r :: r in s.reapers ==> ReaperInv(s, r))
  }

  predicate RunInv(s: State, run: RunId)
    requires run in s.runs
  {
    var w := s.runs[run].worker;
    && w in s.workers && s.workers[w].binding == s.runs[run].binding
    && (Holds(s.workers[w].phase) || s.workers[w].phase.Gone?)
  }

  ghost predicate ReaperInv(s: State, r: ReaperId)
    requires r in s.reapers
  {
    && (s.reapers[r].Deleting? ==> s.reapers[r].now <= s.clock)
    && (s.reapers[r].Failing? ==>
          forall run :: run in s.reapers[r].stale ==> run in s.runs && Lost(s, s.runs[run].worker))
  }

  /** The lock table holds a token only if the worker that owns it put it there. */
  lemma LocksStayMinted(s: State, e: Event, t: State)
    requires Inv(s) && Next(s, e, t)
    ensures forall b :: b in t.locks ==> t.locks[b].token in t.minted
  {
    hide TokensApart, ReaperInv, RunInv;
    match e {
      case TakeOver(w) => assert WorkerInv(s, w);
      case Insert(w) => assert WorkerInv(s, w);
      case Renew(w) => assert WorkerInv(s, w);
      case _ =>
    }
  }

  /** A worker's token changes only when it mints one. */
  lemma TokenAfter(s: State, e: Event, t: State, w: WorkerId)
    requires Next(s, e, t) && w in t.workers
    ensures TokenOf(t.workers[w].phase).Some? ==>
              || (e.Ask? && e.w == w && TokenOf(t.workers[w].phase) == Some(e.token) && e.token !in s.minted)
              || (w in s.workers && TokenOf(t.workers[w].phase) == TokenOf(s.workers[w].phase))
    ensures !(e.Ask? && e.w == w) ==> w in s.workers
  {
  }

  lemma TokenIsMinted(s: State, w: WorkerId)
    requires w in s.workers && WorkerInv(s, w) && TokenOf(s.workers[w].phase).Some?
    ensures TokenOf(s.workers[w].phase).value in s.minted
  {
  }

  lemma StepKeepsTokensApart(s: State, e: Event, t: State)
    requires Inv(s) && Next(s, e, t)
    ensures TokensApart(t)
  {
    hide Next, ReaperInv, RunInv, WorkerInv;
    forall v, w | v in t.workers && w in t.workers && v != w && TokenOf(t.workers[v].phase).Some?
      ensures TokenOf(t.workers[v].phase) != TokenOf(t.workers[w].phase)
    {
      TokenAfter(s, e, t, v);
      TokenAfter(s, e, t, w);
      if v in s.workers && TokenOf(s.workers[v].phase).Some? { TokenIsMinted(s, v); }
      if w in s.workers && TokenOf(s.workers[w].phase).Some? { TokenIsMinted(s, w); }
    }
  }

  predicate Acts(e: Event, w: WorkerId) {
    (e.Ask? || e.TakeOver? || e.Insert? || e.AskRenew? || e.Renew? || e.Release?) && e.w == w
  }

  lemma StepKeepsActor(s: State, e: Event, t: State, w: WorkerId)
    requires Inv(s) && Next(s, e, t) && w in t.workers && Acts(e, w)
    ensures WorkerInv(t, w)
  {
    hide RunInv, ReaperInv, Lost, TokensApart;
    if w in s.workers { assert WorkerInv(s, w); }
  }

  /** The row of `w`'s unexpired lease. */
  predicate RowIsLive(s: State, w: WorkerId) {
    && w in s.workers && s.workers[w].binding in s.locks
    && s.clock < s.locks[s.workers[w].binding].expiresAt
    && TokenOf(s.workers[w].phase) == Some(s.locks[s.workers[w].binding].token)
  }

  /** A statement by another process leaves the row of a live lease alone. */
  lemma LiveRowSpared(s: State, e: Event, t: State, w: WorkerId)
    requires Inv(s) && Next(s, e, t) && RowIsLive(s, w) && !Acts(e, w)
    ensures s.workers[w].binding in t.locks && t.locks[s.workers[w].binding] == s.locks[s.workers[w].binding]
  {
    hide RunInv, Lost, Unused;
    match e {
      case TakeOver(v) => assert WorkerInv(s, v);
      case Reap(r) => assert ReaperInv(s, r);
      case _ =>
    }
  }

  /** Nor does it ever write the token of a worker that has not put it in the table. */
  lemma UnusedSpared(s: State, e: Event, t: State, w: WorkerId)
    requires TokensApart(s) && Next(s, e, t) && w in s.workers && !Acts(e, w) && TokenOf(s.workers[w].phase).Some?
    requires Unused(s.locks, TokenOf(s.workers[w].phase).value)
    ensures Unused(t.locks, TokenOf(s.workers[w].phase).value)
  {
  }

  lemma OnlyForward(s: State, e: Event, t: State)
    requires Next(s, e, t)
    ensures s.clock <= t.clock && s.minted <= t.minted
    ensures forall w :: w in s.workers && !Acts(e, w) ==> w in t.workers && t.workers[w] == s.workers[w]
  {
  }

  lemma StepKeepsBystander(s: State, e: Event, t: State, w: WorkerId)
    requires Inv(s) && Next(s, e, t) && w in s.workers && !Acts(e, w)
    ensures w in t.workers && WorkerInv(t, w)
  {
    OnlyForward(s, e, t);
    if RowIsLive(s, w) { LiveRowSpared(s, e, t, w); }
    var token := TokenOf(s.workers[w].phase);
    if token.Some? && Unused(s.locks, token.value) { UnusedSpared(s, e, t, w); }
    hide Next, RunInv, ReaperInv, Lost, TokensApart, Acts, Unused;
    assert WorkerInv(s, w);
  }

  lemma StepKeepsWorker(s: State, e: Event, t: State, w: WorkerId)
    requires Inv(s) && Next(s, e, t) && w in t.workers
    ensures WorkerInv(t, w)
  {
    if Acts(e, w) {
      StepKeepsActor(s, e, t, w);
    } else {
      StepKeepsBystander(s, e, t, w);
    }
  }

  lemma StepKeepsLost(s: State, e: Event, t: State, w: WorkerId)
    requires Inv(s) && Next(s, e, t) && Lost(s, w)
    ensures Lost(t, w)
  {
    hide ReaperInv, RunInv;
    assert WorkerInv(s, w);
  }

  lemma StepKeepsInv(s: State, e: Event, t: State)
    requires Inv(s) && Next(s, e, t)
    ensures Inv(t)
  {
    LocksStayMinted(s, e, t);
    StepKeepsTokensApart(s, e, t);
    forall w | w in t.workers ensures WorkerInv(t, w) {
      StepKeepsWorker(s, e, t, w);
    }
    forall run | run in t.runs ensures RunInv(t, run) {
      StepKeepsRun(s, e, t, run);
    }
    forall r | r in t.reapers ensures ReaperInv(t, r) {
      StepKeepsReaper(s, e, t, r);
    }
  }

  lemma StepKeepsRun(s: State, e: Event, t: State, run: RunId)
    requires Inv(s) && Next(s, e, t) && run in t.runs
    ensures RunInv(t, run)
  {
    hide ReaperInv, WorkerInv, TokensApart;
    if run in s.runs { assert RunInv(s, run); }
  }

  lemma StepKeepsReaper(s: State, e: Event, t: State, r: ReaperId)
    requires Inv(s) && Next(s, e, t) && r in t.reapers
    ensures ReaperInv(t, r)
  {
    hide WorkerInv, TokensApart;
    if r in s.reapers { assert ReaperInv(s, r); }
    if t.reapers[r].Failing? {
      forall run | run in t.reapers[r].stale ensures run in t.runs && Lost(t, t.runs[run].worker) {
        assert run in s.runs;
        assert RunInv(s, run);
        if r in s.reapers && s.reapers[r].Failing? && run in s.reapers[r].stale {
          StepKeepsLost(s, e, t, s.runs[run].worker);
        }
      }
    }
  }

  lemma {:induction false} TraceKeepsInv(states: seq<State>, events: seq<Event>, i: nat)
    requires Trace(states, events) && i < |states|
    ensures Inv(states[i])
  {
    if i > 0 {
      TraceKeepsInv(states, events, i - 1);
      StepKeepsInv(states[i - 1], events[i - 1], states[i]);
    }
  }

  // ---------------------------------------------------------------- what the lease promises

  /** At every instant of every interleaving, at most one worker holds an unexpired, unreleased lease. */
  lemma AtMostOneLiveHolder(states: seq<State>, events: seq<Event>, i: nat, v: WorkerId, w: WorkerId)
    requires Trace(states, events) && i < |states|
    requires Live(states[i], v) && Live(states[i], w) && states[i].workers[v].binding == states[i].workers[w].binding
    ensures v == w
  {
    TraceKeepsInv(states, events, i);
    var s := states[i];
    assert WorkerInv(s, v) && WorkerInv(s, w);
    assert TokenOf(s.workers[v].phase) == Some(s.locks[s.workers[v].binding].token);
    assert TokenOf(s.workers[w].phase) == Some(s.locks[s.workers[w].binding].token);
  }

  lemma OthersKeepTheLease(s: State, e: Event, t: State, w: WorkerId)
    requires Inv(s) && Next(s, e, t) && Live(s, w) && !e.Tick?
    requires !((e.Release? || e.Renew?) && e.w == w)
    ensures Live(t, w) && t.workers[w].binding == s.workers[w].binding
    ensures TokenOf(t.workers[w].phase) == TokenOf(s.workers[w].phase)
    ensures t.workers[w].phase.expiresAt == s.workers[w].phase.expiresAt
  {
    hide TokensApart, ReaperInv, RunInv, WorkerInv;
  }

  /** No statement of another worker or of a reaper ends a live lease; only its own release does, or time. */
  lemma OthersCannotEndALease(states: seq<State>, events: seq<Event>, i: nat, w: WorkerId)
    requires Trace(states, events) && i < |events| && Live(states[i], w) && !events[i].Tick?
    requires !((events[i].Release? || events[i].Renew?) && events[i].w == w)
    ensures Live(states[i + 1], w)
    ensures var (b, p) := (states[i].workers[w].binding, states[i].workers[w].phase);
            b in states[i + 1].locks && states[i + 1].locks[b] == Lease(p.token, p.expiresAt)
  {
    TraceKeepsInv(states, events, i);
    TraceKeepsInv(states, events, i + 1);
    OthersKeepTheLease(states[i], events[i], states[i + 1], w);
    hide Next, TokensApart, ReaperInv, RunInv;
    assert WorkerInv(states[i + 1], w);
  }

  lemma LostChangesNothing(s: State, e: Event, t: State, w: WorkerId)
    requires Next(s, e, t) && Lost(s, w) && (e.Release? || e.Renew?) && e.w == w
    ensures t.locks == s.locks
  {
  }

  lemma {:induction false} LostStaysLost(states: seq<State>, events: seq<Event>, i: nat, j: nat, w: WorkerId)
    requires Trace(states, events) && i <= j < |states| && Lost(states[i], w)
    ensures Lost(states[j], w)
    decreases j
  {
    hide Next, Lost, Inv;
    if i < j {
      LostStaysLost(states, events, i, j - 1, w);
      TraceKeepsInv(states, events, j - 1);
      StepKeepsLost(states[j - 1], events[j - 1], states[j], w);
    }
  }

  /** A worker whose token the table no longer carries neither releases nor renews anything, ever again. */
  lemma StaleTokenIsPowerless(states: seq<State>, events: seq<Event>, i: nat, j: nat, w: WorkerId)
    requires Trace(states, events) && i <= j < |events| && Lost(states[i], w)
    ensures !Live(states[j], w)
    ensures (events[j].Release? || events[j].Renew?) && events[j].w == w ==> states[j + 1].locks == states[j].locks
  {
    hide Next, TokensApart, RunInv, ReaperInv;
    LostStaysLost(states, events, i, j, w);
    TraceKeepsInv(states, events, j);
    if (events[j].Release? || events[j].Renew?) && events[j].w == w {
      LostChangesNothing(states[j], events[j], states[j + 1], w);
    }
  }

  /** An acquire that takes the lease for some time makes its worker a live holder, and no other does. */
  lemma AcquirerIsLiveIff(s: State, w: WorkerId, binding: BindingId, token: Token, duration: int)
    returns (states: seq<State>, events: seq<Event>)
    requires (w in s.workers ==> s.workers[w].phase.Idle?) && token !in s.minted
    ensures Steps(states, events) && states[0] == s
    ensures Live(states[|events|], w) <==> Takeable(s.locks, binding, s.clock) && duration > 0
  {
    hide Steps, Acquired;
    states, events := AcquireIsItsStatements(s, w, binding, token, duration);
  }

  /** A worker that holds the lease, renewing it or not, may start a Run and finish it. */
  lemma HoldersRun(s: State, w: WorkerId, run: RunId, status: RunStatus) returns (t: State, u: State)
    requires w in s.workers && (s.workers[w].phase.Holding? || s.workers[w].phase.Renewing?)
    requires run !in s.runs && !status.Running?
    ensures Next(s, Start(w, run), t) && t.runs[run] == RunRow(s.workers[w].binding, Running, w)
    ensures Next(t, Finish(w, run, status), u) && u.runs[run].status == status
    ensures t.locks == u.locks == s.locks && t.workers == u.workers == s.workers
  {
    t := s.(runs := s.runs[run := RunRow(s.workers[w].binding, Running, w)]);
    u := t.(runs := t.runs[run := t.runs[run].(status := status)]);
  }

  /** The reaper never fails a Run whose worker's lease is still live, although it reads and writes in
      separate statements and saves without looking again. */
  lemma ReaperSparesLiveRuns(states: seq<State>, events: seq<Event>, i: nat)
    requires Trace(states, events) && i < |events| && events[i].FailStale?
    ensures events[i].run in states[i].runs
    ensures !Live(states[i], states[i].runs[events[i].run].worker)
  {
    TraceKeepsInv(states, events, i);
    var s, e := states[i], events[i];
    assert Next(s, e, states[i + 1]);
    assert ReaperInv(s, e.r) && RunInv(s, e.run);
  }
}

