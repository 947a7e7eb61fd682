/** The Gmail source: a resumable backfill behind a watermark, then history replay.
    (django_connectors/providers/google/gmail.py) */
module Gmail {
  import opened Sequences
  import opened Values

  type Id = string
  type Content = string

  // ---------------------------------------------------------------- the mailbox

  /** A mailbox's history: a message is added or relabelled, or deleted. The history id is the number of events so
      far. */
  datatype MailEvent = Touched(id: Id, content: Content) | Deleted(id: Id)

  function Box(log: seq<MailEvent>): map<Id, Content> {
    if log == [] then map[]
    else
      var before, e := Box(log[..|log| - 1]), log[|log| - 1];
      if e.Touched? then before[e.id := e.content] else before - {e.id}
  }

  predicate Untouched(log: seq<MailEvent>, since: nat, id: Id) {
    forall i :: since <= i < |log| ==> log[i].id != id
  }

  predicate WasDeleted(log: seq<MailEvent>, from: nat, to: nat, id: Id)
    requires from <= to <= |log|
  {
    Deleted(id) in log[from..to]
  }

  /** Gmail never gives a deleted message's id to anything again. */
  predicate Orderly(log: seq<MailEvent>) {
    forall i, j :: 0 <= i < j < |log| && log[i].Deleted? ==> log[j].id != log[i].id
  }

  function Lookup(box: map<Id, Content>, id: Id): Option<Content> {
    if id in box then Some(box[id]) else None
  }

  /** A message nothing has happened to since `t` reads the same at every moment since. */
  lemma {:induction false} UntouchedReadsTheSame(log: seq<MailEvent>, t: nat, id: Id)
    requires t <= |log| && Untouched(log, t, id)
    ensures Lookup(Box(log[..t]), id) == Lookup(Box(log), id)
    decreases |log|
  {
    if t == |log| {
      assert log[..t] == log;
    } else {
      var n := |log| - 1;
      assert log[..n][..t] == log[..t];
      UntouchedReadsTheSame(log[..n], t, id);
    }
  }

  /** A message is in the mailbox exactly when something touched it and nothing deleted it. */
  lemma {:induction false} InBoxIff(log: seq<MailEvent>, id: Id)
    requires Orderly(log)
    ensures id in Box(log)
       <==> (exists i :: 0 <= i < |log| && log[i].Touched? && log[i].id == id) && Deleted(id) !in log
  {
    if log != [] {
      var n := |log| - 1;
      InBoxIff(log[..n], id);
      assert log == log[..n] + [log[n]];
      if i :| 0 <= i < |log| && log[i].Touched? && log[i].id == id {
        if i < n { assert log[..n][i] == log[i]; }
      }
    }
  }

  // ---------------------------------------------------------------- records, and how a load lands them

  datatype Record = Message(id: Id, content: Content) | Gone(id: Id)

  datatype Landing = Live(content: Content) | Dead

  type Table = map<Id, Landing>

  function Row(r: Record): Landing { if r.Message? then Live(r.content) else Dead }

  function Ids(out: seq<Record>): set<Id> { set k | 0 <= k < |out| :: out[k].id }

  /** One load: every id it carries is replaced by one of its records, whichever the merge keeps. */
  ghost predicate Lands(before: Table, out: seq<Record>, after: Table) {
    && after.Keys == before.Keys + Ids(out)
    && (forall id :: id in before && id !in Ids(out) ==> after[id] == before[id])
    && (forall id :: id in Ids(out) ==> exists k :: 0 <= k < |out| && out[k].id == id && after[id] == Row(out[k]))
  }

  // ---------------------------------------------------------------- the incremental plan

  /** One history record's ids: added or relabelled, and deleted. */
  datatype HistoryRecord = HistoryRecord(touched: seq<Id>, deleted: seq<Id>)

  datatype HistoryResponse =
    | TooOld
    | Unavailable
    | HistoryPage(records: seq<HistoryRecord>, historyId: Option<nat>, next: string)

  datatype Plan = Plan(changed: seq<Id>, deleted: seq<Id>, historyId: nat)

  datatype PlanError = HistoryTooOld | RequestFailed | TokenRepeated | TooManyPages

  const MAX_HISTORY_PAGES: nat := 10_000

  function TouchedBy(records: seq<HistoryRecord>): set<Id> {
    set i, k | 0 <= i < |records| && 0 <= k < |records[i].touched| :: records[i].touched[k]
  }

  function DeletedBy(records: seq<HistoryRecord>): set<Id> {
    set i, k | 0 <= i < |records| && 0 <= k < |records[i].deleted| :: records[i].deleted[k]
  }

  /** All the records of the pages a walk reads, up to the one that names no next page. */
  function RecordsOf(pages: seq<HistoryResponse>): seq<HistoryRecord> {
    if pages == [] || !pages[0].HistoryPage? then []
    else pages[0].records + if pages[0].next == "" then [] else RecordsOf(pages[1..])
  }

  /** The last history id those pages name, or the one the walk started from. */
  function LastHistoryId(pages: seq<HistoryResponse>, start: nat): nat {
    if pages == [] || !pages[0].HistoryPage? then start
    else
      var id := if pages[0].historyId.Some? then pages[0].historyId.value else start;
      if pages[0].next == "" then id else LastHistoryId(pages[1..], id)
  }

  /** The walk goes on past the first `n` pages: each names a next page, and none of those tokens twice. */
  ghost predicate WalksTo(pages: seq<HistoryResponse>, n: nat) {
    && n <= |pages| && n <= MAX_HISTORY_PAGES
    && (forall k :: 0 <= k < n ==> pages[k].HistoryPage? && pages[k].next != "")
    && (forall j, k :: 0 <= j < k < n ==> pages[j].next != pages[k].next)
  }

  /** What stops it there: its last page, or one of the four errors. Answers that run out are a failed request. */
  ghost predicate StopsAt(pages: seq<HistoryResponse>, n: nat, error: Option<PlanError>) {
    && WalksTo(pages, n)
    && var asked := n < MAX_HISTORY_PAGES;
       var answered := asked && n < |pages|;
       match error
       case None => answered && pages[n].HistoryPage? && pages[n].next == ""
       case Some(HistoryTooOld) => answered && pages[n].TooOld?
       case Some(RequestFailed) => asked && (n == |pages| || pages[n].Unavailable?)
       case Some(TokenRepeated) =>
         answered && pages[n].HistoryPage? && exists j :: 0 <= j < n && pages[j].next == pages[n].next
       case Some(TooManyPages) => !asked
  }

  /** The walk over these answers ends so. */
  ghost predicate HistoryEnds(pages: seq<HistoryResponse>, error: Option<PlanError>) {
    exists n :: StopsAt(pages, n, error)
  }

  /** A walk ends in one way only. */
  lemma OneEnd(pages: seq<HistoryResponse>, one: Option<PlanError>, other: Option<PlanError>)
    requires HistoryEnds(pages, one) && HistoryEnds(pages, other)
    ensures one == other
  {
    var n, m :| StopsAt(pages, n, one) && StopsAt(pages, m, other);
    StopsOnce(pages, n, one, m, other);
    StopsOnce(pages, m, other, n, one);
  }

  lemma StopsOnce(pages: seq<HistoryResponse>, n: nat, one: Option<PlanError>, m: nat, other: Option<PlanError>)
    requires StopsAt(pages, n, one) && StopsAt(pages, m, other)
    ensures m <= n
  {
  }

  /** Python's dict as an ordered set: a key keeps its first position. */
  method Remember(ids: seq<Id>, more: seq<Id>) returns (all: seq<Id>)
    requires Distinct(ids)
    ensures Distinct(all) && Elements(all) == Elements(ids) + Elements(more)
  {
    all := ids;
    for i := 0 to |more|
      invariant Distinct(all) && Elements(all) == Elements(ids) + Elements(more[..i])
    {
      ElementsConcat(more[..i], [more[i]]);
      assert more[..i + 1] == more[..i] + [more[i]] && Elements([more[i]]) == {[more[i]][0]};
      if more[i] !in all {
        ElementsConcat(all, [more[i]]);
        all := all + [more[i]];
      } else {
        InElements(all, more[i]);
      }
    }
    assert more[..|more|] == more;
  }

  method Absorb(records: seq<HistoryRecord>, changed0: seq<Id>, deleted0: seq<Id>)
    returns (changed: seq<Id>, deleted: seq<Id>)
    requires Distinct(changed0) && Distinct(deleted0)
    ensures Distinct(changed) && Elements(changed) == Elements(changed0) + TouchedBy(records)
    ensures Distinct(deleted) && Elements(deleted) == Elements(deleted0) + DeletedBy(records)
  {
    changed, deleted := changed0, deleted0;
    for i := 0 to |records|
      invariant Distinct(changed) && Elements(changed) == Elements(changed0) + TouchedBy(records[..i])
      invariant Distinct(deleted) && Elements(deleted) == Elements(deleted0) + DeletedBy(records[..i])
    {
      changed := Remember(changed, records[i].touched);
      deleted := Remember(deleted, records[i].deleted);
      RecordsConcat(records[..i], [records[i]]);
      assert records[..i + 1] == records[..i] + [records[i]];
      OneRecord(records[i]);
    }
    assert records[..|records|] == records;
  }

  lemma OneRecord(r: HistoryRecord)
    ensures TouchedBy([r]) == Elements(r.touched) && DeletedBy([r]) == Elements(r.deleted)
  {
    assert [r][0] == r;
  }

  lemma RecordsConcat(a: seq<HistoryRecord>, b: seq<HistoryRecord>)
    ensures TouchedBy(a + b) == TouchedBy(a) + TouchedBy(b) && DeletedBy(a + b) == DeletedBy(a) + DeletedBy(b)
  {
    forall x | x in TouchedBy(b) ensures x in TouchedBy(a + b) {
      var i, k :| 0 <= i < |b| && 0 <= k < |b[i].touched| && b[i].touched[k] == x;
      assert (a + b)[|a| + i].touched[k] == x;
    }
    forall x | x in DeletedBy(b) ensures x in DeletedBy(a + b) {
      var i, k :| 0 <= i < |b| && 0 <= k < |b[i].deleted| && b[i].deleted[k] == x;
      assert (a + b)[|a| + i].deleted[k] == x;
    }
    assert forall i :: 0 <= i < |a| ==> (a + b)[i] == a[i];
  }

  /** The ids of `changed` that were not deleted. */
  method Without(changed: seq<Id>, deleted: seq<Id>) returns (left: seq<Id>)
    requires Distinct(changed)
    ensures Distinct(left) && Elements(left) == Elements(changed) - Elements(deleted)
  {
    left := [];
    for i := 0 to |changed|
      invariant Distinct(left) && Elements(left) == Elements(changed[..i]) - Elements(deleted)
    {
      ElementsConcat(changed[..i], [changed[i]]);
      assert changed[..i + 1] == changed[..i] + [changed[i]] && Elements([changed[i]]) == {[changed[i]][0]};
      InElements(deleted, changed[i]);
      if changed[i] !in deleted {
        ElementsConcat(left, [changed[i]]);
        assert changed[i] !in Elements(changed[..i]);
        left := left + [changed[i]];
      }
    }
    assert changed[..|changed|] == changed;
  }

  /** A walk that ends well plans exactly what its pages say: everything touched and not deleted, everything deleted.
      Any other fails with exactly the error it met. */
  method PlanIncremental(start: nat, pages: seq<HistoryResponse>) returns (plan: Result<Plan, PlanError>)
    ensures plan.Ok? ==>
              && Distinct(plan.value.changed)
              && Elements(plan.value.changed) == TouchedBy(RecordsOf(pages)) - DeletedBy(RecordsOf(pages))
              && Distinct(plan.value.deleted) && Elements(plan.value.deleted) == DeletedBy(RecordsOf(pages))
              && plan.value.historyId == LastHistoryId(pages, start)
    ensures plan.Ok? <==> HistoryEnds(pages, None)
    ensures forall e: PlanError :: plan == Err(e) <==> HistoryEnds(pages, Some(e))
  {
    hide TouchedBy, DeletedBy, RecordsOf, LastHistoryId, Elements;
    var changed, deleted, historyId, seen: set<string> := [], [], start, {};
    var i := 0;
    assert pages[0..] == pages;
    NothingAbsorbed();
    while i < |pages| && i < MAX_HISTORY_PAGES
      invariant 0 <= i <= |pages| && Distinct(changed) && Distinct(deleted)
      invariant WalksTo(pages, i) && forall token :: token in seen <==> Named(pages, i, token)
      invariant TouchedBy(RecordsOf(pages)) == Elements(changed) + TouchedBy(RecordsOf(pages[i..]))
      invariant DeletedBy(RecordsOf(pages)) == Elements(deleted) + DeletedBy(RecordsOf(pages[i..]))
      invariant LastHistoryId(pages, start) == LastHistoryId(pages[i..], historyId)
    {
      if pages[i].HistoryPage? { HistoryStep(pages, i, historyId); }
      match pages[i]
      case TooOld =>
        Ends(pages, i, Some(HistoryTooOld));
        return Err(HistoryTooOld);
      case Unavailable =>
        Ends(pages, i, Some(RequestFailed));
        return Err(RequestFailed);
      case HistoryPage(records, named, next) =>
        historyId := if named.Some? then named.value else historyId;
        changed, deleted := Absorb(records, changed, deleted);
        RecordsConcat(records, if next == "" then [] else RecordsOf(pages[i + 1..]));
        NothingAbsorbed();
        if next == "" {
          var left := Without(changed, deleted);
          Ends(pages, i, None);
          return Ok(Plan(left, deleted, historyId));
        }
        if next in seen {
          Ends(pages, i, Some(TokenRepeated));
          return Err(TokenRepeated);
        }
        seen := seen + {next};
        i := i + 1;
    }
    plan := Err(if i == MAX_HISTORY_PAGES then TooManyPages else RequestFailed);
    Ends(pages, i, Some(plan.error));
  }

  /** One of the first `n` pages names `token`. */
  ghost predicate Named(pages: seq<HistoryResponse>, n: nat, token: string)
    requires WalksTo(pages, n)
  {
    exists j :: 0 <= j < n && pages[j].next == token
  }

  lemma Ends(pages: seq<HistoryResponse>, n: nat, end: Option<PlanError>)
    requires StopsAt(pages, n, end)
    ensures forall other :: HistoryEnds(pages, other) <==> other == end
  {
    assert HistoryEnds(pages, end);
    forall other | HistoryEnds(pages, other) ensures other == end {
      OneEnd(pages, end, other);
    }
  }

  lemma HistoryStep(pages: seq<HistoryResponse>, i: nat, start: nat)
    requires i < |pages| && pages[i].HistoryPage?
    ensures var id := if pages[i].historyId.Some? then pages[i].historyId.value else start;
            && RecordsOf(pages[i..])
               == pages[i].records + (if pages[i].next == "" then [] else RecordsOf(pages[i + 1..]))
            && LastHistoryId(pages[i..], start) == if pages[i].next == "" then id else LastHistoryId(pages[i + 1..], id)
  {
    assert pages[i..][0] == pages[i] && pages[i..][1..] == pages[i + 1..];
  }

  lemma NothingAbsorbed()
    ensures Elements<Id>([]) == {} && TouchedBy([]) == {} && DeletedBy([]) == {}
  {
  }

  // ---------------------------------------------------------------- what a Run emits

  /** A fetched message, or None when it no longer exists by the time it is fetched. */
  type Fetch = Id -> Option<Content>

  function Fetched(id: Id, content: Option<Content>): Record {
    if content.Some? then Message(id, content.value) else Gone(id)
  }

  /** Fetches what changed, then tombstones what went away. */
  method EmitPlanned(plan: Plan, fetch: Fetch) returns (out: seq<Record>)
    ensures |out| == |plan.changed| + |plan.deleted|
    ensures forall i :: 0 <= i < |plan.changed| ==> out[i] == Fetched(plan.changed[i], fetch(plan.changed[i]))
    ensures forall i :: 0 <= i < |plan.deleted| ==> out[|plan.changed| + i] == Gone(plan.deleted[i])
  {
    out := [];
    for i := 0 to |plan.changed|
      invariant |out| == i && forall k :: 0 <= k < i ==> out[k] == Fetched(plan.changed[k], fetch(plan.changed[k]))
    {
      var content := fetch(plan.changed[i]);
      if content.Some? {
        out := out + [Message(plan.changed[i], content.value)];
      } else {
        out := out + [Gone(plan.changed[i])];
      }
    }
    for i := 0 to |plan.deleted|
      invariant |out| == |plan.changed| + i
      invariant forall k :: 0 <= k < |plan.changed| ==> out[k] == Fetched(plan.changed[k], fetch(plan.changed[k]))
      invariant forall k :: 0 <= k < i ==> out[|plan.changed| + k] == Gone(plan.deleted[k])
    {
      out := out + [Gone(plan.deleted[i])];
    }
  }

  /** One listed message and what fetching it answered. */
  datatype Stub = Stub(id: Id, fetched: Option<Content>)

  datatype ListPage = ListPage(stubs: seq<Stub>, next: string)

  /** How one Run's share of a backfill ends: parked at a page, at the end of the list, or with a failed request. */
  datatype WalkEnd = Parked(token: string) | Finished | Broken

  datatype Walk = Walk(stubs: seq<Stub>, end: WalkEnd)

  function Walked(pages: seq<ListPage>, emitted: nat, cap: Option<nat>): Walk {
    if pages == [] then Walk([], Broken)
    else if pages[0].next == "" then Walk(pages[0].stubs, Finished)
    else if cap.Some? && emitted + |pages[0].stubs| >= cap.value then Walk(pages[0].stubs, Parked(pages[0].next))
    else
      var rest := Walked(pages[1..], emitted + |pages[0].stubs|, cap);
      Walk(pages[0].stubs + rest.stubs, rest.end)
  }

  lemma WalkStep(pages: seq<ListPage>, i: nat, emitted: nat, cap: Option<nat>)
    requires i <= |pages|
    ensures i == |pages| ==> Walked(pages[i..], emitted, cap) == Walk([], Broken)
    ensures i < |pages| && pages[i].next == "" ==>
              Walked(pages[i..], emitted, cap) == Walk(pages[i].stubs + [], Finished)
    ensures i < |pages| && pages[i].next != "" ==>
              var n := emitted + |pages[i].stubs|;
              Walked(pages[i..], emitted, cap) ==
                if cap.Some? && n >= cap.value then Walk(pages[i].stubs + [], Parked(pages[i].next))
                else Walk(pages[i].stubs + Walked(pages[i + 1..], n, cap).stubs, Walked(pages[i + 1..], n, cap).end)
  {
    if i < |pages| {
      assert pages[i..][0] == pages[i] && pages[i..][1..] == pages[i + 1..];
      assert pages[i].stubs + [] == pages[i].stubs;
    }
  }

  /** `done` are the stubs of the pages before `i`, and what is left of the walk starts there. */
  ghost predicate WalkedTo(pages: seq<ListPage>, i: nat, emitted: nat, cap: Option<nat>, done: seq<Stub>) {
    && i <= |pages|
    && Walked(pages, 0, cap).end == Walked(pages[i..], emitted, cap).end
    && Walked(pages, 0, cap).stubs == done + Walked(pages[i..], emitted, cap).stubs
  }

  lemma WalkBegins(pages: seq<ListPage>, cap: Option<nat>)
    ensures WalkedTo(pages, 0, 0, cap, [])
  {
    hide Walked;
    assert pages[0..] == pages;
  }

  lemma WalkGoesOn(pages: seq<ListPage>, i: nat, emitted: nat, cap: Option<nat>, done: seq<Stub>)
    requires WalkedTo(pages, i, emitted, cap, done)
    ensures i == |pages| ==> Walked(pages, 0, cap).end == Broken
    ensures i < |pages| ==>
              var n, more := emitted + |pages[i].stubs|, done + pages[i].stubs;
              if pages[i].next == "" then Walked(pages, 0, cap) == Walk(more, Finished)
              else if cap.Some? && n >= cap.value then Walked(pages, 0, cap) == Walk(more, Parked(pages[i].next))
              else WalkedTo(pages, i + 1, n, cap, more)
  {
    WalkStep(pages, i, emitted, cap);
    hide Walked;
    if i < |pages| {
      var stubs, rest := pages[i].stubs, Walked(pages[i + 1..], emitted + |pages[i].stubs|, cap).stubs;
      assert done + (stubs + rest) == (done + stubs) + rest && stubs + [] == stubs;
    }
  }

  lemma NoMessages()
    ensures Messages([]) == []
  {
  }

  function Messages(stubs: seq<Stub>): seq<Record> {
    if stubs == [] then []
    else
      var last := stubs[|stubs| - 1];
      Messages(stubs[..|stubs| - 1]) + if last.fetched.Some? then [Message(last.id, last.fetched.value)] else []
  }

  /** The resource state dlt keeps between Runs, saved only when a load succeeds. */
  datatype Saved = Saved(historyId: Option<nat>, resume: Option<string>, watermark: Option<nat>)

  /** Where a full sync starts: a parked backfill keeps its watermark, any other reads a new one. */
  function Watermark(s: Saved, profile: Option<nat>): Option<nat> {
    if s.resume.Some? && s.watermark.Some? then s.watermark else profile
  }

  function SavedAfter(s: Saved, profile: Option<nat>, end: WalkEnd): Saved {
    match end
    case Parked(token) => Saved(s.historyId, Some(token), Watermark(s, profile))
    case Finished => Saved(if Watermark(s, profile).Some? then Watermark(s, profile) else s.historyId, None, None)
    case Broken => s
  }

  /** `out` is what a plan over these records emits. */
  ghost predicate FollowsPlan(plan: Plan, records: seq<HistoryRecord>, fetch: Fetch, out: seq<Record>) {
    && Distinct(plan.changed) && Elements(plan.changed) == TouchedBy(records) - DeletedBy(records)
    && Distinct(plan.deleted) && Elements(plan.deleted) == DeletedBy(records)
    && |out| == |plan.changed| + |plan.deleted|
    && (forall i :: 0 <= i < |plan.changed| ==> out[i] == Fetched(plan.changed[i], fetch(plan.changed[i])))
    && (forall i :: 0 <= i < |plan.deleted| ==> out[|plan.changed| + i] == Gone(plan.deleted[i]))
  }

  /** What the provider answers to the requests of one Run. */
  datatype Answers = Answers(history: seq<HistoryResponse>, fetch: Fetch, profile: Option<nat>, pages: seq<ListPage>)

  /** One Run: which path it takes, whether it succeeds, what it emits, and the state it leaves. It replays the history
      from a stored id with no backfill parked, unless that history is too old: then, and without one, it runs its share
      of a full sync. It fails exactly when that walk does, and state moves only when it succeeds. */
  ghost predicate Emitted(before: Saved, answers: Answers, cap: Option<nat>, ok: bool, incremental: bool,
                          out: seq<Record>, after: Saved)
  {
    && (incremental <==>
          before.historyId.Some? && before.resume.None? && !HistoryEnds(answers.history, Some(HistoryTooOld)))
    && (ok <==> if incremental then HistoryEnds(answers.history, None)
                else !Walked(answers.pages, 0, cap).end.Broken?)
    && (ok && incremental ==>
          && after == before.(historyId := Some(LastHistoryId(answers.history, before.historyId.value)))
          && exists plan: Plan :: FollowsPlan(plan, RecordsOf(answers.history), answers.fetch, out))
    && (ok && !incremental ==>
          && !Walked(answers.pages, 0, cap).end.Broken?
          && after == SavedAfter(before, answers.profile, Walked(answers.pages, 0, cap).end)
          && out == Messages(Walked(answers.pages, 0, cap).stubs))
    && (!ok ==> after == before)
  }

  class Source {
    var historyId: Option<nat>
    var resume: Option<string>
    var watermark: Option<nat>

    ghost function State(): Saved
      reads this
    {
      Saved(historyId, resume, watermark)
    }

    constructor ()
      ensures State() == Saved(None, None, None)
    {
      historyId, resume, watermark := None, None, None;
    }

    /** One Run's share of a full sync. The watermark is read before the first page. */
    method FullSync(profile: Option<nat>, pages: seq<ListPage>, cap: Option<nat>) returns (ok: bool, out: seq<Record>)
      modifies this
      ensures var walk := Walked(pages, 0, cap);
              && ok == !walk.end.Broken?
              && State() == SavedAfter(old(State()), profile, walk.end)
              && (ok ==> out == Messages(walk.stubs))
    {
      hide Walked, Messages, WalkedTo;
      var mark := watermark;
      if resume.None? || watermark.None? {
        mark := profile;
      }
      out, ok := [], false;
      var emitted: nat, i := 0, 0;
      ghost var done: seq<Stub> := [];
      WalkBegins(pages, cap);
      NoMessages();
      while i < |pages|
        invariant 0 <= i <= |pages| && State() == old(State()) && out == Messages(done) && !ok
        invariant WalkedTo(pages, i, emitted, cap, done)
      {
        WalkGoesOn(pages, i, emitted, cap, done);
        var page := pages[i];
        var more := EmitPage(page.stubs);
        MessagesConcat(done, page.stubs);
        out, done, emitted := out + more, done + page.stubs, emitted + |page.stubs|;
        if cap.Some? && emitted >= cap.value && page.next != "" {
          resume, watermark := Some(page.next), mark;
          ok := true;
          return;
        }
        if page.next == "" {
          resume, watermark := None, None;
          if mark.Some? {
            historyId := mark;
          }
          ok := true;
          return;
        }
        i := i + 1;
      }
      WalkGoesOn(pages, i, emitted, cap, done);
    }

    method EmitPage(stubs: seq<Stub>) returns (out: seq<Record>)
      ensures out == Messages(stubs)
    {
      out := [];
      for i := 0 to |stubs|
        invariant out == Messages(stubs[..i])
      {
        assert stubs[..i + 1][..i] == stubs[..i];
        if stubs[i].fetched.Some? {
          out := out + [Message(stubs[i].id, stubs[i].fetched.value)];
        }
      }
      assert stubs[..|stubs|] == stubs;
    }

    /** Chooses a path and runs it; a history too old to read falls back to a full sync. */
    method EmitMessages(answers: Answers, cap: Option<nat>) returns (ok: bool, incremental: bool, out: seq<Record>)
      modifies this
      ensures Emitted(old(State()), answers, cap, ok, incremental, out, State())
    {
      ok, incremental, out := false, false, [];
      if historyId.Some? && resume.None? {
        var plan := PlanIncremental(historyId.value, answers.history);
        if plan.Ok? {
          out := EmitPlanned(plan.value, answers.fetch);
          historyId := Some(plan.value.historyId);
          assert FollowsPlan(plan.value, RecordsOf(answers.history), answers.fetch, out);
          return true, true, out;
        }
        if plan.error != HistoryTooOld {
          return false, true, out;
        }
      }
      ok, out := FullSync(answers.profile, answers.pages, cap);
    }
  }

  lemma {:induction false} MessagesConcat(a: seq<Stub>, b: seq<Stub>)
    ensures Messages(a + b) == Messages(a) + Messages(b)
    decreases |b|
  {
    if b == [] {
      assert a + b == a;
    } else {
      assert (a + b)[..|a + b| - 1] == a + b[..|b| - 1];
      MessagesConcat(a, b[..|b| - 1]);
    }
  }

  // ---------------------------------------------------------------- mailbox, source and landing table together

  /** `listed` are the ids the current backfill has listed in Runs that succeeded. */
  datatype World = World(log: seq<MailEvent>, landed: Table, saved: Saved, listed: set<Id>)

  /** A fetch made when the mailbox had seen `at` events. */
  predicate FetchedAt(log: seq<MailEvent>, at: nat, id: Id, content: Option<Content>) {
    at <= |log| && content == Lookup(Box(log[..at]), id)
  }

  /** A fetch made when the mailbox had seen `since` events, or later. */
  ghost predicate FetchedSince(log: seq<MailEvent>, since: nat, id: Id, content: Option<Content>) {
    exists at :: since <= at && FetchedAt(log, at, id, content)
  }

  datatype Step =
    | Mail(e: MailEvent)
    | FailedRun
    | Incremental(records: seq<HistoryRecord>, upTo: nat, fetch: Fetch, out: seq<Record>)
    | FullSync(profile: nat, stubs: seq<Stub>, end: WalkEnd)

  /** The history pages between two history ids: what was touched and what was deleted there, no more and no less. */
  ghost predicate Reports(log: seq<MailEvent>, from: nat, upTo: nat, records: seq<HistoryRecord>) {
    && from <= upTo <= |log|
    && (forall id :: id in TouchedBy(records) <==> exists i :: from <= i < upTo && log[i].Touched? && log[i].id == id)
    && (forall id :: id in DeletedBy(records) <==> WasDeleted(log, from, upTo, id))
  }

  /** Everything in the mailbox when the watermark was read and never deleted since has been listed. */
  predicate ListsAll(log: seq<MailEvent>, watermark: nat, listed: set<Id>) {
    watermark <= |log| && forall id :: id in Box(log[..watermark]) && Deleted(id) !in log[watermark..] ==> id in listed
  }

  function StubIds(stubs: seq<Stub>): set<Id> { set i | 0 <= i < |stubs| :: stubs[i].id }

  /** A backfill is under way exactly while a page token and its watermark are saved. */
  predicate Backfilling(s: Saved) { s.resume.Some? && s.watermark.Some? }

  ghost predicate Next(w: World, step: Step, v: World) {
    match step
    case Mail(e) => Orderly(w.log + [e]) && v == w.(log := w.log + [e])
    case FailedRun => v == w
    case Incremental(records, upTo, fetch, out) =>
      && w.saved.historyId.Some? && w.saved.resume.None?
      && Reports(w.log, w.saved.historyId.value, upTo, records)
      && (forall id :: FetchedSince(w.log, upTo, id, fetch(id)))
      && (exists plan: Plan :: FollowsPlan(plan, records, fetch, out))
      && Lands(w.landed, out, v.landed)
      && v == w.(landed := v.landed, saved := w.saved.(historyId := Some(upTo)))
    case FullSync(profile, stubs, end) =>
      && profile <= |w.log| && (w.saved.historyId.Some? ==> w.saved.historyId.value <= profile)
      && !end.Broken?
      && (forall i :: 0 <= i < |stubs| ==>
            FetchedSince(w.log, Watermark(w.saved, Some(profile)).value, stubs[i].id, stubs[i].fetched))
      && Lands(w.landed, Messages(stubs), v.landed)
      && (var listed := (if Backfilling(w.saved) then w.listed else {}) + StubIds(stubs);
          && (end.Finished? ==> ListsAll(w.log, Watermark(w.saved, Some(profile)).value, listed))
          && v == World(w.log, v.landed, SavedAfter(w.saved, Some(profile), end), if end.Finished? then {} else listed))
  }

  /** What the provider's documentation promises of its answers to one Run: history pages report exactly the events up
      to the id they name, messages are fetched after that or after the watermark, a profile names a history id no
      earlier than the saved one, and a finished listing has shown every message that stayed throughout. */
  ghost predicate Truthful(w: World, answers: Answers, cap: Option<nat>, incremental: bool) {
    if incremental then
      && w.saved.historyId.Some?
      && (var upTo := LastHistoryId(answers.history, w.saved.historyId.value);
          && Reports(w.log, w.saved.historyId.value, upTo, RecordsOf(answers.history))
          && forall id :: FetchedSince(w.log, upTo, id, answers.fetch(id)))
    else
      && answers.profile.Some? && answers.profile.value <= |w.log|
      && (w.saved.historyId.Some? ==> w.saved.historyId.value <= answers.profile.value)
      && (var walk, mark := Walked(answers.pages, 0, cap), Watermark(w.saved, answers.profile).value;
          && (forall i :: 0 <= i < |walk.stubs| ==>
                FetchedSince(w.log, mark, walk.stubs[i].id, walk.stubs[i].fetched))
          && (walk.end.Finished? ==>
                ListsAll(w.log, mark, (if Backfilling(w.saved) then w.listed else {}) + StubIds(walk.stubs))))
  }

  lemma IncrementalIsAStep(w: World, answers: Answers, cap: Option<nat>, out: seq<Record>, saved: Saved, v: World)
    requires Emitted(w.saved, answers, cap, true, true, out, saved) && Truthful(w, answers, cap, true)
    requires v == w.(landed := v.landed, saved := saved) && Lands(w.landed, out, v.landed)
    ensures var upTo := LastHistoryId(answers.history, w.saved.historyId.value);
            Next(w, Incremental(RecordsOf(answers.history), upTo, answers.fetch, out), v)
  {
  }

  lemma FullSyncIsAStep(w: World, answers: Answers, cap: Option<nat>, out: seq<Record>, saved: Saved, v: World)
    requires Emitted(w.saved, answers, cap, true, false, out, saved) && Truthful(w, answers, cap, false)
    requires Lands(w.landed, out, v.landed)
    requires var walk := Walked(answers.pages, 0, cap);
             var listed := (if Backfilling(w.saved) then w.listed else {}) + StubIds(walk.stubs);
             v == World(w.log, v.landed, saved, if walk.end.Finished? then {} else listed)
    ensures var walk := Walked(answers.pages, 0, cap);
            Next(w, FullSync(answers.profile.value, walk.stubs, walk.end), v)
  {
    hide Lands, Walked, Messages, ListsAll, FetchedSince;
    assert answers.profile == Some(answers.profile.value);
  }

  /** Each call of `Source.EmitMessages`, its load done, is one step of mailbox, source and landing table together. */
  lemma EachRunIsAStep(w: World, answers: Answers, cap: Option<nat>, ok: bool, incremental: bool, out: seq<Record>,
                       saved: Saved, landed: Table)
    returns (step: Step, v: World)
    requires Emitted(w.saved, answers, cap, ok, incremental, out, saved)
    requires ok ==> Truthful(w, answers, cap, incremental) && Lands(w.landed, out, landed)
    ensures Next(w, step, v) && v.log == w.log && v.saved == saved
    ensures v.landed == if ok then landed else w.landed
  {
    hide Lands;
    if !ok {
      step, v := FailedRun, w;
    } else if incremental {
      var upTo := LastHistoryId(answers.history, w.saved.historyId.value);
      step := Incremental(RecordsOf(answers.history), upTo, answers.fetch, out);
      v := w.(landed := landed, saved := saved);
      IncrementalIsAStep(w, answers, cap, out, saved, v);
    } else {
      var walk := Walked(answers.pages, 0, cap);
      var listed := (if Backfilling(w.saved) then w.listed else {}) + StubIds(walk.stubs);
      step := FullSync(answers.profile.value, walk.stubs, walk.end);
      v := World(w.log, landed, saved, if walk.end.Finished? then {} else listed);
      FullSyncIsAStep(w, answers, cap, out, saved, v);
    }
  }

  ghost predicate Initial(w: World) { w == World([], map[], Saved(None, None, None), {}) }

  ghost predicate Trace(worlds: seq<World>, steps: seq<Step>) {
    && |worlds| == |steps| + 1
    && Initial(worlds[0])
    && forall i :: 0 <= i < |steps| ==> Next(worlds[i], steps[i], worlds[i + 1])
  }

  /** The landing table holds this message as the mailbox does now. */
  predicate Current(w: World, id: Id) {
    id in w.landed && id in Box(w.log) && w.landed[id] == Live(Box(w.log)[id])
  }

  /** Every message (of `ids`, if given) that exists and has not changed since history id `since` is landed as it is. */
  ghost predicate Caught(w: World, since: nat, ids: Option<set<Id>>) {
    forall id :: (ids.Some? ==> id in ids.value) && id in Box(w.log) && Untouched(w.log, since, id) ==> Current(w, id)
  }

  ghost predicate Inv(w: World) {
    && Orderly(w.log)
    && (w.saved.resume.Some? <==> w.saved.watermark.Some?)
    && (w.saved.historyId.Some? ==> w.saved.historyId.value <= |w.log| && Caught(w, w.saved.historyId.value, None))
    && (Backfilling(w.saved) ==>
          && w.saved.watermark.value <= |w.log|
          && (w.saved.historyId.Some? ==> w.saved.historyId.value <= w.saved.watermark.value)
          && Caught(w, w.saved.watermark.value, Some(w.listed)))
  }

  lemma MailKeepsCaught(w: World, e: MailEvent, since: nat, ids: Option<set<Id>>)
    requires since <= |w.log| && Caught(w, since, ids)
    ensures Caught(w.(log := w.log + [e]), since, ids)
  {
    var v := w.(log := w.log + [e]);
    assert v.log[..|w.log|] == w.log;
    forall id | (ids.Some? ==> id in ids.value) && id in Box(v.log) && Untouched(v.log, since, id)
      ensures Current(v, id)
    {
      assert v.log[|w.log|].id != id;
      assert forall i :: since <= i < |w.log| ==> v.log[i] == w.log[i];
      assert Untouched(w.log, since, id);
    }
  }

  /** A record fetched at or after `since` for a message unchanged since then carries what it holds now. */
  lemma FetchIsCurrent(log: seq<MailEvent>, since: nat, id: Id, content: Option<Content>)
    requires FetchedSince(log, since, id, content) && Untouched(log, since, id)
    ensures content == Lookup(Box(log), id)
  {
    var at :| since <= at && FetchedAt(log, at, id, content);
    UntouchedReadsTheSame(log, at, id);
  }

  lemma FetchedEarlier(log: seq<MailEvent>, since: nat, mark: nat, id: Id, content: Option<Content>)
    requires since <= mark && FetchedSince(log, mark, id, content)
    ensures FetchedSince(log, since, id, content)
  {
  }

  /** A listed message that was still there when it was fetched. */
  ghost predicate Comes(stubs: seq<Stub>, r: Record) {
    exists i :: 0 <= i < |stubs| && stubs[i].fetched.Some? && r == Message(stubs[i].id, stubs[i].fetched.value)
  }

  lemma StubOf(stubs: seq<Stub>, r: Record) returns (i: nat)
    requires Comes(stubs, r)
    ensures i < |stubs| && stubs[i].fetched.Some? && r == Message(stubs[i].id, stubs[i].fetched.value)
  {
    i :| 0 <= i < |stubs| && stubs[i].fetched.Some? && r == Message(stubs[i].id, stubs[i].fetched.value);
  }

  lemma {:induction false} MessagesAre(stubs: seq<Stub>)
    ensures forall r :: r in Messages(stubs) <==> Comes(stubs, r)
  {
    if stubs != [] {
      var n := |stubs| - 1;
      MessagesAre(stubs[..n]);
      forall r: Record ensures r in Messages(stubs) <==> Comes(stubs, r) {
        if Comes(stubs[..n], r) {
          var i := StubOf(stubs[..n], r);
          assert stubs[i] == stubs[..n][i];
          assert Comes(stubs, r);
        }
        if Comes(stubs, r) {
          var i := StubOf(stubs, r);
          if i < n { assert stubs[..n][i] == stubs[i]; }
        }
        if r in Messages(stubs) && !Comes(stubs[..n], r) {
          assert stubs[n].fetched.Some? && r == Message(stubs[n].id, stubs[n].fetched.value);
        }
      }
    }
  }

  /** When every record a load carries for a message says the same, that is what is landed. */
  lemma LandsTheOnlyRow(before: Table, out: seq<Record>, after: Table, id: Id, row: Landing)
    requires Lands(before, out, after) && id in Ids(out)
    requires forall k :: 0 <= k < |out| && out[k].id == id ==> Row(out[k]) == row
    ensures id in after && after[id] == row
  {
  }

  lemma LandsCases(before: Table, out: seq<Record>, after: Table, id: Id) returns (k: nat)
    requires Lands(before, out, after) && (id in after || id in before)
    ensures id in after
    ensures if id in Ids(out) then k < |out| && out[k].id == id && after[id] == Row(out[k])
            else id in before && after[id] == before[id]
  {
    k := 0;
    if id in Ids(out) {
      k :| 0 <= k < |out| && out[k].id == id && after[id] == Row(out[k]);
    }
  }

  lemma LandsKeeps(before: Table, out: seq<Record>, after: Table, id: Id)
    requires Lands(before, out, after) && id in before && id !in Ids(out)
    ensures id in after && after[id] == before[id]
  {
  }

  /** What a full sync lands for a message unchanged since `since`: its present content, or what was there before. */
  lemma FullSyncLands(w: World, step: Step, v: World, since: nat, id: Id)
    requires Next(w, step, v) && step.FullSync? && since <= Watermark(w.saved, Some(step.profile)).value
    requires id in Box(w.log) && Untouched(w.log, since, id)
    ensures id in StubIds(step.stubs) ==> Current(v, id)
    ensures id !in StubIds(step.stubs) && id in w.landed ==> id in v.landed && v.landed[id] == w.landed[id]
  {
    var out := Messages(step.stubs);
    var row := Message(id, Box(w.log)[id]);
    MessagesAre(step.stubs);
    forall i | 0 <= i < |step.stubs| && step.stubs[i].id == id ensures step.stubs[i].fetched == Some(Box(w.log)[id]) {
      FetchedEarlier(w.log, since, Watermark(w.saved, Some(step.profile)).value, id, step.stubs[i].fetched);
      FetchIsCurrent(w.log, since, id, step.stubs[i].fetched);
    }
    forall k | 0 <= k < |out| ensures out[k].id == id ==> out[k] == row && id in StubIds(step.stubs) {
      assert out[k] in out && Comes(step.stubs, out[k]);
      var i := StubOf(step.stubs, out[k]);
    }
    if id in StubIds(step.stubs) {
      var i :| 0 <= i < |step.stubs| && step.stubs[i].id == id;
      assert Comes(step.stubs, row) && row in out;
      var k :| 0 <= k < |out| && out[k] == row;
      assert out[k].id in Ids(out);
      LandsTheOnlyRow(w.landed, out, v.landed, id, Live(Box(w.log)[id]));
    } else {
      assert id !in Ids(out);
      if id in w.landed { LandsKeeps(w.landed, out, v.landed, id); }
    }
  }

  lemma FullSyncKeepsInv(w: World, step: Step, v: World)
    requires Inv(w) && Next(w, step, v) && step.FullSync?
    ensures Inv(v)
  {
    var mark := Watermark(w.saved, Some(step.profile)).value;
    var listed := (if Backfilling(w.saved) then w.listed else {}) + StubIds(step.stubs);
    hide Lands, Messages, Orderly, Untouched, FetchedAt;
    if w.saved.historyId.Some? {
      forall id | id in Box(v.log) && Untouched(v.log, w.saved.historyId.value, id) ensures Current(v, id) {
        assert Current(w, id);
        FullSyncLands(w, step, v, w.saved.historyId.value, id);
      }
      assert Caught(v, w.saved.historyId.value, None);
    }
    forall id | id in listed && id in Box(v.log) && Untouched(v.log, mark, id) ensures Current(v, id) {
      if id !in StubIds(step.stubs) { assert Current(w, id); }
      FullSyncLands(w, step, v, mark, id);
    }
    assert Caught(v, mark, Some(listed));
    assert v.saved == SavedAfter(w.saved, Some(step.profile), step.end);
    if step.end.Finished? {
      assert ListsAll(w.log, mark, listed);
      forall id | id in Box(v.log) && Untouched(v.log, mark, id) ensures Current(v, id) {
        WasThere(w.log, mark, id);
        assert id in listed;
      }
      assert Caught(v, mark, None);
    }
  }

  /** A message that is here and unchanged since `since` was here then, and was not deleted after. */
  lemma WasThere(log: seq<MailEvent>, since: nat, id: Id)
    requires since <= |log| && id in Box(log) && Untouched(log, since, id)
    ensures id in Box(log[..since]) && Deleted(id) !in log[since..]
  {
    UntouchedReadsTheSame(log, since, id);
    assert forall i :: 0 <= i < |log| - since ==> log[since..][i] == log[since + i];
  }

  // ---------------------------------------------------------------- incremental Runs

  /** Which records an incremental Run emits for a message. */
  lemma PlannedRecords(plan: Plan, records: seq<HistoryRecord>, fetch: Fetch, out: seq<Record>, id: Id)
    requires FollowsPlan(plan, records, fetch, out)
    ensures id in Ids(out) <==> id in TouchedBy(records) || id in DeletedBy(records)
    ensures id in DeletedBy(records) ==> forall k :: 0 <= k < |out| && out[k].id == id ==> out[k] == Gone(id)
    ensures id !in DeletedBy(records) ==>
              forall k :: 0 <= k < |out| && out[k].id == id ==> out[k] == Fetched(id, fetch(id))
  {
    hide TouchedBy, DeletedBy;
    var n := |plan.changed|;
    forall k | 0 <= k < |out|
      ensures if k < n then out[k].id == plan.changed[k] && out[k].id in Elements(plan.changed)
              else out[k] == Gone(plan.deleted[k - n]) && out[k].id in Elements(plan.deleted)
    {
      if k >= n { assert out[n + (k - n)] == Gone(plan.deleted[k - n]); }
    }
    if id in Elements(plan.changed) {
      var i :| 0 <= i < n && plan.changed[i] == id;
      assert out[i].id in Ids(out);
    }
    if id in Elements(plan.deleted) {
      var i :| 0 <= i < |plan.deleted| && plan.deleted[i] == id;
      assert out[n + i].id in Ids(out);
    }
  }

  lemma IncrementalKeepsInv(w: World, step: Step, v: World)
    requires Inv(w) && Next(w, step, v) && step.Incremental?
    ensures Inv(v)
  {
    forall id | id in Box(v.log) && Untouched(v.log, step.upTo, id) ensures Current(v, id) {
      IncrementalLands(w, step, v, id);
    }
  }

  lemma IncrementalLands(w: World, step: Step, v: World, id: Id)
    requires Inv(w) && Next(w, step, v) && step.Incremental?
    requires id in Box(w.log) && Untouched(w.log, step.upTo, id)
    ensures Current(v, id)
  {
    var h := w.saved.historyId.value;
    var plan: Plan :| FollowsPlan(plan, step.records, step.fetch, step.out);
    PlannedRecords(plan, step.records, step.fetch, step.out, id);
    hide FollowsPlan, TouchedBy, DeletedBy, Box, FetchedSince, Lands;
    if id in Ids(step.out) {
      NeverDeleted(w.log, id);
      assert id !in DeletedBy(step.records);
      FetchIsCurrent(w.log, step.upTo, id, step.fetch(id));
      LandsTheOnlyRow(w.landed, step.out, v.landed, id, Live(Box(w.log)[id]));
    } else {
      NotReported(w.log, h, step.upTo, step.records, id);
      assert Current(w, id);
      LandsKeeps(w.landed, step.out, v.landed, id);
    }
  }

  lemma NeverDeleted(log: seq<MailEvent>, id: Id)
    requires Orderly(log) && id in Box(log)
    ensures Deleted(id) !in log
  {
    InBoxIff(log, id);
  }

  /** A message history says nothing about between two ids, and untouched after the second, is untouched since the
      first. */
  lemma NotReported(log: seq<MailEvent>, from: nat, upTo: nat, records: seq<HistoryRecord>, id: Id)
    requires Reports(log, from, upTo, records) && Untouched(log, upTo, id)
    requires id !in TouchedBy(records) && id !in DeletedBy(records)
    ensures Untouched(log, from, id)
  {
    assert forall i :: from <= i < upTo ==> log[from..upTo][i - from] == log[i];
  }

  lemma StepKeepsInv(w: World, step: Step, v: World)
    requires Inv(w) && Next(w, step, v)
    ensures Inv(v)
  {
    match step {
      case Mail(e) =>
        if w.saved.historyId.Some? { MailKeepsCaught(w, e, w.saved.historyId.value, None); }
        if Backfilling(w.saved) { MailKeepsCaught(w, e, w.saved.watermark.value, Some(w.listed)); }
      case FailedRun =>
      case Incremental(_, _, _, _) => IncrementalKeepsInv(w, step, v);
      case FullSync(_, _, _) => FullSyncKeepsInv(w, step, v);
    }
  }

  lemma {:induction false} TraceKeepsInv(worlds: seq<World>, steps: seq<Step>, i: nat)
    requires Trace(worlds, steps) && i < |worlds|
    ensures Inv(worlds[i])
  {
    hide Next, Inv;
    if i == 0 {
      InitialInv(worlds[0]);
    } else {
      TraceKeepsInv(worlds, steps, i - 1);
      StepKeepsInv(worlds[i - 1], steps[i - 1], worlds[i]);
    }
  }

  lemma InitialInv(w: World)
    requires Initial(w)
    ensures Inv(w)
  {
  }

  // ---------------------------------------------------------------- what the watermark promises

  /** Over any interleaving of mail with parked, resumed, failed and incremental Runs: every message that exists and
      has not changed since the stored history id is landed with its present content. */
  lemma WatermarkInvariant(worlds: seq<World>, steps: seq<Step>, i: nat, id: Id)
    requires Trace(worlds, steps) && i < |worlds| && worlds[i].saved.historyId.Some?
    requires id in Box(worlds[i].log) && Untouched(worlds[i].log, worlds[i].saved.historyId.value, id)
    ensures id in worlds[i].landed && worlds[i].landed[id] == Live(Box(worlds[i].log)[id])
  {
    TraceKeepsInv(worlds, steps, i);
    assert Current(worlds[i], id);
  }

  /** Every message deleted after the committed watermark is a tombstone after the next incremental Run. */
  lemma DeletionsAreTombstoned(w: World, step: Step, v: World, id: Id)
    requires Next(w, step, v) && step.Incremental? && WasDeleted(w.log, w.saved.historyId.value, step.upTo, id)
    ensures id in v.landed && v.landed[id] == Dead
  {
    var plan: Plan :| FollowsPlan(plan, step.records, step.fetch, step.out);
    PlannedRecords(plan, step.records, step.fetch, step.out, id);
    hide FollowsPlan, Box;
    LandsTheOnlyRow(w.landed, step.out, v.landed, id, Dead);
  }

  // ---------------------------------------------------------------- rows of messages that are gone

  /** The history id up to which deletions are known to have been replayed. */
  function Bound(s: Saved): Option<nat> { if Backfilling(s) then s.watermark else s.historyId }

  predicate IsLive(landed: Table, id: Id) { id in landed && landed[id].Live? }

  predicate WasTouched(log: seq<MailEvent>, id: Id) { exists i :: 0 <= i < |log| && log[i].Touched? && log[i].id == id }

  /** No live row belongs to a message deleted before `bound`. */
  ghost predicate NoGhosts(log: seq<MailEvent>, landed: Table, bound: Option<nat>) {
    forall id :: IsLive(landed, id) ==>
      WasTouched(log, id) && bound.Some? && bound.value <= |log| && Deleted(id) !in log[..bound.value]
  }

  /** A full sync that reads a new watermark. */
  predicate StartsOver(w: World, step: Step) { step.FullSync? && !Backfilling(w.saved) }

  /** Nothing this table shows as live was deleted before a new watermark. */
  ghost predicate GapFree(w: World, step: Step) {
    StartsOver(w, step) && step.profile <= |w.log| ==>
      forall id :: IsLive(w.landed, id) ==> Deleted(id) !in w.log[..step.profile]
  }

  /** A message fetched alive was touched, and not deleted by then. */
  lemma FetchedAliveWasTouched(log: seq<MailEvent>, since: nat, id: Id, content: Option<Content>)
    requires Orderly(log) && FetchedSince(log, since, id, content) && content.Some?
    ensures since <= |log| && WasTouched(log, id) && Deleted(id) !in log[..since]
  {
    var at :| since <= at && FetchedAt(log, at, id, content);
    assert Orderly(log[..at]);
    InBoxIff(log[..at], id);
    var i :| 0 <= i < at && log[..at][i].Touched? && log[..at][i].id == id;
    assert log[i].id == id;
    assert forall k :: 0 <= k < since ==> log[..since][k] == log[..at][k];
  }

  /** What makes a row live after a full sync: a message fetched alive, or a live row it did not replace. */
  lemma LiveAfterFullSync(w: World, step: Step, v: World, id: Id)
    requires Inv(w) && Next(w, step, v) && step.FullSync?
    ensures Watermark(w.saved, Some(step.profile)).value <= |w.log|
    ensures IsLive(v.landed, id) ==>
              || (WasTouched(w.log, id) && Deleted(id) !in w.log[..Watermark(w.saved, Some(step.profile)).value])
              || IsLive(w.landed, id)
    ensures IsLive(w.landed, id) ==> IsLive(v.landed, id)
  {
    var mark, out := Watermark(w.saved, Some(step.profile)).value, Messages(step.stubs);
    MessagesAre(step.stubs);
    if IsLive(v.landed, id) || IsLive(w.landed, id) {
      var k := LandsCases(w.landed, out, v.landed, id);
      if id in Ids(out) {
        assert out[k] in out && Comes(step.stubs, out[k]);
        var i := StubOf(step.stubs, out[k]);
        FetchedAliveWasTouched(w.log, mark, id, step.stubs[i].fetched);
      }
    }
  }

  /** Starting over keeps the table free of ghosts exactly when nothing live was deleted in the gap: a full sync
      lists what exists, and cannot see what does not. */
  lemma StartingOverKeepsIff(w: World, step: Step, v: World)
    requires Inv(w) && Next(w, step, v) && StartsOver(w, step) && NoGhosts(w.log, w.landed, Bound(w.saved))
    ensures NoGhosts(v.log, v.landed, Bound(v.saved)) <==> GapFree(w, step)
  {
    hide Lands, Messages, Caught, ListsAll, Box, WasTouched;
    assert v.saved == SavedAfter(w.saved, Some(step.profile), step.end);
    assert Bound(v.saved) == Some(step.profile) && v.log == w.log;
    forall id ensures (IsLive(w.landed, id) ==> IsLive(v.landed, id))
                   && (IsLive(v.landed, id) ==>
                         || IsLive(w.landed, id)
                         || (WasTouched(w.log, id) && Deleted(id) !in w.log[..step.profile]))
    {
      LiveAfterFullSync(w, step, v, id);
    }
  }

  lemma LiveAfterIncremental(w: World, step: Step, v: World, id: Id)
    requires Inv(w) && Next(w, step, v) && step.Incremental? && IsLive(v.landed, id)
    requires IsLive(w.landed, id) ==> WasTouched(w.log, id) && Deleted(id) !in w.log[..w.saved.historyId.value]
    ensures WasTouched(w.log, id) && Deleted(id) !in w.log[..step.upTo]
  {
    var h := w.saved.historyId.value;
    var plan: Plan :| FollowsPlan(plan, step.records, step.fetch, step.out);
    PlannedRecords(plan, step.records, step.fetch, step.out, id);
    var k := LandsCases(w.landed, step.out, v.landed, id);
    hide Inv, FollowsPlan, Box, Caught, TouchedBy, DeletedBy, Lands, Orderly, WasTouched, FetchedSince, WasDeleted;
    if id in Ids(step.out) {
      assert step.out[k] == Fetched(id, step.fetch(id));
      FetchedAliveWasTouched(w.log, step.upTo, id, step.fetch(id));
    } else {
      StillNotDeleted(w.log, h, step.upTo, id);
    }
  }

  lemma StillNotDeleted(log: seq<MailEvent>, from: nat, to: nat, id: Id)
    requires from <= to <= |log| && Deleted(id) !in log[..from] && !WasDeleted(log, from, to, id)
    ensures Deleted(id) !in log[..to]
  {
    assert log[..to] == log[..from] + log[from..to];
  }

  lemma IncrementalKeepsNoGhosts(w: World, step: Step, v: World)
    requires Inv(w) && Next(w, step, v) && step.Incremental? && NoGhosts(w.log, w.landed, Bound(w.saved))
    ensures NoGhosts(v.log, v.landed, Bound(v.saved))
  {
    hide Lands, Caught, Box, WasTouched, FollowsPlan, FetchedAt;
    forall id | IsLive(v.landed, id) ensures WasTouched(w.log, id) && Deleted(id) !in w.log[..step.upTo] {
      LiveAfterIncremental(w, step, v, id);
    }
  }

  lemma StepKeepsNoGhosts(w: World, step: Step, v: World)
    requires Inv(w) && Next(w, step, v) && NoGhosts(w.log, w.landed, Bound(w.saved)) && GapFree(w, step)
    ensures NoGhosts(v.log, v.landed, Bound(v.saved))
  {
    match step {
      case Mail(e) => MailKeepsNoGhosts(w.log, e, w.landed, Bound(w.saved));
      case FailedRun =>
      case Incremental(_, _, _, _) => IncrementalKeepsNoGhosts(w, step, v);
      case FullSync(_, _, _) =>
        if StartsOver(w, step) { StartingOverKeepsIff(w, step, v); } else { ResumingKeepsNoGhosts(w, step, v); }
    }
  }

  lemma MailKeepsNoGhosts(log: seq<MailEvent>, e: MailEvent, landed: Table, bound: Option<nat>)
    requires NoGhosts(log, landed, bound)
    ensures NoGhosts(log + [e], landed, bound)
  {
    forall id | IsLive(landed, id) ensures WasTouched(log + [e], id) && Deleted(id) !in (log + [e])[..bound.value] {
      var i :| 0 <= i < |log| && log[i].Touched? && log[i].id == id;
      assert (log + [e])[i] == log[i];
      assert (log + [e])[..bound.value] == log[..bound.value];
    }
  }

  lemma ResumingKeepsNoGhosts(w: World, step: Step, v: World)
    requires Inv(w) && Next(w, step, v) && step.FullSync? && Backfilling(w.saved)
    requires NoGhosts(w.log, w.landed, Bound(w.saved))
    ensures NoGhosts(v.log, v.landed, Bound(v.saved))
  {
    hide Lands, Messages, Caught, ListsAll, Box, WasTouched;
    assert v.saved == SavedAfter(w.saved, Some(step.profile), step.end);
    assert Bound(v.saved) == w.saved.watermark && v.log == w.log;
    forall id | IsLive(v.landed, id) ensures WasTouched(w.log, id) && Deleted(id) !in w.log[..w.saved.watermark.value] {
      LiveAfterFullSync(w, step, v, id);
    }
  }

  lemma {:induction false} TraceKeepsNoGhosts(worlds: seq<World>, steps: seq<Step>, i: nat)
    requires Trace(worlds, steps) && i < |worlds|
    requires forall k :: 0 <= k < |steps| ==> GapFree(worlds[k], steps[k])
    ensures NoGhosts(worlds[i].log, worlds[i].landed, Bound(worlds[i].saved))
  {
    hide Next, Inv, GapFree;
    if i == 0 {
      assert worlds[0].landed == map[];
    } else {
      hide NoGhosts, Initial;
      TraceKeepsNoGhosts(worlds, steps, i - 1);
      TraceKeepsInv(worlds, steps, i - 1);
      StepKeepsNoGhosts(worlds[i - 1], steps[i - 1], worlds[i]);
    }
  }

  /** Once the source has caught up, and no full sync ever started over a gap, the live rows are the mailbox. */
  lemma CaughtUpMirrorsTheMailbox(worlds: seq<World>, steps: seq<Step>, i: nat, id: Id)
    requires Trace(worlds, steps) && i < |worlds|
    requires forall k :: 0 <= k < |steps| ==> GapFree(worlds[k], steps[k])
    requires worlds[i].saved.historyId == Some(|worlds[i].log|)
    ensures var (box, landed) := (Box(worlds[i].log), worlds[i].landed);
            && (IsLive(landed, id) <==> id in box)
            && (id in box ==> landed[id] == Live(box[id]))
  {
    var w := worlds[i];
    TraceKeepsInv(worlds, steps, i);
    TraceKeepsNoGhosts(worlds, steps, i);
    hide Next, Trace;
    if id in Box(w.log) {
      assert Current(w, id);
    }
    if IsLive(w.landed, id) {
      assert Bound(w.saved).value == |w.log|;
      assert w.log[..|w.log|] == w.log;
      InBoxIff(w.log, id);
    }
  }

  // ---------------------------------------------------------------- a gap

  /** The worlds of a message that lands, is deleted while the history grows too old, and is missed by the full sync
      that starts over. */
  function Missed(id: Id, content: Content): seq<World> {
    var came, went := [Touched(id, content)], [Touched(id, content), Deleted(id)];
    [World([], map[], Saved(None, None, None), {}),
     World(came, map[], Saved(None, None, None), {}),
     World(came, map[id := Live(content)], Saved(Some(1), None, None), {}),
     World(went, map[id := Live(content)], Saved(Some(1), None, None), {}),
     World(went, map[id := Live(content)], Saved(Some(2), None, None), {})]
  }

  function Missing(id: Id, content: Content): seq<Step> {
    [Mail(Touched(id, content)), FullSync(1, [Stub(id, Some(content))], Finished), Mail(Deleted(id)),
     FullSync(2, [], Finished)]
  }

  lemma MailboxOf(id: Id, content: Content)
    ensures Box([Touched(id, content)]) == map[id := content]
    ensures Box([Touched(id, content), Deleted(id)]) == map[]
  {
    var came, went := [Touched(id, content)], [Touched(id, content), Deleted(id)];
    assert came[..0] == [] && went[..1] == came;
  }

  lemma MessageLands(id: Id, content: Content)
    ensures var w := Missed(id, content); Next(w[1], FullSync(1, [Stub(id, Some(content))], Finished), w[2])
  {
    var w, stubs := Missed(id, content), [Stub(id, Some(content))];
    MailboxOf(id, content);
    assert w[1].log[..1] == w[1].log;
    assert FetchedAt(w[1].log, 1, id, Some(content));
    assert stubs[..0] == [] && Messages(stubs) == [Message(id, content)];
    assert Ids([Message(id, content)]) == {id} by { assert [Message(id, content)][0].id == id; }
    assert Lands(w[1].landed, [Message(id, content)], w[2].landed);
    assert StubIds(stubs) == {id} by { assert stubs[0].id == id; }
  }

  lemma DeletionIsMissed(id: Id, content: Content)
    ensures var w := Missed(id, content); Next(w[3], FullSync(2, [], Finished), w[4])
  {
    var w := Missed(id, content);
    MailboxOf(id, content);
    assert w[3].log[..2] == w[3].log;
    assert Lands(w[3].landed, [], w[4].landed);
  }

  /** Such a history, for every message: the source has caught up, the message is gone from the mailbox, and its row
      still shows it as live. */
  lemma GapLeavesAGhost(id: Id, content: Content)
    ensures Trace(Missed(id, content), Missing(id, content))
    ensures var w := Missed(id, content)[4];
            w.saved.historyId == Some(|w.log|) && id !in Box(w.log) && IsLive(w.landed, id)
  {
    var w, steps := Missed(id, content), Missing(id, content);
    MailboxOf(id, content);
    MessageLands(id, content);
    DeletionIsMissed(id, content);
    hide Box, Lands, FetchedSince, ListsAll, Messages;
    assert w[0].log + [Touched(id, content)] == w[1].log && w[2].log + [Deleted(id)] == w[3].log;
    assert Next(w[0], steps[0], w[1]) && Next(w[2], steps[2], w[3]);
  }
}
