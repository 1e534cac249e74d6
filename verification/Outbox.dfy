/**
 The anomaly service's webhook outbox: one row per endpoint and event, a log of delivery
 attempts, and one dispatcher that claims due rows and records what became of each. Every SQL
 statement is one atomic update; sending is an arbitrary yes or no.
 */
module Outbox {
  import opened Wrappers

  datatype Status = Pending | Retry | Delivered | DeadLetter
  {
    predicate Active() { Pending? || Retry? }
  }

  datatype Endpoint = Endpoint(enabled: bool, maxAttempts: int)

  datatype Row = Row(endpoint: nat, event: nat, status: Status, attempts: nat, due: int)

  datatype Attempt = Attempt(id: nat, number: nat, success: bool)

  /** A claimed row as the dispatcher read it. */
  datatype Claim = Claim(id: nat, attempts: nat, maxAttempts: int)

  datatype Tables = Tables(endpoints: map<nat, Endpoint>, outbox: map<nat, Row>, nextId: nat, log: seq<Attempt>)

  // ------------------------------------------------------------------------- backoff

  function Pow2(n: nat): nat {
    if n == 0 then 1 else 2 * Pow2(n - 1)
  }

  /** next_backoff_seconds */
  function Backoff(attempts: int): nat {
    var bounded := if attempts < 0 then 0 else if attempts > 8 then 8 else attempts;
    if Pow2(bounded) < 300 then Pow2(bounded) else 300
  }

  lemma Pow2Of8()
    ensures Pow2(8) == 256 && forall n: nat :: n <= 8 ==> Pow2(n) <= 256
  {
    assert Pow2(4) == 16;
    assert Pow2(8) == 16 * Pow2(4);
    forall n: nat | n <= 8 ensures Pow2(n) <= 256 { Pow2Grows(n, 8); }
  }

  lemma {:induction false} Pow2Grows(n: nat, m: nat)
    requires n <= m
    ensures 1 <= Pow2(n) <= Pow2(m)
    decreases m
  {
    if n < m { Pow2Grows(n, m - 1); } else if n > 0 { Pow2Grows(n - 1, n - 1); }
  }

  /** Delays start at one second, double up to 256 and stay there; the limit of 300 never bites. */
  lemma BackoffDoubles(k: nat)
    ensures Backoff(0) == 1 && Backoff(k) <= 256
    ensures k < 8 ==> Backoff(k + 1) == 2 * Backoff(k)
    ensures k >= 8 ==> Backoff(k) == 256
  {
    Pow2Of8();
  }

  // ------------------------------------------------------------------------ statements

  predicate Taken(outbox: map<nat, Row>, endpoint: nat, event: nat) {
    exists id :: id in outbox && outbox[id].endpoint == endpoint && outbox[id].event == event
  }

  /** INSERT ... ON CONFLICT DO NOTHING; the id sequence moves on in any case. */
  function Insert(t: Tables, endpoint: nat, event: nat, now: int): Tables {
    if Taken(t.outbox, endpoint, event) then t.(nextId := t.nextId + 1)
    else t.(outbox := t.outbox[t.nextId := Row(endpoint, event, Pending, 0, now)], nextId := t.nextId + 1)
  }

  function InsertAll(t: Tables, endpoints: seq<nat>, event: nat, now: int): Tables {
    if endpoints == [] then t
    else Insert(InsertAll(t, endpoints[..|endpoints| - 1], event, now), endpoints[|endpoints| - 1], event, now)
  }

  function FailureStatus(c: Claim): Status {
    if c.attempts + 1 >= c.maxAttempts then DeadLetter else Retry
  }

  /** The log entry and the row update of one recorded attempt; UPDATE ignores a missing row. */
  function Recorded(t: Tables, c: Claim, success: bool, now: int): Tables {
    var logged := t.(log := t.log + [Attempt(c.id, c.attempts + 1, success)]);
    if c.id !in t.outbox then logged
    else
      var row := t.outbox[c.id];
      var after := if success then row.(status := Delivered, attempts := row.attempts + 1)
                   else row.(status := FailureStatus(c), attempts := row.attempts + 1, due := now + Backoff(c.attempts));
      logged.(outbox := t.outbox[c.id := after])
  }

  /** Apart from the claim's own row, only the log grows, by the attempt's entry. */
  ghost predicate OnlyAttempt(t: Tables, u: Tables, c: Claim, success: bool) {
    && u.log == t.log + [Attempt(c.id, c.attempts + 1, success)] && u.endpoints == t.endpoints && u.nextId == t.nextId
    && u.outbox.Keys == t.outbox.Keys && forall id :: id in t.outbox && id != c.id ==> u.outbox[id] == t.outbox[id]
  }

  /** What one attempt makes of a row: delivered, or due again after the delay, or given up. */
  ghost predicate AttemptMade(before: Row, after: Row, maxAttempts: int, success: bool, at: int) {
    && after.endpoint == before.endpoint && after.event == before.event && after.attempts == before.attempts + 1
    && (success ==> after.status == Delivered && after.due == before.due)
    && (!success ==> after.status == (if after.attempts < maxAttempts then Retry else DeadLetter)
                     && after.due == at + Backoff(before.attempts))
  }

  predicate Eligible(t: Tables, id: nat, now: int) {
    && id in t.outbox && t.outbox[id].status.Active() && t.outbox[id].due <= now
    && t.outbox[id].endpoint in t.endpoints && t.endpoints[t.outbox[id].endpoint].enabled
  }

  /** ORDER BY next_attempt_at, outbox_id */
  predicate Before(t: Tables, a: nat, b: nat)
    requires a in t.outbox && b in t.outbox
  {
    t.outbox[a].due < t.outbox[b].due || (t.outbox[a].due == t.outbox[b].due && a < b)
  }

  function ClaimOf(t: Tables, id: nat): Claim
    requires id in t.outbox && t.outbox[id].endpoint in t.endpoints
  {
    Claim(id, t.outbox[id].attempts, t.endpoints[t.outbox[id].endpoint].maxAttempts)
  }

  ghost predicate Claimed(claims: seq<Claim>, id: nat) {
    exists i :: 0 <= i < |claims| && claims[i].id == id
  }

  /** The first `limit` due rows in order. */
  ghost predicate Selects(t: Tables, claims: seq<Claim>, limit: nat, now: int) {
    && |claims| <= limit
    && (forall i :: 0 <= i < |claims| ==> Eligible(t, claims[i].id, now) && claims[i] == ClaimOf(t, claims[i].id))
    && (forall i, j :: 0 <= i < j < |claims| ==> Before(t, claims[i].id, claims[j].id))
    && (forall id :: Eligible(t, id, now) && !Claimed(claims, id) ==>
          |claims| == limit && forall i :: 0 <= i < |claims| ==> Before(t, claims[i].id, id))
  }

  /** In the query's own terms: claimed rows are pending or to be retried, due, of an enabled
      endpoint, and read as they are; they come by due time and then by id; and a row left out
      although it qualifies comes after a full batch. */
  lemma SelectsOldest(t: Tables, claims: seq<Claim>, limit: nat, now: int)
    requires Selects(t, claims, limit, now)
    ensures forall i :: 0 <= i < |claims| ==>
              && claims[i].id in t.outbox && t.outbox[claims[i].id].status in {Pending, Retry}
              && t.outbox[claims[i].id].due <= now && claims[i].attempts == t.outbox[claims[i].id].attempts
              && t.outbox[claims[i].id].endpoint in t.endpoints && t.endpoints[t.outbox[claims[i].id].endpoint].enabled
              && claims[i].maxAttempts == t.endpoints[t.outbox[claims[i].id].endpoint].maxAttempts
    ensures forall i, j :: 0 <= i < j < |claims| ==>
              var a, b := claims[i].id, claims[j].id;
              t.outbox[a].due < t.outbox[b].due || (t.outbox[a].due == t.outbox[b].due && a < b)
    ensures forall id |
              && id in t.outbox && t.outbox[id].status in {Pending, Retry} && t.outbox[id].due <= now
              && t.outbox[id].endpoint in t.endpoints && t.endpoints[t.outbox[id].endpoint].enabled && !Claimed(claims, id) ::
              && |claims| == limit
              && forall i :: 0 <= i < |claims| ==>
                   t.outbox[claims[i].id].due < t.outbox[id].due
                   || (t.outbox[claims[i].id].due == t.outbox[id].due && claims[i].id < id)
  {
    forall i | 0 <= i < |claims| ensures Eligible(t, claims[i].id, now) {}
    forall i, j | 0 <= i < j < |claims| ensures Before(t, claims[i].id, claims[j].id) {}
    forall id | id in t.outbox && t.outbox[id].status in {Pending, Retry} && t.outbox[id].due <= now
        && t.outbox[id].endpoint in t.endpoints && t.endpoints[t.outbox[id].endpoint].enabled
      ensures Eligible(t, id, now)
    {}
  }

  // ------------------------------------------------------------------- what the log says

  /** A row's attempts, in order. */
  function History(log: seq<Attempt>, id: nat): seq<Attempt> {
    if log == [] then []
    else History(log[..|log| - 1], id) + if log[|log| - 1].id == id then [log[|log| - 1]] else []
  }

  function Bound(maxAttempts: int): (n: nat)
    ensures n >= 1
  {
    if maxAttempts < 1 then 1 else maxAttempts
  }

  /** The status a history of attempts amounts to. */
  function Verdict(history: seq<Attempt>, bound: nat): Status {
    if history == [] then Pending
    else if history[|history| - 1].success then Delivered
    else if |history| >= bound then DeadLetter
    else Retry
  }

  /** Attempts are numbered 1, 2, ..., at most `bound` of them, and only the last can have
      succeeded; the row says what they amount to. */
  ghost predicate Accounts(row: Row, history: seq<Attempt>, bound: nat) {
    && |history| == row.attempts <= bound
    && (forall i :: 0 <= i < |history| ==> history[i].number == i + 1)
    && (forall i :: 0 <= i < |history| - 1 ==> !history[i].success)
    && row.status == Verdict(history, bound)
  }

  ghost predicate Unique(outbox: map<nat, Row>) {
    forall a, b :: a in outbox && b in outbox && outbox[a].endpoint == outbox[b].endpoint && outbox[a].event == outbox[b].event
                   ==> a == b
  }

  ghost predicate RowAccounts(t: Tables, id: nat)
    requires id in t.outbox
  {
    && t.outbox[id].endpoint in t.endpoints
    && Accounts(t.outbox[id], History(t.log, id), Bound(t.endpoints[t.outbox[id].endpoint].maxAttempts))
  }

  /** What every reachable database state satisfies. */
  ghost predicate Consistent(t: Tables) {
    && Unique(t.outbox)
    && (forall id :: id in t.outbox ==> id < t.nextId)
    && (forall i :: 0 <= i < |t.log| ==> t.log[i].id in t.outbox)
    && (forall id :: id in t.outbox ==> RowAccounts(t, id))
  }

  /** The dispatcher's claims still describe their rows. */
  ghost predicate Current(t: Tables, claims: seq<Claim>) {
    && (forall i :: 0 <= i < |claims| ==> IsCurrent(t, claims[i]))
    && forall i, j :: 0 <= i < j < |claims| ==> claims[i].id != claims[j].id
  }

  ghost predicate IsCurrent(t: Tables, c: Claim) {
    && c.id in t.outbox && t.outbox[c.id].endpoint in t.endpoints
    && t.outbox[c.id].status.Active() && c == ClaimOf(t, c.id)
  }

  lemma HistorySnoc(log: seq<Attempt>, a: Attempt, id: nat)
    ensures History(log + [a], id) == History(log, id) + if a.id == id then [a] else []
  {
    assert (log + [a])[..|log + [a]| - 1] == log;
  }

  lemma {:induction false} NoHistory(log: seq<Attempt>, id: nat)
    requires forall i :: 0 <= i < |log| ==> log[i].id != id
    ensures History(log, id) == []
  {
    if log != [] { NoHistory(log[..|log| - 1], id); }
  }

  // ------------------------------------------------------------------- every step keeps it

  lemma InsertConsistent(t: Tables, endpoint: nat, event: nat, now: int)
    requires Consistent(t) && endpoint in t.endpoints
    ensures Consistent(Insert(t, endpoint, event, now))
    ensures Taken(Insert(t, endpoint, event, now).outbox, endpoint, event)
  {
    var u := Insert(t, endpoint, event, now);
    if !Taken(t.outbox, endpoint, event) {
      NoHistory(t.log, t.nextId);
      assert u.outbox[t.nextId].endpoint == endpoint;
    }
    forall id | id in u.outbox ensures RowAccounts(u, id) {
      if id in t.outbox { assert RowAccounts(t, id); }
    }
  }

  /** One more attempt on an active row. */
  lemma AccountsNext(row: Row, history: seq<Attempt>, maxAttempts: int, c: Claim, success: bool, after: Row)
    requires Accounts(row, history, Bound(maxAttempts)) && row.status.Active()
    requires c.attempts == row.attempts && c.maxAttempts == maxAttempts
    requires after.attempts == row.attempts + 1 && after.status == if success then Delivered else FailureStatus(c)
    ensures Accounts(after, history + [Attempt(c.id, c.attempts + 1, success)], Bound(maxAttempts))
  {}

  lemma RowRecorded(t: Tables, c: Claim, success: bool, now: int, id: nat)
    requires Consistent(t) && IsCurrent(t, c) && id in t.outbox
    ensures id in Recorded(t, c, success, now).outbox && RowAccounts(Recorded(t, c, success, now), id)
  {
    assert RowAccounts(t, id);
    var u, a := Recorded(t, c, success, now), Attempt(c.id, c.attempts + 1, success);
    HistorySnoc(t.log, a, id);
    if id == c.id {
      AccountsNext(t.outbox[id], History(t.log, id), c.maxAttempts, c, success, u.outbox[id]);
      assert History(u.log, id) == History(t.log, id) + [a];
    } else {
      assert u.outbox[id] == t.outbox[id] && History(u.log, id) == History(t.log, id);
    }
  }

  /** Same rows by id, endpoint and event. */
  ghost predicate SameIdentity(m: map<nat, Row>, n: map<nat, Row>) {
    n.Keys == m.Keys && forall id :: id in m ==> n[id].endpoint == m[id].endpoint && n[id].event == m[id].event
  }

  lemma UniqueKept(m: map<nat, Row>, n: map<nat, Row>)
    requires Unique(m) && SameIdentity(m, n)
    ensures Unique(n)
  {
    forall a, b | a in n && b in n && n[a].endpoint == n[b].endpoint && n[a].event == n[b].event ensures a == b {
      assert m[a].endpoint == n[a].endpoint && m[b].endpoint == n[b].endpoint;
    }
  }

  lemma RecordKeeps(t: Tables, c: Claim, success: bool, now: int)
    requires c.id in t.outbox
    ensures var u := Recorded(t, c, success, now);
            && SameIdentity(t.outbox, u.outbox) && u.endpoints == t.endpoints && u.nextId == t.nextId
            && u.log == t.log + [Attempt(c.id, c.attempts + 1, success)]
  {}

  lemma ConsistentFrom(t: Tables, u: Tables, a: Attempt)
    requires Consistent(t) && SameIdentity(t.outbox, u.outbox) && u.nextId == t.nextId
    requires u.log == t.log + [a] && a.id in t.outbox
    requires forall id :: id in t.outbox ==> id in u.outbox && RowAccounts(u, id)
    ensures Consistent(u)
  {
    UniqueKept(t.outbox, u.outbox);
  }

  lemma RecordConsistent(t: Tables, c: Claim, success: bool, now: int)
    requires Consistent(t) && IsCurrent(t, c)
    ensures Consistent(Recorded(t, c, success, now))
  {
    RecordKeeps(t, c, success, now);
    forall id | id in t.outbox
      ensures id in Recorded(t, c, success, now).outbox && RowAccounts(Recorded(t, c, success, now), id)
    {
      RowRecorded(t, c, success, now, id);
    }
    ConsistentFrom(t, Recorded(t, c, success, now), Attempt(c.id, c.attempts + 1, success));
  }

  // ----------------------------------------------------------------------- whole runs

  /** The database and what the single dispatcher has claimed and not yet recorded. */
  datatype System = System(tables: Tables, claims: seq<Claim>)

  datatype Step =
    | AddEndpoint(endpoint: nat, maxAttempts: int)
    | SetEnabled(endpoint: nat, enabled: bool)
    | Enqueue(event: nat, endpoints: seq<nat>, now: int)
    | ClaimDue(claims: seq<Claim>, limit: nat, now: int)
    | Record(success: bool, now: int)
    | Abandon

  /** The enabled endpoints, in whatever order the query returns them. */
  ghost predicate ListsEnabled(t: Tables, endpoints: seq<nat>) {
    && (forall i :: 0 <= i < |endpoints| ==> endpoints[i] in t.endpoints && t.endpoints[endpoints[i]].enabled)
    && forall e :: e in t.endpoints && t.endpoints[e].enabled ==> e in endpoints
  }

  ghost predicate Enabled(s: System, step: Step) {
    match step
    case AddEndpoint(endpoint, _) => endpoint !in s.tables.endpoints
    case SetEnabled(endpoint, _) => endpoint in s.tables.endpoints
    case Enqueue(_, endpoints, _) => ListsEnabled(s.tables, endpoints)
    case ClaimDue(claims, limit, now) => s.claims == [] && Selects(s.tables, claims, limit, now)
    case Record(_, _) => s.claims != []
    case Abandon => true
  }

  function Apply(s: System, step: Step): System {
    match step
    case AddEndpoint(endpoint, maxAttempts) =>
      s.(tables := s.tables.(endpoints := s.tables.endpoints[endpoint := Endpoint(true, maxAttempts)]))
    case SetEnabled(endpoint, enabled) =>
      if endpoint !in s.tables.endpoints then s
      else s.(tables := s.tables.(endpoints := s.tables.endpoints[endpoint := s.tables.endpoints[endpoint].(enabled := enabled)]))
    case Enqueue(event, endpoints, now) => s.(tables := InsertAll(s.tables, endpoints, event, now))
    case ClaimDue(claims, _, _) => s.(claims := claims)
    case Record(success, now) =>
      if s.claims == [] then s
      else System(Recorded(s.tables, s.claims[0], success, now), s.claims[1..])
    case Abandon => s.(claims := [])
  }

  ghost predicate Invariant(s: System) {
    Consistent(s.tables) && Current(s.tables, s.claims)
  }

  /** Rows change their accounts only through their own attempts, endpoints keep their limit. */
  ghost predicate KeepsRows(t: Tables, u: Tables) {
    && (forall id :: id in t.outbox ==> id in u.outbox && u.outbox[id] == t.outbox[id])
    && forall e :: e in t.endpoints ==> e in u.endpoints && u.endpoints[e].maxAttempts == t.endpoints[e].maxAttempts
  }

  lemma CurrentKept(t: Tables, u: Tables, claims: seq<Claim>)
    requires Current(t, claims) && KeepsRows(t, u)
    ensures Current(u, claims)
  {
    forall i | 0 <= i < |claims| ensures IsCurrent(u, claims[i]) { assert IsCurrent(t, claims[i]); }
  }

  lemma EndpointsConsistent(t: Tables, u: Tables)
    requires Consistent(t) && KeepsRows(t, u) && u.outbox == t.outbox && u.log == t.log && u.nextId == t.nextId
    ensures Consistent(u)
  {
    forall id | id in u.outbox ensures RowAccounts(u, id) { assert RowAccounts(t, id); }
  }

  lemma InsertKeeps(t: Tables, endpoint: nat, event: nat, now: int)
    requires Consistent(t)
    ensures var u := Insert(t, endpoint, event, now);
            KeepsRows(t, u) && u.log == t.log && u.endpoints == t.endpoints
  {}

  lemma KeepsRowsTransitive(t: Tables, u: Tables, v: Tables)
    requires KeepsRows(t, u) && KeepsRows(u, v)
    ensures KeepsRows(t, v)
  {}

  lemma {:induction false} InsertAllConsistent(t: Tables, endpoints: seq<nat>, event: nat, now: int)
    requires Consistent(t) && forall i :: 0 <= i < |endpoints| ==> endpoints[i] in t.endpoints
    ensures var u := InsertAll(t, endpoints, event, now);
            Consistent(u) && KeepsRows(t, u) && u.log == t.log && u.endpoints == t.endpoints
  {
    if endpoints != [] {
      var front, last := endpoints[..|endpoints| - 1], endpoints[|endpoints| - 1];
      var mid := InsertAll(t, front, event, now);
      InsertAllConsistent(t, front, event, now);
      InsertConsistent(mid, last, event, now);
      InsertKeeps(mid, last, event, now);
      KeepsRowsTransitive(t, mid, Insert(mid, last, event, now));
    }
  }

  /** After an enqueue every listed endpoint has its row for the event. */
  lemma {:induction false} InsertAllCovers(t: Tables, endpoints: seq<nat>, event: nat, now: int, i: nat)
    requires Consistent(t) && forall k :: 0 <= k < |endpoints| ==> endpoints[k] in t.endpoints
    requires i < |endpoints|
    ensures Taken(InsertAll(t, endpoints, event, now).outbox, endpoints[i], event)
  {
    var front, last := endpoints[..|endpoints| - 1], endpoints[|endpoints| - 1];
    var mid := InsertAll(t, front, event, now);
    InsertAllConsistent(t, front, event, now);
    InsertConsistent(mid, last, event, now);
    if i < |front| {
      InsertAllCovers(t, front, event, now, i);
      InsertKeeps(mid, last, event, now);
      TakenKept(mid, Insert(mid, last, event, now), endpoints[i], event);
    }
  }

  /** Every new row is one of a listed endpoint that had none: pending, without attempts, due at once. */
  lemma {:induction false} InsertedRows(t: Tables, endpoints: seq<nat>, event: nat, now: int)
    requires Consistent(t) && forall k :: 0 <= k < |endpoints| ==> endpoints[k] in t.endpoints
    ensures var u := InsertAll(t, endpoints, event, now);
            && u.nextId == t.nextId + |endpoints|
            && forall id :: id in u.outbox && id !in t.outbox ==> NewRow(t, endpoints, event, now, u.outbox[id])
  {
    if endpoints != [] {
      var front, last := endpoints[..|endpoints| - 1], endpoints[|endpoints| - 1];
      InsertedRows(t, front, event, now);
      InsertAllConsistent(t, front, event, now);
      var mid := InsertAll(t, front, event, now);
      if !Taken(mid.outbox, last, event) && Taken(t.outbox, last, event) { TakenKept(t, mid, last, event); }
    }
  }

  ghost predicate NewRow(t: Tables, endpoints: seq<nat>, event: nat, now: int, row: Row) {
    row.endpoint in endpoints && !Taken(t.outbox, row.endpoint, event)
    && row.event == event && row.status == Pending && row.attempts == 0 && row.due == now
  }

  lemma TakenKept(t: Tables, u: Tables, endpoint: nat, event: nat)
    requires Taken(t.outbox, endpoint, event) && KeepsRows(t, u)
    ensures Taken(u.outbox, endpoint, event)
  {
    var id :| id in t.outbox && t.outbox[id].endpoint == endpoint && t.outbox[id].event == event;
    assert u.outbox[id] == t.outbox[id];
  }

  lemma SelectedCurrent(t: Tables, claims: seq<Claim>, limit: nat, now: int)
    requires Selects(t, claims, limit, now)
    ensures Current(t, claims)
  {
    forall i, j | 0 <= i < j < |claims| ensures claims[i].id != claims[j].id {
      assert Before(t, claims[i].id, claims[j].id);
    }
    forall i | 0 <= i < |claims| ensures IsCurrent(t, claims[i]) { assert Eligible(t, claims[i].id, now); }
  }

  /** Recording one claim leaves the others describing their rows. */
  lemma RestCurrent(t: Tables, claims: seq<Claim>, success: bool, now: int)
    requires claims != [] && Current(t, claims)
    ensures Current(Recorded(t, claims[0], success, now), claims[1..])
  {
    var u := Recorded(t, claims[0], success, now);
    var rest := claims[1..];
    forall i | 0 <= i < |rest| ensures IsCurrent(u, rest[i]) {
      assert rest[i] == claims[i + 1] && IsCurrent(t, claims[i + 1]) && claims[0].id != claims[i + 1].id;
    }
  }

  lemma StepKeepsInvariant(s: System, step: Step)
    requires Invariant(s) && Enabled(s, step)
    ensures Invariant(Apply(s, step))
  {
    var t, u := s.tables, Apply(s, step).tables;
    if step.AddEndpoint? || step.SetEnabled? {
      EndpointsConsistent(t, u);
      CurrentKept(t, u, s.claims);
    } else if step.Enqueue? {
      InsertAllConsistent(t, step.endpoints, step.event, step.now);
      CurrentKept(t, u, s.claims);
    } else if step.ClaimDue? {
      SelectedCurrent(t, step.claims, step.limit, step.now);
    } else if step.Record? {
      assert IsCurrent(t, s.claims[0]);
      RecordConsistent(t, s.claims[0], step.success, step.now);
      RestCurrent(t, s.claims, step.success, step.now);
    }
  }

  /** States and the steps between them, from an empty outbox. */
  ghost predicate IsRun(states: seq<System>, steps: seq<Step>) {
    && |states| == |steps| + 1
    && states[0].tables.outbox == map[] && states[0].tables.log == [] && states[0].claims == []
    && forall i :: 0 <= i < |steps| ==> Enabled(states[i], steps[i]) && states[i + 1] == Apply(states[i], steps[i])
  }

  lemma {:induction false} RunKeepsInvariant(states: seq<System>, steps: seq<Step>, i: nat)
    requires IsRun(states, steps) && i < |states|
    ensures Invariant(states[i])
  {
    if i > 0 {
      RunKeepsInvariant(states, steps, i - 1);
      StepKeepsInvariant(states[i - 1], steps[i - 1]);
    }
  }

  /** A row that is no longer active is never touched again. */
  lemma TerminalStep(s: System, step: Step, id: nat)
    requires Invariant(s) && Enabled(s, step) && id in s.tables.outbox && !s.tables.outbox[id].status.Active()
    ensures var u := Apply(s, step).tables;
            id in u.outbox && u.outbox[id] == s.tables.outbox[id] && History(u.log, id) == History(s.tables.log, id)
  {
    if step.Enqueue? {
      InsertAllConsistent(s.tables, step.endpoints, step.event, step.now);
    } else if step.Record? {
      var c := s.claims[0];
      assert IsCurrent(s.tables, c);
      HistorySnoc(s.tables.log, Attempt(c.id, c.attempts + 1, step.success), id);
    }
  }

  lemma {:induction false} TerminalForever(states: seq<System>, steps: seq<Step>, i: nat, j: nat, id: nat)
    requires IsRun(states, steps) && i <= j < |states|
    requires id in states[i].tables.outbox && !states[i].tables.outbox[id].status.Active()
    ensures id in states[j].tables.outbox && states[j].tables.outbox[id] == states[i].tables.outbox[id]
    ensures History(states[j].tables.log, id) == History(states[i].tables.log, id)
  {
    if i < j {
      TerminalForever(states, steps, i, j - 1, id);
      RunKeepsInvariant(states, steps, j - 1);
      TerminalStep(states[j - 1], steps[j - 1], id);
    }
  }

  /** A row whose attempts all failed is a dead letter exactly once it has had its
      max(1, maxAttempts) attempts, and can be claimed again before that. */
  lemma AlwaysFailing(t: Tables, id: nat)
    requires Consistent(t) && id in t.outbox
    requires forall i :: 0 <= i < |History(t.log, id)| ==> !History(t.log, id)[i].success
    ensures t.outbox[id].endpoint in t.endpoints
    ensures var bound := Bound(t.endpoints[t.outbox[id].endpoint].maxAttempts);
            && |History(t.log, id)| <= bound
            && (t.outbox[id].status.DeadLetter? <==> |History(t.log, id)| == bound)
            && (t.outbox[id].status.Active() <==> |History(t.log, id)| < bound)
  {
    assert RowAccounts(t, id);
  }

  /** At most one row per endpoint and event, at most one success per row, and none after it. */
  lemma DeliveredOnce(t: Tables, id: nat, k: nat)
    requires Consistent(t) && id in t.outbox && k < |History(t.log, id)| && History(t.log, id)[k].success
    ensures k == |History(t.log, id)| - 1 && t.outbox[id].status == Delivered
  {
    assert RowAccounts(t, id);
  }

  /** A step leaves a row and its log alone, or logs one more attempt. */
  lemma StepRow(s: System, step: Step, id: nat)
    requires Invariant(s) && Enabled(s, step) && id in s.tables.outbox
    ensures var t, u := s.tables, Apply(s, step).tables;
            && id in u.outbox
            && ((u.outbox[id] == t.outbox[id] && History(u.log, id) == History(t.log, id))
                || |History(u.log, id)| == |History(t.log, id)| + 1)
  {
    if step.Enqueue? {
      InsertAllConsistent(s.tables, step.endpoints, step.event, step.now);
    } else if step.Record? {
      var c := s.claims[0];
      assert IsCurrent(s.tables, c);
      HistorySnoc(s.tables.log, Attempt(c.id, c.attempts + 1, step.success), id);
    }
  }

  /** Until its next attempt a row stays as it is. */
  lemma {:induction false} RowUntilNext(states: seq<System>, steps: seq<Step>, i: nat, j: nat, id: nat)
    requires IsRun(states, steps) && i <= j < |states| && id in states[i].tables.outbox
    ensures id in states[j].tables.outbox
    ensures |History(states[j].tables.log, id)| >= |History(states[i].tables.log, id)|
    ensures |History(states[j].tables.log, id)| == |History(states[i].tables.log, id)| ==>
              states[j].tables.outbox[id] == states[i].tables.outbox[id]
  {
    if i < j {
      RowUntilNext(states, steps, i, j - 1, id);
      RunKeepsInvariant(states, steps, j - 1);
      StepRow(states[j - 1], steps[j - 1], id);
    }
  }

  /** Recording a failure logs one attempt and postpones the row. */
  lemma FailurePostpones(s: System, now: int)
    requires Invariant(s) && s.claims != []
    ensures var id := s.claims[0].id;
            var u := Apply(s, Record(false, now)).tables;
            && id in s.tables.outbox && id in u.outbox
            && |History(u.log, id)| == |History(s.tables.log, id)| + 1
            && u.outbox[id].due == now + Backoff(|History(s.tables.log, id)|)
  {
    var c := s.claims[0];
    assert IsCurrent(s.tables, c);
    assert RowAccounts(s.tables, c.id);
    HistorySnoc(s.tables.log, Attempt(c.id, c.attempts + 1, false), c.id);
  }

  /** After the failure of step `i`, a row's n-th, no claim before its next attempt takes it
      earlier than 2^(n-1) seconds, at most 256, later. */
  lemma RetryWaits(states: seq<System>, steps: seq<Step>, i: nat, j: nat, id: nat)
    requires IsRun(states, steps) && i < j < |steps|
    requires steps[i].Record? && !steps[i].success && states[i].claims != [] && states[i].claims[0].id == id
    requires |History(states[j].tables.log, id)| == |History(states[i].tables.log, id)| + 1
    requires steps[j].ClaimDue? && Claimed(steps[j].claims, id)
    ensures steps[j].now >= steps[i].now + Backoff(|History(states[i].tables.log, id)|)
  {
    RunKeepsInvariant(states, steps, i);
    FailurePostpones(states[i], steps[i].now);
    RowUntilNext(states, steps, i + 1, j, id);
    var k :| 0 <= k < |steps[j].claims| && steps[j].claims[k].id == id;
    assert Eligible(states[j].tables, id, steps[j].now);
  }

  // ------------------------------------------------------------------------ the service

  /** What the first `n` claims of a cycle have made of the tables: one log entry a claim, in claim
      order, with the outcome of its post; its row as that outcome demands; all other rows as
      they were. */
  ghost predicate Dispatched(t: Tables, u: Tables, claims: seq<Claim>, sent: seq<bool>, times: seq<int>, n: nat)
    requires Current(t, claims) && n <= |claims| && n <= |sent| && n <= |times|
  {
    && u.endpoints == t.endpoints && u.nextId == t.nextId && u.outbox.Keys == t.outbox.Keys
    && |u.log| == |t.log| + n && u.log[..|t.log|] == t.log
    && (forall i :: 0 <= i < n ==> LoggedAs(t, u, claims, sent, i) && RowMade(t, u, claims, sent, times, i))
    && forall id :: id in t.outbox && !Claimed(claims[..n], id) ==> u.outbox[id] == t.outbox[id]
  }

  ghost predicate LoggedAs(t: Tables, u: Tables, claims: seq<Claim>, sent: seq<bool>, i: nat)
    requires i < |claims| && i < |sent|
  {
    var id := claims[i].id;
    id in t.outbox && |t.log| + i < |u.log| && u.log[|t.log| + i] == Attempt(id, t.outbox[id].attempts + 1, sent[i])
  }

  ghost predicate RowMade(t: Tables, u: Tables, claims: seq<Claim>, sent: seq<bool>, times: seq<int>, i: nat)
    requires i < |claims| && i < |sent| && i < |times|
  {
    var id := claims[i].id;
    && id in t.outbox && id in u.outbox && t.outbox[id].endpoint in t.endpoints
    && AttemptMade(t.outbox[id], u.outbox[id], t.endpoints[t.outbox[id].endpoint].maxAttempts, sent[i], times[i])
  }

  lemma ClaimedNext(claims: seq<Claim>, n: nat, id: nat)
    requires n < |claims|
    ensures Claimed(claims[..n + 1], id) <==> Claimed(claims[..n], id) || claims[n].id == id
  {
    if Claimed(claims[..n], id) {
      var i :| 0 <= i < n && claims[..n][i].id == id;
      assert claims[..n + 1][i].id == id;
    }
    if claims[n].id == id { assert claims[..n + 1][n].id == id; }
  }

  lemma NotYetClaimed(t: Tables, claims: seq<Claim>, n: nat)
    requires Current(t, claims) && n < |claims|
    ensures !Claimed(claims[..n], claims[n].id)
  {}

  lemma DispatchedNext(t: Tables, u: Tables, claims: seq<Claim>, sent: seq<bool>, times: seq<int>, n: nat)
    requires Current(t, claims) && n < |claims| && n < |sent| && n < |times| && Dispatched(t, u, claims, sent, times, n)
    ensures Dispatched(t, Recorded(u, claims[n], sent[n], times[n]), claims, sent, times, n + 1)
  {
    var v, c := Recorded(u, claims[n], sent[n], times[n]), claims[n];
    NotYetClaimed(t, claims, n);
    assert IsCurrent(t, c);
    assert u.outbox[c.id] == t.outbox[c.id];
    assert v.log == u.log + [Attempt(c.id, c.attempts + 1, sent[n])];
    forall i | 0 <= i < n + 1 ensures LoggedAs(t, v, claims, sent, i) && RowMade(t, v, claims, sent, times, i) {
      if i < n { assert LoggedAs(t, u, claims, sent, i) && RowMade(t, u, claims, sent, times, i) && claims[i].id != c.id; }
    }
    forall id | id in t.outbox && !Claimed(claims[..n + 1], id) ensures v.outbox[id] == t.outbox[id] {
      ClaimedNext(claims, n, id);
    }
  }

  lemma NothingDispatched(t: Tables, claims: seq<Claim>, sent: seq<bool>, times: seq<int>)
    requires Current(t, claims)
    ensures Dispatched(t, t, claims, sent, times, 0)
  {
    assert t.log[..|t.log|] == t.log;
  }

  /** The positions among the first `n` whose post succeeded. */
  ghost function Sent(sent: seq<bool>, n: nat): set<nat>
    requires n <= |sent|
  {
    set i: nat | i < n && sent[i]
  }

  lemma SentNext(sent: seq<bool>, n: nat)
    requires n < |sent|
    ensures |Sent(sent, n + 1)| == |Sent(sent, n)| + if sent[n] then 1 else 0
  {
    assert Sent(sent, n + 1) == Sent(sent, n) + if sent[n] then {n} else {};
  }

  lemma PickBefore(t: Tables, a: nat, b: nat, c: nat)
    requires a in t.outbox && b in t.outbox && c in t.outbox
    ensures a == b || Before(t, a, b) || Before(t, b, a)
    ensures Before(t, a, b) && Before(t, b, c) ==> Before(t, a, c)
  {}

  class Repository {
    var tables: Tables

    constructor (endpoints: map<nat, Endpoint>)
      ensures tables == Tables(endpoints, map[], 1, []) && Consistent(tables)
    {
      tables := Tables(endpoints, map[], 1, []);
    }

    /** SELECT the enabled endpoints. */
    method ListEnabled() returns (listed: seq<nat>)
      ensures ListsEnabled(tables, listed)
    {
      var rest := set e | e in tables.endpoints && tables.endpoints[e].enabled;
      listed := [];
      while rest != {}
        invariant forall e :: e in rest ==> e in tables.endpoints && tables.endpoints[e].enabled
        invariant forall i :: 0 <= i < |listed| ==> listed[i] in tables.endpoints && tables.endpoints[listed[i]].enabled
        invariant forall e :: e in tables.endpoints && tables.endpoints[e].enabled ==> e in rest || e in listed
        decreases |rest|
      {
        var e :| e in rest;
        rest, listed := rest - {e}, listed + [e];
      }
    }

    method EnqueueWebhooks(event: nat, now: int) returns (listed: seq<nat>)
      requires Consistent(tables)
      modifies this
      ensures ListsEnabled(old(tables), listed) && tables == InsertAll(old(tables), listed, event, now)
      ensures Consistent(tables) && KeepsRows(old(tables), tables)
      ensures forall i :: 0 <= i < |listed| ==> Taken(tables.outbox, listed[i], event)
      ensures forall id :: id in tables.outbox && id !in old(tables).outbox ==>
                NewRow(old(tables), listed, event, now, tables.outbox[id])
    {
      listed := ListEnabled();
      for i := 0 to |listed|
        invariant tables == InsertAll(old(tables), listed[..i], event, now)
      {
        assert listed[..i + 1][..i] == listed[..i];
        tables := Insert(tables, listed[i], event, now);
      }
      assert listed[..|listed|] == listed;
      InsertAllConsistent(old(tables), listed, event, now);
      InsertedRows(old(tables), listed, event, now);
      forall i | 0 <= i < |listed| ensures Taken(tables.outbox, listed[i], event) {
        InsertAllCovers(old(tables), listed, event, now, i);
      }
    }

    method Earliest(ids: set<nat>) returns (id: nat)
      requires ids != {} && ids <= tables.outbox.Keys
      ensures id in ids && forall o :: o in ids && o != id ==> Before(tables, id, o)
    {
      id :| id in ids;
      var rest := ids - {id};
      while rest != {}
        invariant id in ids && rest <= ids
        invariant forall o :: o in ids - rest && o != id ==> Before(tables, id, o)
        decreases |rest|
      {
        var o :| o in rest;
        rest := rest - {o};
        PickBefore(tables, id, o, id);
        if o != id && !Before(tables, id, o) {
          forall k | k in ids - rest && k != o ensures Before(tables, o, k) {
            PickBefore(tables, o, id, k);
          }
          id := o;
        }
      }
    }

    /** claim_pending_deliveries; it takes no lock and changes nothing. */
    method ClaimPending(limit: nat, now: int) returns (claims: seq<Claim>)
      ensures Selects(tables, claims, limit, now)
    {
      var rest := set id | id in tables.outbox && Eligible(tables, id, now);
      claims := [];
      while rest != {} && |claims| < limit
        invariant forall id :: id in rest ==> Eligible(tables, id, now) && !Claimed(claims, id)
        invariant Picked(tables, claims, rest, limit, now)
        decreases |rest|
      {
        var id := Earliest(rest);
        PickedNext(tables, claims, rest, limit, now, id);
        claims, rest := claims + [ClaimOf(tables, id)], rest - {id};
      }
    }

    method RecordSuccess(c: Claim, now: int)
      modifies this
      ensures tables == Recorded(old(tables), c, true, now)
      ensures c.id in old(tables).outbox ==>
                c.id in tables.outbox && AttemptMade(old(tables).outbox[c.id], tables.outbox[c.id], c.maxAttempts, true, now)
      ensures OnlyAttempt(old(tables), tables, c, true)
    {
      tables := tables.(log := tables.log + [Attempt(c.id, c.attempts + 1, true)]);
      if c.id in tables.outbox {
        var row := tables.outbox[c.id];
        tables := tables.(outbox := tables.outbox[c.id := row.(status := Delivered, attempts := row.attempts + 1)]);
      }
    }

    method RecordFailure(c: Claim, now: int)
      modifies this
      ensures tables == Recorded(old(tables), c, false, now)
      ensures c.id in old(tables).outbox && old(tables).outbox[c.id].attempts == c.attempts ==>
                c.id in tables.outbox && AttemptMade(old(tables).outbox[c.id], tables.outbox[c.id], c.maxAttempts, false, now)
      ensures OnlyAttempt(old(tables), tables, c, false)
    {
      tables := tables.(log := tables.log + [Attempt(c.id, c.attempts + 1, false)]);
      var nextStatus := if c.attempts + 1 >= c.maxAttempts then DeadLetter else Retry;
      if c.id in tables.outbox {
        var row := tables.outbox[c.id];
        tables := tables.(outbox := tables.outbox[c.id := row.(status := nextStatus, attempts := row.attempts + 1,
                                                               due := now + Backoff(c.attempts))]);
      }
    }

    /** dispatch_once; `sent` and `times` are the outcomes of the posts and when they ended. An error
        on the claim at `errorAt`, if there are that many, ends the cycle: the claims before it are
        recorded, the others stay as they are. */
    method DispatchOnce(limit: nat, now: int, sent: seq<bool>, times: seq<int>, errorAt: nat)
      returns (delivered: Option<nat>, claims: seq<Claim>)
      requires Consistent(tables) && |sent| >= limit && |times| >= limit
      modifies this
      ensures |claims| <= limit && Selects(old(tables), claims, limit, now)
      ensures Consistent(tables) && Current(old(tables), claims)
      ensures Dispatched(old(tables), tables, claims, sent, times, if errorAt < |claims| then errorAt else |claims|)
      ensures delivered == if errorAt < |claims| then None else Some(|Sent(sent, |claims|)|)
    {
      claims := ClaimPending(limit, now);
      SelectedCurrent(tables, claims, limit, now);
      NothingDispatched(tables, claims, sent, times);
      var count := 0;
      assert claims[0..] == claims;
      for i := 0 to |claims|
        invariant Dispatched(old(tables), tables, claims, sent, times, i)
        invariant Consistent(tables) && Current(tables, claims[i..])
        invariant count == |Sent(sent, i)| && i <= errorAt
      {
        if i == errorAt {
          return None, claims;
        }
        DispatchNext(old(tables), claims, sent, times, i);
        SentNext(sent, i);
        if sent[i] {
          count := count + 1;
        }
      }
      delivered := Some(count);
    }

    /** Records what became of claim `i`. */
    method DispatchNext(ghost t: Tables, claims: seq<Claim>, sent: seq<bool>, times: seq<int>, i: nat)
      requires i < |claims| <= |sent| && |claims| <= |times| && Current(t, claims)
      requires Dispatched(t, tables, claims, sent, times, i) && Consistent(tables) && Current(tables, claims[i..])
      modifies this
      ensures Dispatched(t, tables, claims, sent, times, i + 1) && Consistent(tables) && Current(tables, claims[i + 1..])
    {
      assert claims[i..][0] == claims[i] && claims[i..][1..] == claims[i + 1..];
      DispatchedNext(t, tables, claims, sent, times, i);
      RecordOutcome(claims[i..], sent[i], times[i]);
    }

    /** Records what became of the first of the remaining claims. */
    method RecordOutcome(claims: seq<Claim>, success: bool, now: int)
      requires Consistent(tables) && claims != [] && Current(tables, claims)
      modifies this
      ensures tables == Recorded(old(tables), claims[0], success, now)
      ensures Consistent(tables) && Current(tables, claims[1..])
    {
      assert IsCurrent(tables, claims[0]);
      RecordConsistent(tables, claims[0], success, now);
      RestCurrent(tables, claims, success, now);
      if success {
        RecordSuccess(claims[0], now);
      } else {
        RecordFailure(claims[0], now);
      }
    }
  }

  /** Part way through a claim: what is picked is in order and ahead of what is left. */
  ghost predicate Picked(t: Tables, claims: seq<Claim>, rest: set<nat>, limit: nat, now: int) {
    && |claims| <= limit
    && (forall i :: 0 <= i < |claims| ==> Eligible(t, claims[i].id, now) && claims[i] == ClaimOf(t, claims[i].id))
    && (forall i, j :: 0 <= i < j < |claims| ==> Before(t, claims[i].id, claims[j].id))
    && (forall id :: Eligible(t, id, now) ==> Claimed(claims, id) || id in rest)
    && forall id, i :: id in rest && 0 <= i < |claims| ==> id in t.outbox && Before(t, claims[i].id, id)
  }

  lemma PickedNext(t: Tables, claims: seq<Claim>, rest: set<nat>, limit: nat, now: int, id: nat)
    requires Picked(t, claims, rest, limit, now) && |claims| < limit
    requires forall o :: o in rest ==> Eligible(t, o, now) && !Claimed(claims, o)
    requires id in rest && forall o :: o in rest && o != id ==> Before(t, id, o)
    ensures Picked(t, claims + [ClaimOf(t, id)], rest - {id}, limit, now)
    ensures forall o :: o in rest - {id} ==> !Claimed(claims + [ClaimOf(t, id)], o)
  {
    var more := claims + [ClaimOf(t, id)];
    forall o | Eligible(t, o, now) ensures Claimed(more, o) || o in rest - {id} {
      if o == id {
        assert more[|claims|].id == o;
      } else if Claimed(claims, o) {
        var i :| 0 <= i < |claims| && claims[i].id == o;
        assert more[i].id == o;
      }
    }
  }
}
