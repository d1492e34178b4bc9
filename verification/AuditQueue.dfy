/** The bounded audit queue: producers that never block, workers, and the drain on Close. */
module AuditQueue {
  import opened Common

  const AUDIT_QUEUE_SIZE: nat := 4096

  /** An audit row without the columns that are copied from the request; `failed` says that Error is set. */
  datatype AuditRow = AuditRow(
    id: string, createdAt: Time, statusCode: int,
    requestBody: seq<bv8>, requestTruncated: bool, responseBody: seq<bv8>, responseTruncated: bool, failed: bool)

  /** A worker: in its select, draining after the stop, inserting a row, or gone. */
  datatype Worker =
    | Selecting
    | Draining
    | Inserting(row: AuditRow, draining: bool)
    | Exited

  datatype State = State(
    queue: seq<AuditRow>,
    stopped: bool,
    workers: seq<Worker>,
    // history
    offered: seq<AuditRow>,
    accepted: seq<AuditRow>,
    dropped: seq<AuditRow>,
    taken: seq<AuditRow>,
    attempted: seq<AuditRow>,
    lastExit: nat)  // how many rows had been accepted when a worker last exited

  datatype Action =
    | Offer(row: AuditRow)
    | Stop
    | Take(i: nat)      // receive from the queue
    | SeeStop(i: nat)   // the select picks the closed stop channel
    | Leave(i: nat)     // the drain finds the queue empty
    | Insert(i: nat)    // the database insert returns, with or without error

  predicate IsWork(a: Action) {
    !a.Offer? && !a.Stop?
  }

  function Set(s: State, i: nat, w: Worker): State
    requires i < |s.workers|
  {
    s.(workers := s.workers[i := w])
  }

  function Next(s: State, a: Action): Option<State> {
    match a
    case Offer(row) =>
      var t := s.(offered := s.offered + [row]);
      Some(if |s.queue| < AUDIT_QUEUE_SIZE
           then t.(queue := s.queue + [row], accepted := s.accepted + [row])
           else t.(dropped := s.dropped + [row]))
    case Stop => if s.stopped then None else Some(s.(stopped := true))
    case Take(i) =>
      if i < |s.workers| && s.queue != [] && (s.workers[i].Selecting? || s.workers[i].Draining?) then
        Some(Set(s, i, Inserting(s.queue[0], s.workers[i].Draining?)).(queue := s.queue[1..], taken := s.taken + [s.queue[0]]))
      else None
    case SeeStop(i) =>
      if i < |s.workers| && s.stopped && s.workers[i].Selecting? then Some(Set(s, i, Draining)) else None
    case Leave(i) =>
      if i < |s.workers| && s.queue == [] && s.workers[i].Draining?
      then Some(Set(s, i, Exited).(lastExit := |s.accepted|)) else None
    case Insert(i) =>
      if i < |s.workers| && s.workers[i].Inserting? then
        var w := s.workers[i];
        Some(Set(s, i, if w.draining then Draining else Selecting).(attempted := s.attempted + [w.row]))
      else None
  }

  function Exec(s: State, run: seq<Action>): Option<State>
    decreases |run|
  {
    if run == [] then Some(s)
    else match Next(s, run[0])
      case None => None
      case Some(t) => Exec(t, run[1..])
  }

  /** startAuditWorkers: at least one worker. */
  function Init(n: int): State {
    State([], false, seq(if n < 1 then 1 else n, _ => Selecting), [], [], [], [], [], 0)
  }

  predicate AllExited(s: State) {
    forall i | 0 <= i < |s.workers| :: s.workers[i].Exited?
  }

  datatype InsertError = NilRow | NoRandomness | DbFailed

  /** The row that is queued or inserted: id and date are filled in where they are missing. */
  predicate Stamps(row: AuditRow, newId: Option<string>, now: Time, stamped: AuditRow) {
    && stamped == row.(id := stamped.id, createdAt := stamped.createdAt)
    && (if row.id != "" then stamped.id == row.id else newId == Some(stamped.id))
    && stamped.createdAt == (if row.createdAt != 0 then row.createdAt else now)
  }

  /** The row joins the queue as its last one if there is room for 4096, and else is dropped; nothing else changes. */
  predicate Offered(s: State, row: AuditRow, t: State) {
    && t.offered == s.offered + [row] && t.workers == s.workers && t.stopped == s.stopped
    && t.taken == s.taken && t.attempted == s.attempted && t.lastExit == s.lastExit
    && (|s.queue| < 4096 ==> t.queue == s.queue + [row] && t.accepted == s.accepted + [row] && t.dropped == s.dropped)
    && (|s.queue| >= 4096 ==> t.queue == s.queue && t.accepted == s.accepted && t.dropped == s.dropped + [row])
  }

  lemma OfferIs(s: State, row: AuditRow, t: State)
    ensures Next(s, Offer(row)) == Some(t) <==> Offered(s, row, t)
  {
  }

  /** The producer's side of the store; without a queue, rows go to the table at once. */
  class AuditStore {
    const queued: bool

    var state: State
    var table: seq<AuditRow>

    constructor (queued: bool, workers: int)
      ensures this.queued == queued && state == Init(workers) && table == []
    {
      this.queued, state, table := queued, Init(workers), [];
    }

    /** InsertAuditLog stamps the row and offers it; a full queue drops it without an error. */
    method InsertAuditLog(row: Option<AuditRow>, newId: Option<string>, now: Time, dbOk: bool) returns (err: Option<InsertError>)
      modifies this
      ensures err == Some(NilRow) <==> row.None?
      ensures err == Some(NoRandomness) <==> row.Some? && row.value.id == "" && newId.None?
      ensures err == Some(DbFailed) ==> !queued && !dbOk
      ensures err.Some? ==> state == old(state) && table == old(table)
      ensures err.None? ==>
                exists stamped | Stamps(row.value, newId, now, stamped) ::
                  if queued then Offered(old(state), stamped, state) && table == old(table)
                  else dbOk && table == old(table) + [stamped] && state == old(state)
    {
      if row.None? {
        return Some(NilRow);
      }
      var stamped := row.value;
      if stamped.id == "" {
        if newId.None? {
          return Some(NoRandomness);
        }
        stamped := stamped.(id := newId.value);
      }
      if stamped.createdAt == 0 {
        stamped := stamped.(createdAt := now);
      }
      assert Stamps(row.value, newId, now, stamped);
      if !queued {
        if !dbOk {
          return Some(DbFailed);
        }
        table := table + [stamped];
        return None;
      }
      state := state.(offered := state.offered + [stamped]);
      if |state.queue| < AUDIT_QUEUE_SIZE {
        state := state.(queue := state.queue + [stamped], accepted := state.accepted + [stamped]);
      } else {
        state := state.(dropped := state.dropped + [stamped]);
      }
      return None;
    }
  }

  // ---- conservation ----

  function HeldBy(w: Worker): multiset<AuditRow> {
    if w.Inserting? then multiset{w.row} else multiset{}
  }

  function Held(ws: seq<Worker>): multiset<AuditRow> {
    if ws == [] then multiset{} else HeldBy(ws[0]) + Held(ws[1..])
  }

  lemma {:induction false} HeldAfterOf(ws: seq<Worker>, i: nat, w: Worker, row: AuditRow)
    requires i < |ws|
    ensures Held(ws[i := w])[row] + HeldBy(ws[i])[row] == Held(ws)[row] + HeldBy(w)[row]
    decreases |ws|
  {
    if i == 0 {
      assert ws[i := w][1..] == ws[1..];
    } else {
      assert ws[i := w][1..] == ws[1..][i - 1 := w];
      HeldAfterOf(ws[1..], i - 1, w, row);
    }
  }

  lemma HeldAfter(ws: seq<Worker>, i: nat, w: Worker)
    requires i < |ws|
    ensures Held(ws[i := w]) + HeldBy(ws[i]) == Held(ws) + HeldBy(w)
  {
    forall row: AuditRow ensures Held(ws[i := w])[row] + HeldBy(ws[i])[row] == Held(ws)[row] + HeldBy(w)[row] {
      HeldAfterOf(ws, i, w, row);
    }
  }

  lemma {:induction false} NoneHeld(ws: seq<Worker>)
    requires forall i | 0 <= i < |ws| :: !ws[i].Inserting?
    ensures Held(ws) == multiset{}
    decreases |ws|
  {
    if ws != [] { NoneHeld(ws[1..]); }
  }

  predicate AfterStop(w: Worker) {
    w.Exited? || w.Draining? || (w.Inserting? && w.draining)
  }

  predicate Inv(s: State) {
    && s.workers != [] && |s.queue| <= AUDIT_QUEUE_SIZE
    && multiset(s.offered) == multiset(s.accepted) + multiset(s.dropped)
    && s.accepted == s.taken + s.queue
    && multiset(s.taken) == multiset(s.attempted) + Held(s.workers)
    && s.lastExit <= |s.accepted|
    && (forall i | 0 <= i < |s.workers| && AfterStop(s.workers[i]) :: s.stopped)
    && (AllExited(s) ==> |s.taken| == s.lastExit)
  }

  lemma OfferKeepsInv(s: State, a: Action, t: State)
    requires Inv(s) && Next(s, a) == Some(t) && (a.Offer? || a.Stop?)
    ensures Inv(t)
  {
    if a.Offer? && |s.queue| < AUDIT_QUEUE_SIZE {
      assert t.accepted == t.taken + t.queue;
    }
  }

  lemma TakeMovesRow(s: State, i: nat, t: State)
    requires Next(s, Take(i)) == Some(t)
    ensures Held(t.workers) == Held(s.workers) + multiset{s.queue[0]}
    ensures t.taken + t.queue == s.taken + s.queue && multiset(t.taken) == multiset(s.taken) + multiset{s.queue[0]}
  {
    HeldAfter(s.workers, i, t.workers[i]);
    assert s.workers[i := t.workers[i]] == t.workers;
    assert s.queue == [s.queue[0]] + t.queue;
  }

  lemma TakeKeepsInv(s: State, i: nat, t: State)
    requires Inv(s) && Next(s, Take(i)) == Some(t)
    ensures Inv(t)
  {
    TakeMovesRow(s, i, t);
    assert t.workers[i].Inserting?;
  }

  lemma InsertMovesRow(s: State, i: nat, t: State)
    requires Next(s, Insert(i)) == Some(t)
    ensures multiset(t.attempted) + Held(t.workers) == multiset(s.attempted) + Held(s.workers)
  {
    HeldAfter(s.workers, i, t.workers[i]);
    assert s.workers[i := t.workers[i]] == t.workers;
    assert Held(t.workers) + multiset{s.workers[i].row} == Held(s.workers);
    assert multiset(t.attempted) == multiset(s.attempted) + multiset{s.workers[i].row};
  }

  lemma InsertKeepsInv(s: State, i: nat, t: State)
    requires Inv(s) && Next(s, Insert(i)) == Some(t)
    ensures Inv(t)
  {
    InsertMovesRow(s, i, t);
    assert !t.workers[i].Exited?;
  }

  lemma TurnKeepsInv(s: State, a: Action, t: State)
    requires Inv(s) && Next(s, a) == Some(t) && (a.SeeStop? || a.Leave?)
    ensures Inv(t)
  {
    HeldAfter(s.workers, a.i, t.workers[a.i]);
    assert s.workers[a.i := t.workers[a.i]] == t.workers;
    assert Held(t.workers) + multiset{} == Held(t.workers) && Held(s.workers) + multiset{} == Held(s.workers);
    assert a.SeeStop? ==> !t.workers[a.i].Exited?;
    assert a.Leave? ==> t.taken == t.accepted;
  }

  lemma StepKeepsInv(s: State, a: Action, t: State)
    requires Inv(s) && Next(s, a) == Some(t)
    ensures Inv(t)
  {
    match a
    case Take(i) => TakeKeepsInv(s, i, t);
    case Insert(i) => InsertKeepsInv(s, i, t);
    case SeeStop(_) | Leave(_) => TurnKeepsInv(s, a, t);
    case _ => OfferKeepsInv(s, a, t);
  }

  lemma {:induction false} RunKeepsInv(s: State, run: seq<Action>, t: State)
    requires Inv(s) && Exec(s, run) == Some(t)
    ensures Inv(t)
    decreases |run|
  {
    if run != [] {
      var u := Next(s, run[0]).value;
      StepKeepsInv(s, run[0], u);
      RunKeepsInv(u, run[1..], t);
    }
  }

  lemma InitInv(n: int)
    ensures Inv(Init(n)) && |Init(n).workers| == if n <= 0 then 1 else n
  {
    NoneHeld(Init(n).workers);
  }

  /** Every row offered is accepted or dropped; every row accepted is attempted, queued or held by a worker,
      and is never attempted more often than it was accepted; rows leave the queue in the order they came. */
  lemma Conservation(n: int, run: seq<Action>, t: State)
    requires Exec(Init(n), run) == Some(t)
    ensures multiset(t.offered) == multiset(t.accepted) + multiset(t.dropped)
    ensures multiset(t.accepted) == multiset(t.attempted) + multiset(t.queue) + Held(t.workers)
    ensures multiset(t.attempted) <= multiset(t.accepted)
    ensures t.accepted == t.taken + t.queue && |t.queue| <= AUDIT_QUEUE_SIZE
  {
    InitInv(n);
    RunKeepsInv(Init(n), run, t);
  }

  lemma StepDropsOnlyWhenFull(s: State, a: Action, t: State)
    requires Inv(s) && Next(s, a) == Some(t) && (s.dropped != [] ==> |s.accepted| >= 4096)
    ensures t.dropped != s.dropped ==> a.Offer? && |s.queue| == 4096
    ensures t.dropped != [] ==> |t.accepted| >= 4096
  {
    assert s.accepted == s.taken + s.queue;
  }

  /** A row is dropped only by an offer to a queue that holds 4096 rows. */
  lemma {:induction false} DropsOnlyWhenFull(s: State, run: seq<Action>, t: State)
    requires Inv(s) && s.dropped == [] && Exec(s, run) == Some(t)
    ensures t.dropped != [] ==> exists k | 0 <= k < |run| :: run[k].Offer? && FullAfter(s, run[..k])
    decreases |run|
  {
    if run != [] {
      var u := Next(s, run[0]).value;
      StepKeepsInv(s, run[0], u);
      StepDropsOnlyWhenFull(s, run[0], u);
      if u.dropped != [] {
        assert run[..0] == [] && FullAfter(s, run[..0]);
      } else {
        DropsOnlyWhenFull(u, run[1..], t);
        if k :| 0 <= k < |run[1..]| && run[1..][k].Offer? && FullAfter(u, run[1..][..k]) {
          assert run[..k + 1][0] == run[0] && run[..k + 1][1..] == run[1..][..k];
          assert run[k + 1].Offer? && FullAfter(s, run[..k + 1]);
        }
      }
    }
  }

  predicate FullAfter(s: State, run: seq<Action>) {
    Exec(s, run).Some? && |Exec(s, run).value.queue| == 4096
  }

  lemma {:induction false} DropsFollowAccepts(s: State, run: seq<Action>, t: State)
    requires Inv(s) && (s.dropped != [] ==> |s.accepted| >= 4096) && Exec(s, run) == Some(t)
    ensures t.dropped != [] ==> |t.accepted| >= 4096
    decreases |run|
  {
    if run != [] {
      var u := Next(s, run[0]).value;
      StepKeepsInv(s, run[0], u);
      StepDropsOnlyWhenFull(s, run[0], u);
      DropsFollowAccepts(u, run[1..], t);
    }
  }

  /** Hence no schedule drops any of the first 4096 rows. */
  lemma FirstOffersAreAccepted(n: int, run: seq<Action>, t: State)
    requires Exec(Init(n), run) == Some(t) && |t.offered| <= 4096
    ensures t.dropped == [] && multiset(t.accepted) == multiset(t.offered)
  {
    InitInv(n);
    RunKeepsInv(Init(n), run, t);
    DropsFollowAccepts(Init(n), run, t);
    assert |multiset(t.offered)| == |multiset(t.accepted)| + |multiset(t.dropped)|;
  }

  // ---- the drain on Close ----

  /** When Close passes Wait: the rows accepted up to the last worker's exit have been attempted, exactly
      once each, and the later ones are stranded in the queue; so it is empty iff there were none. */
  lemma AtClose(n: int, run: seq<Action>, t: State)
    requires Exec(Init(n), run) == Some(t) && AllExited(t)
    ensures t.lastExit <= |t.accepted| && t.queue == t.accepted[t.lastExit..]
    ensures multiset(t.attempted) == multiset(t.accepted[..t.lastExit])
    ensures t.queue == [] && multiset(t.attempted) == multiset(t.accepted) <==> |t.accepted| == t.lastExit
  {
    InitInv(n);
    RunKeepsInv(Init(n), run, t);
    NoneHeld(t.workers);
    assert t.taken == t.accepted[..t.lastExit];
    if |t.accepted| == t.lastExit {
      assert t.accepted[..t.lastExit] == t.accepted;
    }
  }

  /** No producer offers a row once the stop channel is closed. */
  ghost predicate QuietAfterStop(s: State, run: seq<Action>)
    decreases |run|
  {
    run != [] ==>
      && !(s.stopped && run[0].Offer?)
      && (Next(s, run[0]).Some? ==> QuietAfterStop(Next(s, run[0]).value, run[1..]))
  }

  predicate Drained(s: State) {
    (exists i | 0 <= i < |s.workers| :: s.workers[i].Exited?) ==> s.stopped && s.lastExit == |s.accepted| && s.queue == []
  }

  lemma QuietStepKeepsDrained(s: State, a: Action, t: State)
    requires Inv(s) && Drained(s) && !(s.stopped && a.Offer?) && Next(s, a) == Some(t)
    ensures Drained(t)
  {
  }

  lemma {:induction false} QuietRunKeepsDrained(s: State, run: seq<Action>, t: State)
    requires Inv(s) && Drained(s) && QuietAfterStop(s, run) && Exec(s, run) == Some(t)
    ensures Drained(t)
    decreases |run|
  {
    if run != [] {
      var u := Next(s, run[0]).value;
      StepKeepsInv(s, run[0], u);
      QuietStepKeepsDrained(s, run[0], u);
      QuietRunKeepsDrained(u, run[1..], t);
    }
  }

  /** If no row is offered after the stop, Close leaves the queue empty and every accepted row attempted
      exactly once. */
  lemma CloseDrains(n: int, run: seq<Action>, t: State)
    requires QuietAfterStop(Init(n), run) && Exec(Init(n), run) == Some(t) && AllExited(t)
    ensures t.queue == [] && multiset(t.attempted) == multiset(t.accepted)
  {
    InitInv(n);
    RunKeepsInv(Init(n), run, t);
    QuietRunKeepsDrained(Init(n), run, t);
    assert t.workers[0].Exited?;
    AtClose(n, run, t);
  }

  // ---- termination ----

  function WorkerRank(w: Worker): nat {
    match w
    case Selecting => 2
    case Draining => 1
    case Inserting(_, draining) => if draining then 2 else 3
    case Exited => 0
  }

  function Ranks(ws: seq<Worker>): nat {
    if ws == [] then 0 else WorkerRank(ws[0]) + Ranks(ws[1..])
  }

  function Rank(s: State): nat {
    2 * |s.queue| + Ranks(s.workers)
  }

  lemma {:induction false} RanksAfter(ws: seq<Worker>, i: nat, w: Worker)
    requires i < |ws|
    ensures Ranks(ws[i := w]) + WorkerRank(ws[i]) == Ranks(ws) + WorkerRank(w)
    decreases |ws|
  {
    if i == 0 {
      assert ws[i := w][1..] == ws[1..];
    } else {
      assert ws[i := w][1..] == ws[1..][i - 1 := w];
      RanksAfter(ws[1..], i - 1, w);
    }
  }

  /** Each worker step lowers the rank, so after the last offer a schedule has at most Rank(s) steps left. */
  lemma {:induction false} SchedulesEnd(s: State, run: seq<Action>, t: State)
    requires Exec(s, run) == Some(t) && forall a | a in run :: IsWork(a)
    ensures |run| + Rank(t) <= Rank(s)
    decreases |run|
  {
    if run != [] {
      var a := run[0];
      var u := Next(s, a).value;
      assert a in run;
      RanksAfter(s.workers, a.i, u.workers[a.i]);
      assert s.workers[a.i := u.workers[a.i]] == u.workers;
      SchedulesEnd(u, run[1..], t);
    }
  }

  /** No schedule gets stuck while there is work: a worker can move unless all of them have exited or, before the
      stop, wait for a row. */
  lemma WorkersMoveIff(s: State)
    ensures (forall a | IsWork(a) :: Next(s, a).None?) <==>
            forall i | 0 <= i < |s.workers| :: s.workers[i].Exited? || (s.workers[i].Selecting? && !s.stopped && s.queue == [])
  {
    forall i | 0 <= i < |s.workers| && !s.workers[i].Exited? && (s.workers[i].Selecting? ==> s.stopped || s.queue != [])
      ensures exists a | IsWork(a) :: Next(s, a).Some?
    {
      var w := s.workers[i];
      var a := if w.Inserting? then Insert(i) else if s.queue != [] then Take(i) else if w.Draining? then Leave(i) else SeeStop(i);
      assert IsWork(a) && Next(s, a).Some?;
    }
  }

  /** After the stop only exited workers rest. */
  lemma StoppedWorkersMove(s: State)
    requires s.stopped
    ensures AllExited(s) <==> forall a | IsWork(a) :: Next(s, a).None?
  {
    WorkersMoveIff(s);
  }

  /** Rows offered while the last worker has gone are stranded. */
  lemma LateRowIsStranded(row: AuditRow)
    ensures exists run, t :: Exec(Init(1), run) == Some(t) && AllExited(t) && t.accepted == [row] && t.attempted == [] && t.queue == [row]
  {
    var s0 := Init(1);
    assert s0.workers == [Selecting];
    var s1 := s0.(stopped := true);
    var s2, s3 := Set(s1, 0, Draining), Set(s1, 0, Exited);
    assert s3.workers == s2.workers[0 := Exited];
    var s4 := s3.(offered := [row], accepted := [row], queue := [row]);
    assert Next(s0, Stop) == Some(s1) && Next(s1, SeeStop(0)) == Some(s2) && Next(s2, Leave(0)) == Some(s3);
    assert s3.accepted + [row] == [row];
    assert Next(s3, Offer(row)) == Some(s4);
    var r1 := [Offer(row)];
    var r2 := [Leave(0)] + r1;
    var r3 := [SeeStop(0)] + r2;
    var r4 := [Stop] + r3;
    assert Exec(s4, r1[1..]) == Some(s4);
    assert Exec(s3, r1) == Some(s4);
    assert r2[1..] == r1 && Exec(s2, r2) == Some(s4);
    assert r3[1..] == r2 && Exec(s1, r3) == Some(s4);
    assert r4[1..] == r3 && Exec(s0, r4) == Some(s4);
  }
}
