/**
 * Validation and revocation interleaved step by step, on any number of Store instances that share one
 * database and one clock: how stale an accepted key can be.
 */
module RevocationProtocol {
  import opened Common
  import opened KeyStore

  /** A row of api_keys: enabled from its creation up to the instant of its revocation. */
  datatype Row = Row(lookup: string, created: Time, revoked: Option<Time>)

  datatype Cached = Cached(id: string, expiresAt: Time)

  /** A goroutine of instance `on`. `at` is the clock reading at the start of the validation. */
  datatype Pc =
    | Idle
    | Looking(on: nat, lh: string, at: Time)
    | Checking(on: nat, lh: string, at: Time, ent: Cached)
    | Deleting(on: nat, lh: string, at: Time)
    | Querying(on: nat, lh: string, at: Time)
    | Comparing(on: nat, lh: string, at: Time, id: string, read: Time)
    | Putting(on: nat, lh: string, at: Time, id: string, read: Time)
    | Purging(on: nat, id: string)

  /** A validation that succeeded, and the instant of the cache check or DB read that decided it. */
  datatype Accept = Accept(id: string, on: nat, decided: Time)

  datatype Shared = Shared(now: Time, rows: map<string, Row>, caches: seq<map<string, Cached>>, accepts: seq<Accept>)

  datatype State = State(g: Shared, pcs: seq<Pc>)

  datatype Choice =
    | StartValidate(on: nat, lh: string)
    | StartRevoke(on: nat, id: string)
    | Proceed
    | Select(id: string)  // the row a query finds
    | Refuse              // no row, a query error, or a hash that does not match

  datatype Action =
    | Advance(d: nat)
    | Create(id: string, lh: string)
    | Go(i: nat, choice: Choice)

  predicate Enabled(row: Row, at: Time) {
    row.created <= at && (row.revoked.None? || at <= row.revoked.value)
  }

  function PutIn(g: Shared, on: nat, cache: map<string, Cached>): Shared
    requires on < |g.caches|
  {
    g.(caches := g.caches[on := cache])
  }

  function ValidateStep(g: Shared, pc: Pc, ch: Choice): Option<(Shared, Pc)> {
    match (pc, ch)
    case (Idle, StartValidate(on, lh)) =>
      if on < |g.caches| then Some((g, Looking(on, lh, g.now))) else None
    case (Looking(on, lh, at), Proceed) =>
      if on >= |g.caches| then None
      else if lh in g.caches[on] then Some((g, Checking(on, lh, at, g.caches[on][lh])))
      else Some((g, Querying(on, lh, at)))
    case (Checking(on, lh, at, ent), Proceed) =>
      if g.now > ent.expiresAt then Some((g, Deleting(on, lh, at)))
      else Some((g.(accepts := g.accepts + [Accept(ent.id, on, g.now)]), Idle))
    case (Deleting(on, lh, at), Proceed) =>
      if on < |g.caches| then Some((PutIn(g, on, g.caches[on] - {lh}), Querying(on, lh, at))) else None
    case (Querying(on, lh, at), Select(id)) =>
      if id in g.rows && g.rows[id].lookup == lh && g.rows[id].revoked.None?
      then Some((g, Comparing(on, lh, at, id, g.now))) else None
    case (Querying(_, _, _), Refuse) => Some((g, Idle))
    case (Comparing(on, lh, at, id, read), Proceed) => Some((g, Putting(on, lh, at, id, read)))
    case (Comparing(_, _, _, _, _), Refuse) => Some((g, Idle))
    case (Putting(on, lh, at, id, read), Proceed) =>
      if on >= |g.caches| then None
      else
        var h := PutIn(g, on, g.caches[on][lh := Cached(id, at + KEY_CACHE_TTL)]);
        Some((h.(accepts := h.accepts + [Accept(id, on, read)]), Idle))
    case _ => None
  }

  /** The update of the row and the purge of the instance's own cache are two steps. */
  function RevokeStep(g: Shared, pc: Pc, ch: Choice): Option<(Shared, Pc)> {
    match (pc, ch)
    case (Idle, StartRevoke(on, id)) =>
      if on < |g.caches| && id in g.rows && g.rows[id].revoked.None?
      then Some((g.(rows := g.rows[id := g.rows[id].(revoked := Some(g.now))]), Purging(on, id)))
      else None
    case (Purging(on, id), Proceed) =>
      if on < |g.caches| then Some((PutIn(g, on, Purge(g.caches[on], id)), Idle)) else None
    case _ => None
  }

  function Purge(cache: map<string, Cached>, id: string): map<string, Cached> {
    map lh | lh in cache && cache[lh].id != id :: cache[lh]
  }

  function Move(g: Shared, pc: Pc, ch: Choice): Option<(Shared, Pc)> {
    if pc.Purging? || ch.StartRevoke? then RevokeStep(g, pc, ch) else ValidateStep(g, pc, ch)
  }

  function Next(s: State, a: Action): Option<State> {
    match a
    case Advance(d) => Some(s.(g := s.g.(now := s.g.now + d)))
    case Create(id, lh) =>
      if id in s.g.rows then None
      else Some(s.(g := s.g.(rows := s.g.rows[id := Row(lh, s.g.now, None)])))
    case Go(i, ch) =>
      if i >= |s.pcs| then None
      else match Move(s.g, s.pcs[i], ch)
        case None => None
        case Some((g, pc)) => Some(State(g, s.pcs[i := pc]))
  }

  function Exec(s: State, run: seq<Action>): Option<State>
    decreases |run|
  {
    if run == [] then Some(s)
    else match Next(s, run[0])
      case None => None
      case Some(t) => Exec(t, run[1..])
  }

  /** Stores that have just been opened. */
  predicate Init(s: State) {
    && (forall i | 0 <= i < |s.pcs| :: s.pcs[i] == Idle)
    && (forall on | 0 <= on < |s.g.caches| :: s.g.caches[on] == map[])
    && s.g.accepts == []
    && (forall id | id in s.g.rows :: s.g.rows[id].created <= s.g.now &&
          (s.g.rows[id].revoked.Some? ==> s.g.rows[id].created <= s.g.rows[id].revoked.value <= s.g.now))
  }

  // ---- the invariant ----

  /** The row exists and was not revoked before `since`. */
  predicate NotRevokedBefore(g: Shared, id: string, since: Time) {
    id in g.rows && since <= g.now && (g.rows[id].revoked.Some? ==> since <= g.rows[id].revoked.value)
  }

  predicate CachedOk(g: Shared, ent: Cached) {
    NotRevokedBefore(g, ent.id, ent.expiresAt - KEY_CACHE_TTL)
  }

  predicate PcOk(g: Shared, pc: Pc) {
    && (!pc.Idle? ==> pc.on < |g.caches|)
    && match pc
    case Idle | Purging(_, _) => true
    case Looking(_, _, at) => at <= g.now
    case Deleting(_, _, at) => at <= g.now
    case Querying(_, _, at) => at <= g.now
    case Checking(_, _, at, ent) => at <= g.now && CachedOk(g, ent)
    case Comparing(_, _, at, id, read) => at <= read && NotRevokedBefore(g, id, read) && g.rows[id].created <= read
    case Putting(_, _, at, id, read) => at <= read && NotRevokedBefore(g, id, read) && g.rows[id].created <= read
  }

  predicate RowsOk(g: Shared) {
    forall id | id in g.rows :: g.rows[id].created <= g.now &&
      (g.rows[id].revoked.Some? ==> g.rows[id].created <= g.rows[id].revoked.value <= g.now)
  }

  ghost predicate CachesOk(g: Shared) {
    forall on, lh | 0 <= on < |g.caches| && lh in g.caches[on] :: CachedOk(g, g.caches[on][lh])
  }

  /** A row only ages: what was known about it stays so. */
  predicate AcceptOk(g: Shared, a: Accept) {
    && a.decided <= g.now && a.id in g.rows && g.rows[a.id].created <= a.decided
    && (g.rows[a.id].revoked.Some? ==> a.decided - KEY_CACHE_TTL <= g.rows[a.id].revoked.value)
  }

  predicate AcceptsOk(g: Shared) {
    forall n | 0 <= n < |g.accepts| :: AcceptOk(g, g.accepts[n])
  }

  ghost predicate Inv(s: State) {
    && RowsOk(s.g) && CachesOk(s.g) && AcceptsOk(s.g)
    && forall i | 0 <= i < |s.pcs| :: PcOk(s.g, s.pcs[i])
  }

  /** Time passes, rows appear, and a row is revoked only now. */
  predicate Ages(g: Shared, h: Shared) {
    && g.now <= h.now
    && forall id | id in g.rows ::
         && id in h.rows && h.rows[id].created == g.rows[id].created
         && (h.rows[id].revoked == g.rows[id].revoked || (g.rows[id].revoked.None? && h.rows[id].revoked == Some(h.now)))
  }

  lemma AgingKeeps(g: Shared, h: Shared, pc: Pc)
    requires Ages(g, h) && |h.caches| == |g.caches| && PcOk(g, pc)
    ensures PcOk(h, pc)
  {
  }

  lemma AgingKeepsCaches(g: Shared, h: Shared)
    requires Ages(g, h) && CachesOk(g) && AcceptsOk(g) && RowsOk(h)
    requires h.accepts == g.accepts && h.caches == g.caches
    ensures CachesOk(h) && AcceptsOk(h)
  {
  }

  lemma ValidateStepOk(g: Shared, pc: Pc, ch: Choice, h: Shared, q: Pc)
    requires RowsOk(g) && CachesOk(g) && AcceptsOk(g) && PcOk(g, pc) && ValidateStep(g, pc, ch) == Some((h, q))
    ensures h.rows == g.rows && h.now == g.now
    ensures CachesOk(h) && AcceptsOk(h) && PcOk(h, q)
  {
  }

  lemma RevokeStepOk(g: Shared, pc: Pc, ch: Choice, h: Shared, q: Pc)
    requires RowsOk(g) && CachesOk(g) && AcceptsOk(g) && PcOk(g, pc) && RevokeStep(g, pc, ch) == Some((h, q))
    ensures Ages(g, h) && RowsOk(h) && CachesOk(h) && AcceptsOk(h) && PcOk(h, q)
  {
  }

  lemma StepKeepsInv(s: State, a: Action, t: State)
    requires Inv(s) && Next(s, a) == Some(t)
    ensures Inv(t)
  {
    match a
    case Go(i, ch) =>
      var pc, q := s.pcs[i], t.pcs[i];
      if pc.Purging? || ch.StartRevoke? {
        RevokeStepOk(s.g, pc, ch, t.g, q);
      } else {
        ValidateStepOk(s.g, pc, ch, t.g, q);
      }
      forall j | 0 <= j < |t.pcs| ensures PcOk(t.g, t.pcs[j]) {
        if j != i { AgingKeeps(s.g, t.g, s.pcs[j]); }
      }
    case _ =>
      AgingKeepsCaches(s.g, t.g);
      forall j | 0 <= j < |t.pcs| ensures PcOk(t.g, t.pcs[j]) {
        AgingKeeps(s.g, t.g, s.pcs[j]);
      }
  }

  lemma {:induction false} RunKeepsInv(s: State, run: seq<Action>, t: State)
    requires Inv(s) && Exec(s, run) == Some(t)
    ensures Inv(t)
    decreases |run|
  {
    if run != [] {
      var u := Next(s, run[0]).value;
      StepKeepsInv(s, run[0], u);
      RunKeepsInv(u, run[1..], t);
    }
  }

  /** Bounded staleness: a validation decided at instant t succeeds only for a row that was enabled at some
      instant of [t - keyCacheTTL, t], over every interleaving on every number of instances. */
  lemma StalenessIsBounded(s: State, run: seq<Action>, t: State, a: Accept)
    requires Init(s) && Exec(s, run) == Some(t) && a in t.g.accepts
    ensures a.id in t.g.rows &&
            exists w :: a.decided - KEY_CACHE_TTL <= w <= a.decided && Enabled(t.g.rows[a.id], w)
  {
    RunKeepsInv(s, run, t);
    var n :| 0 <= n < |t.g.accepts| && t.g.accepts[n] == a;
    assert AcceptOk(t.g, a);
    var row := t.g.rows[a.id];
    var from := a.decided - KEY_CACHE_TTL;
    assert Enabled(row, if row.created > from then row.created else from);
  }

  // ---- the bound is attained ----

  ghost predicate Reaches(s: State, t: State) {
    exists run :: Exec(s, run) == Some(t)
  }

  lemma {:induction false} Append(s: State, run: seq<Action>, u: State, a: Action, t: State)
    requires Exec(s, run) == Some(u) && Next(u, a) == Some(t)
    ensures Exec(s, run + [a]) == Some(t)
    decreases |run|
  {
    if run == [] {
      assert (run + [a])[1..] == [];
    } else {
      assert (run + [a])[1..] == run[1..] + [a];
      Append(Next(s, run[0]).value, run[1..], u, a, t);
    }
  }

  lemma Onward(s: State, u: State, a: Action, t: State)
    requires Reaches(s, u) && Next(u, a) == Some(t)
    ensures Reaches(s, t)
  {
    var run :| Exec(s, run) == Some(u);
    Append(s, run, u, a, t);
  }

  /** A step of the first of two goroutines, and one of the second. */
  lemma First(s: State, g: Shared, a: Pc, b: Pc, ch: Choice, h: Shared, q: Pc)
    requires Reaches(s, State(g, [a, b])) && Move(g, a, ch) == Some((h, q))
    ensures Reaches(s, State(h, [q, b]))
  {
    assert [a, b][0 := q] == [q, b];
    Onward(s, State(g, [a, b]), Go(0, ch), State(h, [q, b]));
  }

  lemma Second(s: State, g: Shared, a: Pc, b: Pc, ch: Choice, h: Shared, q: Pc)
    requires Reaches(s, State(g, [a, b])) && Move(g, b, ch) == Some((h, q))
    ensures Reaches(s, State(h, [a, q]))
  {
    assert [a, b][1 := q] == [a, q];
    Onward(s, State(g, [a, b]), Go(1, ch), State(h, [a, q]));
  }

  /** One instance, whose cache holds nothing, and one key. */
  function Fresh(id: string, lh: string, revoked: Option<Time>): Shared {
    Shared(1, map[id := Row(lh, 1, revoked)], [map[]], [])
  }

  /** The same after a validation that was decided at instant 1 has cached its key. */
  function Stale(id: string, lh: string, now: Time): Shared {
    Shared(now, map[id := Row(lh, 1, Some(1))], [map[lh := Cached(id, 1 + KEY_CACHE_TTL)]], [Accept(id, 0, 1)])
  }

  lemma RowIsRead(s: State, g: Shared, id: string, lh: string)
    requires g == Fresh(id, lh, None) && s == State(g, [Idle, Idle])
    ensures Reaches(s, State(g, [Comparing(0, lh, 1, id, 1), Idle]))
  {
    assert Exec(s, []) == Some(s);
    First(s, g, Idle, Idle, StartValidate(0, lh), g, Looking(0, lh, 1));
    First(s, g, Looking(0, lh, 1), Idle, Proceed, g, Querying(0, lh, 1));
    First(s, g, Querying(0, lh, 1), Idle, Select(id), g, Comparing(0, lh, 1, id, 1));
  }

  /** A revocation completes between the row read and the cachePut of a validation of the same instance. */
  lemma PutLandsAfterPurge(id: string, lh: string)
    ensures var s := State(Fresh(id, lh, None), [Idle, Idle]);
            Init(s) && Reaches(s, State(Stale(id, lh, 1), [Idle, Idle]))
  {
    var g, h := Fresh(id, lh, None), Fresh(id, lh, Some(1));
    var s := State(g, [Idle, Idle]);
    var comparing, putting := Comparing(0, lh, 1, id, 1), Putting(0, lh, 1, id, 1);
    RowIsRead(s, g, id, lh);
    assert g.rows[id := g.rows[id].(revoked := Some(1))] == h.rows;
    Second(s, g, comparing, Idle, StartRevoke(0, id), h, Purging(0, id));
    assert h.caches[0 := Purge(h.caches[0], id)] == h.caches;
    Second(s, h, comparing, Purging(0, id), Proceed, h, Idle);
    First(s, h, comparing, Idle, Proceed, h, putting);
    assert h.caches[0 := h.caches[0][lh := Cached(id, 1 + KEY_CACHE_TTL)]] == Stale(id, lh, 1).caches;
    assert h.accepts + [Accept(id, 0, 1)] == Stale(id, lh, 1).accepts;
    First(s, h, putting, Idle, Proceed, Stale(id, lh, 1), Idle);
  }

  /** A hit some time after that. */
  lemma HitAfterRevocation(s: State, id: string, lh: string, d: nat)
    requires d <= KEY_CACHE_TTL && Reaches(s, State(Stale(id, lh, 1), [Idle, Idle]))
    ensures Reaches(s, State(Stale(id, lh, 1 + d).(accepts := [Accept(id, 0, 1), Accept(id, 0, 1 + d)]), [Idle, Idle]))
  {
    var g := Stale(id, lh, 1 + d);
    Onward(s, State(Stale(id, lh, 1), [Idle, Idle]), Advance(d), State(g, [Idle, Idle]));
    First(s, g, Idle, Idle, StartValidate(0, lh), g, Looking(0, lh, 1 + d));
    var checking := Checking(0, lh, 1 + d, Cached(id, 1 + KEY_CACHE_TTL));
    First(s, g, Looking(0, lh, 1 + d), Idle, Proceed, g, checking);
    assert g.accepts + [Accept(id, 0, 1 + d)] == [Accept(id, 0, 1), Accept(id, 0, 1 + d)];
    First(s, g, checking, Idle, Proceed, g.(accepts := [Accept(id, 0, 1), Accept(id, 0, 1 + d)]), Idle);
  }

  /** Some run accepts a key d after its revocation; `alone`: with a single instance, which then revoked it itself. */
  ghost predicate StaleAcceptance(d: int, alone: bool) {
    exists s, t, a :: Init(s) && (alone ==> |s.g.caches| == 1) && Reaches(s, t) && a in t.g.accepts && a.id in t.g.rows &&
                      t.g.rows[a.id].revoked.Some? && a.decided == t.g.rows[a.id].revoked.value + d
  }

  lemma NoLaterAcceptance(d: int, alone: bool)
    requires StaleAcceptance(d, alone)
    ensures d <= KEY_CACHE_TTL
  {
    var s, t, a :| Init(s) && (alone ==> |s.g.caches| == 1) && Reaches(s, t) && a in t.g.accepts && a.id in t.g.rows &&
                   t.g.rows[a.id].revoked.Some? && a.decided == t.g.rows[a.id].revoked.value + d;
    var run :| Exec(s, run) == Some(t);
    StalenessIsBounded(s, run, t, a);
  }

  /** A revoked key may still be accepted up to exactly keyCacheTTL later, and no longer: with any number of
      instances, and also by the very instance that revoked it. */
  lemma RevokedKeyAcceptedIff(d: nat, alone: bool)
    ensures StaleAcceptance(d, alone) <==> d <= KEY_CACHE_TTL
  {
    if d <= KEY_CACHE_TTL {
      PutLandsAfterPurge("k", "h");
      var s := State(Fresh("k", "h", None), [Idle, Idle]);
      HitAfterRevocation(s, "k", "h", d);
      var t := State(Stale("k", "h", 1 + d).(accepts := [Accept("k", 0, 1), Accept("k", 0, 1 + d)]), [Idle, Idle]);
      assert t.g.accepts[1] in t.g.accepts;
    } else if StaleAcceptance(d, alone) {
      NoLaterAcceptance(d, alone);
    }
  }

  // ---- what the purge achieves ----

  /** A validation of the instance that may still accept the key on what it has read already. */
  predicate Busy(g: Shared, pc: Pc, on: nat, id: string) {
    match pc
    case Checking(o, _, _, ent) => o == on && ent.id == id && g.now <= ent.expiresAt
    case Comparing(o, _, _, i, _) => o == on && i == id
    case Putting(o, _, _, i, _) => o == on && i == id
    case _ => false
  }

  predicate Revoked(g: Shared, id: string) {
    id in g.rows && g.rows[id].revoked.Some?
  }

  /** Nothing the instance holds can accept the key any more. */
  ghost predicate Cleared(s: State, on: nat, id: string) {
    && on < |s.g.caches|
    && (forall lh | lh in s.g.caches[on] && s.g.caches[on][lh].id == id :: s.g.now > s.g.caches[on][lh].expiresAt)
    && (forall i | 0 <= i < |s.pcs| :: !Busy(s.g, s.pcs[i], on, id))
  }

  /** Between s and t the instance accepted the key. */
  predicate AcceptedBetween(g: Shared, h: Shared, on: nat, id: string) {
    exists n | |g.accepts| <= n < |h.accepts| :: h.accepts[n].on == on && h.accepts[n].id == id
  }

  lemma MoveKeepsCleared(g: Shared, pc: Pc, ch: Choice, h: Shared, q: Pc, on: nat, id: string)
    requires Revoked(g, id) && on < |g.caches| && Move(g, pc, ch) == Some((h, q)) && !Busy(g, pc, on, id)
    requires forall lh | lh in g.caches[on] && g.caches[on][lh].id == id :: g.now > g.caches[on][lh].expiresAt
    ensures Revoked(h, id) && on < |h.caches| && h.now == g.now && !Busy(h, q, on, id) && !AcceptedBetween(g, h, on, id)
    ensures g.accepts <= h.accepts
    ensures forall lh | lh in h.caches[on] && h.caches[on][lh].id == id :: h.now > h.caches[on][lh].expiresAt
  {
  }

  lemma StepKeepsCleared(s: State, a: Action, t: State, on: nat, id: string)
    requires Revoked(s.g, id) && Cleared(s, on, id) && Next(s, a) == Some(t)
    ensures Revoked(t.g, id) && Cleared(t, on, id) && s.g.accepts <= t.g.accepts && !AcceptedBetween(s.g, t.g, on, id)
  {
    if a.Go? {
      MoveKeepsCleared(s.g, s.pcs[a.i], a.choice, t.g, t.pcs[a.i], on, id);
    }
  }

  lemma {:induction false} ClearedNeverAccepts(s: State, run: seq<Action>, t: State, on: nat, id: string)
    requires Revoked(s.g, id) && Cleared(s, on, id) && Exec(s, run) == Some(t)
    ensures s.g.accepts <= t.g.accepts && !AcceptedBetween(s.g, t.g, on, id)
    decreases |run|
  {
    if run != [] {
      var u := Next(s, run[0]).value;
      StepKeepsCleared(s, run[0], u, on, id);
      ClearedNeverAccepts(u, run[1..], t, on, id);
    }
  }

  /** One goroutine moves on. */
  lemma Step(s: State, g: Shared, pcs: seq<Pc>, i: nat, pc: Pc, ch: Choice, h: Shared, q: Pc)
    requires i < |pcs| && Reaches(s, State(g, pcs[i := pc])) && Move(g, pc, ch) == Some((h, q))
    ensures Reaches(s, State(h, pcs[i := q]))
  {
    assert pcs[i := pc][i := q] == pcs[i := q];
    Onward(s, State(g, pcs[i := pc]), Go(i, ch), State(h, pcs[i := q]));
  }

  lemma {:induction false} BusyAccepts(s: State, g: Shared, pcs: seq<Pc>, i: nat, pc: Pc, on: nat, id: string)
    requires i < |pcs| && Reaches(s, State(g, pcs[i := pc])) && s.g.accepts == g.accepts && on < |g.caches| && Busy(g, pc, on, id)
    ensures exists t :: Reaches(s, t) && AcceptedBetween(s.g, t.g, on, id) && t.g.rows == g.rows
    decreases pc.Comparing?
  {
    var (h, q) := Move(g, pc, Proceed).value;
    Step(s, g, pcs, i, pc, Proceed, h, q);
    if pc.Comparing? {
      BusyAccepts(s, h, pcs, i, q, on, id);
    } else {
      assert h.accepts[|s.g.accepts|].id == id;
    }
  }

  lemma CachedAccepts(s: State, i: nat, on: nat, lh: string)
    requires i < |s.pcs| && s.pcs[i] == Idle && on < |s.g.caches|
    requires lh in s.g.caches[on] && s.g.now <= s.g.caches[on][lh].expiresAt
    ensures exists t :: Reaches(s, t) && AcceptedBetween(s.g, t.g, on, s.g.caches[on][lh].id)
  {
    assert Exec(s, []) == Some(s) && s.pcs[i := Idle] == s.pcs;
    var looking, ent := Looking(on, lh, s.g.now), s.g.caches[on][lh];
    Step(s, s.g, s.pcs, i, Idle, StartValidate(on, lh), s.g, looking);
    Step(s, s.g, s.pcs, i, looking, Proceed, s.g, Checking(on, lh, s.g.now, ent));
    BusyAccepts(s, s.g, s.pcs, i, Checking(on, lh, s.g.now, ent), on, ent.id);
  }

  /** After a revocation an instance accepts the key again, in some continuation, exactly if it still caches it or a
      validation that has read it is under way there. */
  lemma AcceptsAgainIff(s: State, i: nat, on: nat, id: string)
    requires Revoked(s.g, id) && on < |s.g.caches| && i < |s.pcs| && s.pcs[i] == Idle
    ensures (exists t :: Reaches(s, t) && AcceptedBetween(s.g, t.g, on, id)) <==> !Cleared(s, on, id)
  {
    if Cleared(s, on, id) {
      forall t | Reaches(s, t) ensures !AcceptedBetween(s.g, t.g, on, id) {
        var run :| Exec(s, run) == Some(t);
        ClearedNeverAccepts(s, run, t, on, id);
      }
    } else if j :| 0 <= j < |s.pcs| && Busy(s.g, s.pcs[j], on, id) {
      assert Exec(s, []) == Some(s) && s.pcs[j := s.pcs[j]] == s.pcs;
      BusyAccepts(s, s.g, s.pcs, j, s.pcs[j], on, id);
    } else {
      var lh :| lh in s.g.caches[on] && s.g.caches[on][lh].id == id && s.g.now <= s.g.caches[on][lh].expiresAt;
      CachedAccepts(s, i, on, lh);
    }
  }

  /** So once the purge of a revocation is done, its instance accepts the key again exactly if a validation that has
      read it overlapped; no validation that starts later does. */
  lemma PurgeIsFinalIff(s: State, i: nat, t: State, on: nat, id: string)
    requires Revoked(s.g, id) && i < |s.pcs| && s.pcs[i] == Purging(on, id) && Next(s, Go(i, Proceed)) == Some(t)
    ensures (exists u :: Reaches(t, u) && AcceptedBetween(t.g, u.g, on, id)) <==>
            exists j | 0 <= j < |s.pcs| :: Busy(s.g, s.pcs[j], on, id)
  {
    assert t.pcs[i] == Idle;
    assert forall j | 0 <= j < |s.pcs| :: Busy(s.g, s.pcs[j], on, id) <==> Busy(t.g, t.pcs[j], on, id);
    AcceptsAgainIff(t, i, on, id);
  }

  /** A key that has just been created is accepted by every instance. */
  lemma NewKeyIsAccepted(s: State, i: nat, on: nat, id: string, lh: string)
    requires i < |s.pcs| && s.pcs[i] == Idle && on < |s.g.caches| && id !in s.g.rows && lh !in s.g.caches[on]
    ensures exists t :: Reaches(s, t) && AcceptedBetween(s.g, t.g, on, id) && id in t.g.rows && t.g.rows[id] == Row(lh, s.g.now, None)
  {
    assert Exec(s, []) == Some(s) && s.pcs[i := Idle] == s.pcs;
    var g := s.g.(rows := s.g.rows[id := Row(lh, s.g.now, None)]);
    var looking, querying, comparing := Looking(on, lh, g.now), Querying(on, lh, g.now), Comparing(on, lh, g.now, id, g.now);
    Onward(s, s, Create(id, lh), State(g, s.pcs));
    Step(s, g, s.pcs, i, Idle, StartValidate(on, lh), g, looking);
    Step(s, g, s.pcs, i, looking, Proceed, g, querying);
    Step(s, g, s.pcs, i, querying, Select(id), g, comparing);
    BusyAccepts(s, g, s.pcs, i, comparing, on, id);
  }

  /** No operation is ever stuck: every goroutine that is not idle can move. */
  lemma OperationsMove(s: State, i: nat)
    requires Inv(s) && i < |s.pcs|
    ensures s.pcs[i] == Idle || Move(s.g, s.pcs[i], Proceed).Some? || Move(s.g, s.pcs[i], Refuse).Some?
  {
    assert PcOk(s.g, s.pcs[i]);
  }
}
