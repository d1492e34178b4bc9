/**
 * A goroutine that runs alone: its schedule, the refresh it performs, and what such schedules show
 * about the conditions the theorems carry.
 */
module RefreshSolo {
  import opened Common
  import opened Credentials
  import opened RefreshProtocol
  import opened RefreshRules

  /** Steps of one goroutine, each after the clock has run for a while. */
  type Script = seq<(nat, Choice)>

  function Later(g: Shared, d: nat): Shared { g.(now := g.now + d) }

  function Drive(c: Config, g: Shared, i: nat, pc: Pc, script: Script): Moved
    decreases |script|
  {
    if script == [] then Some((g, pc))
    else
      match Move(c, Later(g, script[0].0), i, pc, script[0].1)
      case None => None
      case Some((h, q)) => Drive(c, h, i, q, script[1..])
  }

  function Schedule(i: nat, script: Script): seq<Action>
    decreases |script|
  {
    if script == [] then []
    else [Advance(script[0].0), Go(i, script[0].1)] + Schedule(i, script[1..])
  }

  lemma {:induction false} DriveIsExec(c: Config, s: State, i: nat, script: Script, h: Shared, q: Pc)
    requires i < |s.pcs| && Drive(c, s.g, i, s.pcs[i], script) == Some((h, q))
    ensures Reaches(c, s, Schedule(i, script), State(h, s.pcs[i := q]))
    decreases |script|
  {
    if script == [] {
      assert s.pcs[i := q] == s.pcs;
    } else {
      var (d, ch) := script[0];
      var run := Schedule(i, script);
      var s1 := s.(g := Later(s.g, d));
      var (g2, pc2) := Move(c, s1.g, i, s.pcs[i], ch).value;
      var s2 := State(g2, s.pcs[i := pc2]);
      assert run[0] == Advance(d) && run[1..][0] == Go(i, ch) && run[1..][1..] == Schedule(i, script[1..]);
      DriveIsExec(c, s2, i, script[1..], h, q);
      assert s2.pcs[i := q] == s.pcs[i := q];
      assert Exec(c, s1, run[1..]) == Exec(c, s2, run[1..][1..]);
    }
  }

  lemma {:induction false} Extend(c: Config, g: Shared, i: nat, pc: Pc, script: Script, h: Shared, q: Pc, d: nat, ch: Choice)
    requires Drive(c, g, i, pc, script) == Some((h, q))
    ensures Drive(c, g, i, pc, script + [(d, ch)]) == Move(c, Later(h, d), i, q, ch)
    decreases |script|
  {
    if script == [] {
      assert (script + [(d, ch)])[1..] == [];
    } else {
      var (g1, pc1) := Move(c, Later(g, script[0].0), i, pc, script[0].1).value;
      assert (script + [(d, ch)])[1..] == script[1..] + [(d, ch)];
      Extend(c, g1, i, pc1, script[1..], h, q, d, ch);
    }
  }

  /** Some schedule of goroutine i alone leads from (g, pc) to (h, q). */
  ghost predicate Alone(c: Config, g: Shared, i: nat, pc: Pc, h: Shared, q: Pc) {
    exists script :: Drive(c, g, i, pc, script) == Some((h, q))
  }

  lemma AloneStep(c: Config, g: Shared, i: nat, pc: Pc, h: Shared, q: Pc, d: nat, ch: Choice, h2: Shared, q2: Pc)
    requires Alone(c, g, i, pc, h, q) && Move(c, Later(h, d), i, q, ch) == Some((h2, q2))
    ensures Alone(c, g, i, pc, h2, q2)
  {
    var script :| Drive(c, g, i, pc, script) == Some((h, q));
    Extend(c, g, i, pc, script, h, q, d, ch);
    assert Drive(c, g, i, pc, script + [(d, ch)]) == Some((h2, q2));
  }

  lemma AloneStart(c: Config, g: Shared, i: nat, pc: Pc)
    ensures Alone(c, g, i, pc, g, pc)
  {
    assert Drive(c, g, i, pc, []) == Some((g, pc));
  }

  /** Memory after a refresh: only a renewal touches it, and then under the selected key. */
  function MemoryAfter(m: Memory, o: Outcome, at: Time): Memory {
    match o
    case Renewed(t) =>
      var renewed := Granted(m.entry, t, at);
      Memory(renewed, m.mapKey, m.fileData[m.mapKey := renewed])
    case _ => m
  }

  function WrittenTo(was: Option<FileData>, m: Memory, o: Outcome, ok: bool): Option<FileData> {
    if o.Renewed? && ok then Some(m.fileData) else was
  }

  /** After the guard: refreshMu held, nothing else changed. */
  lemma AloneToGuard(c: Config, g: Shared, i: nat, who: Caller, delay: nat)
    requires g.holder == None
    ensures
      var held := Later(g, delay).(holder := Some(i));
      var e := g.mem.entry;
      Alone(c, g, i, Waiting(who), held,
            if FreshEnough(e, who.Force?, held.now, c.skew) then Unlocking(who, true)
            else if Blank(e.refreshToken) then Unlocking(who, false)
            else Discovering(who, e, g.mem.mapKey))
  {
    var g1 := g.(holder := Some(i));
    var e, k := g.mem.entry, g.mem.mapKey;
    AloneStart(c, g, i, Waiting(who));
    AloneStep(c, g, i, Waiting(who), g, Waiting(who), 0, Proceed, g1, Locked(who));
    AloneStep(c, g, i, Waiting(who), g1, Locked(who), 0, Proceed, g1, Snapped(who, e, k));
    var held := Later(g, delay).(holder := Some(i));
    var q := Move(c, held, i, Snapped(who, e, k), Proceed).value.1;
    AloneStep(c, g, i, Waiting(who), g1, Snapped(who, e, k), delay, Proceed, held, q);
  }

  function CommittedTo(g: Shared, renewed: Entry): Shared {
    var fd := g.mem.fileData[g.mem.mapKey := renewed];
    g.(mem := Memory(renewed, g.mem.mapKey, fd), commits := g.commits + [fd])
  }

  lemma AloneToCommit(c: Config, g: Shared, i: nat, who: Caller, g0: Shared, pc0: Pc, t: Tokens, delay: nat)
    requires Alone(c, g0, i, pc0, g, Answered(who, g.mem.entry, g.mem.mapKey, t))
    ensures
      var h := CommittedTo(Later(g, delay), Granted(g.mem.entry, t, g.now + delay));
      Alone(c, g0, i, pc0, h, Committed(who, h.mem.fileData))
  {
    var e, k, h1 := g.mem.entry, g.mem.mapKey, Later(g, delay);
    var stamped := Stamped(who, Granted(e, t, h1.now), k);
    AloneStep(c, g0, i, pc0, g, Answered(who, e, k, t), delay, Proceed, h1, stamped);
    assert Later(h1, 0) == h1;
    var h := CommittedTo(h1, stamped.renewed);
    AloneStep(c, g0, i, pc0, h1, stamped, 0, Proceed, h, Committed(who, h.mem.fileData));
  }

  ghost predicate WrittenFrom(c: Config, g: Shared, h: Shared, persistOk: bool, writeOk: bool) {
    && h.now == g.now && h.mem == g.mem
    && h.db.content == (if persistOk then Some(g.mem.fileData) else g.db.content)
    && h.file.content == (if c.fileWritable && writeOk then Some(g.mem.fileData) else g.file.content)
    && h.db.synced == persistOk && h.file.synced == (if c.fileWritable then writeOk else g.file.synced)
  }

  /** Both writes, each of which may fail. */
  lemma AloneToWritten(c: Config, g: Shared, i: nat, who: Caller, g0: Shared, pc0: Pc, persistOk: bool, writeOk: bool)
    requires Alone(c, g0, i, pc0, g, Committed(who, g.mem.fileData))
    ensures exists h :: Alone(c, g0, i, pc0, h, Unlocking(who, true)) && WrittenFrom(c, g, h, persistOk, writeOk)
  {
    var fd := g.mem.fileData;
    assert Later(g, 0) == g;
    var g1 := g.(db := Written(g, g.db, fd, persistOk));
    AloneStep(c, g0, i, pc0, g, Committed(who, fd), 0, if persistOk then Proceed else Fail, g1, Persisted(who, fd));
    assert Later(g1, 0) == g1;
    var h := if c.fileWritable then g1.(file := Written(g1, g1.file, fd, writeOk)) else g1;
    AloneStep(c, g0, i, pc0, g1, Persisted(who, fd), 0, if writeOk then Proceed else Fail, h, Unlocking(who, true));
    assert WrittenFrom(c, g, h, persistOk, writeOk);
  }

  ghost predicate GrantedFrom(g: Shared, h: Shared) {
    h == g.(idp := h.idp, grants := h.grants)
  }

  lemma AloneToAnswer(c: Config, g: Shared, i: nat, who: Caller, g0: Shared, pc0: Pc, t: Tokens)
    requires Alone(c, g0, i, pc0, g, Discovering(who, g.mem.entry, g.mem.mapKey))
    requires CanGrant(g.idp, g.mem.entry.refreshToken, t) && t.access != ""
    ensures exists h :: Alone(c, g0, i, pc0, h, Answered(who, g.mem.entry, g.mem.mapKey, t)) && GrantedFrom(g, h)
  {
    var e, k := g.mem.entry, g.mem.mapKey;
    assert Later(g, 0) == g;
    AloneStep(c, g0, i, pc0, g, Discovering(who, e, k), 0, Proceed, g, Posting(who, e, k, g.now));
    var (h, q) := Move(c, g, i, Posting(who, e, k, g.now), Answer(t)).value;
    AloneStep(c, g0, i, pc0, g, Posting(who, e, k, g.now), 0, Answer(t), h, q);
    assert GrantedFrom(g, h);
  }

  lemma AloneToFailure(c: Config, g: Shared, i: nat, who: Caller, g0: Shared, pc0: Pc, posted: bool)
    requires Alone(c, g0, i, pc0, g, Discovering(who, g.mem.entry, g.mem.mapKey))
    ensures Alone(c, g0, i, pc0, g, Unlocking(who, false))
  {
    var e, k := g.mem.entry, g.mem.mapKey;
    assert Later(g, 0) == g;
    if posted {
      AloneStep(c, g0, i, pc0, g, Discovering(who, e, k), 0, Proceed, g, Posting(who, e, k, g.now));
      AloneStep(c, g0, i, pc0, g, Posting(who, e, k, g.now), 0, Fail, g, Unlocking(who, false));
    } else {
      AloneStep(c, g0, i, pc0, g, Discovering(who, e, k), 0, Fail, g, Unlocking(who, false));
    }
  }

  lemma AloneToReturn(c: Config, g: Shared, i: nat, who: Caller, g0: Shared, pc0: Pc, ok: bool)
    requires Alone(c, g0, i, pc0, g, Unlocking(who, ok))
    ensures Alone(c, g0, i, pc0, g.(holder := None, releasedAt := g.now), Returned(who, ok))
  {
    assert Later(g, 0) == g;
    AloneStep(c, g0, i, pc0, g, Unlocking(who, ok), 0, Proceed, g.(holder := None, releasedAt := g.now), Returned(who, ok));
  }

  /** A granted request, its commit and its writes. */
  lemma AloneToRenewal(c: Config, g: Shared, i: nat, who: Caller, g0: Shared, pc0: Pc, t: Tokens, env: Env)
    requires Alone(c, g0, i, pc0, g, Discovering(who, g.mem.entry, g.mem.mapKey))
    requires CanGrant(g.idp, g.mem.entry.refreshToken, t) && t.access != ""
    ensures exists h :: Alone(c, g0, i, pc0, h, Unlocking(who, true)) && RenewedTo(c, g, h, t, env)
  {
    AloneToAnswer(c, g, i, who, g0, pc0, t);
    var g1 :| Alone(c, g0, i, pc0, g1, Answered(who, g.mem.entry, g.mem.mapKey, t)) && GrantedFrom(g, g1);
    AloneToCommit(c, g1, i, who, g0, pc0, t, env.answerDelay);
    var g2 := CommittedTo(Later(g1, env.answerDelay), Granted(g.mem.entry, t, g1.now + env.answerDelay));
    AloneToWritten(c, g2, i, who, g0, pc0, env.persistOk, env.writeOk);
    var h :| Alone(c, g0, i, pc0, h, Unlocking(who, true)) && WrittenFrom(c, g2, h, env.persistOk, env.writeOk);
    assert RenewedTo(c, g, h, t, env);
  }

  ghost predicate RenewedTo(c: Config, g: Shared, h: Shared, t: Tokens, env: Env) {
    && h.now == g.now + env.answerDelay
    && h.mem == MemoryAfter(g.mem, Renewed(t), h.now)
    && h.db.content == (if env.persistOk then Some(h.mem.fileData) else g.db.content)
    && h.file.content == (if c.fileWritable && env.writeOk then Some(h.mem.fileData) else g.file.content)
    && h.db.synced == env.persistOk && h.file.synced == (if c.fileWritable then env.writeOk else g.file.synced)
  }

  /** The end of a refresh that ran alone from g, as Manager.Refresh specifies it. */
  ghost predicate RefreshedTo(c: Config, g: Shared, h: Shared, o: Outcome, env: Env) {
    && h.holder == None
    && h.now == g.now + env.guardDelay + (if o.Renewed? then env.answerDelay else 0)
    && h.mem == MemoryAfter(g.mem, o, h.now)
    && h.db.content == WrittenTo(g.db.content, h.mem, o, env.persistOk)
    && h.file.content == WrittenTo(g.file.content, h.mem, o, c.fileWritable && env.writeOk)
    && h.db.synced == (if o.Renewed? then env.persistOk else g.db.synced)
    && h.file.synced == (if o.Renewed? && c.fileWritable then env.writeOk else g.file.synced)
  }

  /** The sequential refresh is one schedule of the protocol: same memory, clock and durable copies. */
  lemma SequentialRefreshIsASchedule(c: Config, g: Shared, i: nat, who: Caller, found: bool, env: Env)
    requires g.holder == None
    requires var o := RefreshOutcome(g.mem.entry, who.Force?, g.now + env.guardDelay, c.skew, found, env.post);
             o.Renewed? ==> CanGrant(g.idp, g.mem.entry.refreshToken, o.tokens)
    ensures
      var o := RefreshOutcome(g.mem.entry, who.Force?, g.now + env.guardDelay, c.skew, found, env.post);
      exists h :: Alone(c, g, i, Waiting(who), h, Returned(who, !o.Failed?)) && RefreshedTo(c, g, h, o, env)
  {
    var e, k := g.mem.entry, g.mem.mapKey;
    var o := RefreshOutcome(e, who.Force?, g.now + env.guardDelay, c.skew, found, env.post);
    AloneToGuard(c, g, i, who, env.guardDelay);
    var held := Later(g, env.guardDelay).(holder := Some(i));
    var last := held;
    if o.Renewed? {
      AloneToRenewal(c, held, i, who, g, Waiting(who), o.tokens, env);
      last :| Alone(c, g, i, Waiting(who), last, Unlocking(who, true)) && RenewedTo(c, held, last, o.tokens, env);
    } else if o.Failed? && !Blank(e.refreshToken) {
      AloneToFailure(c, held, i, who, g, Waiting(who), found && !env.post.BadEndpoint?);
    }
    AloneToReturn(c, last, i, who, g, Waiting(who), !o.Failed?);
    assert RefreshedTo(c, g, last.(holder := None, releasedAt := last.now), o, env);
  }

  // ---- the getter ----

  lemma {:induction false} DriveOn(c: Config, g: Shared, i: nat, pc: Pc, first: Script, h: Shared, q: Pc, second: Script)
    requires Drive(c, g, i, pc, first) == Some((h, q))
    ensures Drive(c, g, i, pc, first + second) == Drive(c, h, i, q, second)
    decreases |first|
  {
    if first == [] {
      assert first + second == second;
    } else {
      var (g1, pc1) := Move(c, Later(g, first[0].0), i, pc, first[0].1).value;
      assert (first + second)[0] == first[0] && (first + second)[1..] == first[1..] + second;
      DriveOn(c, g1, i, pc1, first[1..], h, q, second);
    }
  }

  lemma AloneThen(c: Config, g: Shared, i: nat, pc: Pc, h: Shared, q: Pc, k: Shared, r: Pc)
    requires Alone(c, g, i, pc, h, q) && Alone(c, h, i, q, k, r)
    ensures Alone(c, g, i, pc, k, r)
  {
    var first :| Drive(c, g, i, pc, first) == Some((h, q));
    var second :| Drive(c, h, i, q, second) == Some((k, r));
    DriveOn(c, g, i, pc, first, h, q, second);
    assert Drive(c, g, i, pc, first + second) == Some((k, r));
  }

  lemma AloneToCheck(c: Config, g: Shared, i: nat, delay: nat)
    requires !Blank(g.mem.entry.key)
    ensures var e, h := g.mem.entry, Later(g, delay);
            if NeedsRefresh(e, h.now, c.skew) then Alone(c, g, i, Idle, h, Waiting(Get(e, g.now)))
            else Alone(c, g, i, Idle, Serve(h, e, g.now, false), Idle)
  {
    var e, h := g.mem.entry, Later(g, delay);
    AloneStart(c, g, i, Idle);
    AloneStep(c, g, i, Idle, g, Idle, 0, StartGet, g, GetRead(e, g.now));
    var (k, q) := Move(c, h, i, GetRead(e, g.now), Proceed).value;
    AloneStep(c, g, i, Idle, g, GetRead(e, g.now), delay, Proceed, k, q);
  }

  /** What a getter that read `first` at `start` makes of the refresh it asked for. */
  function AfterRefresh(h: Shared, first: Entry, start: Time, ok: bool): Shared {
    if ok then h.(served := h.served + [Served(h.mem.entry, start, h.now, true)])
    else if h.now < first.expiresAt then h.(served := h.served + [Served(first, start, h.now, true)])
    else h
  }

  /** The sequential GetAccessToken is one schedule too: a token with the skew left is served at once; else the refresh
      runs, and its token is served or, after a failure, the old one until it expires. */
  lemma SequentialGetIsASchedule(c: Config, g: Shared, i: nat, delay: nat, found: bool, env: Env, retryDelay: nat)
    requires g.holder == None && !Blank(g.mem.entry.key)
    requires var o := RefreshOutcome(g.mem.entry, false, g.now + delay + env.guardDelay, c.skew, found, env.post);
             o.Renewed? ==> CanGrant(g.idp, g.mem.entry.refreshToken, o.tokens)
    ensures var e, at := g.mem.entry, Later(g, delay);
            var o := RefreshOutcome(e, false, at.now + env.guardDelay, c.skew, found, env.post);
            if e.expiresAt == 0 || e.expiresAt >= at.now + c.skew
            then Alone(c, g, i, Idle, at.(served := at.served + [Served(e, g.now, at.now, false)]), Idle)
            else exists h :: RefreshedTo(c, at, h, o, env) &&
                             Alone(c, g, i, Idle, AfterRefresh(Later(h, retryDelay), e, g.now, !o.Failed?), Idle)
  {
    var e, at := g.mem.entry, Later(g, delay);
    var o := RefreshOutcome(e, false, at.now + env.guardDelay, c.skew, found, env.post);
    AloneToCheck(c, g, i, delay);
    if NeedsRefresh(e, at.now, c.skew) {
      var who := Get(e, g.now);
      SequentialRefreshIsASchedule(c, at, i, who, found, env);
      var h :| Alone(c, at, i, Waiting(who), h, Returned(who, !o.Failed?)) && RefreshedTo(c, at, h, o, env);
      AloneThen(c, g, i, Idle, at, Waiting(who), h, Returned(who, !o.Failed?));
      var last := AfterRefresh(Later(h, retryDelay), e, g.now, !o.Failed?);
      AloneStep(c, g, i, Idle, h, Returned(who, !o.Failed?), retryDelay, Proceed, last, Idle);
    }
  }
}
