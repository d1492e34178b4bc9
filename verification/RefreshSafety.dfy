/**
 * What every interleaving of getters, forced refreshes and ticks keeps while no reload happens:
 * mutual exclusion, single use of refresh tokens, live answers, spacing of grants, durable order.
 */
module RefreshSafety {
  import opened Common
  import opened Credentials
  import opened RefreshProtocol

  /** `token` is the provider's current one; after a lost answer it is one already spent. */
  predicate InSync(g: Shared, token: string) {
    if g.idp.lost then token in g.idp.consumed else token == g.idp.current
  }

  /** `e` outlives the promise of the newest grant. */
  predicate Recent(g: Shared, e: Entry) {
    g.grants != [] ==> e.expiresAt >= Newest(g).at + Newest(g).lifetime
  }

  function Newest(g: Shared): Grant
    requires g.grants != []
  {
    g.grants[|g.grants| - 1]
  }

  predicate Settled(g: Shared) {
    InSync(g, g.mem.entry.refreshToken) && Recent(g, g.mem.entry)
  }

  predicate Agrees(g: Shared, r: Replica) {
    r.synced ==> r.content == Some(g.mem.fileData) && r.index == |g.commits| - 1
  }

  predicate BothAgree(c: Config, g: Shared) {
    Agrees(g, g.db) && (c.fileWritable ==> Agrees(g, g.file))
  }

  predicate ReplicaOk(commits: seq<FileData>, r: Replica) {
    -1 <= r.index < |commits| && (r.index >= 0 ==> r.content == Some(commits[r.index]))
  }

  /** An unforced refresh goes on only when at most `skew` is left. */
  predicate Due(c: Config, who: Caller, e: Entry, at: Time) {
    who.Force? || e.expiresAt == 0 || e.expiresAt <= at + c.skew
  }

  predicate Started(who: Caller, now: Time) {
    who.Get? ==> who.start <= now
  }

  predicate Outlives(e: Entry, who: Caller) {
    who.Get? ==> e.expiresAt > who.start
  }

  /** What a goroutine may rely on at each program counter. */
  predicate PcOk(c: Config, g: Shared, pc: Pc) {
    match pc
    case Idle | TickRead(_) => true
    case GetRead(_, start) => start <= g.now
    case Waiting(who) => Started(who, g.now)
    case Locked(who) => Started(who, g.now) && Settled(g) && BothAgree(c, g)
    case Snapped(who, e, k) => Snapshot(c, g, who, e, k) && Settled(g)
    case Discovering(who, e, k) => Snapshot(c, g, who, e, k) && Settled(g) && Due(c, who, e, g.now)
    case Posting(who, e, k, sent) =>
      Snapshot(c, g, who, e, k) && Settled(g) && sent <= g.now && Due(c, who, e, sent)
    case Answered(who, e, k, t) =>
      && Snapshot(c, g, who, e, k) && InSync(g, Rotated(e.refreshToken, t))
      && g.grants != [] && Newest(g).lifetime == Lifetime(t)
    case Stamped(who, renewed, k) =>
      && k == g.mem.mapKey && InSync(g, renewed.refreshToken) && Recent(g, renewed) && BothAgree(c, g)
      && Started(who, g.now) && Outlives(renewed, who) && renewed.expiresAt > g.releasedAt
    case Committed(who, copy) =>
      copy == g.mem.fileData && Settled(g) && Started(who, g.now) && Outlives(g.mem.entry, who)
    case Persisted(who, copy) =>
      && copy == g.mem.fileData && Settled(g) && Agrees(g, g.db)
      && Started(who, g.now) && Outlives(g.mem.entry, who)
    case Unlocking(who, ok) =>
      Settled(g) && BothAgree(c, g) && Started(who, g.now) && (ok ==> Outlives(g.mem.entry, who))
    case Returned(who, ok) => Started(who, g.releasedAt) && (ok ==> Outlives(g.mem.entry, who))
  }

  predicate Snapshot(c: Config, g: Shared, who: Caller, e: Entry, k: string) {
    e == g.mem.entry && k == g.mem.mapKey && Started(who, g.now) && BothAgree(c, g)
  }

  predicate ThreadOk(c: Config, g: Shared, i: nat, pc: Pc) {
    (Holding(pc) <==> g.holder == Some(i)) && PcOk(c, g, pc)
  }

  predicate GrantsOk(c: Config, grants: seq<Grant>, consumed: set<string>, now: Time) {
    && (forall i | 0 <= i < |grants| ::
          && grants[i].lifetime > 0 && 0 < grants[i].at <= now && grants[i].sent <= grants[i].at
          && (grants[i].rotated ==> grants[i].token in consumed))
    && (forall i, j | 0 <= i < j < |grants| && grants[i].rotated :: grants[i].token != grants[j].token)
    && (forall j | 0 < j < |grants| && !grants[j].forced ::
          grants[j].sent >= grants[j - 1].at + grants[j - 1].lifetime - c.skew)
  }

  /** A served token expires after the call began, unless its expiry is unknown, and has the skew left if no
      refresh was asked for. */
  predicate ServedOk(c: Config, served: seq<Served>, now: Time) {
    forall i | 0 <= i < |served| ::
      served[i].start <= served[i].finish <= now &&
      (served[i].entry.expiresAt == 0 || served[i].entry.expiresAt > served[i].start) &&
      (!served[i].asked ==> served[i].entry.expiresAt == 0 || served[i].entry.expiresAt >= served[i].finish + c.skew)
  }

  predicate SharedOk(c: Config, g: Shared) {
    && c.skew > 0 && g.now > 0 && g.releasedAt <= g.now
    && g.idp.current !in g.idp.consumed
    && g.commits != [] && g.commits[|g.commits| - 1] == g.mem.fileData
    && ReplicaOk(g.commits, g.db) && ReplicaOk(g.commits, g.file)
    && GrantsOk(c, g.grants, g.idp.consumed, g.now) && ServedOk(c, g.served, g.now)
    && (g.holder == None ==> Settled(g) && BothAgree(c, g))
  }

  predicate Inv(c: Config, s: State) {
    && SharedOk(c, s.g)
    && (s.g.holder.Some? ==> s.g.holder.value < |s.pcs|)
    && forall i | 0 <= i < |s.pcs| :: ThreadOk(c, s.g, i, s.pcs[i])
  }

  // ---- one step ----

  /** What a step of goroutine i may do to the state the others rely on. */
  predicate Evolves(g: Shared, h: Shared, i: nat) {
    && h.now == g.now && g.releasedAt <= h.releasedAt
    && (h.holder == g.holder || h.holder == Some(i) || (g.holder == Some(i) && h.holder == None))
    && (g.holder.Some? && g.holder.value != i ==> h == g.(served := h.served, lastTick := h.lastTick))
    && (h.mem == g.mem || h.mem.entry.expiresAt > g.releasedAt)
  }

  lemma CallerStepOk(c: Config, g: Shared, i: nat, pc: Pc, ch: Choice, h: Shared, q: Pc)
    requires SharedOk(c, g) && ThreadOk(c, g, i, pc) && CallerStep(c, g, pc, ch) == Some((h, q))
    requires !Holding(pc)
    ensures SharedOk(c, h) && ThreadOk(c, h, i, q) && Evolves(g, h, i)
  {
    assert g.mem == h.mem && g.grants == h.grants && g.idp == h.idp;
  }

  lemma GuardStepOk(c: Config, g: Shared, i: nat, pc: Pc, ch: Choice, h: Shared, q: Pc)
    requires SharedOk(c, g) && ThreadOk(c, g, i, pc) && GuardStep(c, g, i, pc, ch) == Some((h, q))
    ensures SharedOk(c, h) && ThreadOk(c, h, i, q) && Evolves(g, h, i)
  {
    assert h == g.(holder := h.holder);
  }

  lemma GrantKeepsOk(c: Config, grants: seq<Grant>, consumed: set<string>, now: Time, grant: Grant, spent: set<string>)
    requires GrantsOk(c, grants, consumed, now) && consumed <= spent
    requires grant.lifetime > 0 && 0 < grant.at == now && grant.sent <= now
    requires grant.token !in consumed && (grant.rotated ==> grant.token in spent)
    requires grants != [] && !grant.forced ==>
               grant.sent >= grants[|grants| - 1].at + grants[|grants| - 1].lifetime - c.skew
    ensures GrantsOk(c, grants + [grant], spent, now)
  {
  }

  lemma PostStepOk(c: Config, g: Shared, i: nat, pc: Pc, ch: Choice, h: Shared, q: Pc)
    requires SharedOk(c, g) && ThreadOk(c, g, i, pc) && PostStep(g, pc, ch) == Some((h, q))
    ensures SharedOk(c, h) && ThreadOk(c, h, i, q) && Evolves(g, h, i)
  {
    assert h == g.(idp := h.idp, grants := h.grants);
    if ch.Answer? {
      GrantKeepsOk(c, g.grants, g.idp.consumed, g.now, Newest(h), h.idp.consumed);
    }
    assert GrantsOk(c, h.grants, h.idp.consumed, h.now);
  }

  lemma CommitStepOk(c: Config, g: Shared, i: nat, pc: Pc, ch: Choice, h: Shared, q: Pc)
    requires SharedOk(c, g) && ThreadOk(c, g, i, pc) && CommitStep(c, g, pc, ch) == Some((h, q))
    requires Holding(pc)
    ensures SharedOk(c, h) && ThreadOk(c, h, i, q) && Evolves(g, h, i)
  {
  }

  /** The other goroutines' assertions survive a step that Evolves describes. */
  lemma OthersStable(c: Config, g: Shared, h: Shared, i: nat, j: nat, pc: Pc)
    requires i != j && ThreadOk(c, g, j, pc) && Evolves(g, h, i)
    ensures ThreadOk(c, h, j, pc)
  {
  }

  lemma MoveOk(c: Config, g: Shared, i: nat, pc: Pc, ch: Choice, h: Shared, q: Pc)
    requires SharedOk(c, g) && ThreadOk(c, g, i, pc) && Move(c, g, i, pc, ch) == Some((h, q))
    ensures SharedOk(c, h) && ThreadOk(c, h, i, q) && Evolves(g, h, i)
  {
    match pc
    case Idle | GetRead(_, _) | TickRead(_) | Returned(_, _) => CallerStepOk(c, g, i, pc, ch, h, q);
    case Waiting(_) | Locked(_) | Snapped(_, _, _) | Discovering(_, _, _) => GuardStepOk(c, g, i, pc, ch, h, q);
    case Posting(_, _, _, _) | Answered(_, _, _, _) => PostStepOk(c, g, i, pc, ch, h, q);
    case _ => CommitStepOk(c, g, i, pc, ch, h, q);
  }

  lemma ClockMovesShared(c: Config, g: Shared, d: nat)
    requires SharedOk(c, g)
    ensures SharedOk(c, g.(now := g.now + d))
  {
  }

  lemma ClockMovesThread(c: Config, g: Shared, i: nat, pc: Pc, d: nat)
    requires ThreadOk(c, g, i, pc)
    ensures ThreadOk(c, g.(now := g.now + d), i, pc)
  {
  }

  lemma ClockKeepsInv(c: Config, s: State, d: nat)
    requires Inv(c, s)
    ensures Inv(c, s.(g := s.g.(now := s.g.now + d)))
  {
    ClockMovesShared(c, s.g, d);
    forall i | 0 <= i < |s.pcs| ensures ThreadOk(c, s.g.(now := s.g.now + d), i, s.pcs[i]) {
      ClockMovesThread(c, s.g, i, s.pcs[i], d);
    }
  }

  lemma MoveKeepsInv(c: Config, s: State, i: nat, h: Shared, q: Pc)
    requires Inv(c, s) && i < |s.pcs|
    requires SharedOk(c, h) && ThreadOk(c, h, i, q) && Evolves(s.g, h, i)
    ensures Inv(c, State(h, s.pcs[i := q]))
  {
    var pcs := s.pcs[i := q];
    forall j | 0 <= j < |pcs| ensures ThreadOk(c, h, j, pcs[j]) {
      if j != i {
        assert ThreadOk(c, s.g, j, s.pcs[j]);
        OthersStable(c, s.g, h, i, j, s.pcs[j]);
      }
    }
  }

  lemma StepKeepsInv(c: Config, s: State, a: Action, t: State)
    requires Inv(c, s) && !a.Reload? && Next(c, s, a) == Some(t)
    ensures Inv(c, t)
  {
    match a
    case Advance(d) => ClockKeepsInv(c, s, d);
    case Go(i, ch) =>
      assert ThreadOk(c, s.g, i, s.pcs[i]);
      MoveOk(c, s.g, i, s.pcs[i], ch, t.g, t.pcs[i]);
      MoveKeepsInv(c, s, i, t.g, t.pcs[i]);
  }
}
