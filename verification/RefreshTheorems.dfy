/** Theorems about whole runs of the refresh protocol. */
module RefreshTheorems {
  import opened Common
  import opened Credentials
  import opened RefreshProtocol
  import opened RefreshSafety

  ghost predicate NoReload(run: seq<Action>) {
    forall a | a in run :: !a.Reload?
  }

  ghost predicate NoForcing(run: seq<Action>) {
    forall a | a in run :: !(a.Go? && a.choice.StartForce?)
  }

  /** Some granted answer never reached the manager. */
  ghost predicate LosesAnswer(run: seq<Action>) {
    exists a | a in run :: a.Go? && a.choice.Lose?
  }

  lemma {:induction false} Append(c: Config, s: State, run: seq<Action>, u: State, a: Action, t: State)
    requires Reaches(c, s, run, u) && Next(c, u, a) == Some(t)
    ensures Reaches(c, s, run + [a], t)
    decreases |run|
  {
    if run == [] {
      assert (run + [a])[1..] == [];
    } else {
      assert (run + [a])[1..] == run[1..] + [a];
      Append(c, Next(c, s, run[0]).value, run[1..], u, a, t);
    }
  }

  lemma InitKeepsInv(c: Config, s: State)
    requires Init(c, s)
    ensures Inv(c, s) && Exclusive(s) && Ordered(s)
  {
  }

  lemma {:induction false} RunKeepsInv(c: Config, s: State, run: seq<Action>, t: State)
    requires Inv(c, s) && NoReload(run) && Reaches(c, s, run, t)
    ensures Inv(c, t)
    decreases |run|
  {
    if run != [] {
      var u := Next(c, s, run[0]).value;
      assert run[0] in run;
      StepKeepsInv(c, s, run[0], u);
      RunKeepsInv(c, u, run[1..], t);
    }
  }

  lemma {:induction false} LostIffLosesAnswer(c: Config, s: State, run: seq<Action>, t: State)
    requires Reaches(c, s, run, t)
    ensures t.g.idp.lost <==> s.g.idp.lost || LosesAnswer(run)
    decreases |run|
  {
    if run != [] {
      var u := Next(c, s, run[0]).value;
      assert u.g.idp.lost <==> s.g.idp.lost || (run[0].Go? && run[0].choice.Lose?);
      LostIffLosesAnswer(c, u, run[1..], t);
      assert run == [run[0]] + run[1..];
    }
  }

  /** refreshMu: one token request at a time, and no refresh token is spent twice. */
  lemma SingleUseOfRefreshTokens(c: Config, s: State, run: seq<Action>, t: State)
    requires Init(c, s) && NoReload(run) && Reaches(c, s, run, t)
    // at most one POST is in flight
    ensures forall i, j | 0 <= i < |t.pcs| && 0 <= j < |t.pcs| && t.pcs[i].Posting? && t.pcs[j].Posting? :: i == j
    // while no answer was lost, the token on the wire is current and unspent: it is never rejected as reused
    ensures !LosesAnswer(run) ==> forall i | 0 <= i < |t.pcs| && t.pcs[i].Posting? ::
              t.pcs[i].e.refreshToken == t.g.idp.current && t.pcs[i].e.refreshToken !in t.g.idp.consumed
    // grants that rotated the token spent pairwise distinct tokens
    ensures forall i, j | 0 <= i < j < |t.g.grants| && t.g.grants[i].rotated :: t.g.grants[i].token != t.g.grants[j].token
    // with refreshMu free, the stored token is the provider's current one exactly when no answer was lost
    ensures t.g.holder == None ==> (t.g.mem.entry.refreshToken == t.g.idp.current <==> !LosesAnswer(run))
  {
    InitKeepsInv(c, s);
    RunKeepsInv(c, s, run, t);
    LostIffLosesAnswer(c, s, run, t);
    forall i | 0 <= i < |t.pcs| && t.pcs[i].Posting?
      ensures t.g.holder == Some(i) && InSync(t.g, t.pcs[i].e.refreshToken)
    {
      assert ThreadOk(c, t.g, i, t.pcs[i]);
    }
  }

  // ---- mutual exclusion, reloads included ----

  /** Exactly the owner of refreshMu is inside the refresh. */
  ghost predicate Exclusive(s: State) {
    && (s.g.holder.Some? ==> s.g.holder.value < |s.pcs|)
    && forall i | 0 <= i < |s.pcs| :: Holding(s.pcs[i]) <==> s.g.holder == Some(i)
  }

  lemma MoveKeepsExclusive(c: Config, g: Shared, i: nat, pc: Pc, ch: Choice, h: Shared, q: Pc)
    requires (Holding(pc) <==> g.holder == Some(i)) && Move(c, g, i, pc, ch) == Some((h, q))
    ensures Holding(q) <==> h.holder == Some(i)
    ensures h.holder != g.holder ==> h.holder in {None, Some(i)} && g.holder in {None, Some(i)}
  {
  }

  lemma StepKeepsExclusive(c: Config, s: State, a: Action, t: State)
    requires Exclusive(s) && Next(c, s, a) == Some(t)
    ensures Exclusive(t)
  {
    if a.Go? {
      MoveKeepsExclusive(c, s.g, a.i, s.pcs[a.i], a.choice, t.g, t.pcs[a.i]);
    }
  }

  /** In every run, with any reloads in it, at most one goroutine is between lock and unlock of refreshMu:
      one refresh at a time, hence one POST at a time and one writer of DB and file. */
  lemma {:induction false} OneRefreshAtATime(c: Config, s: State, run: seq<Action>, t: State)
    requires Exclusive(s) && Reaches(c, s, run, t)
    ensures Exclusive(t)
    ensures forall i, j | 0 <= i < |t.pcs| && 0 <= j < |t.pcs| && Holding(t.pcs[i]) && Holding(t.pcs[j]) :: i == j
    decreases |run|
  {
    if run != [] {
      StepKeepsExclusive(c, s, run[0], Next(c, s, run[0]).value);
      OneRefreshAtATime(c, Next(c, s, run[0]).value, run[1..], t);
    }
  }

  /** Steps left under refreshMu. */
  function StepsToUnlock(pc: Pc): nat {
    match pc
    case Locked(_) => 9
    case Snapped(_, _, _) => 8
    case Discovering(_, _, _) => 7
    case Posting(_, _, _, _) => 6
    case Answered(_, _, _, _) => 5
    case Stamped(_, _, _) => 4
    case Committed(_, _) => 3
    case Persisted(_, _) => 2
    case Unlocking(_, _) => 1
    case _ => 0
  }

  lemma HolderCanMove(c: Config, g: Shared, i: nat, pc: Pc)
    requires Holding(pc) && g.holder == Some(i)
    ensures Move(c, g, i, pc, Proceed).Some? || Move(c, g, i, pc, Fail).Some?
  {
  }

  lemma MoveNearsUnlock(c: Config, g: Shared, i: nat, pc: Pc, ch: Choice, h: Shared, q: Pc)
    requires Holding(pc) && Move(c, g, i, pc, ch) == Some((h, q))
    ensures StepsToUnlock(q) < StepsToUnlock(pc) && (StepsToUnlock(q) == 0 ==> h.holder == None)
  {
  }

  /** Goroutine i owns refreshMu in every state of the run. */
  ghost predicate HeldThroughout(c: Config, s: State, run: seq<Action>, i: nat)
    decreases |run|
  {
    && s.g.holder == Some(i)
    && (run != [] && Next(c, s, run[0]).Some? ==> HeldThroughout(c, Next(c, s, run[0]).value, run[1..], i))
  }

  function OwnSteps(run: seq<Action>, i: nat): nat {
    if run == [] then 0 else (if run[0].Go? && run[0].i == i then 1 else 0) + OwnSteps(run[1..], i)
  }

  /** While one goroutine holds refreshMu, whatever the others and the reloads do in between, it takes at most eight
      steps, and it can always take one more: the ninth at the latest releases the lock. */
  lemma {:induction false} RefreshMuIsReleased(c: Config, s: State, run: seq<Action>, t: State, i: nat)
    requires Exclusive(s) && HeldThroughout(c, s, run, i) && Reaches(c, s, run, t)
    ensures i < |s.pcs| && i < |t.pcs| && t.g.holder == Some(i) && Holding(t.pcs[i])
    ensures OwnSteps(run, i) + StepsToUnlock(t.pcs[i]) <= StepsToUnlock(s.pcs[i]) <= 9
    ensures OwnSteps(run, i) <= 8 && (Next(c, t, Go(i, Proceed)).Some? || Next(c, t, Go(i, Fail)).Some?)
    decreases |run|
  {
    if run == [] {
      HolderCanMove(c, s.g, i, s.pcs[i]);
    } else {
      var a := run[0];
      var u := Next(c, s, a).value;
      StepKeepsExclusive(c, s, a, u);
      RefreshMuIsReleased(c, u, run[1..], t, i);
      if a.Go? && a.i == i {
        MoveNearsUnlock(c, s.g, i, s.pcs[i], a.choice, u.g, u.pcs[i]);
      }
    }
  }

  /** Every token GetAccessToken returned is live, also the old one after a failed refresh; without asking for a
      refresh it returns only tokens that have the skew left. */
  lemma ServedTokensAreLive(c: Config, s: State, run: seq<Action>, t: State)
    requires Init(c, s) && NoReload(run) && Reaches(c, s, run, t)
    ensures forall r | r in t.g.served ::
              r.start <= r.finish && (r.entry.expiresAt == 0 || r.entry.expiresAt > r.start) &&
              (!r.asked ==> r.entry.expiresAt == 0 || r.entry.expiresAt >= r.finish + c.skew)
  {
    InitKeepsInv(c, s);
    RunKeepsInv(c, s, run, t);
  }

  /** However many callers race, an unforced request is sent no earlier than `skew` before the expiry
      that the previous grant promised, counted from the instant the provider granted it. */
  lemma UnforcedGrantsAreSpaced(c: Config, s: State, run: seq<Action>, t: State)
    requires Init(c, s) && NoReload(run) && Reaches(c, s, run, t)
    ensures forall j | 0 < j < |t.g.grants| && !t.g.grants[j].forced ::
              t.g.grants[j].sent >= t.g.grants[j - 1].at + t.g.grants[j - 1].lifetime - c.skew
  {
    InitKeepsInv(c, s);
    RunKeepsInv(c, s, run, t);
  }

  // ---- runs without forced refreshes ----

  ghost predicate Unforced(s: State) {
    && (forall i | 0 <= i < |s.pcs| :: !ForForce(s.pcs[i]))
    && (forall i | 0 <= i < |s.g.grants| :: !s.g.grants[i].forced)
  }

  predicate ForForce(pc: Pc) {
    !pc.Idle? && !pc.GetRead? && !pc.TickRead? && pc.who.Force?
  }

  lemma StepKeepsUnforced(c: Config, s: State, a: Action, t: State)
    requires Unforced(s) && !(a.Go? && a.choice.StartForce?) && Next(c, s, a) == Some(t)
    ensures Unforced(t)
  {
  }

  lemma {:induction false} RunKeepsUnforced(c: Config, s: State, run: seq<Action>, t: State)
    requires Unforced(s) && NoForcing(run) && Reaches(c, s, run, t)
    ensures Unforced(t)
    decreases |run|
  {
    if run != [] {
      var u := Next(c, s, run[0]).value;
      assert run[0] in run;
      StepKeepsUnforced(c, s, run[0], u);
      RunKeepsUnforced(c, u, run[1..], t);
    }
  }

  lemma {:induction false} Spread(grants: seq<Grant>, i: nat, n: nat, gap: int)
    requires i + n < |grants| && gap >= 0
    requires forall j | 0 < j < |grants| :: grants[j].at >= grants[j - 1].at + gap
    ensures grants[i + n].at - grants[i].at >= n * gap
  {
    if n > 0 {
      Spread(grants, i, n - 1, gap);
      assert n * gap == (n - 1) * gap + gap;
    }
  }

  lemma GapBetween(c: Config, g: Shared, life: int, j: nat)
    requires GrantsOk(c, g.grants, g.idp.consumed, g.now) && 0 < j < |g.grants|
    requires !g.grants[j].forced && g.grants[j - 1].lifetime >= life
    ensures g.grants[j].at >= g.grants[j - 1].at + (life - c.skew)
  {
  }

  /** With every lifetime at least `life` > skew, n consecutive grants fit in a window of length w only
      if (n - 1) * (life - skew) <= w: the window holds at most 1 + w / (life - skew) of them. */
  lemma GrantsPerWindow(c: Config, s: State, run: seq<Action>, t: State, life: int, i: nat, n: nat, from: Time, w: int)
    requires Init(c, s) && NoReload(run) && NoForcing(run) && Reaches(c, s, run, t)
    requires life > c.skew && forall j | 0 <= j < |t.g.grants| :: t.g.grants[j].lifetime >= life
    requires 0 < n && i + n <= |t.g.grants|
    requires from <= t.g.grants[i].at && t.g.grants[i + n - 1].at <= from + w
    ensures (n - 1) * (life - c.skew) <= w
  {
    InitKeepsInv(c, s);
    RunKeepsInv(c, s, run, t);
    RunKeepsUnforced(c, s, run, t);
    var grants := t.g.grants;
    forall j | 0 < j < |grants| ensures grants[j].at >= grants[j - 1].at + (life - c.skew) {
      GapBetween(c, t.g, life, j);
    }
    Spread(grants, i, n - 1, life - c.skew);
  }

  // ---- durable copies ----

  /** From g to h no snapshot was altered and no replica went back. */
  ghost predicate Forward(g: Shared, h: Shared) {
    && g.commits <= h.commits
    && NotBack(g.db, h.db) && NotBack(g.file, h.file)
  }

  predicate NotBack(r: Replica, q: Replica) {
    r.index <= q.index && (r.index == q.index ==> r.content == q.content)
  }

  /** The replicas hold snapshots, and a refresh that is writing carries the newest one. */
  ghost predicate Ordered(s: State) {
    && Exclusive(s) && s.g.commits != []
    && ReplicaOk(s.g.commits, s.g.db) && ReplicaOk(s.g.commits, s.g.file)
    && forall i | 0 <= i < |s.pcs| && (s.pcs[i].Committed? || s.pcs[i].Persisted?) ::
         s.pcs[i].copy == s.g.commits[|s.g.commits| - 1]
  }

  lemma CommitGoesForward(c: Config, g: Shared, pc: Pc, ch: Choice, h: Shared, q: Pc)
    requires g.commits != [] && ReplicaOk(g.commits, g.db) && ReplicaOk(g.commits, g.file)
    requires pc.Committed? || pc.Persisted? ==> pc.copy == g.commits[|g.commits| - 1]
    requires CommitStep(c, g, pc, ch) == Some((h, q))
    ensures Forward(g, h) && ReplicaOk(h.commits, h.db) && ReplicaOk(h.commits, h.file)
    ensures q.Committed? || q.Persisted? ==> q.copy == h.commits[|h.commits| - 1]
  {
  }

  lemma StepGoesForward(c: Config, s: State, a: Action, t: State)
    requires Ordered(s) && Next(c, s, a) == Some(t)
    ensures Ordered(t) && Forward(s.g, t.g)
  {
    StepKeepsExclusive(c, s, a, t);
    if a.Go? {
      var pc, q := s.pcs[a.i], t.pcs[a.i];
      OnlyCommitWrites(c, s.g, a.i, pc, a.choice, t.g, q);
      if pc.Stamped? || pc.Committed? || pc.Persisted? {
        CommitGoesForward(c, s.g, pc, a.choice, t.g, q);
      } else {
        assert !q.Committed? && !q.Persisted?;
      }
    }
  }

  /** DB and file see the refresh snapshots in refresh order, with reloads at any time: what they hold is a snapshot
      that a refresh took, and never an earlier one than before. */
  lemma {:induction false} DurableOrder(c: Config, s: State, run: seq<Action>, t: State)
    requires Ordered(s) && Reaches(c, s, run, t)
    ensures Ordered(t) && Forward(s.g, t.g)
    ensures 0 <= t.g.db.index ==> t.g.db.index < |t.g.commits| && t.g.db.content == Some(t.g.commits[t.g.db.index])
    ensures 0 <= t.g.file.index ==> t.g.file.index < |t.g.commits| && t.g.file.content == Some(t.g.commits[t.g.file.index])
    decreases |run|
  {
    if run != [] {
      var u := Next(c, s, run[0]).value;
      StepGoesForward(c, s, run[0], u);
      DurableOrder(c, u, run[1..], t);
    }
  }

  /** Without reloads, with refreshMu free a copy whose last write succeeded equals memory. */
  lemma CopiesAgreeAtRest(c: Config, s: State, run: seq<Action>, t: State)
    requires Init(c, s) && NoReload(run) && Reaches(c, s, run, t) && t.g.holder == None
    ensures t.g.db.synced ==> t.g.db.content == Some(t.g.mem.fileData)
    ensures t.g.file.synced && c.fileWritable ==> t.g.file.content == Some(t.g.mem.fileData)
  {
    InitKeepsInv(c, s);
    RunKeepsInv(c, s, run, t);
  }
}
