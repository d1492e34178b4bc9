/** The proactive tick keeps the token alive on an idle or busy service, while calls of any kind take their time. */
module RefreshLiveness {
  import opened Common
  import opened Credentials
  import opened RefreshProtocol
  import opened RefreshSafety
  import opened RefreshTheorems

  /** Ticks start at most `every` apart, and each of them is done within `delay`. `stale`: a tick may read the old
      expiry after a refresh has read the clock for the new one and before it stores the new entry. */
  datatype Pace = Pace(every: nat, delay: nat, stale: bool)

  /** The longest that a tick may start after its predecessor. */
  function Apart(p: Pace): nat {
    if p.every < p.delay then p.delay else p.every
  }

  /** The pace suits the skew; with stale reads only ticks without any pause do. */
  predicate KeepsPace(c: Config, p: Pace) {
    Apart(p) + p.delay <= if p.stale then 0 else c.skew
  }

  /** A tick that has not yet found or made the token long enough. */
  predicate TickPending(pc: Pc) {
    pc.TickRead? ||
    ((pc.Waiting? || pc.Locked? || pc.Snapped? || pc.Discovering? || pc.Posting? || pc.Answered? || pc.Stamped?)
     && pc.who.Tick?)
  }

  ghost predicate Ticking(s: State) {
    exists i | 0 <= i < |s.pcs| :: TickPending(s.pcs[i])
  }

  /** One ticker goroutine keeps the pace and its refreshes succeed; grants outlast the skew and reach us. Getters and
      forced refreshes are free: they overlap, take any time, and may fail. */
  ghost predicate Prompt(c: Config, p: Pace, s: State, a: Action) {
    match a
    case Reload(_, _) => false
    case Advance(d) => s.g.now + d <= s.g.lastTick + if Ticking(s) then p.delay else p.every
    case Go(i, ch) =>
      && !ch.Lose?
      && (ch.StartTick? ==> !Ticking(s) && (p.stale || forall j | 0 <= j < |s.pcs| :: !s.pcs[j].Stamped?))
      && (ch.Fail? ==> i < |s.pcs| && !TickPending(s.pcs[i]))
      && (ch.Answer? ==> Lifetime(ch.tokens) > c.skew && (ch.tokens.refresh == "" || !Blank(ch.tokens.refresh)))
  }

  ghost predicate PromptRun(c: Config, p: Pace, s: State, run: seq<Action>)
    decreases |run|
  {
    run != [] ==>
      && Prompt(c, p, s, run[0])
      && (Next(c, s, run[0]).Some? ==> PromptRun(c, p, Next(c, s, run[0]).value, run[1..]))
  }

  /** Beyond the last tick by more than the skew. */
  predicate Ample(c: Config, g: Shared, expiry: Time) {
    expiry > g.lastTick + c.skew
  }

  predicate LivePc(c: Config, g: Shared, pc: Pc) {
    match pc
    case TickRead(x) => x == g.mem.entry.expiresAt || Ample(c, g, g.mem.entry.expiresAt)
    case Answered(who, e, k, t) => Lifetime(t) > c.skew && (t.refresh == "" || !Blank(t.refresh))
    case Stamped(who, renewed, k) => Ample(c, g, renewed.expiresAt) && !Blank(renewed.refreshToken)
    case _ => true
  }

  predicate LiveShared(g: Shared) {
    !Blank(g.mem.entry.refreshToken) && g.lastTick <= g.now
  }

  /** While a tick is under way the token outlasts its delay; between ticks it outlasts the skew, and the next tick
      is not yet late. */
  ghost predicate Covered(c: Config, p: Pace, s: State) {
    if Ticking(s)
    then s.g.now <= s.g.lastTick + p.delay < s.g.mem.entry.expiresAt
    else s.g.now <= s.g.lastTick + Apart(p) && Ample(c, s.g, s.g.mem.entry.expiresAt)
  }

  ghost predicate LiveInv(c: Config, p: Pace, s: State) {
    && Inv(c, s) && LiveShared(s.g) && Covered(c, p, s)
    && forall i | 0 <= i < |s.pcs| :: LivePc(c, s.g, s.pcs[i])
  }

  predicate BeginsTick(g: Shared, pc: Pc, h: Shared, q: Pc) {
    pc.Idle? && h == g.(lastTick := g.now) && q == TickRead(g.mem.entry.expiresAt)
  }

  /** What a prompt step of one goroutine keeps, and what it may change. */
  predicate KeepsLive(c: Config, g: Shared, pc: Pc, h: Shared, q: Pc) {
    && h.now == g.now && LiveShared(h) && LivePc(c, h, q)
    && (h.mem == g.mem || Ample(c, h, h.mem.entry.expiresAt))
    && (BeginsTick(g, pc, h, q) ||
        (h.lastTick == g.lastTick && (TickPending(q) ==> TickPending(pc)) &&
         (TickPending(pc) ==> TickPending(q) || Ample(c, h, h.mem.entry.expiresAt))))
  }

  lemma CallerKeepsLive(c: Config, g: Shared, pc: Pc, ch: Choice, h: Shared, q: Pc)
    requires SharedOk(c, g) && PcOk(c, g, pc) && LiveShared(g) && LivePc(c, g, pc) && g.mem.entry.expiresAt > g.now
    requires CallerStep(c, g, pc, ch) == Some((h, q))
    ensures KeepsLive(c, g, pc, h, q)
  {
  }

  lemma GuardKeepsLive(c: Config, g: Shared, i: nat, pc: Pc, ch: Choice, h: Shared, q: Pc)
    requires SharedOk(c, g) && PcOk(c, g, pc) && LiveShared(g) && LivePc(c, g, pc)
    requires GuardStep(c, g, i, pc, ch) == Some((h, q)) && (ch.Fail? ==> !TickPending(pc))
    ensures KeepsLive(c, g, pc, h, q)
  {
  }

  lemma PostKeepsLive(c: Config, g: Shared, pc: Pc, ch: Choice, h: Shared, q: Pc)
    requires SharedOk(c, g) && PcOk(c, g, pc) && LiveShared(g) && LivePc(c, g, pc)
    requires PostStep(g, pc, ch) == Some((h, q)) && !ch.Lose? && (ch.Fail? ==> !TickPending(pc))
    requires ch.Answer? ==> Lifetime(ch.tokens) > c.skew && (ch.tokens.refresh == "" || !Blank(ch.tokens.refresh))
    ensures KeepsLive(c, g, pc, h, q)
  {
  }

  lemma CommitKeepsLive(c: Config, g: Shared, pc: Pc, ch: Choice, h: Shared, q: Pc)
    requires SharedOk(c, g) && PcOk(c, g, pc) && LiveShared(g) && LivePc(c, g, pc)
    requires CommitStep(c, g, pc, ch) == Some((h, q))
    ensures KeepsLive(c, g, pc, h, q)
  {
  }

  lemma MoveKeepsLive(c: Config, p: Pace, s: State, i: nat, ch: Choice, h: Shared, q: Pc)
    requires i < |s.pcs| && SharedOk(c, s.g) && PcOk(c, s.g, s.pcs[i])
    requires LiveShared(s.g) && LivePc(c, s.g, s.pcs[i]) && s.g.mem.entry.expiresAt > s.g.now
    requires Prompt(c, p, s, Go(i, ch)) && Move(c, s.g, i, s.pcs[i], ch) == Some((h, q))
    ensures KeepsLive(c, s.g, s.pcs[i], h, q)
  {
    var g, pc := s.g, s.pcs[i];
    match pc
    case Idle | GetRead(_, _) | TickRead(_) | Returned(_, _) => CallerKeepsLive(c, g, pc, ch, h, q);
    case Waiting(_) | Locked(_) | Snapped(_, _, _) | Discovering(_, _, _) => GuardKeepsLive(c, g, i, pc, ch, h, q);
    case Posting(_, _, _, _) | Answered(_, _, _, _) => PostKeepsLive(c, g, pc, ch, h, q);
    case _ => CommitKeepsLive(c, g, pc, ch, h, q);
  }

  lemma OnlyStartReads(c: Config, g: Shared, i: nat, pc: Pc, ch: Choice, h: Shared, q: Pc)
    requires Move(c, g, i, pc, ch) == Some((h, q)) && q.TickRead?
    ensures ch.StartTick?
  {
  }

  lemma GoKeepsCovered(c: Config, p: Pace, s: State, i: nat, h: Shared, q: Pc)
    requires i < |s.pcs| && c.skew > 0 && KeepsPace(c, p) && LiveShared(s.g) && Covered(c, p, s)
    requires KeepsLive(c, s.g, s.pcs[i], h, q)
    requires q.TickRead? ==> !Ticking(s)
    ensures Covered(c, p, State(h, s.pcs[i := q]))
  {
    var t := State(h, s.pcs[i := q]);
    if TickPending(q) {
      assert TickPending(t.pcs[i]);
    }
    if j :| 0 <= j < |s.pcs| && j != i && TickPending(s.pcs[j]) {
      assert TickPending(t.pcs[j]);
    } else if !TickPending(q) {
      assert !Ticking(t);
    }
  }

  lemma StepKeepsLive(c: Config, p: Pace, s: State, a: Action, t: State)
    requires LiveInv(c, p, s) && KeepsPace(c, p) && Prompt(c, p, s, a) && Next(c, s, a) == Some(t)
    ensures LiveInv(c, p, t)
  {
    StepKeepsInv(c, s, a, t);
    if a.Go? {
      var i, g, h := a.i, s.g, t.g;
      assert ThreadOk(c, g, i, s.pcs[i]);
      MoveKeepsLive(c, p, s, i, a.choice, h, t.pcs[i]);
      if t.pcs[i].TickRead? { OnlyStartReads(c, g, i, s.pcs[i], a.choice, h, t.pcs[i]); }
      GoKeepsCovered(c, p, s, i, h, t.pcs[i]);
      forall j | 0 <= j < |t.pcs| ensures LivePc(c, h, t.pcs[j]) {
        if j != i { assert TickPending(s.pcs[j]) ==> Ticking(s); }
      }
    } else {
      assert Ticking(t) <==> Ticking(s);
    }
  }

  lemma {:induction false} RunKeepsLive(c: Config, p: Pace, s: State, run: seq<Action>, t: State)
    requires LiveInv(c, p, s) && KeepsPace(c, p) && PromptRun(c, p, s, run) && Reaches(c, s, run, t)
    ensures LiveInv(c, p, t)
    decreases |run|
  {
    if run != [] {
      var u := Next(c, s, run[0]).value;
      StepKeepsLive(c, p, s, run[0], u);
      RunKeepsLive(c, p, u, run[1..], t);
    }
  }

  /** A running manager between two refreshes, whatever getters and forced refreshes are waiting or have returned,
      when its ticker starts: goroutine i is idle, and the token outlasts the delay of a tick. */
  ghost predicate Calm(c: Config, p: Pace, s: State, i: nat) {
    && Inv(c, s) && !Ticking(s) && s.g.holder == None && i < |s.pcs| && s.pcs[i] == Idle
    && s.g.mem.entry.expiresAt > s.g.now + p.delay && !Blank(s.g.mem.entry.refreshToken)
  }

  /** From a first tick on a token of known expiry: at every later instant the token is live, and between ticks it
      lasts more than the skew beyond the last one. */
  lemma TokenNeverDiesWhileTicking(c: Config, p: Pace, s: State, i: nat, run: seq<Action>, t: State)
    requires Calm(c, p, s, i) && KeepsPace(c, p)
    requires PromptRun(c, p, s, [Go(i, StartTick)] + run) && Reaches(c, s, [Go(i, StartTick)] + run, t)
    ensures t.g.now < t.g.mem.entry.expiresAt
    ensures !Ticking(t) ==> t.g.mem.entry.expiresAt > t.g.lastTick + c.skew
  {
    var all := [Go(i, StartTick)] + run;
    assert all[0] == Go(i, StartTick) && all[1..] == run;
    var u := Next(c, s, all[0]).value;
    StepKeepsInv(c, s, all[0], u);
    assert TickPending(u.pcs[i]);
    forall j | 0 <= j < |u.pcs| ensures LivePc(c, u.g, u.pcs[j]) {
      assert ThreadOk(c, s.g, j, s.pcs[j]);
      assert j != i ==> !TickPending(s.pcs[j]);
    }
    RunKeepsLive(c, p, u, run, t);
  }
}
