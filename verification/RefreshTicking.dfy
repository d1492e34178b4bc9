/** How often the proactive tick must come: the bound of RefreshLiveness is exact. */
module RefreshTicking {
  import opened Common
  import opened Credentials
  import opened RefreshProtocol
  import opened RefreshSafety
  import opened RefreshTheorems
  import opened RefreshLiveness

  lemma {:induction false} AppendPrompt(c: Config, p: Pace, s: State, run: seq<Action>, u: State, a: Action)
    requires PromptRun(c, p, s, run) && Reaches(c, s, run, u) && Prompt(c, p, u, a)
    ensures PromptRun(c, p, s, run + [a])
    decreases |run|
  {
    if run == [] {
      assert (run + [a])[1..] == [];
    } else {
      assert (run + [a])[1..] == run[1..] + [a];
      AppendPrompt(c, p, Next(c, s, run[0]).value, run[1..], u, a);
    }
  }

  /** Ticking at this pace keeps any live token alive, in every prompt run; `atStart`: if it has just been loaded. */
  ghost predicate TickingKeepsAlive(c: Config, p: Pace, atStart: bool) {
    forall s: State, i: nat, run: seq<Action>, t: State ::
      Calm(c, p, s, i) && (atStart ==> Init(c, s)) &&
      PromptRun(c, p, s, [Go(i, StartTick)] + run) && Reaches(c, s, [Go(i, StartTick)] + run, t) ==>
        t.g.now < t.g.mem.entry.expiresAt
  }

  /** A manager at instant 1 with one entry that expires at `expiry`. */
  function OneEntry(c: Config, expiry: Time, pcs: seq<Pc>): State {
    var e := Entry("token", "", "refresh", expiry, "", "", "", "");
    var fd: FileData := map[c.account := e];
    var copy := Replica(Some(fd), 0, true);
    State(Shared(1, Memory(e, c.account, fd), None, Provider("refresh", {}, false), copy, copy,
                 [fd], [], [], 0, 1), pcs)
  }

  lemma OneEntryIsInit(c: Config, expiry: Time, pcs: seq<Pc>)
    requires c.skew > 0 && forall i | 0 <= i < |pcs| :: pcs[i] == Idle
    ensures Init(c, OneEntry(c, expiry, pcs)) && !Blank(OneEntry(c, expiry, pcs).g.mem.entry.refreshToken)
  {
    assert !IsSpace("token"[0]) && !IsSpace("refresh"[0]);
    assert AllWithin(OneEntry(c, expiry, pcs).g.mem.fileData, expiry);
  }

  lemma OneEntryIsCalm(c: Config, p: Pace, expiry: Time, pcs: seq<Pc>)
    requires c.skew > 0 && expiry > 1 + p.delay && pcs != [] && forall i | 0 <= i < |pcs| :: pcs[i] == Idle
    ensures Init(c, OneEntry(c, expiry, pcs)) && Calm(c, p, OneEntry(c, expiry, pcs), 0)
  {
    OneEntryIsInit(c, expiry, pcs);
    InitKeepsInv(c, OneEntry(c, expiry, pcs));
  }

  /** A prompt run that begins with a tick leads from s to t. */
  ghost predicate TickTo(c: Config, p: Pace, s: State, t: State) {
    exists run :: PromptRun(c, p, s, [Go(0, StartTick)] + run) && Reaches(c, s, [Go(0, StartTick)] + run, t)
  }

  lemma TickOn(c: Config, p: Pace, s: State, u: State, a: Action, t: State)
    requires TickTo(c, p, s, u) && Prompt(c, p, u, a) && Next(c, u, a) == Some(t)
    ensures TickTo(c, p, s, t)
  {
    var run :| PromptRun(c, p, s, [Go(0, StartTick)] + run) && Reaches(c, s, [Go(0, StartTick)] + run, u);
    Append(c, s, [Go(0, StartTick)] + run, u, a, t);
    AppendPrompt(c, p, s, [Go(0, StartTick)] + run, u, a);
    assert [Go(0, StartTick)] + (run + [a]) == [Go(0, StartTick)] + run + [a];
  }

  lemma FirstTick(c: Config, p: Pace, s: State, t: State)
    requires !Ticking(s) && forall j | 0 <= j < |s.pcs| :: s.pcs[j] == Idle
    requires Next(c, s, Go(0, StartTick)) == Some(t)
    ensures TickTo(c, p, s, t)
  {
    var run := [Go(0, StartTick)] + [];
    assert run[1..] == [] && PromptRun(c, p, t, run[1..]) && Reaches(c, t, run[1..], t);
    assert PromptRun(c, p, s, run) && Reaches(c, s, run, t);
  }

  /** The single goroutine proceeds. */
  lemma Onward(c: Config, p: Pace, s: State, g: Shared, pc: Pc, h: Shared, q: Pc)
    requires TickTo(c, p, s, State(g, [pc])) && Move(c, g, 0, pc, Proceed) == Some((h, q))
    ensures TickTo(c, p, s, State(h, [q]))
  {
    assert [pc][0 := q] == [q];
    TickOn(c, p, s, State(g, [pc]), Go(0, Proceed), State(h, [q]));
  }

  lemma TickTakesLock(c: Config, p: Pace, s: State, expiry: Time)
    requires 0 < c.skew && 1 < expiry <= 1 + 2 * c.skew && s == OneEntry(c, expiry, [Idle])
    ensures TickTo(c, p, s, State(s.g.(holder := Some(0)), [Snapped(Tick, s.g.mem.entry, s.g.mem.mapKey)]))
  {
    var held := s.g.(holder := Some(0));
    assert s.pcs[0 := TickRead(expiry)] == [TickRead(expiry)];
    FirstTick(c, p, s, State(s.g, [TickRead(expiry)]));
    Onward(c, p, s, s.g, TickRead(expiry), s.g, Waiting(Tick));
    Onward(c, p, s, s.g, Waiting(Tick), held, Locked(Tick));
    Onward(c, p, s, held, Locked(Tick), held, Snapped(Tick, s.g.mem.entry, s.g.mem.mapKey));
  }

  /** A token with more than one skew left passes the tick untouched: between once and twice the skew, the tick's
      own test at twice the skew is overruled by the test under refreshMu. */
  lemma TickLeavesTokenAlone(c: Config, p: Pace, s: State, expiry: Time)
    requires 0 < c.skew < expiry - 1 && s == OneEntry(c, expiry, [Idle])
    ensures TickTo(c, p, s, if 1 + 2 * c.skew < expiry then s else s.(g := s.g.(releasedAt := 1)))
  {
    if 1 + 2 * c.skew < expiry {
      assert s.pcs[0 := TickRead(expiry)] == [TickRead(expiry)];
      FirstTick(c, p, s, State(s.g, [TickRead(expiry)]));
      Onward(c, p, s, s.g, TickRead(expiry), s.g, Idle);
    } else {
      var held, done := s.g.(holder := Some(0)), s.g.(releasedAt := 1);
      TickTakesLock(c, p, s, expiry);
      Onward(c, p, s, held, Snapped(Tick, s.g.mem.entry, s.g.mem.mapKey), held, Unlocking(Tick, true));
      Onward(c, p, s, held, Unlocking(Tick, true), done, Returned(Tick, true));
      Onward(c, p, s, done, Returned(Tick, true), done, Idle);
    }
  }

  ghost predicate Dead(t: State) {
    t.g.now >= t.g.mem.entry.expiresAt
  }

  lemma DeathRefutes(c: Config, p: Pace, s: State, t: State)
    requires Init(c, s) && Calm(c, p, s, 0) && TickTo(c, p, s, t) && Dead(t)
    ensures !TickingKeepsAlive(c, p, true)
  {
  }

  /** The next tick comes, or ends, too late for a token that the first one left alone. */
  lemma NextTickIsLate(c: Config, p: Pace, s: State, g: Shared)
    requires TickTo(c, p, s, State(g, [Idle])) && g.now == g.lastTick
    requires g.now < g.mem.entry.expiresAt <= g.now + p.every + p.delay
    ensures exists t :: TickTo(c, p, s, t) && Dead(t)
  {
    var u, left := State(g, [Idle]), g.mem.entry.expiresAt - g.now;
    if left <= p.every {
      TickOn(c, p, s, u, Advance(left), u.(g := g.(now := g.now + left)));
    } else {
      var h := g.(now := g.now + p.every);
      var w := State(h.(lastTick := h.now), [TickRead(h.mem.entry.expiresAt)]);
      TickOn(c, p, s, u, Advance(p.every), State(h, [Idle]));
      assert [Idle][0 := w.pcs[0]] == w.pcs;
      TickOn(c, p, s, State(h, [Idle]), Go(0, StartTick), w);
      assert TickPending(w.pcs[0]);
      TickOn(c, p, s, w, Advance(left - p.every), w.(g := w.g.(now := g.mem.entry.expiresAt)));
    }
  }

  lemma LateTicksLetTokenDie(c: Config, p: Pace)
    requires 0 < c.skew < p.every + p.delay && p.delay <= p.every
    ensures !TickingKeepsAlive(c, p, true)
  {
    var expiry := 2 + if c.skew < p.delay then p.delay else c.skew;
    var s := OneEntry(c, expiry, [Idle]);
    OneEntryIsCalm(c, p, expiry, [Idle]);
    TickLeavesTokenAlone(c, p, s, expiry);
    var u := if 1 + 2 * c.skew < expiry then s else s.(g := s.g.(releasedAt := 1));
    NextTickIsLate(c, p, s, u.g);
    var t :| TickTo(c, p, s, t) && Dead(t);
    DeathRefutes(c, p, s, t);
  }

  // ---- a tick between reading the clock for a new expiry and storing the entry ----

  /** The outside does what Prompt asks of it. */
  predicate Kind(c: Config, ch: Choice) {
    && !ch.StartTick? && !ch.Fail? && !ch.Lose?
    && (ch.Answer? ==> Lifetime(ch.tokens) > c.skew && (ch.tokens.refresh == "" || !Blank(ch.tokens.refresh)))
  }

  /** A step of the ticker, or of the goroutine beside it. */
  lemma Ticker(c: Config, p: Pace, s: State, g: Shared, a: Pc, b: Pc, ch: Choice, h: Shared, q: Pc)
    requires TickTo(c, p, s, State(g, [a, b])) && Kind(c, ch) && Move(c, g, 0, a, ch) == Some((h, q))
    ensures TickTo(c, p, s, State(h, [q, b]))
  {
    assert [a, b][0 := q] == [q, b];
    TickOn(c, p, s, State(g, [a, b]), Go(0, ch), State(h, [q, b]));
  }

  lemma Beside(c: Config, p: Pace, s: State, g: Shared, a: Pc, b: Pc, ch: Choice, h: Shared, q: Pc)
    requires TickTo(c, p, s, State(g, [a, b])) && Kind(c, ch) && Move(c, g, 1, b, ch) == Some((h, q))
    ensures TickTo(c, p, s, State(h, [a, q]))
  {
    assert [a, b][1 := q] == [a, q];
    TickOn(c, p, s, State(g, [a, b]), Go(1, ch), State(h, [a, q]));
  }

  function StampedIn(s: State, t: Tokens): Pc {
    Stamped(Force, Granted(s.g.mem.entry, t, s.g.now), s.g.mem.mapKey)
  }

  /** A long-lived token is left alone by a tick. */
  lemma LongTokenIsLeftAlone(c: Config, p: Pace, s: State, expiry: Time)
    requires 0 < c.skew && s == OneEntry(c, expiry, [Idle, Idle]) && expiry > 1 + 2 * c.skew
    ensures TickTo(c, p, s, s)
  {
    assert s.pcs[0 := TickRead(expiry)] == [TickRead(expiry), Idle];
    FirstTick(c, p, s, State(s.g, [TickRead(expiry), Idle]));
    Ticker(c, p, s, s.g, TickRead(expiry), Idle, Proceed, s.g, Idle);
  }

  /** Then a forced refresh starts. */
  lemma ForcedIsPosting(c: Config, p: Pace, s: State, expiry: Time)
    requires 0 < c.skew && s == OneEntry(c, expiry, [Idle, Idle]) && expiry > 1 + 2 * c.skew
    ensures TickTo(c, p, s, State(s.g.(holder := Some(1)), [Idle, Posting(Force, s.g.mem.entry, s.g.mem.mapKey, 1)]))
  {
    LongTokenIsLeftAlone(c, p, s, expiry);
    var g, e, k := s.g, s.g.mem.entry, s.g.mem.mapKey;
    var held := g.(holder := Some(1));
    assert !IsSpace("refresh"[0]);
    Beside(c, p, s, g, Idle, Idle, StartForce, g, Waiting(Force));
    Beside(c, p, s, g, Idle, Waiting(Force), Proceed, held, Locked(Force));
    Beside(c, p, s, held, Idle, Locked(Force), Proceed, held, Snapped(Force, e, k));
    Beside(c, p, s, held, Idle, Snapped(Force, e, k), Proceed, held, Discovering(Force, e, k));
    Beside(c, p, s, held, Idle, Discovering(Force, e, k), Proceed, held, Posting(Force, e, k, 1));
  }

  /** It gets a short-lived token, stamped but not stored. */
  lemma ForcedIsStamped(c: Config, p: Pace, s: State, t: Tokens, expiry: Time)
    requires 0 < c.skew < Lifetime(t) && t.access != "" && t.refresh == ""
    requires s == OneEntry(c, expiry, [Idle, Idle]) && expiry > 1 + 2 * c.skew
    ensures exists g: Shared :: TickTo(c, p, s, State(g, [Idle, StampedIn(s, t)])) &&
                                g.mem == s.g.mem && g.now == g.lastTick == 1
  {
    ForcedIsPosting(c, p, s, expiry);
    var held, posting := s.g.(holder := Some(1)), Posting(Force, s.g.mem.entry, s.g.mem.mapKey, 1);
    var (h, q) := Move(c, held, 1, posting, Answer(t)).value;
    Beside(c, p, s, held, Idle, posting, Answer(t), h, q);
    Beside(c, p, s, h, Idle, q, Proceed, h, StampedIn(s, t));
  }

  function Ticked(g: Shared, d: nat): Shared {
    g.(now := g.now + d, lastTick := g.now + d)
  }

  /** The next tick reads the old expiry and skips. */
  lemma StaleTickSkips(c: Config, p: Pace, s: State, g: Shared, stamped: Pc)
    requires TickTo(c, p, s, State(g, [Idle, stamped])) && stamped.Stamped? && stamped.who.Force? && p.stale
    requires g.lastTick == g.now && g.now + p.every + 2 * c.skew < g.mem.entry.expiresAt != 0
    ensures TickTo(c, p, s, State(Ticked(g, p.every), [Idle, stamped]))
  {
    var expiry, later, ticked := g.mem.entry.expiresAt, g.(now := g.now + p.every), Ticked(g, p.every);
    TickOn(c, p, s, State(g, [Idle, stamped]), Advance(p.every), State(later, [Idle, stamped]));
    assert [Idle, stamped][0 := TickRead(expiry)] == [TickRead(expiry), stamped];
    TickOn(c, p, s, State(later, [Idle, stamped]), Go(0, StartTick), State(ticked, [TickRead(expiry), stamped]));
    Ticker(c, p, s, ticked, TickRead(expiry), stamped, Proceed, ticked, Idle);
  }

  lemma {:induction false} StaleTicksSkip(c: Config, p: Pace, s: State, g: Shared, stamped: Pc, n: nat)
    requires TickTo(c, p, s, State(g, [Idle, stamped])) && stamped.Stamped? && stamped.who.Force? && p.stale && c.skew > 0
    requires 0 < g.lastTick == g.now && g.now + n * p.every + 2 * c.skew < g.mem.entry.expiresAt
    ensures TickTo(c, p, s, State(Ticked(g, n * p.every), [Idle, stamped]))
    decreases n
  {
    if n == 0 {
      assert Ticked(g, 0) == g;
    } else {
      var rest := (n - 1) * p.every;
      assert n * p.every == rest + p.every && rest >= 0;
      StaleTickSkips(c, p, s, g, stamped);
      StaleTicksSkip(c, p, s, Ticked(g, p.every), stamped, n - 1);
      assert Ticked(Ticked(g, p.every), rest) == Ticked(g, n * p.every);
    }
  }

  lemma StoredTooLate(c: Config, p: Pace, s: State, g: Shared, stamped: Pc)
    requires TickTo(c, p, s, State(g, [Idle, stamped])) && stamped.Stamped? && g.now >= stamped.renewed.expiresAt
    ensures exists t :: TickTo(c, p, s, t) && Dead(t)
  {
    var (h, q) := Move(c, g, 1, stamped, Proceed).value;
    Beside(c, p, s, g, Idle, stamped, Proceed, h, q);
    assert Dead(State(h, [Idle, q]));
  }

  /** Ticks that read the long old expiry while a shorter new one waits to be stored skip their turn: however close
      they are, the new entry may be stored when it has expired already. */
  lemma StaleTicksLetTokenDie(c: Config, p: Pace)
    requires c.skew > 0 && p.stale && p.every > 0 && p.delay <= p.every
    ensures !TickingKeepsAlive(c, p, true)
  {
    var tokens := Tokens("token", "", c.skew + 1);
    var n := Lifetime(tokens);
    assert n * p.every >= n && p.delay <= n * p.every;
    var expiry := 2 + n * p.every + 2 * c.skew;
    var s := OneEntry(c, expiry, [Idle, Idle]);
    OneEntryIsCalm(c, p, expiry, [Idle, Idle]);
    ForcedIsStamped(c, p, s, tokens, expiry);
    var stamped := StampedIn(s, tokens);
    var g: Shared :| TickTo(c, p, s, State(g, [Idle, stamped])) && g.mem == s.g.mem && g.now == g.lastTick == 1;
    StaleTicksSkip(c, p, s, g, stamped, n);
    StoredTooLate(c, p, s, Ticked(g, n * p.every), stamped);
    var t :| TickTo(c, p, s, t) && Dead(t);
    DeathRefutes(c, p, s, t);
  }

  /** Ticks that take no longer than they are apart keep the token alive exactly when spacing and delay together are
      within the skew: so at most one skew apart if they take no time. If a tick may read the expiry that a refresh is
      about to replace, no spacing does. */
  lemma TickingKeepsAliveIff(c: Config, p: Pace, atStart: bool)
    requires c.skew > 0 && p.delay <= p.every
    ensures TickingKeepsAlive(c, p, atStart) <==> if p.stale then p.every == 0 else p.every + p.delay <= c.skew
  {
    if KeepsPace(c, p) {
      forall s: State, i: nat, run: seq<Action>, t: State |
        Calm(c, p, s, i) && PromptRun(c, p, s, [Go(i, StartTick)] + run) && Reaches(c, s, [Go(i, StartTick)] + run, t)
        ensures t.g.now < t.g.mem.entry.expiresAt
      {
        TokenNeverDiesWhileTicking(c, p, s, i, run, t);
      }
    } else if p.stale {
      StaleTicksLetTokenDie(c, p);
    } else {
      LateTicksLetTokenDie(c, p);
    }
  }
}
