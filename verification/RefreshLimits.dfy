/** Where the conditions of the theorems end: exact conditions, and runs in which they fail. */
module RefreshLimits {
  import opened Common
  import opened Credentials
  import opened RefreshProtocol
  import opened RefreshSafety
  import opened RefreshTheorems
  import opened RefreshSelection
  import opened RefreshTicking
  import opened RefreshRules
  import opened RefreshSolo

  // ---- reloads of a file the refreshes cannot write ----

  /** The provider hands out a new refresh token, whether or not the answer arrives. */
  ghost predicate Rotates(run: seq<Action>) {
    exists a | a in run :: Rotating(a)
  }

  predicate Rotating(a: Action) {
    a.Go? && (a.choice.Lose? || (a.choice.Answer? && a.choice.tokens.refresh != ""))
  }

  lemma StepMovesProvider(c: Config, s: State, a: Action, t: State)
    requires !c.fileWritable && Next(c, s, a) == Some(t)
    ensures t.g.file == s.g.file && s.g.idp.consumed <= t.g.idp.consumed
    ensures if Rotating(a) then s.g.idp.current in t.g.idp.consumed else t.g.idp == s.g.idp
  {
  }

  lemma {:induction false} ProviderMovesIff(c: Config, s: State, run: seq<Action>, t: State)
    requires !c.fileWritable && Reaches(c, s, run, t)
    ensures t.g.file == s.g.file && s.g.idp.consumed <= t.g.idp.consumed
    ensures if Rotates(run) then s.g.idp.current in t.g.idp.consumed else t.g.idp == s.g.idp
    decreases |run|
  {
    if run != [] {
      var u := Next(c, s, run[0]).value;
      StepMovesProvider(c, s, run[0], u);
      ProviderMovesIff(c, u, run[1..], t);
      assert run == [run[0]] + run[1..];
    }
  }

  /** On a read-only auth.json, a reload restores a refresh token that is still good exactly when no answer since the
      load brought a new one and none was lost; otherwise the stored token is already spent. */
  lemma ReloadOfReadOnlyFileIff(c: Config, s: State, run: seq<Action>, t: State, u: State)
    requires Init(c, s) && !c.fileWritable && s.g.file.synced
    requires NoReload(run) && Reaches(c, s, run, t)
    requires Next(c, t, Reload(s.g.mem.fileData, s.g.mem.mapKey)) == Some(u)
    ensures t.g.file.content == Some(s.g.mem.fileData)
    ensures u.g.mem.entry.refreshToken == u.g.idp.current <==> !Rotates(run)
    ensures Rotates(run) ==> u.g.mem.entry.refreshToken in u.g.idp.consumed
  {
    InitKeepsInv(c, s);
    RunKeepsInv(c, s, run, t);
    ProviderMovesIff(c, s, run, t);
  }

  lemma ForcedAloneIsReached(c: Config, s: State, h: Shared, q: Pc)
    requires s.pcs == [Idle] && Alone(c, s.g, 0, Waiting(Force), h, q)
    ensures exists run :: Reaches(c, s, run, State(h, [q])) && NoReload(run)
  {
    var script :| Drive(c, s.g, 0, Waiting(Force), script) == Some((h, q));
    var u := s.(pcs := [Waiting(Force)]);
    assert s.pcs[0 := Waiting(Force)] == u.pcs && u.pcs[0 := q] == [q];
    DriveIsExec(c, u, 0, script, h, q);
    ScheduleHasNoReload(0, script);
    var run := [Go(0, StartForce)] + Schedule(0, script);
    assert run[1..] == Schedule(0, script) && Next(c, s, run[0]) == Some(u);
    assert Reaches(c, s, run, State(h, [q])) && NoReload(run);
  }

  lemma {:induction false} ScheduleHasNoReload(i: nat, script: Script)
    ensures NoReload(Schedule(i, script))
    decreases |script|
  {
    if script != [] { ScheduleHasNoReload(i, script[1..]); }
  }

  /** A refresh that brings a new refresh token, on a file that cannot be written: the next reload restores the
      spent one. */
  lemma ReloadRestoresSpentToken(c: Config)
    requires c.skew > 0 && !c.fileWritable
    ensures var s := OneEntry(c, HOUR, [Idle]);
            Init(c, s) &&
            exists run, t, u :: NoReload(run) && Reaches(c, s, run, t) && t.g.holder == None &&
                                Next(c, t, Reload(s.g.mem.fileData, s.g.mem.mapKey)) == Some(u) &&
                                u.g.mem.entry.refreshToken in u.g.idp.consumed
  {
    var s := OneEntry(c, HOUR, [Idle]);
    OneEntryIsInit(c, HOUR, [Idle]);
    var tokens := Tokens("token", "next", 3600);
    var env := Env(0, NoAnswer, Reply(200, Some(tokens)), 0, true, true);
    SequentialRefreshIsASchedule(c, s.g, 0, Force, true, env);
    var h :| Alone(c, s.g, 0, Waiting(Force), h, Returned(Force, true)) && RefreshedTo(c, s.g, h, Renewed(tokens), env);
    ForcedAloneIsReached(c, s, h, Returned(Force, true));
    var t := State(h, [Returned(Force, true)]);
    var run :| Reaches(c, s, run, t) && NoReload(run);
    InitKeepsInv(c, s);
    RunKeepsInv(c, s, run, t);
    ProviderMovesIff(c, s, run, t);
    assert t.g.mem.entry.refreshToken == "next";
    var u := Next(c, t, Reload(s.g.mem.fileData, s.g.mem.mapKey)).value;
    ReloadOfReadOnlyFileIff(c, s, run, t, u);
  }

  // ---- forced refreshes and restarts ----

  /** A manager on the longer of two entries. */
  function TwoEntries(expiry: Time, other: Time): State {
    var e := Entry("token", "", "refresh", expiry, "", "", "", "");
    var fd: FileData := map["a" := e, "b" := e.(refreshToken := "other", expiresAt := other)];
    var copy := Replica(Some(fd), 0, true);
    State(Shared(1, Memory(e, "a", fd), None, Provider("refresh", {}, false), copy, copy,
                 [fd], [], [], 0, 1), [Idle])
  }

  lemma TwoEntriesIsInit(c: Config, expiry: Time, other: Time)
    requires c.skew > 0 && c.account == "" && other <= expiry
    ensures Init(c, TwoEntries(expiry, other))
  {
    assert !IsSpace("token"[0]);
    assert AllWithin(TwoEntries(expiry, other).g.mem.fileData, expiry);
  }

  /** The sibling that now lasts longest is the one a restart selects. */
  lemma LongestIsRestored(r: Replica, fd: FileData)
    requires r.content == Some(fd) && fd.Keys == {"a", "b"} && fd["a"].expiresAt < fd["b"].expiresAt
    requires !Blank(fd["b"].key)
    ensures Restores(r, "b") && !Restores(r, "a")
  {
  }

  /** A forced refresh may shorten the selected entry's life: then a restart selects another one. So restart
      stability does not extend to the forced refreshes that follow an upstream 401. */
  lemma ForcedRefreshChangesTheRestart(c: Config)
    requires c.skew > 0 && c.account == ""
    ensures var s := TwoEntries(3 * HOUR, 2 * HOUR);
            Init(c, s) && s.g.mem.mapKey == "a" &&
            exists run, t :: Reaches(c, s, run, t) && t.g.holder == None && t.g.db.content == Some(t.g.mem.fileData)
                             && Restores(t.g.db, "b") && !Restores(t.g.db, "a")
  {
    var s := TwoEntries(3 * HOUR, 2 * HOUR);
    TwoEntriesIsInit(c, 3 * HOUR, 2 * HOUR);
    var tokens := Tokens("token", "", 3600);
    var env := Env(0, NoAnswer, Reply(200, Some(tokens)), 0, true, true);
    assert !IsSpace("token"[0]) && !IsSpace("refresh"[0]);
    SequentialRefreshIsASchedule(c, s.g, 0, Force, true, env);
    var h :| Alone(c, s.g, 0, Waiting(Force), h, Returned(Force, true)) && RefreshedTo(c, s.g, h, Renewed(tokens), env);
    ForcedAloneIsReached(c, s, h, Returned(Force, true));
    var t := State(h, [Returned(Force, true)]);
    LongestIsRestored(h.db, h.mem.fileData);
    var run :| Reaches(c, s, run, t);
  }

  // ---- reloads that change the selected key during a refresh ----

  ghost predicate Leads(c: Config, s: State, t: State) {
    exists run :: Reaches(c, s, run, t)
  }

  lemma Then(c: Config, s: State, u: State, a: Action, t: State)
    requires Leads(c, s, u) && Next(c, u, a) == Some(t)
    ensures Leads(c, s, t)
  {
    var run :| Reaches(c, s, run, u);
    Append(c, s, run, u, a, t);
  }

  lemma ThenProceed(c: Config, s: State, g: Shared, pc: Pc, h: Shared, q: Pc)
    requires Leads(c, s, State(g, [pc])) && Move(c, g, 0, pc, Proceed) == Some((h, q))
    ensures Leads(c, s, State(h, [q]))
  {
    assert [pc][0 := q] == [q];
    Then(c, s, State(g, [pc]), Go(0, Proceed), State(h, [q]));
  }

  lemma ForcedReachesStamped(c: Config, s: State, t: Tokens)
    requires s.pcs == [Idle] && s.g.holder == None && t.access != ""
    requires CanGrant(s.g.idp, s.g.mem.entry.refreshToken, t) && !Blank(s.g.mem.entry.refreshToken)
    ensures exists g: Shared :: Leads(c, s, State(g, [StampedIn(s, t)])) && g.mem == s.g.mem
  {
    var e, k, start := s.g.mem.entry, s.g.mem.mapKey, Waiting(Force);
    AloneToGuard(c, s.g, 0, Force, 0);
    var held := Later(s.g, 0).(holder := Some(0));
    AloneToAnswer(c, held, 0, Force, s.g, start, t);
    var h :| Alone(c, s.g, 0, start, h, Answered(Force, e, k, t)) && GrantedFrom(held, h);
    assert Later(h, 0) == h;
    AloneStep(c, s.g, 0, start, h, Answered(Force, e, k, t), 0, Proceed, h, StampedIn(s, t));
    ForcedAloneIsReached(c, s, h, StampedIn(s, t));
  }

  /** Why MemoryStaysCoherent excludes reloads that change the selected key during a refresh: after one, the commit
      leaves fileData[mapKey] and entry apart, also when the refresh is over. */
  lemma KeyChangeBreaksCoherence(c: Config)
    requires c.skew > 0 && c.account == ""
    ensures var s := TwoEntries(2, 2);
            Init(c, s) && exists t :: Leads(c, s, t) && t.g.holder == None && !Coherent(t.g.mem)
  {
    var s, tokens := TwoEntries(2, 2), Tokens("new", "", 0);
    TwoEntriesIsInit(c, 2, 2);
    assert !IsSpace("refresh"[0]) && !IsSpace("token"[0]);
    ForcedReachesStamped(c, s, tokens);
    var stamped, fd := StampedIn(s, tokens), s.g.mem.fileData;
    var g: Shared :| Leads(c, s, State(g, [stamped])) && g.mem == s.g.mem;
    var g1 := g.(mem := Memory(fd["b"], "b", fd));
    Then(c, s, State(g, [stamped]), Reload(fd, "b"), State(g1, [stamped]));
    RefreshEnds(c, s, g1, stamped);
  }

  lemma RefreshEnds(c: Config, s: State, g: Shared, stamped: Pc)
    requires Leads(c, s, State(g, [stamped])) && stamped.Stamped?
    ensures exists t :: Leads(c, s, t) && t.g.holder == None &&
                        t.g.mem == Memory(stamped.renewed, g.mem.mapKey, g.mem.fileData[stamped.k := stamped.renewed])
  {
    var (g1, q1) := Move(c, g, 0, stamped, Proceed).value;
    ThenProceed(c, s, g, stamped, g1, q1);
    var (g2, q2) := Move(c, g1, 0, q1, Proceed).value;
    ThenProceed(c, s, g1, q1, g2, q2);
    var (g3, q3) := Move(c, g2, 0, q2, Proceed).value;
    ThenProceed(c, s, g2, q2, g3, q3);
    var (g4, q4) := Move(c, g3, 0, q3, Proceed).value;
    ThenProceed(c, s, g3, q3, g4, q4);
  }
}
