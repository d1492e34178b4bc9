/**
 * What a refresh does to the selected entry: coherence of the credential triple, also when a reload
 * overlaps a refresh, and what a restart from any persisted snapshot selects.
 */
module RefreshSelection {
  import opened Common
  import opened Credentials
  import opened RefreshProtocol
  import opened RefreshSafety
  import opened RefreshTheorems

  predicate Coherent(m: Memory) {
    m.mapKey in m.fileData && m.fileData[m.mapKey] == m.entry
  }

  /** A refresh between its snapshot and its commit, which will write under the key it has seen. */
  predicate HasSnapshot(pc: Pc) {
    pc.Snapped? || pc.Discovering? || pc.Posting? || pc.Answered? || pc.Stamped?
  }

  /** The reload is harmless: it keeps the selected key, or no refresh is under way. */
  ghost predicate KeyIsSafe(s: State, a: Action) {
    a.Reload? ==> a.k == s.g.mem.mapKey || forall i | 0 <= i < |s.pcs| :: !HasSnapshot(s.pcs[i])
  }

  ghost predicate SafeReloads(c: Config, s: State, run: seq<Action>)
    decreases |run|
  {
    run != [] ==>
      && KeyIsSafe(s, run[0])
      && (Next(c, s, run[0]).Some? ==> SafeReloads(c, Next(c, s, run[0]).value, run[1..]))
  }

  ghost predicate SameKey(s: State) {
    Coherent(s.g.mem) && forall i | 0 <= i < |s.pcs| && HasSnapshot(s.pcs[i]) :: s.pcs[i].k == s.g.mem.mapKey
  }

  lemma StepKeepsSameKey(c: Config, s: State, a: Action, t: State)
    requires SameKey(s) && KeyIsSafe(s, a) && Next(c, s, a) == Some(t)
    ensures SameKey(t)
  {
  }

  /** fileData[mapKey] == entry in every reachable state, with reloads at any time, as long as no reload
      that overlaps a refresh changes the selected key. */
  lemma {:induction false} MemoryStaysCoherent(c: Config, s: State, run: seq<Action>, t: State)
    requires SameKey(s) && SafeReloads(c, s, run) && Reaches(c, s, run, t)
    ensures SameKey(t)
    decreases |run|
  {
    if run != [] {
      var u := Next(c, s, run[0]).value;
      StepKeepsSameKey(c, s, run[0], u);
      MemoryStaysCoherent(c, u, run[1..], t);
    }
  }

  /** The side condition is exact: a commit under a key that a reload has replaced leaves the triple
      incoherent, unless the reload had put that very entry there. */
  lemma CommitCoherentIff(c: Config, s: State, i: nat, t: State)
    requires Coherent(s.g.mem) && i < |s.pcs| && s.pcs[i].Stamped?
    requires Next(c, s, Go(i, Proceed)) == Some(t)
    ensures Coherent(t.g.mem) <==> s.pcs[i].k == s.g.mem.mapKey || s.g.mem.entry == s.pcs[i].renewed
  {
  }

  // ---- restarts ----

  ghost predicate OthersBelow(fd: FileData, k: string, bound: Time) {
    forall j | j in fd && j != k && !Blank(fd[j].key) :: fd[j].expiresAt < bound
  }

  /** Grants give a usable token that lasts longer than the skew. */
  ghost predicate GoodGrants(c: Config, run: seq<Action>) {
    forall a | a in run && a.Go? && a.choice.Answer? ::
      Lifetime(a.choice.tokens) > c.skew && !Blank(a.choice.tokens.access)
  }

  ghost predicate MaxPc(c: Config, g: Shared, pc: Pc) {
    match pc
    case Answered(who, e, k, t) =>
      Lifetime(t) > c.skew && !Blank(t.access) && Due(c, who, e, g.now) && !who.Force?
    case Stamped(who, renewed, k) => !Blank(renewed.key) && OthersBelow(g.mem.fileData, k, renewed.expiresAt)
    case _ => true
  }

  /** The selected entry is maximal in memory and dominates every snapshot a refresh has taken. */
  ghost predicate MaxShared(g: Shared) {
    && Coherent(g.mem) && !Blank(g.mem.entry.key) && AllWithin(g.mem.fileData, g.mem.entry.expiresAt)
    && forall n | 0 < n < |g.commits| :: Dominates(g.commits[n], g.mem.mapKey)
  }

  ghost predicate MaxInv(c: Config, s: State) {
    && Inv(c, s) && Unforced(s) && MaxShared(s.g)
    && forall i | 0 <= i < |s.pcs| :: MaxPc(c, s.g, s.pcs[i])
  }

  lemma AnswerKeepsMax(c: Config, g: Shared, i: nat, pc: Pc, ch: Choice, h: Shared, q: Pc)
    requires PcOk(c, g, pc) && SharedOk(c, g) && !ForForce(pc) && MaxShared(g) && MaxPc(c, g, pc)
    requires PostStep(g, pc, ch) == Some((h, q))
    requires ch.Answer? ==> Lifetime(ch.tokens) > c.skew && !Blank(ch.tokens.access)
    ensures MaxPc(c, h, q)
  {
  }

  lemma CommitKeepsMax(c: Config, g: Shared, pc: Pc, h: Shared)
    requires PcOk(c, g, pc) && MaxShared(g) && MaxPc(c, g, pc) && pc.Stamped?
    requires h.mem == Memory(pc.renewed, g.mem.mapKey, g.mem.fileData[pc.k := pc.renewed])
    requires h.commits == g.commits + [h.mem.fileData]
    ensures MaxShared(h)
  {
  }

  lemma MoveKeepsMax(c: Config, g: Shared, i: nat, pc: Pc, ch: Choice, h: Shared, q: Pc)
    requires SharedOk(c, g) && ThreadOk(c, g, i, pc) && !ForForce(pc) && MaxShared(g) && MaxPc(c, g, pc)
    requires Move(c, g, i, pc, ch) == Some((h, q))
    requires ch.Answer? ==> Lifetime(ch.tokens) > c.skew && !Blank(ch.tokens.access)
    ensures MaxShared(h) && MaxPc(c, h, q)
  {
    OnlyCommitWrites(c, g, i, pc, ch, h, q);
    if pc.Stamped? {
      CommitKeepsMax(c, g, pc, h);
    } else if pc.Posting? || pc.Answered? {
      AnswerKeepsMax(c, g, i, pc, ch, h, q);
    } else {
      assert !q.Answered? && !q.Stamped?;
    }
  }

  lemma StepKeepsMax(c: Config, s: State, a: Action, t: State)
    requires MaxInv(c, s) && !a.Reload? && !(a.Go? && a.choice.StartForce?) && GoodGrants(c, [a])
    requires Next(c, s, a) == Some(t)
    ensures MaxInv(c, t) && t.g.mem.mapKey == s.g.mem.mapKey
  {
    StepKeepsInv(c, s, a, t);
    StepKeepsUnforced(c, s, a, t);
    if a.Go? {
      var i, g, h := a.i, s.g, t.g;
      assert ThreadOk(c, g, i, s.pcs[i]);
      assert a in [a];
      MoveKeepsMax(c, g, i, s.pcs[i], a.choice, h, t.pcs[i]);
      MoveOk(c, g, i, s.pcs[i], a.choice, h, t.pcs[i]);
      OnlyCommitWrites(c, g, i, s.pcs[i], a.choice, h, t.pcs[i]);
      forall j | 0 <= j < |t.pcs| ensures MaxPc(c, h, t.pcs[j]) {
        if j != i { assert ThreadOk(c, g, j, s.pcs[j]); }
      }
    }
  }

  lemma {:induction false} RunKeepsMax(c: Config, s: State, run: seq<Action>, t: State)
    requires MaxInv(c, s) && NoReload(run) && NoForcing(run) && GoodGrants(c, run) && Reaches(c, s, run, t)
    ensures MaxInv(c, t) && t.g.mem.mapKey == s.g.mem.mapKey
    decreases |run|
  {
    if run != [] {
      var u := Next(c, s, run[0]).value;
      assert run[0] in run;
      StepKeepsMax(c, s, run[0], u);
      RunKeepsMax(c, u, run[1..], t);
    }
  }

  /** A restart from what `r` holds may select `k`. */
  ghost predicate Restores(r: Replica, k: string) {
    r.content.Some? && Selectable(r.content.value, "", k)
  }

  /** A restart from what `r` holds selects `k`, for every map iteration order. */
  ghost predicate RestoresOnly(r: Replica, k: string) {
    Restores(r, k) && forall j | Restores(r, j) :: j == k
  }

  /** Restart stability: in every state, also in the middle of a refresh, a restart from any refresh snapshot that
      the DB or the file may hold selects the key that was selected at the load, whatever the map iteration order;
      from a copy whose last write succeeded it selects the very entry. The memory image itself selects that key
      or, before the first refresh, one that expires with it. */
  lemma RestartSelectsTheSameEntry(c: Config, s: State, run: seq<Action>, t: State)
    requires Init(c, s) && c.account == ""
    requires NoReload(run) && NoForcing(run) && GoodGrants(c, run) && Reaches(c, s, run, t)
    ensures t.g.mem.mapKey == s.g.mem.mapKey && Selectable(t.g.mem.fileData, "", s.g.mem.mapKey)
    ensures forall k | Selectable(t.g.mem.fileData, "", k) :: t.g.mem.fileData[k].expiresAt == t.g.mem.entry.expiresAt
    ensures t.g.db.index > 0 ==> RestoresOnly(t.g.db, s.g.mem.mapKey)
    ensures t.g.file.index > 0 ==> RestoresOnly(t.g.file, s.g.mem.mapKey)
    ensures t.g.holder == None && t.g.db.synced && t.g.db.index > 0 ==>
              t.g.db.content.value[s.g.mem.mapKey] == t.g.mem.entry
    ensures t.g.holder == None && c.fileWritable && t.g.file.synced && t.g.file.index > 0 ==>
              t.g.file.content.value[s.g.mem.mapKey] == t.g.mem.entry
  {
    InitKeepsInv(c, s);
    RunKeepsMax(c, s, run, t);
    var g := t.g;
    assert g.db.index > 0 ==> Dominates(g.commits[g.db.index], g.mem.mapKey);
    assert g.file.index > 0 ==> Dominates(g.commits[g.file.index], g.mem.mapKey);
  }

  /** For any refresh, forced or not and whatever lifetime was granted: a restart from its snapshot is sure to
      select the refreshed entry exactly when no other usable entry lasts as long as the new expiry. */
  lemma RestartAfterCommitIff(c: Config, s: State, i: nat, t: State)
    requires Coherent(s.g.mem) && i < |s.pcs| && s.pcs[i].Stamped? && s.pcs[i].k == s.g.mem.mapKey
    requires !Blank(s.pcs[i].renewed.key) && Next(c, s, Go(i, Proceed)) == Some(t)
    ensures (forall j | Selectable(t.g.mem.fileData, "", j) :: j == s.g.mem.mapKey) <==>
            OthersBelow(s.g.mem.fileData, s.g.mem.mapKey, s.pcs[i].renewed.expiresAt)
  {
    var k, fd := s.g.mem.mapKey, s.g.mem.fileData;
    assert t.g.mem.fileData == fd[k := s.pcs[i].renewed];
    SelectsOnlyIff(t.g.mem.fileData, k);
    assert forall j | j != k :: j in t.g.mem.fileData <==> j in fd;
    assert OthersBelow(t.g.mem.fileData, k, s.pcs[i].renewed.expiresAt) <==> OthersBelow(fd, k, s.pcs[i].renewed.expiresAt);
    assert Dominates(t.g.mem.fileData, k) <==> OthersBelow(t.g.mem.fileData, k, s.pcs[i].renewed.expiresAt);
  }
}
