/**
 * The credential manager as a step machine. Any number of goroutines interleave GetAccessToken,
 * ForceRefresh and the proactive tick; each lock-protected block and each call to the outside is
 * one step, and the clock may advance between any two steps.
 */
module RefreshProtocol {
  import opened Common
  import opened Credentials

  datatype Config = Config(skew: int, account: string, fileWritable: bool)

  /** Who asked for the refresh. A getter remembers the entry it read first, and when. */
  datatype Caller = Get(first: Entry, start: Time) | Force | Tick

  /** A goroutine's next step. From Locked to Unlocking it holds refreshMu. */
  datatype Pc =
    | Idle
    | GetRead(first: Entry, start: Time)
    | TickRead(expiry: Time)
    | Waiting(who: Caller)
    | Locked(who: Caller)
    | Snapped(who: Caller, e: Entry, k: string)
    | Discovering(who: Caller, e: Entry, k: string)
    | Posting(who: Caller, e: Entry, k: string, sent: Time)
    | Answered(who: Caller, e: Entry, k: string, tokens: Tokens)
    | Stamped(who: Caller, renewed: Entry, k: string)
    | Committed(who: Caller, copy: FileData)
    | Persisted(who: Caller, copy: FileData)
    | Unlocking(who: Caller, ok: bool)
    | Returned(who: Caller, ok: bool)

  /** The state guarded by mu. */
  datatype Memory = Memory(entry: Entry, mapKey: string, fileData: FileData)

  /** A provider of single-use refresh tokens; `lost` once a rotated token never reached us. */
  datatype Provider = Provider(current: string, consumed: set<string>, lost: bool)

  /** The DB row or auth.json. `index` names the refresh snapshot in it (-1: from before this run),
      and `synced` says that the last write to it succeeded. */
  datatype Replica = Replica(content: Option<FileData>, index: int, synced: bool)

  /** A refresh the provider granted and whose answer arrived. */
  datatype Grant = Grant(token: string, forced: bool, rotated: bool, sent: Time, at: Time, lifetime: int)

  /** A token GetAccessToken returned without error, and whether it asked for a refresh before. */
  datatype Served = Served(entry: Entry, start: Time, finish: Time, asked: bool)

  datatype Shared = Shared(
    now: Time,
    mem: Memory,
    holder: Option<nat>,
    idp: Provider,
    db: Replica,
    file: Replica,
    // history
    commits: seq<FileData>,
    grants: seq<Grant>,
    served: seq<Served>,
    releasedAt: Time,
    lastTick: Time)

  datatype State = State(g: Shared, pcs: seq<Pc>)

  datatype Choice =
    | StartGet | StartForce | StartTick
    | Proceed
    | Fail
    | Answer(tokens: Tokens)  // the provider grants and the answer arrives
    | Lose(tokens: Tokens)    // the provider grants and the answer is lost or unusable

  datatype Action =
    | Advance(d: nat)
    | Reload(fd: FileData, k: string)
    | Go(i: nat, choice: Choice)

  type Moved = Option<(Shared, Pc)>

  function To(g: Shared, pc: Pc): Moved { Some((g, pc)) }

  /** Everything outside refreshMu (auth.go:345-421). */
  function CallerStep(c: Config, g: Shared, pc: Pc, ch: Choice): Moved {
    match (pc, ch)
    case (Idle, StartGet) =>
      if Blank(g.mem.entry.key) then To(g, Idle) else To(g, GetRead(g.mem.entry, g.now))
    case (Idle, StartForce) => To(g, Waiting(Force))
    case (Idle, StartTick) => To(g.(lastTick := g.now), TickRead(g.mem.entry.expiresAt))
    case (GetRead(first, start), Proceed) =>
      if NeedsRefresh(first, g.now, c.skew) then To(g, Waiting(Get(first, start)))
      else To(Serve(g, first, start, false), Idle)
    case (TickRead(expiry), Proceed) =>
      if TickSkips(expiry, g.now, c.skew) then To(g, Idle) else To(g, Waiting(Tick))
    case (Returned(Get(first, start), ok), Proceed) =>
      if ok then To(Serve(g, g.mem.entry, start, true), Idle)
      else if g.now < first.expiresAt then To(Serve(g, first, start, true), Idle)
      else To(g, Idle)
    case (Returned(_, _), Proceed) => To(g, Idle)
    case _ => None
  }

  function Serve(g: Shared, e: Entry, start: Time, asked: bool): Shared {
    g.(served := g.served + [Served(e, start, g.now, asked)])
  }

  /** refresh up to the token request (auth.go:444-475). */
  function GuardStep(c: Config, g: Shared, i: nat, pc: Pc, ch: Choice): Moved {
    match (pc, ch)
    case (Waiting(who), Proceed) =>
      if g.holder == None then To(g.(holder := Some(i)), Locked(who)) else None
    case (Locked(who), Proceed) => To(g, Snapped(who, g.mem.entry, g.mem.mapKey))
    case (Snapped(who, e, k), Proceed) =>
      if FreshEnough(e, who.Force?, g.now, c.skew) then To(g, Unlocking(who, true))
      else if Blank(e.refreshToken) then To(g, Unlocking(who, false))
      else To(g, Discovering(who, e, k))
    case (Discovering(who, e, k), Proceed) => To(g, Posting(who, e, k, g.now))
    case (Discovering(who, e, k), Fail) => To(g, Unlocking(who, false))
    case _ => None
  }

  /** The provider grants only its current token, and rotates to one it never issued before. */
  predicate CanGrant(idp: Provider, token: string, t: Tokens) {
    && token == idp.current
    && (t.refresh != "" ==> t.refresh !in idp.consumed && t.refresh != idp.current)
  }

  function Rotate(idp: Provider, t: Tokens): Provider {
    if t.refresh == "" then idp
    else idp.(current := t.refresh, consumed := idp.consumed + {idp.current})
  }

  /** The token request and its answer (auth.go:487-516). */
  function PostStep(g: Shared, pc: Pc, ch: Choice): Moved {
    match (pc, ch)
    case (Posting(who, e, k, sent), Answer(t)) =>
      if CanGrant(g.idp, e.refreshToken, t) && t.access != "" then
        var grant := Grant(e.refreshToken, who.Force?, t.refresh != "", sent, g.now, Lifetime(t));
        To(g.(idp := Rotate(g.idp, t), grants := g.grants + [grant]), Answered(who, e, k, t))
      else None
    case (Posting(who, e, k, sent), Lose(t)) =>
      if CanGrant(g.idp, e.refreshToken, t) && t.refresh != "" then
        To(g.(idp := Rotate(g.idp, t).(lost := true)), Unlocking(who, false))
      else None
    case (Posting(who, _, _, _), Fail) => To(g, Unlocking(who, false))
    case (Answered(who, e, k, t), Proceed) => To(g, Stamped(who, Granted(e, t, g.now), k))
    case _ => None
  }

  /** A write of the newest snapshot to the DB or the file. */
  function Written(g: Shared, r: Replica, copy: FileData, ok: bool): Replica {
    if ok then Replica(Some(copy), |g.commits| - 1, true) else r.(synced := false)
  }

  /** Commit, persist, write back and unlock (auth.go:518-560). */
  function CommitStep(c: Config, g: Shared, pc: Pc, ch: Choice): Moved {
    match (pc, ch)
    case (Stamped(who, renewed, k), Proceed) =>
      var fd := g.mem.fileData[k := renewed];
      To(g.(mem := Memory(renewed, g.mem.mapKey, fd), commits := g.commits + [fd]), Committed(who, fd))
    case (Committed(who, copy), Proceed) => To(g.(db := Written(g, g.db, copy, true)), Persisted(who, copy))
    case (Committed(who, copy), Fail) => To(g.(db := Written(g, g.db, copy, false)), Persisted(who, copy))
    case (Persisted(who, copy), Proceed) =>
      To(if c.fileWritable then g.(file := Written(g, g.file, copy, true)) else g, Unlocking(who, true))
    case (Persisted(who, copy), Fail) =>
      To(if c.fileWritable then g.(file := Written(g, g.file, copy, false)) else g, Unlocking(who, true))
    case (Unlocking(who, ok), Proceed) => To(g.(holder := None, releasedAt := g.now), Returned(who, ok))
    case _ => None
  }

  function Move(c: Config, g: Shared, i: nat, pc: Pc, ch: Choice): Moved {
    match pc
    case Idle | GetRead(_, _) | TickRead(_) | Returned(_, _) => CallerStep(c, g, pc, ch)
    case Waiting(_) | Locked(_) | Snapped(_, _, _) | Discovering(_, _, _) => GuardStep(c, g, i, pc, ch)
    case Posting(_, _, _, _) | Answered(_, _, _, _) => PostStep(g, pc, ch)
    case _ => CommitStep(c, g, pc, ch)
  }

  /** loadBytes commits what it selected under mu alone, whatever a refresh is doing. */
  ghost function Next(c: Config, s: State, a: Action): Option<State> {
    match a
    case Advance(d) => Some(s.(g := s.g.(now := s.g.now + d)))
    case Reload(fd, k) =>
      if Selectable(fd, c.account, k) && !Blank(fd[k].key)
      then Some(s.(g := s.g.(mem := Memory(fd[k], k, fd))))
      else None
    case Go(i, ch) =>
      if i >= |s.pcs| then None
      else
        match Move(c, s.g, i, s.pcs[i], ch)
        case None => None
        case Some((g, pc)) => Some(State(g, s.pcs[i := pc]))
  }

  ghost function Exec(c: Config, s: State, run: seq<Action>): Option<State>
    decreases |run|
  {
    if run == [] then Some(s)
    else
      match Next(c, s, run[0])
      case None => None
      case Some(t) => Exec(c, t, run[1..])
  }

  ghost predicate Reaches(c: Config, s: State, run: seq<Action>, t: State) {
    Exec(c, s, run) == Some(t)
  }

  /** A manager that has just loaded its credentials, before any goroutine uses it. */
  ghost predicate Init(c: Config, s: State) {
    && c.skew > 0 && s.g.now > 0
    && (forall i | 0 <= i < |s.pcs| :: s.pcs[i] == Idle)
    && Selectable(s.g.mem.fileData, c.account, s.g.mem.mapKey)
    && s.g.mem.entry == s.g.mem.fileData[s.g.mem.mapKey] && !Blank(s.g.mem.entry.key)
    && s.g.holder == None
    && s.g.idp.current == s.g.mem.entry.refreshToken && s.g.idp.current !in s.g.idp.consumed && !s.g.idp.lost
    && s.g.commits == [s.g.mem.fileData]
    && FirstCopy(s.g, s.g.db) && FirstCopy(s.g, s.g.file)
    && s.g.grants == [] && s.g.served == [] && s.g.releasedAt <= s.g.now
  }

  /** At startup a replica either holds what was loaded or something older. */
  ghost predicate FirstCopy(g: Shared, r: Replica) {
    if r.synced then r == Replica(Some(g.mem.fileData), 0, true) else r.index == -1
  }

  predicate Holding(pc: Pc) {
    !(pc.Idle? || pc.GetRead? || pc.TickRead? || pc.Waiting? || pc.Returned?)
  }

  /** Only the commit touches memory and the snapshots, and only the two writes touch the replicas. */
  lemma OnlyCommitWrites(c: Config, g: Shared, i: nat, pc: Pc, ch: Choice, h: Shared, q: Pc)
    requires Move(c, g, i, pc, ch) == Some((h, q))
    ensures !pc.Stamped? ==> h.mem == g.mem && h.commits == g.commits
    ensures !pc.Committed? ==> h.db == g.db
    ensures !pc.Persisted? ==> h.file == g.file
    ensures pc.Stamped? ==> h == g.(mem := h.mem, commits := g.commits + [h.mem.fileData])
    ensures pc.Stamped? ==> h.mem == Memory(pc.renewed, g.mem.mapKey, g.mem.fileData[pc.k := pc.renewed])
  {
  }
}
