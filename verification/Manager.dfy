/** The credential manager as the object auth.go builds, for one goroutine at a time. */
module ManagerModel {
  import opened Common
  import opened Credentials
  import opened RefreshRules

  /** auth.json or the auth_states row as bytes: JSON of a file map, or something that does not parse. */
  datatype Blob = Malformed | Json(fd: FileData)

  datatype LoadError = Unreadable | Unparsable | NoEntries | NotSelected(cause: SelectError) | EmptyKey

  datatype TokenPost = TokenPost(url: string, refreshToken: string, clientID: string)

  datatype TokenError = NoToken | Expired(cause: RefreshError)

  /** The outside of one GetAccessToken: the clock before its two tests, and of the refresh between. */
  datatype GetEnv = GetEnv(checkDelay: nat, refresh: Env, retryDelay: nat)

  /** What GetAccessToken returns. */
  datatype GetOutcome = Serve(token: string) | Refuse(error: TokenError)

  class Manager {
    const skew: int
    const account: string
    const issuer: string
    const clientID: string
    const persists: bool
    const fileWritable: bool

    var mapKey: string
    var entry: Entry
    var fileData: FileData
    var tokenEndpoint: string

    // the outside the manager reads and writes
    var now: Time
    var db: Option<Blob>
    var file: Option<Blob>
    var posts: seq<TokenPost>

    predicate Loaded()
      reads this
    {
      mapKey in fileData && fileData[mapKey] == entry
    }

    constructor (skew: int, account: string, issuer: string, clientID: string, persists: bool,
                 fileWritable: bool, now: Time, db: Option<Blob>, file: Option<Blob>)
      ensures this.skew > 0 && (skew > 0 ==> this.skew == skew) && (skew <= 0 ==> this.skew == 5 * MINUTE)
      ensures this.account == account && this.clientID == clientID
      ensures this.issuer == TrimRightSlash(if issuer == "" then "https://auth.x.ai" else issuer)
      ensures this.persists == persists && this.fileWritable == fileWritable
      ensures this.now == now && this.db == db && this.file == file && this.posts == [] && fileData == map[]
      ensures entry.key == "" && entry.expiresAt == 0
    {
      this.skew := if skew <= 0 then 5 * MINUTE else skew;
      this.account := account;
      this.issuer := TrimRightSlash(if issuer == "" then "https://auth.x.ai" else issuer);
      this.clientID := clientID;
      this.persists := persists;
      this.fileWritable := fileWritable;
      mapKey, fileData, tokenEndpoint := "", map[], "";
      entry := Entry("", "", "", 0, "", "", "", "");
      this.now, this.db, this.file, posts := now, db, file, [];
    }

    /** The loading half of NewManager: the DB blob wins over the file and is then materialised. */
    method Start(initial: Option<Blob>, writeOk: bool) returns (err: Option<LoadError>)
      modifies this`mapKey, this`entry, this`fileData, this`tokenEndpoint, this`file
      ensures err.None? ==> Loaded() && Selectable(fileData, account, mapKey) && !Blank(entry.key)
      ensures err.None? ==> Some(Json(fileData)) == if initial.Some? then initial else old(file)
      ensures account == "" ==>
                var source := if initial.Some? then initial else old(file);
                err.None? <==> source.Some? && source.value.Json? && Usable(source.value.fd)
      ensures file == if err.None? && initial.Some? && fileWritable && writeOk then initial else old(file)
    {
      if initial.Some? {
        err := LoadBytes(initial.value);
        if err.None? && fileWritable && writeOk {
          file := Some(Json(fileData));
        }
      } else {
        err := Reload();
      }
    }

    method Reload() returns (err: Option<LoadError>)
      modifies this`mapKey, this`entry, this`fileData, this`tokenEndpoint
      ensures file.None? ==> err == Some(Unreadable)
      ensures err.None? ==> Loaded() && Selectable(fileData, account, mapKey) && !Blank(entry.key)
                            && Some(Json(fileData)) == file && tokenEndpoint == ""
      ensures err.Some? ==> unchanged(this)
      ensures account == "" ==> (err.None? <==> file.Some? && file.value.Json? && Usable(file.value.fd))
    {
      if file.None? {
        return Some(Unreadable);
      }
      err := LoadBytes(file.value);
    }

    /** A load that fails changes nothing; one that succeeds replaces the whole triple. */
    method LoadBytes(data: Blob) returns (err: Option<LoadError>)
      modifies this`mapKey, this`entry, this`fileData, this`tokenEndpoint
      ensures err.Some? ==> unchanged(this)
      ensures err.None? ==> data == Json(fileData) && Loaded() && tokenEndpoint == ""
      ensures err.None? ==> Selectable(fileData, account, mapKey) && !Blank(entry.key)
      ensures err == Some(Unparsable) <==> data.Malformed?
      ensures err == Some(NoEntries) <==> data == Json(map[])
      ensures err.Some? && err.value.NotSelected? ==> data.Json? && forall k :: !Selectable(data.fd, account, k)
      ensures err == Some(EmptyKey) ==> account != "" && exists k :: data.Json? && Selectable(data.fd, account, k) && Blank(data.fd[k].key)
      ensures err != Some(Unreadable)
      ensures account == "" ==> (err.None? <==> data.Json? && Usable(data.fd))
    {
      if data.Malformed? {
        return Some(Unparsable);
      }
      if data.fd == map[] {
        return Some(NoEntries);
      }
      var selected := SelectEntry(data.fd, account);
      if selected.Err? {
        return Some(NotSelected(selected.error));
      }
      if Blank(selected.value.1.key) {
        assert Selectable(data.fd, account, selected.value.0);
        return Some(EmptyKey);
      }
      fileData := data.fd;
      mapKey, entry := selected.value.0, selected.value.1;
      tokenEndpoint := "";
      return None;
    }

    function Issuer(): string
      reads this
    {
      FirstNonEmpty(FirstNonEmpty(entry.issuer, entry.oidcIssuer), issuer)
    }

    function ClientID(): string
      reads this
    {
      FirstNonEmpty(FirstNonEmpty(entry.clientID, entry.oidcClientID), clientID)
    }

    /** What the refresh this environment leads to would do now. */
    function Foreseen(force: bool, env: Env): Outcome
      reads this
    {
      RefreshOutcome(entry, force, now + env.guardDelay, skew,
                     TokenURL(tokenEndpoint, Issuer(), env.discovery).Some?, env.post)
    }

    predicate WillPost(force: bool, env: Env)
      reads this
    {
      Posts(entry, force, now + env.guardDelay, skew, TokenURL(tokenEndpoint, Issuer(), env.discovery).Some?, env.post)
    }

    /** The refresh has what it needs from the entry and the outside to be granted, once it is due. */
    predicate Grantable(env: Env)
      reads this
    {
      && !Blank(entry.refreshToken) && (tokenEndpoint != "" || !env.discovery.BadIssuer?)
      && env.post.Reply? && 200 <= env.post.status < 300 && env.post.body.Some? && env.post.body.value.access != ""
    }

    /** Less than the skew is left after the delay. */
    predicate Due(delay: nat)
      reads this
    {
      entry.expiresAt != 0 && entry.expiresAt < now + delay + skew
    }

    /** No more than the skew is left after the delay. */
    predicate DueAt(delay: nat)
      reads this
    {
      entry.expiresAt <= now + delay + skew
    }

    method DiscoverTokenEndpoint(iss: string, d: Discovery) returns (url: Option<string>)
      modifies this`tokenEndpoint
      ensures url == TokenURL(old(tokenEndpoint), iss, d)
      ensures url.None? <==> old(tokenEndpoint) == "" && d.BadIssuer?
      ensures tokenEndpoint == if url.Some? then url.value else old(tokenEndpoint)
    {
      if tokenEndpoint != "" {
        return Some(tokenEndpoint);
      }
      var fallback := TrimRightSlash(iss) + "/oauth/token";
      match d {
        case BadIssuer => return None;
        case Endpoint(u) => tokenEndpoint := if u == "" then fallback else u;
        case _ => tokenEndpoint := fallback;
      }
      return Some(tokenEndpoint);
    }

    /** The status, body and access token checks on the answer to a token request. */
    method ReadAnswer(p: Post) returns (o: Outcome)
      requires !p.BadEndpoint?
      ensures o == PostOutcome(p)
    {
      if p.NoReply? {
        return Failed(TransportFailed);
      }
      if p.status < 200 || p.status >= 300 {
        return Failed(TokenStatus(p.status));
      }
      if p.body.None? {
        return Failed(BadTokenBody);
      }
      if p.body.value.access == "" {
        return Failed(NoAccessToken);
      }
      return Renewed(p.body.value);
    }

    /** The new entry goes to memory, then a clone of the map to the DB and to a writable file. */
    method Commit(k: string, renewed: Entry, persistOk: bool, writeOk: bool)
      modifies this`entry, this`fileData, this`db, this`file
      ensures entry == renewed && fileData == old(fileData)[k := renewed]
      ensures db == if persists && persistOk then Some(Json(fileData)) else old(db)
      ensures file == if fileWritable && writeOk then Some(Json(fileData)) else old(file)
    {
      entry := renewed;
      fileData := fileData[k := renewed];
      var copy := fileData;
      if persists && persistOk {
        db := Some(Json(copy));
      }
      if fileWritable && writeOk {
        file := Some(Json(copy));
      }
    }

    /** refresh: the credential triple changes only by a granted renewal, the token request carries the
        stored refresh token, and what is persisted is the new map. */
    method RefreshLocked(force: bool, env: Env) returns (err: Option<RefreshError>)
      requires Loaded()
      modifies this
      ensures Loaded() && mapKey == old(mapKey)
      ensures var o := old(Foreseen(force, env));
              && err == (if o.Failed? then Some(o.error) else None)
              && now == old(now) + env.guardDelay + (if o.Renewed? then env.answerDelay else 0)
              && entry == (if o.Renewed? then Granted(old(entry), o.tokens, now) else old(entry))
              && fileData == (if o.Renewed? then old(fileData)[mapKey := entry] else old(fileData))
              && db == (if o.Renewed? && persists && env.persistOk then Some(Json(fileData)) else old(db))
              && file == (if o.Renewed? && fileWritable && env.writeOk then Some(Json(fileData)) else old(file))
      ensures posts == old(posts) + if old(WillPost(force, env))
                                    then [TokenPost(tokenEndpoint, old(entry.refreshToken), old(ClientID()))] else []
      ensures old(WillPost(force, env)) ==> Some(tokenEndpoint) == TokenURL(old(tokenEndpoint), old(Issuer()), env.discovery)
    {
      var e, k := entry, mapKey;
      var client, iss := ClientID(), Issuer();
      now := now + env.guardDelay;
      if FreshEnough(e, force, now, skew) {
        return None;
      }
      if Blank(e.refreshToken) {
        return Some(NoRefreshToken);
      }
      var url := DiscoverTokenEndpoint(iss, env.discovery);
      if url.None? {
        return Some(DiscoveryFailed);
      }
      if env.post.BadEndpoint? {
        return Some(RequestFailed);
      }
      posts := posts + [TokenPost(url.value, e.refreshToken, client)];
      var o := ReadAnswer(env.post);
      if o.Renewed? {
        now := now + env.answerDelay;
        Commit(k, Granted(e, o.tokens, now), env.persistOk, env.writeOk);
        return None;
      }
      return Some(o.error);
    }

    /** doRefresh, told in the entry's own fields: a refresh that is due and gets its grant posts once and renews the
        entry; nothing else changes the credential triple, the DB or the file. */
    method Refresh(force: bool, env: Env) returns (err: Option<RefreshError>)
      requires Loaded()
      modifies this
      ensures Loaded() && mapKey == old(mapKey)
      ensures err == old(Foreseen(force, env)).Failure()
      ensures var granted := old(Grantable(env)) && (force || old(entry.expiresAt) == 0 || old(DueAt(env.guardDelay)));
              && now == old(now) + env.guardDelay + (if granted then env.answerDelay else 0)
              && (if granted then err.None? && RenewedBy(old(entry), env.post.body.value, now, entry) else entry == old(entry))
              && fileData == (if granted then old(fileData)[mapKey := entry] else old(fileData))
              && db == (if granted && persists && env.persistOk then Some(Json(fileData)) else old(db))
              && file == (if granted && fileWritable && env.writeOk then Some(Json(fileData)) else old(file))
      ensures |posts| == |old(posts)| || (|posts| == |old(posts)| + 1 && posts[..|old(posts)|] == old(posts))
      ensures |posts| > |old(posts)| <==>
                && (force || old(entry.expiresAt) == 0 || old(DueAt(env.guardDelay))) && !Blank(old(entry.refreshToken))
                && (old(tokenEndpoint) != "" || !env.discovery.BadIssuer?) && !env.post.BadEndpoint?
      ensures |posts| > |old(posts)| ==>
                var p := posts[|old(posts)|];
                && p.refreshToken == old(entry.refreshToken)
                && FirstOf(old(entry.clientID), old(entry.oidcClientID), clientID, p.clientID)
                && FirstOf(old(entry.issuer), old(entry.oidcIssuer), issuer, old(Issuer()))
                && p.url == tokenEndpoint != ""
                && (if old(tokenEndpoint) != "" then p.url == old(tokenEndpoint)
                    else if env.discovery.Endpoint? && env.discovery.url != "" then p.url == env.discovery.url
                    else IsFallback(old(Issuer()), p.url))
    {
      RenewedIff(entry, force, now + env.guardDelay, skew, TokenURL(tokenEndpoint, Issuer(), env.discovery).Some?, env.post,
                 now + env.guardDelay + env.answerDelay);
      TokenURLIs(tokenEndpoint, Issuer(), env.discovery);
      err := RefreshLocked(force, env);
    }

    method ForceRefresh(env: Env) returns (err: Option<RefreshError>)
      requires Loaded()
      modifies this
      ensures Loaded() && mapKey == old(mapKey)
      ensures var o := old(Foreseen(true, env));
              && err == (if o.Failed? then Some(o.error) else None)
              && now == old(now) + env.guardDelay + (if o.Renewed? then env.answerDelay else 0)
              && entry == (if o.Renewed? then Granted(old(entry), o.tokens, now) else old(entry))
      ensures |posts| == |old(posts)| + if old(WillPost(true, env)) then 1 else 0
      ensures err.None? <==> old(Grantable(env))
      ensures err.None? ==> |posts| == |old(posts)| + 1 && RenewedBy(old(entry), env.post.body.value, now, entry)
    {
      err := Refresh(true, env);
    }

    /** A token answered without error is live at some instant of the call (or of unknown expiry),
        also when the refresh failed; at most one token request is sent, and none for a fresh token. */
    method GetAccessToken(env: GetEnv) returns (r: GetOutcome)
      requires Loaded()
      requires skew > 0 && now > 0
      modifies this
      ensures Loaded() && mapKey == old(mapKey) && now >= old(now)
      ensures r.Serve? ==> exists e | e in {old(entry), entry} ::
                e.key == r.token && (e.expiresAt == 0 || e.expiresAt > old(now))
      ensures r == Refuse(NoToken) <==> Blank(old(entry.key))
      ensures r.Refuse? && r.error.Expired? ==> entry == old(entry) && 0 != entry.expiresAt <= now
      ensures |old(posts)| <= |posts| <= |old(posts)| + 1
      // a token with the skew left is answered at once; else the refreshed one, or the old one until it expires
      ensures !Blank(old(entry.key)) && !old(Due(env.checkDelay)) ==>
                r == Serve(old(entry.key)) && now == old(now) + env.checkDelay
      ensures !old(Due(env.checkDelay)) ==> entry == old(entry) && tokenEndpoint == old(tokenEndpoint) && posts == old(posts)
      ensures !Blank(old(entry.key)) && old(Due(env.checkDelay)) && old(Grantable(env.refresh)) ==>
                r == Serve(env.refresh.post.body.value.access) && |posts| == |old(posts)| + 1
      ensures !Blank(old(entry.key)) && old(Due(env.checkDelay)) && !old(Grantable(env.refresh)) ==>
                entry == old(entry) && now == old(now) + env.checkDelay + env.refresh.guardDelay + env.retryDelay &&
                if now < entry.expiresAt then r == Serve(entry.key) else r.Refuse? && r.error.Expired?
    {
      var first := entry;
      if Blank(first.key) {
        return Refuse(NoToken);
      }
      now := now + env.checkDelay;
      if NeedsRefresh(first, now, skew) {
        var err := Refresh(false, env.refresh);
        if err.Some? {
          now := now + env.retryDelay;
          if now < first.expiresAt {
            return Serve(first.key);
          }
          return Refuse(Expired(err.value));
        }
        first := entry;
      }
      return Serve(first.key);
    }

    /** The tick asks for a refresh within twice the skew, but a token request leaves only within once. */
    method ProactiveTick(checkDelay: nat, env: Env) returns (err: Option<RefreshError>)
      requires Loaded() && skew > 0 && now > 0
      modifies this
      ensures Loaded() && mapKey == old(mapKey)
      ensures |posts| > |old(posts)| <==>
                && old(entry.expiresAt) != 0 && old(entry.expiresAt) <= old(now) + checkDelay + 2 * skew
                && old(entry.expiresAt) <= old(now) + checkDelay + env.guardDelay + skew && !Blank(old(entry.refreshToken))
                && (old(tokenEndpoint) != "" || !env.discovery.BadIssuer?) && !env.post.BadEndpoint?
      ensures |posts| > |old(posts)| && old(Grantable(env)) ==>
                err.None? && RenewedBy(old(entry), env.post.body.value, now, entry)
      ensures err.None? && posts == old(posts) && entry.expiresAt != 0 ==>
                entry == old(entry) && entry.expiresAt > old(now) + checkDelay + skew
    {
      var exp := entry.expiresAt;
      if exp == 0 {
        return None;
      }
      now := now + checkDelay;
      if TickSkips(exp, now, skew) {
        return None;
      }
      err := Refresh(false, env);
    }
  }

  /** Two refreshes one after the other: the second request carries the same client id as the first, and the refresh
      token that the first answer brought, or else the same as the first. */
  method RefreshTwice(m: Manager, first: Env, second: Env) returns (failed: bool)
    requires m.Loaded()
    modifies m
    ensures !failed <==> old(m.Grantable(first))
    ensures !failed && |m.posts| == |old(m.posts)| + 2 ==>
              var n := |old(m.posts)|;
              && m.posts[n + 1].clientID == m.posts[n].clientID && m.posts[n].refreshToken == old(m.entry.refreshToken)
              && m.posts[n + 1].refreshToken ==
                 if first.post.body.value.refresh != "" then first.post.body.value.refresh else m.posts[n].refreshToken
  {
    var err := m.Refresh(true, first);
    failed := err.Some?;
    if !failed {
      err := m.Refresh(true, second);
    }
  }

  /** A refresh and then a restart from the DB row it wrote: the new manager loads the same file map, selects a token
      that lasts at least as long, and the very same entry if no other usable one lasts as long. */
  method RefreshThenRestart(m: Manager, force: bool, env: Env, writeOk: bool)
    returns (n: Manager, refresh: Option<RefreshError>, load: Option<LoadError>)
    requires m.Loaded() && m.persists && env.persistOk && m.account == ""
    modifies m
    ensures old(m.Grantable(env) && (force || m.entry.expiresAt == 0 || m.DueAt(env.guardDelay))) ==>
              refresh.None? && (Usable(m.fileData) <==> load.None?)
    ensures old(m.Grantable(env) && (force || m.entry.expiresAt == 0 || m.DueAt(env.guardDelay))) && !Blank(m.entry.key) ==>
              && load.None? && n.Loaded() && n.fileData == m.fileData && n.entry.expiresAt >= m.entry.expiresAt
              && (Dominates(m.fileData, m.mapKey) ==> n.mapKey == m.mapKey && n.entry == m.entry)
  {
    refresh := m.Refresh(force, env);
    n := new Manager(m.skew, m.account, m.issuer, m.clientID, m.persists, m.fileWritable, m.now, m.db, m.file);
    load := n.Start(m.db, writeOk);
  }
}
