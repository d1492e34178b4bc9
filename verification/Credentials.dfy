/** Credential blocks of auth.json and the decisions auth.go takes on them. */
module Credentials {
  import opened Common

  datatype Entry = Entry(
    key: string,
    authMode: string,
    refreshToken: string,
    expiresAt: Time,
    clientID: string,
    oidcClientID: string,
    issuer: string,
    oidcIssuer: string)

  type FileData = map<string, Entry>

  /** What the token endpoint answers to a granted refresh; "" is an omitted refresh token. */
  datatype Tokens = Tokens(access: string, refresh: string, expiresIn: int)

  /** The white space that strings.TrimSpace removes. */
  predicate IsSpace(c: char) {
    '\t' <= c <= '\r' || c in " \U{85}\U{A0}\U{1680}\U{2028}\U{2029}\U{202F}\U{205F}\U{3000}" ||
    '\U{2000}' <= c <= '\U{200A}'
  }

  predicate Blank(s: string) {
    forall i | 0 <= i < |s| :: IsSpace(s[i])
  }

  /** The code points with the Unicode property White_Space. */
  lemma WhiteSpaceIs(c: char)
    ensures IsSpace(c) <==> var code := c as int;
            9 <= code <= 13 || 8192 <= code <= 8202 || code in {32, 133, 160, 5760, 8232, 8233, 8239, 8287, 12288}
  {
  }

  function TrimLeft(s: string): string {
    if s != "" && IsSpace(s[0]) then TrimLeft(s[1..]) else s
  }

  function TrimRight(s: string): string {
    if s != "" && IsSpace(s[|s| - 1]) then TrimRight(s[..|s| - 1]) else s
  }

  /** Blank is the test `strings.TrimSpace(s) == ""`. */
  lemma {:induction false} BlankIff(s: string)
    ensures Blank(s) <==> TrimRight(TrimLeft(s)) == ""
    decreases |s|
  {
    if s == "" {
    } else if IsSpace(s[0]) {
      BlankIff(s[1..]);
      assert forall i | 0 < i < |s| :: s[i] == s[1..][i - 1];
    } else {
      FirstStays(s);
    }
  }

  lemma {:induction false} FirstStays(s: string)
    requires s != "" && !IsSpace(s[0])
    ensures TrimRight(s) != ""
    decreases |s|
  {
    if IsSpace(s[|s| - 1]) { FirstStays(s[..|s| - 1]); }
  }

  function FirstNonEmpty(a: string, b: string): string {
    if !Blank(a) then a else if !Blank(b) then b else ""
  }

  predicate OccursAt(s: string, sub: string, i: nat) {
    i + |sub| <= |s| && s[i..i + |sub|] == sub
  }

  predicate Contains(s: string, sub: string) {
    exists i | 0 <= i <= |s| :: OccursAt(s, sub, i)
  }

  ghost predicate Includes(s: string, sub: string) {
    exists a, b :: s == a + sub + b
  }

  /** strings.Contains: some part of s is sub. */
  lemma ContainsIff(s: string, sub: string)
    ensures Contains(s, sub) <==> Includes(s, sub)
  {
    if Contains(s, sub) {
      var i :| 0 <= i <= |s| && OccursAt(s, sub, i);
      assert s == s[..i] + sub + s[i + |sub|..];
    }
    if a, b :| s == a + sub + b {
      assert OccursAt(s, sub, |a|);
    }
  }

  /** `f` is `e` after the answer `t`: only the token, the refresh token if one came, and the expiry are new. */
  predicate RenewedBy(e: Entry, t: Tokens, at: Time, f: Entry) {
    && f.key == t.access && f.refreshToken == (if t.refresh == "" then e.refreshToken else t.refresh)
    && f.expiresAt == at + (if t.expiresIn <= 0 then 3_600_000_000_000 else t.expiresIn * 1_000_000_000)
    && f.authMode == e.authMode && f.clientID == e.clientID && f.oidcClientID == e.oidcClientID
    && f.issuer == e.issuer && f.oidcIssuer == e.oidcIssuer
  }

  /** The first of three that is not blank. */
  predicate FirstOf(a: string, b: string, c: string, r: string) {
    && (!Blank(a) ==> r == a) && (Blank(a) && !Blank(b) ==> r == b)
    && (Blank(a) && Blank(b) ==> r == if Blank(c) then "" else c)
  }

  /** GetAccessToken's test: refresh when less than `skew` is left. */
  predicate NeedsRefresh(e: Entry, now: Time, skew: int) {
    e.expiresAt != 0 && now + skew > e.expiresAt
  }

  /** The test under refreshMu: a sibling has refreshed already. */
  predicate FreshEnough(e: Entry, force: bool, now: Time, skew: int) {
    !force && e.expiresAt != 0 && now + skew < e.expiresAt
  }

  /** The proactive ticker's test, with twice the margin. */
  predicate TickSkips(expiresAt: Time, now: Time, skew: int) {
    expiresAt == 0 || now + 2 * skew < expiresAt
  }

  function Lifetime(t: Tokens): int {
    if t.expiresIn > 0 then t.expiresIn * SECOND else HOUR
  }

  /** The refresh token in force after a grant: a provider that does not rotate omits it. */
  function Rotated(spent: string, t: Tokens): string {
    if t.refresh != "" then t.refresh else spent
  }

  function Granted(e: Entry, t: Tokens, now: Time): Entry {
    e.(key := t.access, refreshToken := Rotated(e.refreshToken, t), expiresAt := now + Lifetime(t))
  }

  /** The keys selectEntry may answer with, over all map iteration orders. */
  ghost predicate Selectable(fd: FileData, account: string, k: string) {
    && k in fd
    && if account != "" then k == account || Contains(k, account)
       else !Blank(fd[k].key) && AllWithin(fd, fd[k].expiresAt)
  }

  /** No usable entry of `fd` outlives `bound`. */
  ghost predicate AllWithin(fd: FileData, bound: Time) {
    forall j | j in fd && !Blank(fd[j].key) :: fd[j].expiresAt <= bound
  }

  /** Some entry has a token. */
  ghost predicate Usable(fd: FileData) {
    exists k | k in fd :: !Blank(fd[k].key)
  }

  /** Every usable entry but the one under `k` expires strictly before it. */
  ghost predicate Dominates(fd: FileData, k: string) {
    && k in fd && !Blank(fd[k].key)
    && forall j | j in fd && j != k && !Blank(fd[j].key) :: fd[j].expiresAt < fd[k].expiresAt
  }

  lemma {:induction false} LongestExists(fd: FileData, keys: set<string>, one: string) returns (m: string)
    requires keys <= fd.Keys && one in keys && !Blank(fd[one].key)
    ensures m in keys && !Blank(fd[m].key)
    ensures forall j | j in keys && !Blank(fd[j].key) :: fd[j].expiresAt <= fd[m].expiresAt
    decreases |keys|
  {
    m := one;
    var rest := keys - {one};
    if two :| two in rest && !Blank(fd[two].key) {
      var n := LongestExists(fd, rest, two);
      if fd[n].expiresAt > fd[one].expiresAt { m := n; }
    }
  }

  /** Every restart from fd selects k exactly when k dominates. */
  lemma SelectsOnlyIff(fd: FileData, k: string)
    requires k in fd && !Blank(fd[k].key)
    ensures (forall j | Selectable(fd, "", j) :: j == k) <==> Dominates(fd, k)
  {
    if !Dominates(fd, k) {
      var j :| j in fd && j != k && !Blank(fd[j].key) && fd[j].expiresAt >= fd[k].expiresAt;
      var m := LongestExists(fd, fd.Keys, k);
      assert Selectable(fd, "", m);
      assert m == k ==> Selectable(fd, "", j);
    }
  }

  datatype SelectError = AccountNotFound(account: string) | NoUsableEntry

  /** selectEntry: Go's range over the map is the arbitrary pick from the keys not yet visited. */
  method SelectEntry(fd: FileData, account: string) returns (r: Result<(string, Entry), SelectError>)
    ensures r.Ok? ==> Selectable(fd, account, r.value.0) && r.value.1 == fd[r.value.0]
    ensures r.Err? <==> forall k :: !Selectable(fd, account, k)
    ensures account == "" ==> (r.Ok? <==> Usable(fd))
    // in the entries' own terms
    ensures account != "" ==>
              if r.Ok? then Includes(r.value.0, account) else forall k | k in fd :: !Includes(k, account)
    ensures account == "" && r.Ok? ==>
              !Blank(r.value.1.key) && forall k | k in fd && fd[k].expiresAt > r.value.1.expiresAt :: Blank(fd[k].key)
    ensures r.Err? ==> r.error == if account != "" then AccountNotFound(account) else NoUsableEntry
  {
    var todo := fd.Keys;
    if account != "" {
      while todo != {}
        invariant todo <= fd.Keys
        invariant forall k | k in fd.Keys - todo :: !Selectable(fd, account, k) && !Includes(k, account)
      {
        var k :| k in todo;
        ContainsIff(k, account);
        assert k == account ==> k == "" + account + "";
        if k == account || Contains(k, account) {
          return Ok((k, fd[k]));
        }
        todo := todo - {k};
      }
      return Err(AccountNotFound(account));
    }
    var best: Option<(string, Entry)> := None;
    while todo != {}
      invariant todo <= fd.Keys
      invariant best.None? ==> forall k | k in fd.Keys - todo :: Blank(fd[k].key)
      invariant best.Some? ==> best.value.0 in fd && best.value.1 == fd[best.value.0] && !Blank(best.value.1.key)
      invariant best.Some? ==> forall k | k in fd.Keys - todo && !Blank(fd[k].key) ::
                                 fd[k].expiresAt <= best.value.1.expiresAt
    {
      var k :| k in todo;
      todo := todo - {k};
      if !Blank(fd[k].key) && (best.None? || fd[k].expiresAt > best.value.1.expiresAt) {
        best := Some((k, fd[k]));
      }
    }
    match best
    case Some(found) =>
      assert Selectable(fd, account, found.0);
      return Ok(found);
    case None =>
      return Err(NoUsableEntry);
  }
}
