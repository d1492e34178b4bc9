/** The forwarding handler: bounded body, token, send, retry once on 401, relay, audit. */
module Proxy {
  import opened Common
  import opened Credentials
  import RefreshRules
  import ManagerModel
  import opened StreamTee
  import opened AuditQueue

  const UNAUTHORIZED: int := 401
  const BAD_GATEWAY: int := 502

  datatype Upstreamed =
    | NoConnection
    | Response(status: int, events: seq<Event>, failingWrite: Option<nat>)

  /** The outside of one pass through forward. */
  datatype Pass = Pass(get: ManagerModel.GetEnv, requestOk: bool, upstream: Upstreamed)

  /** The outside of one client request: both passes, and the forced refresh between them. */
  datatype Script = Script(first: Pass, force: RefreshRules.Env, second: Pass)

  datatype ProxyError =
    | BodyUnreadable | NoToken | RequestUnbuildable | SendFailed | RefreshFailed | WriteError | ReadError

  /** A request on the wire to the upstream. */
  datatype Sent = Sent(token: string, body: Bytes)

  /** The gin context: the request body, and the response as it is being written. */
  class Exchange {
    var body: Option<Reader>
    var status: Option<int>   // set last
    var written: bool         // the header is out
    var relayed: Bytes

    constructor (body: Option<Reader>)
      ensures this.body == body && status == None && !written && relayed == []
    {
      this.body := body;
      status, written, relayed := None, false, [];
    }

    /** readLimited consumes what it reads. */
    method ReadBody(max: int) returns (b: Body)
      modifies this`body
      ensures b == ReadLimited(old(body), max)
      ensures old(body).Some? ==> body.Some? && body.value.fails == old(body).value.fails
                                  && Head(old(body).value.content, RequestCap(max) + 1) + body.value.content == old(body).value.content
      ensures old(body).None? ==> body.None?
    {
      b := ReadLimited(body, max);
      if body.Some? {
        var read := |Head(body.value.content, RequestCap(max) + 1)|;
        body := Some(Reader(body.value.content[read..], body.value.fails));
      }
    }

    /** c.JSON and c.AbortWithStatusJSON. */
    method Reply(code: int)
      modifies this`status, this`written
      ensures status == Some(code) && written
    {
      status, written := Some(code), true;
    }
  }

  predicate EndsWell(u: Upstreamed) {
    u.Response? ==> Ends(u.events)
  }

  /** How the relay of this answer ends. */
  function EndOf(u: Upstreamed): Option<ProxyError>
    requires u.Response? && Ends(u.events)
  {
    if WriteFails(u.events, u.failingWrite) then Some(WriteError)
    else if u.events[|u.events| - 1].status == Eof then None
    else Some(ReadError)
  }

  /** The upstream fails before the client has seen a byte: the request gets no answer, or the answer breaks off
      without one (and its status is not the one the client is then given anyway). */
  predicate FailsUnseen(u: Upstreamed)
    requires EndsWell(u)
  {
    u.NoConnection? ||
    (u.status != BAD_GATEWAY && Content(u.events) == [] && u.events[|u.events| - 1].status == Broken)
  }

  function RowFor(u: Upstream, body: Bytes, response: Bytes, cut: bool, status: int, err: Option<ProxyError>): AuditRow {
    var (stored, cutRequest) := ClampForAudit(body, u.maxBody);
    AuditRow("", 0, status, stored, cutRequest, response, cut, err.Some?)
  }

  /** What the row says: the heads of request and answer, flagged exactly if something is missing; the store stamps
      its id and date. */
  predicate Audits(row: AuditRow, request: Bytes, answer: Bytes, max: nat, status: int, failed: bool) {
    && row.requestBody <= request && (row.requestTruncated <==> |request| > max)
    && |row.requestBody| == (if |request| > max then max else |request|)
    && row.responseBody <= answer && (row.responseTruncated <==> |answer| > max)
    && |row.responseBody| == (if |answer| > max then max else |answer|)
    && row.statusCode == status && (row.failed <==> failed) && row.id == "" && row.createdAt == 0
  }

  function Kept(b: Body): Bytes {
    match b
    case Unreadable => []
    case TooLarge(head) => head
    case Whole(content) => content
  }

  class Upstream {
    const maxBody: nat
    const maxRequest: int
    const auditEnabled: bool
    const tokens: ManagerModel.Manager

    var sends: seq<Sent>
    var forced: nat      // ForceRefresh calls
    var rows: seq<AuditRow>  // the rows handed to InsertAuditLog

    constructor (tokens: ManagerModel.Manager, maxBody: int, maxRequest: int, auditEnabled: bool)
      ensures this.tokens == tokens && this.auditEnabled == auditEnabled
      ensures this.maxBody == if maxBody <= 0 then 65536 else maxBody
      ensures this.maxRequest == if maxRequest <= 0 then 10485760 else maxRequest
      ensures sends == [] && forced == 0 && rows == []
      ensures tokens.Loaded() && tokens.skew > 0 && tokens.now > 0 ==> Ready()
    {
      this.tokens, this.auditEnabled := tokens, auditEnabled;
      this.maxBody := if maxBody <= 0 then 65536 else maxBody;
      this.maxRequest := RequestCap(maxRequest);
      sends, forced, rows := [], 0, [];
    }

    predicate Ready()
      reads this, tokens
    {
      tokens.Loaded() && tokens.skew > 0 && tokens.now > 0 && maxBody > 0
    }

    method RecordAudit(body: Bytes, response: Bytes, cut: bool, status: int, err: Option<ProxyError>, ghost answer: Bytes)
      requires maxBody > 0 && AuditCopy(answer, maxBody, auditEnabled, response, cut)
      modifies this`rows
      ensures rows == old(rows) + if auditEnabled then [RowFor(this, body, response, cut, status, err)] else []
      ensures auditEnabled ==> Audits(rows[|old(rows)|], body, answer, maxBody, status, err.Some?)
    {
      if !auditEnabled {
        return;
      }
      rows := rows + [RowFor(this, body, response, cut, status, err)];
    }

    /** The request body as this pass reads it. */
    function Read(c: Exchange): Body
      reads c
    {
      ReadLimited(c.body, maxRequest)
    }

    /** The token can be used as it is, and the request built. */
    predicate Uses(pass: Pass)
      reads this, tokens
    {
      pass.requestOk && !Blank(tokens.entry.key) && !tokens.Due(pass.get.checkDelay)
    }

    /** The token a pass sends: the stored one, or the one its refresh is granted. */
    function TokenFor(pass: Pass): string
      reads this, tokens
    {
      if tokens.Due(pass.get.checkDelay) && tokens.Grantable(pass.get.refresh) then pass.get.refresh.post.body.value.access
      else tokens.entry.key
    }

    /** Read the body and put it back whole for the next pass; too large a one is answered at once. */
    method TakeBody(c: Exchange) returns (body: Body)
      requires maxBody > 0
      modifies this`rows, c`body, c`status, c`written
      ensures body == old(Read(c)) && (body.Whole? ==> Read(c) == body)
      ensures if body.TooLarge? then c.status == Some(413) && c.written else c.status == old(c.status) && c.written == old(c.written)
      ensures old(rows) <= rows && |rows| == |old(rows)| + if body.TooLarge? && auditEnabled then 1 else 0
      ensures |rows| > |old(rows)| ==> Audits(rows[|old(rows)|], body.head, [], maxBody, 413, false)
    {
      ReplayReadsTheSameBody(c.body, maxRequest);
      body := c.ReadBody(maxRequest);
      match body {
        case Unreadable =>
        case TooLarge(head) =>
          c.Reply(413);
          RecordAudit(head, [], false, 413, None, []);
        case Whole(content) =>
          c.body := Some(Reader(content, false));
      }
    }

    /** One pass up to the answer of the upstream: None when the pass is over. */
    method Send(c: Exchange, pass: Pass) returns (err: Option<ProxyError>, answered: bool, content: Bytes)
      requires Ready() && EndsWell(pass.upstream)
      modifies this`sends, this`rows, c, tokens
      ensures Ready() && tokens.mapKey == old(tokens.mapKey) && content == if old(Read(c)).Whole? then old(Read(c)).content else []
      ensures old(Read(c)).Whole? ==> Read(c) == old(Read(c))
      ensures c.relayed == old(c.relayed)
      // what ends the pass
      ensures err == Some(BodyUnreadable) <==> old(Read(c)).Unreadable?
      ensures err == Some(NoToken) <==>
                old(Read(c)).Whole? && (Blank(old(tokens.entry.key)) ||
                  (old(tokens.Due(pass.get.checkDelay)) && !old(tokens.Grantable(pass.get.refresh)) && tokens.now >= old(tokens.entry.expiresAt)))
      ensures err == Some(RequestUnbuildable) ==> !pass.requestOk
      ensures err == Some(SendFailed) ==> pass.upstream.NoConnection?
      ensures err.None? || err.value in {BodyUnreadable, NoToken, RequestUnbuildable, SendFailed}
      ensures answered ==> err.None? && pass.upstream.Response?
      ensures !answered && err.None? <==> old(Read(c)).TooLarge?
      // what goes out carries the whole body, and a token served by the manager
      ensures sends == old(sends) || sends == old(sends) + [Sent(old(TokenFor(pass)), content)]
      ensures |sends| > |old(sends)| <==> old(Read(c)).Whole? && err != Some(NoToken) && pass.requestOk
      ensures |sends| > |old(sends)| <==> answered || err == Some(SendFailed)
      ensures |old(tokens.posts)| <= |tokens.posts| <= |old(tokens.posts)| + 1
      ensures !old(tokens.Due(pass.get.checkDelay)) ==>
                tokens.posts == old(tokens.posts) && tokens.entry == old(tokens.entry) && tokens.tokenEndpoint == old(tokens.tokenEndpoint)
      // what the client and the audit see of it
      ensures if old(Read(c)).TooLarge? then c.status == Some(413) && c.written
              else if err == Some(NoToken) then c.status == Some(503) && c.written
              else c.status == old(c.status) && c.written == old(c.written)
      ensures old(rows) <= rows &&
              |rows| == |old(rows)| + if auditEnabled && !answered && err != Some(BodyUnreadable) && err != Some(RequestUnbuildable)
                                      then 1 else 0
      ensures |rows| > |old(rows)| ==>
                Audits(rows[|old(rows)|], Kept(old(Read(c))), [], maxBody,
                       if old(Read(c)).TooLarge? then 413 else if err == Some(NoToken) then 503 else 0, err.Some?)
    {
      var body := TakeBody(c);
      match body {
        case Unreadable => return Some(BodyUnreadable), false, [];
        case TooLarge(_) => return None, false, [];
        case Whole(bytes) => content := bytes;
      }
      var token := tokens.GetAccessToken(pass.get);
      if token.Refuse? {
        c.Reply(503);
        RecordAudit(content, [], false, 503, Some(NoToken), []);
        return Some(NoToken), false, content;
      }
      if !pass.requestOk {
        return Some(RequestUnbuildable), false, content;
      }
      sends := sends + [Sent(token.token, content)];
      if pass.upstream.NoConnection? {
        RecordAudit(content, [], false, 0, Some(SendFailed), []);
        return Some(SendFailed), false, content;
      }
      return None, true, content;
    }

    /** Relay the answer and record the one row of this request. */
    method Stream(c: Exchange, content: Bytes, up: Upstreamed) returns (err: Option<ProxyError>)
      requires up.Response? && Ends(up.events) && maxBody > 0
      modifies this`rows, c`status, c`written, c`relayed
      ensures c.relayed == Content(up.events[..RelayedEvents(up.events, up.failingWrite)])
      ensures c.status == Some(up.status) && err == EndOf(up)
      ensures !WriteFails(up.events, up.failingWrite) ==> c.relayed == Content(up.events)
      ensures c.written <==> old(c.written) || c.relayed != [] || err == Some(WriteError)
      ensures old(rows) <= rows && |rows| == |old(rows)| + if auditEnabled then 1 else 0
      ensures auditEnabled ==> Audits(rows[|old(rows)|], content, c.relayed, maxBody, up.status, err.Some?)
    {
      c.status := Some(up.status);
      var relayed, copy, cut, wrote, ending := Relay(up.events, up.failingWrite, maxBody, auditEnabled);
      RelayedIsPrefix(up.events, up.failingWrite);
      c.relayed := relayed;
      c.written := c.written || wrote;
      err := match ending case Finished => None case ReadFailed => Some(ReadError) case WriteFailed => Some(WriteError);
      RecordAudit(content, copy, cut, up.status, err, relayed);
    }

    /** The forced refresh after a 401: on success the next token check finds its token, long enough to be
        used as it is if what is left of its lifetime covers the skew. */
    method RefreshForRetry(c: Exchange, content: Bytes, env: RefreshRules.Env) returns (err: Option<ProxyError>)
      requires Ready() && c.status == None && !c.written
      modifies this`rows, this`forced, c`status, c`written, tokens
      ensures Ready() && forced == old(forced) + 1
      ensures |tokens.posts| <= |old(tokens.posts)| + 1
      ensures err == if old(tokens.Grantable(env)) then None else Some(RefreshFailed)
      ensures err.None? ==> c.status == None && !c.written && rows == old(rows)
      ensures err.None? ==> RenewedBy(old(tokens.entry), env.post.body.value, tokens.now, tokens.entry)
      ensures err.Some? ==> c.status == Some(BAD_GATEWAY) && c.written && old(rows) <= rows
                            && |rows| == |old(rows)| + if auditEnabled then 1 else 0
      ensures err.Some? && auditEnabled ==> Audits(rows[|old(rows)|], content, [], maxBody, BAD_GATEWAY, true)
    {
      forced := forced + 1;
      var refresh := tokens.ForceRefresh(env);
      if refresh.Some? {
        c.Reply(BAD_GATEWAY);
        RecordAudit(content, [], false, BAD_GATEWAY, Some(RefreshFailed), []);
        return Some(RefreshFailed);
      }
      return None;
    }

    /** forward. However the outside behaves: at most two sends and one forced refresh, exactly after a first answer
        401, each send carries the client's complete body, an oversized body is never sent, one audit row is emitted
        unless the body cannot be read or the request not built, and at most three token requests are made. */
    method Forward(c: Exchange, script: Script, retried: bool) returns (err: Option<ProxyError>)
      requires c.status == None && !c.written && c.relayed == []
      requires Ready() && EndsWell(script.first.upstream) && EndsWell(script.second.upstream)
      modifies this`sends, this`rows, this`forced, c, tokens
      ensures Ready()
      // the sends
      ensures old(sends) <= sends && |sends| <= |old(sends)| + 1 + forced - old(forced)
      ensures forall n | |old(sends)| <= n < |sends| :: old(Read(c)).Whole? && sends[n].body == old(Read(c)).content
      ensures |sends| > |old(sends)| ==> sends[|old(sends)|].token == old(TokenFor(if retried then script.second else script.first))
      ensures old(Uses(if retried then script.second else script.first)) && old(Read(c)).Whole? ==> |sends| > |old(sends)|
      ensures |tokens.posts| <= |old(tokens.posts)| + if retried then 1 else 3
      ensures retried && !old(tokens.Due(script.second.get.checkDelay)) ==> tokens.posts == old(tokens.posts)
      // the forced refresh, and the second pass
      ensures forced == old(forced) + if !retried && |sends| > |old(sends)| && AnswersWith(script.first.upstream, 401) then 1 else 0
      ensures !retried && old(Read(c)).Whole? && old(Uses(script.first)) && AnswersWith(script.first.upstream, 401) ==>
                if old(tokens.Grantable(script.force))
                then UsedInTime(script) ==>
                       |sends| == |old(sends)| + 2 && sends[|old(sends)| + 1].token == script.force.post.body.value.access
                else err == Some(RefreshFailed)
      ensures err == Some(RefreshFailed) ==> forced > old(forced) && c.status == Some(BAD_GATEWAY)
      ensures |sends| == |old(sends)| + 2 && InTime(script) ==> sends[|old(sends)| + 1].token == script.force.post.body.value.access
      ensures (RefreshRules.Grants(script.force.post) ==> InTime(script)) ==> |tokens.posts| <= |old(tokens.posts)| + 2
      // what the client gets
      ensures err == Some(BodyUnreadable) <==> old(Read(c)).Unreadable?
      ensures old(Read(c)).TooLarge? ==> err.None? && c.status == Some(413)
      ensures Delivered(c, old(Read(c)), if retried || forced > old(forced) then script.second else script.first, err)
      ensures if Unanswered(err) then c.status == None && !c.written
              else c.status.Some? && (c.written <==> !Relayed(err) || !old(Read(c)).Whole? || c.relayed != [] || err == Some(WriteError))
      // the last pass was sent
      ensures |sends| == |old(sends)| + 1 + forced - old(forced) <==>
                old(Read(c)).Whole? && (Relayed(err) || err == Some(SendFailed))
      ensures err == Some(SendFailed) ==>
                (if retried || forced > old(forced) then script.second else script.first).upstream.NoConnection?
      // the audit row
      ensures old(rows) <= rows &&
              |rows| == |old(rows)| + if auditEnabled && err != Some(BodyUnreadable) && err != Some(RequestUnbuildable) then 1 else 0
      ensures |rows| > |old(rows)| ==>
                Audits(rows[|old(rows)|], Kept(old(Read(c))), c.relayed, maxBody, if c.status.Some? then c.status.value else 0, err.Some?)
      decreases if retried then 0 else 2, 1
    {
      var pass := if retried then script.second else script.first;
      var failed, answered, content := Send(c, pass);
      if !answered {
        return failed;
      }
      err := Answer(c, content, script, retried);
    }

    /** The pass that the retry on 401 makes the last one. */
    function LastPass(script: Script, retried: bool): Pass {
      if retried || AnswersWith(script.first.upstream, 401) then script.second else script.first
    }

    /** Once there is an answer: a first 401 is followed by the forced refresh and, if it is granted, by the second
        pass; any other answer is relayed. */
    method Answer(c: Exchange, content: Bytes, script: Script, retried: bool) returns (err: Option<ProxyError>)
      requires c.status == None && !c.written && c.relayed == [] && Read(c) == Whole(content)
      requires Ready() && EndsWell(script.first.upstream) && EndsWell(script.second.upstream)
      requires (if retried then script.second else script.first).upstream.Response?
      modifies this`sends, this`rows, this`forced, c, tokens
      ensures Ready()
      ensures forced == old(forced) + if !retried && AnswersWith(script.first.upstream, 401) then 1 else 0
      ensures forced == old(forced) ==> sends == old(sends) && tokens.posts == old(tokens.posts) && Relayed(err)
      ensures old(sends) <= sends && |sends| <= |old(sends)| + 1
      ensures |sends| > |old(sends)| ==> sends[|old(sends)|].body == content
      ensures |tokens.posts| <= |old(tokens.posts)| + 2
      ensures (RefreshRules.Grants(script.force.post) ==> InTime(script)) ==> |tokens.posts| <= |old(tokens.posts)| + 1
      ensures |sends| > |old(sends)| && InTime(script) ==> sends[|old(sends)|].token == script.force.post.body.value.access
      ensures forced > old(forced) ==>
                if old(tokens.Grantable(script.force)) then UsedInTime(script) ==> |sends| > |old(sends)| else err == Some(RefreshFailed)
      ensures err == Some(RefreshFailed) ==> forced > old(forced) && c.status == Some(BAD_GATEWAY)
      ensures err != Some(BodyUnreadable)
      ensures Delivered(c, Whole(content), LastPass(script, retried), err)
      ensures if Unanswered(err) then c.status == None && !c.written
              else c.status.Some? && (c.written <==> !Relayed(err) || c.relayed != [] || err == Some(WriteError))
      ensures forced > old(forced) ==> (|sends| > |old(sends)| <==> Relayed(err) || err == Some(SendFailed))
      ensures err == Some(SendFailed) ==> LastPass(script, retried).upstream.NoConnection?
      ensures old(rows) <= rows && |rows| == |old(rows)| + if auditEnabled && err != Some(RequestUnbuildable) then 1 else 0
      ensures |rows| > |old(rows)| ==>
                Audits(rows[|old(rows)|], content, c.relayed, maxBody, if c.status.Some? then c.status.value else 0, err.Some?)
      decreases if retried then 0 else 2, 0
    {
      var up := (if retried then script.second else script.first).upstream;
      if up.status == UNAUTHORIZED && !retried {
        err := RefreshForRetry(c, content, script.force);
        if err.None? {
          err := Forward(c, script, true);
        }
        return;
      }
      err := Stream(c, content, up);
    }

    predicate AnswersWith(u: Upstreamed, status: int) {
      u.Response? && u.status == status
    }

    /** What is left of the forced token's lifetime covers the skew when it is used. */
    predicate InTime(script: Script)
      reads this
    {
      script.force.post.Reply? && script.force.post.body.Some? &&
      var seconds := script.force.post.body.value.expiresIn;
      script.second.get.checkDelay + tokens.skew <= if seconds <= 0 then 3_600_000_000_000 else seconds * 1_000_000_000
    }

    /** The second pass can use the forced token, and its request is built. */
    predicate UsedInTime(script: Script)
      reads this
    {
      InTime(script) && !Blank(script.force.post.body.value.access) && script.second.requestOk
    }

    /** The outcomes that leave the answer to the Handler. */
    predicate Unanswered(err: Option<ProxyError>) {
      err == Some(BodyUnreadable) || err == Some(RequestUnbuildable) || err == Some(SendFailed)
    }

    /** The outcomes after which an answer has been relayed, at least in part. */
    predicate Relayed(err: Option<ProxyError>) {
      err == None || err == Some(WriteError) || err == Some(ReadError)
    }

    /** If an answer was relayed, the client has the upstream's status and the chunks up to the stop: all of the
        body unless a write failed. */
    predicate Delivered(c: Exchange, body: Body, last: Pass, err: Option<ProxyError>)
      requires EndsWell(last.upstream)
      reads c
    {
      if Relayed(err) && body.Whole?
      then && last.upstream.Response? && c.status == Some(last.upstream.status) && err == EndOf(last.upstream)
           && c.relayed == Content(last.upstream.events[..RelayedEvents(last.upstream.events, last.upstream.failingWrite)])
           && (err != Some(WriteError) ==> c.relayed == Content(last.upstream.events))
      else c.relayed == []
    }

    /** Handler: a failed forward that wrote nothing becomes a 502, so every request is answered. The audit row has
        another status than the client got exactly if the last pass was sent and failed before the first byte. */
    method Handle(c: Exchange, script: Script) returns (err: Option<ProxyError>)
      requires c.status == None && !c.written && c.relayed == []
      requires Ready() && EndsWell(script.first.upstream) && EndsWell(script.second.upstream)
      modifies this`sends, this`rows, this`forced, c, tokens
      ensures Ready() && c.status.Some?
      ensures old(rows) <= rows &&
              |rows| == |old(rows)| + if auditEnabled && err != Some(BodyUnreadable) && err != Some(RequestUnbuildable) then 1 else 0
      ensures forced == old(forced) + 1 <==> |sends| > |old(sends)| && AnswersWith(script.first.upstream, 401)
      ensures |rows| > |old(rows)| && rows[|rows| - 1].statusCode != c.status.value <==>
                && auditEnabled && |sends| == |old(sends)| + 1 + forced - old(forced)
                && FailsUnseen((if forced > old(forced) then script.second else script.first).upstream)
      ensures |rows| > |old(rows)| && rows[|rows| - 1].statusCode != c.status.value ==>
                && c.status == Some(BAD_GATEWAY) && c.relayed == []
                && var up := (if forced > old(forced) then script.second else script.first).upstream;
                   rows[|rows| - 1].statusCode == if up.NoConnection? then 0 else up.status
      ensures old(Read(c)).Whole? && old(Uses(script.first)) && !AnswersWith(script.first.upstream, 401) ==>
                |sends| == |old(sends)| + 1 && forced == old(forced)
    {
      err := Forward(c, script, false);
      ghost var up := (if forced > old(forced) then script.second else script.first).upstream;
      if up.Response? && WriteFails(up.events, up.failingWrite) {
        ChunkIsContent(up.events, up.failingWrite.value);
      }
      if err.Some? && !c.written {
        c.Reply(BAD_GATEWAY);
      }
    }
  }

  /** Such requests exist: with a usable token, an upstream that fails unseen leaves a row that says 0 or the
      upstream's status, while the client is told 502. */
  method UnseenFailure(u: Upstream, c: Exchange, script: Script)
    requires c.status == None && !c.written && c.relayed == []
    requires u.Ready() && EndsWell(script.first.upstream) && EndsWell(script.second.upstream)
    requires u.auditEnabled && u.Read(c).Whole? && u.Uses(script.first)
    requires FailsUnseen(script.first.upstream) && !u.AnswersWith(script.first.upstream, 401)
    modifies u`sends, u`rows, u`forced, c, u.tokens
    ensures c.status == Some(BAD_GATEWAY) && |u.rows| == |old(u.rows)| + 1
    ensures u.rows[|u.rows| - 1].statusCode == (if script.first.upstream.NoConnection? then 0 else script.first.upstream.status)
  {
    var err := u.Handle(c, script);
  }

  /** What an audit row keeps of a request: its head, flagged exactly if something is missing. */
  lemma StoredRequestIsHead(u: Upstream, body: Bytes, response: Bytes, cut: bool, status: int, err: Option<ProxyError>)
    requires u.maxBody > 0
    ensures var row := RowFor(u, body, response, cut, status, err);
            && row.requestBody <= body && |row.requestBody| <= u.maxBody
            && (row.requestTruncated <==> row.requestBody != body)
            && (row.requestTruncated ==> |row.requestBody| == u.maxBody)
  {
  }
}
