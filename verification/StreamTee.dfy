/** Bodies: bounded reads, the audit clamp, and the tee that relays an upstream stream. */
module StreamTee {
  import opened Common

  type Bytes = seq<bv8>

  const DEFAULT_MAX_REQUEST_BYTES: int := 10 * 1024 * 1024

  /** A request body: what it yields, and whether it then fails instead of ending. */
  datatype Reader = Reader(content: Bytes, fails: bool)

  datatype Body = Unreadable | TooLarge(head: Bytes) | Whole(content: Bytes)

  function RequestCap(max: int): (cap: nat)
    ensures cap > 0
  {
    if max <= 0 then DEFAULT_MAX_REQUEST_BYTES else max
  }

  /** readLimited, which looks one byte past the limit and no further. */
  function ReadLimited(r: Option<Reader>, max: int): Body {
    if r.None? then Whole([])
    else
      var read := Head(r.value.content, RequestCap(max) + 1);
      if r.value.fails && |read| <= RequestCap(max) then Unreadable
      else if |read| > RequestCap(max) then TooLarge(read[..RequestCap(max)])
      else Whole(read)
  }

  function Head(b: Bytes, n: nat): Bytes {
    if |b| <= n then b else b[..n]
  }

  function ClampForAudit(b: Bytes, max: int): (Bytes, bool) {
    if max > 0 && |b| > max then (b[..max], true) else (b, false)
  }

  /** What is read is never a silently shortened body, and putting it back reads the same again: the second
      forward of a retry sees exactly the bytes the first one saw. */
  lemma ReplayReadsTheSameBody(r: Option<Reader>, max: int)
    ensures var b := ReadLimited(r, max);
            && (b.Whole? ==> b.content == (if r.Some? then r.value.content else []))
            && (b.TooLarge? <==> r.Some? && |r.value.content| > RequestCap(max))
            && (b.Unreadable? <==> r.Some? && r.value.fails && |r.value.content| <= RequestCap(max))
            && (b.Whole? ==> ReadLimited(Some(Reader(b.content, false)), max) == b)
  {
  }

  /** One Read of the upstream body. */
  datatype Status = More | Eof | Broken

  datatype Event = Event(chunk: Bytes, status: Status)

  /** A stream that ends: by EOF or by a read error, possibly together with a last chunk. */
  predicate Ends(events: seq<Event>) {
    events != [] && events[|events| - 1].status != More &&
    forall i | 0 <= i < |events| - 1 :: events[i].status == More
  }

  function Content(events: seq<Event>): Bytes {
    if events == [] then [] else Content(events[..|events| - 1]) + events[|events| - 1].chunk
  }

  lemma {:induction false} ContentGrows(events: seq<Event>, n: nat)
    requires n <= |events|
    ensures Content(events[..n]) <= Content(events)
  {
    if n < |events| {
      var init := events[..|events| - 1];
      assert init[..n] == events[..n];
      ContentGrows(init, n);
    } else {
      assert events[..n] == events;
    }
  }

  datatype Ending = Finished | ReadFailed | WriteFailed

  /** The audit copy of what has been relayed: its first bytes, and whether there was more. */
  predicate AuditCopy(relayed: Bytes, max: nat, enabled: bool, copy: Bytes, truncated: bool) {
    if enabled then copy == Head(relayed, max) && (truncated <==> |relayed| > max) else copy == [] && !truncated
  }

  /** Keep the head of a chunk that has been relayed, as far as the buffer goes. */
  method Retain(ghost relayed: Bytes, copy: Bytes, truncated: bool, chunk: Bytes, max: nat) returns (c: Bytes, t: bool)
    requires AuditCopy(relayed, max, true, copy, truncated) && chunk != [] && max > 0
    ensures AuditCopy(relayed + chunk, max, true, c, t)
  {
    c, t := copy, truncated;
    var remain := max - |copy|;
    if remain > 0 {
      if |chunk| <= remain {
        c := copy + chunk;
      } else {
        c, t := copy + chunk[..remain], true;
      }
    } else {
      t := true;
    }
    assert |copy| < max ==> copy == relayed;
  }

  /** The write that fails, if the stream gets as far as writing that chunk. */
  predicate WriteFails(events: seq<Event>, failingWrite: Option<nat>) {
    failingWrite.Some? && failingWrite.value < |events| && events[failingWrite.value].chunk != []
  }

  function RelayedEvents(events: seq<Event>, failingWrite: Option<nat>): (n: nat)
    ensures n <= |events|
  {
    if WriteFails(events, failingWrite) then failingWrite.value else |events|
  }

  /** The relay loop of forward: for any chunking and any stop point the client gets exactly the chunks
      before the stop, in order, and the audit copy is exactly their first `max` bytes. */
  method Relay(events: seq<Event>, failingWrite: Option<nat>, max: nat, enabled: bool)
    returns (relayed: Bytes, copy: Bytes, truncated: bool, wrote: bool, ending: Ending)
    requires Ends(events) && max > 0
    ensures relayed == Content(events[..RelayedEvents(events, failingWrite)])
    ensures ending == if WriteFails(events, failingWrite) then WriteFailed
                      else if events[|events| - 1].status == Eof then Finished else ReadFailed
    ensures AuditCopy(relayed, max, enabled, copy, truncated)
    ensures wrote <==> relayed != [] || ending == WriteFailed
  {
    relayed, copy, truncated, wrote := [], [], false, false;
    var i := 0;
    while true
      invariant 0 <= i < |events|
      invariant relayed == Content(events[..i])
      invariant AuditCopy(relayed, max, enabled, copy, truncated)
      invariant wrote <==> relayed != []
      invariant WriteFails(events, failingWrite) ==> failingWrite.value >= i
      decreases |events| - i
    {
      var chunk := events[i].chunk;
      assert events[..i + 1][..i] == events[..i];
      if chunk != [] {
        wrote := true;
        if failingWrite == Some(i) {
          ending := WriteFailed;
          return;
        }
        if enabled {
          copy, truncated := Retain(relayed, copy, truncated, chunk, max);
        }
        relayed := relayed + chunk;
      }
      if events[i].status != More {
        ending := if events[i].status == Eof then Finished else ReadFailed;
        return;
      }
      i := i + 1;
    }
  }

  /** Hence the client holds a prefix of the upstream body, and all of it on a clean end. */
  lemma RelayedIsPrefix(events: seq<Event>, failingWrite: Option<nat>)
    ensures Content(events[..RelayedEvents(events, failingWrite)]) <= Content(events)
    ensures !WriteFails(events, failingWrite) ==> Content(events[..RelayedEvents(events, failingWrite)]) == Content(events)
  {
    ContentGrows(events, RelayedEvents(events, failingWrite));
    assert events[..|events|] == events;
  }

  lemma ChunkIsContent(events: seq<Event>, k: nat)
    requires k < |events|
    ensures |events[k].chunk| <= |Content(events)|
  {
    ContentGrows(events, k + 1);
    assert events[..k + 1][k] == events[k];
  }
}
