/** Reading a job's event log: the websocket stream that races a writer, and the paged endpoint. */
module JobStream {
  import opened Common

  datatype Event = Event(sequence: nat, payload: string)

  type Log = seq<Event>

  /** The writer gives each event the next number, starting at 1. */
  ghost predicate Contiguous(log: Log) {
    forall i :: 0 <= i < |log| ==> log[i].sequence == i + 1
  }

  /** list_events: the first `limit` events above `after`, in order. */
  function ListEvents(log: Log, after: nat, limit: nat): (r: seq<Event>)
    ensures |r| <= limit
  {
    if log == [] || limit == 0 then []
    else if log[0].sequence > after then [log[0]] + ListEvents(log[1..], after, limit - 1)
    else ListEvents(log[1..], after, limit)
  }

  function Cut(log: Log, from: nat, to: nat): Log {
    if from <= to <= |log| then log[from..to] else []
  }

  function Min(a: nat, b: nat): nat { if a <= b then a else b }

  /** On a contiguous log the query is a slice. */
  lemma {:induction false} ListIsSlice(log: Log, base: nat, after: nat, limit: nat)
    requires forall i :: 0 <= i < |log| ==> log[i].sequence == base + i + 1
    ensures ListEvents(log, after, limit) == Slice(log, if after <= base then 0 else after - base, limit)
    decreases |log|
  {
    if log != [] && limit > 0 {
      if after <= base {
        ListIsSlice(log[1..], base + 1, after, limit - 1);
        SliceTakes(log, limit);
      } else {
        ListIsSlice(log[1..], base + 1, after, limit);
        SliceSkips(log, after - base, limit);
      }
    }
  }

  /** At most `limit` events from position `from` on. */
  function Slice(log: Log, from: nat, limit: nat): Log {
    Cut(log, from, Min(from + limit, |log|))
  }

  lemma SliceTakes(log: Log, limit: nat)
    requires log != [] && limit > 0
    ensures Slice(log, 0, limit) == [log[0]] + Slice(log[1..], 0, limit - 1)
  {
  }

  lemma SliceSkips(log: Log, from: nat, limit: nat)
    requires log != [] && from > 0
    ensures Slice(log, from, limit) == Slice(log[1..], from - 1, limit)
  {
    var to := Min(from + limit, |log|);
    if from <= to { assert log[from..to] == log[1..][from - 1..to - 1]; }
  }

  // ----- The stream -----

  const BATCH := 200

  /** What one round of the loop meets: the log when it lists, then the job when it asks for it. The
      writer may append before, between and after the two. */
  datatype Round = Round(listed: Log, jobLog: Log, terminal: bool)

  ghost predicate Growing(rounds: seq<Round>) {
    && (forall k :: 0 <= k < |rounds| ==> Contiguous(rounds[k].jobLog) && rounds[k].listed <= rounds[k].jobLog)
    && (forall k :: 1 <= k < |rounds| ==> rounds[k - 1].jobLog <= rounds[k].listed)
  }

  datatype Ending = Closed | Disconnected | StillOpen

  /** Where the cursor stands after n complete rounds: each moves it by at most a batch, up to the log. */
  function CursorAfter(rounds: seq<Round>, after: nat, n: nat): (c: nat)
    requires n <= |rounds|
    ensures c >= after
  {
    if n == 0 then after
    else
      var c := CursorAfter(rounds, after, n - 1);
      c + |ListEvents(rounds[n - 1].listed, c, BATCH)|
  }

  /** The loop ends in round k: the job is terminal and the cursor has its whole log. */
  predicate ClosesAt(rounds: seq<Round>, after: nat, k: nat)
    requires k < |rounds|
  {
    rounds[k].terminal && CursorAfter(rounds, after, k + 1) >= |rounds[k].jobLog|
  }

  /** None of the first n rounds ended the loop. */
  predicate OpenThrough(rounds: seq<Round>, after: nat, n: nat)
    requires n <= |rounds|
  {
    n == 0 || (OpenThrough(rounds, after, n - 1) && !ClosesAt(rounds, after, n - 1))
  }

  /** List once and send the batch; a disconnect strikes at the send after `sends` frames in all. */
  method StreamRound(round: Round, ghost known: Log, sent: seq<Event>, after: nat, cursor: nat, sends: Option<nat>)
    returns (frames: seq<Event>, next: nat, lost: bool)
    requires Contiguous(round.jobLog) && known <= round.listed <= round.jobLog && Sent(known, sent, after, cursor)
    ensures Sent(round.jobLog, frames, after, next)
    ensures if lost then sends == Some(|frames|) else next == cursor + |ListEvents(round.listed, cursor, BATCH)|
  {
    assert Contiguous(round.listed);
    BatchFollowsOn(round.listed, cursor);
    var events := ListEvents(round.listed, cursor, BATCH);
    frames, next := sent, cursor;
    assert events[..0] == [] && sent + [] == sent;
    for i := 0 to |events|
      invariant frames == sent + events[..i] && next == cursor + i
    {
      if sends == Some(|frames|) {
        SentGrows(known, round.listed, round.jobLog, sent, after, cursor, events, i);
        return frames, next, true;
      }
      frames := frames + [events[i]];
      next := events[i].sequence;
    }
    SentGrows(known, round.listed, round.jobLog, sent, after, cursor, events, |events|);
    lost := false;
  }

  /** The loop of stream_knowledge_job over the rounds it gets. The job's latest sequence is the length
      of its log. However it ends, what was sent is the log from `after` to the cursor, without a gap or
      a repeat, and it closes in the first round it can. */
  method StreamJob(rounds: seq<Round>, after: nat, sends: Option<nat>)
    returns (frames: seq<Event>, cursor: nat, ending: Ending, used: nat)
    requires Growing(rounds)
    ensures used <= |rounds| && (used > 0 ==> frames == Cut(rounds[used - 1].jobLog, after, cursor))
    ensures cursor == after + |frames|
    ensures ending == Closed ==>
              used > 0 && rounds[used - 1].terminal && cursor >= |rounds[used - 1].jobLog|
              && OpenThrough(rounds, after, used - 1)
    ensures ending == StillOpen ==> used == |rounds| && OpenThrough(rounds, after, used)
    ensures ending == Disconnected ==> sends == Some(|frames|)
    ensures ending != Disconnected ==> cursor == CursorAfter(rounds, after, used)
  {
    cursor, frames, used := after, [], 0;
    ghost var known: Log := [];
    while used < |rounds|
      invariant used <= |rounds| && (used > 0 ==> known == rounds[used - 1].jobLog)
      invariant used < |rounds| ==> known <= rounds[used].listed
      invariant Sent(known, frames, after, cursor)
      invariant cursor == CursorAfter(rounds, after, used)
      invariant OpenThrough(rounds, after, used)
    {
      var round := rounds[used];
      var lost;
      frames, cursor, lost := StreamRound(round, known, frames, after, cursor, sends);
      known := round.jobLog;
      used := used + 1;
      if lost {
        ending := Disconnected;
        return;
      }
      if round.terminal && cursor >= |round.jobLog| {
        ending := Closed;
        return;
      }
    }
    ending := StillOpen;
  }

  /** The frames are the known log from `after` to the cursor. */
  ghost predicate Sent(log: Log, frames: seq<Event>, after: nat, cursor: nat) {
    frames == Cut(log, after, cursor) && cursor == after + |frames|
  }

  /** A batch is the next stretch of the log, so its numbers follow on from the cursor. */
  lemma BatchFollowsOn(listed: Log, cursor: nat)
    requires Contiguous(listed)
    ensures var batch := ListEvents(listed, cursor, BATCH);
      && batch == Cut(listed, cursor, cursor + |batch|)
      && forall i :: 0 <= i < |batch| ==> batch[i].sequence == cursor + i + 1
  {
    ListIsSlice(listed, 0, cursor, BATCH);
  }

  lemma SentGrows(known: Log, listed: Log, jobLog: Log, sent: seq<Event>, after: nat, cursor: nat, batch: Log, n: nat)
    requires known <= listed <= jobLog && Sent(known, sent, after, cursor)
    requires batch == Cut(listed, cursor, cursor + |batch|) && n <= |batch|
    ensures Sent(jobLog, sent + batch[..n], after, cursor + n)
  {
    if sent != [] { assert sent == jobLog[after..cursor]; }
    if n > 0 {
      assert batch[..n] == jobLog[cursor..cursor + n];
    } else {
      assert sent + batch[..n] == sent;
    }
  }

  lemma CutJoin(log: Log, a: nat, b: nat, c: nat)
    requires a <= b <= c <= |log|
    ensures Cut(log, a, b) + Cut(log, b, c) == Cut(log, a, c)
  {
  }

  // ----- When the log stops growing -----

  function CeilDiv(a: nat, b: nat): nat
    requires b > 0
  {
    (a + b - 1) / b
  }

  /** Rounds that all see the finished log of a terminal job. */
  ghost predicate Settled(rounds: seq<Round>, log: Log) {
    forall k :: 0 <= k < |rounds| ==> rounds[k] == Round(log, log, true)
  }

  lemma {:induction false} CursorWhenSettled(rounds: seq<Round>, log: Log, after: nat, n: nat)
    requires Contiguous(log) && Settled(rounds, log) && n <= |rounds|
    ensures CursorAfter(rounds, after, n) == if after >= |log| then after else Min(after + BATCH * n, |log|)
  {
    if n > 0 {
      CursorWhenSettled(rounds, log, after, n - 1);
      ListIsSlice(log, 0, CursorAfter(rounds, after, n - 1), BATCH);
    }
  }

  /** Once the log stops growing and the job is terminal, the loop closes in exactly round
      max(1, ceil(remaining / 200)), not earlier and not later. */
  lemma ClosesInTime(rounds: seq<Round>, log: Log, after: nat, k: nat)
    requires Contiguous(log) && Settled(rounds, log) && k < |rounds|
    ensures var remaining := if after >= |log| then 0 else |log| - after;
      var needed := if remaining == 0 then 1 else CeilDiv(remaining, 200);
      ClosesAt(rounds, after, k) <==> k + 1 >= needed
  {
    CursorWhenSettled(rounds, log, after, k + 1);
  }

  // ----- Paging -----

  datatype Page = Page(items: seq<Event>, nextCursor: nat, hasMore: bool)

  /** get_knowledge_job_events: ask for one more than the limit to learn whether there is more. */
  function GetPage(log: Log, after: nat, limit: nat): Page {
    var events := ListEvents(log, after, limit + 1);
    var visible := if |events| > limit then events[..limit] else events;
    Page(visible, if visible != [] then visible[|visible| - 1].sequence else after, |events| > limit)
  }

  lemma PageIsSlice(log: Log, after: nat, limit: nat)
    requires Contiguous(log) && limit >= 1
    ensures var page := GetPage(log, after, limit);
      && page.items == Slice(log, after, limit)
      && (page.hasMore <==> after + limit < |log|)
      && page.nextCursor == after + |page.items|
  {
    ListIsSlice(log, 0, after, limit + 1);
    if after + limit < |log| {
      assert log[after..after + limit + 1][..limit] == log[after..after + limit];
    }
  }

  /** A client that follows next_cursor while has_more gets exactly what the stream sends. */
  method ReadAllPages(log: Log, after: nat, limit: nat) returns (items: seq<Event>)
    requires Contiguous(log) && limit >= 1
    ensures items == Cut(log, after, |log|)
  {
    items := [];
    var cursor := after;
    while true
      invariant after <= cursor && (cursor > after ==> cursor < |log|)
      invariant items == Cut(log, after, cursor)
      decreases |log| + 1 - cursor
    {
      PageIsSlice(log, cursor, limit);
      PageExtends(log, after, cursor, limit);
      var page := GetPage(log, cursor, limit);
      items := items + page.items;
      if !page.hasMore { return; }
      cursor := page.nextCursor;
    }
  }

  lemma PageExtends(log: Log, after: nat, cursor: nat, limit: nat)
    requires after <= cursor && (cursor > after ==> cursor < |log|)
    ensures Cut(log, after, cursor) + Slice(log, cursor, limit) == Cut(log, after, Min(cursor + limit, |log|))
    ensures cursor + limit < |log| ==> |Slice(log, cursor, limit)| == limit
  {
    if cursor <= |log| { CutJoin(log, after, cursor, Min(cursor + limit, |log|)); }
  }
}
