/**
 The form-submission queue: responseHasPendingAttachment and drainFormsQueue of
 apps/portal-web/public/sw.js:1052-1159. A submission is claimed before it is sent; the server upserts,
 so one that was sent twice arrives once.
 */
module FormsDrain {
  import opened JsonValues
  import opened Prelude
  import QueueRules

  datatype SubmissionStatus = Queued | Failed | Sending | Sent | OtherStatus(name: string)

  /** `swAttemptAt` is None when it is absent or no date. */
  datatype Submission = Submission(
    clientId: string, formId: string, response: Json, capturedAt: int,
    status: SubmissionStatus, swAttemptAt: Option<int>, attempts: nat, lastError: string)

  datatype PostReply = Posted(ok: bool, status: int, reason: string) | PostFailed

  type FormServer = Submission -> PostReply

  // ---------------------------------------------------------------- attachments still on the device

  predicate HasString(entries: seq<Entry>, name: string) {
    Lookup(entries, name).Some? && Lookup(entries, name).value.Str?
  }

  /** `{ dataUrl: '...' }` without a url. */
  predicate IsPendingFile(j: Json) {
    j.Obj? && HasString(j.entries, "dataUrl") && !HasString(j.entries, "url")
  }

  predicate HasPendingAttachment(j: Json) {
    IsPendingFile(j)
    || (j.Arr? && exists k :: 0 <= k < |j.items| && HasPendingAttachment(j.items[k]))
    || (j.Obj? && exists k :: 0 <= k < |j.entries| && HasPendingAttachment(j.entries[k].value))
  }

  /** Every value inside `j`, `j` included. */
  function Nodes(j: Json): seq<Json>
    decreases j, 0
  {
    match j
    case Arr(items) => [j] + ItemNodes(items)
    case Obj(entries) => [j] + EntryNodes(entries)
    case _ => [j]
  }

  function ItemNodes(items: seq<Json>): seq<Json>
    decreases items
  {
    if items == [] then [] else Nodes(items[0]) + ItemNodes(items[1..])
  }

  function EntryNodes(entries: seq<Entry>): seq<Json>
    decreases entries
  {
    if entries == [] then [] else Nodes(entries[0].value) + EntryNodes(entries[1..])
  }

  predicate AnyPending(nodes: seq<Json>) {
    exists k :: 0 <= k < |nodes| && IsPendingFile(nodes[k])
  }

  lemma AnyPendingConcat(a: seq<Json>, b: seq<Json>)
    ensures AnyPending(a + b) <==> AnyPending(a) || AnyPending(b)
  {
    hide IsPendingFile;
    if AnyPending(a) {
      var k :| 0 <= k < |a| && IsPendingFile(a[k]);
      assert (a + b)[k] == a[k];
    }
    if AnyPending(b) {
      var k :| 0 <= k < |b| && IsPendingFile(b[k]);
      assert (a + b)[|a| + k] == b[k];
    }
  }

  /** The search finds a pending file exactly when there is one at some depth. */
  lemma {:induction false} PendingIsFoundAtAnyDepth(j: Json)
    ensures HasPendingAttachment(j) <==> AnyPending(Nodes(j))
    decreases j, 0
  {
    hide IsPendingFile;
    assert AnyPending([j]) <==> IsPendingFile(j) by {
      assert [j][0] == j;
    }
    match j {
      case Arr(items) =>
        PendingItems(items);
        AnyPendingConcat([j], ItemNodes(items));
      case Obj(entries) =>
        PendingEntries(entries);
        AnyPendingConcat([j], EntryNodes(entries));
      case _ =>
    }
  }

  lemma {:induction false} PendingItems(items: seq<Json>)
    ensures AnyPending(ItemNodes(items)) <==> exists k :: 0 <= k < |items| && HasPendingAttachment(items[k])
    decreases items
  {
    hide HasPendingAttachment, IsPendingFile;
    if items != [] {
      PendingIsFoundAtAnyDepth(items[0]);
      PendingItems(items[1..]);
      AnyPendingConcat(Nodes(items[0]), ItemNodes(items[1..]));
      assert forall k :: 0 < k < |items| ==> items[k] == items[1..][k - 1];
    }
  }

  lemma {:induction false} PendingEntries(entries: seq<Entry>)
    ensures AnyPending(EntryNodes(entries)) <==> exists k :: 0 <= k < |entries| && HasPendingAttachment(entries[k].value)
    decreases entries
  {
    hide HasPendingAttachment, IsPendingFile;
    if entries != [] {
      PendingIsFoundAtAnyDepth(entries[0].value);
      PendingEntries(entries[1..]);
      AnyPendingConcat(Nodes(entries[0].value), EntryNodes(entries[1..]));
      assert forall k :: 0 < k < |entries| ==> entries[k] == entries[1..][k - 1];
    }
  }

  // ---------------------------------------------------------------- one submission

  predicate CanClaim(s: Submission, now: int) {
    s.status.Queued? || s.status.Failed?
    || (s.status.Sending? && (s.swAttemptAt.None? || now - s.swAttemptAt.value >= QueueRules.CLAIM_STALE_MS))
  }

  function Claimed(s: Submission, stamp: int): Submission {
    s.(status := Sending, swAttemptAt := Some(stamp))
  }

  /** What the answer makes of the claimed row; `listed` is the row as the drain first read it. */
  function Settled(listed: Submission, claimed: Submission, reply: PostReply): Submission {
    match reply
    case PostFailed => claimed.(status := if listed.status.Failed? then Failed else Queued)
    case Posted(ok, status, reason) =>
      if ok || status == 409 then claimed.(status := Sent)
      else claimed.(status := Failed, lastError := reason, attempts := listed.attempts + 1)
  }

  predicate IsAttempted(s: Submission, now: int) {
    CanClaim(s, now) && !HasPendingAttachment(s.response)
  }

  function AfterDrain(s: Submission, now: int, server: FormServer, clock: string -> int): Submission {
    if IsAttempted(s, now) then Settled(s, Claimed(s, clock(s.clientId)), server(s)) else s
  }

  predicate ByCapture(rows: seq<Submission>) {
    forall i, j :: 0 <= i < j < |rows| ==> rows[i].capturedAt <= rows[j].capturedAt
  }

  predicate DistinctClients(rows: seq<Submission>) {
    forall i, j :: 0 <= i < j < |rows| ==> rows[i].clientId != rows[j].clientId
  }

  predicate IsStore(rows: map<string, Submission>) {
    forall id :: id in rows ==> rows[id].clientId == id
  }

  class FormsDb {
    var rows: map<string, Submission>

    /** claimRow with this queue's predicate. */
    method ClaimRow(id: string, now: int, stamp: int) returns (claimed: Option<Submission>)
      modifies this
      ensures claimed.Some? <==> id in old(rows) && CanClaim(old(rows)[id], now)
      ensures claimed.Some? ==> claimed.value == Claimed(old(rows)[id], stamp)
      ensures rows == if claimed.Some? then old(rows)[id := claimed.value] else old(rows)
    {
      claimed := None;
      if id in rows && CanClaim(rows[id], now) {
        claimed := Some(Claimed(rows[id], stamp));
        rows := rows[id := claimed.value];
      }
    }

    /** The claimable rows in capture order. */
    method ListTodo(now: int) returns (todo: seq<Submission>)
      requires IsStore(rows)
      ensures forall s :: s in todo <==> s.clientId in rows && rows[s.clientId] == s && CanClaim(s, now)
      ensures ByCapture(todo) && DistinctClients(todo)
    {
      todo := [];
      var left := rows.Keys;
      while left != {}
        invariant left <= rows.Keys
        invariant forall s :: s in todo <==> s.clientId in rows.Keys - left && rows[s.clientId] == s && CanClaim(s, now)
        invariant ByCapture(todo) && DistinctClients(todo)
        decreases left
      {
        hide CanClaim;
        var id :| id in left;
        left := left - {id};
        if CanClaim(rows[id], now) {
          var at := Place(todo, rows[id]);
          InsertedAt(todo, rows[id], at);
          todo := todo[..at] + [rows[id]] + todo[at..];
        }
      }
    }

    /** One submission of the work list. */
    method DrainOne(row: Submission, now: int, stamp: int, server: FormServer) returns (retry: bool)
      requires row.clientId in rows && rows[row.clientId] == row && CanClaim(row, now)
      modifies this
      ensures rows == old(rows)[row.clientId := AfterDrain(row, now, server, _ => stamp)]
      ensures retry <==> IsAttempted(row, now) && server(row).PostFailed?
    {
      hide HasPendingAttachment, CanClaim;
      retry := false;
      if HasPendingAttachment(row.response) {
        assert rows == rows[row.clientId := row];
        return;
      }
      var claimed := ClaimRow(row.clientId, now, stamp);
      var reply := server(row);
      match reply {
        case Posted(ok, status, reason) =>
          if ok || status == 409 {
            rows := rows[row.clientId := claimed.value.(status := Sent)];
          } else {
            rows := rows[row.clientId := claimed.value.(status := Failed, lastError := reason, attempts := row.attempts + 1)];
          }
        case PostFailed =>
          rows := rows[row.clientId := claimed.value.(status := if row.status == Failed then Failed else Queued)];
          retry := true;
      }
    }

    /** drainFormsQueue. Each claimable submission without a pending file is posted once, in capture
        order; every other row stays as it is. */
    method DrainFormsQueue(now: int, server: FormServer, clock: string -> int) returns (retry: bool, posted: seq<Submission>)
      requires IsStore(rows)
      modifies this
      ensures IsStore(rows) && rows.Keys == old(rows).Keys
      ensures forall id :: id in rows ==> rows[id] == AfterDrain(old(rows)[id], now, server, clock)
      ensures forall s :: s in posted <==> s.clientId in old(rows) && old(rows)[s.clientId] == s && IsAttempted(s, now)
      ensures ByCapture(posted) && DistinctClients(posted)
      ensures retry <==> exists s :: s in posted && server(s).PostFailed?
    {
      ghost var start := rows;
      var todo := ListTodo(now);
      retry, posted := false, [];
      for n := 0 to |todo|
        invariant Progress(start, rows, todo, n, now, server, clock)
        invariant forall s :: s in posted <==> s in todo[..n] && IsAttempted(s, now)
        invariant ByCapture(posted) && DistinctClients(posted)
        invariant retry <==> exists s :: s in posted && server(s).PostFailed?
      {
        hide *;
        var row := todo[n];
        NextUntouched(start, rows, todo, n, now, server, clock);
        ghost var before := rows;
        var failed := DrainOne(row, now, clock(row.clientId), server);
        AttemptedIsClaimable(row, now);
        SameSettling(row, now, server, clock);
        ProgressOne(start, before, rows, todo, n, now, server, clock);
        assert todo[..n + 1] == todo[..n] + [row];
        if !HasPendingAttachment(row.response) {
          PostedNext(todo, n, posted, now);
          posted := posted + [row];
        }
        retry := retry || failed;
      }
      AllDone(start, rows, todo, now, server, clock);
      assert todo[..|todo|] == todo;
    }
  }

  method Place(sorted: seq<Submission>, s: Submission) returns (at: nat)
    requires ByCapture(sorted)
    ensures at <= |sorted|
    ensures forall k :: 0 <= k < at ==> sorted[k].capturedAt <= s.capturedAt
    ensures forall k :: at <= k < |sorted| ==> s.capturedAt <= sorted[k].capturedAt
  {
    at := |sorted|;
    while at > 0 && s.capturedAt < sorted[at - 1].capturedAt
      invariant at <= |sorted|
      invariant forall k :: at <= k < |sorted| ==> s.capturedAt <= sorted[k].capturedAt
    {
      at := at - 1;
    }
  }

  lemma InsertedAt(sorted: seq<Submission>, s: Submission, at: nat)
    requires ByCapture(sorted) && DistinctClients(sorted) && at <= |sorted|
    requires forall k :: 0 <= k < |sorted| ==> sorted[k].clientId != s.clientId
    requires forall k :: 0 <= k < at ==> sorted[k].capturedAt <= s.capturedAt
    requires forall k :: at <= k < |sorted| ==> s.capturedAt <= sorted[k].capturedAt
    ensures ByCapture(sorted[..at] + [s] + sorted[at..]) && DistinctClients(sorted[..at] + [s] + sorted[at..])
    ensures forall x :: x in sorted[..at] + [s] + sorted[at..] <==> x in sorted || x == s
  {
    InsertedInOrder(sorted, s, at);
    assert sorted == sorted[..at] + sorted[at..];
    hide ByCapture, DistinctClients;
  }

  lemma InsertedInOrder(sorted: seq<Submission>, s: Submission, at: nat)
    requires ByCapture(sorted) && DistinctClients(sorted) && at <= |sorted|
    requires forall k :: 0 <= k < |sorted| ==> sorted[k].clientId != s.clientId
    requires forall k :: 0 <= k < at ==> sorted[k].capturedAt <= s.capturedAt
    requires forall k :: at <= k < |sorted| ==> s.capturedAt <= sorted[k].capturedAt
    ensures ByCapture(sorted[..at] + [s] + sorted[at..]) && DistinctClients(sorted[..at] + [s] + sorted[at..])
  {
  }

  // ---------------------------------------------------------------- the loop's bookkeeping

  /** The first n listed rows are settled; all other rows are as they were. */
  ghost predicate Progress(start: map<string, Submission>, rows: map<string, Submission>, todo: seq<Submission>, n: nat,
                           now: int, server: FormServer, clock: string -> int)
    requires n <= |todo|
  {
    && rows.Keys == start.Keys && IsStore(start) && DistinctClients(todo)
    && (forall s :: s in todo <==> s.clientId in start && start[s.clientId] == s && CanClaim(s, now))
    && (forall k :: 0 <= k < n && todo[k].clientId in rows ==> rows[todo[k].clientId] == AfterDrain(todo[k], now, server, clock))
    && (forall id :: id in rows && (forall k :: 0 <= k < n ==> todo[k].clientId != id) ==> rows[id] == start[id])
  }

  lemma NextUntouched(start: map<string, Submission>, rows: map<string, Submission>, todo: seq<Submission>, n: nat,
                      now: int, server: FormServer, clock: string -> int)
    requires n < |todo| && Progress(start, rows, todo, n, now, server, clock)
    ensures todo[n].clientId in rows && rows[todo[n].clientId] == todo[n] && CanClaim(todo[n], now)
  {
    hide AfterDrain, CanClaim;
    assert todo[n] in todo;
  }

  lemma ProgressOne(start: map<string, Submission>, before: map<string, Submission>, rows: map<string, Submission>, todo: seq<Submission>,
                    n: nat, now: int, server: FormServer, clock: string -> int)
    requires n < |todo| && Progress(start, before, todo, n, now, server, clock) && todo[n].clientId in before
    requires rows == before[todo[n].clientId := AfterDrain(todo[n], now, server, clock)]
    ensures Progress(start, rows, todo, n + 1, now, server, clock)
  {
    hide AfterDrain, CanClaim;
  }

  lemma AttemptedIsClaimable(s: Submission, now: int)
    requires CanClaim(s, now)
    ensures IsAttempted(s, now) <==> !HasPendingAttachment(s.response)
  {
  }

  lemma SameSettling(s: Submission, now: int, server: FormServer, clock: string -> int)
    ensures AfterDrain(s, now, server, _ => clock(s.clientId)) == AfterDrain(s, now, server, clock)
  {
  }

  lemma PostedNext(todo: seq<Submission>, n: nat, posted: seq<Submission>, now: int)
    requires n < |todo| && ByCapture(todo) && DistinctClients(todo) && ByCapture(posted) && DistinctClients(posted)
    requires forall s :: s in posted <==> s in todo[..n] && IsAttempted(s, now)
    ensures ByCapture(posted + [todo[n]]) && DistinctClients(posted + [todo[n]])
  {
    hide IsAttempted;
    forall k | 0 <= k < |posted| ensures posted[k].capturedAt <= todo[n].capturedAt && posted[k].clientId != todo[n].clientId {
      assert posted[k] in todo[..n];
      var i :| 0 <= i < n && todo[i] == posted[k];
    }
  }

  lemma AllDone(start: map<string, Submission>, rows: map<string, Submission>, todo: seq<Submission>,
                now: int, server: FormServer, clock: string -> int)
    requires Progress(start, rows, todo, |todo|, now, server, clock)
    ensures IsStore(rows) && rows.Keys == start.Keys
    ensures forall id :: id in rows ==> rows[id] == AfterDrain(start[id], now, server, clock)
    ensures forall s :: s in todo && IsAttempted(s, now) <==> s.clientId in start && start[s.clientId] == s && IsAttempted(s, now)
  {
    hide HasPendingAttachment;
    forall id | id in rows ensures rows[id] == AfterDrain(start[id], now, server, clock) && rows[id].clientId == id {
      if start[id] in todo {
        var k :| 0 <= k < |todo| && todo[k] == start[id];
      } else {
        forall k | 0 <= k < |todo| ensures todo[k].clientId != id {
          assert todo[k] in todo;
        }
        assert !CanClaim(start[id], now);
      }
    }
  }

  // ---------------------------------------------------------------- over many drains

  /** A drain's parameters: when it starts, what the server answers, when it claims. */
  datatype Drain = Drain(now: int, server: FormServer, clock: string -> int)

  function AfterDrains(s: Submission, drains: seq<Drain>): Submission
    decreases |drains|
  {
    if drains == [] then s else AfterDrains(AfterDrain(s, drains[0].now, drains[0].server, drains[0].clock), drains[1..])
  }

  predicate SameSubmission(a: Submission, b: Submission) {
    a.clientId == b.clientId && a.formId == b.formId && a.response == b.response && a.capturedAt == b.capturedAt
  }

  /** Whatever the server answers, drains never change what the user submitted, and a sent row is never
      sent again. */
  lemma {:induction false} DrainsKeepTheSubmission(s: Submission, drains: seq<Drain>)
    ensures SameSubmission(AfterDrains(s, drains), s)
    ensures s.status.Sent? ==> AfterDrains(s, drains) == s
    ensures s.attempts <= AfterDrains(s, drains).attempts
    decreases |drains|
  {
    hide HasPendingAttachment;
    if drains != [] {
      DrainsKeepTheSubmission(AfterDrain(s, drains[0].now, drains[0].server, drains[0].clock), drains[1..]);
    }
  }

  predicate Accepts(server: FormServer, s: Submission) {
    server(s).Posted? && (server(s).ok || server(s).status == 409)
  }

  /** After one drain a submission is marked sent exactly when it was already, or when it was claimable,
      had no pending file and the server took it. */
  lemma SentIffAccepted(s: Submission, now: int, server: FormServer, clock: string -> int)
    ensures AfterDrain(s, now, server, clock).status.Sent? <==>
            s.status.Sent? || (IsAttempted(s, now) && Accepts(server, s))
  {
    hide HasPendingAttachment;
  }

  predicate IsOurs(s: Submission) {
    !s.status.OtherStatus?
  }

  /** No submission is ever stuck: one claim window after a drain, any that is not sent can be claimed
      again, even if the drain died right after its claim. */
  lemma UnsentBecomesClaimable(s: Submission, stamp: int, now: int)
    requires IsOurs(s) && !s.status.Sent? && (s.swAttemptAt.Some? ==> s.swAttemptAt.value <= stamp) && now >= stamp + QueueRules.CLAIM_STALE_MS
    ensures CanClaim(s, now) && CanClaim(Claimed(s, stamp), now)
    ensures !CanClaim(Claimed(s, stamp), stamp + QueueRules.CLAIM_STALE_MS - 1)
  {
  }

  // ---------------------------------------------------------------- what a drain writes

  /** A drain attempts the submissions waiting or failed, and one found sending only when its claim has no
      date or is two minutes old; none of them while a file is still on the device. */
  lemma AttemptMeans(s: Submission, now: int)
    ensures CanClaim(s, now) ==> !s.status.Sent? && !s.status.OtherStatus?
    ensures s.status.Queued? || s.status.Failed? ==> CanClaim(s, now)
    ensures s.status.Sending? && s.swAttemptAt.None? ==> CanClaim(s, now)
    ensures s.status.Sending? && s.swAttemptAt.Some? ==> (CanClaim(s, now) <==> now >= s.swAttemptAt.value + 120000)
    ensures IsAttempted(s, now) <==> CanClaim(s, now) && !AnyPending(Nodes(s.response))
  {
    PendingIsFoundAtAnyDepth(s.response);
    hide HasPendingAttachment, AnyPending, Nodes;
  }

  /** The row a drain leaves, for every answer. */
  lemma SettlementMeans(s: Submission, now: int, server: FormServer, clock: string -> int)
    ensures !IsAttempted(s, now) ==> AfterDrain(s, now, server, clock) == s
    ensures IsAttempted(s, now) && server(s).PostFailed? ==>
              AfterDrain(s, now, server, clock)
              == Submission(s.clientId, s.formId, s.response, s.capturedAt, if s.status == Failed then Failed else Queued,
                            Some(clock(s.clientId)), s.attempts, s.lastError)
    ensures IsAttempted(s, now) && server(s).Posted? && (server(s).ok || server(s).status == 409) ==>
              AfterDrain(s, now, server, clock)
              == Submission(s.clientId, s.formId, s.response, s.capturedAt, Sent, Some(clock(s.clientId)), s.attempts, s.lastError)
    ensures IsAttempted(s, now) && server(s).Posted? && !server(s).ok && server(s).status != 409 ==>
              AfterDrain(s, now, server, clock)
              == Submission(s.clientId, s.formId, s.response, s.capturedAt, Failed, Some(clock(s.clientId)), s.attempts + 1, server(s).reason)
  {
    hide IsAttempted;
  }

  predicate FirstEntryIs(entries: seq<Entry>, name: string, k: nat) {
    k < |entries| && entries[k].key == name && forall n :: 0 <= n < k ==> entries[n].key != name
  }

  lemma {:induction false} LookupMeans(entries: seq<Entry>, name: string, k: nat)
    requires FirstEntryIs(entries, name, k)
    ensures Lookup(entries, name) == Some(entries[k].value)
  {
    if k > 0 {
      assert forall n :: 0 <= n < k - 1 ==> entries[1..][n] == entries[n + 1];
      LookupMeans(entries[1..], name, k - 1);
    }
  }

  lemma {:induction false} LookupMisses(entries: seq<Entry>, name: string)
    ensures Lookup(entries, name).None? <==> forall n :: 0 <= n < |entries| ==> entries[n].key != name
  {
    if entries != [] {
      LookupMisses(entries[1..], name);
      assert forall n :: 0 < n < |entries| ==> entries[n] == entries[1..][n - 1];
    }
  }

  ghost predicate TextEntry(entries: seq<Entry>, name: string) {
    exists k: nat :: FirstEntryIs(entries, name, k) && entries[k].value.Str?
  }

  lemma HasStringMeans(entries: seq<Entry>, name: string)
    ensures HasString(entries, name) <==> TextEntry(entries, name)
  {
    LookupMisses(entries, name);
    if HasString(entries, name) {
      var k := FirstNamed(entries, name);
      LookupMeans(entries, name, k);
    }
    if TextEntry(entries, name) {
      var k: nat :| FirstEntryIs(entries, name, k) && entries[k].value.Str?;
      LookupMeans(entries, name, k);
    }
  }

  function FirstNamed(entries: seq<Entry>, name: string): (k: nat)
    requires exists n :: 0 <= n < |entries| && entries[n].key == name
    ensures FirstEntryIs(entries, name, k)
  {
    if entries[0].key == name then 0
    else
      assert forall n :: 0 < n < |entries| ==> entries[n] == entries[1..][n - 1];
      1 + FirstNamed(entries[1..], name)
  }

  /** A file is still on the device when its object holds a `dataUrl` text and no `url` text. */
  lemma PendingFileMeans(j: Json)
    ensures IsPendingFile(j) <==> j.Obj? && TextEntry(j.entries, "dataUrl") && !TextEntry(j.entries, "url")
  {
    hide HasString, TextEntry;
    if j.Obj? {
      HasStringMeans(j.entries, "dataUrl");
      HasStringMeans(j.entries, "url");
    }
  }
}
