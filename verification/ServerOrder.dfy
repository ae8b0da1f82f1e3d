/**
 What the server ends up with (apps/portal-web/public/sw.js:622-628). Under one device identity, where no
 page passes over another deployment and no row is removed in flight, the rows of a feature reach the server
 in queue order. Where in addition every fold met its row before a drain listed it, and no fold had to take
 back what was already applied, the server's final state is each surviving row's latest version applied once,
 in capture order.
 */
module ServerOrder {
  import opened Prelude
  import opened QueueRules
  import opened OfflineEnqueue
  import opened ReplayProtocol
  import opened ReplayOrder
  import opened LateFolds
  import QueueFold

  /** A row without its bookkeeping: what is sent of it. */
  function Bare(row: Row): (bare: Row)
    ensures bare.key == row.key && bare.feature == row.feature && bare.queuedAt == row.queuedAt && bare.edit == row.edit
  {
    row.(status := Pending, lastAttemptAt := None, retryCount := 0)
  }

  lemma BareIsTheEdit(a: Row, b: Row)
    ensures Bare(a) == Bare(b) <==> SameEdit(a, b)
  {
  }

  /** The edits of one feature in the order they reached the server. */
  function Arrivals(log: seq<Sent>, feature: string): (rows: seq<Row>)
    ensures forall r :: r in rows ==> r.feature == feature
  {
    if log == [] then []
    else
      var before := Arrivals(log[..|log| - 1], feature);
      var last := log[|log| - 1].row;
      if last.feature == feature then before + [Bare(last)] else before
  }

  /** Of the arrivals of one row that follow each other, the last. */
  function Newest(rows: seq<Row>): (newest: seq<Row>)
    ensures |newest| <= |rows|
    ensures rows != [] ==> newest != [] && Last(newest) == Last(rows)
  {
    if |rows| <= 1 then rows
    else
      var before := Newest(rows[..|rows| - 1]);
      var kept := if rows[|rows| - 2].key == Last(rows).key then before[..|before| - 1] else before;
      kept + [Last(rows)]
  }

  function LastWith(rows: seq<Row>, k: Key): (row: Option<Row>)
    ensures row.Some? ==> row.value.key == k && row.value in rows
  {
    if rows == [] then None
    else if Last(rows).key == k then Some(Last(rows))
    else LastWith(rows[..|rows| - 1], k)
  }

  predicate StrictlyInOrder(rows: seq<Row>) {
    forall i, j :: 0 <= i < j < |rows| ==> rows[i].queuedAt < rows[j].queuedAt
  }

  /** Queue order, where a row may arrive several times in a row, folded further or not. */
  ghost predicate InRowOrder(rows: seq<Row>) {
    forall i, j :: 0 <= i < j < |rows| ==> rows[i].queuedAt < rows[j].queuedAt || rows[i].key == rows[j].key
  }

  ghost predicate KeysFixCapture(rows: seq<Row>) {
    forall i, j :: 0 <= i < j < |rows| && rows[i].key == rows[j].key ==> rows[i].queuedAt == rows[j].queuedAt
  }

  function Prefix(rows: seq<Row>): seq<Row>
    requires rows != []
  {
    rows[..|rows| - 1]
  }

  lemma LastIsYoungest(a: seq<Row>, r: Row)
    requires StrictlyInOrder(a) && r in a
    ensures r == Last(a) || r.queuedAt < Last(a).queuedAt
    ensures r in Prefix(a) <==> r != Last(a)
  {
    var i :| 0 <= i < |a| && a[i] == r;
    assert i < |a| - 1 ==> Prefix(a)[i] == r;
  }

  /** Earlier rows that share the key of the last one were captured with it, the others before it. */
  lemma SameKeySameCapture(rows: seq<Row>, r: Row)
    requires |rows| > 1 && InRowOrder(rows) && KeysFixCapture(rows) && r in Prefix(rows)
    ensures r.key == Last(rows).key <==> r.queuedAt >= Last(rows).queuedAt
  {
    var i :| 0 <= i < |rows| - 1 && rows[i] == r;
  }

  /** What Newest keeps of the rows before the last. */
  lemma KeptAreOlder(rows: seq<Row>, before: seq<Row>, r: Row)
    requires |rows| > 1 && InRowOrder(rows) && KeysFixCapture(rows)
    requires before != [] && StrictlyInOrder(before) && Last(before) == rows[|rows| - 2] && r in before
    requires forall x :: x in before ==> x in Prefix(rows)
    ensures var kept := if rows[|rows| - 2].key == Last(rows).key then Prefix(before) else before;
            (r in kept <==> r.key != Last(rows).key) && (r in kept ==> r.queuedAt < Last(rows).queuedAt)
  {
    LastIsYoungest(before, r);
    SameKeySameCapture(rows, r);
    assert Last(before) in before;
    SameKeySameCapture(rows, Last(before));
  }

  lemma KeptRows(rows: seq<Row>, before: seq<Row>, kept: seq<Row>)
    requires |rows| > 1 && InRowOrder(rows) && KeysFixCapture(rows)
    requires before != [] && StrictlyInOrder(before) && Last(before) == rows[|rows| - 2]
    requires forall x :: x in before ==> x in Prefix(rows)
    requires kept == if rows[|rows| - 2].key == Last(rows).key then Prefix(before) else before
    ensures StrictlyInOrder(kept)
    ensures forall r :: r in kept <==> r in before && r.key != Last(rows).key
    ensures forall r :: r in kept ==> r.queuedAt < Last(rows).queuedAt
  {
    assert forall r :: r in kept ==> r in before;
    forall r | r in before
      ensures r in kept <==> r.key != Last(rows).key
      ensures r in kept ==> r.queuedAt < Last(rows).queuedAt
    {
      KeptAreOlder(rows, before, r);
    }
  }

  lemma LastWithAppended(rows: seq<Row>, kept: seq<Row>, r: Row)
    requires rows != [] && (r in kept <==> LastWith(Prefix(rows), r.key) == Some(r) && r.key != Last(rows).key)
    ensures r in kept + [Last(rows)] <==> LastWith(rows, r.key) == Some(r)
  {
  }

  /** One arrival more. */
  lemma NewestStep(rows: seq<Row>, before: seq<Row>)
    requires |rows| > 1 && InRowOrder(rows) && KeysFixCapture(rows)
    requires before != [] && StrictlyInOrder(before) && Last(before) == rows[|rows| - 2]
    requires forall r :: r in before <==> LastWith(Prefix(rows), r.key) == Some(r)
    ensures var kept := if rows[|rows| - 2].key == Last(rows).key then Prefix(before) else before;
            && StrictlyInOrder(kept + [Last(rows)])
            && forall r :: r in kept + [Last(rows)] <==> LastWith(rows, r.key) == Some(r)
  {
    hide InRowOrder, KeysFixCapture, StrictlyInOrder, LastWith;
    var kept := if rows[|rows| - 2].key == Last(rows).key then Prefix(before) else before;
    KeptRows(rows, before, kept);
    KeptAndLast(kept, Last(rows));
    forall r ensures r in kept + [Last(rows)] <==> LastWith(rows, r.key) == Some(r) {
      LastWithAppended(rows, kept, r);
    }
  }

  lemma {:induction false} NewestIsLastOfEach(rows: seq<Row>)
    requires InRowOrder(rows) && KeysFixCapture(rows)
    ensures StrictlyInOrder(Newest(rows))
    ensures forall r :: r in Newest(rows) <==> LastWith(rows, r.key) == Some(r)
  {
    if |rows| > 1 {
      NewestIsLastOfEach(Prefix(rows));
      NewestStep(rows, Newest(Prefix(rows)));
      hide LastWith, InRowOrder, KeysFixCapture, StrictlyInOrder;
    }
  }

  lemma KeptAndLast(kept: seq<Row>, last: Row)
    requires StrictlyInOrder(kept) && forall r :: r in kept ==> r.queuedAt < last.queuedAt
    ensures StrictlyInOrder(kept + [last])
  {
    assert forall i :: 0 <= i < |kept| ==> kept[i] in kept;
  }

  // ---------------------------------------------------------------- server state

  /** Apply a feature's edits one after the other. */
  function Replayed<S>(apply: (Edit, S) -> S, start: S, rows: seq<Row>): S {
    if rows == [] then start else apply(Last(rows).edit, Replayed(apply, start, Prefix(rows)))
  }

  /** Once `later` is applied it no longer shows whether `earlier` was applied just before. */
  ghost predicate Absorbs<S(!new)>(apply: (Edit, S) -> S, earlier: Edit, later: Edit) {
    forall s: S :: apply(later, apply(earlier, s)) == apply(later, s)
  }

  ghost predicate Idempotent<S(!new)>(apply: (Edit, S) -> S) {
    forall edit: Edit :: Absorbs(apply, edit, edit)
  }

  ghost predicate RepeatsAbsorb<S(!new)>(apply: (Edit, S) -> S, rows: seq<Row>) {
    forall i, j :: 0 <= i < j < |rows| && rows[i].key == rows[j].key ==> Absorbs(apply, rows[i].edit, rows[j].edit)
  }

  lemma ReplayedLast<S>(apply: (Edit, S) -> S, start: S, rows: seq<Row>, last: Row)
    ensures Replayed(apply, start, rows + [last]) == apply(last.edit, Replayed(apply, start, rows))
  {
    assert Prefix(rows + [last]) == rows;
  }

  lemma NewestUnfolds(rows: seq<Row>)
    requires |rows| > 1
    ensures var before := Newest(Prefix(rows));
            && before != [] && before == Prefix(before) + [Last(Prefix(rows))]
            && Newest(rows) == (if Last(Prefix(rows)).key == Last(rows).key then Prefix(before) else before) + [Last(rows)]
  {
  }

  lemma AbsorbedNext<S(!new)>(apply: (Edit, S) -> S, rows: seq<Row>)
    requires |rows| > 1 && RepeatsAbsorb(apply, rows)
    ensures RepeatsAbsorb(apply, Prefix(rows))
    ensures Last(Prefix(rows)).key == Last(rows).key ==> Absorbs(apply, Last(Prefix(rows)).edit, Last(rows).edit)
  {
    hide Absorbs;
  }

  /** Arrivals that the next one absorbs leave no trace. */
  lemma {:induction false} RepeatsDoNotShow<S(!new)>(apply: (Edit, S) -> S, start: S, rows: seq<Row>)
    requires RepeatsAbsorb(apply, rows)
    ensures Replayed(apply, start, rows) == Replayed(apply, start, Newest(rows))
  {
    if |rows| > 1 {
      var init, last := Prefix(rows), Last(rows);
      var before := Newest(init);
      AbsorbedNext(apply, rows);
      RepeatsDoNotShow(apply, start, init);
      NewestUnfolds(rows);
      assert rows == init + [last];
      hide Newest, Replayed, RepeatsAbsorb;
      ReplayedLast(apply, start, init, last);
      if Last(init).key == last.key {
        ReplayedLast(apply, start, Prefix(before), Last(init));
        ReplayedLast(apply, start, Prefix(before), last);
      } else {
        ReplayedLast(apply, start, before, last);
      }
    }
  }

  // ---------------------------------------------------------------- runs of one identity

  /** Every drain lists, and every edit is folded, under the same device identity. */
  predicate OneIdentity(steps: seq<Step>, who: Option<string>) {
    forall i :: 0 <= i < |steps| ==> ActsAs(steps[i], who)
  }

  predicate ActsAs(step: Step, who: Option<string>) {
    match step
    case Begin(_, w, _, _, _) => w == who
    case Fold(owner, _, _, _) => Some(owner) == who
    case _ => true
  }

  /** A row is always visible to `who` or never. */
  ghost predicate SeesAllOrNothing(s: State, who: Option<string>) {
    forall k, i :: 0 <= i < |VersionsOf(s, k)| && IsOwnedBy(VersionsOf(s, k)[i], who) ==> Sees(s, who, k)
  }

  ghost predicate SentUnder(s: State, who: Option<string>) {
    && (forall d :: d in s.drains ==> s.drains[d].who == who)
    && (forall i :: 0 <= i < |s.log| ==> s.log[i].who == who)
    && SeesAllOrNothing(s, who)
  }

  /** No two rows of a feature share a capture time. */
  ghost predicate CapturesDiffer(s: State) {
    forall j, k :: j in s.ever && k in s.ever && j != k && s.ever[j].feature == s.ever[k].feature ==>
      s.ever[j].queuedAt != s.ever[k].queuedAt
  }

  lemma FoldKeepsSight(s: State, owner: string, keep: Key, gone: set<Key>, edit: Edit)
    requires Filed(s) && Enabled(s, Fold(owner, keep, gone, edit)) && SeesAllOrNothing(s, Some(owner))
    ensures SeesAllOrNothing(Take(s, Fold(owner, keep, gone, edit)), Some(owner))
  {
    var t := TakeFold(s, owner, keep, gone, edit);
    assert FiledRow(s, s.queue[keep]);
    var i :| 0 <= i < |VersionsOf(s, keep)| && SameEdit(s.queue[keep], VersionsOf(s, keep)[i]);
    assert Sees(s, Some(owner), keep);
    assert VersionsOf(t, keep) == VersionsOf(s, keep) + [Refiled(s.queue[keep], owner, edit)];
    hide Filed, FiledRow, SameEdit, IsFoldable;
    forall k, i | 0 <= i < |VersionsOf(t, k)| && IsOwnedBy(VersionsOf(t, k)[i], Some(owner)) ensures Sees(t, Some(owner), k) {
      assert k != keep ==> VersionsOf(t, k) == VersionsOf(s, k);
    }
  }

  lemma OtherStepsKeepSight(s: State, t: State, who: Option<string>)
    requires SeesAllOrNothing(s, who) && forall k :: VersionsOf(t, k) == VersionsOf(s, k) || |VersionsOf(t, k)| == 1
    ensures SeesAllOrNothing(t, who)
  {
    hide IsOwnedBy, VersionsOf;
    forall k, i | 0 <= i < |VersionsOf(t, k)| && IsOwnedBy(VersionsOf(t, k)[i], who) ensures Sees(t, who, k) {
      assert VersionsOf(t, k) == VersionsOf(s, k) ==> Sees(s, who, k);
    }
  }

  /** Only a fold makes another version of a row. */
  lemma VersionsAfter(s: State, step: Step)
    requires Enabled(s, step) && !step.Fold?
    ensures forall k :: VersionsOf(Take(s, step), k) == VersionsOf(s, k) || |VersionsOf(Take(s, step), k)| == 1
  {
  }

  lemma SendersStay(s: State, step: Step, who: Option<string>)
    requires Enabled(s, step) && ActsAs(step, who)
    requires (forall d :: d in s.drains ==> s.drains[d].who == who) && (forall i :: 0 <= i < |s.log| ==> s.log[i].who == who)
    ensures var t := Take(s, step);
            (forall d :: d in t.drains ==> t.drains[d].who == who) && (forall i :: 0 <= i < |t.log| ==> t.log[i].who == who)
  {
  }

  lemma StepKeepsIdentity(s: State, step: Step, who: Option<string>)
    requires Filed(s) && Enabled(s, step) && SentUnder(s, who) && ActsAs(step, who)
    ensures SentUnder(Take(s, step), who)
  {
    SendersStay(s, step, who);
    hide Filed, SeesAllOrNothing, Enabled, Take;
    if step.Fold? {
      FoldKeepsSight(s, step.owner, step.keep, step.gone, step.edit);
    } else {
      VersionsAfter(s, step);
      OtherStepsKeepSight(s, Take(s, step), who);
    }
  }

  lemma StepKeepsCapturesApart(s: State, step: Step)
    requires Enabled(s, step) && CapturesDiffer(s)
    ensures CapturesDiffer(Take(s, step))
  {
  }

  lemma {:induction false} RunKeepsIdentity(s: State, steps: seq<Step>, who: Option<string>)
    requires Inv(s) && InOrder(s) && ValidRun(s, steps) && OrderedRun(s, steps)
    requires OneIdentity(steps, who) && SentUnder(s, who) && CapturesDiffer(s)
    ensures Inv(EndOf(s, steps)) && InOrder(EndOf(s, steps)) && SentUnder(EndOf(s, steps), who) && CapturesDiffer(EndOf(s, steps))
    decreases |steps|
  {
    if steps != [] {
      assert Filed(s);
      hide Inv, InOrder, Enabled, KeepsOrder, SentUnder, CapturesDiffer;
      StepKeepsInv(s, steps[0]);
      StepKeepsInOrder(s, steps[0]);
      StepKeepsIdentity(s, steps[0], who);
      StepKeepsCapturesApart(s, steps[0]);
      assert forall i :: 0 <= i < |steps[1..]| ==> steps[1..][i] == steps[i + 1];
      RunKeepsIdentity(Take(s, steps[0]), steps[1..], who);
    }
  }

  // ---------------------------------------------------------------- arrivals

  /** Each arrival stands for some entry of the log. */
  lemma {:induction false} ArrivalsStandForLog(log: seq<Sent>, feature: string)
    ensures forall r :: r in Arrivals(log, feature) <==> exists i :: 0 <= i < |log| && Bare(log[i].row) == r && r.feature == feature
  {
    if log != [] {
      var init, last := log[..|log| - 1], log[|log| - 1].row;
      ArrivalsStandForLog(init, feature);
      forall r
        ensures r in Arrivals(log, feature) <==> exists i :: 0 <= i < |log| && Bare(log[i].row) == r && r.feature == feature
      {
        if r in Arrivals(init, feature) {
          var i :| 0 <= i < |init| && Bare(init[i].row) == r && r.feature == feature;
          assert log[i] == init[i];
        }
        if i :| 0 <= i < |log| && Bare(log[i].row) == r && r.feature == feature {
          assert i < |log| - 1 ==> init[i] == log[i];
        }
      }
    }
  }

  /** A relation that holds along the log holds along the arrivals of a feature. */
  ghost predicate Along(rows: seq<Row>, rel: (Row, Row) -> bool) {
    forall i, j :: 0 <= i < j < |rows| ==> rel(rows[i], rows[j])
  }

  lemma {:induction false} ArrivalsFollowTheLog(log: seq<Sent>, feature: string, rel: (Row, Row) -> bool)
    requires forall i, j :: 0 <= i < j < |log| && log[i].row.feature == log[j].row.feature ==> rel(Bare(log[i].row), Bare(log[j].row))
    ensures Along(Arrivals(log, feature), rel)
  {
    if log != [] {
      var init, last := log[..|log| - 1], log[|log| - 1].row;
      ArrivalsFollowTheLog(init, feature, rel);
      ArrivalsStandForLog(init, feature);
      var before := Arrivals(init, feature);
      forall i | 0 <= i < |before| && last.feature == feature ensures rel(before[i], Bare(last)) {
        assert before[i] in before;
        var k :| 0 <= k < |init| && Bare(init[k].row) == before[i];
        assert log[k] == init[k];
      }
    }
  }

  /** The last arrival of a row is what was sent last under its key. */
  lemma {:induction false} LastArrival(log: seq<Sent>, feature: string, k: Key)
    requires forall i :: 0 <= i < |log| && log[i].row.key == k ==> log[i].row.feature == feature
    ensures LastWith(Arrivals(log, feature), k) == if LastSent(log, k).Some? then Some(Bare(LastSent(log, k).value)) else None
  {
    if log != [] {
      var init := log[..|log| - 1];
      assert forall i :: 0 <= i < |init| ==> init[i] == log[i];
      LastArrival(init, feature, k);
      var before, last := Arrivals(init, feature), log[|log| - 1].row;
      assert Prefix(before + [Bare(last)]) == before;
    }
  }

  lemma LogInOrder(s: State, who: Option<string>, i: nat, j: nat)
    requires Inv(s) && SentInOrder(s) && SentUnder(s, who) && CapturesDiffer(s)
    requires i < j < |s.log| && s.log[i].row.feature == s.log[j].row.feature
    ensures s.log[i].row.queuedAt < s.log[j].row.queuedAt || s.log[i].row.key == s.log[j].row.key
    ensures s.log[i].row.key == s.log[j].row.key ==> s.log[i].row.queuedAt == s.log[j].row.queuedAt
  {
    var a, b := s.log[i].row, s.log[j].row;
    assert Known(s, s.log[i].who, a) && Known(s, s.log[j].who, b);
    var n :| 0 <= n < |VersionsOf(s, b.key)| && SameEdit(b, VersionsOf(s, b.key)[n]);
    assert Sees(s, who, b.key);
    assert a.queuedAt <= b.queuedAt;
  }

  /** In any ordered run under one identity, with crashes and folds anywhere: the rows of a feature reach the
      server in queue order, each of them in versions its user made of it, and every row that was sent is among
      them. */
  lemma ServerSeesRowOrder(s: State, steps: seq<Step>, who: Option<string>, feature: string)
    requires Initial(s) && ValidRun(s, steps) && OneIdentity(steps, who) && OrderedRun(s, steps)
    ensures var t := EndOf(s, steps);
            var arrivals := Arrivals(t.log, feature);
            && InRowOrder(arrivals) && KeysFixCapture(arrivals)
            && (forall r :: r in arrivals ==> r.key in t.ever && IsVersion(VersionsOf(t, r.key), r))
            && (forall k :: k in t.ever && t.ever[k].feature == feature ==> (WasSent(t, k) <==> exists r :: r in arrivals && r.key == k))
  {
    RunKeepsIdentity(s, steps, who);
    var t := EndOf(s, steps);
    ArrivalsInOrder(t, who, feature);
    ArrivalsAreSentRows(t, feature);
  }

  lemma ArrivalsInOrder(t: State, who: Option<string>, feature: string)
    requires Inv(t) && SentInOrder(t) && SentUnder(t, who) && CapturesDiffer(t)
    ensures InRowOrder(Arrivals(t.log, feature)) && KeysFixCapture(Arrivals(t.log, feature))
  {
    var rel := (a: Row, b: Row) => (a.queuedAt < b.queuedAt || a.key == b.key) && (a.key == b.key ==> a.queuedAt == b.queuedAt);
    forall i, j | 0 <= i < j < |t.log| && t.log[i].row.feature == t.log[j].row.feature ensures rel(Bare(t.log[i].row), Bare(t.log[j].row)) {
      LogInOrder(t, who, i, j);
    }
    ArrivalsFollowTheLog(t.log, feature, rel);
  }

  lemma ArrivalsAreSentRows(t: State, feature: string)
    requires Inv(t)
    ensures forall r :: r in Arrivals(t.log, feature) ==> r.key in t.ever && IsVersion(VersionsOf(t, r.key), r)
    ensures forall k :: k in t.ever && t.ever[k].feature == feature ==>
              (WasSent(t, k) <==> exists r :: r in Arrivals(t.log, feature) && r.key == k)
  {
    ArrivalsStandForLog(t.log, feature);
    forall r | r in Arrivals(t.log, feature) ensures r.key in t.ever && IsVersion(VersionsOf(t, r.key), r) {
      var i :| 0 <= i < |t.log| && Bare(t.log[i].row) == r;
      assert Known(t, t.log[i].who, t.log[i].row);
      SameVersion(VersionsOf(t, r.key), t.log[i].row, r);
    }
    forall k | k in t.ever && t.ever[k].feature == feature && WasSent(t, k) ensures exists r :: r in Arrivals(t.log, feature) && r.key == k {
      var i :| 0 <= i < |t.log| && t.log[i].row.key == k;
      assert Known(t, t.log[i].who, t.log[i].row);
      assert Bare(t.log[i].row) in Arrivals(t.log, feature);
    }
  }

  // ---------------------------------------------------------------- clean runs

  ghost predicate NeverSent(s: State, keys: set<Key>) {
    forall k :: k in keys ==> !WasSent(s, k)
  }

  /** Queueing that takes nothing back: no drain has the folded row listed with something else, what was
      applied is folded over by an edit that absorbs it, and rows that fold away never reached the server. */
  ghost predicate CleanStep<S(!new)>(apply: (Edit, S) -> S, s: State, step: Step) {
    match step
    case Fold(owner, keep, gone, edit) =>
      && !IsLateFold(s, owner, keep, edit) && NeverSent(s, gone)
      && (keep in s.queue && WasSent(s, keep) ==> Absorbs(apply, s.queue[keep].edit, edit))
    case Annihilate(_, gone) => NeverSent(s, gone)
    case _ => true
  }

  ghost predicate CleanRun<S(!new)>(apply: (Edit, S) -> S, s: State, steps: seq<Step>)
    requires ValidRun(s, steps)
    decreases |steps|
  {
    steps == [] || (CleanStep(apply, s, steps[0]) && CleanRun(apply, Take(s, steps[0]), steps[1..]))
  }

  ghost predicate AllUpToDate(s: State) {
    forall k :: UpToDate(s, k)
  }

  /** What was sent is absorbed by the row's latest version and by whatever was sent of it since. */
  ghost predicate LogAbsorbed<S(!new)>(apply: (Edit, S) -> S, s: State) {
    && (forall i :: 0 <= i < |s.log| ==> SentIsAbsorbed(apply, s, s.log[i].row))
    && (forall i, j :: 0 <= i < j < |s.log| && s.log[i].row.key == s.log[j].row.key ==> Absorbs(apply, s.log[i].row.edit, s.log[j].row.edit))
  }

  ghost predicate SentIsAbsorbed<S(!new)>(apply: (Edit, S) -> S, s: State, row: Row) {
    VersionsOf(s, row.key) != [] && Absorbs(apply, row.edit, Last(VersionsOf(s, row.key)).edit)
  }

  ghost predicate FoldedAwayUnsent(s: State) {
    forall k :: k in s.fates && s.fates[k].FoldedAway? ==> !WasSent(s, k)
  }

  ghost predicate Clean<S(!new)>(apply: (Edit, S) -> S, s: State) {
    Inv(s) && Orderly(s) && AllUpToDate(s) && LogAbsorbed(apply, s) && FoldedAwayUnsent(s)
  }

  lemma AbsorptionIsTransitive<S(!new)>(apply: (Edit, S) -> S, a: Edit, b: Edit, c: Edit)
    requires Absorbs(apply, a, b) && Absorbs(apply, b, c)
    ensures Absorbs(apply, a, c)
  {
    forall s: S ensures apply(c, apply(a, s)) == apply(c, s) {
      assert apply(c, apply(b, apply(a, s))) == apply(c, apply(a, s));
      assert apply(c, apply(b, s)) == apply(c, s);
    }
  }

  lemma FoldKeepsAbsorbed<S(!new)>(apply: (Edit, S) -> S, s: State, owner: string, keep: Key, gone: set<Key>, edit: Edit)
    requires LogAbsorbed(apply, s) && Enabled(s, Fold(owner, keep, gone, edit)) && CleanStep(apply, s, Fold(owner, keep, gone, edit))
    requires s.queue[keep].key == keep && IsLatest(s, s.queue[keep])
    ensures LogAbsorbed(apply, TakeFold(s, owner, keep, gone, edit))
  {
    var t := TakeFold(s, owner, keep, gone, edit);
    assert Last(VersionsOf(t, keep)).edit == edit;
    assert Last(VersionsOf(s, keep)).edit == s.queue[keep].edit;
    hide IsLatest, Absorbs, IsFoldable, IsLateFold;
    forall i | 0 <= i < |t.log| ensures SentIsAbsorbed(apply, t, t.log[i].row) {
      assert SentIsAbsorbed(apply, s, s.log[i].row);
      if s.log[i].row.key == keep {
        assert WasSent(s, keep);
        AbsorptionIsTransitive(apply, s.log[i].row.edit, s.queue[keep].edit, edit);
      }
    }
  }

  lemma AppliesKeepsAbsorbed<S(!new)>(apply: (Edit, S) -> S, s: State, d: nat)
    requires LogAbsorbed(apply, s) && Idempotent(apply) && InFlight(s, d) && IsLatest(s, FlightOf(s, d).record)
    ensures LogAbsorbed(apply, Take(s, ServerApplies(d)))
  {
    var t := Take(s, ServerApplies(d));
    var r := FlightOf(s, d).record;
    assert r.edit == Last(VersionsOf(s, r.key)).edit && VersionsOf(s, r.key) != [];
    assert Absorbs(apply, r.edit, r.edit);
    hide IsLatest, Absorbs, Idempotent;
    assert forall i :: 0 <= i < |s.log| ==> t.log[i] == s.log[i];
    assert t.log[|s.log|].row == r;
    forall i | 0 <= i < |t.log| ensures SentIsAbsorbed(apply, t, t.log[i].row) {
      assert i < |s.log| ==> SentIsAbsorbed(apply, s, s.log[i].row);
      assert VersionsOf(t, t.log[i].row.key) == VersionsOf(s, t.log[i].row.key);
    }
    forall i | 0 <= i < |s.log| && s.log[i].row.key == r.key ensures Absorbs(apply, s.log[i].row.edit, r.edit) {
      assert SentIsAbsorbed(apply, s, s.log[i].row);
    }
  }

  lemma OthersKeepAbsorbed<S(!new)>(apply: (Edit, S) -> S, s: State, t: State)
    requires LogAbsorbed(apply, s) && t.log == s.log
    requires forall i :: 0 <= i < |s.log| ==> VersionsOf(t, s.log[i].row.key) == VersionsOf(s, s.log[i].row.key)
    ensures LogAbsorbed(apply, t)
  {
    hide Absorbs, VersionsOf;
    forall i | 0 <= i < |t.log| ensures SentIsAbsorbed(apply, t, t.log[i].row) {
      assert SentIsAbsorbed(apply, s, s.log[i].row);
    }
  }

  lemma StepKeepsAbsorbed<S(!new)>(apply: (Edit, S) -> S, s: State, step: Step)
    requires Idempotent(apply) && Clean(apply, s) && Enabled(s, step) && CleanStep(apply, s, step)
    ensures LogAbsorbed(apply, Take(s, step))
  {
    hide Orderly, LogAbsorbed, FoldedAwayUnsent, CleanStep;
    if step.Fold? {
      assert UpToDate(s, step.keep);
      FoldKeepsAbsorbed(apply, s, step.owner, step.keep, step.gone, step.edit);
    } else if step.ServerApplies? {
      assert UpToDate(s, FlightOf(s, step.drain).record.key);
      AppliesKeepsAbsorbed(apply, s, step.drain);
    } else {
      VersionsOfSentStay(s, step);
      hide Enabled;
      OthersKeepAbsorbed(apply, s, Take(s, step));
    }
  }

  lemma VersionsOfSentStay(s: State, step: Step)
    requires LogOk(s) && Enabled(s, step) && !step.Fold? && !step.ServerApplies?
    ensures Take(s, step).log == s.log
    ensures forall i :: 0 <= i < |s.log| ==> VersionsOf(Take(s, step), s.log[i].row.key) == VersionsOf(s, s.log[i].row.key)
  {
    forall i | 0 <= i < |s.log| ensures s.log[i].row.key in s.ever {
      assert Known(s, s.log[i].who, s.log[i].row);
    }
    hide LogOk;
  }

  lemma StepKeepsUnsent<S(!new)>(apply: (Edit, S) -> S, s: State, step: Step)
    requires Inv(s) && FoldedAwayUnsent(s) && Enabled(s, step) && CleanStep(apply, s, step)
    ensures FoldedAwayUnsent(Take(s, step))
  {
    var t := Take(s, step);
    if step.ServerApplies? {
      var r := FlightOf(s, step.drain).record;
      FlownHasNoFate(s, step.drain);
      hide Inv;
      assert forall i :: 0 <= i < |s.log| ==> t.log[i] == s.log[i];
      forall k | WasSent(t, k) ensures k == r.key || WasSent(s, k) {
        var i :| 0 <= i < |t.log| && t.log[i].row.key == k;
        assert i < |s.log| ==> s.log[i].row.key == k;
      }
    } else {
      hide Inv, Absorbs, IsLateFold;
      QuietSteps(apply, s, step);
      assert forall k :: WasSent(t, k) <==> WasSent(s, k);
    }
  }

  lemma QuietSteps<S(!new)>(apply: (Edit, S) -> S, s: State, step: Step)
    requires Enabled(s, step) && CleanStep(apply, s, step) && !step.ServerApplies?
    ensures var t := Take(s, step);
            && t.log == s.log
            && forall k :: k in t.fates && t.fates[k].FoldedAway? ==> (k in s.fates && s.fates[k].FoldedAway?) || !WasSent(s, k)
  {
    hide Absorbs, IsLateFold, WasSent;
  }

  lemma StepKeepsAllUpToDate<S(!new)>(apply: (Edit, S) -> S, s: State, step: Step)
    requires Inv(s) && Orderly(s) && AllUpToDate(s) && Enabled(s, step) && CleanStep(apply, s, step)
    ensures AllUpToDate(Take(s, step))
  {
    hide Inv, Orderly, UpToDate, Enabled, Absorbs;
    forall k ensures UpToDate(Take(s, step), k) {
      StepKeepsUpToDate(s, step, k);
    }
  }

  lemma StepKeepsClean<S(!new)>(apply: (Edit, S) -> S, s: State, step: Step)
    requires Idempotent(apply) && Clean(apply, s) && Enabled(s, step) && CleanStep(apply, s, step)
    ensures Clean(apply, Take(s, step))
  {
    StepKeepsAbsorbed(apply, s, step);
    hide Idempotent, LogAbsorbed, AllUpToDate, Inv, Orderly, FoldedAwayUnsent, Enabled, CleanStep;
    StepKeepsInv(s, step);
    StepKeepsOrderly(s, step);
    StepKeepsAllUpToDate(apply, s, step);
    StepKeepsUnsent(apply, s, step);
  }

  lemma {:induction false} RunKeepsClean<S(!new)>(apply: (Edit, S) -> S, s: State, steps: seq<Step>)
    requires Idempotent(apply) && Clean(apply, s) && ValidRun(s, steps) && CleanRun(apply, s, steps)
    ensures Clean(apply, EndOf(s, steps))
    decreases |steps|
  {
    if steps != [] {
      hide Clean, Idempotent, Enabled, CleanStep;
      StepKeepsClean(apply, s, steps[0]);
      RunKeepsClean(apply, Take(s, steps[0]), steps[1..]);
    }
  }

  // ---------------------------------------------------------------- a drained feature

  lemma ArrivalsAbsorb<S(!new)>(apply: (Edit, S) -> S, t: State, feature: string)
    requires LogAbsorbed(apply, t)
    ensures RepeatsAbsorb(apply, Arrivals(t.log, feature))
  {
    var rel := (a: Row, b: Row) => a.key == b.key ==> Absorbs(apply, a.edit, b.edit);
    ArrivalsFollowTheLog(t.log, feature, rel);
  }

  /** Two strictly ordered lists with the same rows are the same list. */
  lemma {:induction false} StrictListsAgree(a: seq<Row>, b: seq<Row>)
    requires StrictlyInOrder(a) && StrictlyInOrder(b)
    requires forall r :: r in a <==> r in b
    ensures a == b
    decreases |a|
  {
    if a == [] {
      assert forall i :: 0 <= i < |b| ==> b[i] in a;
    } else {
      assert a[0] in b;
      var x, y := Last(a), Last(b);
      assert x in a && y in b;
      LastIsYoungest(a, y);
      LastIsYoungest(b, x);
      forall r
        ensures r in Prefix(a) <==> r in Prefix(b)
      {
        if r in a {
          LastIsYoungest(a, r);
          LastIsYoungest(b, r);
        }
      }
      StrictListsAgree(Prefix(a), Prefix(b));
      assert a == Prefix(a) + [x] && b == Prefix(b) + [x];
    }
  }

  /** What the queue held of a feature when it was worked off: the latest version of every row deleted as done. */
  ghost predicate WasWorkedOff(t: State, feature: string, queued: seq<Row>) {
    && StrictlyInOrder(queued)
    && (forall k :: k in t.ever && t.ever[k].feature == feature ==> k in t.fates && (t.fates[k].DiscardedByUser? || t.fates[k].RemovedFromDevice? ==> !WasSent(t, k)))
    && (forall r :: r in queued <==> r.feature == feature && IsDone(t, r.key) && VersionsOf(t, r.key) != [] && r == Bare(Last(VersionsOf(t, r.key))))
  }

  /** For a row whose arrivals carry its feature: what arrived last, in terms of what was sent last. */
  lemma ArrivalOfRow(t: State, feature: string, k: Key)
    requires Inv(t) && k in t.ever && t.ever[k].feature == feature
    ensures LastWith(Arrivals(t.log, feature), k) == if LastSent(t.log, k).Some? then Some(Bare(LastSent(t.log, k).value)) else None
  {
    forall i | 0 <= i < |t.log| && t.log[i].row.key == k ensures t.log[i].row.feature == feature {
      assert Known(t, t.log[i].who, t.log[i].row);
    }
    LastArrival(t.log, feature, k);
  }

  lemma LatestIsWhatWasSent(t: State, k: Key)
    requires UpToDate(t, k) && IsDone(t, k)
    ensures LastSent(t.log, k).Some? && VersionsOf(t, k) != [] && Bare(LastSent(t.log, k).value) == Bare(Last(VersionsOf(t, k)))
  {
    BareIsTheEdit(LastSent(t.log, k).value, Last(VersionsOf(t, k)));
  }

  lemma LastArrivalIsQueued(t: State, feature: string, queued: seq<Row>, r: Row)
    requires Inv(t) && AllUpToDate(t) && FoldedAwayUnsent(t) && WasWorkedOff(t, feature, queued)
    requires LastWith(Arrivals(t.log, feature), r.key) == Some(r)
    ensures r in queued
  {
    var k := r.key;
    ArrivalsAreSentRows(t, feature);
    ArrivalsStandForLog(t.log, feature);
    var i :| 0 <= i < |t.log| && Bare(t.log[i].row) == r && r.feature == feature;
    assert Known(t, t.log[i].who, t.log[i].row);
    hide Inv;
    assert WasSent(t, k) && k in t.ever && t.ever[k].feature == feature;
    assert IsDone(t, k) && UpToDate(t, k);
    LatestIsWhatWasSent(t, k);
    ArrivalOfRow(t, feature, k);
  }

  lemma QueuedIsLastArrival(t: State, feature: string, queued: seq<Row>, r: Row)
    requires Inv(t) && AllUpToDate(t) && WasWorkedOff(t, feature, queued) && r in queued
    ensures LastWith(Arrivals(t.log, feature), r.key) == Some(r)
  {
    var k := r.key;
    assert UpToDate(t, k);
    LatestIsWhatWasSent(t, k);
    DoneIsFiled(t, k);
    ArrivalOfRow(t, feature, k);
  }

  lemma DoneIsFiled(t: State, k: Key)
    requires Inv(t) && IsDone(t, k)
    ensures k in t.ever && VersionsOf(t, k) != [] && LastSent(t.log, k).Some? ==> LastSent(t.log, k).value.feature == t.ever[k].feature
  {
    LastSentIsInLog(t.log, k);
    if LastSent(t.log, k).Some? {
      var i :| 0 <= i < |t.log| && t.log[i].row == LastSent(t.log, k).value;
      assert Known(t, t.log[i].who, t.log[i].row);
    }
  }

  lemma {:induction false} LastSentIsInLog(log: seq<Sent>, k: Key)
    ensures LastSent(log, k).Some? ==> exists i :: 0 <= i < |log| && log[i].row == LastSent(log, k).value
  {
    if log != [] && log[|log| - 1].row.key != k {
      LastSentIsInLog(log[..|log| - 1], k);
      if LastSent(log, k).Some? {
        var i :| 0 <= i < |log| - 1 && log[..|log| - 1][i].row == LastSent(log, k).value;
        assert log[i].row == LastSent(log, k).value;
      }
    }
  }

  /** Once every row of a feature was deleted on a 'done' outcome or folded away, the server holds exactly the
      latest version of each row deleted as done, applied once, in capture order. */
  lemma DrainedFeatureIsReplayedOnce<S(!new)>(s: State, steps: seq<Step>, who: Option<string>, feature: string, queued: seq<Row>,
                                             apply: (Edit, S) -> S, start: S)
    requires Initial(s) && ValidRun(s, steps) && OneIdentity(steps, who) && OrderedRun(s, steps) && Idempotent(apply) && CleanRun(apply, s, steps)
    requires WasWorkedOff(EndOf(s, steps), feature, queued)
    ensures Newest(Arrivals(EndOf(s, steps).log, feature)) == queued
    ensures Replayed(apply, start, Arrivals(EndOf(s, steps).log, feature)) == Replayed(apply, start, queued)
  {
    var t := EndOf(s, steps);
    var arrivals := Arrivals(t.log, feature);
    ServerSeesRowOrder(s, steps, who, feature);
    RunKeepsClean(apply, s, steps);
    ArrivalsAbsorb(apply, t, feature);
    RepeatsDoNotShow(apply, start, arrivals);
    NewestIsLastOfEach(arrivals);
    forall r ensures r in Newest(arrivals) <==> r in queued {
      if r in queued {
        QueuedIsLastArrival(t, feature, queued, r);
      }
      if r in Newest(arrivals) {
        LastArrivalIsQueued(t, feature, queued, r);
      }
    }
    StrictListsAgree(Newest(arrivals), queued);
  }

  // ---------------------------------------------------------------- the portal's own server

  /** Which folds absorb what they were folded onto: not a changed capture, and not an update after a delete. */
  lemma FoldAbsorbsIff(prior: Edit, next: Edit)
    requires (prior.op.Insert? || QueueFold.Touches(prior)) && QueueFold.Touches(next)
    requires QueueFold.FoldQueuedEdits(prior, next).Replace?
    ensures var edit := QueueFold.FoldQueuedEdits(prior, next).edit;
            Absorbs(QueueFold.Apply, prior, edit) <==>
              prior.op.Update? || next.op.Delete? || (prior.op.Insert? && edit == prior)
  {
    var edit := QueueFold.FoldQueuedEdits(prior, next).edit;
    var probe: QueueFold.Stored := None;
    var full: QueueFold.Stored := Some(QueueFold.Feature(None, map[]));
    if Absorbs(QueueFold.Apply, prior, edit) {
      assert QueueFold.Apply(edit, QueueFold.Apply(prior, probe)) == QueueFold.Apply(edit, probe);
      assert QueueFold.Apply(edit, QueueFold.Apply(prior, full)) == QueueFold.Apply(edit, full);
    }
    if prior.op.Update? || next.op.Delete? || (prior.op.Insert? && edit == prior) {
      forall x: QueueFold.Stored ensures QueueFold.Apply(edit, QueueFold.Apply(prior, x)) == QueueFold.Apply(edit, x) {
        if x.Some? {
          var p := x.value.properties;
          assert p + prior.properties + (prior.properties + next.properties) == p + (prior.properties + next.properties);
        }
      }
    }
  }

  /** The theorem for what the portal makes of an edit. */
  lemma DrainedFeatureOnThePortal(s: State, steps: seq<Step>, who: Option<string>, feature: string, queued: seq<Row>, start: QueueFold.Stored)
    requires Initial(s) && ValidRun(s, steps) && OneIdentity(steps, who) && OrderedRun(s, steps) && CleanRun(QueueFold.Apply, s, steps)
    requires WasWorkedOff(EndOf(s, steps), feature, queued)
    ensures Replayed(QueueFold.Apply, start, Arrivals(EndOf(s, steps).log, feature)) == Replayed(QueueFold.Apply, start, queued)
  {
    forall edit: Edit, x: QueueFold.Stored ensures QueueFold.Apply(edit, QueueFold.Apply(edit, x)) == QueueFold.Apply(edit, x) {
      QueueFold.ApplyIsIdempotent(edit, x);
    }
    DrainedFeatureIsReplayedOnce(s, steps, who, feature, queued, QueueFold.Apply, start);
  }
}
