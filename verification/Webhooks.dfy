/** Merging the provider's delivery reports, which arrive duplicated and out of order. */
module Webhooks {
  import opened Prelude
  import Text

  /** Ready is a status of invoice jobs only; Unknown is never reported. */
  datatype Status = Pending | Processing | Accepted | Sent | Delivered | Read | Failed | Unknown | Ready

  function Rank(s: Status): int {
    match s
    case Pending => 0
    case Processing => 1
    case Accepted => 2
    case Sent => 3
    case Delivered => 4
    case Read => 5
    case _ => -1
  }

  function OfRank(r: int): Status {
    if r == 0 then Pending else if r == 1 then Processing else if r == 2 then Accepted
    else if r == 3 then Sent else if r == 4 then Delivered else if r == 5 then Read else Unknown
  }

  /** At least handed to the network: a later failure report is ignored from here on. */
  predicate Strong(s: Status) {
    s == Sent || s == Delivered || s == Read
  }

  /** The statuses a report may carry. */
  predicate Reportable(s: Status) {
    s != Unknown && s != Ready
  }

  /** Whether a report changes the row at all. */
  predicate Applies(current: Status, incoming: Status) {
    if incoming == Failed then !Strong(current) else Rank(incoming) >= Rank(current)
  }

  function Merge(current: Status, incoming: Status): Status {
    if Applies(current, incoming) then incoming else current
  }

  function Fold(start: Status, reports: seq<Status>): Status {
    if reports == [] then start else Merge(Fold(start, reports[..|reports| - 1]), reports[|reports| - 1])
  }

  predicate AllReportable(reports: seq<Status>) {
    forall i :: 0 <= i < |reports| ==> Reportable(reports[i])
  }

  predicate AnyStrong(reports: seq<Status>) {
    exists i :: 0 <= i < |reports| && Strong(reports[i])
  }

  predicate AnyWeak(reports: seq<Status>) {
    exists i :: 0 <= i < |reports| && 0 <= Rank(reports[i]) <= 2
  }

  function HighestRank(reports: seq<Status>): (r: int)
    ensures -1 <= r <= 5
  {
    if reports == [] then -1
    else
      var r := HighestRank(reports[..|reports| - 1]);
      var last := Rank(reports[|reports| - 1]);
      if last > r then last else r
  }

  /** The reports after the last failure. */
  function AfterFailure(reports: seq<Status>): (tail: seq<Status>) {
    if reports == [] || reports[|reports| - 1] == Failed then []
    else AfterFailure(reports[..|reports| - 1]) + [reports[|reports| - 1]]
  }

  /** The final status from a summary of the reports: ranks seen over all and since the last failure. */
  function Decide(start: Status, highest: int, failed: bool, sinceFailure: int): Status {
    if highest >= 3 then OfRank(highest)
    else if failed then (if sinceFailure < 0 then Failed else OfRank(sinceFailure))
    else if highest < 0 then start
    else OfRank(highest)
  }

  function Outcome(start: Status, reports: seq<Status>): Status {
    Decide(start, HighestRank([start] + reports), Failed in reports, HighestRank(AfterFailure(reports)))
  }

  lemma {:induction false} AfterFailureAppend(reports: seq<Status>, s: Status)
    ensures s == Failed ==> AfterFailure(reports + [s]) == []
    ensures s != Failed ==> AfterFailure(reports + [s]) == AfterFailure(reports) + [s]
    ensures Failed !in reports ==> AfterFailure(reports) == reports
  {
    assert (reports + [s])[..|reports|] == reports;
    if reports != [] && Failed !in reports {
      var front := reports[..|reports| - 1];
      AfterFailureAppend(front, reports[|reports| - 1]);
      assert front + [reports[|reports| - 1]] == reports;
    }
  }

  lemma HighestAppend(reports: seq<Status>, s: Status)
    ensures HighestRank(reports + [s]) ==
      if Rank(s) > HighestRank(reports) then Rank(s) else HighestRank(reports)
  {
    assert (reports + [s])[..|reports|] == reports;
  }

  lemma DecideStep(start: Status, highest: int, failed: bool, since: int, last: Status)
    requires Reportable(last)
    requires -1 <= since <= highest <= 5 && Rank(start) <= highest
    ensures var highest' := if Rank(last) > highest then Rank(last) else highest;
      var since' := if last == Failed then -1 else if Rank(last) > since then Rank(last) else since;
      Decide(start, highest', failed || last == Failed, since') == Merge(Decide(start, highest, failed, since), last)
  {
  }

  lemma FailureStep(front: seq<Status>, last: Status)
    requires Reportable(last)
    ensures HighestRank(AfterFailure(front + [last])) ==
      if last == Failed then -1
      else if Rank(last) > HighestRank(AfterFailure(front)) then Rank(last) else HighestRank(AfterFailure(front))
  {
    AfterFailureAppend(front, last);
    HighestAppend(AfterFailure(front), last);
  }

  lemma SummaryBounds(start: Status, reports: seq<Status>)
    ensures HighestRank(AfterFailure(reports)) <= HighestRank([start] + reports)
    ensures Rank(start) <= HighestRank([start] + reports)
  {
    AfterFailureWithin(reports);
    HighestBelow(AfterFailure(reports), [start] + reports);
    HighestIsAttained([start] + reports);
    assert ([start] + reports)[0] == start;
  }

  lemma OutcomeStep(start: Status, front: seq<Status>, last: Status)
    requires Reportable(last)
    ensures Outcome(start, front + [last]) == Merge(Outcome(start, front), last)
  {
    var highest, since := HighestRank([start] + front), HighestRank(AfterFailure(front));
    HighestAppend([start] + front, last);
    assert [start] + (front + [last]) == ([start] + front) + [last];
    FailureStep(front, last);
    SummaryBounds(start, front);
    assert Failed in front + [last] <==> Failed in front || last == Failed;
    DecideStep(start, highest, Failed in front, since, last);
  }

  lemma OutcomeOfNone(start: Status)
    ensures Outcome(start, []) == start
  {
    assert [start] + [] == [start] && [start][..0] == [];
  }

  /** Any sequence of reports at all: replaying it gives the summarised outcome. */
  lemma {:induction false} FoldOutcome(start: Status, reports: seq<Status>)
    requires AllReportable(reports)
    ensures Fold(start, reports) == Outcome(start, reports)
  {
    if reports == [] {
      OutcomeOfNone(start);
    } else {
      var front, last := reports[..|reports| - 1], reports[|reports| - 1];
      assert front + [last] == reports;
      FoldOutcome(start, front);
      OutcomeStep(start, front, last);
    }
  }

  lemma {:induction false} HighestIsAttained(reports: seq<Status>)
    ensures HighestRank(reports) >= 0 ==>
      exists i :: 0 <= i < |reports| && Rank(reports[i]) == HighestRank(reports)
    ensures forall i :: 0 <= i < |reports| ==> Rank(reports[i]) <= HighestRank(reports)
  {
    if reports != [] {
      HighestIsAttained(reports[..|reports| - 1]);
    }
  }

  lemma {:induction false} AfterFailureWithin(reports: seq<Status>)
    ensures forall s :: s in AfterFailure(reports) ==> s in reports
  {
    if reports != [] {
      AfterFailureWithin(reports[..|reports| - 1]);
    }
  }

  /** A sequence drawn from another ranks no higher. */
  lemma HighestBelow(part: seq<Status>, whole: seq<Status>)
    ensures (forall s :: s in part ==> s in whole) ==> HighestRank(part) <= HighestRank(whole)
  {
    HighestIsAttained(part);
    HighestIsAttained(whole);
    if (forall s :: s in part ==> s in whole) && HighestRank(part) >= 0 {
      var i :| 0 <= i < |part| && Rank(part[i]) == HighestRank(part);
      assert part[i] in whole;
    }
  }

  /** Once sent, a delivery never goes back down. */
  lemma {:induction false} RankNeverDrops(start: Status, reports: seq<Status>)
    requires Strong(start) && AllReportable(reports)
    ensures Strong(Fold(start, reports)) && Rank(Fold(start, reports)) >= Rank(start)
  {
    if reports != [] {
      RankNeverDrops(start, reports[..|reports| - 1]);
    }
  }

  lemma SameMembers(a: seq<Status>, b: seq<Status>)
    requires multiset(a) == multiset(b)
    ensures forall s :: s in a <==> s in b
    ensures |a| == |b|
  {
    forall s ensures s in a <==> s in b {
      assert s in multiset(a) <==> s in multiset(b);
    }
    assert |multiset(a)| == |a| && |multiset(b)| == |b|;
  }

  /** When the order of the reports cannot matter. */
  predicate OrderFree(start: Status, reports: seq<Status>) {
    Strong(start) || AnyStrong(reports) || Failed !in reports || !AnyWeak(reports)
  }

  /** Two arrival orders of the same reports agree whenever the reports are order free. */
  lemma Confluent(start: Status, a: seq<Status>, b: seq<Status>)
    requires AllReportable(a) && multiset(a) == multiset(b) && OrderFree(start, a)
    ensures Fold(start, a) == Fold(start, b)
  {
    SameMembers(a, b);
    assert AllReportable(b) by {
      assert forall i :: 0 <= i < |b| ==> b[i] in a;
    }
    FoldOutcome(start, a);
    FoldOutcome(start, b);
    SameHighest(start, a, b);
    if HighestRank([start] + a) < 3 && Failed in a {
      NotOrderFreeUnlessStrong(start, a);
      AfterFailureWithin(a);
      AfterFailureWithin(b);
      OnlyFailures(a);
      OnlyFailures(b);
    }
  }

  lemma SameHighest(start: Status, a: seq<Status>, b: seq<Status>)
    requires forall s :: s in a <==> s in b
    ensures HighestRank([start] + a) == HighestRank([start] + b)
  {
    HighestBelow([start] + a, [start] + b);
    HighestBelow([start] + b, [start] + a);
  }

  lemma NotOrderFreeUnlessStrong(start: Status, reports: seq<Status>)
    requires HighestRank([start] + reports) < 3
    ensures !Strong(start) && !AnyStrong(reports)
  {
    HighestIsAttained([start] + reports);
    assert ([start] + reports)[0] == start;
    assert forall i :: 0 <= i < |reports| ==> ([start] + reports)[i + 1] == reports[i];
  }

  lemma {:induction false} OnlyFailures(reports: seq<Status>)
    ensures (forall s :: s in reports ==> s == Failed) ==> AfterFailure(reports) == []
  {
    if reports != [] {
      assert reports[|reports| - 1] in reports;
    }
  }

  /** Moving one report to the end is a reordering. */
  lemma MoveToEnd(reports: seq<Status>, i: nat) returns (moved: seq<Status>)
    requires i < |reports|
    ensures multiset(moved) == multiset(reports) && moved != [] && moved[|moved| - 1] == reports[i]
  {
    moved := reports[..i] + reports[i + 1..] + [reports[i]];
    assert reports == reports[..i] + [reports[i]] + reports[i + 1..];
  }

  /** Reports that are not order free end differently with a failure last and with a weak report last. */
  lemma OrderMatters(start: Status, reports: seq<Status>) returns (a: seq<Status>, b: seq<Status>)
    requires AllReportable(reports) && !OrderFree(start, reports)
    ensures multiset(a) == multiset(reports) == multiset(b) && Fold(start, a) != Fold(start, b)
  {
    var f :| 0 <= f < |reports| && reports[f] == Failed;
    var w :| 0 <= w < |reports| && 0 <= Rank(reports[w]) <= 2;
    a := MoveToEnd(reports, f);
    b := MoveToEnd(reports, w);
    SameMembers(a, reports);
    var front := a[..|a| - 1];
    assert forall s :: s in front ==> s in a;
    assert forall i :: 0 <= i < |reports| ==> !Strong(reports[i]);
    NeverStrong(start, front);
    assert Fold(start, a) == Failed;
    assert Fold(start, b) != Failed;
  }

  ghost predicate SameInEveryOrder(start: Status, reports: seq<Status>) {
    forall other :: multiset(other) == multiset(reports) ==> Fold(start, other) == Fold(start, reports)
  }

  /** The condition is exact: the outcome is the same in every order if and only if it holds. */
  lemma ConfluentExactly(start: Status, reports: seq<Status>)
    requires AllReportable(reports)
    ensures SameInEveryOrder(start, reports) <==> OrderFree(start, reports)
  {
    if OrderFree(start, reports) {
      forall other | multiset(other) == multiset(reports) ensures Fold(start, other) == Fold(start, reports) {
        Confluent(start, reports, other);
      }
    } else {
      var a, b := OrderMatters(start, reports);
    }
  }

  lemma {:induction false} NeverStrong(start: Status, reports: seq<Status>)
    requires !Strong(start) && forall s :: s in reports ==> !Strong(s)
    ensures !Strong(Fold(start, reports))
  {
    if reports != [] {
      var front := reports[..|reports| - 1];
      assert forall s :: s in front ==> s in reports;
      NeverStrong(start, front);
      assert reports[|reports| - 1] in reports;
    }
  }

  predicate Terminal(s: Status) {
    Strong(s) || s == Failed
  }

  /** The statuses in the order a delivery goes through them; the others rank below all of these. */
  lemma RanksInOrder(s: Status)
    ensures Rank(Failed) < Rank(Pending) < Rank(Processing) < Rank(Accepted) < Rank(Sent) < Rank(Delivered) < Rank(Read)
    ensures s in {Failed, Unknown, Ready} <==> Rank(s) < Rank(Pending)
  {
  }

  /** The four reports the provider sends end in read if that was ever seen, else in delivered, in sent, in failed, or at the start. */
  lemma FinalStatus(start: Status, reports: seq<Status>)
    requires forall i :: 0 <= i < |reports| ==> Terminal(reports[i])
    ensures var seen := [start] + reports;
      Fold(start, reports) ==
        if Read in seen then Read else if Delivered in seen then Delivered else if Sent in seen then Sent
        else if Failed in reports then Failed else start
  {
    TerminalOutcome(start, reports);
    var seen := [start] + reports;
    if Strong(start) || AnyStrong(reports) { HighestStrong(seen); }
    StrongSeen(start, reports);
  }

  /** The highest of some statuses of which one is strong, by name. */
  lemma HighestStrong(seen: seq<Status>)
    requires HighestRank(seen) >= 3
    ensures OfRank(HighestRank(seen)) == if Read in seen then Read else if Delivered in seen then Delivered else Sent
    ensures Read in seen || Delivered in seen || Sent in seen
  {
    HighestIsAttained(seen);
    var i :| 0 <= i < |seen| && Rank(seen[i]) == HighestRank(seen);
    assert seen[i] in seen && Strong(seen[i]);
  }

  lemma StrongSeen(start: Status, reports: seq<Status>)
    ensures var seen := [start] + reports;
      Strong(start) || AnyStrong(reports) <==> Read in seen || Delivered in seen || Sent in seen
  {
    var seen := [start] + reports;
    assert seen[0] == start && forall i :: 0 <= i < |reports| ==> seen[i + 1] == reports[i];
    if AnyStrong(reports) {
      var i :| 0 <= i < |reports| && Strong(reports[i]);
      assert seen[i + 1] in seen;
    }
    forall s | s in seen && Strong(s) ensures Strong(start) || AnyStrong(reports) {
      var i :| 0 <= i < |seen| && seen[i] == s;
      if i > 0 { assert Strong(reports[i - 1]); }
    }
  }

  lemma TerminalOutcome(start: Status, reports: seq<Status>)
    requires forall i :: 0 <= i < |reports| ==> Terminal(reports[i])
    ensures Fold(start, reports) ==
      if Strong(start) || AnyStrong(reports) then OfRank(HighestRank([start] + reports))
      else if Failed in reports then Failed
      else start
    ensures Strong(start) || AnyStrong(reports) ==> HighestRank([start] + reports) >= 3
  {
    FoldOutcome(start, reports);
    TerminalHighest(start, reports);
    AfterFailureWithin(reports);
    OnlyFailures(reports);
  }

  lemma TerminalHighest(start: Status, reports: seq<Status>)
    requires forall i :: 0 <= i < |reports| ==> Terminal(reports[i])
    ensures HighestRank([start] + reports) >= 3 <==> Strong(start) || AnyStrong(reports)
    ensures Failed !in reports && reports != [] ==> AnyStrong(reports)
    ensures !AnyStrong(reports) ==> forall s :: s in reports ==> s == Failed
  {
    HighestOfStart(start, reports);
    if reports != [] { assert reports[0] in reports; }
  }

  lemma HighestOfStart(start: Status, reports: seq<Status>)
    requires forall i :: 0 <= i < |reports| ==> Terminal(reports[i])
    ensures HighestRank([start] + reports) >= 3 <==> Strong(start) || AnyStrong(reports)
  {
    var all := [start] + reports;
    HighestIsAttained(all);
    assert all[0] == start;
    assert forall i :: 0 <= i < |reports| ==> all[i + 1] == reports[i];
  }

  // ---- the rows a report updates ----

  function ParseStatus(text: string): Option<Status> {
    var s := Text.Lower(text);
    if s == "pending" then Some(Pending) else if s == "processing" then Some(Processing)
    else if s == "accepted" then Some(Accepted) else if s == "sent" then Some(Sent)
    else if s == "delivered" then Some(Delivered) else if s == "read" then Some(Read)
    else if s == "failed" then Some(Failed) else None
  }

  /** Exactly the seven names of reported statuses are read, in either case. */
  lemma ParseStatusReads(text: string)
    ensures ParseStatus(text).Some? <==>
      Text.Lower(text) in {"pending", "processing", "accepted", "sent", "delivered", "read", "failed"}
    ensures ParseStatus(text) == Some(Pending) <==> Text.Lower(text) == "pending"
    ensures ParseStatus(text) == Some(Processing) <==> Text.Lower(text) == "processing"
    ensures ParseStatus(text) == Some(Accepted) <==> Text.Lower(text) == "accepted"
    ensures ParseStatus(text) == Some(Sent) <==> Text.Lower(text) == "sent"
    ensures ParseStatus(text) == Some(Delivered) <==> Text.Lower(text) == "delivered"
    ensures ParseStatus(text) == Some(Read) <==> Text.Lower(text) == "read"
    ensures ParseStatus(text) == Some(Failed) <==> Text.Lower(text) == "failed"
  {
  }

  datatype Report = Report(messageId: string, status: string, time: int, errorCode: string)

  /** What the report makes of a status; a report with no id or an unknown status is dropped. */
  function Effect(current: Status, r: Report): Status {
    var incoming := ParseStatus(r.status);
    if r.messageId == "" || incoming.None? then current else Merge(current, incoming.value)
  }

  /** The accepted statuses of a batch, in order. */
  function Reports(rs: seq<Report>): (s: seq<Status>)
    ensures AllReportable(s)
  {
    if rs == [] then []
    else
      var front := Reports(rs[..|rs| - 1]);
      var last := rs[|rs| - 1];
      var incoming := ParseStatus(last.status);
      if last.messageId == "" || incoming.None? then front else front + [incoming.value]
  }

  /** A delivery row and its job row. */
  class Delivery {
    var status: Status
    var jobStatus: Status
    var messageId: string
    var stampedAt: map<Status, int>
    var lastError: Option<string>

    constructor ()
      ensures status == Pending && jobStatus == Pending && messageId == "" && stampedAt == map[] && lastError == None
    {
      status, jobStatus, messageId, stampedAt, lastError := Pending, Pending, "", map[], None;
    }

    method RecordStatus(r: Report)
      modifies this
      ensures status == Effect(old(status), r)
      ensures var applied := r.messageId != "" && ParseStatus(r.status) == Some(status);
        if applied then
          && jobStatus == status && messageId == r.messageId
          && stampedAt == (if status in {Accepted, Sent, Delivered, Read, Failed} then old(stampedAt)[status := r.time] else old(stampedAt))
          && lastError == (if status == Failed then Some(r.errorCode) else old(lastError))
        else
          && jobStatus == old(jobStatus) && messageId == old(messageId)
          && stampedAt == old(stampedAt) && lastError == old(lastError)
    {
      var incoming := ParseStatus(r.status);
      if r.messageId == "" || incoming.None? {
        return;
      }
      var provider := incoming.value;
      if provider == Failed && status in {Sent, Delivered, Read} {
        return;
      }
      if provider != Failed && Rank(provider) < Rank(status) {
        return;
      }
      status := provider;
      jobStatus := provider;
      messageId := r.messageId;
      if provider in {Accepted, Sent, Delivered, Read, Failed} {
        stampedAt := stampedAt[provider := r.time];
      }
      if provider == Failed {
        lastError := Some(r.errorCode);
      }
    }

    /** A webhook call carries several reports. */
    method ReceiveAll(rs: seq<Report>)
      modifies this
      ensures status == Fold(old(status), Reports(rs))
    {
      for i := 0 to |rs|
        invariant status == Fold(old(status), Reports(rs[..i]))
      {
        assert rs[..i + 1][..i] == rs[..i];
        var before := Reports(rs[..i]);
        var incoming := ParseStatus(rs[i].status);
        if rs[i].messageId != "" && incoming.Some? {
          assert (before + [incoming.value])[..|before|] == before;
        }
        RecordStatus(rs[i]);
      }
      assert rs[..|rs|] == rs;
    }
  }
}
