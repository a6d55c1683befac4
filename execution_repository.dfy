/** The execution tracker's repository of the v2 deployments API (butler):
    callback bookkeeping, the two timeout sweeps and the paginated listing
    of executions. The database is an in-memory table of executions, a
    table of deployments keyed by deployment id and a table of components;
    the clock is the parameter `now`, in seconds. */
module ExecutionTracker {
  import opened Wrappers

  datatype ExecutionType = DeploymentExecution | UndeploymentExecution

  /** The members of the status enum the repository imports; of these the
      repository itself names only `TIMED_OUT`, and the others stand in for
      the rest of the enum, whose file is not part of this model. */
  datatype DeploymentStatus =
    | Created | Deploying | Deployed | DeployFailed
    | Undeploying | Undeployed | UndeployFailed | TimedOut

  datatype NotificationStatus = NotSent | Sent | Error

  /** A row of the executions table; times are seconds. */
  datatype Execution = Execution(
    id: string,
    deploymentId: string,
    executionType: ExecutionType,
    incomingCircleId: string,
    status: DeploymentStatus,
    notificationStatus: NotificationStatus,
    createdAt: nat,
    finishedAt: Option<nat>)

  /** The columns of a deployment row that the sweeps and the listing read. */
  datatype Deployment = Deployment(
    id: string,
    circleId: string,
    current: bool,
    healthy: bool,
    routed: bool,
    timeoutInSeconds: nat)

  datatype Component = Component(id: string, deploymentId: string, name: string, running: bool)

  /** Execution ids are the table's primary key. */
  ghost predicate UniqueIds(execs: seq<Execution>)
  {
    forall i, j :: 0 <= i < j < |execs| ==> execs[i].id != execs[j].id
  }

  // ---------------------------------------------------------------------
  // Callback status

  /** The notification status recorded for an HTTP status code returned by
      the callback: any 2xx code means the notification was sent. */
  function NotificationStatusFor(code: int): (s: NotificationStatus)
    ensures s == Sent <==> 200 <= code < 300
    ensures s == Error <==> (code < 200 || 300 <= code)
  {
    if code >= 200 && code < 300 then Sent else Error
  }

  // ---------------------------------------------------------------------
  // Timeout sweep over current deployments

  /** The five conditions of the timeout sweep's query, for an execution
      joined (left join) with its deployment. An execution without a
      deployment row fails `d.current = true`. */
  predicate TimedOutCandidate(e: Execution, deployments: map<string, Deployment>, now: nat)
  {
    && e.deploymentId in deployments
    && e.createdAt < now - deployments[e.deploymentId].timeoutInSeconds
    && e.notificationStatus == NotSent
    && e.status != TimedOut
    && deployments[e.deploymentId].current
    && (!deployments[e.deploymentId].healthy || !deployments[e.deploymentId].routed)
  }

  /** The rows the sweep's query returns, in table order. */
  function SelectTimedOut(execs: seq<Execution>, deployments: map<string, Deployment>, now: nat): (r: seq<Execution>)
    ensures |r| <= |execs|
    ensures forall e :: e in r <==> e in execs && TimedOutCandidate(e, deployments, now)
  {
    if execs == [] then []
    else
      assert forall e :: e in execs <==> e == execs[0] || e in execs[1..];
      (if TimedOutCandidate(execs[0], deployments, now) then [execs[0]] else [])
        + SelectTimedOut(execs[1..], deployments, now)
  }

  function MarkTimedOut(e: Execution, deployments: map<string, Deployment>, now: nat): Execution
  {
    if TimedOutCandidate(e, deployments, now) then e.(status := TimedOut) else e
  }

  /** The executions table after the sweep. */
  function Sweep(execs: seq<Execution>, deployments: map<string, Deployment>, now: nat): (r: seq<Execution>)
    ensures |r| == |execs|
  {
    seq(|execs|, i requires 0 <= i < |execs| => MarkTimedOut(execs[i], deployments, now))
  }

  /** The sweep sets TIMED_OUT on exactly the selected rows, changes no other
      field of them, and leaves every other row as it was. */
  lemma SweepChangesExactlyTheSelected(execs: seq<Execution>, deployments: map<string, Deployment>, now: nat, i: nat)
    requires i < |execs|
    ensures TimedOutCandidate(execs[i], deployments, now) ==>
              Sweep(execs, deployments, now)[i] == execs[i].(status := TimedOut)
    ensures !TimedOutCandidate(execs[i], deployments, now) ==>
              Sweep(execs, deployments, now)[i] == execs[i]
    ensures Sweep(execs, deployments, now)[i] != execs[i] <==> TimedOutCandidate(execs[i], deployments, now)
  {
  }

  /** Running the sweep a second time with the same clock selects nothing and
      changes nothing: every row it touched is now TIMED_OUT. */
  lemma SweepIsIdempotent(execs: seq<Execution>, deployments: map<string, Deployment>, now: nat)
    ensures SelectTimedOut(Sweep(execs, deployments, now), deployments, now) == []
    ensures Sweep(Sweep(execs, deployments, now), deployments, now) == Sweep(execs, deployments, now)
  {
    var once := Sweep(execs, deployments, now);
    forall e | e in once
      ensures !TimedOutCandidate(e, deployments, now)
    {
      var i :| 0 <= i < |once| && once[i] == e;
      assert once[i] == MarkTimedOut(execs[i], deployments, now);
    }
    NothingSelected(once, deployments, now);
  }

  lemma {:induction false} NothingSelected(execs: seq<Execution>, deployments: map<string, Deployment>, now: nat)
    requires forall e :: e in execs ==> !TimedOutCandidate(e, deployments, now)
    ensures SelectTimedOut(execs, deployments, now) == []
  {
    if execs != [] {
      assert execs[0] in execs;
      NothingSelected(execs[1..], deployments, now);
    }
  }

  /** When no row qualifies, the sweep leaves the table unchanged. */
  lemma SweepWithNothingSelectedIsNoop(execs: seq<Execution>, deployments: map<string, Deployment>, now: nat)
    requires SelectTimedOut(execs, deployments, now) == []
    ensures Sweep(execs, deployments, now) == execs
  {
    forall i | 0 <= i < |execs|
      ensures Sweep(execs, deployments, now)[i] == execs[i]
    {
      assert execs[i] in execs;
    }
  }

  // ---------------------------------------------------------------------
  // Minute-based sweep

  /** The condition of the older sweep: created more than `minutes` minutes
      before `now` and not yet notified. It does not look at the deployment
      nor at the current status. */
  predicate ExpiredByMinutes(e: Execution, minutes: nat, now: nat)
  {
    e.createdAt < now - minutes * 60 && e.notificationStatus == NotSent
  }

  function MarkExpired(e: Execution, minutes: nat, now: nat): Execution
  {
    if ExpiredByMinutes(e, minutes, now) then e.(status := TimedOut) else e
  }

  /** The executions table after the older sweep. */
  function MinuteSweep(execs: seq<Execution>, minutes: nat, now: nat): (r: seq<Execution>)
    ensures |r| == |execs|
  {
    seq(|execs|, i requires 0 <= i < |execs| => MarkExpired(execs[i], minutes, now))
  }

  /** The deployments of the executions that the older sweep times out. */
  function ExpiredDeploymentIds(execs: seq<Execution>, minutes: nat, now: nat): set<string>
  {
    set k | 0 <= k < |execs| && ExpiredByMinutes(execs[k], minutes, now) :: execs[k].deploymentId
  }

  function StopComponent(c: Component, deploymentIds: set<string>): Component
  {
    if c.deploymentId in deploymentIds then c.(running := false) else c
  }

  /** The components table after the older sweep. */
  function StopComponents(comps: seq<Component>, deploymentIds: set<string>): (r: seq<Component>)
    ensures |r| == |comps|
  {
    seq(|comps|, i requires 0 <= i < |comps| => StopComponent(comps[i], deploymentIds))
  }

  /** A component is stopped exactly when some execution of its deployment
      timed out; every other component is left untouched. */
  lemma StoppedComponentsBelongToTimedOutExecutions(
    execs: seq<Execution>, comps: seq<Component>, minutes: nat, now: nat, i: nat)
    requires i < |comps|
    ensures var after := StopComponents(comps, ExpiredDeploymentIds(execs, minutes, now));
            (exists k :: 0 <= k < |execs| && ExpiredByMinutes(execs[k], minutes, now) && execs[k].deploymentId == comps[i].deploymentId)
              ==> after[i] == comps[i].(running := false)
    ensures var after := StopComponents(comps, ExpiredDeploymentIds(execs, minutes, now));
            (forall k :: 0 <= k < |execs| && ExpiredByMinutes(execs[k], minutes, now) ==> execs[k].deploymentId != comps[i].deploymentId)
              ==> after[i] == comps[i]
  {
  }

  /** Repeating the older sweep with the same clock selects the same
      executions and changes neither table again. */
  lemma {:induction false} MinuteSweepIsIdempotent(execs: seq<Execution>, comps: seq<Component>, minutes: nat, now: nat)
    ensures MinuteSweep(MinuteSweep(execs, minutes, now), minutes, now) == MinuteSweep(execs, minutes, now)
    ensures ExpiredDeploymentIds(MinuteSweep(execs, minutes, now), minutes, now) == ExpiredDeploymentIds(execs, minutes, now)
    ensures var ids := ExpiredDeploymentIds(execs, minutes, now);
            StopComponents(StopComponents(comps, ids), ids) == StopComponents(comps, ids)
  {
    var once := MinuteSweep(execs, minutes, now);
    forall k | 0 <= k < |execs|
      ensures ExpiredByMinutes(once[k], minutes, now) <==> ExpiredByMinutes(execs[k], minutes, now)
      ensures once[k].deploymentId == execs[k].deploymentId
    {
      assert once[k] == MarkExpired(execs[k], minutes, now);
    }
  }

  // ---------------------------------------------------------------------
  // Listing

  /** Strict lexicographic order on strings (the order of `e.id`). */
  predicate LexLess(a: string, b: string)
    decreases |a|
  {
    if a == [] then b != []
    else b != [] && (a[0] < b[0] || (a[0] == b[0] && LexLess(a[1..], b[1..])))
  }

  lemma {:induction false} LexLessAsymmetric(a: string, b: string)
    ensures !(LexLess(a, b) && LexLess(b, a))
    decreases |a|
  {
    if a != [] && b != [] && a[0] == b[0] {
      LexLessAsymmetric(a[1..], b[1..]);
    }
  }

  lemma {:induction false} LexNotLessTransitive(a: string, b: string, c: string)
    requires !LexLess(a, b) && !LexLess(b, c)
    ensures !LexLess(a, c)
    decreases |c|
  {
    if c != [] {
      assert b != [] && a != [];
      if a[0] == b[0] && b[0] == c[0] {
        LexNotLessTransitive(a[1..], b[1..], c[1..]);
      }
    }
  }

  /** `a` may be listed before `b`: created_at descending, then id descending. */
  predicate ListedBefore(a: Execution, b: Execution)
  {
    a.createdAt > b.createdAt || (a.createdAt == b.createdAt && !LexLess(a.id, b.id))
  }

  predicate ListOrdered(s: seq<Execution>)
  {
    forall i, j :: 0 <= i < j < |s| ==> ListedBefore(s[i], s[j])
  }

  lemma ListedBeforeTotal(a: Execution, b: Execution)
    ensures ListedBefore(a, b) || ListedBefore(b, a)
  {
    LexLessAsymmetric(a.id, b.id);
  }

  lemma ListedBeforeTransitive(a: Execution, b: Execution, c: Execution)
    requires ListedBefore(a, b) && ListedBefore(b, c)
    ensures ListedBefore(a, c)
  {
    if a.createdAt == b.createdAt == c.createdAt {
      LexNotLessTransitive(a.id, b.id, c.id);
    }
  }

  /** An element listed before every element of an ordered list can head it. */
  lemma ConsListOrdered(a: Execution, rest: seq<Execution>)
    requires ListOrdered(rest)
    requires forall y :: y in rest ==> ListedBefore(a, y)
    ensures ListOrdered([a] + rest)
  {
    var r := [a] + rest;
    forall i, j | 0 <= i < j < |r| ensures ListedBefore(r[i], r[j]) {
      assert r[j] == rest[j - 1];
      if i > 0 { assert r[i] == rest[i - 1]; }
    }
  }

  /** The head of an ordered list is listed before every other element. */
  lemma HeadListedFirst(s: seq<Execution>)
    requires ListOrdered(s) && s != []
    ensures forall y :: y in s[1..] ==> ListedBefore(s[0], y)
  {
    forall y | y in s[1..] ensures ListedBefore(s[0], y) {
      var j :| 0 <= j < |s[1..]| && s[1..][j] == y;
      assert s[j + 1] == y;
    }
  }

  /** Insertion into an ordered list. */
  function InsertListed(x: Execution, s: seq<Execution>): (r: seq<Execution>)
    requires ListOrdered(s)
    ensures ListOrdered(r)
    ensures multiset(r) == multiset(s) + multiset{x}
  {
    if s == [] then [x]
    else
      assert s == [s[0]] + s[1..];
      HeadListedFirst(s);
      if ListedBefore(x, s[0]) then
        assert forall y :: y in s ==> ListedBefore(x, y) by {
          forall y | y in s ensures ListedBefore(x, y) {
            if y != s[0] { ListedBeforeTransitive(x, s[0], y); }
          }
        }
        ConsListOrdered(x, s);
        [x] + s
      else
        ListedBeforeTotal(x, s[0]);
        var rest := InsertListed(x, s[1..]);
        assert forall y :: y in rest ==> ListedBefore(s[0], y) by {
          forall y | y in rest ensures ListedBefore(s[0], y) {
            assert y in multiset(rest);
          }
        }
        ConsListOrdered(s[0], rest);
        [s[0]] + rest
  }

  /** The listing order: created_at descending, then id descending. */
  function SortListed(s: seq<Execution>): (r: seq<Execution>)
    ensures ListOrdered(r)
    ensures multiset(r) == multiset(s)
  {
    if s == [] then []
    else
      assert s == [s[0]] + s[1..];
      InsertListed(s[0], SortListed(s[1..]))
  }

  /** The `d.current = :current` filter, applied only when `current` is truthy. */
  predicate MatchesCurrent(e: Execution, deployments: map<string, Deployment>, current: Option<bool>)
  {
    current == Some(true) ==> e.deploymentId in deployments && deployments[e.deploymentId].current
  }

  function FilterCurrent(execs: seq<Execution>, deployments: map<string, Deployment>, current: Option<bool>): (r: seq<Execution>)
    ensures multiset(r) <= multiset(execs)
    ensures forall e :: e in r <==> e in execs && MatchesCurrent(e, deployments, current)
    ensures current != Some(true) ==> r == execs
  {
    if execs == [] then []
    else
      assert execs == [execs[0]] + execs[1..];
      (if MatchesCurrent(execs[0], deployments, current) then [execs[0]] else [])
        + FilterCurrent(execs[1..], deployments, current)
  }

  /** OFFSET pageSize * page, LIMIT pageSize. */
  function Window(s: seq<Execution>, pageSize: nat, page: nat): (r: seq<Execution>)
    ensures |r| <= pageSize
    ensures |r| == if pageSize * page < |s|
                   then (if |s| - pageSize * page < pageSize then |s| - pageSize * page else pageSize)
                   else 0
    ensures pageSize * page < |s| ==> r != [] || pageSize == 0
    ensures forall k :: 0 <= k < |r| ==> pageSize * page + k < |s| && r[k] == s[pageSize * page + k]
    ensures ListOrdered(s) ==> ListOrdered(r)
  {
    var lo := if pageSize * page < |s| then pageSize * page else |s|;
    var hi := if lo + pageSize < |s| then lo + pageSize else |s|;
    s[lo..hi]
  }

  /** `listExecutionsAndRelations`: one page of the filtered executions in
      listing order, with the total number of filtered executions carried on
      every row; an empty page or a failed query yields `([], 0)`. */
  function ListExecutionsAndRelations(
    execs: seq<Execution>, deployments: map<string, Deployment>,
    pageSize: nat, page: nat, current: Option<bool>, queryFails: bool): (r: (seq<Execution>, nat))
    ensures queryFails ==> r == ([], 0)
    ensures r.0 == [] ==> r.1 == 0
    ensures |r.0| <= pageSize
    ensures ListOrdered(r.0)
    ensures forall e :: e in r.0 ==> e in execs && MatchesCurrent(e, deployments, current)
    ensures r.0 != [] ==> r.1 == |FilterCurrent(execs, deployments, current)|
    ensures !queryFails ==> r.0 == Window(SortListed(FilterCurrent(execs, deployments, current)), pageSize, page)
  {
    if queryFails then ([], 0)
    else
      var matching := FilterCurrent(execs, deployments, current);
      var sorted := SortListed(matching);
      var rows := Window(sorted, pageSize, page);
      WindowOfListing(execs, deployments, pageSize, page, current);
      if |rows| > 0 then (rows, |sorted|) else ([], 0)
  }

  lemma WindowOfListing(
    execs: seq<Execution>, deployments: map<string, Deployment>, pageSize: nat, page: nat, current: Option<bool>)
    ensures var matching := FilterCurrent(execs, deployments, current);
            var rows := Window(SortListed(matching), pageSize, page);
            && |SortListed(matching)| == |matching|
            && forall e :: e in rows ==> e in execs && MatchesCurrent(e, deployments, current)
  {
    var matching := FilterCurrent(execs, deployments, current);
    var sorted := SortListed(matching);
    var rows := Window(sorted, pageSize, page);
    assert |multiset(sorted)| == |multiset(matching)|;
    forall e | e in rows ensures e in execs && MatchesCurrent(e, deployments, current) {
      var k :| 0 <= k < |rows| && rows[k] == e;
      assert sorted[pageSize * page + k] == e;
      assert e in multiset(sorted);
      assert e in matching;
    }
  }

  /** A falsy `current` (false or undefined) applies no filter. */
  lemma FalsyCurrentAppliesNoFilter(
    execs: seq<Execution>, deployments: map<string, Deployment>, pageSize: nat, page: nat, queryFails: bool)
    ensures ListExecutionsAndRelations(execs, deployments, pageSize, page, Some(false), queryFails)
         == ListExecutionsAndRelations(execs, deployments, pageSize, page, None, queryFails)
  {
  }

  // ---------------------------------------------------------------------
  // The repository, whose tables the updates change in place

  class ExecutionRepository {
    var executions: seq<Execution>
    var deployments: map<string, Deployment>
    var components: seq<Component>

    ghost predicate Valid()
      reads this
    {
      UniqueIds(executions)
    }

    constructor (executions: seq<Execution>, deployments: map<string, Deployment>, components: seq<Component>)
      requires UniqueIds(executions)
      ensures Valid()
      ensures this.executions == executions && this.deployments == deployments && this.components == components
    {
      this.executions := executions;
      this.deployments := deployments;
      this.components := components;
    }

    /** `updateNotificationStatus`: sets the notification status of the row
        with the given id from the callback's HTTP status code. */
    method UpdateNotificationStatus(id: string, code: int)
      requires Valid()
      modifies this
      ensures Valid()
      ensures |executions| == |old(executions)|
      ensures forall i :: 0 <= i < |executions| ==>
                executions[i] == if old(executions)[i].id == id
                                 then old(executions)[i].(notificationStatus := NotificationStatusFor(code))
                                 else old(executions)[i]
      ensures deployments == old(deployments) && components == old(components)
    {
      var status := NotificationStatusFor(code);
      var rows := executions;
      executions := seq(|rows|, i requires 0 <= i < |rows| =>
                          if rows[i].id == id then rows[i].(notificationStatus := status) else rows[i]);
    }

    /** `manager.update(Execution, id, { status })`. */
    method UpdateStatus(id: string, status: DeploymentStatus)
      requires Valid()
      modifies this
      ensures Valid()
      ensures |executions| == |old(executions)|
      ensures forall i :: 0 <= i < |executions| ==>
                executions[i] == if old(executions)[i].id == id then old(executions)[i].(status := status) else old(executions)[i]
      ensures deployments == old(deployments) && components == old(components)
    {
      var rows := executions;
      executions := seq(|rows|, i requires 0 <= i < |rows| =>
                          if rows[i].id == id then rows[i].(status := status) else rows[i]);
    }

    /** `updateTimedOutExecutions`: in one transaction, selects the timed-out
        executions and marks each of them TIMED_OUT; returns the selected rows
        as they were read. */
    method UpdateTimedOutExecutions(now: nat) returns (timedOut: seq<Execution>)
      requires Valid()
      modifies this
      ensures Valid()
      ensures timedOut == SelectTimedOut(old(executions), deployments, now)
      ensures executions == Sweep(old(executions), deployments, now)
      ensures deployments == old(deployments) && components == old(components)
    {
      timedOut := SelectTimedOut(executions, deployments, now);
      ghost var marked: set<string> := {};
      var i := 0;
      while i < |timedOut|
        invariant 0 <= i <= |timedOut|
        invariant Valid()
        invariant deployments == old(deployments) && components == old(components)
        invariant marked == set j | 0 <= j < i :: timedOut[j].id
        invariant |executions| == |old(executions)|
        invariant forall k :: 0 <= k < |executions| ==>
                    executions[k] == if old(executions)[k].id in marked
                                     then old(executions)[k].(status := TimedOut) else old(executions)[k]
      {
        UpdateStatus(timedOut[i].id, TimedOut);
        marked := marked + {timedOut[i].id};
        i := i + 1;
      }
      forall k | 0 <= k < |executions|
        ensures executions[k] == MarkTimedOut(old(executions)[k], deployments, now)
      {
        var e := old(executions)[k];
        if TimedOutCandidate(e, deployments, now) {
          assert e in timedOut;
          var j :| 0 <= j < |timedOut| && timedOut[j] == e;
          assert e.id in marked;
        } else {
          forall j | 0 <= j < |timedOut|
            ensures timedOut[j].id != e.id
          {
            var t := timedOut[j];
            assert t in timedOut;
            var k' :| 0 <= k' < |old(executions)| && old(executions)[k'] == t;
            assert k' != k;
          }
        }
      }
    }

    /** `updateTimedOutStatus`: marks TIMED_OUT every not-notified execution
        older than `minutes` minutes and stops every component of their
        deployments, in one statement. */
    method UpdateTimedOutStatus(minutes: nat, now: nat)
      modifies this
      ensures executions == MinuteSweep(old(executions), minutes, now)
      ensures components == StopComponents(old(components), ExpiredDeploymentIds(old(executions), minutes, now))
      ensures deployments == old(deployments)
    {
      var stopped: set<string> := {};
      var i := 0;
      while i < |executions|
        invariant 0 <= i <= |executions| == |old(executions)|
        invariant components == old(components) && deployments == old(deployments)
        invariant forall k :: 0 <= k < i ==> executions[k] == MarkExpired(old(executions)[k], minutes, now)
        invariant forall k :: i <= k < |executions| ==> executions[k] == old(executions)[k]
        invariant stopped == set k | 0 <= k < i && ExpiredByMinutes(old(executions)[k], minutes, now) :: old(executions)[k].deploymentId
      {
        var e := executions[i];
        if ExpiredByMinutes(e, minutes, now) {
          executions := executions[i := e.(status := TimedOut)];
          stopped := stopped + {e.deploymentId};
        }
        i := i + 1;
      }
      assert stopped == ExpiredDeploymentIds(old(executions), minutes, now);
      var j := 0;
      while j < |components|
        invariant 0 <= j <= |components| == |old(components)|
        invariant executions == MinuteSweep(old(executions), minutes, now)
        invariant deployments == old(deployments)
        invariant forall k :: 0 <= k < j ==> components[k] == StopComponent(old(components)[k], stopped)
        invariant forall k :: j <= k < |components| ==> components[k] == old(components)[k]
      {
        if components[j].deploymentId in stopped {
          components := components[j := components[j].(running := false)];
        }
        j := j + 1;
      }
    }
  }
}
