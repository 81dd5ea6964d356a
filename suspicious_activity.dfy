/** The burst-delete rule: more than five DELETE actions by one
    organization within the last minute raise an alert. */
module SuspiciousActivity {
  import opened Wrappers
  import opened LogModel
  import opened OrganizationModel

  /** The window, in milliseconds. */
  const WindowMs: int := 60 * 1000

  /** An alert needs strictly more deletes than this. */
  const Threshold: nat := 5

  /** The notification: the organization and the count that triggered it. */
  datatype Alert = Alert(org: Organization, count: nat)

  /** The count's filter: the organization's logs whose action is exactly
      "DELETE", created at or after `now` minus the window. */
  predicate Counted(log: Log, orgId: string, now: int) {
    log.organizationId == orgId && log.action == "DELETE" && log.createdAt >= now - WindowMs
  }

  function DeleteCount(logs: seq<Log>, orgId: string, now: int): (n: nat)
    ensures n <= |logs|
    ensures n == 0 <==> forall i :: 0 <= i < |logs| ==> !Counted(logs[i], orgId, now)
  {
    if logs == [] then 0
    else DeleteCount(logs[..|logs| - 1], orgId, now) + (if Counted(logs[|logs| - 1], orgId, now) then 1 else 0)
  }

  /** checkSuspiciousActivity: the alert to send, if any. The store and the
      clock are parameters; the mail transport is the caller's. */
  function CheckSuspiciousActivity(logs: seq<Log>, orgs: seq<Organization>, orgId: string, now: int): (r: Option<Alert>)
    ensures r.Some? <==> DeleteCount(logs, orgId, now) > Threshold && FindById(orgs, orgId).Some?
    ensures r.Some? ==> r.value.count == DeleteCount(logs, orgId, now) && r.value.org.id == orgId
  {
    var n := DeleteCount(logs, orgId, now);
    if n > Threshold then
      match FindById(orgs, orgId)
      case None => None
      case Some(org) => Some(Alert(org, n))
    else None
  }

  /** The count is the size of the filtered store. */
  lemma {:induction false} DeleteCountIsFilter(logs: seq<Log>, orgId: string, now: int)
    ensures DeleteCount(logs, orgId, now) == |Filter(logs, orgId, now)|
    ensures forall l :: l in Filter(logs, orgId, now) <==> l in logs && Counted(l, orgId, now)
  {
    if logs != [] {
      var init := logs[..|logs| - 1];
      DeleteCountIsFilter(init, orgId, now);
      assert logs == init + [logs[|logs| - 1]];
    }
  }

  function Filter(logs: seq<Log>, orgId: string, now: int): seq<Log> {
    if logs == [] then []
    else
      var last := logs[|logs| - 1];
      Filter(logs[..|logs| - 1], orgId, now) + (if Counted(last, orgId, now) then [last] else [])
  }

  /** Appending a log adds one to the count exactly when the log is counted. */
  lemma {:induction false} AppendCount(logs: seq<Log>, log: Log, orgId: string, now: int)
    ensures DeleteCount(logs + [log], orgId, now)
         == DeleteCount(logs, orgId, now) + (if Counted(log, orgId, now) then 1 else 0)
  {
    assert (logs + [log])[..|logs|] == logs;
  }

  /** The window includes its lower boundary: a delete created exactly one
      minute before the check counts, one a millisecond earlier does not. */
  lemma {:induction false} WindowBoundary(log: Log, orgId: string, now: int)
    requires log.organizationId == orgId && log.action == "DELETE"
    ensures log.createdAt == now - 60000 ==> Counted(log, orgId, now)
    ensures log.createdAt == now - 60001 ==> !Counted(log, orgId, now)
  {
  }

  /** Only the action field is matched, case-sensitively: "delete" does not
      count, and neither does a log whose event type is DELETE under
      another action. */
  lemma {:induction false} ActionOnly(log: Log, orgId: string, now: int)
    requires log.action == "delete" || (log.eventType == DELETE && log.action != "DELETE")
    ensures !Counted(log, orgId, now)
  {
  }

  /** Another organization's logs do not change the count. */
  lemma {:induction false} OtherTenantsIgnored(logs: seq<Log>, others: seq<Log>, orgId: string, now: int)
    requires forall i :: 0 <= i < |others| ==> others[i].organizationId != orgId
    ensures DeleteCount(logs + others, orgId, now) == DeleteCount(logs, orgId, now)
    decreases |others|
  {
    if others != [] {
      var init := others[..|others| - 1];
      OtherTenantsIgnored(logs, init, orgId, now);
      assert !Counted(others[|others| - 1], orgId, now);
      assert logs + others == (logs + init) + [others[|others| - 1]];
      AppendCount(logs + init, others[|others| - 1], orgId, now);
    } else {
      assert logs + others == logs;
    }
  }

  /** Logs falling out of the window, as the clock moves on, never raise the
      count. */
  lemma {:induction false} CountMonotoneInTime(logs: seq<Log>, orgId: string, now: int, later: int)
    requires now <= later
    ensures DeleteCount(logs, orgId, later) <= DeleteCount(logs, orgId, now)
  {
    if logs != [] {
      CountMonotoneInTime(logs[..|logs| - 1], orgId, now, later);
    }
  }

  /** No state is kept between calls: once the count is above five, each
      further delete in the window alerts again, with the new count. */
  lemma {:induction false} RepeatedAlerts(logs: seq<Log>, orgs: seq<Organization>, orgId: string, now: int, log: Log)
    requires CheckSuspiciousActivity(logs, orgs, orgId, now).Some?
    requires Counted(log, orgId, now)
    ensures var r := CheckSuspiciousActivity(logs + [log], orgs, orgId, now);
            r.Some? && r.value.count == CheckSuspiciousActivity(logs, orgs, orgId, now).value.count + 1
  {
    AppendCount(logs, log, orgId, now);
  }

  /** Six deletes in the window alert a known organization; five never
      alert. */
  lemma {:induction false} SixDeletesAlert(logs: seq<Log>, orgs: seq<Organization>, orgId: string, now: int)
    requires |logs| == 6 && forall i :: 0 <= i < 6 ==> Counted(logs[i], orgId, now)
    requires FindById(orgs, orgId).Some?
    ensures CheckSuspiciousActivity(logs, orgs, orgId, now) == Some(Alert(FindById(orgs, orgId).value, 6))
  {
    AllCounted(logs, orgId, now);
  }

  lemma {:induction false} FiveNeverAlert(logs: seq<Log>, orgs: seq<Organization>, orgId: string, now: int)
    requires |logs| <= 5
    ensures CheckSuspiciousActivity(logs, orgs, orgId, now).None?
  {
  }

  lemma {:induction false} AllCounted(logs: seq<Log>, orgId: string, now: int)
    requires forall i :: 0 <= i < |logs| ==> Counted(logs[i], orgId, now)
    ensures DeleteCount(logs, orgId, now) == |logs|
  {
    if logs != [] {
      AllCounted(logs[..|logs| - 1], orgId, now);
    }
  }
}
