/** Plans, results, the final verdict of a result, and which failures are worth another attempt. */
module Verdict {
  import opened Basics

  /** What ties a result to its plan. Blank fields are absent ones. */
  datatype Identity = Identity(
    itemId: string, planId: string, device: string, taskId: string, clientTaskId: string, taskName: string)

  datatype Protocol = BMC | SSH | UNKNOWN

  /** `itemAttribute` tells whether the plan object has the attribute `plan_item_id`, blank or not. */
  datatype Plan = Plan(
    identity: Identity, protocol: Protocol, retryCount: int, status: string, skipReason: string, itemAttribute: bool)

  datatype Result = Result(
    identity: Identity,
    status: string,
    reason: string,
    ruleStatus: string,
    artifactStatus: string,
    checkpointStatus: string,
    readyStatus: string,
    verdict: string,
    unknownStatus: bool,
    rawStatus: string)

  /** The parts a new result starts with. */
  const BLANK := Result(
    Identity("", "", "", "", "", ""), "", "", "RULE_DISABLED", "ARTIFACT_PENDING", "CHECK_DISABLED", "READY_UNKNOWN", "", false, "")

  /** A result as the program itself constructs one for a plan: it copies every identity field but the item id. */
  function ResultFor(p: Plan, status: string, reason: string): Result {
    BLANK.(identity := p.identity.(itemId := ""), status := status, reason := reason)
  }

  /** Such a result says nothing but its status and reason. */
  lemma ResultForIs(p: Plan, status: string, reason: string)
    ensures ResultFor(p, status, reason) == Result(
      p.identity.(itemId := ""), status, reason,
      "RULE_DISABLED", "ARTIFACT_PENDING", "CHECK_DISABLED", "READY_UNKNOWN", "", false, "")
  {
  }

  const EXEC_SKIPPED := "EXEC_SKIPPED"
  const EXEC_SUCCESS := "EXEC_SUCCESS"
  const EXEC_FAILED := "EXEC_FAILED"
  const EXEC_ERROR := "EXEC_ERROR"
  const EXEC_TIMEOUT := "EXEC_TIMEOUT"

  predicate Skipped(status: string) {
    StartsWith(status, EXEC_SKIPPED)
  }

  predicate Known(status: string) {
    status in {EXEC_SUCCESS, EXEC_FAILED, EXEC_ERROR, EXEC_TIMEOUT, "EXEC_PARTIAL", "EXEC_BLOCKED", "PRECHECK_SKIPPED"}
    || Skipped(status)
  }

  function ComputeVerdict(r: Result): string {
    if !Known(r.status) then "FAIL"
    else if r.status in {EXEC_FAILED, EXEC_ERROR, EXEC_TIMEOUT} then "FAIL"
    else if r.artifactStatus == "ARTIFACT_FAILED" then "FAIL"
    else if r.checkpointStatus == "CHECK_FAIL" then "FAIL"
    else if Skipped(r.status) || r.status == "PRECHECK_SKIPPED" then "SKIPPED"
    else if r.status == "EXEC_BLOCKED" then "BLOCKED"
    else if r.status == "EXEC_PARTIAL" then "WARN"
    else if r.readyStatus == "READY_NOT_READY" then "WARN"
    else if r.checkpointStatus == "CHECK_WARN" then "WARN"
    else if r.artifactStatus == "ARTIFACT_PARTIAL" then "WARN"
    else if r.status == EXEC_SUCCESS then "PASS"
    else "FAIL"
  }

  /** The result with its verdict, and with an unknown status kept aside. */
  function Judged(r: Result): Result {
    r.(verdict := ComputeVerdict(r), unknownStatus := !Known(r.status), rawStatus := if Known(r.status) then "" else r.status)
  }

  predicate FailsByPart(r: Result) {
    r.artifactStatus == "ARTIFACT_FAILED" || r.checkpointStatus == "CHECK_FAIL"
  }

  predicate WarnsByPart(r: Result) {
    r.readyStatus == "READY_NOT_READY" || r.checkpointStatus == "CHECK_WARN" || r.artifactStatus == "ARTIFACT_PARTIAL"
  }

  /** Failure outranks skipping, skipping outranks a warning, and only an unblemished success passes. */
  lemma VerdictRanks(r: Result)
    ensures ComputeVerdict(r) in {"FAIL", "SKIPPED", "BLOCKED", "WARN", "PASS"}
    ensures ComputeVerdict(r) == "PASS" <==> r.status == EXEC_SUCCESS && !FailsByPart(r) && !WarnsByPart(r)
    ensures ComputeVerdict(r) == "FAIL" <==>
      !Known(r.status) || r.status in {EXEC_FAILED, EXEC_ERROR, EXEC_TIMEOUT} || FailsByPart(r)
    ensures ComputeVerdict(r) == "SKIPPED" <==>
      (Skipped(r.status) || r.status == "PRECHECK_SKIPPED") && !FailsByPart(r)
  {
    assert EXEC_SUCCESS[5] != "EXEC_SKIPPED"[6];
    assert Skipped(r.status) ==> r.status[5] == 'S' && r.status[6] == 'K';
  }

  predicate SaysSkipped(status: string) {
    |status| >= 12 && status[..12] == "EXEC_SKIPPED"
  }

  /** The statuses that have a meaning. */
  predicate Named(status: string) {
    || status == "EXEC_SUCCESS" || status == "EXEC_FAILED" || status == "EXEC_ERROR" || status == "EXEC_TIMEOUT"
    || status == "EXEC_PARTIAL" || status == "EXEC_BLOCKED" || status == "PRECHECK_SKIPPED" || SaysSkipped(status)
  }

  /** Which of the five verdicts a result gets, and that a status without a meaning is put aside. */
  lemma VerdictIs(r: Result)
    ensures var v := Judged(r).verdict; var fails := r.artifactStatus == "ARTIFACT_FAILED" || r.checkpointStatus == "CHECK_FAIL";
      var warns := r.readyStatus == "READY_NOT_READY" || r.checkpointStatus == "CHECK_WARN" || r.artifactStatus == "ARTIFACT_PARTIAL";
      && (v == "PASS" <==> r.status == "EXEC_SUCCESS" && !fails && !warns)
      && (v == "WARN" <==> !fails && (r.status == "EXEC_PARTIAL" || (r.status == "EXEC_SUCCESS" && warns)))
      && (v == "BLOCKED" <==> !fails && r.status == "EXEC_BLOCKED")
      && (v == "SKIPPED" <==> !fails && (SaysSkipped(r.status) || r.status == "PRECHECK_SKIPPED"))
      && v in {"FAIL", "SKIPPED", "BLOCKED", "WARN", "PASS"}
    ensures Judged(r) == r.(
      verdict := Judged(r).verdict, unknownStatus := !Named(r.status), rawStatus := if Named(r.status) then "" else r.status)
  {
    Words();
  }

  lemma Words()
    ensures "EXEC_SUCCESS" == EXEC_SUCCESS && EXEC_SKIPPED == "EXEC_SKIPPED"
    ensures |{"FAIL", "SKIPPED", "BLOCKED", "WARN", "PASS"}| == 5
    ensures "EXEC_SUCCESS" != "EXEC_PARTIAL" && "EXEC_SUCCESS" != "EXEC_BLOCKED" && "EXEC_PARTIAL" != "EXEC_BLOCKED"
    ensures forall status :: SaysSkipped(status) ==>
      status !in {"EXEC_SUCCESS", "EXEC_FAILED", "EXEC_ERROR", "EXEC_TIMEOUT", "EXEC_PARTIAL", "EXEC_BLOCKED", "PRECHECK_SKIPPED"}
    ensures "PRECHECK_SKIPPED" !in {"EXEC_SUCCESS", "EXEC_FAILED", "EXEC_ERROR", "EXEC_TIMEOUT", "EXEC_PARTIAL", "EXEC_BLOCKED"}
    ensures forall status :: SaysSkipped(status) <==> Skipped(status)
  {
    assert "FAIL"[0] == 'F' && "SKIPPED"[0] == 'S' && "BLOCKED"[0] == 'B' && "WARN"[0] == 'W' && "PASS"[0] == 'P';
    assert "EXEC_SUCCESS"[5] == 'S' && "EXEC_SUCCESS"[6] == 'U' && "EXEC_FAILED"[5] == 'F' && "EXEC_ERROR"[5] == 'E';
    assert "EXEC_TIMEOUT"[5] == 'T' && "EXEC_PARTIAL"[5] == 'P' && "EXEC_BLOCKED"[5] == 'B' && "PRECHECK_SKIPPED"[0] == 'P';
    assert "EXEC_SKIPPED"[5] == 'S' && "EXEC_SKIPPED"[6] == 'K' && "EXEC_SKIPPED"[0] == 'E';
    forall status | SaysSkipped(status)
      ensures status !in {"EXEC_SUCCESS", "EXEC_FAILED", "EXEC_ERROR", "EXEC_TIMEOUT", "EXEC_PARTIAL", "EXEC_BLOCKED", "PRECHECK_SKIPPED"}
    {
      assert status[5] == status[..12][5] && status[6] == status[..12][6] && status[0] == status[..12][0];
    }
  }

  // ----- retryability -----

  const TRANSIENT: seq<string> := [
    "WinError 10054", "10054", "connection reset", "Connection reset", "forcibly closed", "远程主机强迫关闭",
    "remote host closed", "connection aborted", "Connection aborted", "ECONNRESET"]

  const NON_RETRYABLE: seq<string> := [
    "认证失败", "Authentication", "密码错误", "IP为空", "IP empty", "COMMAND_MISSING", "COMMAND_OUTPUT_MISSING",
    "ONLY_LOGIN_BANNER", "规则检查失败", "JSON 解析失败", "JSON schema invalid", "CONFIG_INVALID", "Path escape",
    "Unsafe path component", "BMC_SESSION_PREEMPTED", "Unsupported protocol", "SSH认证失败", "SSH错误: ChannelException",
    "too many authentication"]

  predicate IsTransient(r: Result) {
    r.status in {EXEC_ERROR, EXEC_FAILED, EXEC_TIMEOUT}
    && !ContainsAny(r.reason, NON_RETRYABLE) && ContainsAny(r.reason, TRANSIENT)
  }

  predicate IsRetryable(r: Result) {
    if ContainsAny(r.reason, NON_RETRYABLE) then false
    else if IsTransient(r) then true
    else r.status in {EXEC_TIMEOUT, EXEC_FAILED}
  }

  /** An error is worth another attempt only for a transient reason, a failure or timeout for any reason not ruled out. */
  lemma RetryableIff(r: Result)
    ensures IsRetryable(r) <==>
      && !ContainsAny(r.reason, NON_RETRYABLE)
      && (r.status in {EXEC_TIMEOUT, EXEC_FAILED} || (r.status == EXEC_ERROR && ContainsAny(r.reason, TRANSIENT)))
    ensures IsTransient(r) ==> IsRetryable(r)
    ensures IsRetryable(r) ==> r.status != EXEC_SUCCESS
  {
  }

  /** What stands for a connection that broke. */
  predicate Broke(reason: string) {
    || Contains(reason, "10054") || Contains(reason, "connection reset") || Contains(reason, "Connection reset")
    || Contains(reason, "forcibly closed") || Contains(reason, "远程主机强迫关闭") || Contains(reason, "remote host closed")
    || Contains(reason, "connection aborted") || Contains(reason, "Connection aborted") || Contains(reason, "ECONNRESET")
  }

  /** What another attempt cannot help. */
  predicate Hopeless(reason: string) {
    || Contains(reason, "认证失败") || Contains(reason, "Authentication") || Contains(reason, "密码错误")
    || Contains(reason, "IP为空") || Contains(reason, "IP empty") || Contains(reason, "COMMAND_MISSING")
    || Contains(reason, "COMMAND_OUTPUT_MISSING") || Contains(reason, "ONLY_LOGIN_BANNER") || Contains(reason, "规则检查失败")
    || Contains(reason, "JSON 解析失败") || Contains(reason, "JSON schema invalid") || Contains(reason, "CONFIG_INVALID")
    || Contains(reason, "Path escape") || Contains(reason, "Unsafe path component") || Contains(reason, "BMC_SESSION_PREEMPTED")
    || Contains(reason, "Unsupported protocol") || Contains(reason, "SSH错误: ChannelException")
    || Contains(reason, "too many authentication")
  }

  lemma LongerContains(s: string, part: string, longer: string, i: nat)
    requires Contains(s, longer) && OccursAt(longer, part, i)
    ensures Contains(s, part)
  {
    var k :| 0 <= k <= |s| && OccursAt(s, longer, k);
    forall m | 0 <= m < |part| ensures s[k + i + m] == part[m] {
      assert s[k..k + |longer|][i + m] == s[k + i + m] && longer[i..i + |part|][m] == longer[i + m];
    }
    assert s[k + i..k + i + |part|] == part;
    assert OccursAt(s, part, k + i);
  }

  lemma ContainsNth(s: string, parts: seq<string>, k: nat)
    requires k < |parts| && Contains(s, parts[k])
    ensures ContainsAny(s, parts)
  {
  }

  /** The ten transient markers come to nine, since one contains another. */
  lemma BrokeIff(reason: string)
    ensures ContainsAny(reason, TRANSIENT) <==> Broke(reason)
  {
    if Contains(reason, TRANSIENT[0]) {
      assert "WinError 10054"[9..14] == "10054";
      LongerContains(reason, "10054", "WinError 10054", 9);
    }
    forall k: nat | k < |TRANSIENT| && Contains(reason, TRANSIENT[k]) ensures ContainsAny(reason, TRANSIENT) {
      ContainsNth(reason, TRANSIENT, k);
    }
    assert TRANSIENT[1] == "10054" && TRANSIENT[2] == "connection reset" && TRANSIENT[3] == "Connection reset"
        && TRANSIENT[4] == "forcibly closed" && TRANSIENT[5] == "远程主机强迫关闭" && TRANSIENT[6] == "remote host closed"
        && TRANSIENT[7] == "connection aborted" && TRANSIENT[8] == "Connection aborted" && TRANSIENT[9] == "ECONNRESET";
  }

  /** The nineteen others come to eighteen, for the same reason. */
  lemma HopelessIff(reason: string)
    ensures ContainsAny(reason, NON_RETRYABLE) <==> Hopeless(reason)
  {
    if Contains(reason, NON_RETRYABLE[16]) {
      assert "SSH认证失败"[3..7] == "认证失败";
      LongerContains(reason, "认证失败", "SSH认证失败", 3);
    }
    forall k: nat | k < |NON_RETRYABLE| && Contains(reason, NON_RETRYABLE[k]) ensures ContainsAny(reason, NON_RETRYABLE) {
      ContainsNth(reason, NON_RETRYABLE, k);
    }
    assert NON_RETRYABLE[0] == "认证失败" && NON_RETRYABLE[1] == "Authentication" && NON_RETRYABLE[2] == "密码错误"
        && NON_RETRYABLE[3] == "IP为空" && NON_RETRYABLE[4] == "IP empty" && NON_RETRYABLE[5] == "COMMAND_MISSING"
        && NON_RETRYABLE[6] == "COMMAND_OUTPUT_MISSING" && NON_RETRYABLE[7] == "ONLY_LOGIN_BANNER"
        && NON_RETRYABLE[8] == "规则检查失败" && NON_RETRYABLE[9] == "JSON 解析失败" && NON_RETRYABLE[10] == "JSON schema invalid"
        && NON_RETRYABLE[11] == "CONFIG_INVALID" && NON_RETRYABLE[12] == "Path escape"
        && NON_RETRYABLE[13] == "Unsafe path component" && NON_RETRYABLE[14] == "BMC_SESSION_PREEMPTED"
        && NON_RETRYABLE[15] == "Unsupported protocol" && NON_RETRYABLE[17] == "SSH错误: ChannelException"
        && NON_RETRYABLE[18] == "too many authentication";
  }

  /** Which results are worth another attempt, in words. */
  lemma WorthAnotherIff(r: Result)
    ensures IsRetryable(r) <==>
      !Hopeless(r.reason) &&
      (r.status == "EXEC_TIMEOUT" || r.status == "EXEC_FAILED" || (r.status == "EXEC_ERROR" && Broke(r.reason)))
    ensures IsTransient(r) <==>
      !Hopeless(r.reason) && Broke(r.reason)
      && (r.status == "EXEC_TIMEOUT" || r.status == "EXEC_FAILED" || r.status == "EXEC_ERROR")
  {
    BrokeIff(r.reason);
    HopelessIff(r.reason);
  }
}
