/** The decisions the admission gate can reach, and the relation a scan of the
    scoreboard must satisfy: it stops at the first slot, in scan order, where a
    running count goes over its limit, testing the client address before the
    virtual host at each slot. */
module Verdicts {
  import opened Census

  /** `slot` is the position of the deciding slot in scan order. Each rejection
      carries the observed count or load and the configured threshold. */
  datatype Verdict =
    | Admit
    | RejectLoad(load: real, loadLimit: real)
    | RejectIp(slot: nat, count: nat, limit: nat)
    | RejectVhost(slot: nat, count: nat, limit: nat)

  /** `v` is the outcome of scanning the slots `s` once, in order. */
  predicate IsScanVerdict(s: seq<WorkerScore>, key: RequestKey, limits: Limits, v: Verdict) {
    match v
    case Admit => WithinLimits(s, key, limits)
    case RejectLoad(_, _) => false
    case RejectIp(k, c, l) =>
      k < |s| && WithinLimits(s[..k], key, limits) &&
      Over(s[..k + 1], ClientIp, key, limits) &&
      c == Count(s[..k + 1], ClientIp, key) && l == limits.ip
    case RejectVhost(k, c, l) =>
      k < |s| && WithinLimits(s[..k], key, limits) &&
      !Over(s[..k + 1], ClientIp, key, limits) &&
      Over(s[..k + 1], VirtualHost, key, limits) &&
      c == Count(s[..k + 1], VirtualHost, key) && l == limits.vhost
  }

  /** A scan that has seen the slots `t` within the limits and whose running
      counters go over at the next slot `w` stops there with the
      corresponding rejection, the address tested first. */
  lemma StopAtNextSlot(s: seq<WorkerScore>, t: seq<WorkerScore>, w: WorkerScore,
                       key: RequestKey, limits: Limits, v: Verdict)
    requires |t| < |s| && s[..|t|] == t && s[..|t| + 1] == t + [w]
    requires WithinLimits(t, key, limits)
    requires v.RejectIp? || v.RejectVhost?
    requires v.RejectIp? ==>
               v == RejectIp(|t|, RunningCount(t + [w], ClientIp, key, limits), limits.ip) &&
               limits.ip > 0 && v.count > limits.ip
    requires v.RejectVhost? ==>
               v == RejectVhost(|t|, RunningCount(t + [w], VirtualHost, key, limits), limits.vhost) &&
               limits.vhost > 0 && v.count > limits.vhost &&
               !(limits.ip > 0 && RunningCount(t + [w], ClientIp, key, limits) > limits.ip)
    ensures IsScanVerdict(s, key, limits, v)
  {
  }

  /** A slot at which a running count goes over its limit. */
  lemma OverAtSlotLeavesLimits(s: seq<WorkerScore>, k: nat, n: nat, d: Dimension, key: RequestKey, limits: Limits)
    requires k < n <= |s|
    requires Over(s[..k + 1], d, key, limits)
    ensures !WithinLimits(s[..n], key, limits)
  {
    CountMonotone(s, k + 1, n, d, key);
  }

  /** The scan admits exactly when every enabled dimension's total count over
      the whole scoreboard is within its limit. */
  lemma AdmitIffWithinLimits(s: seq<WorkerScore>, key: RequestKey, limits: Limits, v: Verdict)
    requires IsScanVerdict(s, key, limits, v)
    ensures v == Admit <==> WithinLimits(s, key, limits)
  {
    assert s[..|s|] == s;
    match v
    case Admit =>
    case RejectIp(k, _, _) => OverAtSlotLeavesLimits(s, k, |s|, ClientIp, key, limits);
    case RejectVhost(k, _, _) => OverAtSlotLeavesLimits(s, k, |s|, VirtualHost, key, limits);
  }

  /** The scan decides one outcome: the scan relation is a function. */
  lemma ScanVerdictUnique(s: seq<WorkerScore>, key: RequestKey, limits: Limits, v1: Verdict, v2: Verdict)
    requires IsScanVerdict(s, key, limits, v1) && IsScanVerdict(s, key, limits, v2)
    ensures v1 == v2
  {
    AdmitIffWithinLimits(s, key, limits, v1);
    AdmitIffWithinLimits(s, key, limits, v2);
    if v1 != Admit && v2 != Admit {
      var k1, k2 := v1.slot, v2.slot;
      if k1 < k2 {
        OverAtSlotLeavesLimits(s, k1, k2, if v1.RejectIp? then ClientIp else VirtualHost, key, limits);
      } else if k2 < k1 {
        OverAtSlotLeavesLimits(s, k2, k1, if v2.RejectIp? then ClientIp else VirtualHost, key, limits);
      }
    }
  }

  /** A rejection happens at the first slot where a count goes over: no
      earlier slot left the scan over a limit. */
  lemma RejectIsFirstBreach(s: seq<WorkerScore>, key: RequestKey, limits: Limits, v: Verdict)
    requires IsScanVerdict(s, key, limits, v) && (v.RejectIp? || v.RejectVhost?)
    ensures forall m :: 0 < m <= v.slot ==> WithinLimits(s[..m], key, limits)
    ensures !WithinLimits(s[..v.slot + 1], key, limits)
  {
    WithinIffNoEarlierBreach(s, v.slot, key, limits);
  }

  /** The deciding slot is itself a match, and the reported count is exactly
      one more than the limit. */
  lemma RejectCountIsLimitPlusOne(s: seq<WorkerScore>, key: RequestKey, limits: Limits, v: Verdict)
    requires IsScanVerdict(s, key, limits, v) && (v.RejectIp? || v.RejectVhost?)
    ensures v.count == v.limit + 1
    ensures Matches(s[v.slot], if v.RejectIp? then ClientIp else VirtualHost, key)
  {
    var k := v.slot;
    assert s[..k + 1] == s[..k] + [s[k]];
    CountSnoc(s[..k], s[k], if v.RejectIp? then ClientIp else VirtualHost, key);
  }

  /** A limit of 0 never rejects on its dimension; with both limits 0 the
      scan admits whatever the scoreboard holds. */
  lemma DisabledDimensionNeverRejects(s: seq<WorkerScore>, key: RequestKey, limits: Limits, v: Verdict)
    requires IsScanVerdict(s, key, limits, v)
    ensures limits.ip == 0 ==> !v.RejectIp?
    ensures limits.vhost == 0 ==> !v.RejectVhost?
    ensures limits.ip == 0 && limits.vhost == 0 ==> v == Admit
  {
  }

  /** With only the address limit enabled, a scoreboard holding more slots
      from the requester's address than the limit is rejected on the address,
      at a count of limit + 1. */
  lemma TooManyFromAddressRejectsOnIp(s: seq<WorkerScore>, key: RequestKey, limits: Limits, v: Verdict)
    requires IsScanVerdict(s, key, limits, v)
    requires limits.ip > 0 && limits.vhost == 0 && Count(s, ClientIp, key) > limits.ip
    ensures v.RejectIp? && v.count == limits.ip + 1
  {
    AdmitIffWithinLimits(s, key, limits, v);
    RejectCountIsLimitPlusOne(s, key, limits, v);
  }

  /** Three slots from the requester's address against a limit of 2, spread
      over two scoreboard rows with a slot from another address between them:
      the scan rejects on the address at the third of them, with count 3 and
      limit 2. */
  lemma ThreeFromOneAddressScenario(key: RequestKey, a: WorkerScore, b: WorkerScore, v: Verdict)
    requires a.client == key.clientIp && b.client != key.clientIp
    requires IsScanVerdict(Flatten([[a, b], [a, a]]), key, Limits(2, 0), v)
    ensures v == RejectIp(3, 3, 2)
  {
    var s := [a, b, a, a];
    ScenarioBoardFlattens(a, b);
    ScenarioCounts(key, a, b);
    assert s[..3] == [a, b, a] && s[..4] == s;
    ScanVerdictUnique(s, key, Limits(2, 0), v, RejectIp(3, 3, 2));
  }

  lemma ScenarioBoardFlattens(a: WorkerScore, b: WorkerScore)
    ensures Flatten([[a, b], [a, a]]) == [a, b, a, a]
  {
    var board: Scoreboard := [[a, b], [a, a]];
    FlattenRow(board, 0);
    FlattenRow(board, 1);
    assert board[..0] == [] && board[..2] == board;
  }

  lemma ScenarioCounts(key: RequestKey, a: WorkerScore, b: WorkerScore)
    requires a.client == key.clientIp && b.client != key.clientIp
    ensures Count([a, b, a], ClientIp, key) == 2 && Count([a, b, a, a], ClientIp, key) == 3
  {
    CountSnoc([], a, ClientIp, key);
    CountSnoc([a], b, ClientIp, key);
    CountSnoc([a, b], a, ClientIp, key);
    CountSnoc([a, b, a], a, ClientIp, key);
    assert [] + [a] == [a] && [a] + [b] == [a, b];
    assert [a, b] + [a] == [a, b, a] && [a, b, a] + [a] == [a, b, a, a];
  }
}
