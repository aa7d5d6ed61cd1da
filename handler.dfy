/** `limits_handler`: the admission gate run for every request, with the load
    gate first and the scoreboard scan second. */
module Handler {
  import opened Wrappers
  import opened Census
  import opened Verdicts
  import opened Config

  /** Apache's handler return codes. */
  const DECLINED: int := -1
  const OK: int := 0
  const HTTP_SERVICE_UNAVAILABLE: int := 503

  /** The environment key set on every rejection. */
  const LIMITED: string := "LIMITED"

  /** The parts of `request_rec` the gate reads, and the request's
      environment table it writes. */
  class Request {
    const initial: bool          // ap_is_initial_req(r)
    const clientIp: string       // r->connection->client_ip
    const serverHostname: string // r->server->server_hostname
    var env: map<string, string> // r->subprocess_env

    constructor (initial: bool, clientIp: string, serverHostname: string, env: map<string, string>)
      ensures this.initial == initial && this.clientIp == clientIp
      ensures this.serverHostname == serverHostname && this.env == env
    {
      this.initial := initial;
      this.clientIp := clientIp;
      this.serverHostname := serverHostname;
      this.env := env;
    }

    function Key(): RequestKey {
      RequestKey(clientIp, serverHostname)
    }
  }

  /** Declined for sub-requests; otherwise the gate's verdict. */
  datatype Outcome = Declined | Decided(verdict: Verdict)

  /** The code the handler returns: DECLINED, OK on admission, 503 on any
      rejection. */
  function Status(o: Outcome): (code: int)
    ensures code == DECLINED <==> o == Declined
    ensures code == OK <==> o == Decided(Admit)
    ensures code == HTTP_SERVICE_UNAVAILABLE <==> o.Decided? && o.verdict != Admit
  {
    match o
    case Declined => DECLINED
    case Decided(Admit) => OK
    case Decided(_) => HTTP_SERVICE_UNAVAILABLE
  }

  /** The scoreboard walk of the handler: every slot once, row by row, counting
      the slots from the requester's address and those for its vhost, stopping
      the moment an enabled count exceeds its limit, the address tested before
      the vhost at each slot. */
  method ScanScoreboard(board: Scoreboard, key: RequestKey, limits: Limits) returns (v: Verdict)
    ensures IsScanVerdict(Flatten(board), key, limits, v)
  {
    var ipCount, vhostCount := 0, 0;
    var slot := 0;
    ghost var seen: seq<WorkerScore> := [];
    var i := 0;
    while i < |board|
      invariant i <= |board|
      invariant seen == Flatten(board[..i]) && slot == |seen|
      invariant ipCount == RunningCount(seen, ClientIp, key, limits)
      invariant vhostCount == RunningCount(seen, VirtualHost, key, limits)
      invariant WithinLimits(seen, key, limits)
    {
      var j := 0;
      while j < |board[i]|
        invariant j <= |board[i]|
        invariant seen == Flatten(board[..i]) + board[i][..j] && slot == |seen|
        invariant ipCount == RunningCount(seen, ClientIp, key, limits)
        invariant vhostCount == RunningCount(seen, VirtualHost, key, limits)
        invariant WithinLimits(seen, key, limits)
      {
        var w := board[i][j];
        RunningCountSnoc(seen, w, ClientIp, key, limits);
        RunningCountSnoc(seen, w, VirtualHost, key, limits);
        if limits.ip > 0 {
          if key.clientIp == w.client {
            ipCount := ipCount + 1;
          }
          if ipCount > limits.ip {
            v := RejectIp(slot, ipCount, limits.ip);
            NextSlotPrefix(board, i, j);
            StopAtNextSlot(Flatten(board), seen, w, key, limits, v);
            return;
          }
        }
        if limits.vhost > 0 {
          if VhostMatch(key.serverHostname, w.vhost) {
            vhostCount := vhostCount + 1;
          }
          if vhostCount > limits.vhost {
            v := RejectVhost(slot, vhostCount, limits.vhost);
            NextSlotPrefix(board, i, j);
            StopAtNextSlot(Flatten(board), seen, w, key, limits, v);
            return;
          }
        }
        assert board[i][..j + 1] == board[i][..j] + [w];
        seen := seen + [w];
        slot := slot + 1;
        j := j + 1;
      }
      FlattenRow(board, i);
      assert board[i][..|board[i]|] == board[i];
      i := i + 1;
    }
    assert board[..|board|] == board;
    return Admit;
  }

  /** `limits_handler` for request `r` against the record `limits`, with the
      scoreboard `board`, the clock reading `now`, and `sample` the result the
      load query would give (None when it fails). */
  method LimitsHandler(limits: LimitsConfig, r: Request, board: Scoreboard, now: Time, sample: Option<real>)
    returns (o: Outcome)
    modifies limits`curavg, limits`lastavg, r`env
    ensures old(limits.Valid()) ==> limits.Valid()
    // a sub-request is declined and nothing changes
    ensures !r.initial ==> o == Declined && limits.State() == old(limits.State()) && r.env == old(r.env)
    // otherwise the cache follows the refresh rule and nothing else changes
    ensures r.initial ==> limits.State() == Refreshed(old(limits.State()), now, sample)
    // the load gate decides before any slot is looked at
    ensures r.initial && LoadRejects(limits.State()) ==>
              o == Decided(RejectLoad(limits.curavg, limits.loadavg))
    // past the load gate the verdict is that of the scan
    ensures r.initial && !LoadRejects(limits.State()) ==>
              o.Decided? && IsScanVerdict(Flatten(board), r.Key(), Limits(limits.ip, limits.vhost), o.verdict)
    // OK exactly when the load gate passes and every enabled count is within its limit
    ensures r.initial ==>
              (Status(o) == OK <==> !LoadRejects(limits.State()) &&
                                    WithinLimits(Flatten(board), r.Key(), Limits(limits.ip, limits.vhost)))
    // LIMITED=1 is set exactly on a rejection
    ensures r.env == if Status(o) == HTTP_SERVICE_UNAVAILABLE then old(r.env)[LIMITED := "1"] else old(r.env)
  {
    if !r.initial {
      return Declined;
    }
    if limits.loadavg != 0.0 {
      if now - limits.lastavg > limits.checkavg {
        if sample.Some? {
          limits.curavg := sample.value;
          limits.lastavg := now;
        }
      }
      if limits.curavg > limits.loadavg {
        r.env := r.env[LIMITED := "1"];
        return Decided(RejectLoad(limits.curavg, limits.loadavg));
      }
    }
    var v := ScanScoreboard(board, r.Key(), Limits(limits.ip, limits.vhost));
    AdmitIffWithinLimits(Flatten(board), r.Key(), Limits(limits.ip, limits.vhost), v);
    if v != Admit {
      r.env := r.env[LIMITED := "1"];
    }
    return Decided(v);
  }
}
