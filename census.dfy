/** The scoreboard census the admission gate walks: one entry per worker slot,
    matched against the requester on two dimensions, client address and
    virtual host. */
module Census {

  /** One worker slot of the scoreboard, as the gate reads it. The scan does
      not look at a slot's status: busy or idle, every slot is compared on the
      client and vhost it holds. */
  datatype WorkerScore = WorkerScore(client: string, vhost: string)

  /** The scoreboard as `server_limit` rows of `thread_limit` slots. */
  type Scoreboard = seq<seq<WorkerScore>>

  /** What the gate compares slots against: the requester's address and the
      hostname of the server the request is for. */
  datatype RequestKey = RequestKey(clientIp: string, serverHostname: string)

  /** The two limits the scan enforces; 0 disables a dimension. */
  datatype Limits = Limits(ip: nat, vhost: nat)

  datatype Dimension = ClientIp | VirtualHost

  /** Number of characters the vhost comparison looks at (the `strncmp` bound). */
  const VHOST_CMP_LEN: nat := 31

  function Min(a: nat, b: nat): nat { if a < b then a else b }

  /** `strncmp(a, b, 31) == 0` on NUL-free strings: the first 31 characters
      agree, and where either name is shorter the names are equal. */
  predicate VhostMatch(a: string, b: string) {
    a[..Min(VHOST_CMP_LEN, |a|)] == b[..Min(VHOST_CMP_LEN, |b|)]
  }

  /** Full string equality, the comparison of the Apache 1.3 variant. */
  predicate VhostEqual(a: string, b: string) { a == b }

  /** Whether slot `w` counts towards dimension `d` for this request. */
  predicate Matches(w: WorkerScore, d: Dimension, key: RequestKey) {
    match d
    case ClientIp => key.clientIp == w.client
    case VirtualHost => VhostMatch(key.serverHostname, w.vhost)
  }

  function Limit(limits: Limits, d: Dimension): nat {
    match d
    case ClientIp => limits.ip
    case VirtualHost => limits.vhost
  }

  /** The slots of the scoreboard in scan order: row by row, slot by slot. */
  function Flatten(board: Scoreboard): seq<WorkerScore> {
    if board == [] then [] else Flatten(board[..|board| - 1]) + board[|board| - 1]
  }

  /** Number of slots of `s` that match the request on dimension `d`. */
  function Count(s: seq<WorkerScore>, d: Dimension, key: RequestKey): (n: nat)
    ensures n <= |s|
  {
    if s == [] then 0
    else Count(s[..|s| - 1], d, key) + (if Matches(s[|s| - 1], d, key) then 1 else 0)
  }

  /** Dimension `d` is enabled and the slots of `t` exceed its limit. */
  predicate Over(t: seq<WorkerScore>, d: Dimension, key: RequestKey, limits: Limits) {
    Limit(limits, d) > 0 && Count(t, d, key) > Limit(limits, d)
  }

  /** The closed form of admission: every enabled dimension's count is within
      its limit. */
  predicate WithinLimits(t: seq<WorkerScore>, key: RequestKey, limits: Limits) {
    (limits.ip == 0 || Count(t, ClientIp, key) <= limits.ip) &&
    (limits.vhost == 0 || Count(t, VirtualHost, key) <= limits.vhost)
  }

  lemma WithinIffNotOver(t: seq<WorkerScore>, key: RequestKey, limits: Limits)
    ensures WithinLimits(t, key, limits) <==>
            !Over(t, ClientIp, key, limits) && !Over(t, VirtualHost, key, limits)
  {
  }

  // ---- Flattening ------------------------------------------------------

  lemma {:induction false} FlattenAppend(a: Scoreboard, b: Scoreboard)
    ensures Flatten(a + b) == Flatten(a) + Flatten(b)
  {
    if b == [] {
      assert a + b == a;
    } else {
      var b' := b[..|b| - 1];
      assert (a + b)[..|a + b| - 1] == a + b';
      assert (a + b)[|a + b| - 1] == b[|b| - 1];
      FlattenAppend(a, b');
    }
  }

  /** Taking one more row appends that row's slots. */
  lemma FlattenRow(board: Scoreboard, i: nat)
    requires i < |board|
    ensures Flatten(board[..i + 1]) == Flatten(board[..i]) + board[i]
  {
    assert board[..i + 1][..i] == board[..i];
  }

  /** The slots visited before slot `j` of row `i`, and those visited up to
      and including it, are prefixes of the whole scan. */
  lemma NextSlotPrefix(board: Scoreboard, i: nat, j: nat)
    requires i < |board| && j < |board[i]|
    ensures var t, s := Flatten(board[..i]) + board[i][..j], Flatten(board);
            |t| < |s| && s[..|t|] == t && s[..|t| + 1] == t + [board[i][j]]
  {
    assert board == board[..i + 1] + board[i + 1..];
    FlattenAppend(board[..i + 1], board[i + 1..]);
    FlattenRow(board, i);
    ConcatPrefix(Flatten(board[..i]), board[i], Flatten(board[i + 1..]), j);
  }

  lemma ConcatPrefix(p: seq<WorkerScore>, row: seq<WorkerScore>, r: seq<WorkerScore>, j: nat)
    requires j < |row|
    ensures (p + row + r)[..|p| + j] == p + row[..j]
    ensures (p + row + r)[..|p| + j + 1] == p + row[..j] + [row[j]]
  {
    assert row[..j + 1] == row[..j] + [row[j]];
    assert (p + row + r)[..|p| + j + 1] == p + row[..j + 1];
  }

  // ---- Counting --------------------------------------------------------

  /** Scanning one more slot adds one exactly when that slot matches. */
  lemma CountSnoc(t: seq<WorkerScore>, w: WorkerScore, d: Dimension, key: RequestKey)
    ensures Count(t + [w], d, key) == Count(t, d, key) + (if Matches(w, d, key) then 1 else 0)
  {
    assert (t + [w])[..|t|] == t;
  }

  /** The handler's running counter for dimension `d` after the slots `t`:
      a disabled dimension is never counted. */
  function RunningCount(t: seq<WorkerScore>, d: Dimension, key: RequestKey, limits: Limits): nat {
    if Limit(limits, d) > 0 then Count(t, d, key) else 0
  }

  /** One slot's effect on a running counter, and on the limits. */
  lemma RunningCountSnoc(t: seq<WorkerScore>, w: WorkerScore, d: Dimension, key: RequestKey, limits: Limits)
    ensures RunningCount(t + [w], d, key, limits) ==
            RunningCount(t, d, key, limits) + (if Limit(limits, d) > 0 && Matches(w, d, key) then 1 else 0)
    ensures Over(t + [w], d, key, limits) <==>
            Limit(limits, d) > 0 && RunningCount(t + [w], d, key, limits) > Limit(limits, d)
  {
    CountSnoc(t, w, d, key);
  }

  /** Counts never decrease as the scan advances. */
  lemma {:induction false} CountMonotone(s: seq<WorkerScore>, i: nat, j: nat, d: Dimension, key: RequestKey)
    requires i <= j <= |s|
    ensures Count(s[..i], d, key) <= Count(s[..j], d, key)
  {
    if i < j {
      assert s[..j][..j - 1] == s[..j - 1];
      CountMonotone(s, i, j - 1, d, key);
    }
  }

  /** A prefix of a scan within its limits is within them too. */
  lemma WithinPrefix(s: seq<WorkerScore>, i: nat, j: nat, key: RequestKey, limits: Limits)
    requires i <= j <= |s|
    requires WithinLimits(s[..j], key, limits)
    ensures WithinLimits(s[..i], key, limits)
  {
    CountMonotone(s, i, j, ClientIp, key);
    CountMonotone(s, i, j, VirtualHost, key);
  }

  /** The first `k` slots are within the limits exactly when no slot among
      them, in scan order, pushed a running count over its limit. */
  lemma {:induction false} WithinIffNoEarlierBreach(s: seq<WorkerScore>, k: nat, key: RequestKey, limits: Limits)
    requires k <= |s|
    ensures WithinLimits(s[..k], key, limits) <==>
            forall m :: 0 < m <= k ==> WithinLimits(s[..m], key, limits)
  {
    if WithinLimits(s[..k], key, limits) {
      forall m | 0 < m <= k ensures WithinLimits(s[..m], key, limits) {
        WithinPrefix(s, m, k, key, limits);
      }
    }
    if k == 0 {
      assert s[..0] == [];
    }
  }

  // ---- The vhost comparison -------------------------------------------

  /** Full equality, as the 1.3 variant compares, implies the bounded match. */
  lemma EqualNamesMatch(a: string, b: string)
    requires VhostEqual(a, b)
    ensures VhostMatch(a, b)
  {
  }

  /** The bound matters only when both names have at least 31 characters:
      otherwise the bounded match is plain equality. */
  lemma ShortNameMatchIsEquality(a: string, b: string)
    requires |a| < VHOST_CMP_LEN || |b| < VHOST_CMP_LEN
    ensures VhostMatch(a, b) <==> a == b
  {
    if VhostMatch(a, b) {
      assert |a[..Min(VHOST_CMP_LEN, |a|)]| == |b[..Min(VHOST_CMP_LEN, |b|)]|;
      assert a == a[..Min(VHOST_CMP_LEN, |a|)];
    }
  }

  /** Names of 31 or more characters that agree on their first 31 characters
      match, however they continue. */
  lemma LongNamesMatchOnPrefix(a: string, b: string)
    requires |a| >= VHOST_CMP_LEN && |b| >= VHOST_CMP_LEN
    requires a[..VHOST_CMP_LEN] == b[..VHOST_CMP_LEN]
    ensures VhostMatch(a, b)
  {
  }

  /** Hostnames that share a 31-character prefix match whatever follows it,
      so different names such as "<prefix>.org" and "<prefix>.net" are
      counted as one vhost. */
  lemma SharedPrefixNamesMatch(p: string, x: string, y: string)
    requires |p| == VHOST_CMP_LEN
    ensures VhostMatch(p + x, p + y)
    ensures x != y ==> p + x != p + y
  {
    assert (p + x)[..VHOST_CMP_LEN] == p == (p + y)[..VHOST_CMP_LEN];
  }
}
