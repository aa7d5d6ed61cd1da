/** The per-directory configuration record of the module: the three connection
    limits, the load limit, and the cached one-minute load sample with the time
    it was taken. The directive parsers write one field each; the handler
    updates only the cached sample. */
module Config {
  import opened Wrappers

  const LONG_MAX: int := 0x7FFF_FFFF_FFFF_FFFF
  /** Values of an `unsigned long` are taken modulo this. */
  const ULONG_MODULUS: int := 0x1_0000_0000_0000_0000
  /** Values of an `unsigned int` are taken modulo this. */
  const UINT_MODULUS: int := 0x1_0000_0000

  /** A C `long` (64 bits): what `strtol` returns. */
  newtype Long = x: int | -0x8000_0000_0000_0000 <= x < 0x8000_0000_0000_0000

  /** A C `unsigned int` (32 bits): the type of the integer fields. */
  type UInt = x: int | 0 <= x < 0x1_0000_0000

  /** `time_t`, seconds. */
  type Time = int

  const DEFAULT_CHECKAVG: UInt := 5
  const INVALID_NUMBER: string := "Integer overflow or invalid number"
  const INVALID_LOADAVG: string := "Invalid MaxLoadAVG value"

  /** The value of every field of the record at one moment. */
  datatype ConfigState = ConfigState(
    ip: UInt, uid: UInt, vhost: UInt,
    loadavg: real, curavg: real, lastavg: Time, checkavg: UInt)

  /** The fresh record `create_dir_config` builds: no limits, a 5 second
      refresh interval; the calloc'd sample and time are overwritten only when
      the initial load query succeeds. */
  function InitialState(now: Time, sample: Option<real>): ConfigState {
    ConfigState(0, 0, 0, 0.0, sample.GetOr(0.0),
                if sample.Some? then now else 0, DEFAULT_CHECKAVG)
  }

  /** Narrowing an `unsigned long` to an `unsigned int` keeps the value
      modulo 2^32. */
  lemma NarrowingIsModulo(x: int)
    ensures (x % ULONG_MODULUS) % UINT_MODULUS == x % UINT_MODULUS
  {
  }

  /** The rule shared by the four integer directives: the `long` that `strtol`
      produced is held in an `unsigned long`, refused when it equals
      `LONG_MAX`, and otherwise stored in an `unsigned int` field. Only the
      overflow sentinel is refused; what is stored is the parsed value modulo
      2^32, so every value from 0 to 2^32 - 1 is stored unchanged. */
  function CountArgument(parsed: Long): (r: Option<UInt>)
    ensures r.None? <==> parsed as int == LONG_MAX
    ensures r.Some? ==> r.value == (parsed as int) % UINT_MODULUS
    ensures 0 <= parsed as int < UINT_MODULUS ==> r == Some(parsed as int)
  {
    var limit := (parsed as int) % ULONG_MODULUS;
    NarrowingIsModulo(parsed as int);
    if limit == LONG_MAX then None else Some(limit % UINT_MODULUS)
  }

  /** The load-average directive: the value `strtod` produced is refused iff
      it is negative; 0 is accepted and disables the load gate. */
  function LoadArgument(parsed: real): (r: Option<real>)
    ensures r.None? <==> parsed < 0.0
    ensures r.Some? ==> r.value == parsed && r.value >= 0.0
  {
    if parsed < 0.0 then None else Some(parsed)
  }

  /** The refresh rule for the cached load sample, used by the handler at
      time `now`, with `sample` the result of the load query (None when it
      fails). The query is made only when the load limit is set and more than
      `checkavg` seconds have passed since the last sample. */
  function Refreshed(c: ConfigState, now: Time, sample: Option<real>): (c': ConfigState)
    // only the cache may change
    ensures c'.(curavg := c.curavg, lastavg := c.lastavg) == c
    // a change happens only when due and when the query succeeded, and then
    // the sample and its time are the query's result and now
    ensures c' != c ==> c.loadavg != 0.0 && now - c.lastavg > c.checkavg &&
                        sample.Some? && c'.curavg == sample.value && c'.lastavg == now
    // when due and the query succeeds, the new sample is taken
    ensures c.loadavg != 0.0 && now - c.lastavg > c.checkavg && sample.Some? ==>
              c'.curavg == sample.value && c'.lastavg == now
    // the sample time never moves back, whatever the clock says
    ensures c'.lastavg >= c.lastavg
    // staleness is bounded by checkavg whenever the query succeeds
    ensures c.loadavg != 0.0 && sample.Some? ==> now - c'.lastavg <= c'.checkavg
  {
    if c.loadavg != 0.0 && now - c.lastavg > c.checkavg then
      match sample
      case Some(x) => c.(curavg := x, lastavg := now)
      case None => c
    else c
  }

  /** The load gate: a load limit is set and the sample exceeds it. */
  predicate LoadRejects(c: ConfigState) {
    c.loadavg != 0.0 && c.curavg > c.loadavg
  }

  /** With no load limit the cache is left alone and the gate always passes. */
  lemma NoLoadLimitNoRefresh(c: ConfigState, now: Time, sample: Option<real>)
    requires c.loadavg == 0.0
    ensures Refreshed(c, now, sample) == c && !LoadRejects(Refreshed(c, now, sample))
  {
  }

  /** With a 5 second interval and a sample taken at t = 0, a request at t = 3
      reuses the cached value and a request at t = 6 takes a fresh one. */
  lemma SamplingWindow(c: ConfigState, sample: Option<real>)
    requires c.loadavg != 0.0 && c.checkavg == 5 && c.lastavg == 0
    ensures Refreshed(c, 3, sample) == c
    ensures sample.Some? ==> Refreshed(c, 6, sample).curavg == sample.value &&
                             Refreshed(c, 6, sample).lastavg == 6
    ensures sample.None? ==> Refreshed(c, 6, sample) == c
  {
  }

  /** A load limit of 1.5 and a cached sample of 2.0 that is not yet due for
      refresh: the load gate rejects. */
  lemma HighCachedLoadScenario(c: ConfigState, now: Time, sample: Option<real>)
    requires c.loadavg == 1.5 && c.curavg == 2.0 && now - c.lastavg <= c.checkavg
    ensures Refreshed(c, now, sample) == c && LoadRejects(Refreshed(c, now, sample))
  {
  }

  /** The record of one configuration scope, updated in place. */
  class LimitsConfig {
    var ip: UInt        // LimitMaxConnsPerIP, 0 = no limit
    var uid: UInt       // LimitMaxConnsPerUid, stored but never enforced
    var vhost: UInt     // LimitMaxConnsPerVhost, 0 = no limit
    var loadavg: real   // LimitMaxLoadAVG, 0 = no limit
    var curavg: real    // cached one-minute load sample
    var lastavg: Time   // when curavg was sampled
    var checkavg: UInt  // CheckLoadInterval, seconds between samples

    function State(): ConfigState
      reads this
    {
      ConfigState(ip, uid, vhost, loadavg, curavg, lastavg, checkavg)
    }

    /** The load limit is never negative: its parser refuses negative values. */
    predicate Valid()
      reads this
    {
      loadavg >= 0.0
    }

    /** `create_dir_config`, with `sample` the result of the initial load
        query made at time `now`. */
    constructor (now: Time, sample: Option<real>)
      ensures Valid()
      ensures State() == InitialState(now, sample)
    {
      ip, uid, vhost, loadavg, checkavg := 0, 0, 0, 0.0, DEFAULT_CHECKAVG;
      curavg, lastavg := 0.0, 0;
      if sample.Some? {
        curavg := sample.value;
        lastavg := now;
      }
    }

    /** `cfg_perip`: the LimitMaxConnsPerIP directive, given what `strtol`
        made of its argument. Returns the error message, or None. */
    method SetPerIp(parsed: Long) returns (err: Option<string>)
      modifies this`ip
      ensures old(Valid()) ==> Valid()
      ensures match CountArgument(parsed)
              case None => err == Some(INVALID_NUMBER) && State() == old(State())
              case Some(n) => err == None && State() == old(State()).(ip := n)
    {
      var limit := CountArgument(parsed);
      if limit.None? {
        return Some(INVALID_NUMBER);
      }
      ip := limit.value;
      return None;
    }

    /** `cfg_pervhost`: the LimitMaxConnsPerVhost directive. */
    method SetPerVhost(parsed: Long) returns (err: Option<string>)
      modifies this`vhost
      ensures old(Valid()) ==> Valid()
      ensures match CountArgument(parsed)
              case None => err == Some(INVALID_NUMBER) && State() == old(State())
              case Some(n) => err == None && State() == old(State()).(vhost := n)
    {
      var limit := CountArgument(parsed);
      if limit.None? {
        return Some(INVALID_NUMBER);
      }
      vhost := limit.value;
      return None;
    }

    /** `cfg_peruid`: the LimitMaxConnsPerUid directive. */
    method SetPerUid(parsed: Long) returns (err: Option<string>)
      modifies this`uid
      ensures old(Valid()) ==> Valid()
      ensures match CountArgument(parsed)
              case None => err == Some(INVALID_NUMBER) && State() == old(State())
              case Some(n) => err == None && State() == old(State()).(uid := n)
    {
      var limit := CountArgument(parsed);
      if limit.None? {
        return Some(INVALID_NUMBER);
      }
      uid := limit.value;
      return None;
    }

    /** `cfg_loadavg`: the LimitMaxLoadAVG directive, given what `strtod`
        made of its argument. */
    method SetLoadAvg(parsed: real) returns (err: Option<string>)
      modifies this`loadavg
      ensures old(Valid()) ==> Valid()
      ensures match LoadArgument(parsed)
              case None => err == Some(INVALID_LOADAVG) && State() == old(State())
              case Some(x) => err == None && State() == old(State()).(loadavg := x)
    {
      var limit := LoadArgument(parsed);
      if limit.None? {
        return Some(INVALID_LOADAVG);
      }
      loadavg := limit.value;
      return None;
    }

    /** `cfg_checkavg`: the CheckLoadInterval directive. */
    method SetCheckAvg(parsed: Long) returns (err: Option<string>)
      modifies this`checkavg
      ensures old(Valid()) ==> Valid()
      ensures match CountArgument(parsed)
              case None => err == Some(INVALID_NUMBER) && State() == old(State())
              case Some(n) => err == None && State() == old(State()).(checkavg := n)
    {
      var v := CountArgument(parsed);
      if v.None? {
        return Some(INVALID_NUMBER);
      }
      checkavg := v.value;
      return None;
    }
  }

  /** Text `strtol` cannot read yields 0, which is accepted and disables the
      dimension; the overflow sentinel is the only refusal. */
  lemma ZeroArgumentAccepted()
    ensures CountArgument(0) == Some(0) && LoadArgument(0.0) == Some(0.0)
    ensures CountArgument(LONG_MAX as Long) == None
  {
  }

  /** A negative `strtol` result is not refused: it wraps to a large unsigned
      value, so "-1" stores 2^32 - 1, and the underflow sentinel `LONG_MIN`
      stores 0. */
  lemma NegativeArgumentsWrap()
    ensures CountArgument(-1) == Some(UINT_MODULUS - 1)
    ensures CountArgument(-0x8000_0000_0000_0000) == Some(0)
  {
  }
}
