/** Cache entries of the connection-configuration cache and the decisions taken on one entry. */
module CertCache {
  import opened Basics
  import opened Durations

  /**
   * A `*tls.Config`. Every successful refresh allocates a new one, so pointer identity is the
   * number of the refresh that built it.
   */
  datatype Config = Config(id: nat, notAfter: int)

  type Error = string

  /** `done` names the refresh that owns the channel; a channel is closed once that refresh has ended. */
  datatype Entry = Entry(
    lastRefreshed: int,
    err: Option<Error>,
    addr: string,
    version: string,
    cfg: Option<Config>,
    done: Option<nat>)
  {
    /** The part of an entry that `cachedCfg` hands to its caller. */
    function Payload(): (string, Option<Config>, string, Option<Error>) {
      (addr, cfg, version, err)
    }
  }

  /** What a read of an absent key yields. */
  const ZERO_ENTRY: Entry := Entry(0, None, "", "", None, None)

  type Cache = map<string, Entry>

  function Lookup(cache: Cache, instance: string): Entry {
    if instance in cache then cache[instance] else ZERO_ENTRY
  }

  predicate IsValid(e: Entry) {
    e.err.None? && e.cfg.Some?
  }

  predicate IsExpired(cfg: Option<Config>, now: int) {
    cfg.None? || now > cfg.value.notAfter
  }

  predicate NeedsRefresh(e: Entry, buffer: Duration, now: int, doneClosed: bool) {
    if e.done.None? then true
    else if !IsValid(e) || Sub(e.cfg.value.notAfter, now) <= buffer then doneClosed
    else false
  }

  /** What the certificate source gave a refresh. */
  datatype Outcome =
    | Pending
    | Obtained(addr: string, cfg: Config, version: string)
    | Failed(err: Error)

  /**
   * The entry a finished refresh stores: a failure keeps the previous configuration unless that
   * has expired (an absent one counts as expired).
   */
  function CommitEntry(outcome: Outcome, prior: Entry, done: nat, now: int): Entry
    requires !outcome.Pending?
  {
    match outcome
    case Obtained(addr, cfg, version) => Entry(now, None, addr, version, Some(cfg), Some(done))
    case Failed(err) =>
      if !IsExpired(prior.cfg, now)
      then Entry(now, prior.err, prior.addr, prior.version, prior.cfg, Some(done))
      else Entry(now, Some(err), "", "", None, Some(done))
  }

  /** The entry a failed handshake leaves behind. */
  function ClearedEntry(prior: Entry): Entry {
    ZERO_ENTRY.(done := prior.done, lastRefreshed := prior.lastRefreshed)
  }

  /** `rate.Limiter` with burst 1; `rate.Every` of a non-positive period imposes no limit. */
  datatype Limiter = Limiter(period: int, lastAllowed: Option<int>) {
    predicate Allows(now: int) {
      period <= 0 || lastAllowed.None? || now - lastAllowed.value >= period
    }
  }

  /**
   * The two tunables of the client, where zero selects the default, and whether its dialer was
   * supplied by the user and connects even for an empty address; the default dialer refuses that.
   */
  datatype Settings = Settings(refreshCfgThrottle: Duration, refreshCfgBuffer: Duration, dialsAnyAddress: bool) {
    function Throttle(): Duration {
      if refreshCfgThrottle == 0 then MINUTE else refreshCfgThrottle
    }
    function Buffer(): Duration {
      if refreshCfgBuffer == 0 then 5 * MINUTE else refreshCfgBuffer
    }
  }
}
