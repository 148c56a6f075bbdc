/**
 The dynamic rate limiter: two Redis sorted sets pruned lazily, read as a sliding window over the
 request history, and the tier that the resulting user estimate selects.  Times are seconds.
 */
module RateLimit {
  import opened Wrappers

  const ACTIVE_WINDOW_SECONDS := 60
  const REQUESTS_PER_USER := 100

  type Request = (string, int)

  /** Members with their scores: last request per IP, and one member per (IP, time) pair. */
  datatype Sets = Sets(activeUsers: map<string, int>, requestLog: map<Request, int>)

  const EMPTY_SETS := Sets(map[], map[])

  datatype UserCount = UserCount(uniqueIps: nat, requestVolume: nat, estimatedFromVolume: nat, effectiveUsers: nat)

  datatype Tier = Tier(maxUsers: int, rateLimit: int)

  datatype Config = Config(enabled: bool, tiers: seq<Tier>)

  const DEFAULT_TIERS := [Tier(50, 5000), Tier(200, 2000), Tier(500, 500), Tier(999999, 200)]

  const DEFAULT_CONFIG := Config(true, DEFAULT_TIERS)

  datatype Limit = Limit(rateLimit: int, activeUsers: nat, tierIndex: int)

  function Recorded(s: Sets, ip: string, now: int): Sets {
    Sets(s.activeUsers[ip := now], s.requestLog[(ip, now) := now])
  }

  /** `ZREMRANGEBYSCORE key -inf cutoff`. */
  function Pruned<M>(m: map<M, int>, cutoff: int): map<M, int> { map k | k in m && m[k] > cutoff :: m[k] }

  function PrunedSets(s: Sets, now: int): Sets {
    Sets(Pruned(s.activeUsers, now - ACTIVE_WINDOW_SECONDS), Pruned(s.requestLog, now - ACTIVE_WINDOW_SECONDS))
  }

  /** One user per full hundred requests, or the number of addresses if that is larger. */
  predicate CountIs(c: UserCount, unique: nat, volume: nat) {
    c.uniqueIps == unique && c.requestVolume == volume
    && 100 * c.estimatedFromVolume <= volume < 100 * c.estimatedFromVolume + 100
    && c.effectiveUsers >= unique && c.effectiveUsers >= c.estimatedFromVolume
    && (c.effectiveUsers == unique || c.effectiveUsers == c.estimatedFromVolume)
  }

  /** The limit of the first tier that takes the users, or of the last one if none does. */
  predicate LimitIs(l: Limit, c: Config, base: int) {
    if !c.enabled then l.rateLimit == base && l.tierIndex == -1
    else if |c.tiers| == 0 then l.rateLimit == 200 && l.tierIndex == -1
    else
      var i := l.tierIndex;
      0 <= i < |c.tiers| && l.rateLimit == c.tiers[i].rateLimit
      && (forall j :: 0 <= j < i ==> l.activeUsers > c.tiers[j].maxUsers)
      && (l.activeUsers <= c.tiers[i].maxUsers || i == |c.tiers| - 1)
  }

  /** The limits nobody has configured. */
  function DefaultLimit(users: nat): int {
    if users <= 50 then 5000 else if users <= 200 then 2000 else if users <= 500 then 500 else 200
  }

  /** Without an answer from Redis, or without a stored value, the defaults apply. */
  function ConfigInForce(stored: Option<Config>, redisUp: bool): Config {
    if redisUp && stored.Some? then stored.value else DEFAULT_CONFIG
  }

  const NO_USERS := UserCount(0, 0, 0, 0)

  class Limiter {
    var activeUsers: map<string, int>
    var requestLog: map<Request, int>
    /** What an administrator has stored, if anything. */
    var config: Option<Config>

    function State(): Sets
      reads this
    {
      Sets(activeUsers, requestLog)
    }

    constructor ()
      ensures State() == EMPTY_SETS && config == None
    {
      activeUsers, requestLog := map[], map[];
      config := None;
    }

    method GetConfig(redisUp: bool) returns (c: Config)
      ensures c == ConfigInForce(config, redisUp)
    {
      if redisUp && config.Some? { return config.value; }
      c := DEFAULT_CONFIG;
    }

    method SetConfig(c: Config, redisUp: bool) returns (ok: bool)
      modifies this`config
      ensures config == (if redisUp then Some(c) else old(config)) && ok == redisUp
    {
      if redisUp { config := Some(c); }
      ok := redisUp;
    }

    method RecordRequest(ip: string, now: int, redisUp: bool)
      modifies this`activeUsers, this`requestLog
      ensures State() == if redisUp then Recorded(old(State()), ip, now) else old(State())
    {
      if !redisUp { return; }
      activeUsers := activeUsers[ip := now];
      requestLog := requestLog[(ip, now) := now];
    }

    method GetActiveUserCount(now: int, redisUp: bool) returns (c: UserCount)
      modifies this`activeUsers, this`requestLog
      ensures State() == if redisUp then PrunedSets(old(State()), now) else old(State())
      ensures if redisUp then CountIs(c, |activeUsers|, |requestLog|) else c == UserCount(0, 0, 0, 0)
    {
      if !redisUp { return NO_USERS; }
      var cutoff := now - ACTIVE_WINDOW_SECONDS;
      activeUsers := Pruned(activeUsers, cutoff);
      requestLog := Pruned(requestLog, cutoff);
      var unique, volume := |activeUsers|, |requestLog|;
      var estimated := volume / REQUESTS_PER_USER;
      c := UserCount(unique, volume, estimated, if unique > estimated then unique else estimated);
    }

    /** `base` is the limit used while the feature is switched off. */
    method GetCurrentRateLimit(now: int, redisUp: bool, base: int) returns (l: Limit, count: UserCount)
      modifies this`activeUsers, this`requestLog
      ensures State() == if redisUp then PrunedSets(old(State()), now) else old(State())
      ensures if redisUp then CountIs(count, |activeUsers|, |requestLog|) else count == UserCount(0, 0, 0, 0)
      ensures l == LimitFor(ConfigInForce(config, redisUp), count.effectiveUsers, base)
      ensures !redisUp ==> l == Limit(5000, 0, 0)
    {
      var c := GetConfig(redisUp);
      count := GetActiveUserCount(now, redisUp);
      var users := count.effectiveUsers;
      if !c.enabled { return Limit(base, users, -1), count; }
      var tiers := c.tiers;
      for i := 0 to |tiers|
        invariant forall j :: 0 <= j < i ==> users > tiers[j].maxUsers
      {
        if users <= tiers[i].maxUsers {
          FirstTierIs(tiers, users, i);
          return Limit(tiers[i].rateLimit, users, i), count;
        }
      }
      FirstTierIs(tiers, users, |tiers|);
      l := Limit(if |tiers| > 0 then tiers[|tiers| - 1].rateLimit else 200, users, |tiers| - 1);
    }
  }

  // ---------------------------------------------------------------- the window

  datatype Op = Record(ip: string, at: int, redisUp: bool) | CountUsers(at: int, redisUp: bool)

  function Perform(s: Sets, op: Op): Sets {
    match op
    case Record(ip, at, redisUp) => if redisUp then Recorded(s, ip, at) else s
    case CountUsers(at, redisUp) => if redisUp then PrunedSets(s, at) else s
  }

  function After(run: seq<Op>): Sets {
    if run == [] then EMPTY_SETS else Perform(After(run[..|run| - 1]), run[|run| - 1])
  }

  /** Every request Redis was told about, oldest first. */
  function History(run: seq<Op>): seq<Request> {
    if run == [] then []
    else
      var op := run[|run| - 1];
      History(run[..|run| - 1]) + if op.Record? && op.redisUp then [(op.ip, op.at)] else []
  }

  predicate ClockForward(run: seq<Op>) {
    run == [] || (ClockForward(run[..|run| - 1]) && (|run| > 1 ==> run[|run| - 2].at <= run[|run| - 1].at))
  }

  function LastRequest(h: seq<Request>, ip: string): Option<int> {
    if h == [] then None
    else if h[|h| - 1].0 == ip then Some(h[|h| - 1].1)
    else LastRequest(h[..|h| - 1], ip)
  }

  /** The sets hold the truth about every request in the window, and nothing false about any. */
  ghost predicate Faithful(s: Sets, h: seq<Request>, now: int) {
    (forall ip :: ip in s.activeUsers ==> LastRequest(h, ip) == Some(s.activeUsers[ip]))
    && (forall ip :: LastRequest(h, ip).Some? && ip !in s.activeUsers ==>
          LastRequest(h, ip).value <= now - 60)
    && (forall r :: r in s.requestLog ==> r in h && s.requestLog[r] == r.1)
    && (forall r :: r in h && r !in s.requestLog ==> r.1 <= now - 60)
  }

  lemma RecordStaysFaithful(s: Sets, h: seq<Request>, now: int, ip: string, at: int)
    requires Faithful(s, h, now) && now <= at
    ensures Faithful(Recorded(s, ip, at), h + [(ip, at)], at)
  {
    forall x ensures LastRequest(h + [(ip, at)], x) == if x == ip then Some(at) else LastRequest(h, x) {
      assert (h + [(ip, at)])[..|h|] == h;
    }
  }

  lemma PruneStaysFaithful(s: Sets, h: seq<Request>, now: int, at: int)
    requires Faithful(s, h, now) && now <= at
    ensures Faithful(PrunedSets(s, at), h, at)
  {
  }

  lemma StaysFaithful(s: Sets, h: seq<Request>, now: int, at: int)
    requires Faithful(s, h, now) && now <= at
    ensures Faithful(s, h, at)
  {
  }

  lemma {:induction false} SetsAreFaithful(run: seq<Op>)
    requires ClockForward(run) && run != []
    ensures Faithful(After(run), History(run), run[|run| - 1].at)
  {
    var front, op := run[..|run| - 1], run[|run| - 1];
    var s, h, now := After(front), History(front), if front == [] then op.at else front[|front| - 1].at;
    if front != [] { SetsAreFaithful(front); }
    assert Faithful(s, h, now);
    assert h + [] == h;
    if !op.redisUp {
      StaysFaithful(s, h, now, op.at);
    } else if op.Record? {
      RecordStaysFaithful(s, h, now, op.ip, op.at);
    } else {
      PruneStaysFaithful(s, h, now, op.at);
    }
  }

  /** IPs whose last request is in the window ending at `now`. */
  ghost function ActiveIps(h: seq<Request>, now: int): set<string> {
    set r | r in h && LastRequest(h, r.0).Some? && LastRequest(h, r.0).value > now - 60 :: r.0
  }

  /** Distinct (IP, time) pairs in that window. */
  ghost function RequestsInWindow(h: seq<Request>, now: int): set<Request> {
    set r | r in h && r.1 > now - 60
  }

  lemma {:induction false} LastRequestIsMember(h: seq<Request>, ip: string)
    ensures LastRequest(h, ip).Some? ==> (ip, LastRequest(h, ip).value) in h
  {
    if h != [] { LastRequestIsMember(h[..|h| - 1], ip); }
  }

  /**
   Lazy pruning is invisible: whatever recordings and counts came before, a count sees exactly the IPs
   whose last request is newer than a minute and exactly the distinct requests of that minute.
   */
  lemma CountReadsTheWindow(run: seq<Op>, now: int)
    requires ClockForward(run + [CountUsers(now, true)])
    ensures var s, h := After(run + [CountUsers(now, true)]), History(run);
            s.activeUsers.Keys == ActiveIps(h, now) && s.requestLog.Keys == RequestsInWindow(h, now)
            && |s.activeUsers| == |ActiveIps(h, now)| && |s.requestLog| == |RequestsInWindow(h, now)|
  {
    var longer := run + [CountUsers(now, true)];
    var s, h := After(longer), History(run);
    assert longer[..|run|] == run;
    SetsAreFaithful(longer);
    assert History(longer) == h;
    forall ip ensures ip in s.activeUsers <==> ip in ActiveIps(h, now) {
      LastRequestIsMember(h, ip);
    }
    assert s.activeUsers.Keys == ActiveIps(h, now);
    assert s.requestLog.Keys == RequestsInWindow(h, now);
    assert |s.activeUsers| == |s.activeUsers.Keys| && |s.requestLog| == |s.requestLog.Keys|;
  }

  // ---------------------------------------------------------------- tiers

  /** The first tier that takes `users`, or one past the end. */
  function FirstTier(tiers: seq<Tier>, users: int): (i: nat)
    ensures i <= |tiers|
  {
    if tiers == [] || users <= tiers[0].maxUsers then 0 else 1 + FirstTier(tiers[1..], users)
  }

  lemma {:induction false} FirstTierIs(tiers: seq<Tier>, users: int, i: nat)
    requires i <= |tiers| && forall j :: 0 <= j < i ==> users > tiers[j].maxUsers
    requires i < |tiers| ==> users <= tiers[i].maxUsers
    ensures FirstTier(tiers, users) == i
  {
    if i > 0 { FirstTierIs(tiers[1..], users, i - 1); }
  }

  lemma {:induction false} BeforeFirstTier(tiers: seq<Tier>, users: int)
    ensures var i := FirstTier(tiers, users);
            (forall j :: 0 <= j < i ==> users > tiers[j].maxUsers) && (i < |tiers| ==> users <= tiers[i].maxUsers)
  {
    if tiers != [] { BeforeFirstTier(tiers[1..], users); }
  }

  function Select(tiers: seq<Tier>, users: nat): Limit {
    var i := FirstTier(tiers, users);
    if i < |tiers| then Limit(tiers[i].rateLimit, users, i)
    else Limit(if tiers == [] then 200 else tiers[|tiers| - 1].rateLimit, users, |tiers| - 1)
  }

  function LimitFor(c: Config, users: nat, base: int): Limit {
    if c.enabled then Select(c.tiers, users) else Limit(base, users, -1)
  }

  /** The limit is the one its definition names. */
  lemma LimitForMeans(c: Config, users: nat, base: int)
    ensures var l := LimitFor(c, users, base); l.activeUsers == users && LimitIs(l, c, base)
  {
    BeforeFirstTier(c.tiers, users);
  }

  /** Nobody having configured any, or Redis being silent, it is a default; a stored configuration is used. */
  lemma DefaultsGive(c: Config, users: nat, base: int, redisUp: bool)
    ensures LimitFor(ConfigInForce(None, redisUp), users, base).rateLimit == DefaultLimit(users)
    ensures LimitFor(ConfigInForce(Some(c), false), users, base).rateLimit == DefaultLimit(users)
    ensures ConfigInForce(Some(c), true) == c
  {
    var tiers := DEFAULT_TIERS;
    assert tiers[0] == Tier(50, 5000) && tiers[1] == Tier(200, 2000) && tiers[2] == Tier(500, 500);
    assert tiers[3] == Tier(999999, 200) && |tiers| == 4;
    FirstTierIs(tiers, users, if users <= 50 then 0 else if users <= 200 then 1 else if users <= 500 then 2
                              else if users <= 999999 then 3 else 4);
  }

  predicate LimitsNonIncreasing(tiers: seq<Tier>) {
    forall i, j :: 0 <= i < j < |tiers| ==> tiers[i].rateLimit >= tiers[j].rateLimit
  }

  predicate SortedTiers(tiers: seq<Tier>) {
    (forall i, j :: 0 <= i < j < |tiers| ==> tiers[i].maxUsers < tiers[j].maxUsers)
    && (tiers != [] ==> tiers[0].maxUsers >= 0)
  }

  lemma {:induction false} MoreUsersLaterTier(tiers: seq<Tier>, users: int, more: int)
    requires users <= more
    ensures FirstTier(tiers, users) <= FirstTier(tiers, more)
  {
    if tiers != [] { MoreUsersLaterTier(tiers[1..], users, more); }
  }

  /** With non-increasing limits, in whatever order the thresholds come, more users never raise the limit. */
  lemma LimitNeverRises(tiers: seq<Tier>, users: nat, more: nat)
    requires LimitsNonIncreasing(tiers) && users <= more
    ensures Select(tiers, users).rateLimit >= Select(tiers, more).rateLimit
  {
    MoreUsersLaterTier(tiers, users, more);
  }

  /** For sorted tiers that is the exact condition. */
  lemma LimitMonotoneIff(tiers: seq<Tier>)
    requires SortedTiers(tiers)
    ensures (forall u: nat, v: nat :: u <= v ==> Select(tiers, u).rateLimit >= Select(tiers, v).rateLimit)
            <==> LimitsNonIncreasing(tiers)
  {
    if LimitsNonIncreasing(tiers) {
      forall u: nat, v: nat | u <= v ensures Select(tiers, u).rateLimit >= Select(tiers, v).rateLimit {
        LimitNeverRises(tiers, u, v);
      }
    } else {
      var i, j :| 0 <= i < j < |tiers| && tiers[i].rateLimit < tiers[j].rateLimit;
      assert tiers[i].maxUsers >= 0;
      FirstTierIs(tiers, tiers[i].maxUsers, i);
      FirstTierIs(tiers, tiers[j].maxUsers, j);
      assert Select(tiers, tiers[i].maxUsers).rateLimit < Select(tiers, tiers[j].maxUsers).rateLimit;
    }
  }
}
