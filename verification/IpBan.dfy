/**
 Escalating bans kept in expiring Redis keys: a strike record, a timed ban and a permanent ban per IP.
 Times are seconds; a key set with an expiry is gone from that moment on.
 */
module IpBan {
  import opened Wrappers

  const HOUR_BAN_DURATION := 3600
  const MAX_HOUR_BANS := 3
  const STRIKE_TTL := 86400
  const PERMANENT_STRIKE_TTL := 86400 * 30

  datatype Info = Info(strikes: nat, hourBans: nat, warned: bool)

  datatype Record = Record(info: Info, expiresAt: int)

  datatype Keys = Keys(strikes: map<string, Record>, bans: map<string, int>, permanent: map<string, Info>,
                       enabled: bool)

  const NO_KEYS := Keys(map[], map[], map[], true)

  datatype Action = NoAction | Warning | HourBan | PermanentBan | AlreadyBanned

  datatype Verdict = Verdict(action: Action, strikes: nat, hourBans: nat, remaining: Option<int>)

  datatype Status = Status(banned: bool, permanent: bool, strikes: nat, hourBans: nat, remaining: Option<int>,
                           warned: bool)

  const NOT_BANNED := Status(false, false, 0, 0, None, false)

  predicate BanLive(k: Keys, ip: string, now: int) { ip in k.bans && now < k.bans[ip] }

  /** The strike record, or the blank one when there is none. */
  function InfoOf(k: Keys, ip: string, now: int): Info {
    if ip in k.strikes && now < k.strikes[ip].expiresAt then k.strikes[ip].info else Info(0, 0, false)
  }

  class IpBans {
    var strikes: map<string, Record>
    var bans: map<string, int>
    var permanent: map<string, Info>
    var enabled: bool

    function State(): Keys
      reads this
    {
      Keys(strikes, bans, permanent, enabled)
    }

    constructor ()
      ensures State() == NO_KEYS
    {
      strikes, bans, permanent, enabled := map[], map[], map[], true;
    }

    method SetEnabled(on: bool)
      modifies this`enabled
      ensures State() == old(State()).(enabled := on)
    {
      enabled := on;
    }

    /** `redisUp` is false when there is no client or its first answer is an error. */
    method RecordViolation(ip: string, now: int, redisUp: bool) returns (v: Verdict)
      modifies this
      ensures (State(), v) == Violated(old(State()), ip, now, redisUp)
    {
      if !enabled || !redisUp { return Verdict(NoAction, 0, 0, None); }
      if ip in permanent { return Verdict(AlreadyBanned, 0, 0, None); }
      if ip in bans && now < bans[ip] { return Verdict(AlreadyBanned, 0, 0, Some(bans[ip] - now)); }
      var info := if ip in strikes && now < strikes[ip].expiresAt then strikes[ip].info else Info(0, 0, false);
      info := info.(strikes := info.strikes + 1);
      if info.strikes == 1 {
        info := info.(warned := true);
        strikes := strikes[ip := Record(info, now + STRIKE_TTL)];
        return Verdict(Warning, 1, info.hourBans, None);
      }
      info := info.(hourBans := info.hourBans + 1);
      if info.hourBans > MAX_HOUR_BANS {
        permanent := permanent[ip := info];
        bans := bans - {ip};
        strikes := strikes[ip := Record(info, now + PERMANENT_STRIKE_TTL)];
        return Verdict(PermanentBan, info.strikes, info.hourBans, None);
      }
      bans := bans[ip := now + HOUR_BAN_DURATION];
      strikes := strikes[ip := Record(info, now + STRIKE_TTL)];
      strikes := strikes[ip := Record(Info(0, info.hourBans, false), now + STRIKE_TTL)];
      assert strikes == old(strikes)[ip := Record(Info(0, info.hourBans, false), now + STRIKE_TTL)];
      v := Verdict(HourBan, info.strikes, info.hourBans, Some(HOUR_BAN_DURATION));
    }

    method GetIpStatus(ip: string, now: int, redisUp: bool) returns (s: Status)
      ensures s == StatusOf(State(), ip, now, redisUp)
    {
      if !redisUp { return NOT_BANNED; }
      if ip in permanent {
        return Status(true, true, permanent[ip].strikes, permanent[ip].hourBans, None, true);
      }
      var info := if ip in strikes && now < strikes[ip].expiresAt then strikes[ip].info else Info(0, 0, false);
      if ip in bans && now < bans[ip] {
        return Status(true, false, info.strikes, info.hourBans, Some(bans[ip] - now), true);
      }
      s := Status(false, false, info.strikes, info.hourBans, None, info.warned);
    }

    method IsBanned(ip: string, now: int, redisUp: bool) returns (banned: bool)
      ensures banned == (enabled && StatusOf(State(), ip, now, redisUp).banned)
    {
      if !enabled { return false; }
      var s := GetIpStatus(ip, now, redisUp);
      banned := s.banned;
    }

    method UnbanIp(ip: string, redisUp: bool) returns (ok: bool)
      modifies this
      ensures State() == (if redisUp then Unbanned(old(State()), ip) else old(State()))
      ensures ok == redisUp
    {
      if redisUp {
        permanent := permanent - {ip};
        bans := bans - {ip};
        strikes := strikes - {ip};
      }
      ok := redisUp;
    }
  }

  function StatusOf(k: Keys, ip: string, now: int, redisUp: bool): Status {
    if !redisUp then NOT_BANNED
    else if ip in k.permanent then Status(true, true, k.permanent[ip].strikes, k.permanent[ip].hourBans, None, true)
    else
      var info := InfoOf(k, ip, now);
      if BanLive(k, ip, now) then Status(true, false, info.strikes, info.hourBans, Some(k.bans[ip] - now), true)
      else Status(false, false, info.strikes, info.hourBans, None, info.warned)
  }

  function Violated(k: Keys, ip: string, now: int, redisUp: bool): (Keys, Verdict) {
    if !k.enabled || !redisUp then (k, Verdict(NoAction, 0, 0, None))
    else if ip in k.permanent then (k, Verdict(AlreadyBanned, 0, 0, None))
    else if BanLive(k, ip, now) then (k, Verdict(AlreadyBanned, 0, 0, Some(k.bans[ip] - now)))
    else
      var info := InfoOf(k, ip, now);
      if info.strikes == 0 then
        (k.(strikes := k.strikes[ip := Record(Info(1, info.hourBans, true), now + STRIKE_TTL)]),
         Verdict(Warning, 1, info.hourBans, None))
      else if info.hourBans >= MAX_HOUR_BANS then
        var last := Info(info.strikes + 1, info.hourBans + 1, info.warned);
        (k.(permanent := k.permanent[ip := last], bans := k.bans - {ip},
            strikes := k.strikes[ip := Record(last, now + PERMANENT_STRIKE_TTL)]),
         Verdict(PermanentBan, info.strikes + 1, info.hourBans + 1, None))
      else
        (k.(bans := k.bans[ip := now + HOUR_BAN_DURATION],
            strikes := k.strikes[ip := Record(Info(0, info.hourBans + 1, false), now + STRIKE_TTL)]),
         Verdict(HourBan, info.strikes + 1, info.hourBans + 1, Some(HOUR_BAN_DURATION)))
  }

  function Unbanned(k: Keys, ip: string): Keys {
    k.(permanent := k.permanent - {ip}, bans := k.bans - {ip}, strikes := k.strikes - {ip})
  }

  // ---------------------------------------------------------------- runs

  datatype Op =
    | Violate(ip: string, at: int, redisUp: bool)
    | Unban(ip: string, at: int, redisUp: bool)
    | Enable(on: bool, at: int)

  function Perform(k: Keys, op: Op): (Keys, Verdict) {
    match op
    case Violate(ip, at, redisUp) => Violated(k, ip, at, redisUp)
    case Unban(ip, _, redisUp) => (if redisUp then Unbanned(k, ip) else k, Verdict(NoAction, 0, 0, None))
    case Enable(on, _) => (k.(enabled := on), Verdict(NoAction, 0, 0, None))
  }

  function After(run: seq<Op>): Keys {
    if run == [] then NO_KEYS else Perform(After(run[..|run| - 1]), run[|run| - 1]).0
  }

  /** What the last operation of the run answered. */
  function LastVerdict(run: seq<Op>): Verdict
    requires run != []
  {
    Perform(After(run[..|run| - 1]), run[|run| - 1]).1
  }

  predicate ClockForward(run: seq<Op>) {
    run == [] || (ClockForward(run[..|run| - 1]) && (|run| > 1 ==> run[|run| - 2].at <= run[|run| - 1].at))
  }

  /** The moment of the last operation. */
  function Clock(run: seq<Op>): int
    requires run != []
  {
    run[|run| - 1].at
  }

  // ---------------------------------------------------------------- the closed form

  /** Counted violations in a row, and when the last of them was; 8 is the permanent ban. */
  datatype Streak = Streak(n: nat, last: int)

  /** What the `n`-th counted violation of a streak brings. */
  function ActionFor(n: nat): Action {
    if n == 8 then PermanentBan else if n % 2 == 1 then Warning else HourBan
  }

  /** The streak has the IP banned at this moment. */
  predicate Banning(s: Streak, now: int) {
    s.n == 8 || (s.n > 0 && s.n % 2 == 0 && now < s.last + 3600)
  }

  /** A violation that is not ignored lengthens the streak, or starts a new one after a quiet day. */
  function Lengthened(s: Streak, now: int): Streak {
    if s.n > 0 && now < s.last + 86400 then Streak(s.n + 1, now) else Streak(1, now)
  }

  /** The switch is on until it is set otherwise. */
  predicate SwitchedOn(run: seq<Op>) {
    run == [] || (if run[|run| - 1].Enable? then run[|run| - 1].on else SwitchedOn(run[..|run| - 1]))
  }

  lemma {:induction false} SwitchIsHistory(run: seq<Op>)
    ensures After(run).enabled == SwitchedOn(run)
  {
    if run != [] { SwitchIsHistory(run[..|run| - 1]); }
  }

  function StreakOf(run: seq<Op>, ip: string): Streak {
    if run == [] then Streak(0, 0)
    else
      var before, op := StreakOf(run[..|run| - 1], ip), run[|run| - 1];
      if op.Violate? && op.ip == ip && op.redisUp && SwitchedOn(run[..|run| - 1]) && !Banning(before, op.at)
      then Lengthened(before, op.at)
      else if op.Unban? && op.ip == ip && op.redisUp then Streak(0, 0)
      else before
  }

  /** The keys of `ip` say what its streak says, for every moment from `now` on. */
  ghost predicate Tracks(k: Keys, ip: string, s: Streak, now: int) {
    && s.n <= 8 && (s.n > 0 ==> s.last <= now)
    && (ip in k.permanent <==> s.n == 8)
    && (s.n == 8 ==>
          k.permanent[ip] == Info(2, 4, true) && ip !in k.bans
          && ip in k.strikes && k.strikes[ip] == Record(Info(2, 4, true), s.last + 30 * 86400))
    && (s.n == 0 ==> ip !in k.strikes)
    && (0 < s.n < 8 ==>
          (ip in k.strikes && k.strikes[ip] == Record(Info(s.n % 2, s.n / 2, s.n % 2 == 1), s.last + 86400)))
    && (0 < s.n < 8 && s.n % 2 == 0 ==> ip in k.bans && k.bans[ip] == s.last + 3600)
    && (ip in k.bans ==> k.bans[ip] <= now || (0 < s.n < 8 && s.n % 2 == 0))
  }

  lemma TracksLater(k: Keys, ip: string, s: Streak, now: int, later: int)
    requires Tracks(k, ip, s, now) && now <= later
    ensures Tracks(k, ip, s, later)
  {
  }

  /** The seconds a verdict announces: the rest of a timed ban, or the hour of a new one. */
  function Remaining(s: Streak, action: Action, now: int): Option<int> {
    match action
    case HourBan => Some(3600)
    case AlreadyBanned => if s.n == 8 then None else Some(s.last + 3600 - now)
    case _ => None
  }

  lemma ViolationStep(k: Keys, ip: string, s: Streak, now: int)
    requires Tracks(k, ip, s, now) && k.enabled
    ensures var (k', v) := Violated(k, ip, now, true);
            if Banning(s, now) then k' == k && v == Verdict(AlreadyBanned, 0, 0, Remaining(s, AlreadyBanned, now))
            else var n := Lengthened(s, now).n;
                 Tracks(k', ip, Lengthened(s, now), now)
                 && v == Verdict(ActionFor(n), 2 - n % 2, n / 2, Remaining(s, ActionFor(n), now))
  {
  }

  lemma OtherIpStep(k: Keys, op: Op, ip: string, s: Streak, now: int)
    requires Tracks(k, ip, s, now) && !op.Enable? && op.ip != ip
    ensures Tracks(Perform(k, op).0, ip, s, now)
  {
  }

  /** Switched off or without Redis, a violation changes nothing and is answered with no action. */
  lemma IgnoredViolation(k: Keys, ip: string, now: int, redisUp: bool)
    ensures !k.enabled || !redisUp <==> Violated(k, ip, now, redisUp).1 == Verdict(NoAction, 0, 0, None)
    ensures !k.enabled || !redisUp ==> Violated(k, ip, now, redisUp).0 == k
  {
  }

  lemma {:induction false} StateTracksStreak(run: seq<Op>, ip: string)
    requires ClockForward(run) && run != []
    ensures Tracks(After(run), ip, StreakOf(run, ip), Clock(run))
  {
    var front, op := run[..|run| - 1], run[|run| - 1];
    var k, s := After(front), StreakOf(front, ip);
    SwitchIsHistory(front);
    if front != [] {
      StateTracksStreak(front, ip);
      TracksLater(k, ip, s, Clock(front), op.at);
    }
    assert Tracks(k, ip, s, op.at);
    if op.Enable? {
    } else if op.ip != ip {
      OtherIpStep(k, op, ip, s, op.at);
    } else if op.Violate? && op.redisUp && k.enabled {
      ViolationStep(k, ip, s, op.at);
    }
  }

  /**
   The escalation in closed form, for every run of violations, unbans and toggles over any IPs: a
   violation is refused as already banned exactly while its streak bans the IP; otherwise it makes the
   streak one longer (or starts one after a quiet day), and the `n`-th of a streak is a warning for odd
   `n`, hour ban `n / 2` for 2, 4 and 6, and the permanent ban for 8.
   */
  lemma EscalationClosedForm(run: seq<Op>, ip: string, at: int)
    requires ClockForward(run + [Violate(ip, at, true)]) && After(run).enabled
    ensures var s, v := StreakOf(run, ip), Perform(After(run), Violate(ip, at, true)).1;
            if Banning(s, at) then v == Verdict(AlreadyBanned, 0, 0, Remaining(s, AlreadyBanned, at))
            else var n := Lengthened(s, at).n;
                 n <= 8 && v == Verdict(ActionFor(n), 2 - n % 2, n / 2, Remaining(s, ActionFor(n), at))
  {
    var longer := run + [Violate(ip, at, true)];
    assert longer[..|run|] == run;
    if run != [] {
      StateTracksStreak(run, ip);
      assert longer[|longer| - 2] == run[|run| - 1];
      TracksLater(After(run), ip, StreakOf(run, ip), Clock(run), at);
    }
    ViolationStep(After(run), ip, StreakOf(run, ip), at);
  }

  /** The progression the module's documentation announces, strike by strike. */
  function Documented(n: nat): Action {
    if n <= 1 then Warning else if n <= 4 then HourBan else PermanentBan
  }

  /** The code departs from it: of the eight counted violations only the 1st, 2nd, 4th and 8th match. */
  lemma DocumentedProgressionIff(run: seq<Op>, ip: string, at: int)
    requires ClockForward(run + [Violate(ip, at, true)]) && After(run).enabled && !Banning(StreakOf(run, ip), at)
    ensures var n, v := Lengthened(StreakOf(run, ip), at).n, Perform(After(run), Violate(ip, at, true)).1;
            v.action == Documented(n) <==> n in {1, 2, 4, 8}
  {
    EscalationClosedForm(run, ip, at);
  }

  /** The first departure: the third counted violation is a warning, where an hour ban is announced. */
  lemma ThirdViolationOnlyWarns(ip: string)
    ensures var run := [Violate(ip, 0, true), Violate(ip, 1, true)];
            var at := 1 + 3600;
            LastVerdict(run).action == HourBan && Documented(3) == HourBan
            && Perform(After(run), Violate(ip, at, true)).1.action == Warning
  {
    var first := [Violate(ip, 0, true)];
    var run := first + [Violate(ip, 1, true)];
    assert run == [Violate(ip, 0, true), Violate(ip, 1, true)];
    assert first[..0] == [] && run[..1] == first;
    assert After(first[..0]) == NO_KEYS;
    assert InfoOf(After(first), ip, 1) == Info(1, 0, true);
    assert InfoOf(After(run), ip, 1 + 3600) == Info(0, 1, false);
  }

  /** What the streak says a request for the status sees. */
  function StreakStatus(s: Streak, now: int): Status {
    if s.n == 8 then Status(true, true, 2, 4, None, true)
    else if s.n == 0 || now >= s.last + 86400 then Status(false, false, 0, 0, None, false)
    else if Banning(s, now) then Status(true, false, 0, s.n / 2, Some(s.last + 3600 - now), true)
    else Status(false, false, s.n % 2, s.n / 2, None, s.n % 2 == 1)
  }

  lemma TrackedStatus(k: Keys, ip: string, s: Streak, now: int)
    requires Tracks(k, ip, s, now)
    ensures StatusOf(k, ip, now, true) == StreakStatus(s, now)
    ensures s.n < 8 && BanLive(k, ip, now) ==> ip in k.strikes && k.bans[ip] < k.strikes[ip].expiresAt
  {
  }

  /**
   What requests see: an IP is banned exactly while its streak says so, and for how long; strikes and hour
   bans are those of the streak, and forgotten after a quiet day; the record outlives the timed ban.
   */
  lemma BanStatusFollowsStreak(run: seq<Op>, ip: string, now: int)
    requires ClockForward(run) && run != [] && Clock(run) <= now
    ensures var k, s := After(run), StreakOf(run, ip);
            StatusOf(k, ip, now, true) == StreakStatus(s, now)
            && (StatusOf(k, ip, now, true).banned <==> Banning(s, now))
            && StatusOf(k, ip, now, false) == Status(false, false, 0, 0, None, false)
            && (s.n < 8 && BanLive(k, ip, now) ==> ip in k.strikes && k.bans[ip] < k.strikes[ip].expiresAt)
  {
    StateTracksStreak(run, ip);
    TracksLater(After(run), ip, StreakOf(run, ip), Clock(run), now);
    TrackedStatus(After(run), ip, StreakOf(run, ip), now);
  }

  /** Only an unban removes the permanent key, whatever the clock, other IPs and the switch do. */
  lemma {:induction false} PermanentUntilUnban(run: seq<Op>, more: seq<Op>, ip: string)
    requires ip in After(run).permanent && forall op <- more :: !(op.Unban? && op.ip == ip && op.redisUp)
    ensures ip in After(run + more).permanent
  {
    if more == [] {
      assert run + more == run;
    } else {
      var front := more[..|more| - 1];
      assert (run + more)[..|run + more| - 1] == run + front;
      assert more[|more| - 1] in more && forall op <- front :: op in more;
      PermanentUntilUnban(run, front, ip);
    }
  }

  /** The counted violations of `ip`: when each was, and what it brought. */
  function Counted(run: seq<Op>, ip: string): seq<(int, Action)> {
    if run == [] then []
    else
      var op, v := run[|run| - 1], LastVerdict(run);
      Counted(run[..|run| - 1], ip)
      + if op.Violate? && op.ip == ip && v.action != NoAction && v.action != AlreadyBanned
        then [(op.at, v.action)] else []
  }

  predicate LessThanADayApart(c: seq<(int, Action)>) {
    forall i :: 0 < i < |c| ==> c[i].0 < c[i - 1].0 + 86400
  }

  /** The counted violations follow the table, and the streak is as long as they are many. */
  ghost predicate FollowsTable(c: seq<(int, Action)>, s: Streak) {
    s.n == |c| <= 8 && (c != [] ==> s.last == c[|c| - 1].0)
    && forall i :: 0 <= i < |c| ==> c[i].1 == ActionFor(i + 1)
  }

  lemma TableStep(c: seq<(int, Action)>, s: Streak, at: int)
    requires FollowsTable(c, s) && !Banning(s, at)
    requires LessThanADayApart(c + [(at, ActionFor(Lengthened(s, at).n))])
    ensures FollowsTable(c + [(at, ActionFor(Lengthened(s, at).n))], Lengthened(s, at))
  {
    var c' := c + [(at, ActionFor(Lengthened(s, at).n))];
    if c != [] { assert c'[|c|].0 < c'[|c| - 1].0 + 86400; }
  }

  lemma ApartPrefix(c: seq<(int, Action)>, more: seq<(int, Action)>)
    requires LessThanADayApart(c + more)
    ensures LessThanADayApart(c)
  {
    forall i | 0 < i < |c| ensures c[i].0 < c[i - 1].0 + 86400 {
      assert (c + more)[i] == c[i] && (c + more)[i - 1] == c[i - 1];
    }
  }

  /** What the last operation adds to the counted violations. */
  lemma LastCounted(run: seq<Op>, ip: string)
    requires ClockForward(run) && run != [] && !(run[|run| - 1].Unban? && run[|run| - 1].ip == ip)
    ensures var front, at := run[..|run| - 1], run[|run| - 1].at;
            var s := StreakOf(front, ip);
            (Counted(run, ip) == Counted(front, ip) && StreakOf(run, ip) == s)
            || (!Banning(s, at) && StreakOf(run, ip) == Lengthened(s, at)
                && Counted(run, ip) == Counted(front, ip) + [(at, ActionFor(Lengthened(s, at).n))])
  {
    var front, op := run[..|run| - 1], run[|run| - 1];
    SwitchIsHistory(front);
    assert run == front + [op];
    if op.Violate? && op.ip == ip {
      IgnoredViolation(After(front), ip, op.at, op.redisUp);
      if op.redisUp && SwitchedOn(front) { EscalationClosedForm(front, ip, op.at); }
    }
  }

  /**
   Without unbans, and with counted violations less than a day apart, the whole life of an IP is the
   table itself: the counted violations are at most eight and the `i`-th one brings `ActionFor(i)`.
   */
  lemma {:induction false} EscalationTable(run: seq<Op>, ip: string)
    requires ClockForward(run) && forall op <- run :: !(op.Unban? && op.ip == ip)
    requires LessThanADayApart(Counted(run, ip))
    ensures FollowsTable(Counted(run, ip), StreakOf(run, ip))
  {
    if run != [] {
      var front, op := run[..|run| - 1], run[|run| - 1];
      assert op in run && forall x <- front :: x in run;
      LastCounted(run, ip);
      ApartPrefix(Counted(front, ip), Counted(run, ip)[|Counted(front, ip)|..]);
      assert Counted(run, ip) == Counted(front, ip) + Counted(run, ip)[|Counted(front, ip)|..];
      EscalationTable(front, ip);
      if Counted(run, ip) != Counted(front, ip) { TableStep(Counted(front, ip), StreakOf(front, ip), op.at); }
    }
  }
}
