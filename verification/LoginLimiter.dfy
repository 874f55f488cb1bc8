/**
  The staff login limiter: per-address attempts, per-user failures, locks, and the slots of attempts in flight.
*/
module LoginLimiter {
  import opened SlidingWindow

  const IP_WINDOW := MINUTE
  const IP_MAX_ATTEMPTS := 20
  const FAILURE_WINDOW := 15 * MINUTE
  const MAX_FAILURES := 5
  const LOCK_DURATION := 15 * MINUTE
  const SWEEP_EVERY := 64

  /** The limiter's fields as a value. */
  datatype State = State(ipHits: Times, failures: Times, locked: map<string, int>, inFlight: map<string, int>,
                         calls: nat)

  function InFlight(s: State, user: string): int { if user in s.inFlight then s.inFlight[user] else 0 }

  function DropExpired(locked: map<string, int>, now: int): map<string, int>
  {
    map u | u in locked && now < locked[u] :: locked[u]
  }

  function Swept(s: State, now: int): State
  {
    var s' := s.(calls := s.calls + 1);
    if s'.calls % SWEEP_EVERY != 0 then s'
    else s'.(ipHits := SweepTimes(s.ipHits, now - IP_WINDOW),
             failures := SweepTimes(s.failures, now - FAILURE_WINDOW),
             locked := DropExpired(s.locked, now))
  }

  /** Every 64th call leaves no list without a recent entry and no lock that has run out; the others touch nothing. */
  lemma SweepClears(s: State, now: int, key: string)
    ensures Swept(s, now).calls == s.calls + 1 && Swept(s, now).inFlight == s.inFlight
    ensures (s.calls + 1) % 64 == 0 ==>
              var s' := Swept(s, now);
              (key in s'.ipHits ==> s'.ipHits[key] != [] && s'.ipHits[key][0] > now - 60_000_000_000) &&
              (key in s'.failures ==> s'.failures[key] != [] && s'.failures[key][0] > now - 900_000_000_000) &&
              (key in s'.locked ==> key in s.locked && now < s'.locked[key] == s.locked[key])
    ensures (s.calls + 1) % 64 != 0 ==> Swept(s, now) == s.(calls := s.calls + 1)
  {
    if key in s.ipHits { PruneIsSuffix(s.ipHits[key], now - IP_WINDOW); }
    if key in s.failures { PruneIsSuffix(s.failures[key], now - FAILURE_WINDOW); }
  }

  function ReleaseSlot(s: State, user: string): State
  {
    if user !in s.inFlight then s
    else if s.inFlight[user] <= 1 then s.(inFlight := s.inFlight - {user})
    else s.(inFlight := s.inFlight[user := s.inFlight[user] - 1])
  }

  /** The address check on an already swept limiter. */
  function Admit(s: State, ip: string, now: int): (State, bool)
  {
    var hits := Prune(Get(s.ipHits, ip), now - IP_WINDOW);
    if |hits| >= IP_MAX_ATTEMPTS then (s.(ipHits := SetTimes(s.ipHits, ip, hits)), false)
    else (s.(ipHits := s.ipHits[ip := hits + [now]]), true)
  }

  function AfterAllowIP(s: State, ip: string, now: int): (State, bool) { Admit(Swept(s, now), ip, now) }

  function AfterLocked(s: State, user: string, now: int): (State, bool)
  {
    if user !in s.locked then (s, false)
    else if now < s.locked[user] then (s, true)
    else (s.(locked := s.locked - {user}), false)
  }

  /** The attempt check on an already swept limiter. */
  function Claim(s: State, user: string, now: int): (State, bool)
  {
    if user in s.locked && now < s.locked[user] then (s, false)
    else
      var failures := Prune(Get(s.failures, user), now - FAILURE_WINDOW);
      var t := s.(locked := s.locked - {user}, failures := SetTimes(s.failures, user, failures));
      if |failures| + InFlight(t, user) >= MAX_FAILURES then (t, false)
      else (t.(inFlight := t.inFlight[user := InFlight(t, user) + 1]), true)
  }

  function AfterBegin(s: State, user: string, now: int): (State, bool) { Claim(Swept(s, now), user, now) }

  function AfterFailure(s: State, user: string, now: int): State
  {
    var s' := ReleaseSlot(s, user);
    var failures := Prune(Get(s'.failures, user), now - FAILURE_WINDOW) + [now];
    if |failures| >= MAX_FAILURES
    then s'.(locked := s'.locked[user := now + LOCK_DURATION], failures := s'.failures - {user})
    else s'.(failures := s'.failures[user := failures])
  }

  function AfterSuccess(s: State, user: string): State
  {
    var s' := ReleaseSlot(s, user);
    s'.(failures := s'.failures - {user}, locked := s'.locked - {user})
  }

  method SweepLocks(locked: map<string, int>, now: int) returns (kept: map<string, int>)
    ensures kept == DropExpired(locked, now)
  {
    kept := locked;
    var left := locked.Keys;
    while left != {}
      invariant left <= locked.Keys && left <= kept.Keys <= locked.Keys
      invariant forall u | u in kept :: kept[u] == locked[u]
      invariant forall u | u in locked && u !in left :: u in kept <==> now < locked[u]
      decreases left
    {
      var u :| u in left;
      if now >= kept[u] { kept := kept - {u}; }
      left := left - {u};
    }
  }

  class LoginLimiter {
    var ipHits: Times
    var failures: Times
    var locked: map<string, int>
    var inFlight: map<string, int>
    var calls: nat

    ghost function Value(): State
      reads this
    {
      State(ipHits, failures, locked, inFlight, calls)
    }

    constructor ()
      ensures Value() == State(map[], map[], map[], map[], 0)
    {
      ipHits, failures, locked, inFlight, calls := map[], map[], map[], map[], 0;
    }

    method AllowIP(ip: string, now: int) returns (ok: bool)
      modifies this
      ensures (Value(), ok) == AfterAllowIP(old(Value()), ip, now)
    {
      MaybeSweep(now);
      var hits := PruneBefore(Get(ipHits, ip), now - IP_WINDOW);
      if |hits| >= IP_MAX_ATTEMPTS {
        ipHits := SetTimes(ipHits, ip, hits);
        return false;
      }
      ipHits := ipHits[ip := hits + [now]];
      ok := true;
    }

    method Locked(user: string, now: int) returns (ok: bool)
      modifies this
      ensures (Value(), ok) == AfterLocked(old(Value()), user, now)
    {
      if user !in locked { return false; }
      if now < locked[user] { return true; }
      locked := locked - {user};
      ok := false;
    }

    method BeginAttempt(user: string, now: int) returns (ok: bool)
      modifies this
      ensures (Value(), ok) == AfterBegin(old(Value()), user, now)
    {
      MaybeSweep(now);
      if user in locked {
        if now < locked[user] { return false; }
        locked := locked - {user};
      }
      var recent := PruneBefore(Get(failures, user), now - FAILURE_WINDOW);
      failures := SetTimes(failures, user, recent);
      assert locked == Swept(old(Value()), now).locked - {user};
      var running := if user in inFlight then inFlight[user] else 0;
      if |recent| + running >= MAX_FAILURES { return false; }
      inFlight := inFlight[user := running + 1];
      ok := true;
    }

    method Failure(user: string, now: int)
      modifies this
      ensures Value() == AfterFailure(old(Value()), user, now)
    {
      ReleaseInFlight(user);
      var recent := PruneBefore(Get(failures, user), now - FAILURE_WINDOW);
      recent := recent + [now];
      if |recent| >= MAX_FAILURES {
        locked := locked[user := now + LOCK_DURATION];
        failures := failures - {user};
        return;
      }
      failures := failures[user := recent];
    }

    method Success(user: string)
      modifies this
      ensures Value() == AfterSuccess(old(Value()), user)
    {
      ReleaseInFlight(user);
      failures := failures - {user};
      locked := locked - {user};
    }

    method Release(user: string)
      modifies this
      ensures Value() == ReleaseSlot(old(Value()), user)
    {
      ReleaseInFlight(user);
    }

    method ReleaseInFlight(user: string)
      modifies this`inFlight
      ensures Value() == ReleaseSlot(old(Value()), user)
    {
      if user !in inFlight { return; }
      if inFlight[user] <= 1 {
        inFlight := inFlight - {user};
        return;
      }
      inFlight := inFlight[user := inFlight[user] - 1];
    }

    /** Every SWEEP_EVERY calls all maps are cleaned, so that one-off keys do not pile up. */
    method MaybeSweep(now: int)
      modifies this
      ensures Value() == Swept(old(Value()), now)
    {
      calls := calls + 1;
      if calls % SWEEP_EVERY != 0 { return; }
      ipHits := Sweep(ipHits, now - IP_WINDOW);
      failures := Sweep(failures, now - FAILURE_WINDOW);
      locked := SweepLocks(locked, now);
    }
  }

  // ---------------------------------------------------------------- one login

  datatype Lookup = Found(active: bool) | NoSuchUser | LookupFailed

  datatype Verify = Match | Mismatch | Busy | VerifyFailed

  datatype LoginResult = RateLimited | AccountLocked | InvalidCredentials | InternalError | LoggedIn

  /** How a login gives its slot back. */
  datatype Ending = EndFailure | EndSuccess | EndRelease

  /** An active account with its password: the only login that succeeds. */
  predicate RightPassword(lookup: Lookup, verify: Verify) { lookup == Found(true) && verify == Match }

  /** What counts against the user: an unknown name, a wrong password, or a disabled account. */
  predicate WrongCredentials(lookup: Lookup, verify: Verify)
  {
    match lookup
    case NoSuchUser => verify != Busy
    case Found(active) => verify == Mismatch || (verify == Match && active == false)
    case LookupFailed => false
  }

  function EndingOf(lookup: Lookup, verify: Verify): (e: Ending)
    ensures e.EndSuccess? <==> RightPassword(lookup, verify)
    ensures e.EndFailure? <==> WrongCredentials(lookup, verify)
  {
    if lookup.LookupFailed? || verify.Busy? then EndRelease
    else if lookup.NoSuchUser? then EndFailure
    else if verify.VerifyFailed? then EndRelease
    else if verify.Match? && lookup.active then EndSuccess
    else EndFailure
  }

  function AfterEnding(s: State, user: string, now: int, e: Ending): State
  {
    match e
    case EndFailure => AfterFailure(s, user, now)
    case EndSuccess => AfterSuccess(s, user)
    case EndRelease => ReleaseSlot(s, user)
  }

  /** What one login by itself does to the limiter. */
  function AfterLogin(s: State, ip: string, user: string, t0: int, t1: int, t2: int, e: Ending): State
  {
    var (s0, admitted) := AfterAllowIP(s, ip, t0);
    var (s1, begun) := AfterBegin(s0, user, t1);
    if !admitted then s0 else if !begun then s1 else AfterEnding(s1, user, t2, e)
  }

  /**
    One login with its three readings of the clock. The database and the password check answer `lookup` and
    `verify`; `recordFails` and `sessionFails` are the errors that can still come after the outcome is known.
  */
  method Login(limiter: LoginLimiter, ip: string, user: string, t0: int, t1: int, t2: int,
               lookup: Lookup, verify: Verify, recordFails: bool, sessionFails: bool) returns (res: LoginResult)
    modifies limiter
    ensures limiter.Value() == AfterLogin(old(limiter.Value()), ip, user, t0, t1, t2, EndingOf(lookup, verify))
    ensures var (s0, admitted) := AfterAllowIP(old(limiter.Value()), ip, t0);
            var begun := admitted && AfterBegin(s0, user, t1).1;
            (res.LoggedIn? <==> begun && RightPassword(lookup, verify) && !sessionFails) &&
            (res.InvalidCredentials? <==>
              begun && WrongCredentials(lookup, verify) && (lookup.NoSuchUser? || !recordFails)) &&
            (res.AccountLocked? <==> admitted && !begun) && (!admitted ==> res.RateLimited?) &&
            (begun && res.RateLimited? <==> begun && verify.Busy? && !lookup.LookupFailed?)
  {
    var ok := limiter.AllowIP(ip, t0);
    if !ok { return RateLimited; }
    ok := limiter.BeginAttempt(user, t1);
    if !ok { return AccountLocked; }
    var released := false;
    res, released := CheckCredentials(limiter, user, t2, lookup, verify, recordFails, sessionFails);
    if !released { limiter.Release(user); }
  }

  /** The body between BeginAttempt and the deferred Release. */
  method CheckCredentials(limiter: LoginLimiter, user: string, now: int, lookup: Lookup, verify: Verify,
                      recordFails: bool, sessionFails: bool) returns (res: LoginResult, released: bool)
    modifies limiter
    ensures released <==> !EndingOf(lookup, verify).EndRelease?
    ensures released ==> limiter.Value() == AfterEnding(old(limiter.Value()), user, now, EndingOf(lookup, verify))
    ensures !released ==> limiter.Value() == old(limiter.Value())
    ensures res.LoggedIn? <==> RightPassword(lookup, verify) && !sessionFails
    ensures res.InvalidCredentials? <==>
              WrongCredentials(lookup, verify) && (lookup.NoSuchUser? || !recordFails)
    ensures res.RateLimited? <==> verify.Busy? && !lookup.LookupFailed?
    ensures !res.AccountLocked?
  {
    released := false;
    if lookup.NoSuchUser? {
      if verify.Busy? { return RateLimited, released; }
      released := true;
      limiter.Failure(user, now);
      return InvalidCredentials, released;
    }
    if lookup.LookupFailed? { return InternalError, released; }
    if verify.Busy? { return RateLimited, released; }
    if verify.VerifyFailed? { return InternalError, released; }
    if !verify.Match? || !lookup.active {
      released := true;
      limiter.Failure(user, now);
      if recordFails { return InternalError, released; }
      return InvalidCredentials, released;
    }
    released := true;
    limiter.Success(user);
    if sessionFails { return InternalError, released; }
    res := LoggedIn;
  }
}
