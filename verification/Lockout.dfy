/**
  What the login limiter guarantees over every interleaving of logins: the bound on failures, the lock that ends
  only by time, and answers that a never-pruned history would give.
*/
module Lockout {
  import opened Common
  import opened SlidingWindow
  import opened LoginLimiter

  /** One call on the limiter. Begin takes a slot when it is allowed; the three endings give one back. */
  datatype Event =
    | IpCheck(ip: string)
    | LockCheck(user: string)
    | Begin(user: string)
    | Fail(user: string)
    | Succeed(user: string)
    | GiveBack(user: string)

  /**
    The limiter together with the full history it only remembers part of: the attempts in flight, each user's
    failures since his last success (never pruned), how many of those came before or at his last lock, and
    every address's admitted attempts.
  */
  datatype World = World(lim: State, slots: multiset<string>, fails: Times, locks: map<string, nat>, ips: Times,
                         now: int)

  function Fresh(now: int): World { World(State(map[], map[], map[], map[], 0), multiset{}, map[], map[], map[], now) }

  /** The clock does not run back, and every ending belongs to an attempt that is in flight. */
  predicate Legal(w: World, e: Event, t: int)
  {
    t >= w.now && (e.Fail? || e.Succeed? || e.GiveBack? ==> e.user in w.slots)
  }

  /** The sweep that the checks start with. */
  function SweepStep(w: World, t: int): World { w.(lim := Swept(w.lim, t), now := t) }

  /** The rest of AfterAllowIP. */
  function AdmitStep(w: World, ip: string, t: int): World
  {
    var (lim, ok) := Admit(w.lim, ip, t);
    w.(lim := lim, ips := if ok then w.ips[ip := Get(w.ips, ip) + [t]] else w.ips)
  }

  /** The rest of AfterBegin. */
  function ClaimStep(w: World, user: string, t: int): World
  {
    var (lim, ok) := Claim(w.lim, user, t);
    w.(lim := lim, slots := if ok then w.slots + multiset{user} else w.slots)
  }

  function LockStep(w: World, user: string, t: int): World { w.(lim := AfterLocked(w.lim, user, t).0, now := t) }

  function FailStep(w: World, user: string, t: int): World
  {
    var lim := AfterFailure(w.lim, user, t);
    var fails := Get(w.fails, user) + [t];
    w.(lim := lim, now := t, slots := w.slots - multiset{user}, fails := w.fails[user := fails],
       locks := if user in lim.failures then w.locks else w.locks[user := |fails|])
  }

  function SucceedStep(w: World, user: string, t: int): World
  {
    w.(lim := AfterSuccess(w.lim, user), now := t, slots := w.slots - multiset{user},
       fails := w.fails - {user}, locks := w.locks - {user})
  }

  function GiveBackStep(w: World, user: string, t: int): World
  {
    w.(lim := ReleaseSlot(w.lim, user), now := t, slots := w.slots - multiset{user})
  }

  function Step(w: World, e: Event, t: int): World
  {
    match e
    case IpCheck(ip) => AdmitStep(SweepStep(w, t), ip, t)
    case LockCheck(user) => LockStep(w, user, t)
    case Begin(user) => ClaimStep(SweepStep(w, t), user, t)
    case Fail(user) => FailStep(w, user, t)
    case Succeed(user) => SucceedStep(w, user, t)
    case GiveBack(user) => GiveBackStep(w, user, t)
  }

  // ---------------------------------------------------------------- one user's view

  /**
    What the limiter holds of one user -- failures, lock, slot counter -- next to the attempts he has in flight and
    his full history fs, of which the first c ended in a lock.
  */
  datatype View = View(stored: seq<int>, lock: Option<int>, slot: Option<int>, running: int, fs: seq<int>, c: nat)

  function At(m: map<string, int>, key: string): Option<int> { if key in m then Some(m[key]) else None }

  function Held(slot: Option<int>): int { if slot.Some? then slot.value else 0 }

  function Fewer(slot: Option<int>): Option<int>
  {
    if slot.None? || slot.value <= 1 then None else Some(slot.value - 1)
  }

  ghost function ViewOf(w: World, user: string): View
  {
    View(Get(w.lim.failures, user), At(w.lim.locked, user), At(w.lim.inFlight, user), w.slots[user],
         Get(w.fails, user), Answered(MemoryOf(w), user))
  }

  /** Six failures in a row never fit into one window. */
  ghost predicate Spaced(fs: seq<int>)
  {
    Sorted(fs) && forall i, j | 0 <= i && j == i + 5 < |fs| :: fs[j] - fs[i] >= FAILURE_WINDOW
  }

  ghost predicate HistoryOk(fs: seq<int>, now: int)
  {
    Spaced(fs) && forall i | 0 <= i < |fs| :: fs[i] <= now
  }

  /** The stored failures are the latest ones; those missing since the last lock are out of the window. */
  ghost predicate StoredOk(stored: seq<int>, fs: seq<int>, c: nat, now: int)
  {
    c <= |fs| && |stored| <= |fs| - c && stored == fs[|fs| - |stored|..] &&
    forall i | c <= i < |fs| - |stored| :: fs[i] <= now - FAILURE_WINDOW
  }

  /** A lock set by the last failure so far is still running. */
  ghost predicate LockRuns(fs: seq<int>, c: nat, now: int)
  {
    0 < c <= |fs| && now < fs[c - 1] + LOCK_DURATION
  }

  ghost predicate LockOk(lock: Option<int>, running: int, fs: seq<int>, c: nat, now: int)
  {
    c <= |fs| &&
    (lock.Some? ==> c > 0 && lock.value == fs[c - 1] + LOCK_DURATION) &&
    (LockRuns(fs, c, now) ==> lock.Some? && running == 0 && c == |fs|) &&
    (0 < c < |fs| ==> fs[c] >= fs[c - 1] + LOCK_DURATION)
  }

  /** The slot counter is the number of attempts in flight. */
  ghost predicate SlotOk(slot: Option<int>, running: int)
  {
    running >= 0 && slot == if running > 0 then Some(running) else None
  }

  ghost predicate UserOk(v: View, now: int)
  {
    HistoryOk(v.fs, now) && StoredOk(v.stored, v.fs, v.c, now) && LockOk(v.lock, v.running, v.fs, v.c, now) &&
    SlotOk(v.slot, v.running) && |v.stored| < MAX_FAILURES && |v.stored| + v.running <= MAX_FAILURES
  }

  predicate LockedAt(v: View, t: int) { v.lock.Some? && t < v.lock.value }

  /** Pruning, and dropping a lock that has run out. */
  ghost function Clean(v: View, now: int): View
  {
    v.(stored := Prune(v.stored, now - FAILURE_WINDOW),
       lock := if LockedAt(v, now) then v.lock else None)
  }

  ghost function FailView(v: View, now: int): View
  {
    var kept := Prune(v.stored, now - FAILURE_WINDOW) + [now];
    if |kept| >= MAX_FAILURES
    then View([], Some(now + LOCK_DURATION), Fewer(v.slot), v.running - 1, v.fs + [now], |v.fs| + 1)
    else View(kept, v.lock, Fewer(v.slot), v.running - 1, v.fs + [now], v.c)
  }

  lemma Later(v: View, now: int, t: int)
    requires UserOk(v, now) && t >= now
    ensures UserOk(v, t)
  {
  }

  lemma PruneStored(stored: seq<int>, fs: seq<int>, c: nat, now: int)
    requires StoredOk(stored, fs, c, now)
    ensures StoredOk(Prune(stored, now - FAILURE_WINDOW), fs, c, now)
    ensures |Prune(stored, now - FAILURE_WINDOW)| <= |stored|
  {
    PruneIsSuffix(stored, now - FAILURE_WINDOW);
    var kept := Prune(stored, now - FAILURE_WINDOW);
    forall i | c <= i < |fs| - |kept| ensures fs[i] <= now - FAILURE_WINDOW {
      if i >= |fs| - |stored| { assert fs[i] == stored[i - (|fs| - |stored|)]; }
    }
  }

  lemma CleanKeeps(v: View, now: int)
    requires UserOk(v, now)
    ensures UserOk(Clean(v, now), now)
  {
    PruneStored(v.stored, v.fs, v.c, now);
  }

  /** The five latest failures before a new one cannot all lie in its window. */
  lemma NextIsSpaced(v: View, t: int)
    requires UserOk(v, t) && v.running > 0
    ensures HistoryOk(v.fs + [t], t) && !LockRuns(v.fs, v.c, t)
  {
  }

  lemma FailKeepsView(v: View, t: int)
    requires UserOk(v, t) && v.running > 0
    ensures UserOk(FailView(v, t), t)
  {
    hide HistoryOk, StoredOk, LockOk, LockRuns, Prune;
    NextIsSpaced(v, t);
    PruneStored(v.stored, v.fs, v.c, t);
    StoredHit(Prune(v.stored, t - FAILURE_WINDOW), v.fs, v.c, t);
    LockHit(v.lock, v.running, v.fs, v.c, t);
  }

  /** A failure outside a running lock either leaves the lock alone or starts one now. */
  lemma LockHit(lock: Option<int>, running: int, fs: seq<int>, c: nat, t: int)
    requires LockOk(lock, running, fs, c, t) && !LockRuns(fs, c, t) && running > 0
    ensures LockOk(lock, running - 1, fs + [t], c, t)
    ensures running == 1 ==> LockOk(Some(t + LOCK_DURATION), 0, fs + [t], |fs| + 1, t)
  {
  }

  lemma StoredHit(kept: seq<int>, fs: seq<int>, c: nat, t: int)
    requires StoredOk(kept, fs, c, t)
    ensures StoredOk(kept + [t], fs + [t], c, t) && StoredOk([], fs + [t], |fs| + 1, t)
  {
  }

  // ---------------------------------------------------------------- the invariant

  ghost predicate IpOk(stored: seq<int>, log: seq<int>, now: int)
  {
    Remembers(stored, log, now - IP_WINDOW) && Sorted(log) && forall i | 0 <= i < |log| :: log[i] <= now
  }

  ghost predicate UsersOk(w: World) { forall user :: UserOk(ViewOf(w, user), w.now) }

  ghost predicate IpsOk(w: World) { forall ip :: IpOk(Get(w.lim.ipHits, ip), Get(w.ips, ip), w.now) }

  ghost predicate Inv(w: World) { UsersOk(w) && IpsOk(w) }

  // ---------------------------------------------------------------- what a step does to a view

  lemma SweepView(w: World, t: int, user: string)
    ensures var v, v' := ViewOf(w, user), ViewOf(SweepStep(w, t), user); v' == v || v' == Clean(v, t)
  {
  }

  lemma SweepIps(w: World, t: int)
    ensures var m := SweepStep(w, t).lim.ipHits;
            m == w.lim.ipHits || m == SweepTimes(w.lim.ipHits, t - IP_WINDOW)
  {
  }

  ghost function ClaimedView(v: View, t: int): View
  {
    if LockedAt(v, t) then v
    else if |Clean(v, t).stored| + Held(v.slot) >= MAX_FAILURES then Clean(v, t)
    else Clean(v, t).(slot := Some(Held(v.slot) + 1), running := v.running + 1)
  }

  lemma ClaimView(s: World, who: string, t: int, user: string)
    ensures ViewOf(ClaimStep(s, who, t), user) ==
            if user == who then ClaimedView(ViewOf(s, user), t) else ViewOf(s, user)
  {
  }

  lemma LockView(w: World, who: string, t: int, user: string)
    ensures var v := ViewOf(w, user);
            ViewOf(LockStep(w, who, t), user) == if user == who then v.(lock := Clean(v, t).lock) else v
  {
  }

  /** What releasing a slot does to the limiter. */
  lemma ReleaseParts(s: State, who: string, user: string)
    ensures var s' := ReleaseSlot(s, who);
            s'.failures == s.failures && s'.locked == s.locked && s'.ipHits == s.ipHits &&
            At(s'.inFlight, user) == if user == who then Fewer(At(s.inFlight, user)) else At(s.inFlight, user)
  {
  }

  /** What a failure does to the limiter. */
  lemma FailParts(s: State, who: string, t: int, user: string)
    ensures var s', kept := AfterFailure(s, who, t), Prune(Get(s.failures, who), t - FAILURE_WINDOW) + [t];
            s'.inFlight == ReleaseSlot(s, who).inFlight &&
            (user != who ==>
               Get(s'.failures, user) == Get(s.failures, user) && At(s'.locked, user) == At(s.locked, user)) &&
            (if |kept| >= MAX_FAILURES
             then who !in s'.failures && At(s'.locked, who) == Some(t + LOCK_DURATION)
             else who in s'.failures && s'.failures[who] == kept && s'.locked == s.locked)
  {
    ReleaseParts(s, who, user);
  }

  lemma FailsView(w: World, who: string, t: int, user: string)
    requires who in w.slots
    ensures ViewOf(FailStep(w, who, t), user) ==
            if user == who then FailView(ViewOf(w, user), t) else ViewOf(w, user)
  {
    FailParts(w.lim, who, t, user);
    ReleaseParts(w.lim, who, user);
    assert Get(FailStep(w, who, t).fails, user) == if user == who then Get(w.fails, user) + [t] else Get(w.fails, user);
  }

  ghost function SucceedView(v: View): View { View([], None, Fewer(v.slot), v.running - 1, [], 0) }

  lemma SucceedsView(w: World, who: string, t: int, user: string)
    requires who in w.slots
    ensures ViewOf(SucceedStep(w, who, t), user) ==
            if user == who then SucceedView(ViewOf(w, user)) else ViewOf(w, user)
  {
    ReleaseParts(w.lim, who, user);
  }

  lemma GiveBackView(w: World, who: string, t: int, user: string)
    requires who in w.slots
    ensures var v := ViewOf(w, user);
            ViewOf(GiveBackStep(w, who, t), user) ==
            if user == who then v.(slot := Fewer(v.slot), running := v.running - 1) else v
  {
    ReleaseParts(w.lim, who, user);
  }

  /** How a view can look after a step: the one place where the maps of the limiter meet the views. */
  ghost predicate NextView(v: View, v': View, e: Event, mine: bool, t: int)
  {
    match e
    case IpCheck(_) => v' == v || v' == Clean(v, t)
    case LockCheck(_) => v' == if mine then v.(lock := Clean(v, t).lock) else v
    case Begin(_) =>
      if mine then v' == ClaimedView(v, t) || v' == ClaimedView(Clean(v, t), t) else v' == v || v' == Clean(v, t)
    case Fail(_) => if mine then v.running > 0 && v' == FailView(v, t) else v' == v
    case Succeed(_) => if mine then v.running > 0 && v' == SucceedView(v) else v' == v
    case GiveBack(_) =>
      if mine then v.running > 0 && v' == v.(slot := Fewer(v.slot), running := v.running - 1) else v' == v
  }

  lemma StepView(w: World, e: Event, t: int, user: string)
    requires Legal(w, e, t)
    ensures NextView(ViewOf(w, user), ViewOf(Step(w, e, t), user), e, !e.IpCheck? && user == e.user, t)
  {
    match e
    case IpCheck(ip) =>
      SweepView(w, t, user);
      AdmitView(SweepStep(w, t), ip, t, user);
    case LockCheck(who) => LockView(w, who, t, user);
    case Begin(who) =>
      SweepView(w, t, user);
      ClaimView(SweepStep(w, t), who, t, user);
    case Fail(who) => FailsView(w, who, t, user);
    case Succeed(who) => SucceedsView(w, who, t, user);
    case GiveBack(who) => GiveBackView(w, who, t, user);
  }

  lemma AdmitView(s: World, ip: string, t: int, user: string)
    ensures ViewOf(AdmitStep(s, ip, t), user) == ViewOf(s, user)
  {
  }

  // ---------------------------------------------------------------- every step

  lemma ClaimKeeps(v: View, t: int)
    requires UserOk(v, t)
    ensures UserOk(ClaimedView(v, t), t)
  {
    CleanKeeps(v, t);
  }

  lemma UserKeeps(v: View, v': View, e: Event, mine: bool, now: int, t: int)
    requires UserOk(v, now) && t >= now && NextView(v, v', e, mine, t)
    ensures UserOk(v', t)
  {
    Later(v, now, t);
    CleanKeeps(v, t);
    if e.Begin? {
      ClaimKeeps(v, t);
      ClaimKeeps(Clean(v, t), t);
    } else if e.Fail? && mine {
      FailKeepsView(v, t);
    }
  }

  lemma IpLater(stored: seq<int>, log: seq<int>, now: int, t: int)
    requires IpOk(stored, log, now) && t >= now
    ensures IpOk(stored, log, t) && IpOk(Prune(stored, t - IP_WINDOW), log, t)
    ensures IpOk(Prune(stored, t - IP_WINDOW) + [t], log + [t], t)
  {
    RemembersPruned(stored, log, now - IP_WINDOW, t - IP_WINDOW);
    RemembersHit(Prune(stored, t - IP_WINDOW), log, t - IP_WINDOW, t);
  }

  lemma SweptIp(w: World, t: int, ip: string)
    requires IpsOk(w) && t >= w.now
    ensures IpOk(Get(SweepStep(w, t).lim.ipHits, ip), Get(w.ips, ip), t)
  {
    SweepIps(w, t);
    IpLater(Get(w.lim.ipHits, ip), Get(w.ips, ip), w.now, t);
  }

  lemma ClaimParts(s: World, user: string, t: int)
    ensures ClaimStep(s, user, t).ips == s.ips && ClaimStep(s, user, t).lim.ipHits == s.lim.ipHits
  {
  }

  /** Only the address check itself and the sweeps touch the address lists. */
  lemma OtherIps(w: World, e: Event, t: int)
    requires !e.IpCheck?
    ensures var w' := Step(w, e, t);
            w'.ips == w.ips && w'.lim.ipHits == if e.Begin? then SweepStep(w, t).lim.ipHits else w.lim.ipHits
  {
    hide Swept, Claim, Prune;
    if e.Begin? {
      ClaimParts(SweepStep(w, t), e.user, t);
    } else {
      hide ReleaseSlot;
      ReleaseParts(w.lim, e.user, "");
    }
  }

  lemma AdmitIp(s: World, ip: string, t: int, q: string)
    requires IpOk(Get(s.lim.ipHits, q), Get(s.ips, q), t)
    ensures var s' := AdmitStep(s, ip, t); IpOk(Get(s'.lim.ipHits, q), Get(s'.ips, q), t)
  {
    hide IpOk, Prune;
    IpLater(Get(s.lim.ipHits, q), Get(s.ips, q), t, t);
  }

  lemma IpKeeps(w: World, e: Event, t: int, ip: string)
    requires IpsOk(w) && t >= w.now
    ensures var w' := Step(w, e, t); IpOk(Get(w'.lim.ipHits, ip), Get(w'.ips, ip), t)
  {
    SweptIp(w, t, ip);
    if e.IpCheck? {
      AdmitIp(SweepStep(w, t), e.ip, t, ip);
    } else {
      OtherIps(w, e, t);
      IpLater(Get(w.lim.ipHits, ip), Get(w.ips, ip), w.now, t);
    }
  }

  lemma StepKeeps(w: World, e: Event, t: int)
    requires Inv(w) && Legal(w, e, t)
    ensures Inv(Step(w, e, t))
  {
    var w' := Step(w, e, t);
    assert w'.now == t;
    forall user ensures UserOk(ViewOf(w', user), w'.now) {
      StepView(w, e, t, user);
      UserKeeps(ViewOf(w, user), ViewOf(w', user), e, !e.IpCheck? && user == e.user, w.now, t);
    }
    forall ip ensures IpOk(Get(w'.lim.ipHits, ip), Get(w'.ips, ip), w'.now) { IpKeeps(w, e, t, ip); }
  }

  // ---------------------------------------------------------------- whole runs

  datatype Timed = Timed(event: Event, at: int)

  /** A run that keeps to the protocol, and the world after it. */
  ghost predicate Runs(w: World, run: seq<Timed>, w': World)
    decreases |run|
  {
    if run == [] then w' == w
    else
      var last := run[|run| - 1];
      exists m :: Runs(w, run[..|run| - 1], m) && Legal(m, last.event, last.at) && w' == Step(m, last.event, last.at)
  }

  lemma {:induction false} RunKeeps(start: int, run: seq<Timed>, w: World)
    requires Runs(Fresh(start), run, w)
    ensures Inv(w)
    decreases |run|
  {
    if run != [] {
      var last := run[|run| - 1];
      var m :| Runs(Fresh(start), run[..|run| - 1], m) && Legal(m, last.event, last.at) &&
               w == Step(m, last.event, last.at);
      RunKeeps(start, run[..|run| - 1], m);
      StepKeeps(m, last.event, last.at);
    }
  }

  /** Failures of a history inside the half-open window (after, upTo]. */
  ghost function CountIn(fs: seq<int>, after: int, upTo: int): nat
  {
    if fs == [] then 0
    else CountIn(fs[..|fs| - 1], after, upTo) + if after < fs[|fs| - 1] <= upTo then 1 else 0
  }

  lemma {:induction false} CountAtMost(fs: seq<int>, after: int, upTo: int, k: nat)
    requires forall i | 0 <= i < |fs| - k :: fs[i] <= after
    ensures CountIn(fs, after, upTo) <= k
  {
    if fs != [] {
      CountAtMost(fs[..|fs| - 1], after, upTo, if k == 0 then 0 else k - 1);
    }
  }

  lemma {:induction false} SpacedWindow(fs: seq<int>, after: int)
    requires Spaced(fs)
    ensures CountIn(fs, after, after + FAILURE_WINDOW) <= MAX_FAILURES
  {
    if fs != [] {
      var n := |fs| - 1;
      if fs[n] > after + FAILURE_WINDOW {
        SpacedWindow(fs[..n], after);
      } else {
        if n >= 5 { assert fs[n] - fs[n - 5] >= FAILURE_WINDOW; }
        CountAtMost(fs, after, after + FAILURE_WINDOW, 5);
      }
    }
  }

  /**
    The lockout promise. However logins interleave, as long as each allowed attempt ends exactly once: no
    15-minute window without a success holds more than five failures of a user; stored failures and attempts in
    flight together never exceed five; and nobody is being checked while his lock runs.
  */
  lemma LockoutBound(start: int, run: seq<Timed>, w: World, user: string, after: int)
    requires Runs(Fresh(start), run, w)
    ensures CountIn(Get(w.fails, user), after, after + 900_000_000_000) <= 5
    ensures |Get(w.lim.failures, user)| + InFlight(w.lim, user) <= 5
    ensures user in w.lim.locked && w.now < w.lim.locked[user] ==> w.slots[user] == 0
  {
    RunKeeps(start, run, w);
    assert UserOk(ViewOf(w, user), w.now);
    SpacedWindow(Get(w.fails, user), after);
  }

  // ---------------------------------------------------------------- a limiter that forgets nothing

  /** Attempts in flight, failures since the last success, how many of them a lock has answered, admitted addresses. */
  datatype Memory = Memory(slots: multiset<string>, fails: Times, locks: map<string, nat>, ips: Times)

  function Answered(m: Memory, user: string): nat { if user in m.locks then m.locks[user] else 0 }

  /** The failures since the last success that no lock has answered yet. */
  ghost function Unanswered(m: Memory, user: string): seq<int>
  {
    var fs, c := Get(m.fails, user), Answered(m, user);
    if c <= |fs| then fs[c..] else []
  }

  /** The last answered failure is less than a quarter of an hour ago. */
  ghost predicate IsLocked(m: Memory, user: string, t: int)
  {
    var fs, c := Get(m.fails, user), Answered(m, user);
    0 < c <= |fs| && t < fs[c - 1] + 900_000_000_000
  }

  ghost predicate Admits(m: Memory, user: string, t: int)
  {
    !IsLocked(m, user, t) && CountAfter(Unanswered(m, user), t - 900_000_000_000) + m.slots[user] < 5
  }

  ghost predicate AdmitsIp(m: Memory, ip: string, t: int)
  {
    CountAfter(Get(m.ips, ip), t - 60_000_000_000) < 20
  }

  /** The rules of the login, on the memory alone. */
  ghost function Remember(m: Memory, e: Event, t: int): Memory
  {
    match e
    case IpCheck(ip) => if AdmitsIp(m, ip, t) then m.(ips := m.ips[ip := Get(m.ips, ip) + [t]]) else m
    case LockCheck(_) => m
    case Begin(user) => if Admits(m, user, t) then m.(slots := m.slots + multiset{user}) else m
    case Fail(user) =>
      var fs := Get(m.fails, user) + [t];
      Memory(m.slots - multiset{user}, m.fails[user := fs],
             if CountAfter(Unanswered(m, user), t - 900_000_000_000) + 1 >= 5 then m.locks[user := |fs|]
             else m.locks, m.ips)
    case Succeed(user) => m.(slots := m.slots - multiset{user}, fails := m.fails - {user}, locks := m.locks - {user})
    case GiveBack(user) => m.(slots := m.slots - multiset{user})
  }

  ghost function RememberAll(run: seq<Timed>): Memory
  {
    if run == [] then Memory(multiset{}, map[], map[], map[])
    else Remember(RememberAll(run[..|run| - 1]), run[|run| - 1].event, run[|run| - 1].at)
  }

  function MemoryOf(w: World): Memory { Memory(w.slots, w.fails, w.locks, w.ips) }

  lemma CountsUnanswered(v: View, cutoff: int, now: int)
    requires UserOk(v, now) && cutoff >= now - FAILURE_WINDOW
    ensures |Prune(v.stored, cutoff)| == CountAfter(v.fs[v.c..], cutoff)
  {
    var fs := v.fs[v.c..];
    assert Remembers(v.stored, fs, now - FAILURE_WINDOW) by {
      assert fs[|fs| - |v.stored|..] == v.fs[|v.fs| - |v.stored|..];
    }
    PrunedLengthIsCount(v.stored, fs, now - FAILURE_WINDOW, cutoff);
  }

  lemma FailIsRemembered(w: World, user: string, t: int)
    requires UserOk(ViewOf(w, user), w.now) && Legal(w, Fail(user), t)
    ensures MemoryOf(FailStep(w, user, t)) == Remember(MemoryOf(w), Fail(user), t)
  {
    var v := ViewOf(w, user);
    Later(v, w.now, t);
    CountsUnanswered(v, t - FAILURE_WINDOW, t);
    FailParts(w.lim, user, t, user);
  }

  lemma BeginIsRemembered(w: World, user: string, t: int)
    requires UserOk(ViewOf(w, user), w.now) && t >= w.now
    ensures MemoryOf(Step(w, Begin(user), t)) == Remember(MemoryOf(w), Begin(user), t)
  {
    hide UserOk, ViewOf, Admits, Claim, Swept;
    BeginAnswer(w, user, t);
  }

  lemma IpIsRemembered(w: World, ip: string, t: int)
    requires IpsOk(w) && t >= w.now
    ensures MemoryOf(Step(w, IpCheck(ip), t)) == Remember(MemoryOf(w), IpCheck(ip), t)
  {
    hide IpsOk, AdmitsIp, Admit, Swept;
    IpAnswer(w, ip, t);
  }

  /** The limiter, pruned as it is, decides as the one does that forgets nothing. */
  lemma StepIsRemembered(w: World, e: Event, t: int)
    requires Inv(w) && Legal(w, e, t)
    ensures MemoryOf(Step(w, e, t)) == Remember(MemoryOf(w), e, t)
  {
    hide UserOk, IpsOk, Claim, Admit, Swept, Admits, AdmitsIp;
    match e
    case IpCheck(ip) => IpIsRemembered(w, ip, t);
    case Begin(user) => BeginIsRemembered(w, user, t);
    case Fail(user) => FailIsRemembered(w, user, t);
    case _ =>
  }

  lemma {:induction false} RunIsRemembered(start: int, run: seq<Timed>, w: World)
    requires Runs(Fresh(start), run, w)
    ensures MemoryOf(w) == RememberAll(run)
    decreases |run|
  {
    hide Inv, Remember, Step;
    if run != [] {
      var last := run[|run| - 1];
      var m :| Runs(Fresh(start), run[..|run| - 1], m) && Legal(m, last.event, last.at) &&
               w == Step(m, last.event, last.at);
      RunIsRemembered(start, run[..|run| - 1], m);
      RunKeeps(start, run[..|run| - 1], m);
      StepIsRemembered(m, last.event, last.at);
    }
  }

  /** The fifth unanswered failure within the window does lock the user for the whole lock time. */
  lemma FifthFailureLocks(start: int, run: seq<Timed>, w: World, user: string, t: int)
    requires Runs(Fresh(start), run, w) && Legal(w, Fail(user), t)
    ensures At(FailStep(w, user, t).lim.locked, user) == Some(t + 900_000_000_000) <==>
            CountAfter(Unanswered(RememberAll(run), user), t - 900_000_000_000) + 1 >= 5
  {
    RunKeeps(start, run, w);
    RunIsRemembered(start, run, w);
    FailsView(w, user, t, user);
    FifthLocks(ViewOf(w, user), w.now, t);
  }

  lemma FifthLocks(v: View, now: int, t: int)
    requires UserOk(v, now) && t >= now && v.running > 0
    ensures FailView(v, t).lock == Some(t + LOCK_DURATION) <==>
            CountAfter(v.fs[v.c..], t - FAILURE_WINDOW) + 1 >= MAX_FAILURES
  {
    Later(v, now, t);
    CountsUnanswered(v, t - FAILURE_WINDOW, t);
    NextIsSpaced(v, t);
  }

  /** A running lock survives every step before its time: only time ends it. */
  lemma LockEndsOnlyByTime(start: int, run: seq<Timed>, w: World, user: string, e: Event, t: int)
    requires Runs(Fresh(start), run, w) && Legal(w, e, t)
    requires user in w.lim.locked && t < w.lim.locked[user]
    ensures At(Step(w, e, t).lim.locked, user) == At(w.lim.locked, user)
  {
    RunKeeps(start, run, w);
    StepView(w, e, t, user);
    LockStays(ViewOf(w, user), ViewOf(Step(w, e, t), user), e, !e.IpCheck? && user == e.user, w.now, t);
  }

  lemma LockStays(v: View, v': View, e: Event, mine: bool, now: int, t: int)
    requires UserOk(v, now) && t >= now && LockedAt(v, t) && NextView(v, v', e, mine, t)
    ensures v'.lock == v.lock
  {
  }

  lemma BeginAnswer(w: World, user: string, t: int)
    requires UserOk(ViewOf(w, user), w.now) && t >= w.now
    ensures AfterBegin(w.lim, user, t).1 <==> Admits(MemoryOf(w), user, t)
  {
    hide Swept, UserOk, Claim, CountAfter, Prune, LockOk, StoredOk;
    SweepView(w, t, user);
    Later(ViewOf(w, user), w.now, t);
    CleanKeeps(ViewOf(w, user), t);
    ClaimAnswer(SweepStep(w, t), user, t);
    RoomInHistory(ViewOf(SweepStep(w, t), user), t);
  }

  /**
    An attempt is admitted exactly when the limiter that forgets nothing admits it: no lock runs and the full history
    leaves room. Pruning and sweeping show nowhere.
  */
  lemma BeginAnswersFromHistory(start: int, run: seq<Timed>, w: World, user: string, t: int)
    requires Runs(Fresh(start), run, w) && t >= w.now
    ensures AfterBegin(w.lim, user, t).1 <==> Admits(RememberAll(run), user, t)
  {
    RunKeeps(start, run, w);
    RunIsRemembered(start, run, w);
    BeginAnswer(w, user, t);
  }

  /** The lock check says whether a lock of the full history runs. */
  lemma LockedAnswersFromHistory(start: int, run: seq<Timed>, w: World, user: string, t: int)
    requires Runs(Fresh(start), run, w) && t >= w.now
    ensures AfterLocked(w.lim, user, t).1 <==> IsLocked(RememberAll(run), user, t)
  {
    RunKeeps(start, run, w);
    RunIsRemembered(start, run, w);
    Later(ViewOf(w, user), w.now, t);
    RoomInHistory(ViewOf(w, user), t);
  }

  /** A slot is held for each attempt that began and has not ended: every ending gives back exactly one. */
  lemma SlotsAreAttempts(start: int, run: seq<Timed>, w: World, user: string)
    requires Runs(Fresh(start), run, w)
    ensures InFlight(w.lim, user) == RememberAll(run).slots[user]
  {
    RunKeeps(start, run, w);
    RunIsRemembered(start, run, w);
    assert UserOk(ViewOf(w, user), w.now);
  }

  lemma ClaimAnswer(s: World, user: string, t: int)
    ensures var v := ViewOf(s, user);
            Claim(s.lim, user, t).1 <==> !LockedAt(v, t) && |Clean(v, t).stored| + Held(v.slot) < MAX_FAILURES
  {
  }

  lemma RoomInHistory(v: View, t: int)
    requires UserOk(v, t)
    ensures v.c <= |v.fs| && Held(v.slot) == v.running && (LockedAt(v, t) <==> LockRuns(v.fs, v.c, t))
    ensures |Clean(v, t).stored| == CountAfter(v.fs[v.c..], t - FAILURE_WINDOW)
  {
    CountsUnanswered(v, t - FAILURE_WINDOW, t);
  }

  lemma IpAnswer(w: World, ip: string, t: int)
    requires IpsOk(w) && t >= w.now
    ensures AfterAllowIP(w.lim, ip, t).1 <==> AdmitsIp(MemoryOf(w), ip, t)
  {
    SweptIp(w, t, ip);
    AdmitAnswer(Swept(w.lim, t), Get(w.ips, ip), ip, t);
  }

  /** An address is admitted exactly when its full history has fewer than twenty attempts in the last minute. */
  lemma IpAnswersFromHistory(start: int, run: seq<Timed>, w: World, ip: string, t: int)
    requires Runs(Fresh(start), run, w) && t >= w.now
    ensures AfterAllowIP(w.lim, ip, t).1 <==> AdmitsIp(RememberAll(run), ip, t)
  {
    RunKeeps(start, run, w);
    RunIsRemembered(start, run, w);
    IpAnswer(w, ip, t);
  }

  lemma AdmitAnswer(s: State, log: seq<int>, ip: string, t: int)
    requires IpOk(Get(s.ipHits, ip), log, t)
    ensures Admit(s, ip, t).1 <==> CountAfter(log, t - IP_WINDOW) < IP_MAX_ATTEMPTS
  {
    PrunedLengthIsCount(Get(s.ipHits, ip), log, t - IP_WINDOW, t - IP_WINDOW);
  }
}
