/**
  The one-time-code limiter of the runners' side: codes sent per phone and per address, checks per address. It answers
  as a log that is never pruned would; and what the waiting time it returns is worth.
*/
module OtpLimiter {
  import opened Common
  import opened SlidingWindow

  const PHONE_COOLDOWN := 60 * SECOND
  const PHONE_WINDOW := HOUR
  const PHONE_MAX := 5
  const IP_WINDOW := HOUR
  const IP_MAX := 20
  const VERIFY_WINDOW := 10 * MINUTE
  const VERIFY_MAX := 30
  const SWEEP_EVERY := 64

  datatype State = State(phone: Times, ip: Times, verify: Times, calls: nat)

  datatype Answer = Granted | Wait(time: int)

  /** Up to the next full second. */
  function CeilSeconds(d: int): int { if d <= 0 then 0 else (d + SECOND - 1) / SECOND * SECOND }

  lemma CeilIsNext(d: int)
    ensures d > 0 ==> d <= CeilSeconds(d) < d + 1_000_000_000 && CeilSeconds(d) % 1_000_000_000 == 0
    ensures d <= 0 ==> CeilSeconds(d) == 0
  {
  }

  function Swept(s: State, now: int): State
  {
    var s' := s.(calls := s.calls + 1);
    if s'.calls % SWEEP_EVERY != 0 then s'
    else s'.(ip := SweepTimes(s.ip, now - IP_WINDOW), phone := SweepTimes(s.phone, now - PHONE_WINDOW),
             verify := SweepTimes(s.verify, now - VERIFY_WINDOW))
  }

  /** Every 64th call leaves no list without a recent entry; the others touch nothing. */
  lemma SweepClears(s: State, now: int, key: string)
    ensures Swept(s, now).calls == s.calls + 1
    ensures (s.calls + 1) % 64 == 0 ==>
              var s' := Swept(s, now);
              (key in s'.phone ==> s'.phone[key] != [] && s'.phone[key][0] > now - 3_600_000_000_000) &&
              (key in s'.ip ==> s'.ip[key] != [] && s'.ip[key][0] > now - 3_600_000_000_000) &&
              (key in s'.verify ==> s'.verify[key] != [] && s'.verify[key][0] > now - 600_000_000_000)
    ensures (s.calls + 1) % 64 != 0 ==> Swept(s, now) == s.(calls := s.calls + 1)
  {
    if key in s.phone { PruneIsSuffix(s.phone[key], now - PHONE_WINDOW); }
    if key in s.ip { PruneIsSuffix(s.ip[key], now - IP_WINDOW); }
    if key in s.verify { PruneIsSuffix(s.verify[key], now - VERIFY_WINDOW); }
  }

  /** Sending a code, on a swept limiter: the address first, then the phone's cooldown and quota. */
  function Send(s: State, phone: string, ip: string, now: int): (State, Answer)
  {
    var ips, phones := Prune(Get(s.ip, ip), now - IP_WINDOW), Prune(Get(s.phone, phone), now - PHONE_WINDOW);
    if |ips| >= IP_MAX then (s.(ip := s.ip[ip := ips]), Wait(CeilSeconds(ips[0] + IP_WINDOW - now)))
    else if phones != [] && phones[|phones| - 1] + PHONE_COOLDOWN > now then
      (s.(phone := s.phone[phone := phones]), Wait(CeilSeconds(phones[|phones| - 1] + PHONE_COOLDOWN - now)))
    else if |phones| >= PHONE_MAX then
      (s.(phone := s.phone[phone := phones]), Wait(CeilSeconds(phones[0] + PHONE_WINDOW - now)))
    else (s.(ip := s.ip[ip := ips + [now]], phone := s.phone[phone := phones + [now]]), Granted)
  }

  function AfterAllow(s: State, phone: string, ip: string, now: int): (State, Answer)
  {
    Send(Swept(s, now), phone, ip, now)
  }

  function Check(s: State, ip: string, now: int): (State, Answer)
  {
    var hits := Prune(Get(s.verify, ip), now - VERIFY_WINDOW);
    if |hits| >= VERIFY_MAX then (s.(verify := s.verify[ip := hits]), Wait(CeilSeconds(hits[0] + VERIFY_WINDOW - now)))
    else (s.(verify := s.verify[ip := hits + [now]]), Granted)
  }

  function AfterVerify(s: State, ip: string, now: int): (State, Answer) { Check(Swept(s, now), ip, now) }

  class OtpLimiter {
    var phone: Times
    var ip: Times
    var verify: Times
    var calls: nat

    ghost function Value(): State
      reads this
    {
      State(phone, ip, verify, calls)
    }

    constructor ()
      ensures Value() == State(map[], map[], map[], 0)
    {
      phone, ip, verify, calls := map[], map[], map[], 0;
    }

    method Allow(number: string, address: string, now: int) returns (answer: Answer)
      modifies this
      ensures (Value(), answer) == AfterAllow(old(Value()), number, address, now)
    {
      MaybeSweep(now);
      var ipHits := PruneBefore(Get(ip, address), now - IP_WINDOW);
      if |ipHits| >= IP_MAX {
        ip := ip[address := ipHits];
        return Wait(CeilSeconds(ipHits[0] + IP_WINDOW - now));
      }
      var phoneHits := PruneBefore(Get(phone, number), now - PHONE_WINDOW);
      var n := |phoneHits|;
      if n > 0 {
        var wait := phoneHits[n - 1] + PHONE_COOLDOWN - now;
        if wait > 0 {
          phone := phone[number := phoneHits];
          return Wait(CeilSeconds(wait));
        }
        if n >= PHONE_MAX {
          phone := phone[number := phoneHits];
          return Wait(CeilSeconds(phoneHits[0] + PHONE_WINDOW - now));
        }
      }
      ip := ip[address := ipHits + [now]];
      phone := phone[number := phoneHits + [now]];
      answer := Granted;
    }

    method AllowVerify(address: string, now: int) returns (answer: Answer)
      modifies this
      ensures (Value(), answer) == AfterVerify(old(Value()), address, now)
    {
      MaybeSweep(now);
      var hits := PruneBefore(Get(verify, address), now - VERIFY_WINDOW);
      if |hits| >= VERIFY_MAX {
        verify := verify[address := hits];
        return Wait(CeilSeconds(hits[0] + VERIFY_WINDOW - now));
      }
      verify := verify[address := hits + [now]];
      answer := Granted;
    }

    method MaybeSweep(now: int)
      modifies this
      ensures Value() == Swept(old(Value()), now)
    {
      calls := calls + 1;
      if calls % SWEEP_EVERY != 0 { return; }
      ip := Sweep(ip, now - IP_WINDOW);
      phone := Sweep(phone, now - PHONE_WINDOW);
      verify := Sweep(verify, now - VERIFY_WINDOW);
    }
  }

  // ---------------------------------------------------------------- the limiter next to its full logs

  datatype Event = SendTo(phone: string, ip: string) | Verify(ip: string)

  datatype World = World(lim: State, phones: Times, ips: Times, checks: Times, now: int)

  function Fresh(now: int): World { World(State(map[], map[], map[], 0), map[], map[], map[], now) }

  function Log(logs: Times, key: string, t: int): Times { logs[key := Get(logs, key) + [t]] }

  function Step(w: World, e: Event, t: int): World
  {
    match e
    case SendTo(phone, ip) =>
      var (lim, answer) := AfterAllow(w.lim, phone, ip, t);
      if answer.Granted? then World(lim, Log(w.phones, phone, t), Log(w.ips, ip, t), w.checks, t)
      else w.(lim := lim, now := t)
    case Verify(ip) =>
      var (lim, answer) := AfterVerify(w.lim, ip, t);
      if answer.Granted? then w.(lim := lim, checks := Log(w.checks, ip, t), now := t) else w.(lim := lim, now := t)
  }

  /** A stored list remembers its log over the window, and never holds more than the limit. */
  ghost predicate KeyOk(stored: seq<int>, log: seq<int>, now: int, window: int, max: int)
  {
    Remembers(stored, log, now - window) && |stored| <= max && Sorted(log) && forall i | 0 <= i < |log| :: log[i] <= now
  }

  ghost predicate MapOk(stored: Times, logs: Times, now: int, window: int, max: int)
  {
    forall key :: KeyOk(Get(stored, key), Get(logs, key), now, window, max)
  }

  ghost predicate Inv(w: World)
  {
    MapOk(w.lim.phone, w.phones, w.now, PHONE_WINDOW, PHONE_MAX) &&
    MapOk(w.lim.ip, w.ips, w.now, IP_WINDOW, IP_MAX) &&
    MapOk(w.lim.verify, w.checks, w.now, VERIFY_WINDOW, VERIFY_MAX)
  }

  lemma KeyPruned(stored: seq<int>, log: seq<int>, now: int, t: int, window: int, max: int)
    requires KeyOk(stored, log, now, window, max) && now <= t
    ensures KeyOk(stored, log, t, window, max) && KeyOk(Prune(stored, t - window), log, t, window, max)
  {
    hide Remembers, Sorted;
    LongerHorizon(stored, log, now - window, t - window);
    RemembersPruned(stored, log, t - window, t - window);
    PrunedIsShorter(stored, t - window);
  }

  lemma PrunedIsShorter(stored: seq<int>, cutoff: int)
    ensures |Prune(stored, cutoff)| <= |stored|
  {
  }

  lemma KeyHit(stored: seq<int>, log: seq<int>, t: int, window: int, max: int)
    requires KeyOk(stored, log, t, window, max) && |stored| < max
    ensures KeyOk(stored + [t], log + [t], t, window, max)
  {
  }

  lemma MapSwept(stored: Times, logs: Times, now: int, t: int, window: int, max: int)
    requires MapOk(stored, logs, now, window, max) && now <= t
    ensures MapOk(stored, logs, t, window, max) && MapOk(SweepTimes(stored, t - window), logs, t, window, max)
  {
    forall key ensures KeyOk(Get(stored, key), Get(logs, key), t, window, max) &&
                       KeyOk(Get(SweepTimes(stored, t - window), key), Get(logs, key), t, window, max)
    {
      KeyPruned(Get(stored, key), Get(logs, key), now, t, window, max);
    }
  }

  /** One key pruned, and hit when the answer is yes. */
  lemma MapHit(stored: Times, logs: Times, t: int, window: int, max: int, key: string)
    requires MapOk(stored, logs, t, window, max)
    ensures var kept := Prune(Get(stored, key), t - window);
            MapOk(stored[key := kept], logs, t, window, max) &&
            (|kept| < max ==> MapOk(stored[key := kept + [t]], Log(logs, key, t), t, window, max))
  {
    hide Remembers, Sorted;
    assert KeyOk(Get(stored, key), Get(logs, key), t, window, max);
    KeyPruned(Get(stored, key), Get(logs, key), t, t, window, max);
    var kept := Prune(Get(stored, key), t - window);
    if |kept| < max {
      KeyHit(kept, Get(logs, key), t, window, max);
      var stored', logs' := stored[key := kept + [t]], Log(logs, key, t);
      forall k ensures KeyOk(Get(stored', k), Get(logs', k), t, window, max) {
        assert KeyOk(Get(stored, k), Get(logs, k), t, window, max);
      }
    }
  }

  lemma SweptOk(w: World, t: int)
    requires Inv(w) && t >= w.now
    ensures Inv(w.(lim := Swept(w.lim, t), now := t))
  {
    hide MapOk, SweepTimes;
    MapSwept(w.lim.phone, w.phones, w.now, t, PHONE_WINDOW, PHONE_MAX);
    MapSwept(w.lim.ip, w.ips, w.now, t, IP_WINDOW, IP_MAX);
    MapSwept(w.lim.verify, w.checks, w.now, t, VERIFY_WINDOW, VERIFY_MAX);
  }

  lemma StepKeeps(w: World, e: Event, t: int)
    requires Inv(w) && t >= w.now
    ensures Inv(Step(w, e, t))
  {
    hide MapOk, Swept, Log;
    SweptOk(w, t);
    var s := Swept(w.lim, t);
    match e
    case SendTo(phone, ip) =>
      MapHit(s.phone, w.phones, t, PHONE_WINDOW, PHONE_MAX, phone);
      MapHit(s.ip, w.ips, t, IP_WINDOW, IP_MAX, ip);
    case Verify(ip) => MapHit(s.verify, w.checks, t, VERIFY_WINDOW, VERIFY_MAX, ip);
  }

  datatype Timed = Timed(event: Event, at: int)

  ghost predicate Runs(w: World, run: seq<Timed>, w': World)
    decreases |run|
  {
    if run == [] then w' == w
    else
      var front, last := run[..|run| - 1], run[|run| - 1];
      exists m :: Runs(w, front, m) && StepsTo(m, last, w')
  }

  ghost predicate StepsTo(w: World, x: Timed, w': World) { x.at >= w.now && w' == Step(w, x.event, x.at) }

  lemma {:induction false} RunKeeps(start: int, run: seq<Timed>, w: World)
    requires Runs(Fresh(start), run, w)
    ensures Inv(w)
    decreases |run|
  {
    if run != [] {
      var front, last := run[..|run| - 1], run[|run| - 1];
      var m :| Runs(Fresh(start), front, m) && StepsTo(m, last, w);
      RunKeeps(start, front, m);
      StepKeeps(m, last.event, last.at);
    }
  }

  // ---------------------------------------------------------------- answers

  /** The moment from which a log leaves room for one more hit within the window. */
  ghost predicate ReadyAt(log: seq<int>, max: int, window: int, t: int)
    requires max > 0
  {
    |log| < max || log[|log| - max] + window <= t
  }

  lemma {:induction false} RoomIsReady(log: seq<int>, max: nat, window: int, t: int)
    requires Sorted(log) && max > 0
    ensures CountAfter(log, t - window) < max <==> ReadyAt(log, max, window, t)
  {
    if log != [] {
      var front := log[..|log| - 1];
      if max > 1 {
        RoomIsReady(front, max - 1, window, t);
      } else if log[|log| - 1] + window <= t {
        NoneAfter(front, t - window);
      }
    }
  }

  lemma {:induction false} NoneAfter(log: seq<int>, cutoff: int)
    requires forall i | 0 <= i < |log| :: log[i] <= cutoff
    ensures CountAfter(log, cutoff) == 0
  {
    if log != [] { NoneAfter(log[..|log| - 1], cutoff); }
  }

  /** From when on a log leaves room for one more hit; None if it does already, at any time. */
  ghost function OpensAt(log: seq<int>, max: nat, window: int): Option<int>
    requires max > 0
  {
    if |log| < max then None else Some(log[|log| - max] + window)
  }

  /** The limits on sending a code, in the order in which they are checked: address, cooldown, phone. */
  ghost function Limits(ips: seq<int>, phones: seq<int>): (ls: seq<Option<int>>)
    ensures |ls| == 3
  {
    [OpensAt(ips, 20, 3_600_000_000_000), OpensAt(phones, 1, 60_000_000_000),
     OpensAt(phones, 5, 3_600_000_000_000)]
  }

  ghost predicate Closed(limit: Option<int>, t: int) { limit.Some? && t < limit.value }

  /** The first limit that is closed, or their number when all are open. */
  ghost function FirstClosed(ls: seq<Option<int>>, t: int): (k: nat)
    ensures k <= |ls| && (k < |ls| ==> Closed(ls[k], t)) && forall j | 0 <= j < k :: !Closed(ls[j], t)
    ensures (forall j | 0 <= j < |ls| :: !Closed(ls[j], t)) ==> k == |ls|
  {
    if ls == [] || Closed(ls[0], t) then 0 else 1 + FirstClosed(ls[1..], t)
  }

  /** What the full logs answer: yes when every limit is open, otherwise the time until the first closed one opens. */
  ghost function AnswerAt(ls: seq<Option<int>>, t: int): Answer
  {
    var k := FirstClosed(ls, t);
    if k == |ls| then Granted else Wait(CeilSeconds(ls[k].value - t))
  }

  /** What a pruned list tells about its log. */
  ghost predicate Tells(kept: seq<int>, log: seq<int>, t: int, window: int, max: int)
    requires max > 0
  {
    (|kept| >= max <==> !ReadyAt(log, max, window, t)) &&
    (|kept| >= max ==> |log| >= max && kept[0] == log[|log| - max]) &&
    (kept == [] ==> log == [] || log[|log| - 1] <= t - window) &&
    (kept != [] ==> log != [] && kept[|kept| - 1] == log[|log| - 1])
  }

  lemma KeyTells(stored: seq<int>, log: seq<int>, t: int, window: int, max: nat)
    requires KeyOk(stored, log, t, window, max) && max > 0
    ensures Tells(Prune(stored, t - window), log, t, window, max) && Sorted(log)
  {
    KeyPruned(stored, log, t, t, window, max);
    PrunedLengthIsCount(stored, log, t - window, t - window);
    RoomIsReady(log, max, window, t);
    SuffixTells(Prune(stored, t - window), log, t, window, max);
  }

  lemma SuffixTells(kept: seq<int>, log: seq<int>, t: int, window: int, max: nat)
    requires KeyOk(kept, log, t, window, max) && max > 0 && (|kept| >= max <==> !ReadyAt(log, max, window, t))
    ensures Tells(kept, log, t, window, max)
  {
  }

  /** The whole answer, waiting time included, is that of the full logs: neither pruning nor the sweep ever shows. */
  lemma AllowAnswersFromHistory(start: int, run: seq<Timed>, w: World, phone: string, ip: string, t: int)
    requires Runs(Fresh(start), run, w) && t >= w.now
    ensures AfterAllow(w.lim, phone, ip, t).1 == AnswerAt(Limits(Get(w.ips, ip), Get(w.phones, phone)), t)
  {
    hide Swept, Inv, MapOk, Send, AnswerAt;
    RunKeeps(start, run, w);
    SweptOk(w, t);
    SendAnswer(w.(lim := Swept(w.lim, t), now := t), phone, ip);
  }

  lemma SendTells(s: World, phone: string, ip: string)
    requires Inv(s)
    ensures Tells(Prune(Get(s.lim.ip, ip), s.now - IP_WINDOW), Get(s.ips, ip), s.now, IP_WINDOW, IP_MAX)
    ensures Tells(Prune(Get(s.lim.phone, phone), s.now - PHONE_WINDOW), Get(s.phones, phone), s.now,
                  PHONE_WINDOW, PHONE_MAX)
    ensures Sorted(Get(s.phones, phone))
  {
    hide KeyOk, Tells, Prune;
    KeyTells(Get(s.lim.ip, ip), Get(s.ips, ip), s.now, IP_WINDOW, IP_MAX);
    KeyTells(Get(s.lim.phone, phone), Get(s.phones, phone), s.now, PHONE_WINDOW, PHONE_MAX);
  }

  lemma SendAnswer(s: World, phone: string, ip: string)
    requires Inv(s)
    ensures Send(s.lim, phone, ip, s.now).1 == AnswerAt(Limits(Get(s.ips, ip), Get(s.phones, phone)), s.now)
  {
    hide Inv, Prune, Get, Sorted, FirstClosed;
    SendTells(s, phone, ip);
    var ips := Prune(Get(s.lim.ip, ip), s.now - IP_WINDOW);
    var phones := Prune(Get(s.lim.phone, phone), s.now - PHONE_WINDOW);
    var ls := Limits(Get(s.ips, ip), Get(s.phones, phone));
    assert Closed(ls[0], s.now) <==> |ips| >= IP_MAX;
    assert Closed(ls[1], s.now) <==> phones != [] && phones[|phones| - 1] + PHONE_COOLDOWN > s.now;
    assert Closed(ls[2], s.now) <==> |phones| >= PHONE_MAX;
    FirstOfThree(ls, s.now);
  }

  lemma FirstOfThree(ls: seq<Option<int>>, t: int)
    requires |ls| == 3
    ensures FirstClosed(ls, t) ==
            if Closed(ls[0], t) then 0 else if Closed(ls[1], t) then 1 else if Closed(ls[2], t) then 2 else 3
  {
    assert FirstClosed(ls, t) == 3 ==> !Closed(ls[0], t) && !Closed(ls[1], t) && !Closed(ls[2], t);
  }

  /** A list that gained nothing: at most its old hits were dropped. */
  ghost predicate OnlyForgets(stored': seq<int>, stored: seq<int>, cutoff: int)
  {
    stored' == stored || stored' == Prune(stored, cutoff)
  }

  lemma SweptForgets(s: State, now: int, k: string)
    ensures var (s', p, i) := (Swept(s, now), Get(s.phone, k), Get(s.ip, k));
            OnlyForgets(Get(s'.phone, k), p, now - PHONE_WINDOW) && OnlyForgets(Get(s'.ip, k), i, now - IP_WINDOW) &&
            Prune(Get(s'.phone, k), now - PHONE_WINDOW) == Prune(p, now - PHONE_WINDOW) &&
            Prune(Get(s'.ip, k), now - IP_WINDOW) == Prune(i, now - IP_WINDOW)
  {
    PruneIsSuffix(Get(s.phone, k), now - PHONE_WINDOW);
    PruneIsSuffix(Get(s.ip, k), now - IP_WINDOW);
  }

  /** A granted code counts for the phone and for the address; a refused one for neither, and never for anyone else. */
  lemma BothOrNeither(s: State, phone: string, ip: string, now: int, k: string)
    ensures var (s', answer) := AfterAllow(s, phone, ip, now);
            (if answer.Granted? && k == phone
             then Get(s'.phone, k) == Prune(Get(s.phone, k), now - PHONE_WINDOW) + [now]
             else OnlyForgets(Get(s'.phone, k), Get(s.phone, k), now - PHONE_WINDOW)) &&
            (if answer.Granted? && k == ip
             then Get(s'.ip, k) == Prune(Get(s.ip, k), now - IP_WINDOW) + [now]
             else OnlyForgets(Get(s'.ip, k), Get(s.ip, k), now - IP_WINDOW))
  {
    hide Prune, Swept;
    SweptForgets(s, now, k);
    SweptForgets(s, now, phone);
    SweptForgets(s, now, ip);
  }

  lemma VerifyAnswersFromHistory(start: int, run: seq<Timed>, w: World, ip: string, t: int)
    requires Runs(Fresh(start), run, w) && t >= w.now
    ensures AfterVerify(w.lim, ip, t).1.Granted? <==> CountAfter(Get(w.checks, ip), t - 600_000_000_000) < 30
  {
    hide Swept, Inv, MapOk;
    RunKeeps(start, run, w);
    SweptOk(w, t);
    CheckAnswer(w.(lim := Swept(w.lim, t), now := t), ip);
    RoomIsReady(Get(w.checks, ip), VERIFY_MAX, VERIFY_WINDOW, t);
  }

  lemma CheckAnswer(s: World, ip: string)
    requires Inv(s)
    ensures Sorted(Get(s.checks, ip))
    ensures Check(s.lim, ip, s.now).1.Granted? <==> ReadyAt(Get(s.checks, ip), VERIFY_MAX, VERIFY_WINDOW, s.now)
    ensures Check(s.lim, ip, s.now).1.Wait? ==>
              var log := Get(s.checks, ip);
              |log| >= VERIFY_MAX &&
              Check(s.lim, ip, s.now).1.time == CeilSeconds(log[|log| - VERIFY_MAX] + VERIFY_WINDOW - s.now)
  {
    hide KeyOk, Prune, Sorted, ReadyAt;
    KeyTells(Get(s.lim.verify, ip), Get(s.checks, ip), s.now, VERIFY_WINDOW, VERIFY_MAX);
  }

  // ---------------------------------------------------------------- waiting times

  /**
    A refused check says how long to wait, rounded up to a second: a retry after that time succeeds, whatever happened
    elsewhere in between, and a retry a full second earlier still fails.
  */
  lemma VerifyWaitIsRight(start: int, run: seq<Timed>, w: World, ip: string, t: int,
                          later: seq<Timed>, w': World, t': int)
    requires Runs(Fresh(start), run, w) && t >= w.now && AfterVerify(w.lim, ip, t).1.Wait?
    requires Runs(Fresh(start), later, w') && t' >= w'.now && t' >= t && Get(w'.checks, ip) == Get(w.checks, ip)
    ensures var wait := AfterVerify(w.lim, ip, t).1.time;
            wait > 0 && (t' >= t + wait ==> AfterVerify(w'.lim, ip, t').1.Granted?) &&
            (t' <= t + wait - SECOND ==> !AfterVerify(w'.lim, ip, t').1.Granted?)
  {
    hide Swept, Inv, MapOk, Check, Runs;
    RunKeeps(start, run, w);
    RunKeeps(start, later, w');
    SweptOk(w, t);
    SweptOk(w', t');
    var s, s' := w.(lim := Swept(w.lim, t), now := t), w'.(lim := Swept(w'.lim, t'), now := t');
    CheckAnswer(s, ip);
    CheckAnswer(s', ip);
    var log := Get(w.checks, ip);
    CeilIsNext(log[|log| - VERIFY_MAX] + VERIFY_WINDOW - t);
  }

  /**
    A refused code comes with the time until the first closed limit opens, rounded up to a second. A retry a second
    earlier fails. A retry at that time succeeds exactly when none of the limits that are checked later opens after it.
  */
  lemma AllowWaitIsRightIff(start: int, run: seq<Timed>, w: World, phone: string, ip: string, t: int,
                            later: seq<Timed>, w': World, t': int)
    requires Runs(Fresh(start), run, w) && t >= w.now && AfterAllow(w.lim, phone, ip, t).1.Wait?
    requires Runs(Fresh(start), later, w') && t' >= w'.now && t' >= t
    requires Get(w'.phones, phone) == Get(w.phones, phone) && Get(w'.ips, ip) == Get(w.ips, ip)
    ensures var ls := Limits(Get(w.ips, ip), Get(w.phones, phone));
            var k := FirstClosed(ls, t);
            k < |ls| && AfterAllow(w.lim, phone, ip, t).1.time == CeilSeconds(ls[k].value - t) > 0 &&
            var rounded := t + CeilSeconds(ls[k].value - t);
            (t' <= rounded - SECOND ==> AfterAllow(w'.lim, phone, ip, t').1.Wait?) &&
            (t' == rounded ==>
               (AfterAllow(w'.lim, phone, ip, t').1.Granted? <==>
                forall j | k < j < |ls| :: ls[j].Some? ==> ls[j].value <= rounded))
  {
    hide Runs, AfterAllow, OpensAt;
    AllowAnswersFromHistory(start, run, w, phone, ip, t);
    AllowAnswersFromHistory(start, later, w', phone, ip, t');
    WaitAt(Limits(Get(w.ips, ip), Get(w.phones, phone)), t, t');
  }

  /** The same about any sequence of limits. */
  lemma WaitAt(ls: seq<Option<int>>, t: int, t': int)
    requires AnswerAt(ls, t).Wait? && t' >= t
    ensures var k := FirstClosed(ls, t);
            k < |ls| && CeilSeconds(ls[k].value - t) > 0 &&
            var rounded := t + CeilSeconds(ls[k].value - t);
            (t' <= rounded - SECOND ==> AnswerAt(ls, t').Wait?) &&
            (t' == rounded ==>
               (AnswerAt(ls, t').Granted? <==> forall j | k < j < |ls| :: ls[j].Some? ==> ls[j].value <= rounded))
  {
    var k, k' := FirstClosed(ls, t), FirstClosed(ls, t');
    CeilIsNext(ls[k].value - t);
    assert forall j | 0 <= j < k :: !Closed(ls[j], t');
    hide CeilSeconds;
    assert t' < ls[k].value ==> Closed(ls[k], t');
    assert k' < |ls| ==> k' >= k && Closed(ls[k'], t');
  }

  /** Five codes a minute apart, as the world after them. */
  function Sent(n: nat): World
  {
    var ts := seq(n, i requires 0 <= i < n => i * MINUTE);
    if n == 0 then Fresh(0)
    else World(State(map["p" := ts], map["a" := ts], map[], n), map["p" := ts], map["a" := ts], map[], (n - 1) * MINUTE)
  }

  lemma NextSent(n: nat)
    requires n < PHONE_MAX
    ensures Step(Sent(n), SendTo("p", "a"), n * MINUTE) == Sent(n + 1)
  {
    var ts := seq(n, i requires 0 <= i < n => i * MINUTE);
    assert ts + [n * MINUTE] == seq(n + 1, i requires 0 <= i < n + 1 => i * MINUTE);
    assert Swept(Sent(n).lim, n * MINUTE) == Sent(n).lim.(calls := n + 1);
    assert Prune(ts, n * MINUTE - HOUR) == ts;
    var w, w' := Step(Sent(n), SendTo("p", "a"), n * MINUTE), Sent(n + 1);
    assert w.lim.phone == w'.lim.phone && w.lim.ip == w'.lim.ip && w.phones == w'.phones && w.ips == w'.ips;
  }

  lemma RunAppend(w: World, run: seq<Timed>, m: World, last: Timed, w': World)
    requires Runs(w, run, m) && StepsTo(m, last, w')
    ensures Runs(w, run + [last], w')
  {
    hide StepsTo;
    assert (run + [last])[..|run|] == run;
  }

  lemma {:induction false} SentIsReached(n: nat) returns (run: seq<Timed>)
    requires n <= PHONE_MAX
    ensures Runs(Fresh(0), run, Sent(n))
  {
    hide Step;
    run := [];
    if n > 0 {
      run := SentIsReached(n - 1);
      NextSent(n - 1);
      var last := Timed(SendTo("p", "a"), (n - 1) * MINUTE);
      RunAppend(Fresh(0), run, Sent(n - 1), last, Sent(n));
      run := run + [last];
    }
  }

  /**
    The returned time is not always the earliest one to succeed: after five codes in a row the cooldown asks for 59
    seconds, but the hourly quota then refuses for another 55 minutes.
  */
  lemma WaitCanBeTooShort() returns (run: seq<Timed>, w: World)
    ensures Runs(Fresh(0), run, w)
    ensures AfterAllow(w.lim, "p", "a", 241 * SECOND).1 == Wait(59 * SECOND)
    ensures AfterAllow(Step(w, SendTo("p", "a"), 241 * SECOND).lim, "p", "a", 300 * SECOND).1 == Wait(55 * MINUTE)
  {
    hide Prune, Sent, AfterAllow, Runs;
    run := SentIsReached(5);
    w := Sent(5);
    FiveSent();
    RefusedAgain(w.lim, w.lim.phone["p"], 241 * SECOND);
    var lim := AfterAllow(w.lim, "p", "a", 241 * SECOND).0;
    RefusedAgain(lim, w.lim.phone["p"], 300 * SECOND);
  }

  lemma FiveSent()
    ensures var s := Sent(5).lim;
            s.calls == 5 && "p" in s.phone && Get(s.phone, "p") == Get(s.ip, "a") == s.phone["p"] &&
            |s.phone["p"]| == 5 && s.phone["p"][0] == 0 && s.phone["p"][4] == 4 * MINUTE
  {
  }

  lemma RefusedAgain(s: State, ts: seq<int>, now: int)
    requires Get(s.phone, "p") == Get(s.ip, "a") == ts && |ts| == 5 && ts[0] > now - HOUR && s.calls < 10
    ensures var (s', answer) := AfterAllow(s, "p", "a", now);
            Get(s'.phone, "p") == Get(s'.ip, "a") == ts && s'.calls == s.calls + 1 &&
            answer == Wait(CeilSeconds(if ts[4] + PHONE_COOLDOWN > now then ts[4] + PHONE_COOLDOWN - now
                                       else ts[0] + PHONE_WINDOW - now))
  {
  }
}
