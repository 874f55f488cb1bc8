/**
  The login service at work: any number of logins side by side, each going through its own calls on the limiter. The
  limiter's protocol -- every attempt that begins ends once -- is what these logins do, and no assumption about them.
*/
module Logins {
  import opened Common
  import opened SlidingWindow
  import opened LoginLimiter
  import opened Lockout

  /** Before the address check, before the attempt check, while the password is checked, and afterwards. */
  datatype Stage = Arrived | Admitted | Checking | Gone

  datatype Attempt = Attempt(ip: string, user: string, lookup: Lookup, verify: Verify, stage: Stage)

  datatype Office = Office(w: World, attempts: seq<Attempt>)

  datatype Move = Arrive(ip: string, user: string, lookup: Lookup, verify: Verify) | Go(i: nat, at: int)

  /** The next call of a login on the limiter. */
  function CallOf(a: Attempt): Event
    requires !a.stage.Gone?
  {
    match a.stage
    case Arrived => IpCheck(a.ip)
    case Admitted => Begin(a.user)
    case Checking =>
      match EndingOf(a.lookup, a.verify)
      case EndFailure => Fail(a.user)
      case EndSuccess => Succeed(a.user)
      case EndRelease => GiveBack(a.user)
  }

  function NextStage(w: World, a: Attempt, t: int): Stage
  {
    match a.stage
    case Arrived => if AfterAllowIP(w.lim, a.ip, t).1 then Admitted else Gone
    case Admitted => if AfterBegin(w.lim, a.user, t).1 then Checking else Gone
    case _ => Gone
  }

  /** The limiter reads the clock under its own mutex, so its clock does not run back. */
  predicate CanGo(o: Office, i: nat, t: int)
  {
    i < |o.attempts| && !o.attempts[i].stage.Gone? && t >= o.w.now
  }

  function GoOn(o: Office, i: nat, t: int): Office
    requires CanGo(o, i, t)
  {
    var a := o.attempts[i];
    Office(Step(o.w, CallOf(a), t), o.attempts[i := a.(stage := NextStage(o.w, a, t))])
  }

  ghost predicate StepsTo(o: Office, m: Move, o': Office)
  {
    match m
    case Arrive(ip, user, lookup, verify) =>
      o' == o.(attempts := o.attempts + [Attempt(ip, user, lookup, verify, Arrived)])
    case Go(i, t) => CanGo(o, i, t) && o' == GoOn(o, i, t)
  }

  ghost predicate Works(start: int, run: seq<Move>, o: Office)
    decreases |run|
  {
    if run == [] then o == Office(Fresh(start), [])
    else
      var front, last := run[..|run| - 1], run[|run| - 1];
      exists m :: Works(start, front, m) && StepsTo(m, last, o)
  }

  // ---------------------------------------------------------------- a run of the limiter

  function CheckingOf(user: string): Attempt -> int
  {
    (a: Attempt) => if a.stage.Checking? && a.user == user then 1 else 0
  }

  /** The logins of a user whose password is being checked. */
  ghost function Being(o: Office, user: string): int { SumBy(o.attempts, CheckingOf(user)) }

  ghost predicate SlotsMatch(o: Office) { forall user :: o.w.slots[user] == Being(o, user) }

  lemma GoIsLegal(o: Office, i: nat, t: int)
    requires SlotsMatch(o) && CanGo(o, i, t)
    ensures Legal(o.w, CallOf(o.attempts[i]), t)
  {
    var a := o.attempts[i];
    if a.stage.Checking? {
      SumByNonNegative(o.attempts, CheckingOf(a.user));
      assert o.w.slots[a.user] == Being(o, a.user) && a in o.attempts;
    }
  }

  /** What a call does to the slots. */
  lemma SlotsAfter(w: World, a: Attempt, t: int)
    requires !a.stage.Gone?
    ensures Step(w, CallOf(a), t).slots ==
            if a.stage.Checking? then w.slots - multiset{a.user}
            else if NextStage(w, a, t).Checking? then w.slots + multiset{a.user}
            else w.slots
    ensures a.stage.Checking? ==> !NextStage(w, a, t).Checking?
  {
    hide Swept, Claim, Admit, AfterFailure, AfterSuccess, ReleaseSlot;
  }

  /** One user's slots and logins, when login i goes on. */
  lemma SlotMoves(slots: multiset<string>, attempts: seq<Attempt>, i: nat, to: Stage, user: string)
    requires slots[user] == SumBy(attempts, CheckingOf(user)) && i < |attempts|
    requires attempts[i].stage.Checking? ==> attempts[i].user in slots && !to.Checking?
    ensures var a := attempts[i];
            var slots' := if a.stage.Checking? then slots - multiset{a.user}
                          else if to.Checking? then slots + multiset{a.user} else slots;
            slots'[user] == SumBy(attempts[i := a.(stage := to)], CheckingOf(user))
  {
    hide SumBy;
    SumByUpdate(attempts, i, attempts[i].(stage := to), CheckingOf(user));
  }

  lemma GoKeepsSlots(o: Office, i: nat, t: int)
    requires SlotsMatch(o) && CanGo(o, i, t)
    ensures SlotsMatch(GoOn(o, i, t))
  {
    GoIsLegal(o, i, t);
    SlotsAfter(o.w, o.attempts[i], t);
    hide Step, NextStage, SumBy, CheckingOf;
    var to := NextStage(o.w, o.attempts[i], t);
    forall user ensures GoOn(o, i, t).w.slots[user] == Being(GoOn(o, i, t), user) {
      assert o.w.slots[user] == Being(o, user);
      SlotMoves(o.w.slots, o.attempts, i, to, user);
    }
  }

  lemma ArriveKeepsSlots(o: Office, a: Attempt)
    requires SlotsMatch(o) && a.stage.Arrived?
    ensures SlotsMatch(o.(attempts := o.attempts + [a]))
  {
    forall user ensures o.w.slots[user] == Being(o.(attempts := o.attempts + [a]), user) {
      assert o.w.slots[user] == Being(o, user);
      SumByAppend(o.attempts, a, CheckingOf(user));
    }
  }

  lemma RunsOn(start: int, calls: seq<Timed>, w: World, e: Event, t: int)
    requires Runs(Fresh(start), calls, w) && Legal(w, e, t)
    ensures Runs(Fresh(start), calls + [Timed(e, t)], Step(w, e, t))
  {
    hide Legal, Step;
    var run := calls + [Timed(e, t)];
    assert run[..|run| - 1] == calls && run[|run| - 1] == Timed(e, t);
  }

  /** However logins interleave, their calls are a run that keeps to the limiter's protocol. */
  lemma {:induction false} WorkIsLegal(start: int, run: seq<Move>, o: Office) returns (calls: seq<Timed>)
    requires Works(start, run, o)
    ensures Runs(Fresh(start), calls, o.w) && SlotsMatch(o)
    decreases |run|
  {
    calls := [];
    if run == [] {
      NobodyYet(start);
    } else {
      var front, last := run[..|run| - 1], run[|run| - 1];
      var m :| Works(start, front, m) && StepsTo(m, last, o);
      calls := WorkIsLegal(start, front, m);
      hide SlotsMatch, CallOf, Step, NextStage, Legal, Runs, Works;
      if last.Arrive? {
        ArriveKeepsSlots(m, Attempt(last.ip, last.user, last.lookup, last.verify, Arrived));
      } else {
        GoIsLegal(m, last.i, last.at);
        GoKeepsSlots(m, last.i, last.at);
        RunsOn(start, calls, m.w, CallOf(m.attempts[last.i]), last.at);
        calls := calls + [Timed(CallOf(m.attempts[last.i]), last.at)];
      }
    }
  }

  lemma NobodyYet(start: int)
    ensures SlotsMatch(Office(Fresh(start), []))
  {
  }

  /**
    The lockout promise of the service, over every interleaving of logins: no window of fifteen minutes without a
    success has more than five failures of a user, failures on record and passwords being checked together never
    exceed five, and no password is checked while the user's lock runs.
  */
  lemma ServiceLockout(start: int, run: seq<Move>, o: Office, user: string, after: int)
    requires Works(start, run, o)
    ensures CountIn(Get(o.w.fails, user), after, after + 900_000_000_000) <= 5
    ensures |Get(o.w.lim.failures, user)| + Being(o, user) <= 5
    ensures user in o.w.lim.locked && o.w.now < o.w.lim.locked[user] ==>
              forall i | 0 <= i < |o.attempts| && o.attempts[i].user == user :: !o.attempts[i].stage.Checking?
  {
    var calls := WorkIsLegal(start, run, o);
    hide Runs, Works;
    LockoutBound(start, calls, o.w, user, after);
    SlotsAreAttempts(start, calls, o.w, user);
    RunIsRemembered(start, calls, o.w);
    SumByNonNegative(o.attempts, CheckingOf(user));
    assert o.w.slots[user] == Being(o, user);
    forall i | 0 <= i < |o.attempts| && o.attempts[i].user == user
      ensures o.attempts[i].stage.Checking? ==> Being(o, user) > 0
    {
      assert o.attempts[i] in o.attempts;
    }
  }

  /** A login that runs alone does to the limiter what the method does. */
  lemma AloneIsLogin(o: Office, i: nat, t0: int, t1: int, t2: int)
    requires CanGo(o, i, t0) && o.attempts[i].stage.Arrived? && t0 <= t1 <= t2
    ensures var a := o.attempts[i];
            var result := AfterLogin(o.w.lim, a.ip, a.user, t0, t1, t2, EndingOf(a.lookup, a.verify));
            var o0 := GoOn(o, i, t0);
            if o0.attempts[i].stage.Gone? then o0.w.lim == result
            else
              var o1 := GoOn(o0, i, t1);
              if o1.attempts[i].stage.Gone? then o1.w.lim == result
              else GoOn(o1, i, t2).attempts[i].stage.Gone? && GoOn(o1, i, t2).w.lim == result
  {
    hide Swept, Claim, Admit, AfterFailure, AfterSuccess, ReleaseSlot;
  }
}
