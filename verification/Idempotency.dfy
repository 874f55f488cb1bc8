/**
  Placing an order under an idempotency key: a repeated request gets the first answer, another request under the same
  key gets an error, and neither places a second order while the key lives.
*/
module Idempotency {
  import opened Common
  import Orders

  const TTL := 24 * 3_600_000_000_000

  // ---------------------------------------------------------------- answers and their stored form

  datatype Lang = ZH | EN | KM

  type Text = map<Lang, string>

  datatype LocalizedText = LocalizedText(zh: Option<string>, en: Option<string>, km: Option<string>)

  function Pick(t: Text, l: Lang): Option<string> { if l in t then Some(t[l]) else None }

  function LocalizedToApi(t: Text): LocalizedText { LocalizedText(Pick(t, ZH), Pick(t, EN), Pick(t, KM)) }

  function Put(t: Text, l: Lang, s: Option<string>): Text { if s.Some? then t[l := s.value] else t }

  function LocalizedFromApi(l: LocalizedText): Text { Put(Put(Put(map[], ZH, l.zh), EN, l.en), KM, l.km) }

  /** `registrationId` is not part of the answer. */
  datatype Participant = Participant(registrationId: int, regNo: string, category: int, categoryName: Text,
                                     fullName: string, rule: int, list: int, paid: int, status: string,
                                     ticket: Option<string>)

  datatype ApiParticipant = ApiParticipant(regNo: string, category: int, categoryName: LocalizedText, fullName: string,
                                           rule: int, list: int, paid: int, status: string, ticket: Option<string>)

  datatype Amounts = Amounts(list: int, discount: int, offset: int, amount: int, currency: string)

  datatype Times = Times(deadline: Option<int>, paid: Option<int>, created: int)

  datatype PaymentAccount = PaymentAccount(id: int, name: string, provider: string, accountName: string,
                                           masked: string, qrFile: Option<int>)

  datatype Rejection = Rejection(code: string, reason: Option<string>, reviewedAt: int)

  /** An order as the service knows it: the ids of order, event and buyer stay inside. */
  datatype Detail = Detail(id: int, event: int, buyer: int, accountId: int, orderNo: string, status: string,
                           slug: string, eventName: Text, timezone: string, amounts: Amounts, times: Times,
                           participants: seq<Participant>, account: PaymentAccount, rejection: Option<Rejection>)

  datatype ApiDetail = ApiDetail(orderNo: string, status: string, slug: string, eventName: LocalizedText,
                                 timezone: string, amounts: Amounts, times: Times, participants: seq<ApiParticipant>,
                                 account: PaymentAccount, rejection: Option<Rejection>)

  function ParticipantToApi(p: Participant): ApiParticipant
  {
    ApiParticipant(p.regNo, p.category, LocalizedToApi(p.categoryName), p.fullName, p.rule, p.list, p.paid, p.status,
                   p.ticket)
  }

  function ParticipantFromApi(a: ApiParticipant): Participant
  {
    Participant(0, a.regNo, a.category, LocalizedFromApi(a.categoryName), a.fullName, a.rule, a.list, a.paid, a.status,
                a.ticket)
  }

  function ToApi(d: Detail): ApiDetail
  {
    ApiDetail(d.orderNo, d.status, d.slug, LocalizedToApi(d.eventName), d.timezone, d.amounts, d.times,
              seq(|d.participants|, i requires 0 <= i < |d.participants| => ParticipantToApi(d.participants[i])),
              d.account, d.rejection)
  }

  function FromApi(a: ApiDetail): Detail
  {
    Detail(0, 0, 0, a.account.id, a.orderNo, a.status, a.slug, LocalizedFromApi(a.eventName), a.timezone, a.amounts,
           a.times,
           seq(|a.participants|, i requires 0 <= i < |a.participants| => ParticipantFromApi(a.participants[i])),
           a.account, a.rejection)
  }

  lemma LocalizedRoundTrip(l: LocalizedText)
    ensures LocalizedToApi(LocalizedFromApi(l)) == l
  {
  }

  /** Reading a stored answer back and showing it again shows the same answer. */
  lemma ReplayIsLossless(a: ApiDetail)
    ensures ToApi(FromApi(a)) == a
  {
  }

  ghost predicate Shows(l: LocalizedText, t: Text)
  {
    (if ZH in t then l.zh == Some(t[ZH]) else l.zh == None) &&
    (if EN in t then l.en == Some(t[EN]) else l.en == None) &&
    (if KM in t then l.km == Some(t[KM]) else l.km == None)
  }

  /** The answer shows the order field by field, each text in its own language. */
  lemma AnswerShows(d: Detail)
    ensures var a := ToApi(d);
            a.orderNo == d.orderNo && a.status == d.status && a.slug == d.slug && Shows(a.eventName, d.eventName) &&
            a.timezone == d.timezone && a.amounts == d.amounts && a.times == d.times && a.account == d.account &&
            a.rejection == d.rejection && |a.participants| == |d.participants| &&
            forall i | 0 <= i < |d.participants| ::
              var p, q := a.participants[i], d.participants[i];
              p.regNo == q.regNo && p.category == q.category && Shows(p.categoryName, q.categoryName) &&
              p.fullName == q.fullName && p.rule == q.rule && p.list == q.list && p.paid == q.paid &&
              p.status == q.status && p.ticket == q.ticket
  {
  }

  // ---------------------------------------------------------------- the key table

  /** Runner and key. */
  datatype KeyId = KeyId(subject: int, key: string)

  datatype KeyRow = KeyRow(hash: string, response: Option<ApiDetail>, expires: int)

  datatype Error = KeyReused | NoStoredResponse | Failed(why: Orders.OrderError)

  type Keys = map<KeyId, KeyRow>

  predicate Lives(keys: Keys, id: KeyId, now: int) { id in keys && keys[id].expires > now }

  /** What a repeated call is told. */
  function Replayed(row: KeyRow, hash: string): Result<Detail, Error>
  {
    if row.hash != hash then Err(KeyReused)
    else if row.response.None? then Err(NoStoredResponse)
    else Ok(FromApi(row.response.value))
  }

  /**
    One call; `now` is the clock as the call read it before it began to wait for its locks. `made` is what placing the
    order comes to, if it gets that far; an error there rolls the claim back with everything else.
  */
  function AfterCall(keys: Keys, id: KeyId, hash: string, now: int, made: Result<Detail, Orders.OrderError>)
    : (Keys, Result<Detail, Error>)
  {
    if Lives(keys, id, now) then (keys, Replayed(keys[id], hash))
    else if made.Err? then (keys, Err(Failed(made.error)))
    else (keys[id := KeyRow(hash, Some(ToApi(made.value)), now + TTL)], Ok(made.value))
  }

  class KeyTable {
    var keys: Keys

    constructor ()
      ensures keys == map[]
    {
      keys := map[];
    }

    /** Takes a new or expired key; a living one is left alone. */
    method Claim(id: KeyId, hash: string, now: int) returns (claimed: bool)
      modifies this
      ensures claimed <==> !Lives(old(keys), id, now)
      ensures keys == if claimed then old(keys)[id := KeyRow(hash, None, now + TTL)] else old(keys)
    {
      if Lives(keys, id, now) { return false; }
      keys := keys[id := KeyRow(hash, None, now + TTL)];
      claimed := true;
    }

    /** The answer to a call that could not claim its key. */
    method Replay(id: KeyId, hash: string) returns (res: Result<Detail, Error>)
      requires id in keys
      ensures res == Replayed(keys[id], hash)
    {
      var row := keys[id];
      if row.hash != hash { return Err(KeyReused); }
      if row.response.None? { return Err(NoStoredResponse); }
      res := Ok(FromApi(row.response.value));
    }

    method SaveResponse(id: KeyId, response: ApiDetail)
      modifies this
      ensures keys == if id in old(keys) then old(keys)[id := old(keys)[id].(response := Some(response))] else old(keys)
    {
      if id in keys { keys := keys[id := keys[id].(response := Some(response))]; }
    }

    /** The rest of a transaction failed: the table is as before it. */
    method Rollback(before: Keys)
      modifies this
      ensures keys == before
    {
      keys := before;
    }

    /** Deletes some expired rows; `batch` is what the limit lets through. */
    method Purge(batch: set<KeyId>, now: int)
      modifies this
      ensures forall id <- keys :: id in old(keys) && keys[id] == old(keys)[id]
      ensures forall id <- old(keys) :: old(keys)[id].expires >= now || id !in batch ==> id in keys
      ensures keys == Purged(old(keys), batch, now)
    {
      keys := map id | id in keys && !(id in batch && keys[id].expires < now) :: keys[id];
    }
  }

  function Purged(keys: Keys, batch: set<KeyId>, now: int): Keys
  {
    map id | id in keys && !(id in batch && keys[id].expires < now) :: keys[id]
  }

  // ---------------------------------------------------------------- whole runs

  /** An order that was placed, `at` the clock reading of its call. */
  datatype Commit = Commit(id: KeyId, hash: string, at: int, detail: Detail)

  /** Expired rows that were deleted: which, by what clock reading, and how many orders had been placed by then. */
  datatype Deletion = Deletion(batch: set<KeyId>, at: int, after: nat)

  /**
    Calls and deletions in the order in which they commit. Each brings its own clock reading, taken before it waits
    for its locks: so the readings can be in any order.
  */
  datatype Event =
    | Call(id: KeyId, hash: string, now: int, made: Result<Detail, Orders.OrderError>)
    | Purge(batch: set<KeyId>, now: int)

  datatype World = World(keys: Keys, commits: seq<Commit>, deletions: seq<Deletion>)

  /** The call gets to place an order, and the order is placed. */
  predicate Places(w: World, e: Event) { e.Call? && !Lives(w.keys, e.id, e.now) && e.made.Ok? }

  function Step(w: World, e: Event): World
  {
    match e
    case Call(id, hash, now, made) =>
      w.(keys := AfterCall(w.keys, id, hash, now, made).0,
         commits := if Places(w, e) then w.commits + [Commit(id, hash, now, made.value)] else w.commits)
    case Purge(batch, now) =>
      w.(keys := Purged(w.keys, batch, now), deletions := w.deletions + [Deletion(batch, now, |w.commits|)])
  }

  function After(run: seq<Event>): World
  {
    if run == [] then World(map[], [], []) else Step(After(run[..|run| - 1]), run[|run| - 1])
  }

  /** Within a day of the order. */
  predicate Recent(c: Commit, t: int) { t < c.at + 86_400_000_000_000 }

  function RowOf(c: Commit): KeyRow { KeyRow(c.hash, Some(ToApi(c.detail)), c.at + TTL) }

  /** The latest order under its key. */
  ghost predicate Last(commits: seq<Commit>, i: nat)
  {
    i < |commits| && forall j | i < j < |commits| :: commits[j].id != commits[i].id
  }

  /** Deletion d met the key of c, the i-th order, at the end of its life. */
  predicate Deletes(d: Deletion, c: Commit, i: nat) { i < d.after && c.id in d.batch && c.at + TTL < d.at }

  /** The key of order i has been deleted since. */
  ghost predicate Deleted(w: World, i: nat)
    requires i < |w.commits|
  {
    exists d <- w.deletions :: Deletes(d, w.commits[i], i)
  }

  ghost predicate KeyTells(w: World, i: nat)
    requires i < |w.commits|
  {
    var c := w.commits[i];
    (c.id in w.keys <==> !Deleted(w, i)) && (c.id in w.keys ==> w.keys[c.id] == RowOf(c))
  }

  ghost predicate HasCommit(commits: seq<Commit>, id: KeyId)
  {
    exists i: nat :: Last(commits, i) && commits[i].id == id
  }

  /** Order j came while the key of order i, the one before it under the key, was out of life or deleted. */
  ghost predicate Follows(w: World, i: nat, j: nat)
    requires i < j < |w.commits|
  {
    !Recent(w.commits[i], w.commits[j].at) || exists d <- w.deletions :: d.after <= j && Deletes(d, w.commits[i], i)
  }

  /** Nothing was placed under the key between these two. */
  ghost predicate Neighbours(commits: seq<Commit>, i: nat, j: nat)
  {
    i < j < |commits| && commits[i].id == commits[j].id && forall k | i < k < j :: commits[k].id != commits[i].id
  }

  ghost predicate KeysOk(w: World)
  {
    (forall id <- w.keys :: HasCommit(w.commits, id)) &&
    (forall i: nat | Last(w.commits, i) :: KeyTells(w, i)) &&
    (forall d <- w.deletions :: d.after <= |w.commits|)
  }

  ghost predicate PairsOk(w: World)
  {
    forall i: nat, j: nat | Neighbours(w.commits, i, j) :: Follows(w, i, j)
  }

  /** Whether a call under the key of the latest order finds it living. */
  lemma LivesIff(w: World, i: nat, t: int)
    requires KeysOk(w) && Last(w.commits, i)
    ensures Lives(w.keys, w.commits[i].id, t) <==> Recent(w.commits[i], t) && !Deleted(w, i)
    ensures Lives(w.keys, w.commits[i].id, t) ==> w.keys[w.commits[i].id] == RowOf(w.commits[i])
  {
    assert KeyTells(w, i);
  }

  lemma LastOf(commits: seq<Commit>, i: nat, c: Commit)
    ensures Last(commits + [c], i) <==> i == |commits| || (Last(commits, i) && commits[i].id != c.id)
  {
    var now := commits + [c];
    assert now[|commits|] == c;
    if Last(now, i) && i < |commits| {
      assert forall j | i < j < |commits| :: now[j] == commits[j];
    }
  }

  lemma PlacingKeepsKeys(w: World, e: Event)
    requires KeysOk(w) && Places(w, e)
    ensures KeysOk(Step(w, e))
  {
    hide ToApi;
    var w', c := Step(w, e), Commit(e.id, e.hash, e.now, e.made.value);
    forall i: nat | Last(w'.commits, i) ensures KeyTells(w', i) {
      LastOf(w.commits, i, c);
      if i < |w.commits| { assert KeyTells(w, i); }
    }
    forall id <- w'.keys ensures HasCommit(w'.commits, id) {
      LastOf(w.commits, |w.commits|, c);
      if id == e.id {
        assert w'.commits[|w.commits|].id == id;
      } else {
        var i: nat :| Last(w.commits, i) && w.commits[i].id == id;
        LastOf(w.commits, i, c);
        assert w'.commits[i].id == id;
      }
    }
  }

  lemma PurgeKeepsKeys(w: World, batch: set<KeyId>, now: int)
    requires KeysOk(w)
    ensures KeysOk(Step(w, Purge(batch, now)))
  {
    hide ToApi;
    var w', d := Step(w, Purge(batch, now)), Deletion(batch, now, |w.commits|);
    forall i: nat | Last(w'.commits, i) ensures KeyTells(w', i) {
      assert KeyTells(w, i);
      assert Deleted(w', i) <==> Deleted(w, i) || Deletes(d, w.commits[i], i);
    }
  }

  lemma StepKeepsKeys(w: World, e: Event)
    requires KeysOk(w)
    ensures KeysOk(Step(w, e))
  {
    hide KeysOk;
    if e.Purge? {
      PurgeKeepsKeys(w, e.batch, e.now);
    } else if Places(w, e) {
      PlacingKeepsKeys(w, e);
    } else {
      assert Step(w, e) == w;
    }
  }

  lemma StillFollows(w: World, w': World, i: nat, j: nat)
    requires i < j < |w.commits| <= |w'.commits| && w'.commits[i] == w.commits[i] && w'.commits[j] == w.commits[j]
    requires Follows(w, i, j) && forall d <- w.deletions :: d in w'.deletions
    ensures Follows(w', i, j)
  {
  }

  lemma StepKeepsPairs(w: World, e: Event)
    requires KeysOk(w) && PairsOk(w)
    ensures PairsOk(Step(w, e))
  {
    hide ToApi, FromApi, Follows, KeysOk;
    var w' := Step(w, e);
    forall i: nat, j: nat | Neighbours(w'.commits, i, j) ensures Follows(w', i, j) {
      if j < |w.commits| {
        assert w'.commits[i] == w.commits[i] && w'.commits[j] == w.commits[j];
        assert forall k | i < k < j :: w'.commits[k] == w.commits[k];
        StillFollows(w, w', i, j);
      } else {
        NewFollows(w, e, i);
      }
    }
  }

  lemma NewFollows(w: World, e: Event, i: nat)
    requires KeysOk(w) && Places(w, e) && Neighbours(Step(w, e).commits, i, |w.commits|)
    ensures Follows(Step(w, e), i, |w.commits|)
  {
    var w' := Step(w, e);
    assert Last(w.commits, i) by {
      assert forall k | i < k < |w.commits| :: w'.commits[k] == w.commits[k];
    }
    LivesIff(w, i, e.now);
  }

  lemma {:induction false} RunKeeps(run: seq<Event>)
    ensures KeysOk(After(run)) && PairsOk(After(run))
  {
    if run != [] {
      hide KeysOk, PairsOk, Step;
      var front, last := run[..|run| - 1], run[|run| - 1];
      RunKeeps(front);
      StepKeepsKeys(After(front), last);
      StepKeepsPairs(After(front), last);
    }
  }

  // ---------------------------------------------------------------- one order per key

  /** No deletion before order k read a later clock than the order itself. */
  ghost predicate NoneAhead(w: World, k: nat)
    requires k < |w.commits|
  {
    forall d <- w.deletions :: d.after <= k ==> d.at <= w.commits[k].at
  }

  lemma {:induction false} NeighbourBefore(commits: seq<Commit>, i: nat, j: nat) returns (k: nat)
    requires i < j < |commits| && commits[i].id == commits[j].id
    ensures i <= k && Neighbours(commits, k, j)
    decreases j - i
  {
    if m: nat :| i < m < j && commits[m].id == commits[i].id {
      k := NeighbourBefore(commits, m, j);
    } else {
      k := i;
    }
  }

  /**
    Two orders under one key are a lifetime apart, in whatever order the calls read the clock and commit, as long as no
    deletion was ahead of the orders.
  */
  lemma {:induction false} OneOrderPerKey(run: seq<Event>, i: nat, j: nat)
    requires i < j < |After(run).commits| && After(run).commits[i].id == After(run).commits[j].id
    requires forall k: nat | i < k <= j && After(run).commits[k].id == After(run).commits[i].id ::
               NoneAhead(After(run), k)
    ensures After(run).commits[j].at - After(run).commits[i].at >= 86_400_000_000_000
    decreases j
  {
    RunKeeps(run);
    hide KeysOk, After;
    var w := After(run);
    var k := NeighbourBefore(w.commits, i, j);
    assert Follows(w, k, j) && NoneAhead(w, j);
    if i < k { OneOrderPerKey(run, i, k); }
  }

  /**
    What a second call within the life of its key comes to, whatever it would have placed. If the key has not been
    deleted, nothing changes, the same request is shown the order's answer and any other is refused. If it has, the
    call is taken for a new one -- and then a deletion has read the clock ahead of it.
  */
  lemma RepeatsAreAnsweredIff(run: seq<Event>, i: nat, hash: string, t: int, made: Result<Detail, Orders.OrderError>)
    requires Last(After(run).commits, i) && Recent(After(run).commits[i], t)
    ensures var w := After(run);
            var c, w' := w.commits[i], Step(w, Call(w.commits[i].id, hash, t, made));
            var answer := AfterCall(w.keys, c.id, hash, t, made).1;
            if Deleted(w, i) then
              (made.Ok? ==> w'.commits == w.commits + [Commit(c.id, hash, t, made.value)]) &&
              exists d <- w.deletions :: d.at > t
            else
              w' == w && if hash == c.hash then answer.Ok? && ToApi(answer.value) == ToApi(c.detail)
                         else answer == Err(KeyReused)
  {
    RunKeeps(run);
    hide ToApi, FromApi, After;
    LivesIff(After(run), i, t);
    ReplayIsLossless(ToApi(After(run).commits[i].detail));
  }

  /** It does happen: a call that read the clock before a deletion did, and commits after it, places a second order. */
  lemma LateCallPlacesAgain(id: KeyId, hash: string, d: Detail)
    ensures var w := After([Call(id, hash, 0, Ok(d)), Purge({id}, TTL + 1), Call(id, hash, TTL - 1, Ok(d))]);
            w.commits == [Commit(id, hash, 0, d), Commit(id, hash, TTL - 1, d)] &&
            Recent(w.commits[0], w.commits[1].at)
  {
    hide ToApi;
    var a, b, c := Call(id, hash, 0, Ok(d)), Purge({id}, TTL + 1), Call(id, hash, TTL - 1, Ok(d));
    assert [a, b, c][..2] == [a, b] && [a, b][..1] == [a] && [a][..0] == [];
    var first := Commit(id, hash, 0, d);
    assert After([a]) == Step(After([]), a) == World(map[id := RowOf(first)], [first], []);
    assert After([a, b]) == Step(After([a]), b) == World(map[], [first], [Deletion({id}, TTL + 1, 1)]);
    assert After([a, b, c]) == Step(After([a, b]), c);
  }

  /** "No stored response" never comes up. */
  lemma ResponseIsStored(run: seq<Event>, id: KeyId, hash: string, t: int, made: Result<Detail, Orders.OrderError>)
    ensures AfterCall(After(run).keys, id, hash, t, made).1 != Err(NoStoredResponse)
  {
    RunKeeps(run);
    hide ToApi, FromApi, After;
    var w := After(run);
    if id in w.keys {
      assert HasCommit(w.commits, id);
      var i: nat :| Last(w.commits, i) && w.commits[i].id == id;
      assert KeyTells(w, i);
    }
  }

  // ---------------------------------------------------------------- deleting expired keys

  /** How a call ended: with a new order or not, and with what answer. */
  datatype Outcome = Outcome(placed: bool, answer: Result<Detail, Error>)

  function OutcomeOf(w: World, e: Event): Outcome
    requires e.Call?
  {
    Outcome(Places(w, e), AfterCall(w.keys, e.id, e.hash, e.now, e.made).1)
  }

  function Outcomes(run: seq<Event>): seq<Outcome>
  {
    if run == [] then []
    else
      var front, last := run[..|run| - 1], run[|run| - 1];
      if last.Call? then Outcomes(front) + [OutcomeOf(After(front), last)] else Outcomes(front)
  }

  function CallsOnly(run: seq<Event>): seq<Event>
  {
    if run == [] then []
    else if run[|run| - 1].Call? then CallsOnly(run[..|run| - 1]) + [run[|run| - 1]] else CallsOnly(run[..|run| - 1])
  }

  /** A call within the life of its key whose row has been deleted. */
  ghost predicate Misses(w: World, e: Event)
  {
    e.Call? && exists i: nat ::
      Last(w.commits, i) && w.commits[i].id == e.id && Recent(w.commits[i], e.now) && Deleted(w, i)
  }

  ghost predicate NeverMisses(run: seq<Event>)
  {
    run == [] || (NeverMisses(run[..|run| - 1]) && !Misses(After(run[..|run| - 1]), run[|run| - 1]))
  }

  /** No call commits after a deletion that read a later clock. */
  ghost predicate Timely(run: seq<Event>)
  {
    run == [] ||
    (Timely(run[..|run| - 1]) &&
     (run[|run| - 1].Call? ==> forall d <- After(run[..|run| - 1]).deletions :: d.at <= run[|run| - 1].now))
  }

  lemma {:induction false} TimelyNeverMisses(run: seq<Event>)
    requires Timely(run)
    ensures NeverMisses(run)
  {
    if run != [] {
      hide After;
      TimelyNeverMisses(run[..|run| - 1]);
    }
  }

  /** The two tables answer a call alike exactly when it misses nothing. */
  lemma SameOutcomeIff(w: World, v: World, e: Event)
    requires KeysOk(w) && KeysOk(v) && w.commits == v.commits && v.deletions == [] && e.Call?
    ensures OutcomeOf(w, e) == OutcomeOf(v, e) <==> !Misses(w, e)
    ensures !Misses(w, e) ==> Step(w, e).commits == Step(v, e).commits
  {
    hide ToApi, FromApi, Deleted;
    if HasCommit(w.commits, e.id) {
      var i: nat :| Last(w.commits, i) && w.commits[i].id == e.id;
      assert forall k: nat | Last(w.commits, k) && w.commits[k].id == e.id :: k == i;
      LivesIff(w, i, e.now);
      LivesIff(v, i, e.now);
      assert !Deleted(v, i) by { NotDeleted(v, i); }
    }
  }

  lemma NotDeleted(v: World, i: nat)
    requires v.deletions == [] && i < |v.commits|
    ensures !Deleted(v, i)
  {
  }

  lemma {:induction false} CallsDeleteNothing(run: seq<Event>)
    ensures After(CallsOnly(run)).deletions == [] && |Outcomes(CallsOnly(run))| == |Outcomes(run)|
  {
    if run != [] {
      hide AfterCall;
      var front, calls := run[..|run| - 1], CallsOnly(run);
      CallsDeleteNothing(front);
      assert run[|run| - 1].Call? ==> calls[..|calls| - 1] == CallsOnly(front);
    }
  }

  /**
    Deleting expired keys shows nowhere -- the calls alone have the same outcomes and place the same orders -- exactly
    when no call misses its key; and none does in a run in which no deletion is ahead of a later call.
  */
  lemma {:induction false} PurgesShowNowhereIff(run: seq<Event>)
    ensures Outcomes(CallsOnly(run)) == Outcomes(run) <==> NeverMisses(run)
    ensures NeverMisses(run) ==> After(CallsOnly(run)).commits == After(run).commits
    ensures Timely(run) ==> NeverMisses(run)
  {
    if Timely(run) { TimelyNeverMisses(run); }
    if run != [] {
      var front, last, calls := run[..|run| - 1], run[|run| - 1], CallsOnly(run);
      PurgesShowNowhereIff(front);
      if last.Call? {
        assert calls[..|calls| - 1] == CallsOnly(front) && calls[|calls| - 1] == last;
        RunKeeps(front);
        RunKeeps(CallsOnly(front));
        CallsDeleteNothing(front);
        hide KeysOk, PairsOk, OutcomeOf, Misses, Timely, Step;
        var w, v := After(front), After(CallsOnly(front));
        SameAppended(Outcomes(CallsOnly(front)), Outcomes(front), OutcomeOf(v, last), OutcomeOf(w, last));
        if NeverMisses(front) { SameOutcomeIff(w, v, last); }
      } else {
        StepPurges(After(front), last);
        hide Step, After;
      }
    }
  }

  lemma SameAppended(a: seq<Outcome>, b: seq<Outcome>, x: Outcome, y: Outcome)
    ensures a + [x] == b + [y] <==> a == b && x == y
  {
    assert (a + [x])[..|a|] == a && (b + [y])[..|b|] == b && (a + [x])[|a|] == x && (b + [y])[|b|] == y;
  }

  lemma StepPurges(w: World, e: Event)
    requires e.Purge?
    ensures Step(w, e).commits == w.commits && !Misses(w, e)
  {
  }
}
