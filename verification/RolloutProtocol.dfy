/**
 The rollout of one service, as the sequence of calls it exchanges with the Docker daemon.

 `Step` is the protocol: which call may come next and how the reply changes what the
 rollout does. Replies, failures, delays and cancellation are arbitrary. The theorems
 here hold of every trace the protocol accepts, hence in every reachable state.
 */
module RolloutProtocol {
  import opened Options

  /** A container ID; only its identity matters. */
  type ID(==, 0, !new)

  /** `State.Health` of an inspected container: absent, healthy, unhealthy, or any other status. */
  datatype Health = NoHealthcheck | Starting | Healthy | Unhealthy

  /** One call to the outside world together with its reply (None: the call failed). */
  datatype Event =
    | Listed(ids: Option<seq<ID>>)
    | EnvPrepared(ok: bool)
    // what compose added and what it started again is not visible to the rollout
    | ScaledUp(scale: nat, ok: bool, added: set<ID>, started: set<ID>)
    | Inspected(id: ID, health: Option<Health>)
    | TimedOut
    | Waited
    | Cancelled
    | Stopped(id: ID, ok: bool, took: bool)           // `took`: it had its effect; not visible either
    | Removed(id: ID, ok: bool, took: bool)

  datatype Outcome = Succeeded | ListFailed | EnvFailed | ComposeFailed | PollFailed | HealthFailed

  datatype State =
    | Start
    | Captured(prior: set<ID>)
    | EnvReady(prior: set<ID>)
    | Polling(prior: set<ID>, relistings: nat, waiting: bool)
    | Checking(prior: set<ID>, news: seq<ID>, i: nat, waiting: bool)
    | RollingBack(prior: set<ID>, news: seq<ID>, i: nat, stopTried: bool)
    | Draining(prior: set<ID>, news: seq<ID>, left: set<ID>, current: Option<ID>)
    | Ended(prior: set<ID>, news: seq<ID>, outcome: Outcome)

  const MAX_RELISTINGS := 10

  function Max(a: int, b: int): int { if a < b then b else a }

  function IdSet(ids: seq<ID>): set<ID> { set id | id in ids }

  ghost predicate Distinct(ids: seq<ID>) {
    forall i, j :: 0 <= i < j < |ids| ==> ids[i] != ids[j]
  }

  function ScaleTarget(current: nat): nat { if current == 0 then 1 else current * 2 }

  /** The number of new replicas waited for; for every `n` this is max(1, n). */
  function ExpectedNew(n: nat): nat { Max(ScaleTarget(n) - n, 1) }

  /** The listed containers that are not prior, in listing order. */
  function NewIDs(ids: seq<ID>, prior: set<ID>): seq<ID> {
    if ids == [] then []
    else NewIDs(ids[..|ids|-1], prior) + if ids[|ids|-1] in prior then [] else [ids[|ids|-1]]
  }

  function StartDrain(prior: set<ID>, news: seq<ID>, left: set<ID>): State {
    if left == {} then Ended(prior, news, Succeeded) else Draining(prior, news, left, None)
  }

  function StartRollback(prior: set<ID>, news: seq<ID>, i: nat): State {
    if i < |news| then RollingBack(prior, news, i, false) else Ended(prior, news, HealthFailed)
  }

  function Step(s: State, e: Event): (next: Option<State>)
    ensures next.Some? ==> !next.value.Start?
  {
    match s
    case Start =>
      if !e.Listed? then None
      else if e.ids.None? then Some(Ended({}, [], ListFailed))
      else Some(Captured(IdSet(e.ids.value)))
    case Captured(prior) =>
      if !e.EnvPrepared? then None
      else if e.ok then Some(EnvReady(prior)) else Some(Ended(prior, [], EnvFailed))
    case EnvReady(prior) =>
      if !e.ScaledUp? || e.scale != ScaleTarget(|prior|) then None
      else if e.ok then Some(Polling(prior, 0, false)) else Some(Ended(prior, [], ComposeFailed))
    case Polling(prior, n, false) =>
      if !e.Listed? then None
      else if e.ids.None? then Some(Ended(prior, [], PollFailed))
      else
        var news := NewIDs(e.ids.value, prior);
        if |news| >= ExpectedNew(|prior|) then Some(Checking(prior, news, 0, false))
        else if n < MAX_RELISTINGS then Some(Polling(prior, n, true))
        else Some(Ended(prior, [], PollFailed))
    case Polling(prior, n, true) =>
      if e.Waited? then Some(Polling(prior, n + 1, false))
      else if e.Cancelled? then Some(Ended(prior, [], PollFailed))
      else None
    case Checking(prior, news, i, false) =>
      if e.TimedOut? then Some(StartRollback(prior, news, 0))
      else if !e.Inspected? || i >= |news| || e.id != news[i] then None
      else if e.health == Some(Healthy) then
        Some(if i + 1 == |news| then StartDrain(prior, news, prior) else Checking(prior, news, i + 1, false))
      else if e.health == Some(Starting) then Some(Checking(prior, news, i, true))
      else Some(StartRollback(prior, news, 0))
    case Checking(prior, news, i, true) =>
      if e.Waited? then Some(Checking(prior, news, i, false))
      else if e.Cancelled? then Some(StartRollback(prior, news, 0))
      else None
    case RollingBack(prior, news, i, false) =>
      if e.Stopped? && i < |news| && e.id == news[i] then Some(RollingBack(prior, news, i, true)) else None
    case RollingBack(prior, news, i, true) =>
      if e.Removed? && i < |news| && e.id == news[i] then Some(StartRollback(prior, news, i + 1)) else None
    case Draining(prior, news, left, None) =>
      if e.Stopped? && e.id in left then Some(Draining(prior, news, left, Some(e.id))) else None
    case Draining(prior, news, left, Some(id)) =>
      if e.Removed? && e.id == id then Some(StartDrain(prior, news, left - {id})) else None
    case Ended(_, _, _) => None
  }

  function Run(es: seq<Event>): Option<State> {
    if es == [] then Some(Start)
    else
      match Run(es[..|es|-1])
      case None => None
      case Some(s) => Step(s, es[|es|-1])
  }

  // ---------- What a trace says, without reference to the protocol's state ----------

  /** The containers some stop or remove call was issued on. */
  function Touched(es: seq<Event>): set<ID> {
    if es == [] then {}
    else
      var e := es[|es|-1];
      Touched(es[..|es|-1]) + if e.Stopped? || e.Removed? then {e.id} else {}
  }

  /** The containers some inspection reported healthy. */
  function SeenHealthy(es: seq<Event>): set<ID> {
    if es == [] then {}
    else
      var e := es[|es|-1];
      SeenHealthy(es[..|es|-1]) + if e.Inspected? && e.health == Some(Healthy) then {e.id} else {}
  }

  /** The successful container listings, in order. */
  function Listings(es: seq<Event>): seq<seq<ID>> {
    if es == [] then []
    else
      var e := es[|es|-1];
      Listings(es[..|es|-1]) + if e.Listed? && e.ids.Some? then [e.ids.value] else []
  }

  /** The pre-existing containers: those of the first listing. */
  function OldIDs(es: seq<Event>): set<ID> {
    if Listings(es) == [] then {} else IdSet(Listings(es)[0])
  }

  /** The containers of the latest listing that did not exist before. */
  function FreshIDs(es: seq<Event>): seq<ID> {
    if Listings(es) == [] then [] else NewIDs(Listings(es)[|Listings(es)|-1], OldIDs(es))
  }

  lemma {:induction false} NewIDsAreNew(ids: seq<ID>, prior: set<ID>)
    ensures IdSet(NewIDs(ids, prior)) == IdSet(ids) - prior
    ensures Distinct(ids) ==> Distinct(NewIDs(ids, prior))
  {
    if ids != [] {
      var init, last := ids[..|ids|-1], ids[|ids|-1];
      NewIDsAreNew(init, prior);
      assert ids == init + [last];
      assert IdSet(ids) == IdSet(init) + {last};
      assert IdSet(NewIDs(ids, prior)) == IdSet(NewIDs(init, prior)) + if last in prior then {} else {last};
      assert last in NewIDs(init, prior) ==> last in IdSet(NewIDs(init, prior));
    }
  }

  /** The new containers come in the order of the listing. */
  lemma {:induction false} NewIDsInOrder(a: seq<ID>, b: seq<ID>, prior: set<ID>)
    ensures NewIDs(a + b, prior) == NewIDs(a, prior) + NewIDs(b, prior)
    ensures |b| == 1 ==> NewIDs(b, prior) == if b[0] in prior then [] else b
  {
    hide NewIDs;
    NewIDsNone(prior);
    if b == [] {
      assert a + b == a;
    } else {
      var init, last := b[..|b|-1], b[|b|-1];
      NewIDsInOrder(a, init, prior);
      Regrouped(a, init, [last]);
      assert b == init + [last];
      NewIDsSnoc(a + init, last, prior);
      NewIDsSnoc(init, last, prior);
      Regrouped(NewIDs(a, prior), NewIDs(init, prior), if last in prior then [] else [last]);
    }
  }

  lemma Regrouped(a: seq<ID>, b: seq<ID>, c: seq<ID>)
    ensures a + (b + c) == a + b + c && [] + c == c && a + [] == a
  {
  }

  lemma NewIDsSnoc(ids: seq<ID>, last: ID, prior: set<ID>)
    ensures NewIDs(ids + [last], prior) == NewIDs(ids, prior) + if last in prior then [] else [last]
  {
    assert (ids + [last])[..|ids|] == ids;
  }

  lemma NewIDsNone(prior: set<ID>)
    ensures NewIDs([], prior) == []
  {
  }

  /** What a trace says of the containers, in the terms of the functions above. */
  datatype Facts = Facts(prior: set<ID>, news: seq<ID>, touched: set<ID>, healthy: set<ID>)

  function FactsOf(es: seq<Event>): Facts {
    Facts(OldIDs(es), FreshIDs(es), Touched(es), SeenHealthy(es))
  }

  /** What holds of the facts of a trace that has brought the protocol to `s`. */
  ghost predicate FactsInv(s: State, f: Facts) {
    match s
    case Start => f.touched == {} && f.prior == {}
    case Checking(prior, news, i, _) =>
      && prior == f.prior && news == f.news && i < |news| && |news| >= Max(1, |prior|)
      && IdSet(news[..i]) <= f.healthy && f.touched == {}
    case RollingBack(prior, news, i, stopTried) =>
      && prior == f.prior && news == f.news && i < |news|
      && f.touched == IdSet(news[..i]) + if stopTried then {news[i]} else {}
    case Draining(prior, news, left, current) =>
      && prior == f.prior && news == f.news && |news| >= Max(1, |prior|)
      && IdSet(news) <= f.healthy && left <= prior && left != {}
      && f.touched == prior - left + (if current.Some? then {current.value} else {})
      && (current.Some? ==> current.value in left)
    case Ended(prior, news, outcome) =>
      if outcome == Succeeded then
        && prior == f.prior && news == f.news && |news| >= Max(1, |prior|)
        && IdSet(news) <= f.healthy && f.touched == prior
      else if outcome == HealthFailed then
        prior == f.prior && news == f.news && f.touched == IdSet(news)
      else f.touched == {} && prior == f.prior
    case _ => f.touched == {} && s.prior == f.prior
  }

  lemma SnocFacts(es: seq<Event>, e: Event)
    ensures Touched(es + [e]) == Touched(es) + if e.Stopped? || e.Removed? then {e.id} else {}
    ensures SeenHealthy(es + [e])
         == SeenHealthy(es) + if e.Inspected? && e.health == Some(Healthy) then {e.id} else {}
    ensures Listings(es + [e]) == Listings(es) + if e.Listed? && e.ids.Some? then [e.ids.value] else []
    ensures !(e.Listed? && e.ids.Some?) ==> OldIDs(es + [e]) == OldIDs(es) && FreshIDs(es + [e]) == FreshIDs(es)
  {
    assert (es + [e])[..|es|] == es && (es + [e])[|es|] == e;
  }

  lemma PrefixSet(ids: seq<ID>, i: nat)
    requires i < |ids|
    ensures IdSet(ids[..i+1]) == IdSet(ids[..i]) + {ids[i]}
    ensures IdSet(ids[..0]) == {}
    ensures ids[..|ids|] == ids
  {
    assert ids[..i+1] == ids[..i] + [ids[i]];
  }

  /** How an event other than a successful listing changes the facts. */
  ghost predicate Unlisted(f: Facts, e: Event, f': Facts) {
    && !(e.Listed? && e.ids.Some?) && f'.prior == f.prior && f'.news == f.news
    && f'.touched == f.touched + (if e.Stopped? || e.Removed? then {e.id} else {})
    && f'.healthy == f.healthy + if e.Inspected? && e.health == Some(Healthy) then {e.id} else {}
  }

  lemma FactsBefore(s: State, f: Facts, e: Event, s': State, f': Facts)
    requires s.Start? || s.Captured? || s.EnvReady? || s.Polling?
    requires FactsInv(s, f) && Step(s, e) == Some(s') && Unlisted(f, e, f')
    ensures FactsInv(s', f')
  {
  }

  lemma FactsChecking(s: State, f: Facts, e: Event, s': State, f': Facts)
    requires s.Checking?
    requires FactsInv(s, f) && Step(s, e) == Some(s') && Unlisted(f, e, f')
    ensures FactsInv(s', f')
  {
    PrefixSet(s.news, s.i);
  }

  lemma FactsRollback(s: State, f: Facts, e: Event, s': State, f': Facts)
    requires s.RollingBack?
    requires FactsInv(s, f) && Step(s, e) == Some(s') && Unlisted(f, e, f')
    ensures FactsInv(s', f')
  {
    PrefixSet(s.news, s.i);
  }

  lemma FactsDrain(s: State, f: Facts, e: Event, s': State, f': Facts)
    requires s.Draining?
    requires FactsInv(s, f) && Step(s, e) == Some(s') && Unlisted(f, e, f')
    ensures FactsInv(s', f')
  {
  }

  /** A successful listing either captures the old containers or finds the new ones. */
  lemma FactsListed(s: State, f: Facts, ids: seq<ID>, s': State, f': Facts)
    requires FactsInv(s, f) && Step(s, Listed(Some(ids))) == Some(s')
    requires f'.prior == if s.Start? then IdSet(ids) else f.prior
    requires f'.news == NewIDs(ids, f'.prior) && f'.touched == f.touched && f'.healthy == f.healthy
    ensures FactsInv(s', f')
  {
    hide NewIDs;
    if s.Polling? {
      assert NewIDs(ids, s.prior)[..0] == [];
    }
  }

  lemma FactsListing(s: State, es: seq<Event>, ids: seq<ID>)
    requires FactsInv(s, FactsOf(es)) && Step(s, Listed(Some(ids))).Some?
    requires (s.Start? <==> es == []) && (s.Polling? ==> Listings(es) != [])
    ensures FactsInv(Step(s, Listed(Some(ids))).value, FactsOf(es + [Listed(Some(ids))]))
  {
    hide FactsInv, Touched, SeenHealthy, IdSet, NewIDs;
    var e := Listed(Some(ids));
    SnocFacts(es, e);
    var ls := Listings(es + [e]);
    assert ls[|ls|-1] == ids && ls[0] == if s.Start? then ids else Listings(es)[0];
    assert Touched(es) + {} == Touched(es) && SeenHealthy(es) + {} == SeenHealthy(es);
    FactsListed(s, FactsOf(es), ids, Step(s, e).value, FactsOf(es + [e]));
  }

  /** One event keeps the facts in step with the protocol. */
  lemma FactsStep(s: State, es: seq<Event>, e: Event, s': State)
    requires FactsInv(s, FactsOf(es)) && Step(s, e) == Some(s')
    requires (s.Start? <==> es == []) && (Listings(es) == [] ==> s.Start? || s.Ended?)
    ensures FactsInv(s', FactsOf(es + [e]))
    ensures Listings(es + [e]) == [] ==> s'.Ended?
  {
    hide FactsInv, NewIDs, IdSet, Listings, OldIDs, FreshIDs, Touched, SeenHealthy;
    SnocFacts(es, e);
    var f, f' := FactsOf(es), FactsOf(es + [e]);
    if e.Listed? && e.ids.Some? {
      FactsListing(s, es, e.ids.value);
    } else {
      assert Unlisted(f, e, f');
      if s.Checking? {
        FactsChecking(s, f, e, s', f');
      } else if s.RollingBack? {
        FactsRollback(s, f, e, s', f');
      } else if s.Draining? {
        FactsDrain(s, f, e, s', f');
      } else {
        FactsBefore(s, f, e, s', f');
      }
    }
  }

  lemma LastEvent(es: seq<Event>)
    requires es != [] && Run(es).Some?
    ensures var init, e := es[..|es|-1], es[|es|-1];
            es == init + [e] && Run(init).Some? && Step(Run(init).value, e) == Run(es) && !Run(es).value.Start?
  {
    hide Step;
  }

  lemma {:induction false} RunFacts(es: seq<Event>)
    requires Run(es).Some?
    ensures FactsInv(Run(es).value, FactsOf(es))
    ensures Run(es).value.Start? <==> es == []
    ensures Listings(es) == [] ==> Run(es).value.Start? || Run(es).value.Ended?
  {
    if es == [] {
    } else {
      hide *;
      LastEvent(es);
      var init, e := es[..|es|-1], es[|es|-1];
      RunFacts(init);
      FactsStep(Run(init).value, init, e, Run(es).value);
    }
  }

  // ---------- Zero downtime, for arbitrary daemon replies ----------

  /** The healthy replacements exist: as many listed as were there before, each seen healthy. */
  ghost predicate Replaced(es: seq<Event>) {
    && |FreshIDs(es)| >= Max(1, |OldIDs(es)|)
    && IdSet(FreshIDs(es)) !! OldIDs(es)
    && IdSet(FreshIDs(es)) <= SeenHealthy(es)
  }

  /**
   In every reachable state either no stop or remove has been issued on a pre-existing
   container, or its replacements are all there and healthy and no rollback was issued.
   Whatever way a rollout fails, the pre-existing containers are untouched; a rollback
   covers exactly the new containers, and success means exactly the old ones are drained.
   */
  lemma ZeroDowntime(es: seq<Event>)
    requires Run(es).Some?
    ensures Touched(es) !! OldIDs(es) || (Replaced(es) && Touched(es) <= OldIDs(es))
    ensures Touched(es) <= OldIDs(es) || Touched(es) <= IdSet(FreshIDs(es))
    ensures Run(es).value.Ended? ==>
              match Run(es).value.outcome
              case Succeeded => Replaced(es) && Touched(es) == OldIDs(es)
              case HealthFailed => Touched(es) == IdSet(FreshIDs(es)) && Touched(es) !! OldIDs(es)
              case _ => Touched(es) == {}
  {
    hide Run, Listings, OldIDs, FreshIDs, NewIDs, Touched, SeenHealthy;
    RunFacts(es);
    FreshIsFresh(es);
    var s := Run(es).value;
    if s.RollingBack? {
      PrefixSet(s.news, s.i);
    }
  }

  lemma FreshIsFresh(es: seq<Event>)
    ensures IdSet(FreshIDs(es)) !! OldIDs(es)
    ensures Listings(es) != [] && Distinct(Listings(es)[|Listings(es)|-1]) ==> Distinct(FreshIDs(es))
  {
    if Listings(es) != [] {
      NewIDsAreNew(Listings(es)[|Listings(es)|-1], OldIDs(es));
    }
  }

  /** Every prefix of a trace is a trace, so what holds of all traces held at every earlier point. */
  lemma {:induction false} PrefixRuns(es: seq<Event>, k: nat)
    requires Run(es).Some? && k <= |es|
    ensures Run(es[..k]).Some?
  {
    if k == |es| {
      assert es[..k] == es;
    } else {
      PrefixRuns(es[..|es|-1], k);
      assert es[..|es|-1][..k] == es[..k];
    }
  }

  // ---------- Why a rollout ends as it does, from its trace alone ----------

  /** The only things that end the wait for a container without success. */
  predicate GivesUp(e: Event) {
    || e.TimedOut? || e.Cancelled?
    || (e.Inspected? && (e.health.Some? ==> e.health.value.NoHealthcheck? || e.health.value.Unhealthy?))
  }

  predicate Cleanup(e: Event) { e.Stopped? || e.Removed? }

  /** At `k` the wait for a container is given up, and nothing but the rollback follows. */
  ghost predicate GivenUpAt(es: seq<Event>, k: nat) {
    && k < |es| && GivesUp(es[k])
    && (forall j :: 0 <= j < k ==> !Cleanup(es[j]))
    && (forall j :: k < j < |es| ==> Cleanup(es[j]))
  }

  /** Every failure has its reason in the trace. */
  ghost predicate Explained(es: seq<Event>, outcome: Outcome) {
    match outcome
    case Succeeded => true
    case ListFailed => es == [Listed(None)]
    case EnvFailed => |es| == 2 && es[1] == EnvPrepared(false)
    case ComposeFailed => |es| == 3 && es[2].ScaledUp? && !es[2].ok
    case PollFailed =>
      && es != []
      && var e := es[|es|-1];
      || e == Listed(None) || e == Cancelled
      || (|Listings(es)| == 12 && e.Listed? && |FreshIDs(es)| < Max(1, |OldIDs(es)|))
    case HealthFailed => exists k :: GivenUpAt(es, k)
  }

  /** The protocol's counterpart of `Explained` on the way. */
  ghost predicate Underway(s: State, es: seq<Event>) {
    match s
    case Start => es == []
    case Captured(_) => |es| == 1 && |Listings(es)| == 1 && NoCleanup(es)
    case EnvReady(_) => |es| == 2 && |Listings(es)| == 1 && NoCleanup(es)
    case Polling(_, n, waiting) =>
      |Listings(es)| == n + (if waiting then 2 else 1) && n <= 10 && NoCleanup(es)
      && (waiting ==> n < 10 && |FreshIDs(es)| < Max(1, |OldIDs(es)|))
    case Checking(_, _, _, _) => NoCleanup(es)
    case RollingBack(_, _, _, _) => exists k :: GivenUpAt(es, k)
    case Ended(_, _, outcome) => Explained(es, outcome)
    case _ => true
  }

  ghost predicate NoCleanup(es: seq<Event>) { forall j :: 0 <= j < |es| ==> !Cleanup(es[j]) }

  lemma UnderwayCleanup(s: State, es: seq<Event>, e: Event, s': State)
    requires s.RollingBack? && Underway(s, es) && Step(s, e) == Some(s')
    ensures Underway(s', es + [e])
  {
    var k :| GivenUpAt(es, k);
    assert forall j :: 0 <= j < |es| ==> (es + [e])[j] == es[j];
    assert GivenUpAt(es + [e], k);
  }

  lemma UnderwayChecking(s: State, es: seq<Event>, e: Event, s': State)
    requires s.Checking? && Underway(s, es) && Step(s, e) == Some(s')
    ensures Underway(s', es + [e])
  {
    hide Listings, FreshIDs, OldIDs;
    assert forall j :: 0 <= j < |es| ==> (es + [e])[j] == es[j];
    assert (es + [e])[|es|] == e;
    if s'.RollingBack? || (s'.Ended? && s'.outcome == HealthFailed) {
      assert forall j :: 0 <= j < |es| ==> !Cleanup((es + [e])[j]);
      assert GivenUpAt(es + [e], |es|);
    }
  }

  /** A further listing shows the old containers of the first one, and fresh ones. */
  lemma ListedAgain(es: seq<Event>, ids: seq<ID>)
    requires Listings(es) != []
    ensures var es' := es + [Listed(Some(ids))];
            && |Listings(es')| == |Listings(es)| + 1 && OldIDs(es') == OldIDs(es)
            && FreshIDs(es') == NewIDs(ids, OldIDs(es))
  {
    hide Touched, SeenHealthy, NewIDs, IdSet;
    var e := Listed(Some(ids));
    SnocFacts(es, e);
    assert Listings(es + [e])[|Listings(es)|] == ids && Listings(es + [e])[0] == Listings(es)[0];
  }

  lemma UnderwayPolling(s: State, es: seq<Event>, e: Event, s': State)
    requires s.Polling? && Underway(s, es) && Step(s, e) == Some(s') && FactsInv(s, FactsOf(es))
    ensures Underway(s', es + [e])
  {
    hide Touched, SeenHealthy, NewIDs, Listings, OldIDs, FreshIDs, IdSet;
    SnocFacts(es, e);
    if e.Listed? && e.ids.Some? {
      assert Listings(es) != [] by { assert |Listings(es)| > 0; }
      ListedAgain(es, e.ids.value);
    }
    assert forall j :: 0 <= j < |es| ==> (es + [e])[j] == es[j];
    assert (es + [e])[|es|] == e;
  }

  lemma UnderwayBefore(s: State, es: seq<Event>, e: Event, s': State)
    requires (s.Start? || s.Captured? || s.EnvReady? || s.Draining?) && Underway(s, es) && Step(s, e) == Some(s')
    ensures Underway(s', es + [e])
  {
    SnocFacts(es, e);
    hide Touched, SeenHealthy, NewIDs, FreshIDs, OldIDs;
    assert (es + [e])[|es|] == e && (es == [] ==> es + [e] == [e]);
    if s.EnvReady? {
      assert forall j :: 0 <= j < |es| ==> (es + [e])[j] == es[j];
    }
  }

  lemma {:induction false} RunUnderway(es: seq<Event>)
    requires Run(es).Some?
    ensures Underway(Run(es).value, es)
  {
    if es == [] {
    } else {
      hide *;
      LastEvent(es);
      var init, e := es[..|es|-1], es[|es|-1];
      var s, s' := Run(init).value, Run(es).value;
      RunUnderway(init);
      RunFacts(init);
      NotEnded(s, e);
      if s.Polling? {
        UnderwayPolling(s, init, e, s');
      } else if s.Checking? {
        UnderwayChecking(s, init, e, s');
      } else if s.RollingBack? {
        UnderwayCleanup(s, init, e, s');
      } else {
        UnderwayBefore(s, init, e, s');
      }
    }
  }

  lemma NotEnded(s: State, e: Event)
    requires Step(s, e).Some?
    ensures !s.Ended?
  {
  }

  /**
   A rollout fails for a reason, and only for these: the first listing, the env file or compose
   failed; a later listing failed, the wait was cancelled, or the twelfth listing still showed too
   few new containers; or a container timed out, was cancelled, could not be inspected, has no
   health check or turned unhealthy, which came after no stop and before nothing but the rollback.
   */
  lemma OutcomeExplained(es: seq<Event>)
    requires Run(es).Some? && Run(es).value.Ended?
    ensures Explained(es, Run(es).value.outcome)
  {
    RunUnderway(es);
  }

  lemma StepFollows(s: State, e: Event, s': State, e': Event)
    requires Step(s, e) == Some(s') && Step(s', e').Some?
    ensures e.Inspected? && e.health == Some(Starting) ==> e'.Waited? || e'.Cancelled?
    ensures e.Inspected? && e.health == Some(Healthy) ==> e'.Inspected? || e'.TimedOut? || e'.Stopped?
    ensures e.Stopped? ==> e'.Removed? && e'.id == e.id
    ensures GivesUp(e) ==> Cleanup(e')
    ensures e.Listed? && e'.Waited? ==> s'.Polling? && s'.waiting
  {
  }

  /** The call before a removal is the stop of the same container. */
  lemma StopPrecedes(s: State, e: Event, s': State, e': Event)
    requires Step(s, e) == Some(s') && Step(s', e').Some? && e'.Removed?
    ensures e.Stopped? && e.id == e'.id
  {
  }

  /**
   What comes next: after a container that is still starting a wait or a cancellation, after a
   healthy one no rollback without another reason, which is followed by the rollback at once; a
   further wait for containers only while there are too few; after every stop the removal of the
   same container, which comes nowhere else.
   */
  lemma {:induction false} WhatFollows(es: seq<Event>, k: nat)
    requires Run(es).Some? && k + 1 < |es|
    ensures es[k].Inspected? && es[k].health == Some(Starting) ==> es[k+1].Waited? || es[k+1].Cancelled?
    ensures es[k].Inspected? && es[k].health == Some(Healthy) ==> es[k+1].Inspected? || es[k+1].TimedOut? || es[k+1].Stopped?
    ensures GivesUp(es[k]) ==> Cleanup(es[k+1])
    ensures es[k].Listed? && es[k+1].Waited? ==> |FreshIDs(es[..k+1])| < Max(1, |OldIDs(es[..k+1])|)
    ensures es[k].Stopped? ==> es[k+1].Removed? && es[k+1].id == es[k].id
    ensures es[k+1].Removed? ==> es[k].Stopped? && es[k].id == es[k+1].id
    ensures !es[0].Removed?
  {
    hide *;
    var a, b := es[..k+1], es[..k+2];
    PrefixRuns(es, k + 2);
    assert b[..|b|-1] == a && b[|b|-1] == es[k+1] && a[|a|-1] == es[k];
    LastEvent(b);
    LastEvent(a);
    var s := Run(a[..|a|-1]).value;
    StepFollows(s, es[k], Run(a).value, es[k+1]);
    RunUnderway(a);
    if es[k].Listed? && es[k+1].Waited? {
      StillTooFew(Run(a).value, a);
    }
    if es[k+1].Removed? {
      StopPrecedes(s, es[k], Run(a).value, es[k+1]);
    }
    PrefixRuns(es, 1);
    FirstEvent(es[..1]);
  }

  lemma StillTooFew(s: State, es: seq<Event>)
    requires Underway(s, es) && s.Polling? && s.waiting
    ensures |FreshIDs(es)| < Max(1, |OldIDs(es)|)
  {
  }

  lemma FirstEvent(es: seq<Event>)
    requires |es| == 1 && Run(es).Some?
    ensures es[0].Listed?
  {
    assert es[..0] == [];
  }

  // ---------- A rollout never gets stuck ----------

  /** The rollout is at a container that is there to be handled. */
  ghost predicate Live(s: State) {
    match s
    case Checking(_, news, i, _) => i < |news|
    case RollingBack(_, news, i, _) => i < |news|
    case Draining(_, _, left, current) => left != {} && (current.Some? ==> current.value in left)
    case _ => true
  }

  lemma LiveStep(s: State, e: Event, s': State)
    requires Live(s) && Step(s, e) == Some(s')
    ensures Live(s')
  {
    hide NewIDs, IdSet;
  }

  lemma NextCall(s: State) returns (e: Event)
    requires Live(s) && !s.Ended?
    ensures Step(s, e).Some?
  {
    match s {
      case Start => e := Listed(None);
      case Captured(_) => e := EnvPrepared(false);
      case EnvReady(prior) => e := ScaledUp(ScaleTarget(|prior|), false, {}, {});
      case Polling(_, _, waiting) => e := if waiting then Waited else Listed(None);
      case Checking(_, _, _, waiting) => e := if waiting then Waited else TimedOut;
      case RollingBack(_, news, i, stopTried) =>
        e := if stopTried then Removed(news[i], false, false) else Stopped(news[i], false, false);
      case Draining(_, _, left, current) =>
        var id :| id in left;
        e := if current.Some? then Removed(current.value, false, false) else Stopped(id, false, false);
    }
  }
}
