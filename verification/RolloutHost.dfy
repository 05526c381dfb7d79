/**
 What a rollout does to the containers of its service on the host.

 The protocol's events act on a host; `Truthful` is what is assumed of the Docker
 daemon and of `docker compose up`. Stops and removals may fail, and every failure
 branch of the rollout is covered.
 */
module RolloutHost {
  import opened Options
  import opened RolloutProtocol

  /** The containers of one service, in any state, and those of them that were stopped. */
  datatype Host = Host(present: set<ID>, stopped: set<ID>)

  ghost predicate ValidHost(h: Host) { h.stopped <= h.present }

  /** The containers that run. */
  function Serving(h: Host): set<ID> { h.present - h.stopped }

  function Apply(h: Host, e: Event): Host {
    match e
    case ScaledUp(_, _, added, started) => Host(h.present + added, h.stopped - started)
    case Stopped(id, _, true) => if id in h.present then h.(stopped := h.stopped + {id}) else h
    case Removed(id, _, true) => Host(h.present - {id}, h.stopped - {id})
    case _ => h
  }

  /**
   The daemon's part: the first listing is exact; later ones may lag behind but list each
   container once; compose adds new containers, exactly the missing replicas when it succeeds
   and no more than those when it fails, and may start stopped ones again; a stop or remove that reports success took effect, and one
   that reports an error may have.
   */
  ghost predicate Truthful(h: Host, s: State, e: Event) {
    match e
    case Listed(Some(ids)) =>
      if s.Start? then IdSet(ids) == h.present else IdSet(ids) <= h.present && Distinct(ids)
    case ScaledUp(scale, ok, added, started) =>
      && added !! h.present && started <= h.stopped
      && |added| <= Max(0, scale - |h.present|)
      && (ok ==> |added| == Max(0, scale - |h.present|))
    case Stopped(_, ok, took) => ok ==> took
    case Removed(_, ok, took) => ok ==> took
    case _ => true
  }

  /** Stop and remove calls succeed. */
  predicate CleanupSucceeds(e: Event) {
    e.Stopped? || e.Removed? ==> e.ok
  }

  ghost predicate Extended(h0: Host, h: Host) {
    h0.present <= h.present && h.stopped <= h0.stopped
  }

  /** The pre-existing containers are there, and run if they did before; other containers are among `news`. */
  ghost predicate PriorIntact(h0: Host, h: Host, news: seq<ID>) {
    && h0.present <= h.present <= h0.present + IdSet(news) && IdSet(news) !! h0.present
    && h.stopped * h0.present <= h0.stopped && |IdSet(news)| == Max(1, |h0.present|)
  }

  /** The replacements run; other containers are among the pre-existing ones. */
  ghost predicate NewsServe(h0: Host, h: Host, news: seq<ID>) {
    && h.present <= h0.present + IdSet(news) && IdSet(news) !! h0.present
    && IdSet(news) <= Serving(h) && |IdSet(news)| == Max(1, |h0.present|)
  }

  /** The host `h` of a rollout that began on `h0` and has come to `s`, whatever calls failed. */
  ghost predicate HostInv(s: State, h0: Host, h: Host) {
    && ValidHost(h0) && ValidHost(h)
    && (s.Start? || (s.Ended? && s.outcome == ListFailed) || s.prior == h0.present)
    && match s
       case Polling(_, _, _) => Extended(h0, h) && |h.present| == ScaleTarget(|h0.present|)
       case Checking(_, news, _, _) => Extended(h0, h) && PriorIntact(h0, h, news) && h.present == h0.present + IdSet(news)
       case RollingBack(_, news, _, _) => PriorIntact(h0, h, news)
       case Draining(_, news, left, current) => NewsServe(h0, h, news) && left <= h0.present && (current.Some? ==> current.value in left)
       case Ended(_, news, Succeeded) => NewsServe(h0, h, news)
       case Ended(_, news, HealthFailed) => PriorIntact(h0, h, news)
       case Ended(_, _, PollFailed) => Extended(h0, h) && |h.present| == ScaleTarget(|h0.present|)
       case Ended(_, _, ComposeFailed) => Extended(h0, h) && |h.present| <= ScaleTarget(|h0.present|)
       case _ => h == h0
  }

  /** What holds besides when every stop and remove succeeded. */
  ghost predicate Tidy(s: State, h0: Host, h: Host) {
    match s
    case RollingBack(prior, news, i, stopTried) =>
      && i < |news| && h.present == prior + IdSet(news[i..])
      && h.stopped <= h0.stopped + (if stopTried then {news[i]} else {})
      && Distinct(news)
    case Draining(_, news, left, current) =>
      && h.present == left + IdSet(news)
      && h.stopped <= h0.stopped * left + (if current.Some? then {current.value} else {})
      && (current.Some? ==> current.value in left)
    case Checking(_, news, i, _) => Distinct(news) && i < |news|
    case Ended(_, news, Succeeded) => h == Host(IdSet(news), {})
    case Ended(_, _, HealthFailed) => h.present == h0.present && h.stopped <= h0.stopped
    case _ => true
  }

  lemma {:induction false} DistinctCard(ids: seq<ID>)
    requires Distinct(ids)
    ensures |IdSet(ids)| == |ids|
  {
    if ids != [] {
      var init, last := ids[..|ids|-1], ids[|ids|-1];
      DistinctCard(init);
      assert ids == init + [last];
      assert IdSet(ids) == IdSet(init) + {last};
    }
  }

  lemma SameSet(a: set<ID>, b: set<ID>)
    requires a <= b && |b| <= |a|
    ensures a == b
  {
    assert |b - a| == |b| - |a|;
  }

  /** The poll accepts a listing only when it shows every added container. */
  lemma FoundAll(h0: Host, h: Host, ids: seq<ID>)
    requires Extended(h0, h) && |h.present| == ScaleTarget(|h0.present|)
    requires IdSet(ids) <= h.present && Distinct(ids)
    requires |NewIDs(ids, h0.present)| >= ExpectedNew(|h0.present|)
    ensures var news := NewIDs(ids, h0.present);
            Distinct(news) && h.present == h0.present + IdSet(news) && IdSet(news) !! h0.present
            && |IdSet(news)| == Max(1, |h0.present|)
  {
    var news, added := NewIDs(ids, h0.present), h.present - h0.present;
    NewIDsAreNew(ids, h0.present);
    DistinctCard(news);
    assert h.present == h0.present + added;
    assert |added| == |h.present| - |h0.present|;
    SameSet(IdSet(news), added);
  }

  lemma SuffixSet(ids: seq<ID>, i: nat)
    requires i < |ids| && Distinct(ids)
    ensures IdSet(ids[i..]) == {ids[i]} + IdSet(ids[i+1..]) && ids[i] !in IdSet(ids[i+1..])
    ensures ids[0..] == ids && IdSet(ids[|ids|..]) == {} && ids[i] in IdSet(ids)
  {
    assert ids[i..] == [ids[i]] + ids[i+1..];
  }

  /** What compose adds completes the scale, or part of it. */
  lemma ScaledHost(h0: Host, e: Event)
    requires ValidHost(h0) && e.ScaledUp? && e.scale == ScaleTarget(|h0.present|)
    requires Truthful(h0, EnvReady(h0.present), e)
    ensures var h := Apply(h0, e);
            && ValidHost(h) && Extended(h0, h) && |h.present| <= ScaleTarget(|h0.present|)
            && (e.ok ==> |h.present| == ScaleTarget(|h0.present|))
  {
    assert |h0.present + e.added| == |h0.present| + |e.added|;
  }

  lemma HostScaling(s: State, h0: Host, h: Host, e: Event, s': State)
    requires s.Start? || s.Captured? || s.EnvReady?
    requires HostInv(s, h0, h) && Step(s, e) == Some(s') && Truthful(h, s, e)
    ensures HostInv(s', h0, Apply(h, e)) && Tidy(s', h0, Apply(h, e))
  {
    hide NewIDs, IdSet, Distinct, PriorIntact, NewsServe;
    if s.EnvReady? {
      ScaledHost(h0, e);
      hide Apply, Truthful, ValidHost, Extended, ScaleTarget;
    }
  }

  lemma HostPolling(s: State, h0: Host, h: Host, e: Event, s': State)
    requires s.Polling?
    requires HostInv(s, h0, h) && Step(s, e) == Some(s') && Truthful(h, s, e)
    ensures HostInv(s', h0, Apply(h, e)) && Tidy(s', h0, Apply(h, e))
  {
    assert Apply(h, e) == h && s.prior == h0.present && (e.Listed? ==> !s.waiting);
    hide Apply, IdSet, Distinct, NewIDs, ScaleTarget, ExpectedNew;
    if s'.Checking? {
      FoundAll(h0, h, e.ids.value);
      assert PriorIntact(h0, h, s'.news) by { ValidCap(h0, h); }
      assert |s'.news| >= ExpectedNew(|h0.present|);
      Expected(|h0.present|);
      hide PriorIntact, Extended, ValidHost;
    }
  }

  lemma ValidCap(h0: Host, h: Host)
    requires ValidHost(h0) && Extended(h0, h)
    ensures h.stopped * h0.present <= h0.stopped
  {
  }

  lemma Expected(n: nat)
    ensures ExpectedNew(n) == Max(1, n) && ScaleTarget(n) == n + Max(1, n)
  {
  }

  /** Stopping or removing a new container leaves the pre-existing ones as they are. */
  lemma CleanNew(h0: Host, h: Host, news: seq<ID>, e: Event)
    requires ValidHost(h) && PriorIntact(h0, h, news) && (e.Stopped? || e.Removed?) && e.id in news
    ensures ValidHost(Apply(h, e)) && PriorIntact(h0, Apply(h, e), news)
  {
    assert e.id in IdSet(news);
  }

  /** Stopping or removing a pre-existing container leaves the new ones as they are. */
  lemma CleanPrior(h0: Host, h: Host, news: seq<ID>, e: Event)
    requires ValidHost(h) && NewsServe(h0, h, news) && (e.Stopped? || e.Removed?) && e.id in h0.present
    ensures ValidHost(Apply(h, e)) && NewsServe(h0, Apply(h, e), news)
  {
    assert e.id !in IdSet(news);
  }

  lemma HostStep(s: State, h0: Host, h: Host, e: Event, s': State)
    requires HostInv(s, h0, h) && Step(s, e) == Some(s') && Truthful(h, s, e)
    ensures HostInv(s', h0, Apply(h, e))
  {
    if s.Checking? {
      HostChecking(s, h0, h, e, s');
    } else if s.RollingBack? {
      hide ValidHost, PriorIntact, NewsServe, Extended;
      CleanNew(h0, h, s.news, e);
    } else if s.Draining? {
      hide ValidHost, PriorIntact, NewsServe, Extended;
      CleanPrior(h0, h, s.news, e);
    } else {
      hide HostInv;
      if s.Polling? {
        HostPolling(s, h0, h, e, s');
      } else {
        HostScaling(s, h0, h, e, s');
      }
    }
  }

  lemma HostChecking(s: State, h0: Host, h: Host, e: Event, s': State)
    requires s.Checking? && HostInv(s, h0, h) && Step(s, e) == Some(s')
    ensures HostInv(s', h0, Apply(h, e))
  {
    assert NewsServe(h0, h, s.news);
    hide ValidHost, PriorIntact, NewsServe, Extended;
  }

  /** A rollout turns to draining with the pre-existing containers as they were. */
  lemma CheckedHost(h0: Host, h: Host, news: seq<ID>)
    requires ValidHost(h0) && Extended(h0, h) && h.present == h0.present + IdSet(news)
    ensures h.stopped <= h0.stopped * h0.present
    ensures h0.present == {} ==> h == Host(IdSet(news), {})
  {
  }

  lemma CheckingHost(s: State, h0: Host, h: Host)
    requires s.Checking? && HostInv(s, h0, h)
    ensures s.prior == h0.present && h.present == h0.present + IdSet(s.news) && h.stopped <= h0.stopped
    ensures h.stopped <= h0.stopped * h0.present && (h0.present == {} ==> h == Host(IdSet(s.news), {}))
  {
    hide IdSet, NewsServe;
    CheckedHost(h0, h, s.news);
  }

  lemma TidyChecking(s: State, h0: Host, h: Host, e: Event, s': State)
    requires s.Checking? && HostInv(s, h0, h) && Step(s, e) == Some(s') && Tidy(s, h0, h)
    ensures Tidy(s', h0, Apply(h, e))
  {
    hide IdSet, Distinct, NewIDs, Max, HostInv;
    CheckingHost(s, h0, h);
    SuffixSet(s.news, 0);
    assert h0.stopped + {} == h0.stopped && h.stopped <= h0.stopped * h0.present + {};
  }

  lemma TidyRollbackStop(s: State, h0: Host, h: Host, e: Event, s': State)
    requires s.RollingBack? && !s.stopTried && HostInv(s, h0, h) && Tidy(s, h0, h)
    requires Step(s, e) == Some(s') && Truthful(h, s, e) && CleanupSucceeds(e)
    ensures Tidy(s', h0, Apply(h, e))
  {
    hide IdSet, Distinct;
    SuffixSet(s.news, s.i);
    hide HostInv;
    assert Apply(h, e) == h.(stopped := h.stopped + {s.news[s.i]});
  }

  /** Removing a stopped container takes it out of the host, and nothing else. */
  lemma RemoveNew(h: Host, prior: set<ID>, id: ID, rest: set<ID>, stopped: set<ID>)
    requires h.present == prior + ({id} + rest) && h.stopped <= stopped + {id}
    requires stopped <= prior && id !in prior && id !in rest
    ensures var r := Apply(h, Removed(id, true, true)); r.present == prior + rest && r.stopped <= stopped
    ensures rest == {} ==> prior + rest == prior
  {
  }

  lemma RemovePrior(h: Host, left: set<ID>, news: set<ID>, id: ID, stopped: set<ID>)
    requires h.present == left + news && h.stopped <= stopped * left + {id} && id in left && id !in news
    ensures var r := Apply(h, Removed(id, true, true));
            r.present == left - {id} + news && r.stopped <= stopped * (left - {id})
    ensures left - {id} == {} ==> Apply(h, Removed(id, true, true)) == Host(news, {})
  {
  }

  lemma TidyRollbackRemove(s: State, h0: Host, h: Host, e: Event, s': State)
    requires s.RollingBack? && s.stopTried && HostInv(s, h0, h) && Tidy(s, h0, h)
    requires Step(s, e) == Some(s') && Truthful(h, s, e) && CleanupSucceeds(e)
    ensures Tidy(s', h0, Apply(h, e))
  {
    hide IdSet, Distinct, NewIDs, Max, Apply;
    SuffixSet(s.news, s.i);
    RemoveNew(h, s.prior, s.news[s.i], IdSet(s.news[s.i+1..]), h0.stopped);
    hide HostInv, PriorIntact, NewsServe, ValidHost;
  }

  lemma TidyDrainStop(s: State, h0: Host, h: Host, e: Event, s': State)
    requires s.Draining? && e.Stopped? && HostInv(s, h0, h) && Tidy(s, h0, h)
    requires Step(s, e) == Some(s') && Truthful(h, s, e) && CleanupSucceeds(e)
    ensures Tidy(s', h0, Apply(h, e))
  {
    hide IdSet, Distinct, NewIDs, Max, PriorIntact, NewsServe, ValidHost;
  }

  lemma DrainFacts(s: State, h0: Host, h: Host, e: Event)
    requires s.Draining? && (e.Stopped? || e.Removed?) && s.current == Some(e.id)
    requires HostInv(s, h0, h) && Tidy(s, h0, h)
    ensures h.present == s.left + IdSet(s.news) && h.stopped <= h0.stopped * s.left + {e.id}
    ensures e.id in s.left && e.id !in IdSet(s.news)
  {
    hide IdSet;
  }

  lemma TidyStartDrain(prior: set<ID>, news: seq<ID>, left: set<ID>, h0: Host, h: Host)
    requires h.present == left + IdSet(news) && h.stopped <= h0.stopped * left
    requires left == {} ==> h == Host(IdSet(news), {})
    ensures Tidy(StartDrain(prior, news, left), h0, h)
  {
    hide IdSet;
  }

  lemma TidyDrainRemove(s: State, h0: Host, h: Host, e: Event, s': State)
    requires s.Draining? && e.Removed? && HostInv(s, h0, h) && Tidy(s, h0, h)
    requires Step(s, e) == Some(s') && Truthful(h, s, e) && CleanupSucceeds(e)
    ensures Tidy(s', h0, Apply(h, e))
  {
    hide HostInv, Tidy, Apply, IdSet;
    assert e == Removed(e.id, true, true) && s.current == Some(e.id) && s' == StartDrain(s.prior, s.news, s.left - {e.id});
    hide Step, StartDrain;
    DrainFacts(s, h0, h, e);
    RemovePrior(h, s.left, IdSet(s.news), e.id, h0.stopped);
    TidyStartDrain(s.prior, s.news, s.left - {e.id}, h0, Apply(h, e));
  }

  lemma TidyStep(s: State, h0: Host, h: Host, e: Event, s': State)
    requires HostInv(s, h0, h) && Tidy(s, h0, h)
    requires Step(s, e) == Some(s') && Truthful(h, s, e) && CleanupSucceeds(e)
    ensures Tidy(s', h0, Apply(h, e))
  {
    hide Tidy;
    if s.Checking? {
      TidyChecking(s, h0, h, e, s');
    } else if s.RollingBack? {
      if s.stopTried {
        TidyRollbackRemove(s, h0, h, e, s');
      } else {
        TidyRollbackStop(s, h0, h, e, s');
      }
    } else if s.Draining? {
      if e.Stopped? {
        TidyDrainStop(s, h0, h, e, s');
      } else {
        TidyDrainRemove(s, h0, h, e, s');
      }
    } else {
      if s.Polling? {
        HostPolling(s, h0, h, e, s');
      } else {
        HostScaling(s, h0, h, e, s');
      }
    }
  }

  // ---------- What the invariants mean for the service ----------

  lemma SubsetCard(a: set<ID>, b: set<ID>)
    requires a <= b
    ensures |a| <= |b|
  {
    assert |b - a| == |b| - |a|;
  }

  lemma IntactBounds(h0: Host, h: Host, news: seq<ID>)
    requires ValidHost(h0) && PriorIntact(h0, h, news)
    ensures |Serving(h)| >= |Serving(h0)|
    ensures |h0.present| <= |h.present| <= ScaleTarget(|h0.present|)
  {
    SubsetCard(Serving(h0), Serving(h));
    SubsetCard(h0.present, h.present);
    SubsetCard(h.present, h0.present + IdSet(news));
  }

  lemma ReplacedBounds(h0: Host, h: Host, news: seq<ID>)
    requires ValidHost(h0) && NewsServe(h0, h, news)
    ensures |Serving(h)| >= |Serving(h0)|
    ensures |h0.present| <= |h.present| <= ScaleTarget(|h0.present|)
  {
    SubsetCard(Serving(h0), h0.present);
    SubsetCard(IdSet(news), Serving(h));
    SubsetCard(IdSet(news), h.present);
    SubsetCard(h.present, h0.present + IdSet(news));
  }

  /**
   At every step of every rollout, whatever fails: at least as many containers run as when it
   began, and the number present stays between n and 2n (0 and 1 for a first deploy).
   */
  lemma ReplicaBounds(s: State, h0: Host, h: Host)
    requires HostInv(s, h0, h)
    ensures |Serving(h)| >= |Serving(h0)|
    ensures |h0.present| <= |h.present| <= ScaleTarget(|h0.present|)
  {
    if s.Checking? || s.RollingBack? || (s.Ended? && s.outcome == HealthFailed) {
      IntactBounds(h0, h, s.news);
    } else if s.Draining? || (s.Ended? && s.outcome == Succeeded) {
      ReplacedBounds(h0, h, s.news);
    } else {
      SubsetCard(Serving(h0), Serving(h));
      SubsetCard(h0.present, h.present);
    }
  }

  /** The replicas a finished rollout leaves when its stop and remove calls succeeded. */
  lemma FinalReplicas(s: State, h0: Host, h: Host)
    requires HostInv(s, h0, h) && Tidy(s, h0, h) && s.Ended?
    ensures match s.outcome
            case Succeeded => h.stopped == {} && |h.present| == Max(1, |h0.present|) && h.present !! h0.present
            case PollFailed => |h.present| == ScaleTarget(|h0.present|) && h0.present <= h.present
            case ComposeFailed => h0.present <= h.present
            case HealthFailed => h.present == h0.present && h.stopped <= h0.stopped
            case _ => h == h0
  {
  }
}
