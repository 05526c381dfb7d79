/**
 Exactly which containers a rollout leaves, whichever of its calls fail: what compose added
 comes in, what a removal took goes out, and nothing else changes.
 */
module RolloutOutcome {
  import opened Options
  import opened RolloutProtocol
  import opened RolloutHost

  /** The host after these calls. */
  function After(h0: Host, es: seq<Event>): Host {
    if es == [] then h0 else Apply(After(h0, es[..|es|-1]), es[|es|-1])
  }

  /** Docker keeps its part at every call. */
  ghost predicate TruthfulTrace(h0: Host, es: seq<Event>) {
    es == [] ||
    var init, e := es[..|es|-1], es[|es|-1];
    TruthfulTrace(h0, init) && Run(init).Some? && Truthful(After(h0, init), Run(init).value, e)
  }

  /** The containers compose added. */
  function Added(es: seq<Event>): set<ID> {
    if es == [] then {}
    else
      var e := es[|es|-1];
      Added(es[..|es|-1]) + if e.ScaledUp? then e.added else {}
  }

  /** The stopped containers compose started again. */
  function Started(es: seq<Event>): set<ID> {
    if es == [] then {}
    else
      var e := es[|es|-1];
      Started(es[..|es|-1]) + if e.ScaledUp? then e.started else {}
  }

  /** The containers some removal took. */
  function Gone(es: seq<Event>): set<ID> {
    if es == [] then {}
    else
      var e := es[|es|-1];
      Gone(es[..|es|-1]) + if e.Removed? && e.took then {e.id} else {}
  }

  /** The protocol and the host after a trace. */
  ghost predicate Reached(h0: Host, es: seq<Event>, s: State, h: Host) {
    Run(es) == Some(s) && TruthfulTrace(h0, es) && After(h0, es) == h
  }

  lemma Begin(h0: Host)
    ensures Reached(h0, [], Start, h0)
  {
  }

  lemma Extend(h0: Host, es: seq<Event>, s: State, h: Host, e: Event, s': State)
    requires Reached(h0, es, s, h) && Step(s, e) == Some(s') && Truthful(h, s, e)
    ensures Reached(h0, es + [e], s', Apply(h, e))
  {
    assert (es + [e])[..|es|] == es;
  }

  lemma {:induction false} RunHost(h0: Host, es: seq<Event>)
    requires ValidHost(h0) && Run(es).Some? && TruthfulTrace(h0, es)
    ensures HostInv(Run(es).value, h0, After(h0, es))
  {
    if es != [] {
      var init, e := es[..|es|-1], es[|es|-1];
      RunHost(h0, init);
      hide HostInv, ValidHost, Truthful, Apply, Step;
      HostStep(Run(init).value, h0, After(h0, init), e, Run(es).value);
    }
  }

  /** Compose has not run, or not been reached. */
  predicate Unscaled(s: State) {
    s.Start? || s.Captured? || s.EnvReady? || (s.Ended? && (s.outcome == ListFailed || s.outcome == EnvFailed))
  }

  lemma UnscaledStep(s: State, e: Event, s': State)
    requires Step(s, e) == Some(s')
    ensures Unscaled(s') ==> Unscaled(s) && !e.ScaledUp?
    ensures e.ScaledUp? ==> s.EnvReady?
  {
  }

  /** Before compose ran there is nothing added; nothing is removed that no call touched. */
  lemma {:induction false} RunAdded(es: seq<Event>)
    requires Run(es).Some?
    ensures Gone(es) <= Touched(es)
    ensures Unscaled(Run(es).value) ==> Added(es) == {} && Started(es) == {}
  {
    hide Step;
    if es != [] {
      var init, e := es[..|es|-1], es[|es|-1];
      assert es == init + [e];
      RunAdded(init);
      UnscaledStep(Run(init).value, e, Run(es).value);
      hide Run, Unscaled, Listings, OldIDs, FreshIDs, SeenHealthy;
      SnocAccount(init, e);
      SnocFacts(init, e);
    }
  }

  lemma ApplyPresent(h: Host, e: Event)
    ensures Apply(h, e).present ==
              if e.ScaledUp? then h.present + e.added
              else if e.Removed? && e.took then h.present - {e.id} else h.present
  {
  }

  /** The last call of a trace, and what it did to the host. */
  lemma LastCall(h0: Host, es: seq<Event>)
    requires es != [] && Run(es).Some? && TruthfulTrace(h0, es)
    ensures var init, e := es[..|es|-1], es[|es|-1];
            && es == init + [e] && TruthfulTrace(h0, init) && Run(init).Some? && Step(Run(init).value, e).Some?
            && After(h0, es) == Apply(After(h0, init), e) && Step(Run(init).value, e) == Run(es)
            && Truthful(After(h0, init), Run(init).value, e)
            && (e.ScaledUp? ==> e.added !! After(h0, init).present)
  {
    hide Apply, Step;
  }

  /** At every step: what was there, with what compose added, without what removals took. */
  lemma {:induction false} Containers(h0: Host, es: seq<Event>)
    requires ValidHost(h0) && Run(es).Some? && TruthfulTrace(h0, es)
    ensures After(h0, es).present == h0.present + Added(es) - Gone(es)
    ensures Added(es) !! h0.present
  {
    if es == [] {
    } else {
      hide *;
      LastCall(h0, es);
      var init, e := es[..|es|-1], es[|es|-1];
      Containers(h0, init);
      ApplyPresent(After(h0, init), e);
      SnocAccount(init, e);
      Account(h0.present, Added(init), Gone(init), e);
      if e.ScaledUp? {
        ScaledOnce(init, e);
        assert e.added !! h0.present;
      }
    }
  }

  lemma SnocAccount(es: seq<Event>, e: Event)
    ensures Added(es + [e]) == Added(es) + if e.ScaledUp? then e.added else {}
    ensures Started(es + [e]) == Started(es) + if e.ScaledUp? then e.started else {}
    ensures Gone(es + [e]) == Gone(es) + if e.Removed? && e.took then {e.id} else {}
  {
    assert (es + [e])[..|es|] == es;
  }

  lemma Account(prior: set<ID>, added: set<ID>, gone: set<ID>, e: Event)
    ensures e.ScaledUp? && gone == {} ==> prior + added - gone + e.added == prior + (added + e.added) - (gone + {})
    ensures e.Removed? ==> prior + added - gone - {e.id} == prior + (added + {}) - (gone + {e.id})
    ensures added + {} == added && gone + {} == gone
  {
  }

  /** Compose runs once, before any container is touched. */
  lemma ScaledOnce(es: seq<Event>, e: Event)
    requires Run(es).Some? && Step(Run(es).value, e).Some? && e.ScaledUp?
    ensures Added(es) == {} && Started(es) == {} && Gone(es) == {}
  {
    hide Step, Run;
    UnscaledStep(Run(es).value, e, Step(Run(es).value, e).value);
    RunAdded(es);
    RunFacts(es);
  }

  /** The poll that succeeds finds all that compose added, and that does not change any more. */
  lemma {:induction false} NewsAreAdded(h0: Host, es: seq<Event>)
    requires ValidHost(h0) && Run(es).Some? && TruthfulTrace(h0, es)
    ensures HasNews(Run(es).value) ==> Added(es) == IdSet(Run(es).value.news)
  {
    if es != [] {
      var init, e := es[..|es|-1], es[|es|-1];
      NewsAreAdded(h0, init);
      var s, s' := Run(init).value, Run(es).value;
      if s.Polling? && s'.Checking? {
        RunHost(h0, es);
        Containers(h0, es);
        RunFacts(es);
        RunAdded(es);
        JustFound(s', h0, After(h0, es), Added(es), Gone(es), FactsOf(es));
      } else if HasNews(s') {
        NewsKept(s, e, s');
      }
      hide Run, FactsInv, TruthfulTrace, After, NewIDs;
    }
  }

  predicate HasNews(s: State) {
    s.Checking? || s.RollingBack? || s.Draining?
    || (s.Ended? && (s.outcome == Succeeded || s.outcome == HealthFailed))
  }

  lemma NewsKept(s: State, e: Event, s': State)
    requires Step(s, e) == Some(s') && HasNews(s') && !(s.Polling? && s'.Checking?)
    ensures HasNews(s) && s.news == s'.news && !e.ScaledUp?
  {
  }

  lemma JustFound(s: State, h0: Host, h: Host, added: set<ID>, gone: set<ID>, f: Facts)
    requires s.Checking? && HostInv(s, h0, h) && FactsInv(s, f) && gone <= f.touched
    requires h.present == h0.present + added - gone && added !! h0.present
    ensures added == IdSet(s.news)
  {
    assert gone == {};
    hide FactsInv;
    assert IdSet(s.news) !! h0.present;
    hide *;
    assert forall id :: id in added <==> id in h.present && id !in h0.present;
  }

  /** The pre-existing containers of the trace are those of the host. */
  lemma OldAreHosts(h0: Host, es: seq<Event>)
    requires ValidHost(h0) && Run(es).Some? && TruthfulTrace(h0, es) && Run(es).value.Ended?
    ensures Run(es).value.outcome != ListFailed ==> OldIDs(es) == h0.present
  {
    hide FactsInv, HostInv, OldIDs, Run, After, TruthfulTrace;
    RunFacts(es);
    RunHost(h0, es);
    if Run(es).value.outcome != ListFailed {
      SamePrior(Run(es).value, FactsOf(es), h0, After(h0, es));
    }
  }

  lemma SamePrior(s: State, f: Facts, h0: Host, h: Host)
    requires s.Ended? && s.outcome != ListFailed && FactsInv(s, f) && HostInv(s, h0, h)
    ensures f.prior == h0.present
  {
    hide IdSet;
  }

  /** The rollout has not come to draining the old containers. */
  predicate Undrained(s: State) { !s.Draining? && !(s.Ended? && s.outcome == Succeeded) }

  lemma StoppedStep(s: State, h0: Host, h: Host, e: Event, s': State)
    requires HostInv(s, h0, h) && Step(s, e) == Some(s') && Truthful(h, s, e) && Undrained(s')
    ensures Undrained(s)
    ensures Apply(h, e).stopped * h0.present == h.stopped * h0.present - if e.ScaledUp? then e.started else {}
    ensures e.ScaledUp? ==> h == h0 && e.started <= h0.stopped
  {
    hide NewIDs, Distinct;
    assert s.RollingBack? ==> IdSet(s.news) !! h0.present;
    assert e.Stopped? || e.Removed? ==> s.RollingBack? && e.id in IdSet(s.news);
    hide *;
    StoppedOf(h, e, h0.present);
  }

  lemma StoppedOf(h: Host, e: Event, prior: set<ID>)
    requires e.Stopped? || e.Removed? ==> e.id !in prior
    ensures Apply(h, e).stopped * prior == h.stopped * prior - if e.ScaledUp? then e.started else {}
  {
  }

  /** Until the drain, the stopped ones of the old containers are those compose has not started. */
  lemma {:induction false} StoppedPrior(h0: Host, es: seq<Event>)
    requires ValidHost(h0) && Run(es).Some? && TruthfulTrace(h0, es) && Undrained(Run(es).value)
    ensures After(h0, es).stopped * h0.present == h0.stopped - Started(es) && Started(es) <= h0.stopped
  {
    if es == [] {
      assert h0.stopped * h0.present == h0.stopped - {};
    } else {
      hide *;
      LastCall(h0, es);
      var init, e := es[..|es|-1], es[|es|-1];
      RunHost(h0, init);
      StoppedStep(Run(init).value, h0, After(h0, init), e, Run(es).value);
      StoppedPrior(h0, init);
      SnocAccount(init, e);
      if e.ScaledUp? {
        ScaledOnce(init, e);
      }
    }
  }

  /**
   After a failure the host is as before if no container is missing or new and compose has
   started none that was stopped.
   */
  lemma FailedHost(h0: Host, es: seq<Event>)
    requires ValidHost(h0) && Run(es).Some? && TruthfulTrace(h0, es)
    requires Run(es).value.Ended? && Run(es).value.outcome != Succeeded
    ensures var h := After(h0, es);
            && h.stopped * h0.present == h0.stopped - Started(es) && Started(es) <= h0.stopped
            && (h == h0 <==> h.present == h0.present && Started(es) == {})
  {
    hide *;
    var h := After(h0, es);
    StoppedPrior(h0, es) by { Undrains(Run(es).value); }
    RunHost(h0, es);
    HostIsValid(Run(es).value, h0, h);
    SameHost(h0, h, Started(es));
  }

  lemma Undrains(s: State)
    requires s.Ended? && s.outcome != Succeeded
    ensures Undrained(s)
  {
  }

  lemma HostIsValid(s: State, h0: Host, h: Host)
    requires HostInv(s, h0, h)
    ensures h0.stopped <= h0.present && h.stopped <= h.present
  {
  }

  lemma SameHost(h0: Host, h: Host, started: set<ID>)
    requires h0.stopped <= h0.present && h.stopped <= h.present && started <= h0.stopped
    requires h.stopped * h0.present == h0.stopped - started
    ensures h == h0 <==> h.present == h0.present && started == {}
  {
    if h == h0 {
      assert h0.stopped * h0.present == h0.stopped;
      assert forall id :: id in started ==> id in h0.stopped - started;
    }
    if h.present == h0.present && started == {} {
      assert h.stopped * h.present == h.stopped;
    }
  }

  /** The removals of a rollback only take what compose added. */
  lemma RollbackGone(h0: Host, es: seq<Event>)
    requires ValidHost(h0) && Run(es).Some? && TruthfulTrace(h0, es)
    requires Run(es).value.Ended? && Run(es).value.outcome == HealthFailed
    ensures Gone(es) <= Added(es)
  {
    hide Run, HostInv, TruthfulTrace, NewIDs;
    NewsAreAdded(h0, es);
    RunFacts(es);
    RunAdded(es);
  }

  /** The replacements of a rollout that succeeds are what compose added, and they run. */
  lemma AddedServe(h0: Host, es: seq<Event>)
    requires ValidHost(h0) && Run(es).Some? && TruthfulTrace(h0, es)
    requires Run(es).value.Ended? && Run(es).value.outcome == Succeeded
    ensures |Added(es)| == Max(1, |h0.present|) && Added(es) <= Serving(After(h0, es))
    ensures Gone(es) <= OldIDs(es)
  {
    hide Run, TruthfulTrace, NewIDs, Replaced;
    NewsAreAdded(h0, es);
    RunHost(h0, es);
    RunAdded(es);
    ZeroDowntime(es);
  }

  /**
   The containers every finished rollout leaves, whichever stop and remove calls failed. A
   success leaves no old container if and only if removals took them all. A failed health wait
   leaves the containers there were if and only if removals took all that compose added, a failed
   compose if and only if compose had added nothing, and a failed poll never. The host is then as
   before if and only if, besides, compose has started no stopped container again.
   */
  lemma OutcomeContainers(h0: Host, es: seq<Event>)
    requires ValidHost(h0) && Run(es).Some? && TruthfulTrace(h0, es) && Run(es).value.Ended?
    ensures var h := After(h0, es);
            && h.present == h0.present + Added(es) - Gone(es) && Added(es) !! h0.present
            && match Run(es).value.outcome
               case Succeeded =>
                 && |Added(es)| == Max(1, |h0.present|) && Added(es) <= Serving(h)
                 && Gone(es) <= h0.present && (h.present !! h0.present <==> h0.present <= Gone(es))
               case HealthFailed =>
                 && Gone(es) <= Added(es) && (h.present == h0.present <==> Added(es) <= Gone(es))
                 && (h == h0 <==> Added(es) <= Gone(es) && Started(es) == {})
               case ComposeFailed =>
                 && h.present == h0.present + Added(es) && (h.present == h0.present <==> Added(es) == {})
                 && (h == h0 <==> Added(es) == {} && Started(es) == {})
               case PollFailed =>
                 h.present == h0.present + Added(es) && |Added(es)| == Max(1, |h0.present|) && h != h0
               case _ => h == h0
  {
    hide Run, HostInv, ValidHost, Replaced, OldIDs, FreshIDs, Touched, Gone, Added, Started, After, TruthfulTrace, IdSet;
    var s, h := Run(es).value, After(h0, es);
    Containers(h0, es);
    RunHost(h0, es);
    if s.outcome != Succeeded {
      FailedHost(h0, es);
    }
    match s.outcome {
      case Succeeded =>
        AddedServe(h0, es);
        OldAreHosts(h0, es);
      case HealthFailed =>
        RollbackGone(h0, es);
      case ComposeFailed =>
        NothingGone(es);
      case PollFailed =>
        NothingGone(es);
        PollAdded(s, h0, h, Added(es));
      case _ =>
        RunAdded(es);
        NothingGone(es);
    }
  }

  lemma NothingGone(es: seq<Event>)
    requires Run(es).Some? && Run(es).value.Ended?
    requires Run(es).value.outcome != Succeeded && Run(es).value.outcome != HealthFailed
    ensures Gone(es) == {}
  {
    hide Run;
    ZeroDowntime(es);
    RunAdded(es);
  }

  lemma PollAdded(s: State, h0: Host, h: Host, added: set<ID>)
    requires HostInv(s, h0, h) && s.Ended? && s.outcome == PollFailed
    requires h.present == h0.present + added && added !! h0.present
    ensures |added| == Max(1, |h0.present|)
  {
    assert |h.present| == |h0.present| + |added|;
  }

  // ---------- Rollouts that leave more than they should ----------

  /** A rollout that succeeds although the old container could not be removed. */
  lemma OldContainerStays(a: ID, b: ID) returns (es: seq<Event>)
    requires a != b
    ensures var h0 := Host({a}, {});
            && ValidHost(h0) && Run(es) == Some(Ended({a}, [b], Succeeded)) && TruthfulTrace(h0, es)
            && After(h0, es) == Host({a, b}, {})
  {
    var h0, h := Host({a}, {}), Host({a, b}, {});
    es := ScaledTo(a, b, true);
    hide Reached, TruthfulTrace, After, Run, NewIDs, IdSet;
    ListedBoth(a, b);
    es := Next(h0, es, Polling({a}, 0, false), h, Listed(Some([a, b])), Checking({a}, [b], 0, false));
    es := Next(h0, es, Checking({a}, [b], 0, false), h, Inspected(b, Some(Healthy)), Draining({a}, [b], {a}, None));
    es := Next(h0, es, Draining({a}, [b], {a}, None), h, Stopped(a, false, false), Draining({a}, [b], {a}, Some(a)));
    es := Next(h0, es, Draining({a}, [b], {a}, Some(a)), h, Removed(a, false, false), Ended({a}, [b], Succeeded));
    ReachedIs(h0, es, Ended({a}, [b], Succeeded), h);
  }

  /** A rollout that fails in compose and leaves the container compose had added. */
  lemma ComposeLeavesContainer(a: ID, b: ID) returns (es: seq<Event>)
    requires a != b
    ensures var h0 := Host({a}, {});
            && ValidHost(h0) && Run(es) == Some(Ended({a}, [], ComposeFailed)) && TruthfulTrace(h0, es)
            && After(h0, es) == Host({a, b}, {})
  {
    es := ScaledTo(a, b, false);
  }

  /** A rollout that fails in the poll and leaves what compose had added. */
  lemma PollLeavesContainer(a: ID, b: ID) returns (es: seq<Event>)
    requires a != b
    ensures var h0 := Host({a}, {});
            && ValidHost(h0) && Run(es) == Some(Ended({a}, [], PollFailed)) && TruthfulTrace(h0, es)
            && After(h0, es) == Host({a, b}, {})
  {
    var h0, h := Host({a}, {}), Host({a, b}, {});
    es := ScaledTo(a, b, true);
    es := Next(h0, es, Polling({a}, 0, false), h, Listed(None), Ended({a}, [], PollFailed));
  }

  /** One container runs; compose adds a second one, and then reports success or failure. */
  lemma ScaledTo(a: ID, b: ID, ok: bool) returns (es: seq<Event>)
    requires a != b
    ensures Reached(Host({a}, {}), es, if ok then Polling({a}, 0, false) else Ended({a}, [], ComposeFailed), Host({a, b}, {}))
  {
    var h0 := Host({a}, {});
    assert IdSet([a]) == {a} && {a} + {b} == {a, b};
    Begin(h0);
    hide Reached, IdSet;
    es := Next(h0, [], Start, h0, Listed(Some([a])), Captured({a}));
    es := Next(h0, es, Captured({a}), h0, EnvPrepared(true), EnvReady({a}));
    es := Next(h0, es, EnvReady({a}), h0, ScaledUp(2, ok, {b}, {}), if ok then Polling({a}, 0, false) else Ended({a}, [], ComposeFailed));
  }

  lemma ListedBoth(a: ID, b: ID)
    requires a != b
    ensures NewIDs([a, b], {a}) == [b] && IdSet([a, b]) == {a, b} && Distinct([a, b])
  {
    assert [a, b][..1] == [a] && [a][..0] == [];
    assert NewIDs([a], {a}) == [];
  }

  lemma Next(h0: Host, es: seq<Event>, s: State, h: Host, e: Event, s': State) returns (es': seq<Event>)
    requires Reached(h0, es, s, h) && Step(s, e) == Some(s') && Truthful(h, s, e)
    ensures es' == es + [e] && Reached(h0, es', s', Apply(h, e))
  {
    hide Reached;
    es' := es + [e];
    Extend(h0, es, s, h, e, s');
  }

  lemma ReachedIs(h0: Host, es: seq<Event>, s: State, h: Host)
    requires Reached(h0, es, s, h)
    ensures Run(es) == Some(s) && TruthfulTrace(h0, es) && After(h0, es) == h
  {
  }
}
