/**
 The rollout itself, step by step, against a Docker host whose replies are arbitrary.
 Each method follows the calls of the Go function of the same name and is proved to keep
 to the protocol; the protocol's theorems then hold of what the method did.
 */
module Rollout {
  import opened Options
  import opened RolloutProtocol

  const POLL_INTERVAL_MS := 1000

  function Advance(phase: Option<State>, e: Event): Option<State> {
    if phase.None? then None else Step(phase.value, e)
  }

  lemma RunSnoc(es: seq<Event>, e: Event)
    ensures Run(es + [e]) == Advance(Run(es), e)
  {
    assert (es + [e])[..|es|] == es;
  }

  /** A pause while a container is still starting. */
  predicate Pausing(e: Event) { e.Waited? || (e.Inspected? && e.health == Some(Starting)) }

  /** The waits after these all took `ms`. */
  predicate Paused(before: seq<nat>, after: seq<nat>, ms: nat) {
    before <= after && forall k :: |before| <= k < |after| ==> after[k] == ms
  }

  /**
   Everything a rollout talks to: the daemon, the compose subprocess, the temp env file and the
   clock. Replies and failures are arbitrary; `trace` records them and `phase` is where the
   protocol stands. `since` is when the last event came that is no pause in waiting for a
   container; `timeouts` has the time passed since then at each time-out, `pauses` each wait.
   */
  class DockerHost {
    ghost var trace: seq<Event>
    ghost var phase: Option<State>
    ghost var listings: nat
    ghost var inspections: nat
    ghost var since: int
    ghost var timeouts: seq<int>
    ghost var pauses: seq<nat>
    var now: int  // milliseconds

    ghost predicate Valid() reads this { phase == Run(trace) && since <= now }

    constructor ()
      ensures Valid() && trace == [] && phase == Some(Start) && listings == inspections == 0
      ensures timeouts == [] && pauses == []
    {
      trace, phase, listings, inspections, timeouts, pauses := [], Some(Start), 0, 0, [], [];
      now := *;
      since := now;
    }

    ghost method Record(e: Event)
      requires Valid()
      modifies `trace, `phase, `since, `timeouts
      ensures Valid() && trace == old(trace) + [e] && phase == Advance(old(phase), e)
      ensures since == if Pausing(e) then old(since) else now
      ensures timeouts == old(timeouts) + if e.TimedOut? then [now - old(since)] else []
    {
      RunSnoc(trace, e);
      if e.TimedOut? {
        timeouts := timeouts + [now - since];
      }
      since := if Pausing(e) then since else now;
      trace, phase := trace + [e], Advance(phase, e);
    }

    method Clock() returns (t: int)
      modifies `now
      ensures t == now >= old(now)
    {
      var elapsed :| 0 <= elapsed;
      now := now + elapsed;
      t := now;
    }

    method ListServiceContainers() returns (ids: Option<seq<ID>>)
      requires Valid()
      modifies `trace, `phase, `since, `timeouts, `listings
      ensures Valid() && trace == old(trace) + [Listed(ids)] && phase == Advance(old(phase), Listed(ids))
      ensures listings == old(listings) + 1 && timeouts == old(timeouts)
    {
      ids := *;
      Record(Listed(ids));
      listings := listings + 1;
    }

    method WriteTempEnv() returns (ok: bool)
      requires Valid()
      modifies `trace, `phase, `since, `timeouts
      ensures timeouts == old(timeouts)
      ensures Valid() && trace == old(trace) + [EnvPrepared(ok)] && phase == Advance(old(phase), EnvPrepared(ok))
    {
      ok := *;
      Record(EnvPrepared(ok));
    }

    method ComposeUp(scale: nat) returns (ok: bool, ghost added: set<ID>, ghost started: set<ID>)
      requires Valid()
      modifies `trace, `phase, `since, `timeouts
      ensures timeouts == old(timeouts)
      ensures Valid() && trace == old(trace) + [ScaledUp(scale, ok, added, started)]
      ensures phase == Advance(old(phase), ScaledUp(scale, ok, added, started))
    {
      ok := *;
      added, started := *, *;
      Record(ScaledUp(scale, ok, added, started));
    }

    method InspectContainer(id: ID) returns (health: Option<Health>)
      requires Valid()
      modifies `trace, `phase, `since, `timeouts, `inspections
      ensures Valid() && trace == old(trace) + [Inspected(id, health)]
      ensures phase == Advance(old(phase), Inspected(id, health)) && inspections == old(inspections) + 1
      ensures timeouts == old(timeouts) && (health == Some(Starting) ==> since == old(since))
    {
      health := *;
      Record(Inspected(id, health));
      inspections := inspections + 1;
    }

    method StopContainer(id: ID) returns (ok: bool, ghost took: bool)
      requires Valid()
      modifies `trace, `phase, `since, `timeouts
      ensures timeouts == old(timeouts)
      ensures Valid() && trace == old(trace) + [Stopped(id, ok, took)]
      ensures phase == Advance(old(phase), Stopped(id, ok, took))
    {
      ok, took := *, *;
      Record(Stopped(id, ok, took));
    }

    method RemoveContainer(id: ID) returns (ok: bool, ghost took: bool)
      requires Valid()
      modifies `trace, `phase, `since, `timeouts
      ensures timeouts == old(timeouts)
      ensures Valid() && trace == old(trace) + [Removed(id, ok, took)]
      ensures phase == Advance(old(phase), Removed(id, ok, took))
    {
      ok, took := *, *;
      Record(Removed(id, ok, took));
    }

    /** Waits for `ms` to pass or for the context to be cancelled. */
    method Wait(ms: nat) returns (cancelled: bool)
      requires Valid()
      modifies `trace, `phase, `since, `timeouts, `pauses, `now
      ensures Valid() && var e := if cancelled then Cancelled else Waited;
              trace == old(trace) + [e] && phase == Advance(old(phase), e)
      ensures now >= old(now) + if cancelled then 0 else ms
      ensures pauses == old(pauses) + if cancelled then [] else [ms]
      ensures timeouts == old(timeouts) && (!cancelled ==> since == old(since))
    {
      cancelled := *;
      var elapsed :| 0 <= elapsed;
      now := now + elapsed + if cancelled then 0 else ms;
      if !cancelled {
        pauses := pauses + [ms];
      }
      Record(if cancelled then Cancelled else Waited);
    }
  }

  /** The most often one container can be inspected before its deadline. */
  function MaxInspections(timeoutMs: int): nat {
    if timeoutMs < 0 then 0 else timeoutMs / 1000 + 1
  }

  /** Polls one container; true only after it was seen healthy, within the time-out's polls. */
  method WaitHealthy(docker: DockerHost, id: ID, timeoutMs: int) returns (ok: bool)
    requires docker.Valid() && docker.phase.Some? && docker.phase.value.Checking?
    requires var s := docker.phase.value; !s.waiting && s.i < |s.news| && s.news[s.i] == id
    modifies docker
    ensures docker.Valid()
    ensures var s := old(docker.phase.value);
            docker.phase == Some(if !ok then StartRollback(s.prior, s.news, 0)
                                 else if s.i + 1 == |s.news| then StartDrain(s.prior, s.news, s.prior)
                                 else Checking(s.prior, s.news, s.i + 1, false))
    ensures ok ==> docker.trace[|docker.trace|-1..] == [Inspected(id, Some(Healthy))]
    ensures docker.inspections <= old(docker.inspections) + MaxInspections(timeoutMs)
    ensures docker.listings == old(docker.listings)
    ensures !ok ==> docker.trace != [] && GivesUp(docker.trace[|docker.trace|-1])
    ensures ok ==> docker.timeouts == old(docker.timeouts)
    ensures docker.timeouts == old(docker.timeouts)
         || exists waited :: docker.timeouts == old(docker.timeouts) + [waited] && waited > timeoutMs
                             && docker.now > old(docker.now) + timeoutMs
    ensures !ok && docker.trace[|docker.trace|-1].TimedOut? ==> docker.now > old(docker.now) + timeoutMs
    ensures Paused(old(docker.pauses), docker.pauses, 1000)
  {
    hide Run, NewIDs;
    var begun := docker.Clock();
    var deadline := begun + timeoutMs;
    while true
      invariant docker.Valid() && docker.phase == old(docker.phase)
      invariant docker.listings == old(docker.listings) && docker.inspections >= old(docker.inspections)
      invariant docker.now >= begun + POLL_INTERVAL_MS * (docker.inspections - old(docker.inspections))
      invariant docker.inspections == old(docker.inspections)
             || timeoutMs >= POLL_INTERVAL_MS * (docker.inspections - old(docker.inspections) - 1)
      invariant docker.since == old(docker.since) && docker.timeouts == old(docker.timeouts)
      invariant Paused(old(docker.pauses), docker.pauses, 1000)
      decreases deadline + 1 - docker.now
    {
      var t := docker.Clock();
      if t > deadline {
        docker.Record(TimedOut);
        return false;
      }
      var health := docker.InspectContainer(id);
      if health.None? || health == Some(NoHealthcheck) {
        return false;
      }
      match health.value {
        case Healthy => return true;
        case Unhealthy => return false;
        case _ =>
      }
      var cancelled := docker.Wait(POLL_INTERVAL_MS);
      if cancelled {
        return false;
      }
    }
  }

  method RollbackContainers(docker: DockerHost, ids: seq<ID>)
    requires docker.Valid() && exists prior :: docker.phase == Some(StartRollback(prior, ids, 0))
    modifies docker
    ensures docker.Valid()
    ensures forall prior :: old(docker.phase) == Some(StartRollback(prior, ids, 0)) ==>
                              docker.phase == Some(Ended(prior, ids, HealthFailed))
    ensures docker.listings == old(docker.listings) && docker.inspections == old(docker.inspections)
    ensures docker.timeouts == old(docker.timeouts)
  {
    ghost var prior :| docker.phase == Some(StartRollback(prior, ids, 0));
    for i := 0 to |ids|
      invariant docker.Valid() && docker.phase == Some(StartRollback(prior, ids, i))
      invariant docker.listings == old(docker.listings) && docker.inspections == old(docker.inspections)
      invariant docker.timeouts == old(docker.timeouts)
    {
      var stopped, stopTook := docker.StopContainer(ids[i]);
      var removed, removeTook := docker.RemoveContainer(ids[i]);
    }
  }

  method FindNewContainers(docker: DockerHost, prior: set<ID>) returns (found: Option<seq<ID>>)
    requires docker.Valid()
    modifies docker
    ensures docker.Valid() && docker.listings == old(docker.listings) + 1 && docker.inspections == old(docker.inspections)
    ensures docker.trace != [] && docker.trace[|docker.trace|-1].Listed?
    ensures docker.timeouts == old(docker.timeouts) && docker.pauses == old(docker.pauses)
    ensures var ids := docker.trace[|docker.trace|-1].ids;
            && docker.trace == old(docker.trace) + [Listed(ids)] && docker.phase == Advance(old(docker.phase), Listed(ids))
            && found == if ids.None? then None else Some(NewIDs(ids.value, prior))
  {
    var all := docker.ListServiceContainers();
    if all.None? {
      return None;
    }
    var result := [];
    for k := 0 to |all.value|
      invariant result == NewIDs(all.value[..k], prior)
    {
      assert all.value[..k+1][..k] == all.value[..k];
      if all.value[k] !in prior {
        result := result + [all.value[k]];
      }
    }
    assert all.value[..|all.value|] == all.value;
    found := Some(result);
  }

  /** At most eleven listings; answers only with enough containers, all of them new. */
  method PollNewContainers(docker: DockerHost, prior: set<ID>, expectedNew: nat) returns (found: Option<seq<ID>>)
    requires docker.Valid() && docker.phase == Some(Polling(prior, 0, false))
    requires expectedNew == ExpectedNew(|prior|)
    modifies docker
    ensures docker.Valid()
    ensures docker.phase == Some(if found.None? then Ended(prior, [], PollFailed)
                                 else Checking(prior, found.value, 0, false))
    ensures found.Some? ==> |found.value| >= expectedNew && IdSet(found.value) !! prior
    ensures old(docker.listings) < docker.listings <= old(docker.listings) + 11
    ensures docker.trace != []
    ensures found.None? ==>
              var last := docker.trace[|docker.trace|-1];
              || last == Listed(None) || last == Cancelled
              || (docker.listings == old(docker.listings) + 11
                  && last.Listed? && last.ids.Some? && |NewIDs(last.ids.value, prior)| < expectedNew)
    ensures |docker.pauses| >= |old(docker.pauses)| + docker.listings - old(docker.listings) - 1
    ensures Paused(old(docker.pauses), docker.pauses, 500)
    ensures docker.inspections == old(docker.inspections) && docker.timeouts == old(docker.timeouts)
  {
    hide Run, NewIDs, IdSet;
    found := FindNewContainers(docker, prior);
    if found.None? {
      return;
    }
    NewIDsAreNew(docker.trace[|docker.trace|-1].ids.value, prior);
    if |found.value| >= expectedNew {
      return;
    }
    for attempt := 0 to MAX_RELISTINGS
      invariant docker.Valid()
      invariant docker.phase == Some(if attempt < MAX_RELISTINGS then Polling(prior, attempt, true)
                                     else Ended(prior, [], PollFailed))
      invariant docker.listings == old(docker.listings) + attempt + 1
      invariant docker.inspections == old(docker.inspections) && docker.timeouts == old(docker.timeouts)
      invariant Paused(old(docker.pauses), docker.pauses, 500)
      invariant |docker.pauses| == |old(docker.pauses)| + attempt
      invariant docker.trace != [] && var last := docker.trace[|docker.trace|-1];
                last.Listed? && last.ids.Some? && |NewIDs(last.ids.value, prior)| < expectedNew
    {
      var cancelled := docker.Wait(500);
      if cancelled {
        return None;
      }
      found := FindNewContainers(docker, prior);
      if found.None? {
        return;
      }
      NewIDsAreNew(docker.trace[|docker.trace|-1].ids.value, prior);
      if |found.value| >= expectedNew {
        return;
      }
    }
    found := None;
  }

  /**
   Rolls a service out. Failing in any way leaves every pre-existing container alone; success
   means that the replacements exist, were each seen healthy, and then the pre-existing
   containers, and no others, were stopped and removed (those calls may have failed).
   */
  method Rollout(docker: DockerHost, timeoutMs: int) returns (outcome: Outcome)
    requires docker.Valid() && docker.trace == []
    modifies docker
    ensures docker.Valid() && docker.phase.Some?
    ensures docker.phase.value.Ended? && docker.phase.value.outcome == outcome
    ensures outcome != Succeeded ==> Touched(docker.trace) !! OldIDs(docker.trace)
    ensures outcome == Succeeded ==> Replaced(docker.trace) && Touched(docker.trace) == OldIDs(docker.trace)
    ensures docker.listings <= old(docker.listings) + MAX_RELISTINGS + 2
    ensures docker.inspections <= old(docker.inspections) + |FreshIDs(docker.trace)| * MaxInspections(timeoutMs)
    ensures old(docker.timeouts) == [] ==> forall waited :: waited in docker.timeouts ==> waited > timeoutMs
    ensures Explained(docker.trace, outcome)
  {
    outcome := RolloutSteps(docker, timeoutMs);
    ZeroDowntime(docker.trace);
    OutcomeExplained(docker.trace);
    if outcome == Succeeded || outcome == HealthFailed {
      EndedNews(docker.trace);
    } else {
      assert 0 <= |FreshIDs(docker.trace)| * MaxInspections(timeoutMs);
    }
  }

  lemma EndedNews(es: seq<Event>)
    requires Run(es).Some? && Run(es).value.Ended?
    requires Run(es).value.outcome == Succeeded || Run(es).value.outcome == HealthFailed
    ensures Run(es).value.news == FreshIDs(es)
  {
    RunFacts(es);
  }

  lemma MulStep(i: nat, n: nat, m: nat)
    requires i < n
    ensures i * m + m == (i + 1) * m <= n * m
  {
    assert n * m == (i + 1) * m + (n - i - 1) * m;
  }

  method RolloutSteps(docker: DockerHost, timeoutMs: int) returns (outcome: Outcome)
    requires docker.Valid() && docker.phase == Some(Start)
    modifies docker
    ensures docker.Valid() && docker.phase.Some?
    ensures docker.phase.value.Ended? && docker.phase.value.outcome == outcome
    ensures docker.listings <= old(docker.listings) + MAX_RELISTINGS + 2
    ensures outcome != Succeeded && outcome != HealthFailed ==> docker.inspections == old(docker.inspections)
    ensures docker.inspections <= old(docker.inspections) + |docker.phase.value.news| * MaxInspections(timeoutMs)
    ensures old(docker.timeouts) == [] ==> forall waited :: waited in docker.timeouts ==> waited > timeoutMs
  {
    hide Run, NewIDs, MaxInspections;
    // 1. Capture the containers there are.
    var priorContainers := docker.ListServiceContainers();
    if priorContainers.None? {
      return ListFailed;
    }
    var prior := IdSet(priorContainers.value);
    var scaleCount := ScaleTarget(|prior|);
    var ok := docker.WriteTempEnv();
    if !ok {
      return EnvFailed;
    }

    // 2. Scale up.
    ghost var added, started;
    ok, added, started := docker.ComposeUp(scaleCount);
    if !ok {
      return ComposeFailed;
    }

    // 3. Find the new containers.
    var expectedNew := if scaleCount - |prior| < 1 then 1 else scaleCount - |prior|;
    var found := PollNewContainers(docker, prior, expectedNew);
    if found.None? {
      return PollFailed;
    }
    var news := found.value;

    // 4. Wait for each of them, with a deadline of its own.
    for i := 0 to |news|
      invariant docker.Valid() && docker.listings <= old(docker.listings) + MAX_RELISTINGS + 2
      invariant docker.phase == Some(if i < |news| then Checking(prior, news, i, false)
                                     else StartDrain(prior, news, prior))
      invariant docker.inspections <= old(docker.inspections) + i * MaxInspections(timeoutMs)
      invariant docker.timeouts == old(docker.timeouts)
    {
      MulStep(i, |news|, MaxInspections(timeoutMs));
      ok := WaitHealthy(docker, news[i], timeoutMs);
      if !ok {
        RollbackContainers(docker, news);
        return HealthFailed;
      }
    }

    // 5. Drain the old ones, in any order.
    var left := prior;
    while left != {}
      invariant docker.Valid() && docker.listings <= old(docker.listings) + MAX_RELISTINGS + 2
      invariant docker.phase == Some(StartDrain(prior, news, left))
      invariant docker.inspections <= old(docker.inspections) + |news| * MaxInspections(timeoutMs)
      invariant docker.timeouts == old(docker.timeouts)
    {
      var id :| id in left;
      var stopped, stopTook := docker.StopContainer(id);
      var removed, removeTook := docker.RemoveContainer(id);
      left := left - {id};
    }
    outcome := Succeeded;
  }
}
