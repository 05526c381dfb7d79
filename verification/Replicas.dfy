/**
 What whole runs of the pipeline do to the containers of every service at once. The worker
 runs one rollout at a time, so a service is either at rest or in the worker's rollout.
 */
module Replicas {
  import opened Options
  import opened Pipeline
  import Q = QueueProtocol
  import R = RolloutProtocol
  import H = RolloutHost

  /** The daemon keeps its part of every call of this move. */
  ghost predicate Honest(s: State, m: Move) {
    m.RolloutCall? && s.worker.Rolling? && s.worker.service in s.hosts ==>
      H.Truthful(s.hosts[s.worker.service], s.worker.phase, m.e)
  }

  /**
   Nothing is left half done: stop and remove calls succeed, compose and the poll after it do
   not fail, and the process does not exit in the middle of a rollout.
   */
  predicate Gentle(s: State, m: Move) {
    && (m.RolloutCall? ==> H.CleanupSucceeds(m.e))
    && (m.RolloutReturns? && s.worker.Rolling? && s.worker.phase.Ended? ==>
          s.worker.phase.outcome != R.ComposeFailed && s.worker.phase.outcome != R.PollFailed)
    && (m.ProcessExit? ==> !s.worker.Rolling?)
  }

  ghost predicate HonestRun(s: State, ms: seq<Move>)
    decreases |ms|
  {
    ms != [] && Step(s, ms[0]).Some? ==> Honest(s, ms[0]) && HonestRun(Step(s, ms[0]).value, ms[1..])
  }

  ghost predicate GentleRun(s: State, ms: seq<Move>)
    decreases |ms|
  {
    ms != [] && Step(s, ms[0]).Some? ==> Gentle(s, ms[0]) && GentleRun(Step(s, ms[0]).value, ms[1..])
  }

  /** `svc` is in the worker's rollout, as `HostInv` describes. */
  ghost predicate RollsWell(s: State) {
    s.worker.Rolling? ==>
      && s.worker.service in s.hosts
      && H.HostInv(s.worker.phase, s.worker.before, s.hosts[s.worker.service])
  }

  /** At least `floor` containers of each service run. */
  ghost predicate Floor(s: State, floor: map<Service, nat>) {
    && s.hosts.Keys == floor.Keys && RollsWell(s)
    && (forall svc :: svc in s.hosts ==> H.ValidHost(s.hosts[svc]) && |H.Serving(s.hosts[svc])| >= floor[svc])
    && (s.worker.Rolling? ==> |H.Serving(s.worker.before)| >= floor[s.worker.service])
  }

  /** Only a rollout call changes a host, and only that of the worker's service. */
  lemma HostsEffect(s: State, m: Move, s': State)
    requires Step(s, m) == Some(s')
    ensures !m.RolloutCall? ==> s'.hosts == s.hosts
    ensures m.RolloutCall? ==>
              && s.worker.Rolling? && s.worker.service in s.hosts
              && R.Step(s.worker.phase, m.e) == Some(s'.worker.phase)
              && s'.worker == Rolling(s.worker.id, s.worker.service, s'.worker.phase, s.worker.before)
              && s'.hosts == s.hosts[s.worker.service := H.Apply(s.hosts[s.worker.service], m.e)]
    ensures s'.worker.Rolling? && !m.RolloutCall? ==>
              || s'.worker == s.worker
              || (m.Prepare? && s'.worker.phase == R.Start && s'.worker.service in s.hosts
                  && s'.worker.before == s.hosts[s'.worker.service])
    ensures s.worker.Rolling? && !s'.worker.Rolling? ==>
              m.ProcessExit? || (m.RolloutReturns? && s.worker.phase.Ended?)
  {
    hide Q.Step, R.Step, H.Apply;
  }

  /** One honest call of the worker's rollout. */
  lemma RolloutCallStep(s: State, m: Move, s': State)
    requires RollsWell(s) && Step(s, m) == Some(s') && m.RolloutCall? && Honest(s, m)
    ensures RollsWell(s') && s'.worker.Rolling? && s'.worker.before == s.worker.before
    ensures s'.worker.service == s.worker.service && s.worker.Rolling? && s.worker.service in s.hosts
    ensures H.ValidHost(s'.hosts[s.worker.service])
    ensures |H.Serving(s'.hosts[s.worker.service])| >= |H.Serving(s.worker.before)|
    ensures s'.hosts == s.hosts[s.worker.service := s'.hosts[s.worker.service]]
  {
    HostsEffect(s, m, s');
    hide Step, R.Step, H.Serving, H.ValidHost;
    var h0, h := s.worker.before, s.hosts[s.worker.service];
    H.HostStep(s.worker.phase, h0, h, m.e, s'.worker.phase);
    hide H.Truthful;
    H.ReplicaBounds(s'.worker.phase, h0, H.Apply(h, m.e));
  }

  /** Any other move leaves the hosts alone; a rollout begins on its host as it is. */
  lemma OtherStep(s: State, m: Move, s': State)
    requires RollsWell(s) && Step(s, m) == Some(s') && !m.RolloutCall?
    requires forall svc :: svc in s.hosts ==> H.ValidHost(s.hosts[svc])
    ensures RollsWell(s') && s'.hosts == s.hosts
  {
    HostsEffect(s, m, s');
    hide Step, R.Step;
    if s'.worker != s.worker && s'.worker.Rolling? {
      assert H.HostInv(R.Start, s'.worker.before, s'.worker.before);
    }
    hide H.HostInv;
  }

  lemma FloorStep(s: State, m: Move, s': State, floor: map<Service, nat>)
    requires Floor(s, floor) && Step(s, m) == Some(s') && Honest(s, m)
    ensures Floor(s', floor)
  {
    hide RollsWell, Honest, H.Serving, H.ValidHost;
    if m.RolloutCall? {
      RolloutCallStep(s, m, s');
    } else {
      OtherStep(s, m, s');
      HostsEffect(s, m, s');
    }
    hide Step;
  }

  /**
   Over every run, with any interleaving of submissions and drains, exits and restarts in
   the middle of rollouts, failing stores, failing compose, stop and remove calls: as long as
   the daemon's listings are true, no service ever has fewer running containers than it
   started with.
   */
  lemma {:induction false} NeverBelowFloor(s: State, ms: seq<Move>, floor: map<Service, nat>)
    requires Floor(s, floor) && RunFrom(s, ms).Some? && HonestRun(s, ms)
    ensures var r := RunFrom(s, ms).value;
            && r.hosts.Keys == floor.Keys
            && (forall svc :: svc in r.hosts ==> |H.Serving(r.hosts[svc])| >= floor[svc])
    decreases |ms|
  {
    if ms != [] {
      hide Floor, Step, Honest;
      var s' := Step(s, ms[0]).value;
      FloorStep(s, ms[0], s', floor);
      NeverBelowFloor(s', ms[1..], floor);
    }
  }

  /** Every service at rest has its `n` containers, all running; the worker's has been left tidy so far. */
  ghost predicate Conserved(s: State, n: map<Service, nat>) {
    && s.hosts.Keys == n.Keys && RollsWell(s)
    && (forall svc :: svc in n ==> n[svc] >= 1)
    && (forall svc :: svc in s.hosts && !(s.worker.Rolling? && s.worker.service == svc) ==>
                        |s.hosts[svc].present| == n[svc] && s.hosts[svc].stopped == {})
    && (s.worker.Rolling? ==>
          && H.Tidy(s.worker.phase, s.worker.before, s.hosts[s.worker.service])
          && |s.worker.before.present| == n[s.worker.service] && s.worker.before.stopped == {})
  }

  lemma ConservedCall(s: State, m: Move, s': State, n: map<Service, nat>)
    requires Conserved(s, n) && Step(s, m) == Some(s') && Honest(s, m) && Gentle(s, m) && m.RolloutCall?
    ensures Conserved(s', n)
  {
    RolloutCallStep(s, m, s');
    HostsEffect(s, m, s');
    hide Step, R.Step, H.HostInv, H.Tidy, H.ValidHost, H.Serving;
    H.TidyStep(s.worker.phase, s.worker.before, s.hosts[s.worker.service], m.e, s'.worker.phase);
    hide H.Apply, H.Truthful, RollsWell;
  }

  lemma ConservedValid(s: State, n: map<Service, nat>)
    requires Conserved(s, n)
    ensures forall svc :: svc in s.hosts ==> H.ValidHost(s.hosts[svc])
  {
    hide H.Tidy;
  }

  /** The worker's rollout ended gently: its service has as many containers as before, all running. */
  lemma RolloutEnds(s: State, m: Move, n: map<Service, nat>)
    requires Conserved(s, n) && s.worker.Rolling? && s.worker.phase.Ended?
    requires s.worker.phase.outcome != R.ComposeFailed && s.worker.phase.outcome != R.PollFailed
    ensures |s.hosts[s.worker.service].present| == n[s.worker.service] && s.hosts[s.worker.service].stopped == {}
  {
    assert H.HostInv(s.worker.phase, s.worker.before, s.hosts[s.worker.service]);
    hide H.HostInv, H.Tidy, RollsWell;
    H.FinalReplicas(s.worker.phase, s.worker.before, s.hosts[s.worker.service]);
  }

  lemma ConservedOther(s: State, m: Move, s': State, n: map<Service, nat>)
    requires Conserved(s, n) && Step(s, m) == Some(s') && Gentle(s, m) && !m.RolloutCall?
    ensures Conserved(s', n)
  {
    hide H.HostInv, RollsWell, H.ValidHost, R.Step;
    ConservedValid(s, n);
    OtherStep(s, m, s');
    HostsEffect(s, m, s');
    hide Step;
    if s.worker.Rolling? && !s'.worker.Rolling? {
      RolloutEnds(s, m, n);
    } else if s'.worker != s.worker && s'.worker.Rolling? {
      assert H.Tidy(R.Start, s'.worker.before, s'.worker.before);
    }
    hide H.Tidy;
  }

  lemma ConservedStep(s: State, m: Move, s': State, n: map<Service, nat>)
    requires Conserved(s, n) && Step(s, m) == Some(s') && Honest(s, m) && Gentle(s, m)
    ensures Conserved(s', n)
  {
    hide Conserved, Step, Honest, Gentle;
    if m.RolloutCall? {
      ConservedCall(s, m, s', n);
    } else {
      ConservedOther(s, m, s', n);
    }
  }

  lemma ConservedCounts(s: State, n: map<Service, nat>)
    requires Conserved(s, n)
    ensures s.hosts.Keys == n.Keys
    ensures forall svc :: svc in s.hosts ==>
              && n[svc] <= |s.hosts[svc].present| <= 2 * n[svc]
              && n[svc] <= |H.Serving(s.hosts[svc])|
              && (!(s.worker.Rolling? && s.worker.service == svc) ==>
                    |s.hosts[svc].present| == n[svc] && s.hosts[svc].stopped == {})
  {
    hide H.Tidy;
    if s.worker.Rolling? {
      H.ReplicaBounds(s.worker.phase, s.worker.before, s.hosts[s.worker.service]);
      assert H.Serving(s.worker.before) == s.worker.before.present;
    }
    hide H.HostInv, RollsWell;
    forall svc | svc in s.hosts && !(s.worker.Rolling? && s.worker.service == svc)
      ensures H.Serving(s.hosts[svc]) == s.hosts[svc].present
    {
    }
  }

  /**
   Replica conservation: over every gentle run a service of n containers has exactly n, all
   of them running, whenever the worker is not rolling it out, and between n and 2n at every
   step of its rollout. This holds of all services at once.
   */
  lemma {:induction false} ReplicaConservation(s: State, ms: seq<Move>, n: map<Service, nat>)
    requires Conserved(s, n) && RunFrom(s, ms).Some? && HonestRun(s, ms) && GentleRun(s, ms)
    ensures var r := RunFrom(s, ms).value;
            && r.hosts.Keys == n.Keys
            && (forall svc :: svc in r.hosts ==>
                  && n[svc] <= |r.hosts[svc].present| <= 2 * n[svc]
                  && n[svc] <= |H.Serving(r.hosts[svc])|
                  && (!(r.worker.Rolling? && r.worker.service == svc) ==>
                        |r.hosts[svc].present| == n[svc] && r.hosts[svc].stopped == {}))
    decreases |ms|
  {
    hide Conserved, Step, Honest, Gentle;
    if ms == [] {
      ConservedCounts(s, n);
    } else {
      var s' := Step(s, ms[0]).value;
      ConservedStep(s, ms[0], s', n);
      ReplicaConservation(s', ms[1..], n);
    }
  }

  lemma AllRun(h: H.Host)
    requires h.stopped == {}
    ensures H.ValidHost(h) && H.Serving(h) == h.present
  {
  }

  /** A first boot on hosts whose containers all run meets both theorems' requirements. */
  lemma HostsAtRest(hosts: map<Service, H.Host>, n: map<Service, nat>)
    requires hosts.Keys == n.Keys
    requires forall svc :: svc in hosts ==> n[svc] == |hosts[svc].present| >= 1 && hosts[svc].stopped == {}
    ensures Conserved(Init(hosts), n) && Floor(Init(hosts), n)
  {
    hide H.ValidHost, H.Serving, H.HostInv, H.Tidy;
    forall svc | svc in hosts
      ensures H.ValidHost(hosts[svc]) && |H.Serving(hosts[svc])| == n[svc]
    {
      AllRun(hosts[svc]);
    }
    assert Init(hosts).hosts == hosts && Init(hosts).worker == Idle;
    hide Init;
  }
}
