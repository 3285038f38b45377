/** The controller's manager: it answers policy requests and keeps the filtering switch of every worker it knows. */
module Controller {
  import opened Options
  import opened PolicyBuilder
  import opened PolicyMerge
  import Protocol = PolicyProtocol

  /** The operations that touch the switches; toggling id 0 is meant for all workers. */
  datatype Entry = Asked(id: nat) | Toggled(id: nat, enabled: bool)

  function Apply(switches: map<nat, bool>, e: Entry): (after: map<nat, bool>) {
    match e
    case Asked(id) => if id in switches then switches else switches[id := true]
    case Toggled(id, on) => if id == 0 then map w <- switches :: on else switches[id := on]
  }

  function ReplayOn(switches: map<nat, bool>, log: seq<Entry>): (after: map<nat, bool>) {
    if log == [] then switches else Apply(ReplayOn(switches, log[..|log| - 1]), log[|log| - 1])
  }

  function Replay(log: seq<Entry>): (switches: map<nat, bool>) {
    ReplayOn(map[], log)
  }

  predicate On(switches: map<nat, bool>, w: nat) {
    w in switches ==> switches[w]
  }

  /** None stands for UNCHANGED. */
  function Answer(config: Config, version: nat, id: nat, requested: nat): (r: Option<WorkerPolicy>) {
    if version == requested then None else Some(PolicyFor(config, version, id))
  }

  /** What an update leaves of configuration and version. */
  function Updated(config: Config, version: nat, parsed: Option<Config>): (r: (Config, nat)) {
    if parsed.Some? then (parsed.value, version + 1) else (config, version)
  }

  /** It is the protocol's update step. */
  lemma UpdateIsAStep(s: Protocol.Sys, parsed: Option<Config>)
    ensures var t := Protocol.Next(s, Protocol.Update(parsed));
            (t.config, t.version) == Updated(s.config, s.version, parsed) && t.workers == s.workers
  {
  }

  datatype Response = Response(policy: Option<WorkerPolicy>, filteringEnabled: bool)

  class Manager {
    const policies: PolicyManager
    var filteringEnabled: map<nat, bool>

    ghost predicate Valid()
      reads policies
    {
      policies.config.Valid() && this !in policies.config.Owned()
    }

    constructor ()
      ensures Valid()
      ensures filteringEnabled == Replay([])
      ensures fresh(policies) && policies.version == 0
      ensures policies.config.View() == EMPTY_CONFIG
    {
      filteringEnabled := map[];
      policies := new PolicyManager();
    }

    method UpdateConfig(parsed: Option<ConfigRef>) returns (ok: bool)
      requires parsed.Some? ==>
                 parsed.value.Valid() && this !in parsed.value.Owned() && policies !in parsed.value.Owned()
      requires Valid() && policies !in policies.config.Owned()
      modifies policies
      ensures Valid() && ok == parsed.Some?
      ensures (policies.config.View(), policies.version) ==
              Updated(old(policies.config.View()), old(policies.version),
                      if ok then Some(old(parsed.value.View())) else None)
    {
      hide ConfigRef.View;
      ok := policies.UpdateConfig(parsed);
    }

    method Register(id: nat)
      modifies this
      ensures filteringEnabled == Apply(old(filteringEnabled), Asked(id))
    {
      if id !in filteringEnabled {
        filteringEnabled := filteringEnabled[id := true];
      }
    }

    /** The policy leaves the manager marshalled, that is, as a value. */
    method CurrentPolicy(id: nat, requested: nat) returns (r: Option<WorkerPolicy>)
      requires Valid()
      ensures r == Answer(policies.config.View(), policies.version, id, requested)
    {
      hide PolicyFor;
      var current := policies.version;
      if current == requested {
        return None;
      }
      var p := policies.GetWorkerPolicy(id);
      r := Some(p.View());
    }

    method HandleGetPolicy(id: nat, requested: nat) returns (r: Option<WorkerPolicy>)
      requires Valid()
      modifies this
      ensures filteringEnabled == Apply(old(filteringEnabled), Asked(id))
      ensures r == Answer(old(policies.config.View()), old(policies.version), id, requested)
    {
      hide Answer, Apply, ConfigRef.View;
      Register(id);
      r := CurrentPolicy(id, requested);
    }

    /** The map is walked in any order. */
    method SetFilteringEnabled(id: nat, enabled: bool)
      modifies this
      ensures filteringEnabled == Apply(old(filteringEnabled), Toggled(id, enabled))
    {
      if id == 0 {
        var left := filteringEnabled.Keys;
        while left != {}
          invariant left <= filteringEnabled.Keys == old(filteringEnabled).Keys
          invariant forall w <- filteringEnabled :: w !in left ==> filteringEnabled[w] == enabled
          decreases |left|
        {
          var w :| w in left;
          filteringEnabled := filteringEnabled[w := enabled];
          left := left - {w};
        }
      } else {
        filteringEnabled := filteringEnabled[id := enabled];
      }
    }

    method IsFilteringEnabled(id: nat) returns (on: bool)
      ensures on == On(filteringEnabled, id)
    {
      if id !in filteringEnabled {
        return true;
      }
      on := filteringEnabled[id];
    }

    /** What another request or an administrator does to the switches. */
    method Interfere(e: Entry)
      requires Valid()
      modifies this
      ensures filteringEnabled == Apply(old(filteringEnabled), e)
    {
      match e
      case Asked(id) =>
        var r := HandleGetPolicy(id, 0);
      case Toggled(id, enabled) =>
        SetFilteringEnabled(id, enabled);
    }

    method InterfereAll(entries: seq<Entry>)
      requires Valid()
      modifies this
      ensures filteringEnabled == ReplayOn(old(filteringEnabled), entries)
    {
      for i := 0 to |entries|
        invariant Valid()
        invariant filteringEnabled == ReplayOn(old(filteringEnabled), entries[..i])
      {
        Interfere(entries[i]);
        assert entries[..i + 1][..i] == entries[..i];
      }
      assert entries[..|entries|] == entries;
    }

    /** The service's answer. The switch is read in a lock region of its own: `between` is what others do to the
        switches after the request has registered its worker and before that read. */
    method GetPolicy(id: nat, requested: nat, between: seq<Entry>) returns (r: Response)
      requires Valid()
      modifies this
      ensures filteringEnabled == ReplayOn(old(filteringEnabled), [Asked(id)] + between)
      ensures r.policy == Answer(old(policies.config.View()), old(policies.version), id, requested)
      ensures r.filteringEnabled == On(ReplayOn(old(filteringEnabled), [Asked(id)] + between), id)
    {
      hide Answer, ReplayOn, Apply;
      var p := HandleGetPolicy(id, requested);
      ghost var before := old(filteringEnabled);
      ReplayFirst(before, Asked(id), between);
      InterfereAll(between);
      var on := IsFilteringEnabled(id);
      r := Response(p, on);
    }
  }

  /** What the switches mean, read off the log **/

  /** The controller knows the workers that asked and those that were toggled by name. */
  ghost predicate Known(log: seq<Entry>, w: nat) {
    exists i :: 0 <= i < |log| && log[i].id == w && (log[i].Asked? || w != 0)
  }

  /** A toggle affects the worker it names; that of id 0 affects exactly the workers known then. */
  ghost predicate Affects(log: seq<Entry>, i: nat, w: nat)
    requires i < |log|
  {
    log[i].Toggled? && if log[i].id == 0 then Known(log[..i], w) else log[i].id == w
  }

  /** The last toggle that affects the worker decides; enabled when there is none. */
  ghost predicate LastToggleSays(log: seq<Entry>, w: nat, on: bool) {
    || (on && forall i :: 0 <= i < |log| ==> !Affects(log, i, w))
    || exists i :: 0 <= i < |log| && Affects(log, i, w) && log[i].enabled == on &&
                   forall j :: i < j < |log| ==> !Affects(log, j, w)
  }

  lemma {:induction false} ReplayKnows(log: seq<Entry>, w: nat)
    ensures w in Replay(log) <==> Known(log, w)
  {
    if log == [] {
    } else {
      var most, last := log[..|log| - 1], log[|log| - 1];
      ReplayKnows(most, w);
      if Known(most, w) {
        var i :| 0 <= i < |most| && most[i].id == w && (most[i].Asked? || w != 0);
        assert log[i] == most[i];
      }
      if last.id == w && (last.Asked? || w != 0) {
        assert Known(log, w);
      }
    }
  }

  lemma AffectsPrefix(log: seq<Entry>, n: nat, i: nat, w: nat)
    requires i < n <= |log|
    ensures Affects(log[..n], i, w) <==> Affects(log, i, w)
  {
    assert log[..n][..i] == log[..i];
  }

  /** After every sequence of requests and toggles the switch of every worker, known or not, is what the last toggle
      that affects it says. */
  lemma {:induction false} SwitchReplay(log: seq<Entry>, w: nat)
    ensures LastToggleSays(log, w, On(Replay(log), w))
  {
    if log == [] {
    } else {
      var n := |log| - 1;
      var most, on := log[..n], On(Replay(log), w);
      SwitchReplay(most, w);
      ReplayKnows(most, w);
      forall i | 0 <= i < n
        ensures Affects(most, i, w) <==> Affects(log, i, w)
      {
        AffectsPrefix(log, n, i, w);
      }
      if Affects(log, n, w) {
        assert log[n].enabled == on;
      } else {
        StillDecided(log, w, on);
      }
    }
  }

  lemma StillDecided(log: seq<Entry>, w: nat, on: bool)
    requires log != [] && LastToggleSays(log[..|log| - 1], w, on) && !Affects(log, |log| - 1, w)
    ensures LastToggleSays(log, w, on)
  {
    var n := |log| - 1;
    var most := log[..n];
    forall i | 0 <= i < n
      ensures Affects(most, i, w) <==> Affects(log, i, w)
    {
      AffectsPrefix(log, n, i, w);
    }
    if i :| 0 <= i < n && Affects(most, i, w) && most[i].enabled == on &&
            forall j :: i < j < n ==> !Affects(most, j, w)
    {
      assert Affects(log, i, w) && log[i].enabled == on;
    }
  }

  /** It says one thing only. */
  lemma LastToggleDecides(log: seq<Entry>, w: nat, on: bool)
    requires LastToggleSays(log, w, on)
    ensures !LastToggleSays(log, w, !on) && on == On(Replay(log), w)
  {
    SwitchReplay(log, w);
  }

  lemma {:induction false} ReplayConcat(start: map<nat, bool>, log: seq<Entry>, more: seq<Entry>)
    ensures ReplayOn(ReplayOn(start, log), more) == ReplayOn(start, log + more)
  {
    if more == [] {
      assert log + more == log;
    } else {
      var n := |more| - 1;
      ReplayConcat(start, log, more[..n]);
      assert (log + more)[..|log| + n] == log + more[..n];
    }
  }

  lemma ReplayFirst(start: map<nat, bool>, e: Entry, more: seq<Entry>)
    ensures ReplayOn(Apply(start, e), more) == ReplayOn(start, [e] + more)
  {
    assert [e][..0] == [];
    assert ReplayOn(start, [e]) == Apply(start, e);
    ReplayConcat(start, [e], more);
  }

  /** The switch a response carries is what the last toggle affecting its worker says, toggles that came while the
      request was being answered included; and the worker is known by then, so a toggle of id 0 among those affects it.
      */
  lemma ResponseSwitch(log: seq<Entry>, id: nat, between: seq<Entry>)
    ensures var seen := log + ([Asked(id)] + between);
            && LastToggleSays(seen, id, On(ReplayOn(Replay(log), [Asked(id)] + between), id))
            && Known(seen[..|log| + 1], id)
            && forall i | |log| < i < |seen| && seen[i].Toggled? && seen[i].id == 0 :: Affects(seen, i, id)
  {
    var seen := log + ([Asked(id)] + between);
    ReplayConcat(map[], log, [Asked(id)] + between);
    SwitchReplay(seen, id);
    assert seen[..|log| + 1][|log|] == Asked(id);
    forall i | |log| < i < |seen| && seen[i].Toggled? && seen[i].id == 0
      ensures Affects(seen, i, id)
    {
      assert seen[..i][|log|] == Asked(id);
    }
  }

  /** Answering in one go is the protocol's two reads with nothing in between. */
  lemma AnswerIsAnUninterruptedRequest(s: Protocol.Sys, r: nat)
    requires r in s.requests && s.requests[r].phase.Sent? && s.requests[r].worker in s.workers
    ensures var q := s.requests[r];
            var acts := if s.version == q.requested then [Protocol.ReadVersion(r)]
                        else [Protocol.ReadVersion(r), Protocol.Merge(r)];
            && Protocol.Runs(s, acts) && r in Protocol.Exec(s, acts).requests
            && var phase := Protocol.Exec(s, acts).requests[r].phase;
               match Answer(s.config, s.version, s.workers[q.worker].id, q.requested)
               case None => phase.Unchanged?
               case Some(p) => phase == Protocol.Provided(p)
  {
    hide PolicyFor;
    var u := Protocol.Next(s, Protocol.ReadVersion(r));
    Protocol.RunOfOne(s, Protocol.ReadVersion(r));
    if s.version != s.requests[r].requested {
      var acts := Protocol.Extend(s, [Protocol.ReadVersion(r)], Protocol.Merge(r));
    }
  }
}
