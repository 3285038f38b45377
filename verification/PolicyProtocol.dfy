/** How policies reach the workers. Every step of the controller's two lock regions, of any number of workers and of
    configuration updates may come between any two others, and replies may be lost. */
module PolicyProtocol {
  import opened Bytes
  import opened Options
  import opened PolicyMerge
  import opened PolicyArrays
  import opened Filter
  import opened PolicyMeaning

  /** A worker process; it has no policy until one is provided. */
  datatype Worker = Worker(id: nat, version: nat, policy: Option<WorkerPolicy>)

  /** A request is `Stale` between the version read and the merge. */
  datatype Phase = Sent | Stale | Unchanged | Provided(policy: WorkerPolicy)

  /** `since` is the controller's version when the request was sent. */
  datatype Request = Request(worker: nat, requested: nat, since: nat, phase: Phase)

  /** `history[v]` is the configuration that had version `v`; requests are numbered in the order they were sent. */
  datatype Sys = Sys(
    config: Config,
    version: nat,
    history: seq<Config>,
    workers: map<nat, Worker>,
    requests: map<nat, Request>,
    sent: nat)

  datatype Act =
    | Start(worker: nat, id: nat)
    | Update(parsed: Option<Config>)
    | Send(worker: nat)
    | ReadVersion(request: nat)
    | Merge(request: nat)
    | Deliver(request: nat)
    | Lose(request: nat)

  predicate Enabled(s: Sys, a: Act) {
    match a
    case Start(w, id) => w !in s.workers
    case Update(parsed) => true
    case Send(w) => w in s.workers
    case ReadVersion(r) => r in s.requests && s.requests[r].phase.Sent?
    case Merge(r) => r in s.requests && s.requests[r].phase.Stale? && s.requests[r].worker in s.workers
    case Deliver(r) =>
      && r in s.requests && s.requests[r].worker in s.workers
      && (s.requests[r].phase.Unchanged? || s.requests[r].phase.Provided?)
    case Lose(r) => r in s.requests
  }

  function Next(s: Sys, a: Act): (t: Sys)
    requires Enabled(s, a)
  {
    match a
    case Start(w, id) => s.(workers := s.workers[w := Worker(id, 0, None)])
    case Update(parsed) =>
      if parsed.None? then s
      else s.(config := parsed.value, version := s.version + 1, history := s.history + [parsed.value])
    case Send(w) =>
      s.(requests := s.requests[s.sent := Request(w, s.workers[w].version, s.version, Sent)], sent := s.sent + 1)
    case ReadVersion(r) =>
      var q := s.requests[r];
      s.(requests := s.requests[r := q.(phase := if s.version == q.requested then Unchanged else Stale)])
    case Merge(r) =>
      var q := s.requests[r];
      s.(requests := s.requests[r := q.(phase := Provided(PolicyFor(s.config, s.version, s.workers[q.worker].id)))])
    case Deliver(r) => s.(workers := Delivered(s.workers, s.requests[r]), requests := s.requests - {r})
    case Lose(r) => s.(requests := s.requests - {r})
  }

  function Delivered(workers: map<nat, Worker>, q: Request): (after: map<nat, Worker>)
    requires q.worker in workers
  {
    if q.phase.Provided? then
      workers[q.worker := workers[q.worker].(version := q.phase.policy.configVersion, policy := Some(q.phase.policy))]
    else workers
  }

  /** What holds in every run **/

  /** A policy is the merge of the configuration that had its version. */
  ghost predicate Published(history: seq<Config>, id: nat, p: WorkerPolicy) {
    p.configVersion < |history| && p == PolicyFor(history[p.configVersion], p.configVersion, id)
  }

  ghost predicate WorkerOk(history: seq<Config>, w: Worker) {
    match w.policy
    case None => w.version == 0
    case Some(p) => w.version == p.configVersion > 0 && Published(history, w.id, p)
  }

  /** A provided policy is newer than the requested version and no older than the request. */
  ghost predicate RequestOk(history: seq<Config>, version: nat, workers: map<nat, Worker>, q: Request) {
    && q.worker in workers
    && q.requested <= version && q.since <= version
    && match q.phase
       case Sent => true
       case Stale => q.requested < version
       case Unchanged => q.since <= q.requested
       case Provided(p) =>
         && Published(history, workers[q.worker].id, p)
         && q.since <= p.configVersion && q.requested < p.configVersion <= version
  }

  ghost predicate Inv(s: Sys) {
    && |s.history| == s.version + 1 && s.history[s.version] == s.config
    && (forall w <- s.workers :: WorkerOk(s.history, s.workers[w]))
    && (forall r <- s.requests :: r < s.sent && RequestOk(s.history, s.version, s.workers, s.requests[r]))
  }

  ghost predicate Init(s: Sys) {
    && s.config == EMPTY_CONFIG && s.version == 0 && s.history == [EMPTY_CONFIG]
    && s.workers == map[] && s.requests == map[] && s.sent == 0
  }

  lemma NextInv(s: Sys, a: Act)
    requires Inv(s) && Enabled(s, a)
    ensures Inv(Next(s, a))
  {
    hide MergeRules;
    var t := Next(s, a);
    forall r <- t.requests
      ensures r < t.sent && RequestOk(t.history, t.version, t.workers, t.requests[r])
    {
      if r in s.requests {
        assert RequestOk(s.history, s.version, s.workers, s.requests[r]);
      }
      MergedVersion(s, r);
    }
    forall w <- t.workers
      ensures WorkerOk(t.history, t.workers[w])
    {
      if w in s.workers {
        assert WorkerOk(s.history, s.workers[w]);
      }
    }
  }

  lemma MergedVersion(s: Sys, r: nat)
    ensures r in s.requests && s.requests[r].worker in s.workers ==>
              PolicyFor(s.config, s.version, s.workers[s.requests[r].worker].id).configVersion == s.version
  {
  }

  ghost predicate Runs(s: Sys, acts: seq<Act>)
    decreases acts
  {
    acts != [] ==> Enabled(s, acts[0]) && Runs(Next(s, acts[0]), acts[1..])
  }

  function Exec(s: Sys, acts: seq<Act>): (t: Sys)
    requires Runs(s, acts)
    decreases acts
  {
    if acts == [] then s else Exec(Next(s, acts[0]), acts[1..])
  }

  lemma {:induction false} ExecInv(s: Sys, acts: seq<Act>)
    requires Inv(s) && Runs(s, acts)
    ensures Inv(Exec(s, acts))
    decreases acts
  {
    hide Inv, Next;
    if acts == [] {
    } else {
      NextInv(s, acts[0]);
      ExecInv(Next(s, acts[0]), acts[1..]);
    }
  }

  /** The configurations a run publishes: the initial one, which is empty, and those of its successful updates in order.
      The position in this list is the version. */
  function PublishedBy(acts: seq<Act>): (configs: seq<Config>)
    ensures |configs| > 0
  {
    [Config(Rules([], map[], [], [], [], [], None, None, None, map[]), map[])] + Updates(acts)
  }

  function Updates(acts: seq<Act>): (configs: seq<Config>) {
    if acts == [] then []
    else (if acts[0].Update? && acts[0].parsed.Some? then [acts[0].parsed.value] else []) + Updates(acts[1..])
  }

  lemma {:induction false} ExecHistory(s: Sys, acts: seq<Act>)
    requires Runs(s, acts)
    ensures Exec(s, acts).history == s.history + Updates(acts)
    decreases acts
  {
    hide Next, Enabled;
    if acts == [] {
    } else {
      var a := acts[0];
      NextKeeps(s, a);
      ExecHistory(Next(s, a), acts[1..]);
      Regroup(s.history, if a.Update? && a.parsed.Some? then [a.parsed.value] else [], Updates(acts[1..]));
    }
  }

  lemma Regroup(a: seq<Config>, b: seq<Config>, c: seq<Config>)
    ensures a + b + c == a + (b + c)
  {
  }

  lemma NextKeeps(s: Sys, a: Act)
    requires Enabled(s, a)
    ensures Next(s, a).history == s.history + if a.Update? && a.parsed.Some? then [a.parsed.value] else []
    ensures forall w | w in s.workers :: w in Next(s, a).workers && Next(s, a).workers[w].id == s.workers[w].id
  {
    hide PolicyFor;
  }

  /** Over every run from the start, the controller holds the last published configuration under its version. */
  lemma ControllerHoldsLatest(s: Sys, acts: seq<Act>)
    requires Init(s) && Runs(s, acts)
    ensures var t := Exec(s, acts);
            && t.history == PublishedBy(acts)
            && t.version == |PublishedBy(acts)| - 1 && t.config == PublishedBy(acts)[t.version]
  {
    hide Next, Enabled;
    ExecHistory(s, acts);
    ExecInv(s, acts);
  }

  /** A process keeps the id it was started with. */
  lemma {:induction false} WorkersKeepTheirIds(s: Sys, acts: seq<Act>, w: nat)
    requires Runs(s, acts) && w in s.workers
    ensures w in Exec(s, acts).workers && Exec(s, acts).workers[w].id == s.workers[w].id
    decreases acts
  {
    hide Next, Enabled;
    if acts == [] {
    } else {
      NextKeeps(s, acts[0]);
      WorkersKeepTheirIds(Next(s, acts[0]), acts[1..], w);
    }
  }

  lemma StartedWithId(s: Sys, w: nat, id: nat, acts: seq<Act>)
    requires Enabled(s, Start(w, id)) && Runs(Next(s, Start(w, id)), acts)
    ensures var t := Exec(Next(s, Start(w, id)), acts); w in t.workers && t.workers[w].id == id
  {
    WorkersKeepTheirIds(Next(s, Start(w, id)), acts, w);
  }

  /** In every run every worker that has a policy has exactly the merge, for its id, of the configuration the run
      published under the version it reports; a worker without one reports version zero. */
  lemma WorkersHoldPublishedPolicies(s: Sys, acts: seq<Act>, w: nat)
    requires Init(s) && Runs(s, acts) && w in Exec(s, acts).workers
    ensures var t := Exec(s, acts); var k := t.workers[w];
            && k.version <= t.version < |PublishedBy(acts)|
            && (k.policy.None? <==> k.version == 0)
            && (k.policy.Some? ==> k.policy.value == PolicyFor(PublishedBy(acts)[k.version], k.version, k.id))
  {
    hide Next, Enabled, PolicyFor;
    ExecInv(s, acts);
    ControllerHoldsLatest(s, acts);
  }

  /** An UNCHANGED reply means that the requested version was current at some moment after the request was sent. */
  lemma UnchangedWasCurrent(s: Sys, acts: seq<Act>, r: nat)
    requires Init(s) && Runs(s, acts)
    requires r in Exec(s, acts).requests && Exec(s, acts).requests[r].phase.Unchanged?
    ensures var t := Exec(s, acts); t.requests[r].since <= t.requests[r].requested <= t.version
  {
    ExecInv(s, acts);
  }

  /** What a worker's rules decide is what the configuration of its version says **/

  lemma WorkersEnforceTheirVersion(s: Sys, acts: seq<Act>, w: nat, order: seq<Str>, parse: Str -> Ip,
                                   c: Classification, domain: Str, d: Dest)
    requires Init(s) && Runs(s, acts) && w in Exec(s, acts).workers && Exec(s, acts).workers[w].policy.Some?
    requires var k := Exec(s, acts).workers[w];
             && Enumerates(order, k.policy.value.blockByTrust) && WithinCapacity(k.policy.value, parse)
    ensures var k := Exec(s, acts).workers[w];
            k.version < |PublishedBy(acts)| &&
            var g, f := PublishedBy(acts)[k.version].global, Section(PublishedBy(acts)[k.version], k.id);
            WellFormed(g, parse) && WellFormed(f, parse) ==>
              && (DomainSends(c, Loaded(k.policy.value, order, parse), domain) <==> RulesSendDomain(g, f, c, domain))
              && (IpSends(c, Loaded(k.policy.value, order, parse), d) <==> RulesSendIp(g, f, c, d, parse))
  {
    hide *;
    WorkersHoldPublishedPolicies(s, acts, w);
    var t := Exec(s, acts);
    var k := t.workers[w];
    var cfg := PublishedBy(acts)[k.version];
    if WellFormed(cfg.global, parse) && WellFormed(Section(cfg, k.id), parse) {
      DomainMeaning(cfg, k.version, k.id, order, parse, c, domain);
      IpMeaning(cfg, k.version, k.id, order, parse, c, d);
    }
  }

  /** A worker whose requests do not overlap **/

  ghost predicate Waiting(s: Sys, w: nat) {
    exists r :: r in s.requests && s.requests[r].worker == w
  }

  ghost predicate OneAtATime(s: Sys, acts: seq<Act>, w: nat)
    requires Runs(s, acts)
    decreases acts
  {
    acts != [] ==> (acts[0] == Send(w) ==> !Waiting(s, w)) && OneAtATime(Next(s, acts[0]), acts[1..], w)
  }

  /** It has at most one request out, which asked with the version it still has. */
  ghost predicate Serial(s: Sys, w: nat) {
    && (forall r <- s.requests :: s.requests[r].worker == w ==>
          w in s.workers && s.requests[r].requested == s.workers[w].version)
    && (forall r <- s.requests, q <- s.requests :: s.requests[r].worker == w == s.requests[q].worker ==> r == q)
  }

  lemma NextSerial(s: Sys, a: Act, w: nat)
    requires Inv(s) && Enabled(s, a) && Serial(s, w)
    requires a == Send(w) ==> !Waiting(s, w)
    ensures Serial(Next(s, a), w)
  {
    hide MergeRules, PolicyFor, Published;
  }

  /** A version goes back only when another reply overtook the one delivered: the worker has moved on from the version
      it asked with. Without overlap every delivered policy is strictly newer. */
  lemma OnlyOvertakenRepliesGoBack(s: Sys, a: Act, w: nat)
    requires Inv(s) && Enabled(s, a) && w in s.workers
    ensures w in Next(s, a).workers
    ensures Serial(s, w) && Next(s, a).workers[w] != s.workers[w] ==>
              Next(s, a).workers[w].version > s.workers[w].version
    ensures Next(s, a).workers[w].version < s.workers[w].version ==>
              a.Deliver? && s.requests[a.request].worker == w && s.requests[a.request].requested < s.workers[w].version
    ensures Next(s, a).workers[w].version < s.workers[w].version <==>
              && a.Deliver? && s.requests[a.request].worker == w && s.requests[a.request].phase.Provided?
              && s.requests[a.request].phase.policy.configVersion < s.workers[w].version
  {
    if a.Deliver? {
      assert RequestOk(s.history, s.version, s.workers, s.requests[a.request]);
    }
  }

  /** Over every run in which a worker waits for each reply before asking again, its version never goes back. */
  lemma {:induction false} VersionsNeverGoBack(s: Sys, acts: seq<Act>, w: nat)
    requires Inv(s) && Serial(s, w) && w in s.workers
    requires Runs(s, acts) && OneAtATime(s, acts, w)
    ensures w in Exec(s, acts).workers && Exec(s, acts).workers[w].version >= s.workers[w].version
    ensures Inv(Exec(s, acts)) && Serial(Exec(s, acts), w)
    decreases acts
  {
    hide Inv, Serial, Next;
    if acts == [] {
    } else {
      NextInv(s, acts[0]);
      NextSerial(s, acts[0], w);
      OnlyOvertakenRepliesGoBack(s, acts[0], w);
      VersionsNeverGoBack(Next(s, acts[0]), acts[1..], w);
    }
  }

  /** A request keeps who asked, for what and when, as long as it is out. */
  lemma {:induction false} RequestsPersist(s: Sys, acts: seq<Act>, r: nat)
    requires Runs(s, acts) && r < s.sent && r in Exec(s, acts).requests
    ensures r in s.requests
    ensures var q, p := s.requests[r], Exec(s, acts).requests[r];
            p.worker == q.worker && p.requested == q.requested && p.since == q.since
    decreases acts
  {
    hide PolicyFor;
    if acts == [] {
    } else {
      RequestsPersist(Next(s, acts[0]), acts[1..], r);
    }
  }

  /** Once a request that did not overlap another is answered, either way, the worker's policy is no older than the
      configuration in force when the request was sent, whatever happened in between. Which configurations these are,
      `WorkersHoldPublishedPolicies` and `ControllerHoldsLatest` say. */
  lemma AnsweredWorkersAreFresh(s: Sys, w: nat, acts: seq<Act>)
    requires Inv(s) && Serial(s, w) && w in s.workers && !Waiting(s, w)
    requires var u := Next(s, Send(w));
             && Runs(u, acts) && OneAtATime(u, acts, w)
             && Enabled(Exec(u, acts), Deliver(s.sent))
    ensures var t := Exec(Next(s, Send(w)), acts);
            w in t.workers && Next(t, Deliver(s.sent)).workers[w].version >= s.version
  {
    var u := Next(s, Send(w));
    NextInv(s, Send(w));
    NextSerial(s, Send(w), w);
    VersionsNeverGoBack(u, acts, w);
    RequestsPersist(u, acts, s.sent);
    var t := Exec(u, acts);
    assert RequestOk(t.history, t.version, t.workers, t.requests[s.sent]);
  }

  lemma RunOfOne(s: Sys, a: Act)
    requires Enabled(s, a)
    ensures Runs(s, [a]) && Exec(s, [a]) == Next(s, a)
  {
    assert [a][1..] == [];
  }

  lemma {:induction false} Extend(s: Sys, acts: seq<Act>, a: Act) returns (more: seq<Act>)
    requires Runs(s, acts) && Enabled(Exec(s, acts), a)
    ensures more == acts + [a] && Runs(s, more) && Exec(s, more) == Next(Exec(s, acts), a)
    decreases acts
  {
    hide Enabled, Next;
    more := acts + [a];
    if acts == [] {
      RunOfOne(s, a);
      assert more == [a];
    } else {
      assert more[1..] == acts[1..] + [a];
      var rest := Extend(Next(s, acts[0]), acts[1..], a);
    }
  }

  /** With overlapping requests the version can go back: some run from the start ends with the reply to the first of
      two requests arriving after the reply to the second. */
  lemma OverlapGoesBack(s: Sys, first: Config, second: Config) returns (acts: seq<Act>)
    requires Init(s)
    ensures Runs(s, acts + [Deliver(0)]) && Runs(s, acts)
    ensures 0 in Exec(s, acts).workers && 0 in Exec(s, acts + [Deliver(0)]).workers
    ensures Exec(s, acts).workers[0].version == 2 && Exec(s, acts + [Deliver(0)]).workers[0].version == 1
  {
    hide Runs, Exec;
    acts := [Start(0, 1)];
    RunOfOne(s, Start(0, 1));
    acts := Extend(s, acts, Update(Some(first)));
    acts := Extend(s, acts, Send(0));
    acts := Extend(s, acts, ReadVersion(0));
    acts := Extend(s, acts, Merge(0));
    acts := Extend(s, acts, Update(Some(second)));
    acts := Extend(s, acts, Send(0));
    acts := Extend(s, acts, ReadVersion(1));
    acts := Extend(s, acts, Merge(1));
    acts := Extend(s, acts, Deliver(1));
    var all := Extend(s, acts, Deliver(0));
  }
}
