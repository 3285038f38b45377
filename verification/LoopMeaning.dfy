/** The whole packet loop, caches and policy updates included, against the configurations its policies came from. */
module LoopMeaning {
  import opened Bytes
  import opened Options
  import opened PolicyArrays
  import opened Filter
  import opened NodeCache
  import opened Pipeline
  import opened PacketMeaning
  import opened WorkerSystem

  /** The policies a run writes are those loaded from `sources`, one after the other. */
  ghost predicate Supplies(acts: seq<Act>, sources: seq<Source>, parse: Str -> Ip)
    decreases acts
  {
    if acts == [] then sources == []
    else if acts[0].WritePolicy? then
      && sources != [] && Usable(sources[0], parse) && acts[0].policy == PolicyOf(sources[0], parse)
      && Supplies(acts[1..], sources[1..], parse)
    else Supplies(acts[1..], sources, parse)
  }

  /** What the configuration says about a key, the classifier being asked about the name or the address itself. */
  ghost predicate RulesDecide(src: Source, k: Key, cl: Classifier, parse: Str -> Ip) {
    match k
    case DomainKey(buf) => RulesSend(src, k, cl(Name(CStr(buf))), parse)
    case Ip4Key(a) => RulesSend(src, k, cl(Address(To4(a))), parse)
    case Ip6Key(a) => RulesSend(src, k, cl(Address(To6(a))), parse)
  }

  /** The verdicts the configurations give on the packets of a run: `latest` is the one applied last, `current` the one
      that was the latest when the iteration began. There is no cache, no array and no scan in this. */
  ghost function Ruled(latest: Source, current: Source, acts: seq<Act>, sources: seq<Source>, cl: Classifier,
                       parse: Str -> Ip): seq<Emitted>
    decreases acts
  {
    if acts == [] then []
    else
      match acts[0]
      case TakeSnapshot => Ruled(latest, latest, acts[1..], sources, cl, parse)
      case LookUp(key, _, failing, _) =>
        (if failing then [] else [Emitted(key, RulesDecide(current, key, cl, parse))]) +
        Ruled(latest, current, acts[1..], sources, cl, parse)
      case WritePolicy(_) =>
        if sources == [] then [] else Ruled(sources[0], current, acts[1..], sources[1..], cl, parse)
      case _ => Ruled(latest, current, acts[1..], sources, cl, parse)
  }

  lemma DecidesByRules(src: Source, k: Key, cl: Classifier, parse: Str -> Ip)
    requires Usable(src, parse)
    ensures Decides(WithDefaults(PolicyOf(src, parse)), k, cl) == RulesDecide(src, k, cl, parse)
  {
    hide Usable, PolicyOf, RulesSend, Verdict;
    UsableOrder(src, parse);
    VerdictMeaning(src, k, cl(TargetOf(k)), parse);
  }

  lemma {:induction false} UncachedIsRuled(latest: Source, current: Source, acts: seq<Act>, sources: seq<Source>,
                                           cl: Classifier, parse: Str -> Ip)
    requires Usable(latest, parse) && Usable(current, parse) && Supplies(acts, sources, parse)
    ensures Uncached(PolicyOf(latest, parse), WithDefaults(PolicyOf(current, parse)), acts, cl)
            == Ruled(latest, current, acts, sources, cl, parse)
    decreases acts
  {
    hide Usable, PolicyOf, RulesDecide, Decides, WithDefaults;
    UsableOrder(latest, parse);
    UsableOrder(current, parse);
    if acts == [] {
    } else {
      match acts[0]
      case TakeSnapshot => UncachedIsRuled(latest, latest, acts[1..], sources, cl, parse);
      case LookUp(key, _, _, _) =>
        DecidesByRules(current, key, cl, parse);
        UncachedIsRuled(latest, current, acts[1..], sources, cl, parse);
      case WritePolicy(_) => UncachedIsRuled(sources[0], current, acts[1..], sources[1..], cl, parse);
      case _ => UncachedIsRuled(latest, current, acts[1..], sources, cl, parse);
    }
  }

  /** When policies are only applied between iterations, the caches start empty and the classifier is one function of
      the target, the packet loop emits, between iterations, exactly the verdicts that the configurations its policies
      came from give, in order: for every packet sequence, clock and failure of allocation, insertion or deletion. */
  lemma LoopFollowsConfigurations(s: Sys, first: Source, acts: seq<Act>, sources: seq<Source>, hz: U64, cl: Classifier,
                                  parse: Str -> Ip)
    requires Init(s) && s.caches == Caches(EMPTY_CACHE, EMPTY_CACHE) && s.dnsOrigin == map[] && s.ipOrigin == map[]
    requires Usable(first, parse) && s.policies == [PolicyOf(first, parse)] && Supplies(acts, sources, parse)
    requires hz > 0 && Inv(s) && Runs(s, acts, hz) && QuietRun(s, acts, hz, cl)
    ensures Due(Exec(s, acts, hz), cl) == Ruled(first, first, acts, sources, cl, parse)
    ensures Exec(s, acts, hz).loop.Idle? ==> Exec(s, acts, hz).out == Ruled(first, first, acts, sources, cl, parse)
  {
    hide Inv, Runs, Exec, QuietRun, Usable, PolicyOf, Supplies, Ruled, Uncached, Decides;
    EmptyStartIsQuiet(s, cl);
    UsableOrder(first, parse);
    CachedLoopEqualsUncached(s, WithDefaults(PolicyOf(first, parse)), acts, hz, cl);
    UncachedIsRuled(first, first, acts, sources, cl, parse);
  }
}
