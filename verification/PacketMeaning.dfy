/** What the packet loop does with a packet, said in terms of the configuration its policy came from: which events it
    records, what it leaves in the caches, and for how long. */
module PacketMeaning {
  import opened Bytes
  import opened Options
  import opened Expiry
  import opened PolicyMerge
  import opened PolicyArrays
  import opened Filter
  import opened PolicyMeaning
  import opened NodeCache
  import opened CacheKeys
  import opened Forwarding
  import opened Pipeline

  /** Policies and where they come from **/

  /** A published configuration, the worker it is merged for, and the order in which its levels were loaded. */
  datatype Source = Source(cfg: Config, version: nat, id: nat, order: seq<Str>)

  ghost predicate Usable(src: Source, parse: Str -> Ip) {
    var p := PolicyFor(src.cfg, src.version, src.id);
    && WellFormed(src.cfg.global, parse) && WellFormed(Section(src.cfg, src.id), parse)
    && WithinCapacity(p, parse) && Enumerates(src.order, p.blockByTrust)
  }

  /** The arrays the worker loads. */
  function PolicyOf(src: Source, parse: Str -> Ip): (p: BasePolicy)
    requires Enumerates(src.order, PolicyFor(src.cfg, src.version, src.id).blockByTrust)
  {
    Loaded(PolicyFor(src.cfg, src.version, src.id), src.order, parse)
  }

  /** The configuration's own verdict on the target of a key; a target that cannot be classified is sent. */
  ghost predicate RulesSend(src: Source, k: Key, answer: Option<Classification>, parse: Str -> Ip) {
    var g, f := src.cfg.global, Section(src.cfg, src.id);
    answer.None? ||
    match k
    case DomainKey(buf) => RulesSendDomain(g, f, answer.value, CStr(buf))
    case Ip4Key(a) => RulesSendIp(g, f, answer.value, To4(a), parse)
    case Ip6Key(a) => RulesSendIp(g, f, answer.value, To6(a), parse)
  }

  /** The filter's verdict is the configuration's, with or without the defaults for the times to live. */
  lemma VerdictMeaning(src: Source, k: Key, answer: Option<Classification>, parse: Str -> Ip)
    requires Usable(src, parse)
    ensures Verdict(PolicyOf(src, parse), k, answer) <==> RulesSend(src, k, answer, parse)
    ensures Verdict(WithDefaults(PolicyOf(src, parse)), k, answer) <==> RulesSend(src, k, answer, parse)
  {
    hide Loaded, RulesSendDomain, RulesSendIp, DomainSends, IpSends, WellFormed, WithinCapacity;
    if answer.Some? {
      var p := PolicyOf(src, parse);
      match k
      case DomainKey(buf) =>
        DomainMeaning(src.cfg, src.version, src.id, src.order, parse, answer.value, CStr(buf));
        DefaultsSendAlike(p, answer.value, CStr(buf), To4(0));
      case Ip4Key(a) =>
        IpMeaning(src.cfg, src.version, src.id, src.order, parse, answer.value, To4(a));
        DefaultsSendAlike(p, answer.value, [], To4(a));
      case Ip6Key(a) =>
        IpMeaning(src.cfg, src.version, src.id, src.order, parse, answer.value, To6(a));
        DefaultsSendAlike(p, answer.value, [], To6(a));
    }
  }

  lemma DefaultsSendAlike(p: BasePolicy, c: Classification, domain: Str, d: Dest)
    ensures DomainSends(c, WithDefaults(p), domain) == DomainSends(c, p, domain)
    ensures IpSends(c, WithDefaults(p), d) == IpSends(c, p, d)
  {
    hide Listed, SlotsDisjoint, LevelsReached;
  }

  /** One packet **/

  /** The cache and the key a packet is looked up by: the domain cache and the whole domain field if the packet carries
      a name, else the address cache and the destination. */
  ghost predicate Concerns(i: Info, c: Caches, k: Key, cache: Cache) {
    if |i.domain| > 0 && i.domain[0] != 0 then k == DomainKey(i.domain) && cache == c.dns
    else if i.dest.To4? then k == Ip4Key(i.dest.a4) && cache == c.ip
    else k == Ip6Key(i.dest.a6) && cache == c.ip
  }

  /** Timer cycles from `from` to `to`, modulo 2^64. */
  function Cycles(from: U64, to: U64): (n: nat) {
    if to >= from then to - from else TWO64 - (from - to)
  }

  /** The cache has an entry for the key that is younger than its time to live. */
  ghost predicate Remembers(cache: Cache, k: Key, now: U64, hz: U64)
    requires Ok(cache)
  {
    k in cache.table &&
    var n := cache.nodes[cache.table[k]];
    Cycles(n.timestamp, now) < n.ttl * hz
  }

  /** The packet's part of the log. */
  ghost predicate Adds(n: Nic, n': Nic, events: seq<Event>) {
    n'.log == n.log + [Received] + events
  }

  lemma LogSplits(n: Nic, m: Nic, log: seq<Event>)
    requires m.log == n.log + [Received] && m.log <= log
    ensures log == n.log + [Received] + log[|n.log| + 1..]
  {
  }

  /** With filtering off every packet leaves on the out port, under every policy and whatever the caches hold, and the
      caches are not touched. */
  lemma UnfilteredPacket(c: Caches, n: Nic, p: BasePolicy, pkt: Packet, e: Env, hz: U64)
    requires CachesOk(c) && hz > 0 && LoopPolicy(p)
    requires AllPorts(n.ports) && pkt.buf in n.frames && |pkt.info.domain| > 0
    ensures var (c', n') := Step(c, n, p, true, pkt, e, hz);
            && c' == c
            && exists events :: Adds(n, n', events) && Leaves(events, pkt.buf, Out, n.frames[pkt.buf], e.transmits)
  {
    hide CachesOk, Decide, Dispose, Leaves;
    PacketEvents(n, pkt.buf, Send(Out), e.transmits);
  }

  /** With filtering on a packet for port 22 leaves on the exception port, and the caches are not touched. */
  lemma ExceptionPacket(c: Caches, n: Nic, p: BasePolicy, pkt: Packet, e: Env, hz: U64)
    requires CachesOk(c) && hz > 0 && LoopPolicy(p)
    requires AllPorts(n.ports) && pkt.buf in n.frames && |pkt.info.domain| > 0
    requires pkt.info.port == 22
    ensures var (c', n') := Step(c, n, p, false, pkt, e, hz);
            && c' == c
            && exists events ::
                 Adds(n, n', events) && Leaves(events, pkt.buf, Exception, n.frames[pkt.buf], e.transmits)
  {
    hide CachesOk, Decide, Dispose, Leaves;
    PacketEvents(n, pkt.buf, Send(Exception), e.transmits);
  }

  /** The events of a disposal after the packet was counted as received. */
  lemma PacketEvents(n: Nic, buf: Buf, a: Action, transmits: bool)
    requires AllPorts(n.ports) && buf in n.frames
    ensures var n' := Dispose(Note(n, Received), buf, In, a, transmits);
            exists events :: Adds(n, n', events) && Becomes(events, buf, a, n.frames[buf], transmits)
  {
    hide Dispose, Leaves;
    var m := Note(n, Received);
    var n' := Dispose(m, buf, In, a, transmits);
    DisposeRecords(m, buf, In, a, transmits);
    LogSplits(n, m, n'.log);
    assert Adds(n, n', n'.log[|n.log| + 1..]);
  }

  ghost predicate Becomes(events: seq<Event>, buf: Buf, a: Action, f: Frame, transmits: bool) {
    match a
    case Send(out) => Leaves(events, buf, out, f, transmits)
    case Drop => events == [Dropped, Freed(buf, Filtered)]
    case Fail => events == [Dropped, Freed(buf, LookupError)]
  }

  /** Any other packet is looked up. A failing table drops it; an entry that is still remembered decides; otherwise the
      rules of the configuration decide, by the classifier's answer. What is sent leaves on the out port, what is not is
      dropped and freed. Only the packet's own cache can change, and only by a miss. */
  lemma FilteredPacket(c: Caches, n: Nic, src: Source, parse: Str -> Ip, pkt: Packet, e: Env, hz: U64,
                       k: Key, cache: Cache)
    requires CachesOk(c) && hz > 0 && Usable(src, parse)
    requires AllPorts(n.ports) && pkt.buf in n.frames && |pkt.info.domain| > 0
    requires pkt.info.port != 22 && Concerns(pkt.info, c, k, cache)
    ensures Ok(cache)
    ensures var (c', n') := Step(c, n, WithDefaults(PolicyOf(src, parse)), false, pkt, e, hz);
            exists events :: Adds(n, n', events) &&
              if e.failing then c' == c && events == [Dropped, Freed(pkt.buf, LookupError)]
              else
                var hit := Remembers(cache, k, e.now, hz);
                var send := if hit then cache.nodes[cache.table[k]].send else RulesSend(src, k, e.answer, parse);
                && (if send then Leaves(events, pkt.buf, Out, n.frames[pkt.buf], e.transmits)
                    else events == [Dropped, Freed(pkt.buf, Filtered)])
                && (hit ==> c' == c)
                && (if k.DomainKey? then c'.ip == c.ip else c'.dns == c.dns)
  {
    hide Ok, Decide, Dispose, Leaves, RulesSend, Usable, PolicyOf, Remembers;
    UsableOrder(src, parse);
    KeyConcerned(pkt.info, c, k, cache);
    DecideMeaning(c, src, parse, k, e, hz);
    var a := Decide(c, WithDefaults(PolicyOf(src, parse)), k, e, hz).1;
    PacketEvents(n, pkt.buf, a, e.transmits);
    var n' := Step(c, n, WithDefaults(PolicyOf(src, parse)), false, pkt, e, hz).1;
    var events :| Adds(n, n', events) && Becomes(events, pkt.buf, a, n.frames[pkt.buf], e.transmits);
  }

  /** The same for the decision alone. */
  lemma DecideMeaning(c: Caches, src: Source, parse: Str -> Ip, k: Key, e: Env, hz: U64)
    requires CachesOk(c) && hz > 0 && Usable(src, parse)
    ensures var (c', a) := Decide(c, WithDefaults(PolicyOf(src, parse)), k, e, hz);
            var cache := if k.DomainKey? then c.dns else c.ip;
            var hit := Remembers(cache, k, e.now, hz);
            var send := if hit then cache.nodes[cache.table[k]].send else RulesSend(src, k, e.answer, parse);
            && a == (if e.failing then Fail else if send then Send(Out) else Drop)
            && (e.failing || hit ==> c' == c)
            && (if k.DomainKey? then c'.ip == c.ip else c'.dns == c.dns)
  {
    hide Ok, Verdict, RulesSend, Store, Lookup, Usable, PolicyOf;
    UsableOrder(src, parse);
    var cache := if k.DomainKey? then c.dns else c.ip;
    LookupAnswers(cache, k, e.now, hz, e.failing, e.deletes);
    LookupOk(cache, k, e.now, hz, e.failing, e.deletes);
    VerdictMeaning(src, k, e.answer, parse);
  }

  lemma KeyConcerned(i: Info, c: Caches, k: Key, cache: Cache)
    requires |i.domain| > 0 && Concerns(i, c, k, cache)
    ensures k == KeyOf(i) && cache == Pick(c, k)
  {
  }

  lemma LookupAnswers(cache: Cache, k: Key, now: U64, hz: U64, failing: bool, deletes: bool)
    requires Ok(cache) && hz > 0
    ensures var found := Lookup(cache, k, now, hz, failing, deletes).1;
            && (found.Failed? <==> failing)
            && (found.Hit? <==> !failing && Remembers(cache, k, now, hz))
            && (found.Hit? ==> k in cache.table && found.node == cache.table[k])
  {
    hide Ok, Lookup;
    OkIsLive(cache);
    LookupExact(cache, k, now, hz, failing, deletes);
  }

  /** Remembering **/

  /** What the worker's own section says about the time to live of names or addresses. */
  function OwnTtl(src: Source, names: bool): (r: Option<I32>) {
    if src.id !in src.cfg.filters then None
    else if names then src.cfg.filters[src.id].ttlDomain
    else src.cfg.filters[src.id].ttlIp
  }

  /** The time to live the configuration gives names or addresses; seven days if it gives none that is positive. */
  ghost predicate GivesTtl(src: Source, names: bool, t: int) {
    match (OwnTtl(src, names), if names then src.cfg.global.ttlDomain else src.cfg.global.ttlIp)
    case (Some(v), _) => t == if v > 0 then v else 604800
    case (None, Some(v)) => t == if v > 0 then v else 604800
    case (None, None) => t == 604800
  }

  lemma TtlGiven(src: Source, parse: Str -> Ip, k: Key, t: int)
    requires Enumerates(src.order, PolicyFor(src.cfg, src.version, src.id).blockByTrust)
    requires GivesTtl(src, k.DomainKey?, t)
    ensures TtlFor(WithDefaults(PolicyOf(src, parse)), k) == t
  {
    PolicySettings(src.cfg, src.version, src.id);
  }

  /** Every table key is the copy a key is stored under. */
  ghost predicate StoredKeysOnly(cache: Cache) {
    forall q | q in cache.table :: StoredKey(q) == q
  }

  /** A decision made on a miss is found again by its key exactly while the time to live the configuration gives has not
      passed since it was stored, provided the copy it is stored under is the key itself; otherwise never. */
  lemma MissIsRemembered(c: Caches, src: Source, parse: Str -> Ip, k: Key, e: Env, hz: U64, now: U64, deletes: bool,
                         t: int)
    requires CachesOk(c) && hz > 0 && Usable(src, parse) && GivesTtl(src, k.DomainKey?, t)
    requires StoredKeysOnly(if k.DomainKey? then c.dns else c.ip)
    requires !e.failing && !Remembers(if k.DomainKey? then c.dns else c.ip, k, e.now, hz) && e.outcome.Stored?
    ensures var c' := Decide(c, WithDefaults(PolicyOf(src, parse)), k, e, hz).0;
            var cache := if k.DomainKey? then c'.dns else c'.ip;
            && Ok(cache)
            && var found := Lookup(cache, k, now, hz, false, deletes).1;
               && (found.Hit? <==> StoredKey(k) == k && Cycles(e.later, now) < t * hz)
               && (found.Hit? ==>
                     && found.node in cache.nodes && cache.nodes[found.node].trust == 0
                     && cache.nodes[found.node].send == RulesSend(src, k, e.answer, parse))
  {
    hide Ok, Lookup, Verdict, RulesSend, Store, Usable, PolicyOf, Expired, StoredKey, GivesTtl;
    UsableOrder(src, parse);
    var p := WithDefaults(PolicyOf(src, parse));
    var was := if k.DomainKey? then c.dns else c.ip;
    LookupAnswers(was, k, e.now, hz, e.failing, e.deletes);
    LookupOk(was, k, e.now, hz, e.failing, e.deletes);
    LookupExact(was, k, e.now, hz, e.failing, e.deletes);
    LookupAddsNothing(was, k, e.now, hz, e.failing, e.deletes);
    VerdictMeaning(src, k, e.answer, parse);
    TtlGiven(src, parse, k, t);
    var c1 := Lookup(was, k, e.now, hz, e.failing, e.deletes).0;
    var d := Decision(Verdict(p, k, e.answer), 0, e.later, t);
    StoreThenLookup(c1, StoredKey(k), d, now, hz, deletes);
    var c2 := Store(c1, StoredKey(k), d, Stored);
    LookupOk(c2, k, now, hz, false, deletes);
    ExpiryExact(now, e.later, t, hz);
    if StoredKey(k) != k {
      LookupExact(c2, k, now, hz, false, deletes);
    }
  }

  lemma LookupAddsNothing(cache: Cache, k: Key, now: U64, hz: U64, failing: bool, deletes: bool)
    requires Ok(cache) && hz > 0
    ensures forall q | q in Lookup(cache, k, now, hz, failing, deletes).0.table :: q in cache.table
  {
  }

  lemma UsableOrder(src: Source, parse: Str -> Ip)
    requires Usable(src, parse)
    ensures Enumerates(src.order, PolicyFor(src.cfg, src.version, src.id).blockByTrust)
  {
  }
}
