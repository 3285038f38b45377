/** The packet loop's work on a burst: look the decision up, or make it and remember it, and dispose of the packet. */
module Pipeline {
  import opened Bytes
  import opened Options
  import opened Expiry
  import opened PolicyArrays
  import opened Filter
  import opened NodeCache
  import opened CacheKeys
  import opened Forwarding

  /** The one port whose traffic goes to the exception port unfiltered. */
  const EXCEPTION_PORTS: seq<nat> := [22]

  /** What parsing leaves in the packet description; `domain` is the whole zero-initialised field. */
  datatype Info = Info(domain: Str, port: nat, dest: Dest)

  datatype Packet = Packet(buf: Buf, info: Info)

  /** What the surroundings do while one packet is processed: the timer at the lookup and at the insertion, failures of
      the table, the classifier's answer, how storing ends, and whether transmission succeeds. */
  datatype Env = Env(
    now: U64,
    later: U64,
    failing: bool,
    deletes: bool,
    answer: Option<Classification>,
    outcome: StoreOutcome,
    transmits: bool)

  /** The cache key of a packet: its domain if it carries a DNS name, its destination otherwise. */
  function KeyOf(i: Info): (k: Key)
    requires |i.domain| > 0
  {
    if i.domain[0] != NUL then DomainKey(i.domain)
    else match i.dest
         case To4(a) => Ip4Key(a)
         case To6(a) => Ip6Key(a)
  }

  /** The decision without any cache. A target that cannot be classified is sent. */
  ghost predicate Verdict(p: BasePolicy, k: Key, answer: Option<Classification>) {
    answer.Some? ==>
      match k
      case DomainKey(buf) => DomainSends(answer.value, p, CStr(buf))
      case Ip4Key(a) => IpSends(answer.value, p, To4(a))
      case Ip6Key(a) => IpSends(answer.value, p, To6(a))
  }

  function TtlFor(p: BasePolicy, k: Key): (ttl: I32) {
    if k.DomainKey? then p.ttlDomain else p.ttlIp
  }

  /** The packet loop's copy of the policy: a time to live that is not positive becomes the default. */
  function WithDefaults(p: BasePolicy): (q: BasePolicy)
    ensures LoopPolicy(q)
  {
    p.(ttlDomain := EffectiveTtl(p.ttlDomain), ttlIp := EffectiveTtl(p.ttlIp))
  }

  predicate LoopPolicy(p: BasePolicy) {
    p.ttlDomain > 0 && p.ttlIp > 0
  }

  datatype Caches = Caches(dns: Cache, ip: Cache)

  function Pick(c: Caches, k: Key): (r: Cache) {
    if k.DomainKey? then c.dns else c.ip
  }

  function Put(c: Caches, k: Key, r: Cache): (c': Caches) {
    if k.DomainKey? then c.(dns := r) else c.(ip := r)
  }

  ghost predicate CachesOk(c: Caches) {
    Ok(c.dns) && Ok(c.ip)
  }

  /** Caches and fate of one packet that is neither an exception nor exempt from filtering. */
  ghost function Decide(c: Caches, p: BasePolicy, k: Key, e: Env, hz: U64): (r: (Caches, Action))
    requires CachesOk(c) && hz > 0 && LoopPolicy(p)
  {
    hide Ok, Lookup, Store, Verdict;
    LookupOk(Pick(c, k), k, e.now, hz, e.failing, e.deletes);
    var (c1, found) := Lookup(Pick(c, k), k, e.now, hz, e.failing, e.deletes);
    match found
    case Failed => (c, Fail)
    case Hit(n) => (c, if c1.nodes[n].send then Send(Out) else Drop)
    case Miss =>
      var send := Verdict(p, k, e.answer);
      (Put(c, k, Store(c1, StoredKey(k), Decision(send, 0, e.later, TtlFor(p, k)), e.outcome)),
       if send then Send(Out) else Drop)
  }

  /** One packet of a burst. */
  ghost function Step(c: Caches, n: Nic, p: BasePolicy, off: bool, pkt: Packet, e: Env, hz: U64): (r: (Caches, Nic))
    requires CachesOk(c) && hz > 0 && LoopPolicy(p)
    requires AllPorts(n.ports) && pkt.buf in n.frames && |pkt.info.domain| > 0
  {
    var m := Note(n, Received);
    if off then (c, Dispose(m, pkt.buf, In, Send(Out), e.transmits))
    else if pkt.info.port in EXCEPTION_PORTS then (c, Dispose(m, pkt.buf, In, Send(Exception), e.transmits))
    else
      var (c', a) := Decide(c, p, KeyOf(pkt.info), e, hz);
      (c', Dispose(m, pkt.buf, In, a, e.transmits))
  }

  lemma DecideOk(c: Caches, p: BasePolicy, k: Key, e: Env, hz: U64)
    requires CachesOk(c) && hz > 0 && LoopPolicy(p)
    ensures CachesOk(Decide(c, p, k, e, hz).0)
  {
    hide Ok, Verdict, Expired;
    LookupOk(Pick(c, k), k, e.now, hz, e.failing, e.deletes);
    var (c1, found) := Lookup(Pick(c, k), k, e.now, hz, e.failing, e.deletes);
    StoreOk(c1, StoredKey(k), Decision(Verdict(p, k, e.answer), 0, e.later, TtlFor(p, k)), e.outcome);
  }

  lemma StepOk(c: Caches, n: Nic, p: BasePolicy, off: bool, pkt: Packet, e: Env, hz: U64)
    requires CachesOk(c) && hz > 0 && LoopPolicy(p)
    requires NicOk(n) && pkt.buf in n.frames && |pkt.info.domain| > 0
    ensures var (c', n') := Step(c, n, p, off, pkt, e, hz);
            CachesOk(c') && Disposes(Note(n, Received), n', pkt.buf)
  {
    hide CachesOk, Decide, Disposes, Dispose;
    DecideOk(c, p, KeyOf(pkt.info), e, hz);
    NoteReceivedOk(n);
    var m := Note(n, Received);
    DisposeOk(m, pkt.buf, In, Send(Out), e.transmits);
    DisposeOk(m, pkt.buf, In, Send(Exception), e.transmits);
    DisposeOk(m, pkt.buf, In, Decide(c, p, KeyOf(pkt.info), e, hz).1, e.transmits);
  }

  /** Bursts **/

  ghost predicate Burst(pkts: seq<Packet>, n: Nic) {
    && (forall i | 0 <= i < |pkts| :: pkts[i].buf in n.frames && |pkts[i].info.domain| > 0)
    && (forall i, j | 0 <= i < j < |pkts| :: pkts[i].buf != pkts[j].buf)
  }

  function Bufs(pkts: seq<Packet>): (r: set<Buf>) {
    set i | 0 <= i < |pkts| :: pkts[i].buf
  }

  /** What a burst does: the buffers are gone, each was disposed of once, and the invariants hold. */
  ghost predicate BurstDone(n: Nic, n': Nic, pkts: seq<Packet>) {
    && NicOk(n') && PortsPersist(n, n')
    && n'.frames == n.frames - Bufs(pkts)
    && n'.tally.accepted == n.tally.accepted
    && n'.tally.disposed == n.tally.disposed + multiset(Bufs(pkts))
    && n'.tally.received == n.tally.received + |pkts|
  }

  lemma BurstNext(n: Nic, n1: Nic, n2: Nic, pkts: seq<Packet>, pkt: Packet)
    requires BurstDone(n, n1, pkts) && pkt.buf !in Bufs(pkts)
    requires Disposes(Note(n1, Received), n2, pkt.buf)
    ensures BurstDone(n, n2, pkts + [pkt])
  {
    hide NicOk;
    var all := pkts + [pkt];
    assert Bufs(all) == Bufs(pkts) + {pkt.buf} by {
      assert forall i | 0 <= i < |pkts| :: all[i] == pkts[i];
      assert all[|pkts|] == pkt;
    }
    assert multiset(Bufs(all)) == multiset(Bufs(pkts)) + multiset{pkt.buf};
    assert n.frames - Bufs(pkts) - {pkt.buf} == n.frames - Bufs(all);
  }

  /** The packets of a burst one after the other. */
  ghost function Steps(c: Caches, n: Nic, p: BasePolicy, off: bool, pkts: seq<Packet>, envs: seq<Env>, hz: U64)
    : (r: (Caches, Nic))
    requires CachesOk(c) && NicOk(n) && hz > 0 && LoopPolicy(p) && Burst(pkts, n) && |envs| == |pkts|
    ensures CachesOk(r.0) && BurstDone(n, r.1, pkts)
    decreases |pkts|
  {
    hide Ok, NicOk, Step, Disposes;
    if pkts == [] then
      NothingDone(n);
      (c, n)
    else
      var k := |pkts| - 1;
      var (c1, n1) := Steps(c, n, p, off, pkts[..k], envs[..k], hz);
      HasPorts(n1);
      StepOk(c1, n1, p, off, pkts[k], envs[k], hz);
      var (c2, n2) := Step(c1, n1, p, off, pkts[k], envs[k], hz);
      BurstNext(n, n1, n2, pkts[..k], pkts[k]);
      assert pkts == pkts[..k] + [pkts[k]];
      (c2, n2)
  }

  lemma NothingDone(n: Nic)
    requires NicOk(n)
    ensures BurstDone(n, n, [])
  {
    assert Bufs([]) == {} && n.frames - {} == n.frames;
  }

  /** In the source's form **/

  class PacketLoop {
    const dns: CacheObject
    const ip: CacheObject
    var nic: Nic

    constructor (dns: CacheObject, ip: CacheObject, nic: Nic)
      ensures this.dns == dns && this.ip == ip && this.nic == nic
    {
      this.dns, this.ip, this.nic := dns, ip, nic;
    }

    ghost function View(): Caches
      reads dns, ip
    {
      Caches(dns.c, ip.c)
    }

    ghost predicate Valid()
      reads this, dns, ip
    {
      dns != ip && CachesOk(View()) && NicOk(nic)
    }

    method LearnNeighborMac(at: PortId, other: PortId, buf: Buf)
      requires AllPorts(nic.ports) && buf in nic.frames
      modifies this
      ensures nic == Learn(old(nic), at, other, buf)
    {
      if nic.ports[at].neighbor.None? {
        var src := nic.frames[buf].src;
        if src != nic.ports[other].mac && src != nic.ports[at].mac {
          nic := nic.(ports := nic.ports[at := nic.ports[at].(neighbor := Some(src))],
                      against := nic.against[at := other]);
        }
      }
    }

    method ForwardPacket(buf: Buf, at: PortId, out: PortId, transmits: bool)
      requires AllPorts(nic.ports) && buf in nic.frames
      modifies this
      ensures nic == Forward(old(nic), buf, at, out, transmits)
    {
      LearnNeighborMac(at, out, buf);
      ghost var m := nic;
      var f := nic.frames[buf];
      f := f.(src := nic.ports[out].mac);
      f := f.(dst := if nic.ports[out].neighbor.Some? then nic.ports[out].neighbor.value else BROADCAST);
      if f.ipv4 {
        if f.ttl > 1 {
          f := f.(ttl := f.ttl - 1);
        } else {
          nic := Release(nic, buf, Freed(buf, TtlExpired));
          return;
        }
      }
      nic := nic.(frames := nic.frames[buf := f]);
      assert f == Addressed(Aged(m.frames[buf]), m.ports[out]);
      if transmits {
        nic := Release(nic, buf, Sent(buf, out, f));
      } else {
        nic := Note(nic, Dropped);
        nic := Release(nic, buf, Freed(buf, TxFailed));
      }
      nic := Note(nic, Passed);
    }

    method SendingDecision(send: bool, buf: Buf, out: PortId, transmits: bool)
      requires AllPorts(nic.ports) && buf in nic.frames
      modifies this
      ensures nic == Dispose(old(nic), buf, In, if send then Send(out) else Drop, transmits)
    {
      if send {
        ForwardPacket(buf, In, out, transmits);
        return;
      }
      nic := Note(nic, Dropped);
      nic := Release(nic, buf, Freed(buf, Filtered));
    }

    method ApplyFilter(p: BasePolicy, k: Key, answer: Option<Classification>) returns (send: bool)
      ensures send == Verdict(p, k, answer)
    {
      match answer {
        case None => send := true;
        case Some(c) =>
          match k {
            case DomainKey(buf) => send := FilterByDomain(c, p, CStr(buf));
            case Ip4Key(a) => send := FilterByIp(c, p, To4(a));
            case Ip6Key(a) => send := FilterByIp(c, p, To6(a));
          }
      }
    }

    /** Looks the key up in its cache; decides and remembers on a miss. */
    method LookupOrDecide(cache: CacheObject, p: BasePolicy, k: Key, buf: Buf, e: Env, hz: U64)
      requires Valid() && cache == (if k.DomainKey? then dns else ip)
      requires hz > 0 && LoopPolicy(p) && buf in nic.frames
      modifies this, cache
      ensures (View(), nic) ==
              (var (c', a) := Decide(old(View()), p, k, e, hz); (c', Dispose(old(nic), buf, In, a, e.transmits)))
    {
      hide Ok, NicOk, Verdict, Forward, Lookup, Store;
      HasPorts(nic);
      LookupOk(cache.c, k, e.now, hz, e.failing, e.deletes);
      var found := cache.Find(k, e.now, hz, e.failing, e.deletes);
      match found
      case Hit(n) =>
        SendingDecision(cache.c.nodes[n].send, buf, Out, e.transmits);
      case Miss =>
        var send := ApplyFilter(p, k, e.answer);
        SendingDecision(send, buf, Out, e.transmits);
        cache.Add(StoredKey(k), Decision(send, 0, e.later, TtlFor(p, k)), e.outcome);
      case Failed =>
        nic := Note(nic, Dropped);
        nic := Release(nic, buf, Freed(buf, LookupError));
    }

    method ProcessPacket(p: BasePolicy, off: bool, pkt: Packet, e: Env, hz: U64)
      requires Valid() && hz > 0 && LoopPolicy(p) && pkt.buf in nic.frames && |pkt.info.domain| > 0
      modifies this, dns, ip
      ensures (View(), nic) == Step(old(View()), old(nic), p, off, pkt, e, hz)
      ensures Valid() && Disposes(Note(old(nic), Received), nic, pkt.buf)
    {
      hide Ok, Decide, Dispose;
      StepOk(View(), nic, p, off, pkt, e, hz);
      NoteReceivedOk(nic);
      nic := Note(nic, Received);
      if off {
        SendingDecision(true, pkt.buf, Out, e.transmits);
      } else if pkt.info.port in EXCEPTION_PORTS {
        SendingDecision(true, pkt.buf, Exception, e.transmits);
      } else if pkt.info.domain[0] == NUL {
        LookupOrDecide(ip, p, KeyOf(pkt.info), pkt.buf, e, hz);
      } else {
        LookupOrDecide(dns, p, KeyOf(pkt.info), pkt.buf, e, hz);
      }
    }

    /** A whole burst, with or without filtering. */
    method ProcessBurst(p: BasePolicy, off: bool, pkts: seq<Packet>, envs: seq<Env>, hz: U64)
      requires Valid() && hz > 0 && LoopPolicy(p) && Burst(pkts, nic) && |envs| == |pkts|
      modifies this, dns, ip
      ensures Valid() && BurstDone(old(nic), nic, pkts)
      ensures (View(), nic) == Steps(old(View()), old(nic), p, off, pkts, envs, hz)
    {
      hide Ok, Step, Disposes, NicOk, BurstDone;
      ghost var c0, n0 := View(), nic;
      for i := 0 to |pkts|
        invariant Valid() && Burst(pkts[..i], n0)
        invariant (View(), nic) == Steps(c0, n0, p, off, pkts[..i], envs[..i], hz)
      {
        assert pkts[..i + 1][..i] == pkts[..i] && envs[..i + 1][..i] == envs[..i];
        StillOwned(n0, nic, pkts, i);
        ProcessPacket(p, off, pkts[i], envs[i], hz);
      }
      assert pkts[..|pkts|] == pkts && envs[..|envs|] == envs;
    }

    /** Relays everything that came in on a port; nothing is counted as received. */
    method ForwardToOut(at: PortId, out: PortId, bufs: seq<Buf>, transmits: seq<bool>)
      requires AllPorts(nic.ports) && |transmits| == |bufs|
      requires forall i | 0 <= i < |bufs| :: bufs[i] in nic.frames
      requires forall i, j | 0 <= i < j < |bufs| :: bufs[i] != bufs[j]
      modifies this
      ensures Runs(old(nic), Relays(bufs, at, out, transmits))
      ensures nic == Exec(old(nic), Relays(bufs, at, out, transmits))
      ensures forall b :: b in nic.frames <==> b in old(nic).frames && b !in bufs
      ensures OnlySentOn(old(nic).log, nic.log, out)
    {
      hide Runs, Exec, Forward, OnlySentOn;
      NothingSent(nic.log, out);
      NoOps(nic);
      assert Relays(bufs[..0], at, out, transmits[..0]) == [];
      for i := 0 to |bufs|
        invariant AllPorts(nic.ports)
        invariant forall b :: b in nic.frames <==> b in old(nic).frames && b !in bufs[..i]
        invariant Runs(old(nic), Relays(bufs[..i], at, out, transmits[..i]))
        invariant nic == Exec(old(nic), Relays(bufs[..i], at, out, transmits[..i]))
        invariant OnlySentOn(old(nic).log, nic.log, out)
      {
        ForwardSendsOn(old(nic).log, nic, bufs[i], at, out, transmits[i]);
        var op := Settle(bufs[i], at, Send(out), transmits[i]);
        ForwardTakes(nic, bufs[i], at, out, transmits[i]);
        ExecMore(old(nic), Relays(bufs[..i], at, out, transmits[..i]), op);
        ForwardPacket(bufs[i], at, out, transmits[i]);
        assert Relays(bufs[..i + 1], at, out, transmits[..i + 1]) == Relays(bufs[..i], at, out, transmits[..i]) + [op];
      }
      assert bufs[..|bufs|] == bufs && transmits[..|bufs|] == transmits;
    }
  }

  /** The log goes on, and what it adds is sent on `out` only, and counted as received never. */
  ghost predicate OnlySentOn(before: seq<Event>, after: seq<Event>, out: PortId) {
    && before <= after
    && forall i | |before| <= i < |after| :: !after[i].Received? && (after[i].Sent? ==> after[i].port == out)
  }

  lemma NothingSent(log: seq<Event>, out: PortId)
    ensures OnlySentOn(log, log, out)
  {
  }

  lemma ForwardSendsOn(before: seq<Event>, n: Nic, buf: Buf, at: PortId, out: PortId, transmits: bool)
    requires AllPorts(n.ports) && buf in n.frames && OnlySentOn(before, n.log, out)
    ensures OnlySentOn(before, Forward(n, buf, at, out, transmits).log, out)
  {
    hide Forward;
    DisposeRecords(n, buf, at, Send(out), transmits);
    var log := Forward(n, buf, at, out, transmits).log;
    assert forall i | |n.log| <= i < |log| :: log[i] == log[|n.log|..][i - |n.log|];
  }

  function Relays(bufs: seq<Buf>, at: PortId, out: PortId, transmits: seq<bool>): (ops: seq<Op>)
    requires |transmits| == |bufs|
  {
    seq(|bufs|, i requires 0 <= i < |bufs| => Settle(bufs[i], at, Send(out), transmits[i]))
  }

  lemma NoOps(n: Nic)
    ensures Runs(n, []) && Exec(n, []) == n
  {
  }

  lemma ForwardTakes(n: Nic, buf: Buf, at: PortId, out: PortId, transmits: bool)
    requires AllPorts(n.ports) && buf in n.frames
    ensures AllPorts(Forward(n, buf, at, out, transmits).ports)
    ensures Forward(n, buf, at, out, transmits).frames.Keys == n.frames.Keys - {buf}
  {
    hide Forward;
    ForwardCounts(n, buf, at, out, transmits);
  }

  lemma StillOwned(n: Nic, n': Nic, pkts: seq<Packet>, i: nat)
    requires Burst(pkts, n) && i < |pkts| && BurstDone(n, n', pkts[..i])
    ensures pkts[i].buf in n'.frames && Burst(pkts[..i + 1], n)
  {
    hide NicOk;
    assert pkts[i].buf !in Bufs(pkts[..i]);
  }
}
