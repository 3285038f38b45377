/** Disposal of packet buffers: every received buffer is handed to a port or freed. On the way frames are rewritten in
    place, neighbours are learned, and the events the metrics count are recorded. */
module Forwarding {
  import opened Options

  type Mac = m: int | 0 <= m < 0x1_0000_0000_0000

  const BROADCAST: Mac := 0xffff_ffff_ffff

  type Buf = nat

  datatype PortId = In | Out | Exception

  datatype Port = Port(mac: Mac, neighbor: Option<Mac>)

  /** The parts of a frame that forwarding reads or writes. */
  datatype Frame = Frame(src: Mac, dst: Mac, ipv4: bool, ttl: nat)

  datatype Cause = TtlExpired | TxFailed | Filtered | LookupError

  datatype Event =
    | Rx(buf: Buf)
    | Received
    | Passed
    | Dropped
    | Sent(buf: Buf, port: PortId, frame: Frame)
    | Freed(buf: Buf, cause: Cause)

  /** Tallies **/

  datatype Tally = Tally(
    accepted: multiset<Buf>,
    disposed: multiset<Buf>,
    received: nat,
    passed: nat,
    dropped: nat,
    sent: nat,
    ttlExpired: nat,
    txFailed: nat,
    filtered: nat,
    lookupErrors: nat)

  const NO_EVENTS := Tally(multiset{}, multiset{}, 0, 0, 0, 0, 0, 0, 0, 0)

  function Counted(t: Tally, e: Event): (t': Tally) {
    match e
    case Rx(buf) => t.(accepted := t.accepted + multiset{buf})
    case Received => t.(received := t.received + 1)
    case Passed => t.(passed := t.passed + 1)
    case Dropped => t.(dropped := t.dropped + 1)
    case Sent(buf, _, _) => t.(disposed := t.disposed + multiset{buf}, sent := t.sent + 1)
    case Freed(buf, TtlExpired) => t.(disposed := t.disposed + multiset{buf}, ttlExpired := t.ttlExpired + 1)
    case Freed(buf, TxFailed) => t.(disposed := t.disposed + multiset{buf}, txFailed := t.txFailed + 1)
    case Freed(buf, Filtered) => t.(disposed := t.disposed + multiset{buf}, filtered := t.filtered + 1)
    case Freed(buf, LookupError) => t.(disposed := t.disposed + multiset{buf}, lookupErrors := t.lookupErrors + 1)
  }

  function TallyOf(log: seq<Event>): (t: Tally) {
    if log == [] then NO_EVENTS else Counted(TallyOf(log[..|log| - 1]), log[|log| - 1])
  }

  lemma TallyNext(log: seq<Event>, e: Event)
    ensures TallyOf(log + [e]) == Counted(TallyOf(log), e)
  {
    assert (log + [e])[..|log|] == log;
  }

  /** `frames` holds exactly the buffers the worker owns, so a buffer that was disposed of cannot be touched.
      `tally` sums the log up, and `against` remembers the counterpart port a neighbour was learned against. */
  datatype Nic = Nic(
    ports: map<PortId, Port>,
    frames: map<Buf, Frame>,
    log: seq<Event>,
    tally: Tally,
    against: map<PortId, PortId>)

  ghost predicate AllPorts(ports: map<PortId, Port>) {
    forall id: PortId :: id in ports
  }

  /** Steps **/

  /** The first foreign source address seen on a port is its neighbour. */
  predicate Learns(p: Port, other: Port, src: Mac) {
    p.neighbor.None? && src != other.mac && src != p.mac
  }

  function Learn(n: Nic, at: PortId, other: PortId, buf: Buf): (n': Nic)
    requires at in n.ports && other in n.ports && buf in n.frames
  {
    var src := n.frames[buf].src;
    if Learns(n.ports[at], n.ports[other], src)
    then n.(ports := n.ports[at := n.ports[at].(neighbor := Some(src))], against := n.against[at := other])
    else n
  }

  function Addressed(f: Frame, out: Port): (f': Frame) {
    f.(src := out.mac, dst := if out.neighbor.Some? then out.neighbor.value else BROADCAST)
  }

  function Note(n: Nic, e: Event): (n': Nic) {
    n.(log := n.log + [e], tally := Counted(n.tally, e))
  }

  function Release(n: Nic, buf: Buf, e: Event): (n': Nic) {
    Note(n.(frames := n.frames - {buf}), e)
  }

  /** Transmission of a rewritten frame, or the error path, which records the packet as dropped and as passed. */
  function Transmit(n: Nic, buf: Buf, out: PortId, transmits: bool): (n': Nic)
    requires buf in n.frames
  {
    if transmits then Note(Release(n, buf, Sent(buf, out, n.frames[buf])), Passed)
    else Note(Release(Note(n, Dropped), buf, Freed(buf, TxFailed)), Passed)
  }

  predicate UsedUp(f: Frame) {
    f.ipv4 && f.ttl <= 1
  }

  /** Forwarding counts the time to live of an IPv4 frame down. */
  function Aged(f: Frame): (f': Frame)
    requires !UsedUp(f)
  {
    if f.ipv4 then f.(ttl := f.ttl - 1) else f
  }

  /** A frame whose time is used up is freed uncounted. */
  function Relay(n: Nic, buf: Buf, out: PortId, transmits: bool): (n': Nic)
    requires out in n.ports && buf in n.frames
  {
    var f := n.frames[buf];
    if UsedUp(f) then Release(n, buf, Freed(buf, TtlExpired))
    else Transmit(n.(frames := n.frames[buf := Addressed(Aged(f), n.ports[out])]), buf, out, transmits)
  }

  function Forward(n: Nic, buf: Buf, at: PortId, out: PortId, transmits: bool): (n': Nic)
    requires at in n.ports && out in n.ports && buf in n.frames
  {
    Relay(Learn(n, at, out, buf), buf, out, transmits)
  }

  /** What is to become of a received packet. */
  datatype Action = Send(out: PortId) | Drop | Fail

  function Dispose(n: Nic, buf: Buf, at: PortId, a: Action, transmits: bool): (n': Nic)
    requires at in n.ports && buf in n.frames && (a.Send? ==> a.out in n.ports)
  {
    match a
    case Send(out) => Forward(n, buf, at, out, transmits)
    case Drop => Release(Note(n, Dropped), buf, Freed(buf, Filtered))
    case Fail => Release(Note(n, Dropped), buf, Freed(buf, LookupError))
  }

  /** The driver hands over a buffer it has free. */
  function Accept(n: Nic, buf: Buf, f: Frame): (n': Nic) {
    Note(n.(frames := n.frames[buf := f]), Rx(buf))
  }

  /** Invariants over all runs **/

  /** Every buffer was disposed of exactly as often as it was received, not counting the ones still owned; so once
      nothing is owned, each reception has exactly one disposal. */
  ghost predicate Conserves(t: Tally, owned: set<Buf>) {
    t.accepted == t.disposed + multiset(owned)
  }

  /** What the counters mean. A transmission failure counts on both sides, an expired frame on neither. */
  ghost predicate Balanced(t: Tally) {
    && t.passed == t.sent + t.txFailed
    && t.dropped == t.filtered + t.lookupErrors + t.txFailed
  }

  /** A learned neighbour is neither the port itself nor the counterpart it was learned against. */
  ghost predicate ForeignNeighbors(ports: map<PortId, Port>, against: map<PortId, PortId>) {
    && (forall id | id in ports && ports[id].neighbor.Some? ::
          ports[id].neighbor.value != ports[id].mac && id in against)
    && (forall id, other | id in ports && other in ports && ports[id].neighbor.Some? ::
          id in against && against[id] == other ==> ports[id].neighbor.value != ports[other].mac)
  }

  /** The frame left with the port's own address as its source, for the port's neighbour or everybody. */
  ghost predicate AddressedBy(e: Event, ports: map<PortId, Port>) {
    e.Sent? ==>
      && e.port in ports
      && e.frame.src == ports[e.port].mac
      && (e.frame.dst == BROADCAST || ports[e.port].neighbor == Some(e.frame.dst))
  }

  /** Every frame ever sent was so addressed, judged by the ports as they are now. */
  ghost predicate WellAddressed(ports: map<PortId, Port>, log: seq<Event>) {
    forall i | 0 <= i < |log| :: AddressedBy(log[i], ports)
  }

  ghost predicate NicOk(n: Nic) {
    && AllPorts(n.ports)
    && Conserves(n.tally, n.frames.Keys)
    && Balanced(n.tally)
    && ForeignNeighbors(n.ports, n.against)
    && WellAddressed(n.ports, n.log)
  }

  /** Port addresses and learned neighbours never change. */
  ghost predicate PortsPersist(n: Nic, n': Nic) {
    forall id | id in n.ports ::
      && id in n'.ports && n'.ports[id].mac == n.ports[id].mac
      && (n.ports[id].neighbor.Some? ==> n'.ports[id].neighbor == n.ports[id].neighbor)
  }

  /** A disposal of one buffer, as the tally sees it. */
  ghost predicate Tallies(t: Tally, t': Tally, buf: Buf) {
    t'.accepted == t.accepted && t'.disposed == t.disposed + multiset{buf} && t'.received == t.received
  }

  lemma ConservesLess(t: Tally, t': Tally, owned: set<Buf>, buf: Buf)
    requires Conserves(t, owned) && Tallies(t, t', buf) && buf in owned
    ensures Conserves(t', owned - {buf})
  {
    assert multiset(owned) == multiset(owned - {buf}) + multiset{buf};
  }

  lemma HasPorts(n: Nic)
    requires NicOk(n)
    ensures AllPorts(n.ports)
  {
  }

  lemma AcceptOk(n: Nic, buf: Buf, f: Frame)
    requires NicOk(n) && buf !in n.frames
    ensures NicOk(Accept(n, buf, f)) && PortsPersist(n, Accept(n, buf, f))
  {
    assert n.frames[buf := f].Keys == n.frames.Keys + {buf};
    assert multiset(n.frames.Keys + {buf}) == multiset(n.frames.Keys) + multiset{buf};
  }

  lemma NoteReceivedOk(n: Nic)
    requires NicOk(n)
    ensures NicOk(Note(n, Received)) && PortsPersist(n, Note(n, Received))
  {
  }

  /** What a disposal of `buf` does to a good state. */
  ghost predicate Disposes(n: Nic, n': Nic, buf: Buf) {
    NicOk(n') && PortsPersist(n, n') && n'.frames == n.frames - {buf} && Tallies(n.tally, n'.tally, buf)
  }

  /** A state that ends with `buf` released, reached from `n` by recording events that keep the books balanced. */
  lemma ReleaseOk(n: Nic, n': Nic, buf: Buf)
    requires NicOk(n) && buf in n.frames
    requires n'.ports == n.ports && n'.against == n.against && n'.frames == n.frames - {buf}
    requires Tallies(n.tally, n'.tally, buf) && Balanced(n'.tally)
    requires WellAddressed(n'.ports, n'.log)
    ensures Disposes(n, n', buf)
  {
    ConservesLess(n.tally, n'.tally, n.frames.Keys, buf);
    assert n'.frames.Keys == n.frames.Keys - {buf};
  }

  /** A disposal takes the buffer away, accounts for it once, and keeps every invariant. */
  lemma DisposeOk(n: Nic, buf: Buf, at: PortId, a: Action, transmits: bool)
    requires NicOk(n) && buf in n.frames
    ensures Disposes(n, Dispose(n, buf, at, a, transmits), buf)
  {
    match a
    case Send(out) =>
      ForwardOk(n, buf, at, out, transmits);
    case _ =>
      ReleaseOk(n, Dispose(n, buf, at, a, transmits), buf);
  }

  lemma LearnOk(n: Nic, at: PortId, other: PortId, buf: Buf)
    requires NicOk(n) && buf in n.frames
    ensures NicOk(Learn(n, at, other, buf)) && PortsPersist(n, Learn(n, at, other, buf))
  {
    var n' := Learn(n, at, other, buf);
    forall i | 0 <= i < |n.log| ensures AddressedBy(n.log[i], n'.ports) {
      assert AddressedBy(n.log[i], n.ports);
    }
  }

  lemma ForwardOk(n: Nic, buf: Buf, at: PortId, out: PortId, transmits: bool)
    requires NicOk(n) && buf in n.frames
    ensures Disposes(n, Forward(n, buf, at, out, transmits), buf)
  {
    hide NicOk, Disposes, PortsPersist, Relay;
    HasPorts(n);
    var m := Learn(n, at, out, buf);
    LearnOk(n, at, out, buf);
    HasPorts(m);
    RelayOk(m, buf, out, transmits);
    AfterLearning(n, m, Relay(m, buf, out, transmits), buf);
  }

  lemma AfterLearning(n: Nic, m: Nic, n': Nic, buf: Buf)
    requires PortsPersist(n, m) && m.frames == n.frames && m.tally == n.tally
    requires Disposes(m, n', buf)
    ensures Disposes(n, n', buf)
  {
  }

  lemma RelayOk(n: Nic, buf: Buf, out: PortId, transmits: bool)
    requires NicOk(n) && buf in n.frames
    ensures Disposes(n, Relay(n, buf, out, transmits), buf)
  {
    var f := n.frames[buf];
    if UsedUp(f) {
      ReleaseOk(n, Release(n, buf, Freed(buf, TtlExpired)), buf);
    } else {
      TransmitOk(n, buf, Addressed(Aged(f), n.ports[out]), out, transmits);
    }
  }

  lemma TransmitOk(m: Nic, buf: Buf, f: Frame, out: PortId, transmits: bool)
    requires NicOk(m) && buf in m.frames && f == Addressed(f, m.ports[out])
    ensures Disposes(m, Transmit(m.(frames := m.frames[buf := f]), buf, out, transmits), buf)
  {
    var n' := Transmit(m.(frames := m.frames[buf := f]), buf, out, transmits);
    assert m.frames[buf := f] - {buf} == m.frames - {buf};
    assert transmits ==> AddressedBy(Sent(buf, out, f), m.ports);
    ReleaseOk(m, n', buf);
  }

  /** The tally is the sum of the log: every step only appends to the log what it counts. */
  ghost predicate SumsUp(n: Nic) {
    n.tally == TallyOf(n.log)
  }

  lemma NoteSumsUp(n: Nic, e: Event)
    requires SumsUp(n)
    ensures SumsUp(Note(n, e))
  {
    TallyNext(n.log, e);
  }

  lemma DisposeSumsUp(n: Nic, buf: Buf, at: PortId, a: Action, transmits: bool)
    requires AllPorts(n.ports) && buf in n.frames && SumsUp(n)
    ensures SumsUp(Dispose(n, buf, at, a, transmits))
  {
    NoteSumsUp(n, Dropped);
    match a
    case Send(out) =>
      var m := Learn(n, at, out, buf);
      var f := m.frames[buf];
      if UsedUp(f) {
        NoteSumsUp(m.(frames := m.frames - {buf}), Freed(buf, TtlExpired));
      } else {
        TransmitSumsUp(m.(frames := m.frames[buf := Addressed(Aged(f), m.ports[out])]), buf, out, transmits);
      }
    case Drop => NoteSumsUp(Note(n, Dropped), Freed(buf, Filtered));
    case Fail => NoteSumsUp(Note(n, Dropped), Freed(buf, LookupError));
  }

  lemma TransmitSumsUp(n: Nic, buf: Buf, out: PortId, transmits: bool)
    requires buf in n.frames && SumsUp(n)
    ensures SumsUp(Transmit(n, buf, out, transmits))
  {
    if transmits {
      var m := Release(n, buf, Sent(buf, out, n.frames[buf]));
      NoteSumsUp(n.(frames := n.frames - {buf}), Sent(buf, out, n.frames[buf]));
      NoteSumsUp(m, Passed);
    } else {
      NoteSumsUp(n, Dropped);
      NoteSumsUp(Note(n, Dropped).(frames := n.frames - {buf}), Freed(buf, TxFailed));
      NoteSumsUp(Release(Note(n, Dropped), buf, Freed(buf, TxFailed)), Passed);
    }
  }

  /** Whole runs **/

  /** The driver may hand over any buffer the worker does not own; only owned buffers can be disposed of. */
  datatype Op = Take(buf: Buf, frame: Frame) | Count | Settle(buf: Buf, at: PortId, action: Action, transmits: bool)

  ghost predicate Enabled(n: Nic, o: Op) {
    match o
    case Take(buf, f) => buf !in n.frames
    case Count => true
    case Settle(buf, at, a, transmits) => AllPorts(n.ports) && buf in n.frames
  }

  function Apply(n: Nic, o: Op): (n': Nic)
    requires Enabled(n, o)
  {
    match o
    case Take(buf, f) => Accept(n, buf, f)
    case Count => Note(n, Received)
    case Settle(buf, at, a, transmits) => Dispose(n, buf, at, a, transmits)
  }

  ghost predicate Runs(n: Nic, ops: seq<Op>)
    decreases ops
  {
    ops != [] ==> Enabled(n, ops[0]) && Runs(Apply(n, ops[0]), ops[1..])
  }

  function Exec(n: Nic, ops: seq<Op>): (n': Nic)
    requires Runs(n, ops)
    decreases ops
  {
    if ops == [] then n else Exec(Apply(n, ops[0]), ops[1..])
  }

  lemma ApplyOk(n: Nic, o: Op)
    requires NicOk(n) && SumsUp(n) && Enabled(n, o)
    ensures NicOk(Apply(n, o)) && SumsUp(Apply(n, o)) && PortsPersist(n, Apply(n, o))
  {
    hide NicOk, SumsUp, Dispose, Note, PortsPersist;
    match o
    case Take(buf, f) =>
      AcceptOk(n, buf, f);
      AcceptSumsUp(n, buf, f);
    case Count =>
      NoteReceivedOk(n);
      NoteSumsUp(n, Received);
    case Settle(buf, at, a, transmits) =>
      DisposeOk(n, buf, at, a, transmits);
      DisposeSumsUp(n, buf, at, a, transmits);
  }

  lemma AcceptSumsUp(n: Nic, buf: Buf, f: Frame)
    requires SumsUp(n)
    ensures SumsUp(Accept(n, buf, f))
  {
    NoteSumsUp(n.(frames := n.frames[buf := f]), Rx(buf));
  }

  lemma PortsPersistOn(n: Nic, m: Nic, k: Nic)
    requires PortsPersist(n, m) && PortsPersist(m, k)
    ensures PortsPersist(n, k)
  {
  }

  /** Every run keeps the invariants, and no run changes a port's address or a neighbour once learned. */
  lemma {:induction false} ExecOk(n: Nic, ops: seq<Op>)
    requires NicOk(n) && SumsUp(n) && Runs(n, ops)
    ensures NicOk(Exec(n, ops)) && SumsUp(Exec(n, ops)) && PortsPersist(n, Exec(n, ops))
    decreases ops
  {
    hide NicOk, SumsUp, PortsPersist, Apply, Enabled;
    if ops == [] {
      SamePorts(n);
    } else {
      var m := Apply(n, ops[0]);
      ApplyOk(n, ops[0]);
      ExecOk(m, ops[1..]);
      PortsPersistOn(n, m, Exec(n, ops));
    }
  }

  lemma SamePorts(n: Nic)
    ensures PortsPersist(n, n)
  {
  }

  ghost predicate Started(n: Nic) {
    && AllPorts(n.ports) && (forall id <- n.ports :: n.ports[id].neighbor.None?)
    && n.frames == map[] && n.log == [] && n.tally == NO_EVENTS
  }

  /** What the operations of a run ask for **/

  function Forwards(ops: seq<Op>): (k: nat) {
    if ops == [] then 0 else (if ops[0].Settle? && ops[0].action.Send? then 1 else 0) + Forwards(ops[1..])
  }

  function Drops(ops: seq<Op>): (k: nat) {
    if ops == [] then 0 else (if ops[0].Settle? && ops[0].action.Drop? then 1 else 0) + Drops(ops[1..])
  }

  function Fails(ops: seq<Op>): (k: nat) {
    if ops == [] then 0 else (if ops[0].Settle? && ops[0].action.Fail? then 1 else 0) + Fails(ops[1..])
  }

  function Receipts(ops: seq<Op>): (k: nat) {
    if ops == [] then 0 else (if ops[0].Count? then 1 else 0) + Receipts(ops[1..])
  }

  lemma RelayCounts(n: Nic, buf: Buf, out: PortId, transmits: bool)
    requires out in n.ports && buf in n.frames
    ensures var m := Relay(n, buf, out, transmits); var t, u := n.tally, m.tally;
            && m.ports == n.ports && m.frames == n.frames - {buf}
            && u.sent == t.sent + (if UsedUp(n.frames[buf]) || !transmits then 0 else 1)
            && u.passed + u.ttlExpired == t.passed + t.ttlExpired + 1
            && u.dropped - u.txFailed == t.dropped - t.txFailed && u.received == t.received
            && u.filtered == t.filtered && u.lookupErrors == t.lookupErrors
  {
    var f := n.frames[buf];
    if !UsedUp(f) {
      assert n.frames[buf := Addressed(Aged(f), n.ports[out])] - {buf} == n.frames - {buf};
    }
  }

  /** A forward takes its buffer, sends at most once, and is passed or expired. */
  lemma ForwardCounts(n: Nic, buf: Buf, at: PortId, out: PortId, transmits: bool)
    requires AllPorts(n.ports) && buf in n.frames
    ensures var m := Forward(n, buf, at, out, transmits); var t, u := n.tally, m.tally;
            && AllPorts(m.ports) && m.frames == n.frames - {buf}
            && u.sent == t.sent + (if UsedUp(n.frames[buf]) || !transmits then 0 else 1)
            && u.passed + u.ttlExpired == t.passed + t.ttlExpired + 1
            && u.dropped - u.txFailed == t.dropped - t.txFailed && u.received == t.received
            && u.filtered == t.filtered && u.lookupErrors == t.lookupErrors
  {
    hide Relay;
    RelayCounts(Learn(n, at, out, buf), buf, out, transmits);
  }

  lemma ApplyCounts(n: Nic, o: Op)
    requires Enabled(n, o)
    ensures var t, u := n.tally, Apply(n, o).tally;
            && u.passed + u.ttlExpired == t.passed + t.ttlExpired + Forwards([o])
            && u.dropped - u.txFailed == t.dropped - t.txFailed + Drops([o]) + Fails([o])
            && u.filtered == t.filtered + Drops([o]) && u.lookupErrors == t.lookupErrors + Fails([o])
            && u.received == t.received + Receipts([o])
  {
    hide Forward;
    assert [o][1..] == [];
    if o.Settle? && o.action.Send? {
      ForwardCounts(n, o.buf, o.at, o.action.out, o.transmits);
    }
  }

  lemma {:induction false} ExecCounts(n: Nic, ops: seq<Op>)
    requires Runs(n, ops)
    ensures var t, u := n.tally, Exec(n, ops).tally;
            && u.passed + u.ttlExpired == t.passed + t.ttlExpired + Forwards(ops)
            && u.dropped - u.txFailed == t.dropped - t.txFailed + Drops(ops) + Fails(ops)
            && u.filtered == t.filtered + Drops(ops) && u.lookupErrors == t.lookupErrors + Fails(ops)
            && u.received == t.received + Receipts(ops)
    decreases ops
  {
    hide Apply, Enabled;
    if ops == [] {
    } else {
      ApplyCounts(n, ops[0]);
      ExecCounts(Apply(n, ops[0]), ops[1..]);
      assert [ops[0]][1..] == [];
    }
  }

  /** The books of every run from the start, its log summed up against its operations: receptions are disposals and
      owned buffers; passed packets are the forwards whose frame had time to live left; dropped packets are filter
      drops, lookup errors and failed transmissions; a failed transmission counts on both sides. */
  lemma LogsBalance(n: Nic, ops: seq<Op>)
    requires Started(n) && Runs(n, ops)
    ensures var m := Exec(n, ops); var t := TallyOf(m.log);
            && t.accepted == t.disposed + multiset(m.frames.Keys)
            && t.passed == Forwards(ops) - t.ttlExpired == t.sent + t.txFailed
            && t.dropped == Drops(ops) + Fails(ops) + t.txFailed
            && t.filtered == Drops(ops) && t.lookupErrors == Fails(ops)
            && t.received == Receipts(ops)
  {
    hide NicOk, SumsUp, Exec, Runs, Forwards, Drops, Fails, Receipts;
    StartedOk(n);
    ExecOk(n, ops);
    BooksOf(Exec(n, ops));
    ExecCounts(n, ops);
  }

  lemma StartedOk(n: Nic)
    requires Started(n)
    ensures NicOk(n) && SumsUp(n)
  {
  }

  lemma BooksOf(n: Nic)
    requires NicOk(n) && SumsUp(n)
    ensures n.tally == TallyOf(n.log) && Conserves(n.tally, n.frames.Keys) && Balanced(n.tally)
    ensures WellAddressed(n.ports, n.log) && ForeignNeighbors(n.ports, n.against)
  {
  }

  /** Every frame sent in a run from the start left with its port's address, for the port's neighbour or everybody; and
      no neighbour is its own port or the port it was learned against. */
  lemma LogsAreWellAddressed(n: Nic, ops: seq<Op>)
    requires Started(n) && Runs(n, ops)
    ensures var m := Exec(n, ops); WellAddressed(m.ports, m.log) && ForeignNeighbors(m.ports, m.against)
  {
    hide NicOk, SumsUp, Exec, Runs, WellAddressed, ForeignNeighbors;
    StartedOk(n);
    ExecOk(n, ops);
    BooksOf(Exec(n, ops));
  }

  lemma {:induction false} ExecMore(n: Nic, ops: seq<Op>, o: Op)
    requires Runs(n, ops) && Enabled(Exec(n, ops), o)
    ensures Runs(n, ops + [o]) && Exec(n, ops + [o]) == Apply(Exec(n, ops), o)
    decreases ops
  {
    hide Enabled, Apply;
    if ops == [] {
      assert ops + [o] == [o] && [o][1..] == [];
    } else {
      assert (ops + [o])[1..] == ops[1..] + [o];
      ExecMore(Apply(n, ops[0]), ops[1..], o);
    }
  }

  /** What a disposal records **/

  /** The events of a frame that is to leave on `out`: freed when its time to live is used up; otherwise transmitted
      there, with the time to live of an IPv4 frame counted down, and recorded as passed; a failed transmission is
      recorded as dropped and as passed. */
  ghost predicate Leaves(events: seq<Event>, buf: Buf, out: PortId, f: Frame, transmits: bool) {
    if f.ipv4 && f.ttl <= 1 then events == [Freed(buf, TtlExpired)]
    else if !transmits then events == [Dropped, Freed(buf, TxFailed), Passed]
    else
      && |events| == 2 && events[1] == Passed
      && events[0].Sent? && events[0].buf == buf && events[0].port == out
      && events[0].frame.ipv4 == f.ipv4 && events[0].frame.ttl == if f.ipv4 then f.ttl - 1 else f.ttl
  }

  lemma DisposeRecords(n: Nic, buf: Buf, at: PortId, a: Action, transmits: bool)
    requires AllPorts(n.ports) && buf in n.frames
    ensures var log := Dispose(n, buf, at, a, transmits).log;
            && n.log <= log
            && var events := log[|n.log|..];
               match a
               case Send(out) => Leaves(events, buf, out, n.frames[buf], transmits)
               case Drop => events == [Dropped, Freed(buf, Filtered)]
               case Fail => events == [Dropped, Freed(buf, LookupError)]
  {
    match a
    case Send(out) => RelayRecords(Learn(n, at, out, buf), buf, out, transmits);
    case _ =>
  }

  lemma RelayRecords(n: Nic, buf: Buf, out: PortId, transmits: bool)
    requires out in n.ports && buf in n.frames
    ensures var log := Relay(n, buf, out, transmits).log;
            n.log <= log && Leaves(log[|n.log|..], buf, out, n.frames[buf], transmits)
  {
  }

  /** Time to live **/

  /** One pass of a frame through the worker: how it is addressed when it arrives, where it goes, and whether
      transmission succeeds. */
  datatype Pass = Pass(src: Mac, dst: Mac, at: PortId, out: PortId, transmits: bool)

  /** A frame that comes back again and again: what one pass transmits is what the next one takes in, addressed anew by
      whoever sends it back. A frame that was freed does not come back. */
  function Passes(buf: Buf, f: Frame, passes: seq<Pass>): (ops: seq<Op>)
    decreases passes
  {
    if passes == [] then []
    else
      var p := passes[0];
      [Take(buf, f.(src := p.src, dst := p.dst)), Settle(buf, p.at, Send(p.out), p.transmits)] +
      if UsedUp(f) || !p.transmits then [] else Passes(buf, Aged(f), passes[1..])
  }

  lemma OnePass(n: Nic, buf: Buf, f: Frame, p: Pass)
    requires AllPorts(n.ports) && buf !in n.frames
    ensures var g := f.(src := p.src, dst := p.dst);
            var m := Forward(Accept(n, buf, g), buf, p.at, p.out, p.transmits);
            && AllPorts(m.ports) && m.frames == n.frames
            && m.tally.sent == n.tally.sent + if UsedUp(f) || !p.transmits then 0 else 1
  {
    hide Forward;
    var g := f.(src := p.src, dst := p.dst);
    ForwardCounts(Accept(n, buf, g), buf, p.at, p.out, p.transmits);
    assert n.frames[buf := g] - {buf} == n.frames;
  }

  lemma ExecTwo(n: Nic, a: Op, b: Op, rest: seq<Op>)
    requires Enabled(n, a) && Enabled(Apply(n, a), b) && Runs(Apply(Apply(n, a), b), rest)
    ensures Runs(n, [a, b] + rest) && Exec(n, [a, b] + rest) == Exec(Apply(Apply(n, a), b), rest)
  {
    hide Enabled, Apply;
    var ops := [a, b] + rest;
    assert ops[1..] == [b] + rest && ops[1..][1..] == rest;
  }

  /** However often it comes back, an IPv4 frame is transmitted at most one time less than its time to live says, and
      exactly that often when it comes back long enough and every transmission succeeds (section 3.1 of RFC 791). */
  lemma {:induction false} TtlBoundsTransmissions(n: Nic, buf: Buf, f: Frame, passes: seq<Pass>)
    requires AllPorts(n.ports) && buf !in n.frames && f.ipv4
    ensures Runs(n, Passes(buf, f, passes))
    ensures var sent := Exec(n, Passes(buf, f, passes)).tally.sent - n.tally.sent;
            && 0 <= sent <= (if f.ttl <= 1 then 0 else f.ttl - 1)
            && (|passes| + 1 >= f.ttl >= 1 && (forall i | 0 <= i < |passes| :: passes[i].transmits) ==>
                  sent == f.ttl - 1)
    decreases passes
  {
    hide Forward, Accept;
    if passes == [] {
    } else {
      var p := passes[0];
      var g := f.(src := p.src, dst := p.dst);
      var take, settle := Take(buf, g), Settle(buf, p.at, Send(p.out), p.transmits);
      OnePass(n, buf, f, p);
      Owned(n, buf, g);
      var m := Forward(Accept(n, buf, g), buf, p.at, p.out, p.transmits);
      if UsedUp(f) || !p.transmits {
        ExecTwo(n, take, settle, []);
      } else {
        TtlBoundsTransmissions(m, buf, Aged(f), passes[1..]);
        ExecTwo(n, take, settle, Passes(buf, Aged(f), passes[1..]));
      }
    }
  }

  lemma Owned(n: Nic, buf: Buf, f: Frame)
    ensures Accept(n, buf, f).ports == n.ports && buf in Accept(n, buf, f).frames
  {
  }

  /** What one forward adds to the log. */
  lemma ForwardSends(n: Nic, buf: Buf, at: PortId, out: PortId)
    requires AllPorts(n.ports) && buf in n.frames
    ensures Forward(n, buf, at, out, true).log ==
            if UsedUp(n.frames[buf]) then n.log + [Freed(buf, TtlExpired)]
            else
              n.log + [Sent(buf, out, Addressed(Aged(n.frames[buf]), Learn(n, at, out, buf).ports[out]))] + [Passed]
    ensures forall i | |n.log| <= i < |Forward(n, buf, at, out, false).log| ::
              !Forward(n, buf, at, out, false).log[i].Sent?
  {
  }

  /** A forward sends a frame to the neighbour of the out port as soon as there is one, to everybody before, and the in
      port then knows a neighbour unless the frame came from one of the two ports. */
  lemma ForwardAddresses(n: Nic, buf: Buf, at: PortId, out: PortId, transmits: bool)
    requires AllPorts(n.ports) && buf in n.frames && at != out
    ensures var f, m := n.frames[buf], Forward(n, buf, at, out, transmits);
            && (at in m.ports && (m.ports[at].neighbor.None? ==> f.src in {n.ports[at].mac, n.ports[out].mac}))
            && (at in m.ports && (n.ports[at].neighbor.None? ==> m.ports[at].neighbor in {None, Some(f.src)}))
            && (transmits && !UsedUp(f) ==>
                  && |m.log| == |n.log| + 2 && m.log[|n.log|].Sent?
                  && var g := m.log[|n.log|].frame;
                     && g.src == n.ports[out].mac && g.ipv4 == f.ipv4 && g.ttl == (if f.ipv4 then f.ttl - 1 else f.ttl)
                     && match n.ports[out].neighbor
                        case None => g.dst == 0xffff_ffff_ffff
                        case Some(mac) => g.dst == mac)
  {
  }
}
