/** The decoder of the question name of a DNS query: one pass measures the wire-format labels, a second pass
    copies them, separated by dots, into the packet description's 260-octet domain field.
    Wire format: sections 3.1 and 4.1.2 of RFC 1035; size limits: section 2.3.4. */
module DnsName {
  import opened Bytes

  /** The measuring pass gives up once it has covered this many octets. */
  const MEASURE_LIMIT: nat := 255

  /** Octets the decoder can read: the last length octet it follows lies before MEASURE_LIMIT and spans at most 256. */
  const READ_SPAN: nat := 511

  /** Labels and the wire **/

  datatype Name = Root | Label(text: Str, rest: Name)

  /** Labels as the length octet can announce them; zero is the end of the name. */
  ghost predicate Encodable(n: Name) {
    n.Label? ==> 1 <= |n.text| <= 255 && Encodable(n.rest)
  }

  function Wire(n: Name): (w: Str)
    requires Encodable(n)
  {
    match n
    case Root => [NUL]
    case Label(text, rest) => [|text|] + text + Wire(rest)
  }

  /** Octets of the wire form without its final zero octet. */
  function WireLen(n: Name): (len: nat) {
    match n
    case Root => 0
    case Label(text, rest) => |text| + 1 + WireLen(rest)
  }

  function Dotted(n: Name): (d: Str) {
    match n
    case Root => []
    case Label(text, Root) => text
    case Label(text, rest) => text + [DOT] + Dotted(rest)
  }

  /** Every label starts within the first 255 octets when the name is placed at offset `at`. */
  ghost predicate StartsWithin(n: Name, at: nat) {
    n.Label? ==> at < 255 && StartsWithin(n.rest, at + |n.text| + 1)
  }

  /** The names the decoder takes. */
  ghost predicate Acceptable(n: Name) {
    n.Label? && Encodable(n) && StartsWithin(n, 0)
  }

  ghost predicate ShortLabels(n: Name) {
    n.Label? ==> 1 <= |n.text| <= 63 && ShortLabels(n.rest)
  }

  /** Names within the limits of section 2.3.4 of RFC 1035: labels of 63 octets, 255 octets in all. */
  ghost predicate WithinRfcLimits(n: Name) {
    n.Label? && ShortLabels(n) && WireLen(n) + 1 <= 255
  }

  /** The two passes **/

  /** Where the measuring pass stops when it starts at `pos`; also the length it has counted. */
  function StopAt(mem: Str, pos: nat): (r: nat)
    requires |mem| >= READ_SPAN > pos
    ensures pos <= r < READ_SPAN
    decreases READ_SPAN - pos
  {
    if mem[pos] == NUL || pos >= MEASURE_LIMIT then pos else StopAt(mem, pos + mem[pos] + 1)
  }

  predicate Accepts(mem: Str)
    requires |mem| >= READ_SPAN
  {
    StopAt(mem, 0) > 0 && mem[StopAt(mem, 0)] == NUL
  }

  /** The labels the measuring pass walks over. */
  function NameAt(mem: Str, pos: nat): (n: Name)
    requires |mem| >= READ_SPAN > pos
    decreases READ_SPAN - pos
  {
    if mem[pos] == NUL || pos >= MEASURE_LIMIT then Root
    else Label(mem[pos + 1..pos + mem[pos] + 1], NameAt(mem, pos + mem[pos] + 1))
  }

  /** What stands in the field in the end, when `done` is already there and `rest` is still to be copied. */
  function Glue(done: Str, rest: Name): (d: Str) {
    if rest.Root? then done else if done == [] then Dotted(rest) else done + [DOT] + Dotted(rest)
  }

  /** Reads the name at the start of `mem`. `dst` is the memory from the domain field on; the field itself is its
      first DOMAIN_MAX_LEN octets. The copying pass has no bound of its own. */
  method DecodeName(mem: Str, dst: array<Byte>) returns (accepted: bool, written: nat)
    requires |mem| >= READ_SPAN
    requires dst.Length >= READ_SPAN
    modifies dst
    ensures accepted == Accepts(mem)
    ensures !accepted ==> written == 0 && dst[..] == old(dst[..])
    ensures accepted ==> written == StopAt(mem, 0) == WireLen(NameAt(mem, 0))
    ensures accepted ==> dst[..] == Dotted(NameAt(mem, 0)) + [NUL] + old(dst[..])[written..]
  {
    var pos: nat := 0;
    var domainLen: nat := 0;
    while mem[pos] != NUL && domainLen < MEASURE_LIMIT
      invariant pos == domainLen < READ_SPAN
      invariant StopAt(mem, pos) == StopAt(mem, 0)
      decreases READ_SPAN - pos
    {
      domainLen := domainLen + mem[pos] + 1;
      pos := pos + mem[pos] + 1;
    }
    accepted := mem[pos] == NUL && domainLen > 0;
    written := 0;
    if accepted {
      written := CopyLabels(mem, dst);
      Measured(mem, 0);
    }
  }

  /** The copying pass: follows length octets until it meets a zero one, then terminates the string. */
  method CopyLabels(mem: Str, dst: array<Byte>) returns (written: nat)
    requires |mem| >= READ_SPAN && Accepts(mem)
    requires dst.Length >= READ_SPAN
    modifies dst
    ensures written == StopAt(mem, 0)
    ensures dst[..] == Dotted(NameAt(mem, 0)) + [NUL] + old(dst[..])[written..]
  {
    hide NameAt, Dotted;
    var d := WalkLabels(mem, dst);
    dst[d] := NUL;
    written := d + 1;
    assert dst[..] == dst[..d] + [NUL] + dst[written..];
  }

  method WalkLabels(mem: Str, dst: array<Byte>) returns (d: nat)
    requires |mem| >= READ_SPAN && Accepts(mem)
    requires dst.Length >= READ_SPAN
    modifies dst
    ensures d + 1 == StopAt(mem, 0)
    ensures dst[..d] == Dotted(NameAt(mem, 0))
    ensures forall i | d <= i < dst.Length :: dst[i] == old(dst[i])
  {
    hide Glue, Dotted;
    var pos: nat := 0;
    d := 0;
    GlueEnds([], NameAt(mem, 0));
    while mem[pos] != NUL
      invariant pos < READ_SPAN && StopAt(mem, pos) == StopAt(mem, 0)
      invariant d == (if pos == 0 then 0 else pos - 1) && (pos == 0 || pos > 1)
      invariant Glue(dst[..d], NameAt(mem, pos)) == Dotted(NameAt(mem, 0))
      invariant forall i | d <= i < dst.Length :: dst[i] == old(dst[i])
      decreases READ_SPAN - pos
    {
      StopIsFirstZero(mem, pos);
      ghost var done := dst[..d];
      d := CopyLabel(mem, pos, dst, d);
      GlueStep(done, mem[pos + 1..pos + mem[pos] + 1], NameAt(mem, pos + mem[pos] + 1));
      pos := pos + mem[pos] + 1;
    }
    GlueEnds(dst[..d], Root);
  }

  lemma GlueEnds(done: Str, n: Name)
    ensures Glue([], n) == Dotted(n) && Glue(done, Root) == done
  {
  }

  lemma GlueStep(done: Str, text: Str, rest: Name)
    requires text != []
    ensures Glue(done, Label(text, rest)) == Glue((if done == [] then [] else done + [DOT]) + text, rest)
  {
    if rest.Label? {
      Concat4(done + [DOT], text, [DOT], Dotted(rest));
    }
  }

  /** Appends one label, after a dot unless it is the first. */
  method CopyLabel(mem: Str, pos: nat, dst: array<Byte>, at: nat) returns (d: nat)
    requires pos < |mem| && pos + mem[pos] + 1 <= |mem|
    requires at + 1 + mem[pos] <= dst.Length
    modifies dst
    ensures d == at + (if at == 0 then 0 else 1) + mem[pos]
    ensures dst[..d] == (if at == 0 then [] else old(dst[..at]) + [DOT]) + mem[pos + 1..pos + mem[pos] + 1]
    ensures forall i | d <= i < dst.Length :: dst[i] == old(dst[i])
  {
    d := at;
    var labelLen := mem[pos];
    if d != 0 {
      dst[d] := DOT;
      d := d + 1;
    }
    CopyInto(mem, pos + 1, labelLen, dst, d);
    assert dst[..d + labelLen] == dst[..d] + dst[d..d + labelLen];
    d := d + labelLen;
  }

  method CopyInto(src: Str, from: nat, count: nat, dst: array<Byte>, at: nat)
    requires from + count <= |src|
    requires at + count <= dst.Length
    modifies dst
    ensures dst[at..at + count] == src[from..from + count]
    ensures forall i | 0 <= i < at || at + count <= i < dst.Length :: dst[i] == old(dst[i])
  {
    for i := 0 to count
      invariant dst[at..at + i] == src[from..from + i]
      invariant forall j | 0 <= j < at || at + i <= j < dst.Length :: dst[j] == old(dst[j])
    {
      dst[at + i] := src[from + i];
    }
  }

  /** A name accepted by the measuring pass is walked to the same zero octet by a pass that only looks for one. */
  lemma StopIsFirstZero(mem: Str, pos: nat)
    requires |mem| >= READ_SPAN > pos
    requires mem[pos] != NUL && mem[StopAt(mem, pos)] == NUL
    ensures pos < MEASURE_LIMIT && StopAt(mem, pos) == StopAt(mem, pos + mem[pos] + 1)
  {
  }

  /** What the decoder accepts, and what it makes of it **/

  /** The measuring pass counts the wire form of the name it walks over. */
  lemma {:induction false} Measured(mem: Str, pos: nat)
    requires |mem| >= READ_SPAN > pos
    ensures var n := NameAt(mem, pos);
            Encodable(n) && StartsWithin(n, pos) && pos + WireLen(n) == StopAt(mem, pos)
    decreases READ_SPAN - pos
  {
    if mem[pos] != NUL && pos < MEASURE_LIMIT {
      Measured(mem, pos + mem[pos] + 1);
    }
  }

  /** If it ends at a zero octet, that wire form is what stands in memory. */
  lemma {:induction false} MeasuredWire(mem: Str, pos: nat)
    requires |mem| >= READ_SPAN > pos && mem[StopAt(mem, pos)] == NUL
    ensures Encodable(NameAt(mem, pos)) && Wire(NameAt(mem, pos)) <= mem[pos..]
    decreases READ_SPAN - pos
  {
    if mem[pos] == NUL {
      assert mem[pos..][0] == NUL;
    } else {
      var next := pos + mem[pos] + 1;
      StopIsFirstZero(mem, pos);
      MeasuredWire(mem, next);
      LabelIsWire(mem, pos, next, NameAt(mem, next));
    }
  }

  lemma LabelIsWire(mem: Str, pos: nat, next: nat, rest: Name)
    requires pos + 1 < next <= |mem| && mem[pos] == next - pos - 1 && Encodable(rest) && Wire(rest) <= mem[next..]
    ensures var n := Label(mem[pos + 1..next], rest);
            Encodable(n) && Wire(n) <= mem[pos..]
  {
    hide Wire;
    WireOfLabel(mem[pos + 1..next], rest, mem[next..]);
    assert mem[pos..] == [mem[pos]] + mem[pos + 1..next] + mem[next..];
  }

  lemma WireOfLabel(text: Str, rest: Name, m: Str)
    requires 1 <= |text| <= 255 && Encodable(rest) && Wire(rest) <= m
    ensures Encodable(Label(text, rest)) && Wire(Label(text, rest)) <= [|text|] + text + m
  {
  }

  /** Nothing is accepted but the wire form of an acceptable name. */
  lemma AcceptedIsWire(mem: Str)
    requires |mem| >= READ_SPAN && Accepts(mem)
    ensures Acceptable(NameAt(mem, 0)) && Wire(NameAt(mem, 0)) <= mem
  {
    Measured(mem, 0);
    MeasuredWire(mem, 0);
    assert mem[0..] == mem;
  }

  /** Whatever follows it in memory, an acceptable name is read back exactly. */
  lemma RoundTrip(n: Name, mem: Str)
    requires Acceptable(n)
    requires |mem| >= READ_SPAN && Wire(n) <= mem
    ensures Accepts(mem) && NameAt(mem, 0) == n && StopAt(mem, 0) == WireLen(n)
  {
    assert mem[0..] == mem;
    RoundTripFrom(n, mem, 0);
  }

  lemma {:induction false} RoundTripFrom(n: Name, mem: Str, pos: nat)
    requires Encodable(n) && StartsWithin(n, pos)
    requires |mem| >= READ_SPAN > pos && Wire(n) <= mem[pos..]
    ensures NameAt(mem, pos) == n && StopAt(mem, pos) == pos + WireLen(n) && mem[StopAt(mem, pos)] == NUL
    decreases n
  {
    hide Wire;
    if n.Root? {
      WireRoot(mem, pos);
    } else {
      WireAt(n, mem, pos);
      RoundTripFrom(n.rest, mem, pos + |n.text| + 1);
    }
  }

  lemma WireRoot(mem: Str, pos: nat)
    requires pos < |mem| && Wire(Root) <= mem[pos..]
    ensures mem[pos] == NUL
  {
    assert mem[pos] == mem[pos..][0];
  }

  lemma WireAt(n: Name, mem: Str, pos: nat)
    requires pos < |mem| && n.Label? && Encodable(n) && Wire(n) <= mem[pos..]
    ensures var next := pos + |n.text| + 1;
            next <= |mem| && mem[pos] == |n.text| && mem[pos + 1..next] == n.text && Wire(n.rest) <= mem[next..]
  {
    hide Wire;
    WirePrefix(n, mem[pos..]);
    assert mem[pos] == mem[pos..][0];
    assert mem[pos + 1..pos + |n.text| + 1] == mem[pos..][1..|n.text| + 1];
    assert mem[pos + |n.text| + 1..] == mem[pos..][|n.text| + 1..];
  }

  lemma WirePrefix(n: Name, m: Str)
    requires n.Label? && Encodable(n) && Wire(n) <= m
    ensures var len := |n.text|;
            len < |m| && m[0] == len && m[1..len + 1] == n.text && Wire(n.rest) <= m[len + 1..]
  {
    var len, w := |n.text|, Wire(n);
    assert w[1..len + 1] == n.text && w[len + 1..] == Wire(n.rest);
    assert m[..|w|] == w;
    assert m[1..len + 1] == m[..|w|][1..len + 1];
    assert m[len + 1..][..|w| - len - 1] == m[..|w|][len + 1..];
  }

  /** The dotted form, with its terminator, takes exactly as many octets as the measuring pass counted. */
  lemma {:induction false} DottedSize(n: Name)
    requires n.Label?
    ensures |Dotted(n)| + 1 == WireLen(n)
  {
    if n.rest.Label? {
      DottedSize(n.rest);
    }
  }

  /** Every name within the limits of RFC 1035 is decoded, and stays inside the domain field. */
  lemma RfcNameFits(n: Name, mem: Str)
    requires WithinRfcLimits(n) && Encodable(n)
    requires |mem| >= READ_SPAN && Wire(n) <= mem
    ensures Accepts(mem) && NameAt(mem, 0) == n
    ensures |Dotted(n) + [NUL]| == StopAt(mem, 0) <= 254 < DOMAIN_MAX_LEN
  {
    ShortStartsWithin(n, 0);
    RoundTrip(n, mem);
    DottedSize(n);
  }

  lemma {:induction false} ShortStartsWithin(n: Name, at: nat)
    requires at + WireLen(n) < MEASURE_LIMIT
    ensures StartsWithin(n, at)
    decreases n
  {
    if n.Label? {
      ShortStartsWithin(n.rest, at + |n.text| + 1);
    }
  }

  /** The decoded name stays inside the field exactly when the wire labels span at most 260 octets. */
  lemma FitsExactly(mem: Str)
    requires |mem| >= READ_SPAN && Accepts(mem)
    ensures |Dotted(NameAt(mem, 0)) + [NUL]| <= DOMAIN_MAX_LEN <==> StopAt(mem, 0) <= 260
  {
    Measured(mem, 0);
    DottedSize(NameAt(mem, 0));
  }

  /** The decoder itself does not enforce that: two labels of 200 octets are accepted. */
  lemma OversizedNameIsAccepted(mem: Str)
    requires |mem| >= READ_SPAN
    requires mem[0] == 200 && mem[201] == 200 && mem[402] == NUL
    ensures Accepts(mem) && |Dotted(NameAt(mem, 0)) + [NUL]| == 402 > DOMAIN_MAX_LEN
  {
    assert StopAt(mem, 201) == StopAt(mem, 402) == 402;
    Measured(mem, 0);
    DottedSize(NameAt(mem, 0));
  }

  /** Reading back names **/

  /** The stretches of a string between its dots. */
  function Split(s: Str): (n: Name)
    ensures n.Label?
  {
    if s == [] then Label([], Root)
    else
      var n := Split(s[1..]);
      if s[0] == DOT then Label([], n) else Label([s[0]] + n.text, n.rest)
  }

  function Append(a: Name, b: Name): (n: Name) {
    match a
    case Root => b
    case Label(text, rest) => Label(text, Append(rest, b))
  }

  /** A name with every label cut at its dots. */
  function Pieces(n: Name): (p: Name) {
    match n
    case Root => Root
    case Label(text, rest) => Append(Split(text), Pieces(rest))
  }

  /** What of a name stands before its first zero octet. */
  function Seen(n: Name): (p: Name)
    ensures p.Label? <==> n.Label?
  {
    match n
    case Root => Root
    case Label(text, rest) => if NUL in text then Label(CStr(text), Root) else Label(text, Seen(rest))
  }

  lemma {:induction false} SplitJoin(s: Str, t: Str)
    ensures Split(s + [DOT] + t) == Append(Split(s), Split(t))
  {
    var all := s + [DOT] + t;
    if s == [] {
      assert all[1..] == t;
    } else {
      assert all[1..] == s[1..] + [DOT] + t;
      SplitJoin(s[1..], t);
    }
  }

  lemma {:induction false} DottedOfSplit(s: Str)
    ensures Dotted(Split(s)) == s
  {
    if s == [] {
    } else {
      DottedOfSplit(s[1..]);
      assert s == [s[0]] + s[1..];
      LongerFirstLabel(s[0], Split(s[1..]));
    }
  }

  lemma DottedParts(n: Name)
    requires n.Label?
    ensures Dotted(n) == n.text + if n.rest.Root? then [] else [DOT] + Dotted(n.rest)
  {
    if n.rest.Label? {
      Concat3(n.text, [DOT], Dotted(n.rest));
    }
  }

  lemma LongerFirstLabel(x: Byte, n: Name)
    requires n.Label?
    ensures Dotted(Label([x] + n.text, n.rest)) == [x] + Dotted(n)
    ensures Dotted(Label([], n)) == [DOT] + Dotted(n)
  {
    hide Dotted;
    DottedParts(n);
    DottedParts(Label([x] + n.text, n.rest));
    DottedParts(Label([], n));
    Concat3([x], n.text, if n.rest.Root? then [] else [DOT] + Dotted(n.rest));
  }

  lemma {:induction false} AppendRoot(n: Name)
    ensures Append(n, Root) == n
  {
    match n
    case Root =>
    case Label(text, rest) => AppendRoot(rest);
  }

  lemma {:induction false} SplitOfDotted(n: Name)
    requires n.Label?
    ensures Split(Dotted(n)) == Pieces(n)
  {
    if n.rest.Root? {
      AppendRoot(Split(n.text));
    } else {
      SplitOfDotted(n.rest);
      SplitJoin(n.text, Dotted(n.rest));
    }
  }

  /** Two names have the same dotted form if and only if they are the same once every label is cut at its dots. */
  lemma SameDottedExactly(a: Name, b: Name)
    requires a.Label? && b.Label?
    ensures Dotted(a) == Dotted(b) <==> Pieces(a) == Pieces(b)
  {
    SplitOfDotted(a);
    SplitOfDotted(b);
    DottedOfSplit(Dotted(a));
    DottedOfSplit(Dotted(b));
  }

  lemma {:induction false} CStrOfDotted(n: Name)
    requires n.Label?
    ensures CStr(Dotted(n)) == Dotted(Seen(n))
  {
    hide CStr, Dotted;
    DottedParts(n);
    DottedParts(Seen(n));
    if NUL in n.text {
      CStrStops(n.text, if n.rest.Root? then [] else [DOT] + Dotted(n.rest));
    } else if n.rest.Root? {
      CStrOfPlain(n.text);
    } else {
      CStrContinues(n.text, [DOT] + Dotted(n.rest));
      CStrContinues([DOT], Dotted(n.rest));
      CStrOfDotted(n.rest);
    }
  }

  /** What the decoded field spells: everything before the first zero octet of the name. */
  lemma FieldSpells(n: Name, rest: Str)
    requires n.Label?
    ensures CStr(Dotted(n) + [NUL] + rest) == Dotted(Seen(n))
  {
    CStrOfDotted(n);
    if NUL in Dotted(n) {
      CStrStops(Dotted(n), [NUL] + rest);
      assert Dotted(n) + [NUL] + rest == Dotted(n) + ([NUL] + rest);
    } else {
      CStrOfTerminated(Dotted(n), rest);
      CStrOfPlain(Dotted(n));
    }
  }

  /** Two decoded names are the same string to the filter and the cache if and only if they are the same up to their
      first zero octets once every label is cut at its dots. */
  lemma SameStringExactly(a: Name, b: Name, restA: Str, restB: Str)
    requires a.Label? && b.Label?
    ensures CStr(Dotted(a) + [NUL] + restA) == CStr(Dotted(b) + [NUL] + restB) <==> Pieces(Seen(a)) == Pieces(Seen(b))
  {
    FieldSpells(a, restA);
    FieldSpells(b, restB);
    SameDottedExactly(Seen(a), Seen(b));
  }

  ghost predicate Plain(n: Name) {
    n.Label? ==> n.text != [] && DOT !in n.text && NUL !in n.text && Plain(n.rest)
  }

  lemma {:induction false} PlainPieces(n: Name)
    requires Plain(n)
    ensures Pieces(n) == n && Seen(n) == n
  {
    match n
    case Root =>
    case Label(text, rest) =>
      PlainPieces(rest);
      SplitWithoutDots(text);
      assert Append(Label(text, Root), rest) == Label(text, Append(Root, rest));
  }

  lemma {:induction false} SplitWithoutDots(s: Str)
    requires DOT !in s
    ensures Split(s) == Label(s, Root)
  {
    if s == [] {
    } else {
      SplitWithoutDots(s[1..]);
      assert s == [s[0]] + s[1..];
    }
  }

  /** So names without dot or zero octets in their labels spell different strings. */
  lemma DottedInjective(a: Name, b: Name, restA: Str, restB: Str)
    requires Plain(a) && Plain(b)
    requires CStr(Dotted(a) + [NUL] + restA) == CStr(Dotted(b) + [NUL] + restB)
    ensures a == b
  {
    PlainPieces(a);
    PlainPieces(b);
    PlainSpells(a, restA);
    PlainSpells(b, restB);
    if a.Label? && b.Label? {
      SameStringExactly(a, b, restA, restB);
    }
  }

  lemma PlainSpells(n: Name, rest: Str)
    requires Plain(n)
    ensures CStr(Dotted(n) + [NUL] + rest) == Dotted(n)
    ensures n.Label? ==> Dotted(n) != []
  {
    if n.Root? {
      CStrOfTerminated([], rest);
    } else {
      FieldSpells(n, rest);
      PlainPieces(n);
    }
  }

  /** "ab" and "c" are joined to "ab.c". */
  lemma DottedExample()
    ensures Dotted(Label([97, 98], Label([99], Root))) == [97, 98, 46, 99]
  {
  }

  /** The hypothesis on dots is needed. */
  lemma DotInLabelCollides()
    ensures Dotted(Label([97, 46, 98], Root)) == Dotted(Label([97], Label([98], Root))) == [97, 46, 98]
  {
  }

  /** And so is the one on zero octets. */
  lemma ZeroInLabelCollides(rest: Str)
    ensures var a, b := Label([97, NUL, 98], Root), Label([97], Root);
            a != b && CStr(Dotted(a) + [NUL] + rest) == CStr(Dotted(b) + [NUL] + rest)
  {
    FieldSpells(Label([97, NUL, 98], Root), rest);
    FieldSpells(Label([97], Root), rest);
    assert CStr([97, NUL, 98]) == [97];
  }
}
