/** Keys of the domain cache. A lookup hashes the whole zero-initialised domain field; an entry is stored under a copy
    that ends at the first zero octet and is zero from there on. */
module CacheKeys {
  import opened Bytes
  import opened NodeCache
  import Dns = DnsName

  /** A decoded domain field: its last octet is always the terminator or padding. */
  ghost predicate DomainField(f: Str) {
    |f| == DOMAIN_MAX_LEN && f[DOMAIN_MAX_LEN - 1] == NUL
  }

  /** The copy `strncpy` makes of a string for use as a key. */
  function Padded(s: Str): (r: Str)
    ensures |r| == DOMAIN_MAX_LEN
  {
    var t := Clipped(s, DOMAIN_MAX_LEN);
    t + Fill(NUL, DOMAIN_MAX_LEN - |t|)
  }

  /** The key an entry for `key` is stored under. Addresses are copied whole. */
  function StoredKey(key: Key): (r: Key) {
    match key
    case DomainKey(buf) => DomainKey(Padded(buf))
    case _ => key
  }

  /** The stored copy spells the same C string. */
  lemma PaddedSpells(s: Str)
    ensures CStr(Padded(s)) == Clipped(Padded(s), DOMAIN_MAX_LEN) == Clipped(s, DOMAIN_MAX_LEN)
  {
    var t := Clipped(s, DOMAIN_MAX_LEN);
    var n := DOMAIN_MAX_LEN - |t|;
    assert Fill(NUL, n) == [NUL] + Fill(NUL, n - 1);
    assert Padded(s) == t + [NUL] + Fill(NUL, n - 1);
    CStrOfTerminated(t, Fill(NUL, n - 1));
  }

  /** Copying a stored key again changes nothing. */
  lemma StoredKeyTwice(key: Key)
    ensures StoredKey(StoredKey(key)) == StoredKey(key)
  {
    if key.DomainKey? {
      PaddedSpells(key.buf);
    }
  }

  /** A domain field is never clipped. */
  lemma FieldIsNotClipped(f: Str)
    requires DomainField(f)
    ensures Clipped(f, DOMAIN_MAX_LEN) == CStr(f)
  {
    assert forall i | 0 <= i < |CStr(f)| :: f[i] == CStr(f)[i] && CStr(f)[i] in CStr(f);
  }

  /** A domain field is stored under itself if and only if nothing but zero octets follows its first zero octet. */
  lemma StoredUnderItselfExactly(f: Str)
    requires DomainField(f)
    ensures StoredKey(DomainKey(f)) == DomainKey(f)
            <==> forall i | |CStr(f)| <= i < DOMAIN_MAX_LEN :: f[i] == NUL
  {
    FieldIsNotClipped(f);
    var t := CStr(f);
    assert Padded(f) == t + Fill(NUL, DOMAIN_MAX_LEN - |t|);
    assert forall i | 0 <= i < |t| :: Padded(f)[i] == f[i];
    assert forall i | |t| <= i < DOMAIN_MAX_LEN :: Padded(f)[i] == NUL;
  }

  /** A name with a zero octet inside a label is not. */
  lemma ZeroOctetIsLost(f: Str)
    requires f == [97, NUL, 98] + Fill(NUL, DOMAIN_MAX_LEN - 3)
    ensures DomainField(f) && StoredKey(DomainKey(f)) != DomainKey(f)
  {
    StoredUnderItselfExactly(f);
    assert CStr(f) == [97] + CStr(f[1..]);
    assert f[2] == 98;
  }

  /** From the wire to a key **/

  /** Decoding into a zeroed description gives a proper domain field whenever the name fits, and the field then spells
      the name up to its first zero octet. For names without zero octets it is proper only if it fits. */
  lemma DecodedField(mem: Str, before: Str, after: Str)
    requires |mem| >= Dns.READ_SPAN && Dns.Accepts(mem)
    requires |before| >= Dns.READ_SPAN && forall i | 0 <= i < DOMAIN_MAX_LEN :: before[i] == NUL
    requires after == Dns.Dotted(Dns.NameAt(mem, 0)) + [NUL] + before[Dns.StopAt(mem, 0)..]
    ensures |after| >= DOMAIN_MAX_LEN
    ensures Dns.StopAt(mem, 0) <= DOMAIN_MAX_LEN ==>
              && DomainField(after[..DOMAIN_MAX_LEN])
              && CStr(after[..DOMAIN_MAX_LEN]) == Dns.Dotted(Dns.Seen(Dns.NameAt(mem, 0)))
    ensures NUL !in Dns.Dotted(Dns.NameAt(mem, 0)) && DomainField(after[..DOMAIN_MAX_LEN]) ==>
              Dns.StopAt(mem, 0) <= DOMAIN_MAX_LEN
  {
    hide Dns.Dotted, Dns.NameAt, Dns.StopAt, CStr, Dns.Seen;
    var n, stop := Dns.NameAt(mem, 0), Dns.StopAt(mem, 0);
    NameIsLabel(mem);
    Dns.Measured(mem, 0);
    Dns.DottedSize(n);
    if stop <= DOMAIN_MAX_LEN {
      var rest := before[stop..DOMAIN_MAX_LEN];
      assert after[..DOMAIN_MAX_LEN] == Dns.Dotted(n) + [NUL] + rest;
      Dns.FieldSpells(n, rest);
    } else if NUL !in Dns.Dotted(n) {
      assert after[DOMAIN_MAX_LEN - 1] == Dns.Dotted(n)[DOMAIN_MAX_LEN - 1];
    }
  }

  /** A decoded name that fits is stored under itself if and only if a zero octet in it is followed by nothing else; so
      every name without zero octets is. */
  lemma DecodedKeyExactly(mem: Str, before: Str, after: Str)
    requires |mem| >= Dns.READ_SPAN && Dns.Accepts(mem) && Dns.StopAt(mem, 0) <= DOMAIN_MAX_LEN
    requires |before| >= Dns.READ_SPAN && forall i | 0 <= i < DOMAIN_MAX_LEN :: before[i] == NUL
    requires after == Dns.Dotted(Dns.NameAt(mem, 0)) + [NUL] + before[Dns.StopAt(mem, 0)..]
    ensures |after| >= DOMAIN_MAX_LEN
    ensures StoredKey(DomainKey(after[..DOMAIN_MAX_LEN])) == DomainKey(after[..DOMAIN_MAX_LEN])
            <==> var d := Dns.Dotted(Dns.NameAt(mem, 0));
                 forall i, j | 0 <= i < j < |d| && d[i] == NUL :: d[j] == NUL
  {
    hide Dns.Dotted, Dns.NameAt, Dns.StopAt, CStr, Dns.Seen, StoredKey;
    var dotted, stop := Dns.Dotted(Dns.NameAt(mem, 0)), Dns.StopAt(mem, 0);
    DecodedField(mem, before, after);
    NameIsLabel(mem);
    Dns.Measured(mem, 0);
    Dns.DottedSize(Dns.NameAt(mem, 0));
    var field := after[..DOMAIN_MAX_LEN];
    StoredUnderItselfExactly(field);
    var m := |CStr(field)|;
    assert forall i | 0 <= i < m :: field[i] == CStr(field)[i] && CStr(field)[i] in CStr(field);
    assert forall i | 0 <= i < |dotted| :: field[i] == dotted[i];
    assert forall i | |dotted| <= i < DOMAIN_MAX_LEN :: field[i] == NUL;
  }

  lemma NameIsLabel(mem: Str)
    requires |mem| >= Dns.READ_SPAN && Dns.Accepts(mem)
    ensures Dns.NameAt(mem, 0).Label?
  {
  }

  /** The description is zeroed, then the name is decoded into it. */
  method ReadDomain(mem: Str) returns (field: Str)
    requires |mem| >= Dns.READ_SPAN
    ensures |field| == DOMAIN_MAX_LEN
    ensures !Dns.Accepts(mem) ==> field == Fill(NUL, DOMAIN_MAX_LEN)
    ensures Dns.Accepts(mem) && Dns.StopAt(mem, 0) <= DOMAIN_MAX_LEN ==>
              DomainField(field) && CStr(field) == Dns.Dotted(Dns.Seen(Dns.NameAt(mem, 0)))
  {
    var dst := new Byte[Dns.READ_SPAN](_ => NUL);
    ghost var before := dst[..];
    var accepted, written := Dns.DecodeName(mem, dst);
    if accepted {
      DecodedField(mem, before, dst[..]);
    }
    assert dst[..DOMAIN_MAX_LEN] == dst[..][..DOMAIN_MAX_LEN];
    field := dst[..DOMAIN_MAX_LEN];
  }
}
