/** When a scan that stops at a sentinel answers membership in the list that was configured. */
module ListScan {
  import opened Bytes
  import opened PolicyArrays
  import opened Filter

  /** A string that survives a field of `size` octets and is not a sentinel. */
  ghost predicate Storable(s: Str, size: nat) {
    s != [] && NUL !in s && |s| < size
  }

  /** Every item that is not a sentinel also stands before the first sentinel and within the capacity. */
  ghost predicate Unhidden<T>(items: seq<T>, cap: nat, stop: T -> bool) {
    && (forall i, j | 0 <= i < j < |items| && stop(items[i]) :: stop(items[j]) || items[j] in items[..i])
    && (forall j | cap <= j < |items| :: stop(items[j]) || items[j] in items[..cap])
  }

  /** Loaded into `cap` slots, a list is scanned exactly as it was configured if and only if nothing in it is hidden. */
  lemma ScanExactly<T(!new)>(items: seq<T>, cap: nat, zero: T, stop: T -> bool)
    requires stop(zero)
    ensures (forall x | !stop(x) :: Listed(Slots(items, cap, zero), stop, x) <==> x in items)
            <==> Unhidden(items, cap, stop)
  {
    var slots := Slots(items, cap, zero);
    if Unhidden(items, cap, stop) {
      forall x | !stop(x)
        ensures Listed(slots, stop, x) <==> x in items
      {
        if x in items {
          UnhiddenIsListed(items, cap, zero, stop, x);
        }
      }
    }
    if forall x | !stop(x) :: Listed(slots, stop, x) <==> x in items {
      forall j | 0 <= j < |items| && !stop(items[j])
        ensures items[j] in items[..if cap < |items| then cap else |items|]
        ensures forall i | 0 <= i < j && stop(items[i]) :: items[j] in items[..i]
      {
        ListedIsEarly(items, cap, zero, stop, items[j]);
      }
    }
  }

  lemma UnhiddenIsListed<T>(items: seq<T>, cap: nat, zero: T, stop: T -> bool, x: T)
    requires Unhidden(items, cap, stop) && !stop(x) && x in items
    ensures Listed(Slots(items, cap, zero), stop, x)
  {
    var i := FirstAt(items, x);
    var slots := Slots(items, cap, zero);
    forall j | 0 <= j <= i
      ensures !stop(slots[j])
    {
      assert slots[j] == items[j];
    }
    assert slots[i] == x;
  }

  lemma {:induction false} FirstAt<T>(items: seq<T>, x: T) returns (i: nat)
    requires x in items
    ensures i < |items| && items[i] == x && x !in items[..i]
  {
    i := 0;
    while items[i] != x
      invariant i < |items| && x !in items[..i]
      decreases |items| - i
    {
      assert x in items[i + 1..];
      i := i + 1;
    }
  }

  lemma ListedIsEarly<T>(items: seq<T>, cap: nat, zero: T, stop: T -> bool, x: T)
    requires stop(zero) && Listed(Slots(items, cap, zero), stop, x)
    ensures x in items[..if cap < |items| then cap else |items|]
    ensures forall i | 0 <= i < |items| && stop(items[i]) :: x in items[..i]
  {
    var slots := Slots(items, cap, zero);
    var k :| 0 <= k < cap && slots[k] == x && forall j | 0 <= j <= k :: !stop(slots[j]);
    assert !stop(slots[k]);
    assert k < |items| && items[k] == x;
    assert forall j | 0 <= j <= k :: items[j] == slots[j];
    forall i | 0 <= i < |items| && stop(items[i])
      ensures x in items[..i]
    {
      assert k < i;
      assert items[..i][k] == x;
    }
  }

  lemma ListedInSlots<T>(items: seq<T>, cap: nat, zero: T, stop: T -> bool, x: T)
    requires |items| <= cap && stop(zero)
    requires forall i | 0 <= i < |items| :: !stop(items[i])
    ensures Listed(Slots(items, cap, zero), stop, x) <==> x in items
  {
    var slots := Slots(items, cap, zero);
    if x in items {
      var i :| 0 <= i < |items| && items[i] == x;
      assert slots[i] == x;
      assert forall j | 0 <= j <= i :: slots[j] == items[j];
    }
  }

  lemma ClipKeeps(items: seq<Str>, size: nat)
    requires size > 0 && forall s | s in items :: Storable(s, size)
    ensures ClipAll(items, size) == items
  {
    forall i | 0 <= i < |items| ensures Clipped(items[i], size) == items[i] {
      assert items[i] in items;
      CStrOfPlain(items[i]);
    }
  }

  lemma SlotMember<T>(items: seq<T>, cap: nat, zero: T, x: T)
    requires |items| <= cap
    ensures x in Slots(items, cap, zero) <==> x in items || (x == zero && |items| < cap)
  {
    var slots := Slots(items, cap, zero);
    if x in items {
      var i :| 0 <= i < |items| && items[i] == x;
      assert slots[i] == x;
    }
    if x == zero && |items| < cap {
      assert slots[|items|] == x;
    }
  }

  /** A domain list that fits its array is scanned exactly as configured if and only if its items survive the field and
      none of them is hidden behind an empty one. */
  lemma DomainScanExactly(m: seq<Str>)
    requires |m| <= MAX_DOMAINS
    ensures (forall x | x != [] :: Listed(Slots(ClipAll(m, DOMAIN_MAX_LEN), MAX_DOMAINS, []), NoName, x) <==> x in m)
            <==>
            && (forall s | s in m :: s == [] || Storable(s, DOMAIN_MAX_LEN))
            && (forall i, j | 0 <= i < j < |m| && m[i] == [] :: m[j] == [] || m[j] in m[..i])
  {
    var clipped := ClipAll(m, DOMAIN_MAX_LEN);
    var slots := Slots(clipped, MAX_DOMAINS, []);
    if forall s | s in m :: s == [] || Storable(s, DOMAIN_MAX_LEN) {
      ClipKeepsEmpty(m, DOMAIN_MAX_LEN);
      ScanExactly(m, MAX_DOMAINS, [], NoName);
      assert forall x :: NoName(x) <==> x == [];
    } else {
      var s :| s in m && s != [] && !Storable(s, DOMAIN_MAX_LEN);
      if Listed(slots, NoName, s) {
        ListedIsEarly(clipped, MAX_DOMAINS, [], NoName, s);
        assert false;
      }
    }
  }

  lemma ClipKeepsEmpty(items: seq<Str>, size: nat)
    requires size > 0 && forall s | s in items :: s == [] || Storable(s, size)
    ensures ClipAll(items, size) == items
  {
    forall i | 0 <= i < |items|
      ensures Clipped(items[i], size) == items[i]
    {
      assert items[i] in items;
      CStrOfPlain(items[i]);
    }
  }

  /** An address list is scanned exactly as configured if and only if no address is hidden behind 0.0.0.0 or beyond the
      array. */
  lemma Ip4ScanExactly(items: seq<Str>, parse: Str -> Ip)
    ensures var v := V4s(items, parse);
            (forall a: nat | a != 0 :: Listed(Slots(v, MAX_IP, 0), NoIp4, a) <==> a in v)
            <==>
            && (forall i, j | 0 <= i < j < |v| && v[i] == 0 :: v[j] == 0 || v[j] in v[..i])
            && (forall j | 1024 <= j < |v| :: v[j] == 0 || v[j] in v[..1024])
    ensures forall a :: a in V4s(items, parse) <==> exists s | s in items :: parse(s) == V4(a)
  {
    FamilyMembers(items, parse);
    ScanExactly(V4s(items, parse), MAX_IP, 0, NoIp4);
    assert forall a: nat :: NoIp4(a) <==> a == 0;
  }

  /** The same for IPv6, where every address whose first octet is zero ends the scan. */
  lemma Ip6ScanExactly(items: seq<Str>, parse: Str -> Ip)
    ensures var v := V6s(items, parse);
            (forall a | a != [] && a[0] != 0 :: Listed(Slots(v, MAX_IP, ZERO_IP6), NoIp6, a) <==> a in v)
            <==>
            && (forall i, j | 0 <= i < j < |v| && !(v[i] != [] && v[i][0] != 0) ::
                  (v[j] != [] && v[j][0] != 0) ==> v[j] in v[..i])
            && (forall j | 1024 <= j < |v| && v[j] != [] && v[j][0] != 0 :: v[j] in v[..1024])
    ensures forall a :: a in V6s(items, parse) <==> exists s | s in items :: parse(s) == V6(a)
  {
    FamilyMembers(items, parse);
    ScanExactly(V6s(items, parse), MAX_IP, ZERO_IP6, NoIp6);
    assert forall a :: NoIp6(a) <==> !(a != [] && a[0] != 0);
  }

  /** An empty item hides what follows it. */
  lemma EmptyItemHides(x: Str)
    requires Storable(x, DOMAIN_MAX_LEN)
    ensures !Listed(Slots(ClipAll([[], x], DOMAIN_MAX_LEN), MAX_DOMAINS, []), NoName, x)
  {
    ClipKeepsEmpty([[], x], DOMAIN_MAX_LEN);
    var slots := Slots([[], x], MAX_DOMAINS, []);
    assert NoName(slots[0]);
  }

  /** So does 0.0.0.0 among IPv4 addresses, and ::1 among IPv6 addresses. */
  lemma ZeroAddressHides(s: Str, t: Str, a: nat, parse: Str -> Ip)
    requires parse(s) == V4(0) && parse(t) == V4(a)
    ensures !Listed(Slots(V4s([s, t], parse), MAX_IP, 0), NoIp4, a)
  {
    assert V4s([s, t], parse) == [0] + V4s([s, t][1..], parse);
    assert NoIp4(Slots(V4s([s, t], parse), MAX_IP, 0)[0]);
  }

  lemma LoopbackHides(s: Str, t: Str, a: Str, parse: Str -> Ip)
    requires parse(s) == V6(Fill(NUL, IP6_LEN - 1) + [1]) && parse(t) == V6(a)
    ensures !Listed(Slots(V6s([s, t], parse), MAX_IP, ZERO_IP6), NoIp6, a)
  {
    assert V6s([s, t], parse) == [Fill(NUL, IP6_LEN - 1) + [1]] + V6s([s, t][1..], parse);
    assert NoIp6(Slots(V6s([s, t], parse), MAX_IP, ZERO_IP6)[0]);
  }
}
