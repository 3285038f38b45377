/** The controller's classifier: categories name, for each provider, the answers that stand for them. The categories are
    turned over into an index by provider, so that every provider is asked once. */
module ProviderIndex {
  import opened Bytes
  import opened Options

  datatype Category = Category(id: int, mappings: map<Str, seq<Str>>)
  datatype Info = Info(id: int, mappings: seq<Str>)
  type Index = map<Str, seq<Info>>

  /** What a provider that is asked makes of the target; None for every kind of failure. */
  type Provider = Str -> Option<seq<Str>>

  ghost predicate Meets(a: seq<Str>, b: seq<Str>) {
    exists x :: x in a && x in b
  }

  /** The provider is known, answers, and its answer meets what stands for the category. */
  ghost predicate Confirms(c: Category, p: Str, known: set<Str>, ask: Provider) {
    p in c.mappings && p in known && ask(p).Some? && Meets(c.mappings[p], ask(p).value)
  }

  ghost predicate Classified(categories: seq<Category>, known: set<Str>, ask: Provider, id: int) {
    exists i, p :: 0 <= i < |categories| && categories[i].id == id && Confirms(categories[i], p, known, ask)
  }

  /** The index lists under every provider what the categories say about it, and nothing else. */
  ghost predicate Lists(index: Index, p: Str, x: Info) {
    p in index && x in index[p]
  }

  ghost predicate Says(c: Category, p: Str, x: Info) {
    p in c.mappings && x == Info(c.id, c.mappings[p])
  }

  ghost predicate Inverts(index: Index, categories: seq<Category>) {
    && (forall p, x :: Lists(index, p, x) ==> exists i :: 0 <= i < |categories| && Says(categories[i], p, x))
    && (forall i, p, x :: 0 <= i < |categories| && Says(categories[i], p, x) ==> Lists(index, p, x))
  }

  method HasIntersection(a: seq<Str>, b: seq<Str>) returns (r: bool)
    ensures r <==> Meets(a, b)
  {
    var lookup: set<Str> := {};
    for i := 0 to |b|
      invariant forall x :: x in lookup <==> x in b[..i]
    {
      lookup := lookup + {b[i]};
    }
    assert b[..|b|] == b;
    for i := 0 to |a|
      invariant forall j :: 0 <= j < i ==> a[j] !in b
    {
      if a[i] in lookup {
        return true;
      }
    }
    r := false;
  }

  /** Files one category; its providers come in any order. */
  method AddCategory(index: Index, c: Category) returns (more: Index)
    ensures forall p, x :: Lists(more, p, x) <==> Lists(index, p, x) || Says(c, p, x)
  {
    more := index;
    var left := c.mappings.Keys;
    while left != {}
      invariant left <= c.mappings.Keys
      invariant forall p, x :: Lists(more, p, x) <==> Lists(index, p, x) || (Says(c, p, x) && p !in left)
      decreases |left|
    {
      var p :| p in left;
      var before := more;
      more := more[p := (if p in more then more[p] else []) + [Info(c.id, c.mappings[p])]];
      left := left - {p};
      forall q, x
        ensures Lists(more, q, x) <==> Lists(before, q, x) || (q == p && Says(c, p, x))
      {
      }
    }
  }

  method BuildIndex(categories: seq<Category>) returns (index: Index)
    ensures Inverts(index, categories)
  {
    index := map[];
    for i := 0 to |categories|
      invariant Inverts(index, categories[..i])
    {
      ghost var before := index;
      index := AddCategory(index, categories[i]);
      InvertsMore(before, index, categories[..i], categories[i]);
      assert categories[..i + 1] == categories[..i] + [categories[i]];
    }
    assert categories[..|categories|] == categories;
  }

  lemma InvertsMore(before: Index, index: Index, categories: seq<Category>, c: Category)
    requires Inverts(before, categories)
    requires forall p, x :: Lists(index, p, x) <==> Lists(before, p, x) || Says(c, p, x)
    ensures Inverts(index, categories + [c])
  {
    var all := categories + [c];
    forall p, x | Lists(index, p, x)
      ensures exists i :: 0 <= i < |all| && Says(all[i], p, x)
    {
      if Lists(before, p, x) {
        var i :| 0 <= i < |categories| && Says(categories[i], p, x);
        assert Says(all[i], p, x);
      } else {
        assert Says(all[|categories|], p, x);
      }
    }
  }

  ghost predicate Matched(infos: seq<Info>, actual: seq<Str>, id: int) {
    exists x :: x in infos && x.id == id && Meets(x.mappings, actual)
  }

  /** Adds the ids that one provider's answer confirms. */
  method Match(infos: seq<Info>, actual: seq<Str>, found: set<int>) returns (more: set<int>)
    ensures forall id :: id in more <==> id in found || Matched(infos, actual, id)
  {
    more := found;
    for i := 0 to |infos|
      invariant forall id :: id in more <==> id in found || Matched(infos[..i], actual, id)
    {
      var met := HasIntersection(infos[i].mappings, actual);
      if met {
        more := more + {infos[i].id};
      }
      assert infos[..i + 1] == infos[..i] + [infos[i]];
      forall id
        ensures Matched(infos[..i + 1], actual, id) <==> Matched(infos[..i], actual, id) || (met && infos[i].id == id)
      {
        MatchedMore(infos[..i], infos[i], actual, id);
      }
    }
    assert infos[..|infos|] == infos;
  }

  lemma MatchedMore(infos: seq<Info>, x: Info, actual: seq<Str>, id: int)
    ensures Matched(infos + [x], actual, id) <==>
              Matched(infos, actual, id) || (Meets(x.mappings, actual) && x.id == id)
  {
    assert forall y :: y in infos + [x] <==> y in infos || y == x;
  }

  /** Providers outside `left` have been asked. */
  ghost predicate Confirmed(index: Index, left: set<Str>, known: set<Str>, ask: Provider, id: int) {
    exists p, x :: Lists(index, p, x) && p !in left && x.id == id &&
                   p in known && ask(p).Some? && Meets(x.mappings, ask(p).value)
  }

  /** An id is returned if and only if some category with that id is confirmed by some provider, and only once. The
      index and the set of ids are walked in any order, so as a set the result does not depend on it. */
  method Check(categories: seq<Category>, known: set<Str>, ask: Provider) returns (ids: seq<int>)
    ensures forall id :: id in ids <==> Classified(categories, known, ask, id)
    ensures forall i, j :: 0 <= i < j < |ids| ==> ids[i] != ids[j]
  {
    var index := BuildIndex(categories);
    var found := AskAll(index, known, ask);
    forall id
      ensures id in found <==> Classified(categories, known, ask, id)
    {
      IndexIsExact(index, categories, known, ask, id);
    }
    ids := ListOf(found);
  }

  method AskAll(index: Index, known: set<Str>, ask: Provider) returns (found: set<int>)
    ensures forall id :: id in found <==> Confirmed(index, {}, known, ask, id)
  {
    found := {};
    var left := index.Keys;
    while left != {}
      invariant left <= index.Keys
      invariant forall id :: id in found <==> Confirmed(index, left, known, ask, id)
      decreases |left|
    {
      var p :| p in left;
      ghost var before := found;
      var rest := left - {p};
      if p in known {
        var answer := ask(p);
        if answer.Some? {
          found := Match(index[p], answer.value, found);
        }
      }
      forall id
        ensures id in found <==> Confirmed(index, rest, known, ask, id)
      {
        OneMoreAsked(index, left, p, known, ask, id);
      }
      left := rest;
    }
  }

  lemma OneMoreAsked(index: Index, left: set<Str>, p: Str, known: set<Str>, ask: Provider, id: int)
    requires p in left && p in index
    ensures Confirmed(index, left - {p}, known, ask, id) <==>
              || Confirmed(index, left, known, ask, id)
              || (p in known && ask(p).Some? && Matched(index[p], ask(p).value, id))
  {
    if p in known && ask(p).Some? {
      if x :| x in index[p] && x.id == id && Meets(x.mappings, ask(p).value) {
        assert Lists(index, p, x);
      }
    }
  }

  lemma IndexIsExact(index: Index, categories: seq<Category>, known: set<Str>, ask: Provider, id: int)
    requires Inverts(index, categories)
    ensures Confirmed(index, {}, known, ask, id) <==> Classified(categories, known, ask, id)
  {
    if Confirmed(index, {}, known, ask, id) {
      var p, x :| Lists(index, p, x) && x.id == id && p in known && ask(p).Some? && Meets(x.mappings, ask(p).value);
      var i :| 0 <= i < |categories| && Says(categories[i], p, x);
      assert Confirms(categories[i], p, known, ask);
    }
    if Classified(categories, known, ask, id) {
      var i, p :| 0 <= i < |categories| && categories[i].id == id && Confirms(categories[i], p, known, ask);
      var x := Info(id, categories[i].mappings[p]);
      assert Says(categories[i], p, x);
      assert Lists(index, p, x);
    }
  }

  /** Two such lists with the same ids hold the same ids equally often. */
  lemma {:induction false} SameUpToOrder(a: seq<int>, b: seq<int>)
    requires forall id :: id in a <==> id in b
    requires forall i, j :: 0 <= i < j < |a| ==> a[i] != a[j]
    requires forall i, j :: 0 <= i < j < |b| ==> b[i] != b[j]
    ensures multiset(a) == multiset(b)
  {
    forall id
      ensures multiset(a)[id] == multiset(b)[id]
    {
      OccursOnce(a, id);
      OccursOnce(b, id);
    }
  }

  lemma {:induction false} OccursOnce(a: seq<int>, id: int)
    requires forall i, j :: 0 <= i < j < |a| ==> a[i] != a[j]
    ensures multiset(a)[id] == if id in a then 1 else 0
  {
    if a == [] {
    } else {
      var most, last := a[..|a| - 1], a[|a| - 1];
      OccursOnce(most, id);
      assert a == most + [last];
    }
  }

  method ListOf<T(==)>(found: set<T>) returns (ids: seq<T>)
    ensures forall id :: id in ids <==> id in found
    ensures forall i, j :: 0 <= i < j < |ids| ==> ids[i] != ids[j]
  {
    ids := [];
    var left := found;
    while left != {}
      invariant left <= found
      invariant forall id <- found :: id in left || id in ids
      invariant forall i :: 0 <= i < |ids| ==> ids[i] in found && ids[i] !in left
      invariant forall i, j :: 0 <= i < j < |ids| ==> ids[i] != ids[j]
      decreases |left|
    {
      var id :| id in left;
      ids := ids + [id];
      left := left - {id};
    }
  }
}
