/** The node registry of `ground_graph` (code/convert.py:18-31, 43-49, 55): a fresh-id
    counter, the map `nodes` from a node name to its id and the reverse map `node_doc`. */
module Registry {
  import opened Sequences

  /** The closure returned by `fresh_gen`: a one-cell counter whose every call hands out
      the next id, starting at 1. */
  class FreshCounter {
    var last: nat

    constructor ()
      ensures last == 0
    {
      last := 0;
    }

    method Fresh() returns (id: nat)
      modifies this
      ensures last == old(last) + 1
      ensures id == last
    {
      last := last + 1;
      id := last;
    }
  }

  /** What the registration loop has built so far: `nodes`, `node_doc`, and the last id
      the counter handed out. */
  datatype Registry = Registry(nodes: map<string, nat>, doc: map<nat, string>, last: nat)

  const EMPTY := Registry(map[], map[], 0)

  /** `if name not in nodes: nodes[name] = fresh(); node_doc[nodes[name]] = name`. */
  function Register(r: Registry, name: string): Registry {
    if name in r.nodes then r
    else Registry(r.nodes[name := r.last + 1], r.doc[r.last + 1 := name], r.last + 1)
  }

  /** Registering the names in the order they are sighted. */
  function RegisterAll(names: seq<string>): Registry {
    if names == [] then EMPTY
    else Register(RegisterAll(names[..|names| - 1]), names[|names| - 1])
  }

  /** The distinct names in order of first sighting. */
  function FirstSightings(names: seq<string>): seq<string> {
    if names == [] then []
    else
      var earlier := FirstSightings(names[..|names| - 1]);
      var n := names[|names| - 1];
      if n in earlier then earlier else earlier + [n]
  }

  /** The registry invariant: the ids are exactly 1..last, one per registered name,
      and `doc` is the inverse of `nodes`. */
  ghost predicate Dense(r: Registry) {
    && |r.nodes| == r.last
    && (forall n :: n in r.nodes ==> 1 <= r.nodes[n] <= r.last && r.nodes[n] in r.doc && r.doc[r.nodes[n]] == n)
    && (forall k :: k in r.doc <==> 1 <= k <= r.last)
    && (forall k :: k in r.doc ==> r.doc[k] in r.nodes && r.nodes[r.doc[k]] == k)
  }

  /** `r'` keeps every id `r` has handed out. */
  ghost predicate Extends(r: Registry, r': Registry) {
    forall n :: n in r.nodes ==> n in r'.nodes && r'.nodes[n] == r.nodes[n]
  }

  /** Registering a name adds exactly that name and changes no existing id. */
  lemma RegisterExtends(r: Registry, name: string)
    ensures Register(r, name).nodes.Keys == r.nodes.Keys + {name}
    ensures Extends(r, Register(r, name))
  {
  }

  /** Registering a name not seen before keeps the invariant: the new name takes the
      next id and the reverse map gains that id. */
  lemma RegisterNewDense(r: Registry, name: string)
    requires Dense(r) && name !in r.nodes
    ensures Dense(Register(r, name))
  {
    var id := r.last + 1;
    assert id !in r.doc;
    var r' := Register(r, name);
    assert r'.nodes == r.nodes[name := id] && r'.doc == r.doc[id := name] && r'.last == id;
    assert |r'.nodes| == id;
    forall n | n in r'.nodes
      ensures 1 <= r'.nodes[n] <= id && r'.nodes[n] in r'.doc && r'.doc[r'.nodes[n]] == n
    {
      if n != name {
        assert r'.nodes[n] == r.nodes[n] < id;
      }
    }
    forall k ensures k in r'.doc <==> 1 <= k <= id {
      assert k in r'.doc <==> k in r.doc || k == id;
    }
    forall k | k in r'.doc ensures r'.doc[k] in r'.nodes && r'.nodes[r'.doc[k]] == k {
      if k != id {
        assert r'.doc[k] == r.doc[k] != name;
      }
    }
  }

  /** Registering a name keeps the invariant, gives the name an id, and changes no
      existing id; a new name gets the next id. */
  lemma RegisterKeepsDense(r: Registry, name: string)
    requires Dense(r)
    ensures Dense(Register(r, name))
    ensures Register(r, name).nodes.Keys == r.nodes.Keys + {name}
    ensures Extends(r, Register(r, name))
    ensures name !in r.nodes ==> Register(r, name).nodes[name] == r.last + 1 == Register(r, name).last
    ensures name in r.nodes ==> Register(r, name) == r
  {
    if name !in r.nodes {
      RegisterNewDense(r, name);
    }
  }

  /** Registering a sequence registers exactly the names seen. */
  lemma {:induction false} RegisterAllKeys(names: seq<string>)
    ensures RegisterAll(names).nodes.Keys == Elements(names)
  {
    if names != [] {
      var p := names[..|names| - 1];
      assert names == p + [names[|names| - 1]];
      assert Elements(names) == Elements(p) + {names[|names| - 1]};
      RegisterAllKeys(p);
    }
  }

  /** Registering a sequence keeps the invariant and registers exactly the names seen. */
  lemma {:induction false} RegisterAllDense(names: seq<string>)
    ensures Dense(RegisterAll(names))
    ensures RegisterAll(names).nodes.Keys == Elements(names)
  {
    if names != [] {
      var p := names[..|names| - 1];
      var n := names[|names| - 1];
      assert names == p + [n];
      assert Elements(names) == Elements(p) + {n};
      RegisterAllDense(p);
      RegisterKeepsDense(RegisterAll(p), n);
    }
  }

  /** The first sightings are the names seen, and there are as many as ids handed out. */
  lemma {:induction false} FirstSightingsCount(names: seq<string>)
    ensures Elements(FirstSightings(names)) == Elements(names)
    ensures RegisterAll(names).last == |FirstSightings(names)|
  {
    if names != [] {
      var p := names[..|names| - 1];
      var n := names[|names| - 1];
      assert names == p + [n];
      assert Elements(names) == Elements(p) + {n};
      FirstSightingsCount(p);
      RegisterAllKeys(p);
      assert n in FirstSightings(p) <==> n in RegisterAll(p).nodes;
    }
  }

  /** The k-th distinct name, in order of first sighting, has id k + 1. */
  lemma {:induction false} FirstSightingIds(names: seq<string>)
    ensures forall k :: 0 <= k < |FirstSightings(names)| ==>
      FirstSightings(names)[k] in RegisterAll(names).nodes &&
      RegisterAll(names).nodes[FirstSightings(names)[k]] == k + 1
  {
    if names != [] {
      var p := names[..|names| - 1];
      var n := names[|names| - 1];
      FirstSightingIds(p);
      FirstSightingsCount(p);
      RegisterAllDense(p);
      var before := RegisterAll(p);
      RegisterKeepsDense(before, n);
      var fs := FirstSightings(p);
      var fs' := FirstSightings(names);
      var r := RegisterAll(names);
      assert r == Register(before, n);
      assert n in fs <==> n in before.nodes;
      forall k | 0 <= k < |fs'| ensures fs'[k] in r.nodes && r.nodes[fs'[k]] == k + 1 {
        if k < |fs| {
          assert fs'[k] == fs[k];
          assert before.nodes[fs[k]] == k + 1;
        }
      }
    }
  }

  /** After registering a sequence of names: the invariant holds, the registered names
      are exactly the names seen, and the k-th distinct name (in order of first sighting)
      has id k + 1. */
  lemma RegisterAllFacts(names: seq<string>)
    ensures Dense(RegisterAll(names))
    ensures RegisterAll(names).nodes.Keys == Elements(names)
    ensures RegisterAll(names).last == |FirstSightings(names)|
    ensures Elements(FirstSightings(names)) == Elements(names)
    ensures forall k :: 0 <= k < |FirstSightings(names)| ==>
      RegisterAll(names).nodes[FirstSightings(names)[k]] == k + 1
  {
    RegisterAllDense(names);
    FirstSightingsCount(names);
    FirstSightingIds(names);
  }

  /** Ids are handed out on first sighting only: each name keeps the id it got when it
      was first registered. */
  lemma {:induction false} RegisterAllPrefix(names: seq<string>, i: nat)
    requires i <= |names|
    ensures Extends(RegisterAll(names[..i]), RegisterAll(names))
  {
    if i < |names| {
      var p := names[..|names| - 1];
      assert names[..i] == p[..i];
      RegisterAllPrefix(p, i);
      RegisterAllFacts(p);
      RegisterKeepsDense(RegisterAll(p), names[|names| - 1]);
    } else {
      assert names[..i] == names;
    }
  }

  /** The first sightings list each seen name once. */
  lemma {:induction false} FirstSightingsDistinct(names: seq<string>)
    ensures Distinct(FirstSightings(names))
  {
    if names != [] {
      FirstSightingsDistinct(names[..|names| - 1]);
    }
  }

  /** Distinct names get distinct ids, and the ids are exactly 1..N where N is the
      number of distinct names seen. */
  lemma RegistryIds(names: seq<string>)
    ensures var r := RegisterAll(names);
      && (forall a, b :: a in r.nodes && b in r.nodes && a != b ==> r.nodes[a] != r.nodes[b])
      && (forall n :: n in r.nodes ==> 1 <= r.nodes[n] <= |Elements(names)|)
      && r.last == |r.nodes| == |Elements(names)|
  {
    RegisterAllFacts(names);
  }
}
