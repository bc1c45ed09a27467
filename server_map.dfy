/** The `serverMap` object every anime record carries: for each server name, the anime's
    identifier on that server or `null`. */
module ServerMaps {
  import opened Common

  /** One own property of a `serverMap` object. */
  datatype Binding = Binding(server: string, id: Option<string>)

  /** The properties of a `serverMap` object in insertion order, which `Object.keys`
      follows for keys that are not array indices (server names are not). */
  type ServerMap = seq<Binding>

  function Keys(m: ServerMap): seq<string> {
    seq(|m|, i requires 0 <= i < |m| => m[i].server)
  }

  predicate DistinctKeys(m: ServerMap) {
    Distinct(Keys(m))
  }

  /** `m[key]`; a missing key and a `null` value are both absent. */
  function Value(m: ServerMap, key: string): Option<string> {
    if m == [] then None
    else if m[0].server == key then m[0].id
    else Value(m[1..], key)
  }

  /** A key that is not a property reads as absent; a present value is the value of a
      property under that key. */
  lemma {:induction false} ValueSpec(m: ServerMap, key: string)
    ensures key !in Keys(m) ==> Value(m, key).None?
    ensures Value(m, key).Some? ==> Binding(key, Value(m, key)) in m
  {
    if m != [] && m[0].server != key {
      ValueSpec(m[1..], key);
      if key in Keys(m[1..]) {
        var i :| 0 <= i < |m[1..]| && Keys(m[1..])[i] == key;
        assert Keys(m)[i + 1] == key;
      }
    } else if m != [] {
      assert Keys(m)[0] == key;
    }
  }

  /** The assignment `m[key] = v`: an existing property keeps its place, a new one is
      appended. */
  function Assign(m: ServerMap, key: string, v: Option<string>): (r: ServerMap)
    ensures Value(r, key) == v
    ensures forall k :: k != key ==> Value(r, k) == Value(m, k)
  {
    if m == [] then [Binding(key, v)]
    else if m[0].server == key then
      var r := [Binding(key, v)] + m[1..];
      assert r[1..] == m[1..];
      r
    else
      var rest := Assign(m[1..], key, v);
      var r := [m[0]] + rest;
      assert r[0] == m[0] && r[1..] == rest;
      r
  }

  lemma KeysCons(b: Binding, m: ServerMap)
    ensures Keys([b] + m) == [b.server] + Keys(m)
  {
  }

  /** Assigning keeps the order of the keys, and appends a key that was not there. */
  lemma {:induction false} AssignKeys(m: ServerMap, key: string, v: Option<string>)
    ensures Keys(Assign(m, key, v)) == if key in Keys(m) then Keys(m) else Keys(m) + [key]
  {
    if m != [] {
      KeysCons(m[0], m[1..]);
      assert [m[0]] + m[1..] == m;
      if m[0].server == key {
        KeysCons(Binding(key, v), m[1..]);
      } else {
        var rest := Assign(m[1..], key, v);
        AssignKeys(m[1..], key, v);
        KeysCons(m[0], rest);
        assert key in Keys(m) <==> key in Keys(m[1..]);
      }
    }
  }

  /** Assigning a key that is not yet a property appends it. */
  lemma {:induction false} AssignNew(m: ServerMap, key: string, v: Option<string>)
    requires key !in Keys(m)
    ensures Assign(m, key, v) == m + [Binding(key, v)]
  {
    if m != [] {
      assert Keys(m)[0] == m[0].server;
      assert Keys(m[1..]) == Keys(m)[1..];
      AssignNew(m[1..], key, v);
      assert [m[0]] + (m[1..] + [Binding(key, v)]) == m + [Binding(key, v)];
    }
  }

  /** With distinct keys, every property reads back under its own key. */
  lemma {:induction false} ValueAt(m: ServerMap, i: nat)
    requires DistinctKeys(m) && i < |m|
    ensures Value(m, m[i].server) == m[i].id
  {
    if i > 0 {
      assert Keys(m)[0] != Keys(m)[i];
      assert Keys(m[1..]) == Keys(m)[1..];
      assert DistinctKeys(m[1..]) by {
        forall a, b | 0 <= a < b < |m[1..]| ensures Keys(m[1..])[a] != Keys(m[1..])[b] {
          assert Keys(m)[a + 1] != Keys(m)[b + 1];
        }
      }
      ValueAt(m[1..], i - 1);
    }
  }

  /** The deletion `delete m[key]`. */
  function Remove(m: ServerMap, key: string): (r: ServerMap)
    ensures Value(r, key).None?
    ensures forall k :: k != key ==> Value(r, k) == Value(m, k)
  {
    if m == [] then []
    else
      var rest := Remove(m[1..], key);
      if m[0].server == key then rest
      else
        var r := [m[0]] + rest;
        assert r[0] == m[0] && r[1..] == rest;
        r
  }

  /** Deleting a property removes its key and keeps the others in order. */
  lemma {:induction false} RemoveKeys(m: ServerMap, key: string)
    ensures Keys(Remove(m, key)) == Omit(Keys(m), key)
  {
    if m != [] {
      KeysCons(m[0], m[1..]);
      assert [m[0]] + m[1..] == m;
      RemoveKeys(m[1..], key);
      if m[0].server != key {
        KeysCons(m[0], Remove(m[1..], key));
      }
    }
  }
}
