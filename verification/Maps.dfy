/** Strings of bytes and of characters, maps described by their lookups, and iteration over a set in some order or in
    ascending order. */
module Maps {
  import opened Options

  type Byte = b: nat | b < 256
  type Bytes = seq<Byte>

  predicate EndsWith(s: string, suffix: string) { |suffix| <= |s| && s[|s| - |suffix|..] == suffix }

  function Lookup<T>(m: map<string, T>, name: string): Option<T> { if name in m then Some(m[name]) else None }

  lemma SameMap<T>(a: map<string, T>, b: map<string, T>)
    requires forall name :: Lookup(a, name) == Lookup(b, name)
    ensures a == b
  {
    forall name ensures name in a <==> name in b { assert Lookup(a, name) == Lookup(b, name); }
    forall name | name in a ensures a[name] == b[name] { assert Lookup(a, name) == Lookup(b, name); }
  }

  /** The map with the given lookups. */
  function Collect<T>(keys: set<string>, at: string -> Option<T>): (r: map<string, T>)
    ensures forall name :: Lookup(r, name) == if name in keys then at(name) else None
  {
    map name | name in keys && at(name).Some? :: at(name).value
  }

  /** A list of a set's members, each once. */
  method Listing(members: set<string>) returns (list: seq<string>)
    ensures forall name :: name in list <==> name in members
    ensures forall i, j :: 0 <= i < j < |list| ==> list[i] != list[j]
  {
    var left := members;
    list := [];
    while left != {}
      invariant left <= members
      invariant forall name :: name in members <==> name in left || name in list
      invariant forall name :: name in list ==> name !in left
      invariant forall i, j :: 0 <= i < j < |list| ==> list[i] != list[j]
    {
      var name :| name in left;
      assert forall i :: 0 <= i < |list| ==> list[i] in list;
      left := left - {name};
      list := list + [name];
    }
  }

  /** The keys in ascending order. */
  function SortedKeys(keys: set<nat>): (r: seq<nat>)
    ensures forall i :: i in r <==> i in keys
    ensures forall j, k :: 0 <= j < k < |r| ==> r[j] < r[k]
  {
    if keys == {} then []
    else
      MaximumExists(keys);
      var m :| m in keys && forall k :: k in keys ==> k <= m;
      SortedKeys(keys - {m}) + [m]
  }

  lemma {:induction false} MaximumExists(keys: set<nat>)
    requires keys != {}
    ensures exists m :: m in keys && forall k :: k in keys ==> k <= m
  {
    var any :| any in keys;
    if keys == {any} {
      assert forall k :: k in keys ==> k <= any;
    } else {
      MaximumExists(keys - {any});
      var m :| m in keys - {any} && forall k :: k in keys - {any} ==> k <= m;
      MaximumOfMore(keys, any, m);
    }
  }

  lemma MaximumOfMore(keys: set<nat>, any: nat, m: nat)
    requires any in keys && m in keys && forall k :: k in keys - {any} ==> k <= m
    ensures exists top :: top in keys && forall k :: k in keys ==> k <= top
  {
    forall k | k in keys ensures k <= any || k <= m {
      if k != any { assert k in keys - {any}; }
    }
    var top := if m < any then any else m;
    assert top in keys;
  }

  lemma {:induction false} SortedKeysCount(keys: set<nat>)
    ensures |SortedKeys(keys)| == |keys|
  {
    if keys != {} {
      MaximumExists(keys);
      var m :| m in keys && forall k :: k in keys ==> k <= m;
      SortedKeysCount(keys - {m});
      assert SortedKeys(keys) == SortedKeys(keys - {m}) + [m];
    }
  }
}
