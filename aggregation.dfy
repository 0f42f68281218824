/**
 * object: object aggregation. Aggregated objects share one vector of
 * entries, each pairing a type's id with the object registered under it,
 * so any participant can look up any other by type.
 *
 * An entry's type id is given by its parent chain of numbers (see ObjectId).
 * A type T is known by its number t, and the root type object by its
 * number root. The C++ type tests (T::id() and dynamic_pointer_cast) are
 * the chain matching below; reference counting is not modelled.
 */
module Aggregation {
  import opened Bytes
  import opened Wrappers

  /** object::register_type(): a static uint16_t counter starting at 1, post-incremented. */
  class TypeCounter {
    var next: uint16
    /** How many types have been registered. */
    ghost var calls: nat

    ghost predicate Valid()
      reads this
    {
      next == NthType(calls)
    }

    constructor()
      ensures Valid() && calls == 0 && next == 1
    {
      next := 1;
      calls := 0;
    }

    method RegisterType() returns (id: uint16)
      requires Valid()
      modifies this
      ensures Valid() && calls == old(calls) + 1
      ensures id == NthType(old(calls))
    {
      id := next;
      next := (next as int + 1) % 0x1_0000;
      calls := calls + 1;
    }
  }

  /** The id the n-th call (from 0) of register_type returns, with uint16_t wrap-around. */
  function NthType(n: nat): uint16
  {
    (n + 1) % 0x1_0000
  }

  /**
   * The first 65535 registrations return 1, 2, 3, ...: distinct and never the
   * invalid id 0. The 65536th returns 0.
   */
  lemma RegisteredTypesDistinct(m: nat, n: nat)
    requires m < n < 0xFFFF
    ensures 0 < NthType(m) < NthType(n)
    ensures NthType(n) == n + 1
  {
  }

  lemma RegisterTypeWraps()
    ensures NthType(0xFFFF) == 0
  {
  }

  /** The shared object_vector. */
  class ObjectVector {
    var entries: seq<Entry>

    constructor()
      ensures entries == []
    {
      entries := [];
    }
  }

  /** object_data: a type id (its parent chain of numbers) and the object registered under it. */
  datatype Entry = Entry(typeChain: seq<uint16>, obj: Object)

  /**
   * get_object's inner walk on a chain: stop at the first number that is t
   * or root; the entry matches when it stopped at t. Equivalently, t occurs
   * on the chain with no root before it.
   */
  predicate Reaches(chain: seq<uint16>, t: uint16, root: uint16)
  {
    exists k :: 0 <= k < |chain| && chain[k] == t && forall j :: 0 <= j < k ==> chain[j] != root
  }

  /** The walk stops on the chain: it meets t or root before running off the end. */
  predicate Walkable(chain: seq<uint16>, t: uint16, root: uint16)
  {
    exists k :: 0 <= k < |chain| && (chain[k] == t || chain[k] == root)
  }

  /** The object of the first entry whose chain reaches t. */
  function Lookup(entries: seq<Entry>, t: uint16, root: uint16): Option<Object>
  {
    if entries == [] then None
    else if Reaches(entries[0].typeChain, t, root) then Some(entries[0].obj)
    else Lookup(entries[1..], t, root)
  }

  class Object {
    var storage: ObjectVector

    /** object(): a storage of its own, still empty. */
    constructor()
      ensures fresh(storage) && storage.entries == []
    {
      storage := new ObjectVector();
    }

    /**
     * get_object<T>(): scan the entries in order; for each, walk its chain
     * until the number is t or root, and return the entry's object when it
     * is t. None when no entry matches.
     */
    method GetObject(t: uint16, root: uint16) returns (r: Option<Object>)
      requires forall i :: 0 <= i < |storage.entries| ==> Walkable(storage.entries[i].typeChain, t, root)
      ensures r == Lookup(storage.entries, t, root)
    {
      var entries := storage.entries;
      var it := 0;
      while it < |entries|
        invariant it <= |entries|
        invariant Lookup(entries, t, root) == Lookup(entries[it..], t, root)
      {
        var chain := entries[it].typeChain;
        var current := 0;
        while current < |chain| && chain[current] != t && chain[current] != root
          invariant current <= |chain|
          invariant forall j :: 0 <= j < current ==> chain[j] != t && chain[j] != root
        {
          current := current + 1;
        }
        assert Walkable(chain, t, root);
        ghost var stop :| 0 <= stop < |chain| && (chain[stop] == t || chain[stop] == root);
        assert current <= stop < |chain|;
        assert entries[it..][1..] == entries[it + 1..];
        if chain[current] == t {
          assert Reaches(chain, t, root);
          return Some(entries[it].obj);
        }
        assert chain[current] == root;
        forall k | 0 <= k < |chain| && chain[k] == t
          ensures exists j :: 0 <= j < k && chain[j] == root
        {
          assert current < k;
        }
        it := it + 1;
      }
      return None;
    }

    /**
     * set_object<T>(o): no object of type T may be found yet. o's entries
     * go in front of this storage's entries, (T's id, o) goes at the back,
     * and o then shares this storage.
     */
    method SetObject(tChain: seq<uint16>, root: uint16, o: Object)
      requires |tChain| > 0
      requires forall i :: 0 <= i < |storage.entries| ==> Walkable(storage.entries[i].typeChain, tChain[0], root)
      requires Lookup(storage.entries, tChain[0], root) == None
      requires o.storage != storage
      modifies storage, o
      ensures storage == old(storage) && o.storage == storage
      ensures storage.entries == old(o.storage.entries) + old(storage.entries) + [Entry(tChain, o)]
    {
      var found := GetObject(tChain[0], root);
      assert found == None;
      storage.entries := o.storage.entries + storage.entries + [Entry(tChain, o)];
      o.storage := storage;
    }
  }

  /** Entry i is the first whose chain reaches t. */
  predicate FirstMatch(entries: seq<Entry>, i: int, t: uint16, root: uint16)
  {
    && 0 <= i < |entries|
    && Reaches(entries[i].typeChain, t, root)
    && forall j :: 0 <= j < i ==> !Reaches(entries[j].typeChain, t, root)
  }

  /** Lookup returns o exactly when o is the object of the first entry reaching t. */
  lemma {:induction false} LookupIsFirstMatch(entries: seq<Entry>, t: uint16, root: uint16, o: Object)
    ensures Lookup(entries, t, root) == Some(o) <==> exists i :: FirstMatch(entries, i, t, root) && entries[i].obj == o
    decreases |entries|
  {
    if entries != [] {
      var rest := entries[1..];
      LookupIsFirstMatch(rest, t, root, o);
      if Lookup(entries, t, root) == Some(o) {
        if Reaches(entries[0].typeChain, t, root) {
          assert FirstMatch(entries, 0, t, root);
        } else {
          var i :| FirstMatch(rest, i, t, root) && rest[i].obj == o;
          forall j | 0 <= j < i + 1
            ensures !Reaches(entries[j].typeChain, t, root)
          {
            if j > 0 {
              assert entries[j] == rest[j - 1];
            }
          }
          assert FirstMatch(entries, i + 1, t, root);
        }
      }
      if exists i :: FirstMatch(entries, i, t, root) && entries[i].obj == o {
        var i :| FirstMatch(entries, i, t, root) && entries[i].obj == o;
        if i > 0 {
          assert !Reaches(entries[0].typeChain, t, root);
          forall j | 0 <= j < i - 1
            ensures !Reaches(rest[j].typeChain, t, root)
          {
            assert rest[j] == entries[j + 1];
          }
          assert FirstMatch(rest, i - 1, t, root);
        }
      }
    }
  }

  /** Looking up in a concatenation: the first part is searched first. */
  lemma {:induction false} LookupAppend(a: seq<Entry>, b: seq<Entry>, t: uint16, root: uint16)
    ensures Lookup(a + b, t, root) == if Lookup(a, t, root) != None then Lookup(a, t, root) else Lookup(b, t, root)
    decreases |a|
  {
    if a == [] {
      assert a + b == b;
    } else {
      assert (a + b)[0] == a[0] && (a + b)[1..] == a[1..] + b;
      LookupAppend(a[1..], b, t, root);
    }
  }

  /**
   * After set_object<T>(o), when o's own entries hold no T, a lookup of T
   * from the shared storage, and so from this object and from o alike,
   * returns o.
   */
  lemma SetThenGet(oEntries: seq<Entry>, entries: seq<Entry>, tChain: seq<uint16>, root: uint16, o: Object)
    requires |tChain| > 0
    requires Lookup(oEntries, tChain[0], root) == None && Lookup(entries, tChain[0], root) == None
    ensures Lookup(oEntries + entries + [Entry(tChain, o)], tChain[0], root) == Some(o)
  {
    var t := tChain[0];
    assert tChain[0] == t;
    assert Reaches(tChain, t, root);
    LookupAppend(oEntries, entries, t, root);
    LookupAppend(oEntries + entries, [Entry(tChain, o)], t, root);
  }
}
