/**
 * object_id: the numeric identity of a type in the object aggregation and
 * factory systems, with an optional parent pointer standing for
 * inheritance. Two ids are related when their parent chains share a
 * numeric id; operator< orders unrelated ids by number and treats related
 * ones as equivalent.
 *
 * The parent chain of an id is the sequence of m_id values met when
 * following m_parent from the id itself (index 0) to the root; a cursor
 * into the chain is an index into that sequence. Chains are finite, which
 * the pointer walk needs and does not check.
 */
module ObjectId {
  import opened Bytes

  class ObjectId {
    var id: uint16
    var parent: ObjectId?

    /** object_id(): the invalid id 0 with no parent. */
    constructor Invalid()
      ensures id == 0 && parent == null
    {
      id := 0;
      parent := null;
    }

    /** object_id(id): a registered id with no parent. */
    constructor(id: uint16)
      ensures this.id == id && parent == null
    {
      this.id := id;
      parent := null;
    }

    /** The copy constructor: the same number and the same parent. */
    constructor Copy(other: ObjectId)
      ensures id == other.id && parent == other.parent
    {
      id := other.id;
      parent := other.parent;
    }

    /** set_parent(parent): store the parent and return this same id. */
    method SetParent(p: ObjectId?) returns (self: ObjectId)
      modifies this
      ensures parent == p && id == old(id) && self == this
    {
      parent := p;
      self := this;
    }

    function HasParent(): (r: bool)
      reads this
      ensures r <==> parent != null
    {
      parent != null
    }
  }

  /** Some id on a's chain has the same number as some id on b's chain. */
  predicate Related(a: seq<uint16>, b: seq<uint16>)
  {
    exists x, y :: 0 <= x < |a| && 0 <= y < |b| && a[x] == b[y]
  }

  /**
   * are_related: for each id on a's chain in turn, walk b's chain from its
   * start looking for the same number. Both ids must be present and valid.
   */
  method AreRelated(a: seq<uint16>, b: seq<uint16>) returns (r: bool)
    requires |a| > 0 && |b| > 0 && a[0] != 0 && b[0] != 0
    ensures r <==> Related(a, b)
  {
    var currentA := 0;
    while currentA < |a|
      invariant currentA <= |a|
      invariant forall x, y :: 0 <= x < currentA && 0 <= y < |b| ==> a[x] != b[y]
    {
      var currentB := 0;
      while currentB < |b|
        invariant currentB <= |b|
        invariant forall y :: 0 <= y < currentB ==> a[currentA] != b[y]
      {
        if a[currentA] == b[currentB] {
          return true;
        }
        currentB := currentB + 1;
      }
      currentA := currentA + 1;
    }
    return false;
  }

  /** What operator< decides: unrelated, and a smaller number. */
  predicate Precedes(a: seq<uint16>, b: seq<uint16>)
    requires |a| > 0 && |b| > 0
  {
    !Related(a, b) && a[0] < b[0]
  }

  /** operator<: false for related ids, otherwise a comparison of the numbers. */
  method Less(a: seq<uint16>, b: seq<uint16>) returns (r: bool)
    requires |a| > 0 && |b| > 0 && a[0] != 0 && b[0] != 0
    ensures r == Precedes(a, b)
    ensures Related(a, b) ==> !r
  {
    var related := AreRelated(a, b);
    if related {
      return false;
    }
    if a[0] < b[0] {
      return true;
    }
    if a[0] > b[0] {
      return false;
    }
    return false;
  }

  lemma RelatedReflexive(a: seq<uint16>)
    requires |a| > 0
    ensures Related(a, a)
  {
    var x, y := 0, 0;
    assert 0 <= x < |a| && 0 <= y < |a| && a[x] == a[y];
  }

  lemma RelatedSymmetric(a: seq<uint16>, b: seq<uint16>)
    ensures Related(a, b) <==> Related(b, a)
  {
    if Related(a, b) {
      var x, y :| 0 <= x < |a| && 0 <= y < |b| && a[x] == b[y];
      assert b[y] == a[x];
    }
    if Related(b, a) {
      var y, x :| 0 <= y < |b| && 0 <= x < |a| && b[y] == a[x];
      assert a[x] == b[y];
    }
  }

  /** Every id is related to each of its ancestors (the chain from the k-th parent on). */
  lemma RelatedToAncestor(a: seq<uint16>, k: nat)
    requires k < |a|
    ensures Related(a, a[k..])
  {
    assert a[k] == a[k..][0];
  }

  /** Whatever an ancestor is related to, its descendants are related to as well. */
  lemma RelatedThroughAncestor(a: seq<uint16>, k: nat, b: seq<uint16>)
    requires k < |a| && Related(a[k..], b)
    ensures Related(a, b)
  {
    var x, y :| 0 <= x < |a[k..]| && 0 <= y < |b| && a[k..][x] == b[y];
    assert a[k + x] == b[y];
  }

  lemma PrecedesIrreflexive(a: seq<uint16>)
    requires |a| > 0
    ensures !Precedes(a, a)
  {
    RelatedReflexive(a);
  }

  lemma PrecedesAsymmetric(a: seq<uint16>, b: seq<uint16>)
    requires |a| > 0 && |b| > 0
    ensures Precedes(a, b) ==> !Precedes(b, a)
  {
  }

  /**
   * Unrelated ids with different numbers are always ordered one way or the
   * other, and related ids in neither.
   */
  lemma PrecedesTrichotomy(a: seq<uint16>, b: seq<uint16>)
    requires |a| > 0 && |b| > 0
    ensures !Related(a, b) && a[0] != b[0] ==> Precedes(a, b) || Precedes(b, a)
    ensures Related(a, b) ==> !Precedes(a, b) && !Precedes(b, a)
  {
    RelatedSymmetric(a, b);
  }

  /**
   * operator< is not transitive: with a = [1], b = [2] and c = [3, 1] (c's
   * parent has number 1), a < b and b < c, but a and c are related.
   */
  lemma PrecedesNotTransitive()
    ensures Precedes([1], [2]) && Precedes([2], [3, 1]) && !Precedes([1], [3, 1])
  {
    var a: seq<uint16>, b: seq<uint16>, c: seq<uint16> := [1], [2], [3, 1];
    assert a[0] == c[1];
    assert !Related(a, b) by {
      forall x, y | 0 <= x < |a| && 0 <= y < |b|
        ensures a[x] != b[y]
      {
      }
    }
    assert !Related(b, c) by {
      forall x, y | 0 <= x < |b| && 0 <= y < |c|
        ensures b[x] != c[y]
      {
        assert y == 0 || y == 1;
      }
    }
  }
}
