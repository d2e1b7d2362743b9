/** The map-backed generic set of package `util`. Go keeps the members as
    the keys of a `map[interface{}]struct{}`; here they are a `set<T>` field
    that the mutating methods reassign. Go's map iteration order is
    unspecified, so every loop over the members picks an arbitrary member
    that has not been visited yet. */
module HashSetUtil {

  class HashSet<T(==)> {
    var data: set<T>

    /** `NewHashSet`: an empty set. */
    constructor ()
      ensures data == {}
    {
      data := {};
    }

    /** Adding makes `value` a member and keeps every earlier member; adding
        a member that is already there leaves the size unchanged. */
    method Add(value: T)
      modifies this
      ensures data == old(data) + {value}
      ensures Contains(value)
      ensures forall v :: v in old(data) ==> Contains(v)
      ensures value in old(data) ==> Size() == old(Size())
      ensures value !in old(data) ==> Size() == old(Size()) + 1
    {
      if value in data {
        assert data + {value} == data;
      }
      data := data + {value};
    }

    /** Removing deletes `value` and nothing else. */
    method Remove(value: T)
      modifies this
      ensures data == old(data) - {value}
      ensures !Contains(value)
      ensures forall v :: v != value ==> (Contains(v) <==> v in old(data))
    {
      data := data - {value};
    }

    function Contains(value: T): (found: bool)
      reads this
      ensures found <==> value in data
    {
      value in data
    }

    /** The number of distinct members. */
    function Size(): (n: nat)
      reads this
      ensures n == 0 <==> data == {}
    {
      |data|
    }

    /** After `Clear` the set is empty: its size is 0 and it contains no
        value. */
    method Clear()
      modifies this
      ensures data == {}
      ensures Size() == 0
      ensures forall v :: !Contains(v)
    {
      data := {};
    }

    /** The members as a slice, in unspecified order: each member exactly
        once, so the slice is as long as the set is large. */
    method ToSlice() returns (keys: seq<T>)
      ensures forall i, j :: 0 <= i < j < |keys| ==> keys[i] != keys[j]
      ensures forall v :: v in keys <==> v in data
      ensures |keys| == Size()
    {
      keys := Elements(data);
    }

    /** A new set holding the members of this set and of every argument;
        no input set is modified. */
    method Union(others: seq<HashSet<T>>) returns (result: HashSet<T>)
      ensures fresh(result)
      ensures forall v :: result.Contains(v) <==>
        Contains(v) || exists k :: 0 <= k < |others| && others[k].Contains(v)
    {
      result := new HashSet();
      result.AddAll(data);
      var i := 0;
      while i < |others|
        invariant 0 <= i <= |others|
        invariant fresh(result)
        invariant forall v :: v in result.data <==>
          v in data || exists k :: 0 <= k < i && v in others[k].data
      {
        result.AddAll(others[i].data);
        i := i + 1;
      }
    }

    /** Adds every member of `values`, one at a time. */
    method AddAll(values: set<T>)
      modifies this
      ensures data == old(data) + values
    {
      var more := values;
      while more != {}
        invariant more <= values
        invariant data == old(data) + (values - more)
        decreases |more|
      {
        var key :| key in more;
        Add(key);
        more := more - {key};
      }
    }

    /** A new set holding the members of this set that every argument
        contains; with no arguments, a copy of this set. */
    method Intersection(others: seq<HashSet<T>>) returns (result: HashSet<T>)
      ensures fresh(result)
      ensures forall v :: result.Contains(v) <==>
        Contains(v) && forall k :: 0 <= k < |others| ==> others[k].Contains(v)
    {
      result := new HashSet();
      var rest := data;
      while rest != {}
        invariant fresh(result)
        invariant rest <= data
        invariant forall v :: v in result.data <==>
          v in data && v !in rest && forall k :: 0 <= k < |others| ==> v in others[k].data
        decreases |rest|
      {
        var key :| key in rest;
        var inAll := true;
        var i := 0;
        while i < |others|
          invariant 0 <= i <= |others|
          invariant inAll <==> forall k :: 0 <= k < i ==> key in others[k].data
        {
          if !others[i].Contains(key) {
            inAll := false;
            break;
          }
          i := i + 1;
        }
        if inAll {
          result.Add(key);
        }
        rest := rest - {key};
      }
    }

    /** A new set holding the members of this set that no argument
        contains. */
    method Difference(others: seq<HashSet<T>>) returns (result: HashSet<T>)
      ensures fresh(result)
      ensures forall v :: result.Contains(v) <==>
        Contains(v) && forall k :: 0 <= k < |others| ==> !others[k].Contains(v)
    {
      result := new HashSet();
      var rest := data;
      while rest != {}
        invariant fresh(result)
        invariant rest <= data
        invariant forall v :: v in result.data <==>
          v in data && v !in rest && forall k :: 0 <= k < |others| ==> v !in others[k].data
        decreases |rest|
      {
        var key :| key in rest;
        var inAny := false;
        var i := 0;
        while i < |others|
          invariant 0 <= i <= |others|
          invariant !inAny <==> forall k :: 0 <= k < i ==> key !in others[k].data
        {
          if others[i].Contains(key) {
            inAny := true;
            break;
          }
          i := i + 1;
        }
        if !inAny {
          result.Add(key);
        }
        rest := rest - {key};
      }
    }

    /** True exactly when both sets have the same members: equal sizes and
        every member of this set found in the other. */
    method Equals(other: HashSet<T>) returns (equal: bool)
      ensures equal <==> data == other.data
    {
      if Size() != other.Size() {
        return false;
      }
      var rest := data;
      while rest != {}
        invariant rest <= data
        invariant data - rest <= other.data
        decreases |rest|
      {
        var key :| key in rest;
        if !other.Contains(key) {
          return false;
        }
        rest := rest - {key};
      }
      SubsetOfSameSize(data, other.data);
      return true;
    }
  }

  /** The loop of `ToSlice`: the members of `s` in an arbitrary order,
      each exactly once. */
  method Elements<T>(s: set<T>) returns (keys: seq<T>)
    ensures forall i, j :: 0 <= i < j < |keys| ==> keys[i] != keys[j]
    ensures forall v :: v in keys <==> v in s
    ensures |keys| == |s|
  {
    keys := [];
    var rest := s;
    while rest != {}
      invariant rest <= s
      invariant forall v :: v in keys <==> v in s && v !in rest
      invariant forall i, j :: 0 <= i < j < |keys| ==> keys[i] != keys[j]
      invariant |keys| + |rest| == |s|
      decreases |rest|
    {
      var key :| key in rest;
      keys := keys + [key];
      rest := rest - {key};
    }
  }

  /** A subset as large as its superset is the whole superset. */
  lemma SubsetOfSameSize<T>(a: set<T>, b: set<T>)
    requires a <= b && |a| == |b|
    ensures a == b
  {
    assert b == a + (b - a) && a * (b - a) == {};
    assert |b - a| == 0;
  }
}
