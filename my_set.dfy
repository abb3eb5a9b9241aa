/**
 `MySet`: a set of integers stored as the keys of an insertion-ordered
 dictionary. The field `keys` is that dictionary's key sequence; the
 placeholder value stored against every key is never read and is not kept.
 */
module CustomSet {
  import opened KeyOrder
  import Display

  class MySet {
    /** The dictionary's keys, in insertion order. */
    var keys: seq<int>

    /** Dictionary keys are unique. */
    ghost predicate Valid()
      reads this
    {
      Distinct(keys)
    }

    /** The values the set holds. */
    ghost function Contents(): set<int>
      reads this
    {
      Elements(keys)
    }

    /** Builds the set from `enumerable`, assigning each value in turn as a
        key; a repeated value keeps the place of its first occurrence. An
        empty `enumerable` (the default) gives the empty set. */
    constructor (enumerable: seq<int>)
      ensures Valid()
      ensures keys == FirstOccurrences(enumerable)
      ensures Contents() == Elements(enumerable)
      ensures |keys| == |Elements(enumerable)|
    {
      keys := [];
      new;
      for i := 0 to |enumerable|
        invariant keys == FirstOccurrences(enumerable[..i])
      {
        var value := enumerable[i];
        assert enumerable[..i + 1][..i] == enumerable[..i];
        if value !in keys {
          keys := keys + [value];
        }
      }
      assert enumerable[..|enumerable|] == enumerable;
      FirstOccurrencesSize(enumerable);
    }

    /** Whether `value` is in the set. */
    function Has(value: int): (b: bool)
      reads this
      ensures b <==> value in Contents()
    {
      value in keys
    }

    /** Adds `value` unless it is already there, and returns this set. A
        value already present keeps its place; a new one goes last. */
    method Add(value: int) returns (self: MySet)
      requires Valid()
      modifies this
      ensures self == this && Valid()
      ensures keys == Put(old(keys), value)
      ensures Has(value) && forall v :: v != value ==> Has(v) == old(Has(v))
      ensures old(Has(value)) ==> keys == old(keys) && Size() == old(Size())
      ensures !old(Has(value)) ==> keys == old(keys) + [value] && Size() == old(Size()) + 1
    {
      if value !in keys {
        keys := keys + [value];
      }
      self := this;
    }

    /** Removes `value` if it is there, and returns this set; an absent
        value is not an error. The other keys keep their order. */
    method Delete(value: int) returns (self: MySet)
      requires Valid()
      modifies this
      ensures self == this && Valid()
      ensures keys == Remove(old(keys), value)
      ensures !Has(value) && forall v :: v != value ==> Has(v) == old(Has(v))
      ensures !old(Has(value)) ==> keys == old(keys)
      ensures old(Has(value)) ==> Size() == old(Size()) - 1
      ensures forall i :: 0 <= i < |old(keys)| && old(keys)[i] == value ==>
                keys == old(keys)[..i] + old(keys)[i + 1..]
    {
      forall i | 0 <= i < |keys| && keys[i] == value
        ensures Remove(keys, value) == keys[..i] + keys[i + 1..]
        ensures |Remove(keys, value)| == |keys| - 1
      {
        RemoveAt(keys, i);
      }
      keys := Remove(keys, value);
      self := this;
    }

    /** The number of values in the set. */
    function Size(): (n: nat)
      requires Valid()
      reads this
      ensures n == |Contents()|
    {
      DistinctCardinality(keys);
      |keys|
    }

    /** Removes every value, and returns this set. */
    method Clear() returns (self: MySet)
      requires Valid()
      modifies this
      ensures self == this && Valid()
      ensures keys == [] && Size() == 0
      ensures forall v :: !Has(v)
    {
      keys := [];
      self := this;
    }

    /** `"MySet: {"`, the keys in insertion order separated by `", "`, and
        `"}"`; read back, the text gives the key sequence itself. */
    function ToString(): (s: string)
      reads this
      ensures Display.ParseMySet(s) == Display.Some(keys)
      ensures keys == [] <==> s == "MySet: {}"
    {
      Display.FormatRoundTrip(keys);
      Display.Format(keys)
    }
  }

  /** A client that builds a set from a list with repeated values. */
  method ConstructScenario() {
    var xs := [1, 2, 2, 3, 1];
    FirstOccurrencesExample();
    var s := new MySet(xs);
    assert s.keys == [1, 2, 3];
    assert s.Size() == 3 && s.Has(1) && s.Has(2) && s.Has(3);
  }

  /** A client that adds a value twice and deletes it, through the returned
      references. */
  method AddTwiceScenario() {
    var s := new MySet([]);
    var t := s.Add(5);
    assert s.Size() == 1 && s.Has(5);
    t := t.Add(5);
    assert t == s && s.Size() == 1;
    t := t.Delete(5);
    assert s.Size() == 0 && !s.Has(5);
  }

  /** A client that deletes a value and adds it back, which moves it last,
      then clears the set. */
  method ReinsertScenario(s: MySet)
    requires s.Valid() && s.keys == [5, 3]
    modifies s
  {
    var t := s.Delete(5);
    t := t.Add(5);
    assert s.keys == [3, 5];
    t := t.Clear();
    assert s.Size() == 0 && s.ToString() == "MySet: {}";
  }
}
