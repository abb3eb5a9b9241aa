/**
 The key order of an insertion-ordered dictionary, on values.

 A `MySet` keeps its elements as the keys of a dictionary, and such a
 dictionary remembers the order in which its keys were first inserted.
 This module describes that key sequence: what assigning a key does to it
 (`Put`), what popping a key does to it (`Remove`), and what filling an
 empty dictionary from a sequence of values leaves (`FirstOccurrences`).
 */
module KeyOrder {

  /** No key occurs twice: the invariant every dictionary's key sequence keeps. */
  ghost predicate Distinct<K>(s: seq<K>) {
    forall i, j :: 0 <= i < j < |s| ==> s[i] != s[j]
  }

  /** The set of values occurring in `s`. */
  ghost function Elements<K>(s: seq<K>): set<K> {
    set x | x in s
  }

  /** Assigning key `v` (`d[v] = True`): a key already present keeps its
      place, a new one goes at the end. */
  function Put<K(==)>(keys: seq<K>, v: K): (r: seq<K>)
    ensures Elements(r) == Elements(keys) + {v}
    ensures Distinct(keys) ==> Distinct(r)
    ensures keys <= r
    ensures v in keys ==> r == keys
    ensures v !in keys ==> |r| == |keys| + 1 && r[|keys|] == v
  {
    if v in keys then keys else keys + [v]
  }

  /** Popping key `v` if present (`d.pop(v, None)`): every other key stays,
      in the same relative order. */
  function Remove<K(==)>(keys: seq<K>, v: K): (r: seq<K>)
    ensures Elements(r) == Elements(keys) - {v}
    ensures v !in keys ==> r == keys
    ensures Distinct(keys) ==> Distinct(r)
  {
    if keys == [] then []
    else if keys[0] == v then Remove(keys[1..], v)
    else
      var rest := Remove(keys[1..], v);
      assert Elements(keys) == {keys[0]} + Elements(keys[1..]) by {
        assert keys == [keys[0]] + keys[1..];
      }
      assert Elements([keys[0]] + rest) == {keys[0]} + Elements(rest);
      assert Distinct(keys) ==> keys[0] !in keys[1..] && Distinct(keys[1..]);
      assert keys[0] in rest ==> keys[0] in Elements(keys[1..]);
      [keys[0]] + rest
  }

  /** The key sequence left by assigning each value of `xs`, from left to
      right, into an empty dictionary. */
  function FirstOccurrences<K(==)>(xs: seq<K>): (r: seq<K>)
    ensures Distinct(r)
    ensures Elements(r) == Elements(xs)
  {
    if xs == [] then [] else Put(FirstOccurrences(xs[..|xs| - 1]), xs[|xs| - 1])
  }

  /** The position of the first occurrence of `v` in `xs`. */
  function FirstIndex<K(==)>(xs: seq<K>, v: K): (i: nat)
    requires v in xs
    ensures i < |xs| && xs[i] == v && v !in xs[..i]
  {
    if xs[0] == v then 0 else 1 + FirstIndex(xs[1..], v)
  }

  /** A distinct sequence has as many positions as it has elements. */
  lemma {:induction false} DistinctCardinality<K>(s: seq<K>)
    requires Distinct(s)
    ensures |Elements(s)| == |s|
  {
    if s != [] {
      var init := s[..|s| - 1];
      assert Distinct(init);
      DistinctCardinality(init);
      assert s == init + [s[|s| - 1]];
      assert Elements(s) == Elements(init) + {s[|s| - 1]};
      assert s[|s| - 1] !in Elements(init);
    }
  }

  /** Removing the key at position `i` of a distinct key sequence cuts out
      exactly that position: the rest keeps its order and one key is gone. */
  lemma {:induction false} RemoveAt<K>(keys: seq<K>, i: nat)
    requires Distinct(keys) && i < |keys|
    ensures Remove(keys, keys[i]) == keys[..i] + keys[i + 1..]
    ensures |Remove(keys, keys[i])| == |keys| - 1
  {
    if i == 0 {
      assert keys[0] !in keys[1..];
    } else {
      assert Distinct(keys[1..]);
      RemoveAt(keys[1..], i - 1);
      assert keys[1..][i - 1] == keys[i];
      assert keys[..i] == [keys[0]] + keys[1..][..i - 1];
      assert keys[i + 1..] == keys[1..][i..];
    }
  }

  /** Popping a key and assigning it again moves it to the end. */
  lemma DeleteThenAdd<K>(keys: seq<K>, v: K)
    ensures Put(Remove(keys, v), v) == Remove(keys, v) + [v]
  {
    assert v !in Elements(Remove(keys, v));
  }

  /** Popping a key from a concatenation pops it from both parts. */
  lemma {:induction false} RemoveConcat<K>(a: seq<K>, b: seq<K>, v: K)
    ensures Remove(a + b, v) == Remove(a, v) + Remove(b, v)
  {
    if a != [] {
      assert (a + b)[0] == a[0] && (a + b)[1..] == a[1..] + b;
      RemoveConcat(a[1..], b, v);
    } else {
      assert a + b == b;
    }
  }

  /** Assigning a new key and popping it again restores the key sequence. */
  lemma AddThenDelete<K>(keys: seq<K>, v: K)
    requires v !in keys
    ensures Remove(Put(keys, v), v) == keys
  {
    RemoveConcat(keys, [v], v);
  }

  /** Assigning the same key twice is the same as assigning it once. */
  lemma AddTwice<K>(keys: seq<K>, v: K)
    ensures Put(Put(keys, v), v) == Put(keys, v)
  {
  }

  /** Popping the same key twice is the same as popping it once. */
  lemma DeleteTwice<K>(keys: seq<K>, v: K)
    ensures Remove(Remove(keys, v), v) == Remove(keys, v)
  {
    assert v !in Elements(Remove(keys, v));
  }

  /** Filling a dictionary from `xs` keeps one key per distinct value. */
  lemma FirstOccurrencesSize<K>(xs: seq<K>)
    ensures |FirstOccurrences(xs)| == |Elements(xs)|
  {
    DistinctCardinality(FirstOccurrences(xs));
  }

  /** Appending values to `xs` does not move the first occurrence of a value
      already in `xs`. */
  lemma {:induction false} FirstIndexPrefix<K>(xs: seq<K>, ys: seq<K>, v: K)
    requires v in xs
    ensures FirstIndex(xs + ys, v) == FirstIndex(xs, v)
  {
    if xs[0] != v {
      assert (xs + ys)[1..] == xs[1..] + ys;
      FirstIndexPrefix(xs[1..], ys, v);
    }
  }

  /** A value new to `xs` and appended to it first occurs at the end. */
  lemma {:induction false} FirstIndexLast<K>(xs: seq<K>, v: K)
    requires v !in xs
    ensures FirstIndex(xs + [v], v) == |xs|
  {
    if xs != [] {
      assert (xs + [v])[1..] == xs[1..] + [v];
      FirstIndexLast(xs[1..], v);
    }
  }

  /** Filling a dictionary from `xs` stores the keys in the order of their
      first occurrence in `xs`. */
  lemma {:induction false} FirstOccurrencesOrder<K>(xs: seq<K>, p: nat, q: nat)
    requires p < q < |FirstOccurrences(xs)|
    ensures FirstOccurrences(xs)[p] in xs && FirstOccurrences(xs)[q] in xs
    ensures FirstIndex(xs, FirstOccurrences(xs)[p]) < FirstIndex(xs, FirstOccurrences(xs)[q])
  {
    var r := FirstOccurrences(xs);
    assert r[p] in Elements(r) && r[q] in Elements(r);
    var init, x := xs[..|xs| - 1], xs[|xs| - 1];
    assert xs == init + [x];
    var r' := FirstOccurrences(init);
    assert r == Put(r', x);
    if q < |r'| {
      FirstOccurrencesOrder(init, p, q);
      assert r[p] == r'[p] && r[q] == r'[q];
      assert r'[p] in Elements(r') && r'[q] in Elements(r');
      FirstIndexPrefix(init, [x], r[p]);
      FirstIndexPrefix(init, [x], r[q]);
    } else {
      assert x !in r' && r[q] == x;
      assert x !in Elements(init);
      assert r[p] == r'[p] && r'[p] in Elements(r');
      FirstIndexPrefix(init, [x], r[p]);
      FirstIndexLast(init, x);
    }
  }

  /** Duplicates collapse onto the place of their first occurrence. */
  lemma FirstOccurrencesExample()
    ensures FirstOccurrences([1, 2, 2, 3, 1]) == [1, 2, 3]
  {
    assert [1][..0] == [] && [1, 2][..1] == [1] && [1, 2, 2][..2] == [1, 2];
    assert [1, 2, 2, 3][..3] == [1, 2, 2] && [1, 2, 2, 3, 1][..4] == [1, 2, 2, 3];
    calc {
      FirstOccurrences([1, 2, 2, 3, 1]);
      Put(FirstOccurrences([1, 2, 2, 3]), 1);
      Put(Put(FirstOccurrences([1, 2, 2]), 3), 1);
      Put(Put(Put(FirstOccurrences([1, 2]), 2), 3), 1);
      Put(Put(Put(Put(FirstOccurrences([1]), 2), 2), 3), 1);
      Put(Put(Put(Put(Put([], 1), 2), 2), 3), 1);
      [1, 2, 3];
    }
  }
}
