# MySet, modelled in Dafny

`MySet` (lib/MySet.py) is a set of unique values. It keeps them as the keys of
a Python dictionary, with `True` stored as a placeholder value. Python
dictionaries remember the order in which keys were first inserted, and
`__str__` shows that order. So the state here is the dictionary's key
sequence, and every contract says what an operation does to that sequence.

The project has three modules:

- `KeyOrder` (key_order.dfy): the key-order semantics of an insertion-ordered
  dictionary, on plain sequences. `Put` models assigning a key, `Remove`
  models `pop(key, None)`, and `FirstOccurrences` models filling an empty
  dictionary from a list. The lemmas cover order, size and the interplay of
  adding and deleting.
- `Display` (display.dfy): the text of `__str__`. `IntToString` models
  Python's `str` on an `int`, `Join` models `", ".join`, and `Format` builds
  `"MySet: {…}"`. A parser, `ParseMySet`, reads the text back; it rejects
  items that are not integers and commas not followed by a space. The round trip
  `ParseMySet(Format(keys)) == Some(keys)` shows that the text lists every key
  once, in order.
- `CustomSet` (my_set.dfy): the class `MySet`. Its field `keys: seq<int>`
  stands for the dictionary. The constructor fills it with a loop, as
  `__init__` does. `Add`, `Delete` and `Clear` change it in place
  (`modifies this`) and return `this`, so calls can be chained. `Has`,
  `Size` and `ToString` are functions that only read the state, so they
  cannot change it. Three client methods (`ConstructScenario`,
  `AddTwiceScenario`, `ReinsertScenario`) show that the contracts alone are
  enough to work out the key sequence after a chain of calls.

The element type is fixed to `int`, because `__str__` renders keys with
`str`. The Python constructor's default argument `enumerable=[]` becomes an
explicit argument: `new MySet([])` is the no-argument call.

The code prints the prefix `"MySet: {"`, and the model follows the code.

## Model

| member | source | states |
|---|---|---|
| `KeyOrder.Put` | lib/MySet.py:30 | assigning key `v` adds exactly `v` to the elements and keeps keys distinct; the old key sequence is a prefix of the new one, unchanged if `v` was present, otherwise `v` is the one new last key |
| `KeyOrder.Remove` | lib/MySet.py:39 | popping `v` leaves exactly the old elements minus `v` and keeps keys distinct; an absent `v` leaves the sequence unchanged, with no error |
| `KeyOrder.RemoveAt` | lib/MySet.py:39 | popping the key at position `i` of a distinct sequence cuts out exactly that position, so the other keys keep their relative order and the length drops by one |
| `KeyOrder.DeleteThenAdd` | lib/MySet.py:30-39 | deleting `v` and then adding it puts `v` at the end, after all the remaining keys |
| `KeyOrder.AddThenDelete` | lib/MySet.py:30-39 | adding an absent `v` and then deleting it restores the original key sequence |
| `KeyOrder.AddTwice` | lib/MySet.py:30 | adding the same key twice gives the same sequence as adding it once |
| `KeyOrder.DeleteTwice` | lib/MySet.py:39 | deleting the same key twice gives the same sequence as deleting it once |
| `KeyOrder.FirstOccurrences` | lib/MySet.py:12-16 | filling an empty dictionary from `xs` gives distinct keys whose elements are exactly the values in `xs` |
| `KeyOrder.FirstOccurrencesSize` | lib/MySet.py:12-16 | the number of keys after filling from `xs` is the number of distinct values in `xs`, so duplicates collapse |
| `KeyOrder.FirstOccurrencesOrder` | lib/MySet.py:15-16 | after filling from `xs`, a key stored before another first occurs earlier in `xs` |
| `KeyOrder.FirstOccurrencesExample` | lib/MySet.py:15-16 | filling from `[1, 2, 2, 3, 1]` stores `[1, 2, 3]` |
| `Display.NatToString` | lib/MySet.py:62 | `str` of a non-negative int is a non-empty string of decimal digits, with a leading `0` only for zero |
| `Display.IntToString` | lib/MySet.py:62 | `str` of an int is non-empty and has no comma, so it cannot be confused with the separator |
| `Display.NatRoundTrip` | lib/MySet.py:62 | reading the decimal digits of `n` back gives `n` |
| `Display.IntRoundTrip` | lib/MySet.py:62 | reading `str(n)` back gives `n`, for negative `n` too |
| `Display.Format` | lib/MySet.py:62-64 | the text starts with `"MySet: {"` and ends with `"}"`, and it is exactly `"MySet: {}"` when there are no keys |
| `Display.Rendered` | lib/MySet.py:62 | one rendering per key, in key order, and each rendering reads back as its key |
| `Display.Join` | lib/MySet.py:64 | the joined text starts with the first part, and its length is the parts' total length plus one separator between each pair of neighbours |
| `Display.JoinCons` | lib/MySet.py:64 | joining two or more rendered keys gives the first key's rendering, `", "`, and the joined rest |
| `Display.JoinEmpty` | lib/MySet.py:62-64 | the joined key list is empty exactly when there are no keys |
| `Display.ItemsRoundTrip` | lib/MySet.py:62-64 | reading the `", "`-joined list of rendered keys back gives the keys, in order |
| `Display.SeparatorChecked` | lib/MySet.py:64 | the reader of the joined list requires `", "` after each comma: `"1,x2"` is rejected |
| `Display.ItemChecked` | lib/MySet.py:62 | the reader of the joined list requires each item to be an integer rendering: `"1, x2"` is rejected |
| `Display.FormatRoundTrip` | lib/MySet.py:57-64 | reading the text of `__str__` back gives exactly the stored key sequence, in insertion order |
| `Display.FormatExample` | lib/MySet.py:57-64 | the keys `[1, 2, 3]` display as `"MySet: {1, 2, 3}"` |
| `CustomSet.MySet.constructor` | lib/MySet.py:7-16 | the built set has distinct keys in first-occurrence order; it holds exactly the values of `enumerable`, one key per distinct value, and is empty for an empty list |
| `CustomSet.MySet.Has` | lib/MySet.py:18-23 | `Has(v)` holds exactly when `v` is one of the stored values; it only reads the state |
| `CustomSet.MySet.Add` | lib/MySet.py:25-31 | returns this set; afterwards `v` is present and every other value's membership is unchanged; a present `v` leaves keys and size unchanged, an absent one is appended last and size grows by one |
| `CustomSet.MySet.Delete` | lib/MySet.py:33-40 | returns this set; afterwards `v` is absent and every other value's membership is unchanged; an absent `v` leaves the keys unchanged; a present one is cut out of its position and size drops by one |
| `CustomSet.MySet.Size` | lib/MySet.py:42-46 | the size is the number of distinct stored values; it only reads the state |
| `CustomSet.MySet.Clear` | lib/MySet.py:50-55 | returns this set; afterwards there are no keys, the size is 0 and `Has(v)` is false for every `v` |
| `CustomSet.MySet.ToString` | lib/MySet.py:57-64 | the text parses back to exactly the stored key sequence, and it is `"MySet: {}"` exactly when the set is empty; it only reads the state |

## Left out

- The average O(1) running time of `has`, `add` and `delete`, and hashing in general. These are performance properties of Python's dictionary, not behaviour.
- Unhashable values, for which Python's dictionary raises `TypeError`. The element type is `int`, which is always a valid key.
- Display.IntToString: does not model the limit on the number of decimal digits that recent Python versions put on `str` of an `int` (4300 by default, `sys.get_int_max_str_digits()`), nor the `ValueError` raised past it; the model renders every integer however long.
- CustomSet.MySet.ToString: for the same reason it returns a text for every set, where Python's `__str__` raises `ValueError` on a set holding an integer with more digits than that limit.
- Python's `str` on arbitrary objects. Elements are `int`, rendered in decimal with a leading `-` for negatives, as Python renders integers within its digit limit.
- Any Python iterable as the constructor's argument. The model takes a finite sequence; generators and other iterables are not modelled.
- The mutable default argument `enumerable=[]`. It is never mutated, so it behaves like passing an empty list, which is how the model spells the call.
- The placeholder value `True` stored against each key. It is never read.
- The stray `pass` after the class. It has no effect.
- Object identity beyond "returns `self`". The mutators return `this`, so a chained call acts on the same object.
