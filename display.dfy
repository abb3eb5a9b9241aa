/**
 The text `MySet.__str__` produces: `"MySet: {"`, the keys rendered as
 Python renders an `int` and joined by `", "`, then `"}"`.

 `ParseMySet` reads such a text back; the round trip `ParseMySet(Format(keys))
 == Some(keys)` shows that the rendering lists every key, once, in order.
 */
module Display {

  datatype Option<T> = None | Some(value: T)

  const Prefix: string := "MySet: {"
  const Separator: string := ", "

  /** The decimal digit for `d`. */
  function DigitChar(d: nat): (c: char)
    requires d < 10
    ensures '0' <= c <= '9'
  {
    ('0' as int + d) as char
  }

  /** The value of a decimal digit character. */
  function DigitValue(c: char): int {
    c as int - '0' as int
  }

  /** `str(n)` for a non-negative `n`: its decimal digits, most significant
      first, with no leading zero. */
  function NatToString(n: nat): (s: string)
    ensures IsDigits(s)
    ensures s[0] == '0' <==> n == 0
  {
    if n < 10 then [DigitChar(n)] else NatToString(n / 10) + [DigitChar(n % 10)]
  }

  /** `str(n)` for an `int`: a minus sign before the digits of a negative
      number. */
  function IntToString(n: int): (s: string)
    ensures |s| > 0 && ',' !in s
  {
    if n < 0 then "-" + NatToString(-n) else NatToString(n)
  }

  /** The total length of `parts`. */
  function TotalLength(parts: seq<string>): nat {
    if parts == [] then 0 else |parts[0]| + TotalLength(parts[1..])
  }

  /** `sep.join(parts)`: the parts in order with `sep` between neighbours,
      so one separator fewer than there are parts. */
  function Join(parts: seq<string>, sep: string): (r: string)
    ensures |parts| > 0 ==> parts[0] <= r
    ensures |r| == TotalLength(parts) + if parts == [] then 0 else (|parts| - 1) * |sep|
  {
    if |parts| == 0 then ""
    else if |parts| == 1 then parts[0]
    else parts[0] + sep + Join(parts[1..], sep)
  }

  /** Each key rendered as `str` renders an `int`, in key order; each
      rendering reads back as its key. */
  function Rendered(keys: seq<int>): (r: seq<string>)
    ensures |r| == |keys|
    ensures forall i :: 0 <= i < |keys| ==> ParseInt(r[i]) == Some(keys[i])
  {
    assert forall i :: 0 <= i < |keys| ==> ParseInt(IntToString(keys[i])) == Some(keys[i]) by {
      forall i | 0 <= i < |keys| {
        IntRoundTrip(keys[i]);
      }
    }
    seq(|keys|, i requires 0 <= i < |keys| => IntToString(keys[i]))
  }

  /** The text of `MySet.__str__` for the key sequence `keys`. */
  function Format(keys: seq<int>): (s: string)
    ensures |s| >= |Prefix| + 1 && s[..|Prefix|] == Prefix && s[|s| - 1] == '}'
    ensures keys == [] <==> s == "MySet: {}"
  {
    var body := Join(Rendered(keys), Separator);
    JoinEmpty(keys);
    Prefix + body + "}"
  }

  /** The joined rendering is empty exactly when there are no keys, because
      every rendered key is non-empty. */
  lemma JoinEmpty(keys: seq<int>)
    ensures Join(Rendered(keys), Separator) == "" <==> keys == []
  {
    if keys != [] {
      assert Rendered(keys)[0] == IntToString(keys[0]);
    }
  }

  // Reading a rendering back.

  /** The value of a string of decimal digits. */
  function DigitsValue(s: string): int {
    if s == [] then 0 else 10 * DigitsValue(s[..|s| - 1]) + DigitValue(s[|s| - 1])
  }

  /** A non-empty run of decimal digits. */
  predicate IsDigits(s: string) {
    |s| > 0 && forall k :: 0 <= k < |s| ==> '0' <= s[k] <= '9'
  }

  /** The `int` that `s` spells, as an optional minus sign before decimal
      digits, or `None` when `s` has any other form. */
  function ParseInt(s: string): Option<int> {
    if |s| > 0 && s[0] == '-' then
      if IsDigits(s[1..]) then Some(-DigitsValue(s[1..])) else None
    else if IsDigits(s) then Some(DigitsValue(s))
    else None
  }

  /** The position of the first comma in `s`, or `|s|` when there is none. */
  function CommaIndex(s: string): (i: nat)
    ensures i <= |s| && ',' !in s[..i]
    ensures i < |s| ==> s[i] == ','
  {
    if s == [] || s[0] == ',' then 0 else 1 + CommaIndex(s[1..])
  }

  /** An item in front of the items after it, when both were read. */
  function Prepend(x: Option<int>, rest: Option<seq<int>>): Option<seq<int>> {
    if x.Some? && rest.Some? then Some([x.value] + rest.value) else None
  }

  /** The integers of a list such as `"1, -2, 30"`, or `None` when an item
      is not an integer or a comma is not followed by a space. */
  function ParseItems(s: string): Option<seq<int>>
    decreases |s|
  {
    var i := CommaIndex(s);
    if i == |s| then
      if s == [] then Some([]) else Prepend(ParseInt(s), Some([]))
    else if i + 2 <= |s| && s[i..i + 2] == Separator then
      Prepend(ParseInt(s[..i]), ParseItems(s[i + 2..]))
    else
      None
  }

  /** The key sequence a `MySet` text lists, or `None` when `s` does not
      have the frame `"MySet: {"` ... `"}"` or the list inside is malformed. */
  function ParseMySet(s: string): Option<seq<int>> {
    if |s| >= |Prefix| + 1 && s[..|Prefix|] == Prefix && s[|s| - 1] == '}'
    then ParseItems(s[|Prefix|..|s| - 1])
    else None
  }

  /** The digits of `n` read back give `n`. */
  lemma {:induction false} NatRoundTrip(n: nat)
    ensures DigitsValue(NatToString(n)) == n
  {
    if n >= 10 {
      var s := NatToString(n / 10);
      NatRoundTrip(n / 10);
      assert (s + [DigitChar(n % 10)])[..|s|] == s;
    }
  }

  /** The rendering of `n` read back gives `n`. */
  lemma IntRoundTrip(n: int)
    ensures ParseInt(IntToString(n)) == Some(n)
  {
    if n < 0 {
      NatRoundTrip(-n);
      assert ("-" + NatToString(-n))[1..] == NatToString(-n);
    } else {
      NatRoundTrip(n);
    }
  }

  /** The first comma of `a + r` is the one `r` starts with when `a` has none. */
  lemma {:induction false} CommaAfter(a: string, r: string)
    requires ',' !in a && |r| > 0 && r[0] == ','
    ensures CommaIndex(a + r) == |a|
  {
    if a != [] {
      assert (a + r)[1..] == a[1..] + r;
      CommaAfter(a[1..], r);
    }
  }

  /** The joined rendering of two or more keys is the first key's
      rendering, the separator, and the joined rendering of the rest. */
  lemma JoinCons(keys: seq<int>)
    requires |keys| >= 2
    ensures Join(Rendered(keys), Separator)
         == IntToString(keys[0]) + Separator + Join(Rendered(keys[1..]), Separator)
  {
    assert Rendered(keys)[0] == IntToString(keys[0]);
    assert Rendered(keys)[1..] == Rendered(keys[1..]);
  }

  /** Reading a list that starts with a comma-free item takes that item
      and goes on after the separator. */
  lemma ParseItemsCons(a: string, tail: string)
    requires ',' !in a
    ensures ParseItems(a + Separator + tail) == Prepend(ParseInt(a), ParseItems(tail))
  {
    var s := a + Separator + tail;
    assert s == a + (Separator + tail);
    CommaAfter(a, Separator + tail);
    assert s[..|a|] == a;
    assert s[|a|..|a| + 2] == Separator;
    assert s[|a| + 2..] == tail;
  }

  /** The list of rendered keys read back gives the keys. */
  lemma {:induction false} ItemsRoundTrip(keys: seq<int>)
    ensures ParseItems(Join(Rendered(keys), Separator)) == Some(keys)
  {
    if |keys| == 1 {
      var a := IntToString(keys[0]);
      assert Join(Rendered(keys), Separator) == a;
      assert CommaIndex(a) == |a|;
      IntRoundTrip(keys[0]);
      assert ParseItems(a) == Prepend(Some(keys[0]), Some([]));
      assert [keys[0]] + [] == keys;
    } else if |keys| >= 2 {
      var a, tail := IntToString(keys[0]), Join(Rendered(keys[1..]), Separator);
      JoinCons(keys);
      ParseItemsCons(a, tail);
      IntRoundTrip(keys[0]);
      ItemsRoundTrip(keys[1..]);
      assert ParseItems(a + Separator + tail) == Prepend(Some(keys[0]), Some(keys[1..]));
      assert [keys[0]] + keys[1..] == keys;
    }
  }

  /** Reading the text of `MySet.__str__` back gives exactly the stored key
      sequence: every key appears once, in insertion order. */
  lemma FormatRoundTrip(keys: seq<int>)
    ensures ParseMySet(Format(keys)) == Some(keys)
  {
    var body := Join(Rendered(keys), Separator);
    var s := Format(keys);
    assert s[|Prefix|..|s| - 1] == body;
    ItemsRoundTrip(keys);
  }

  /** A comma must be followed by a space: `"1,x2"` is not a list. */
  lemma SeparatorChecked()
    ensures ParseItems("1,x2") == None
  {
    assert CommaIndex("1,x2") == 1;
    assert "1,x2"[1..3] == ",x";
  }

  /** Every item must be an integer: `"1, x2"` is not a list. */
  lemma ItemChecked()
    ensures ParseItems("1, x2") == None
  {
    assert CommaIndex("1, x2") == 1;
    assert "1, x2"[1..3] == Separator && "1, x2"[3..] == "x2";
    assert CommaIndex("x2") == 2;
    assert !IsDigits("x2") by {
      assert "x2"[0] == 'x';
    }
  }

  /** The text for keys inserted as 1, 2, 3. */
  lemma FormatExample()
    ensures Format([1, 2, 3]) == "MySet: {1, 2, 3}"
  {
  }
}
