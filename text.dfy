/** String helpers behind the description template: how a JavaScript
    template literal renders an integer, `Array.prototype.join`, and the
    prefix, suffix and substring relations the properties are stated with. */
module Text {

  predicate IsDigit(c: char)
  {
    '0' <= c <= '9'
  }

  predicate AllDigits(s: string)
  {
    forall i :: 0 <= i < |s| ==> IsDigit(s[i])
  }

  function DigitChar(d: nat): (c: char)
    requires d < 10
    ensures IsDigit(c) && c as int - '0' as int == d
  {
    ('0' as int + d) as char
  }

  function DigitValue(c: char): nat
    requires IsDigit(c)
  {
    c as int - '0' as int
  }

  /** The decimal digits of `n`: at least one, and no leading zero. */
  function NatToString(n: nat): (s: string)
    ensures |s| >= 1 && AllDigits(s)
    ensures s[0] == '0' ==> n == 0 && s == "0"
    decreases n
  {
    if n < 10 then [DigitChar(n)] else NatToString(n / 10) + [DigitChar(n % 10)]
  }

  /** `${n}` for an integral number: a minus sign exactly for negatives. */
  function IntToString(i: int): (s: string)
    ensures |s| >= 1
    ensures s[0] == '-' <==> i < 0
    ensures i < 0 ==> AllDigits(s[1..]) && |s| >= 2
    ensures i >= 0 ==> AllDigits(s)
    ensures i >= 0 && s[0] == '0' ==> i == 0 && s == "0"
    ensures i < 0 ==> s[1] != '0'
  {
    if i < 0 then "-" + NatToString(-i) else NatToString(i)
  }

  /** The value of a string of decimal digits, read left to right. */
  function ParseNat(s: string): nat
    requires AllDigits(s)
  {
    if s == [] then 0 else 10 * ParseNat(s[..|s| - 1]) + DigitValue(s[|s| - 1])
  }

  /** A decimal integer with an optional leading minus sign. */
  predicate IsIntText(s: string)
  {
    (|s| >= 1 && AllDigits(s)) || (|s| >= 2 && s[0] == '-' && AllDigits(s[1..]))
  }

  function ParseInt(s: string): int
    requires IsIntText(s)
  {
    if s[0] == '-' then -(ParseNat(s[1..]) as int) else ParseNat(s)
  }

  lemma {:induction false} NatToStringRoundTrip(n: nat)
    ensures ParseNat(NatToString(n)) == n
    decreases n
  {
    var s := NatToString(n);
    if n >= 10 {
      assert s[..|s| - 1] == NatToString(n / 10);
      NatToStringRoundTrip(n / 10);
    }
  }

  /** Reading back the rendered integer yields the integer. */
  lemma IntToStringRoundTrip(i: int)
    ensures IsIntText(IntToString(i)) && ParseInt(IntToString(i)) == i
  {
    var s := IntToString(i);
    if i < 0 {
      assert s[1..] == NatToString(-i);
      NatToStringRoundTrip(-i);
    } else {
      NatToStringRoundTrip(i);
    }
  }

  /** Distinct integers render differently. */
  lemma IntToStringInjective(i: int, j: int)
    ensures IntToString(i) == IntToString(j) ==> i == j
  {
    IntToStringRoundTrip(i);
    IntToStringRoundTrip(j);
  }

  /** Where `items[i]` starts in `items.join(sep)`: after every earlier
      item and the separator that follows it. */
  function JoinOffset(items: seq<string>, sep: string, i: nat): nat
    requires i <= |items|
  {
    if i == 0 then 0 else |items[0]| + |sep| + JoinOffset(items[1..], sep, i - 1)
  }

  /** `items.join(sep)`: the items in order, `sep` between consecutive ones. */
  function Join(items: seq<string>, sep: string): string
  {
    if |items| == 0 then ""
    else if |items| == 1 then items[0]
    else items[0] + sep + Join(items[1..], sep)
  }

  /** The whole layout of `items.join(sep)`: each item at its offset, and
      `sep` right after every item but the last. */
  lemma JoinLayout(items: seq<string>, sep: string)
    ensures forall i :: 0 <= i < |items| ==>
      OccursAt(Join(items, sep), items[i], JoinOffset(items, sep, i))
    ensures forall i :: 0 <= i < |items| - 1 ==>
      OccursAt(Join(items, sep), sep, JoinOffset(items, sep, i) + |items[i]|)
  {
    ItemsAtOffsets(items, sep);
    SeparatorsAfterItems(items, sep);
  }

  /** The join is empty for no items; otherwise it runs from the start of
      the first item to the end of the last. */
  lemma {:induction false} JoinShape(items: seq<string>, sep: string)
    ensures items == [] ==> Join(items, sep) == ""
    ensures items != [] ==> |Join(items, sep)| == JoinOffset(items, sep, |items| - 1) + |items[|items| - 1]|
    ensures items != [] ==> StartsWith(Join(items, sep), items[0]) && EndsWith(Join(items, sep), items[|items| - 1])
    decreases |items|
  {
    if |items| >= 2 {
      var tail := items[1..];
      JoinShape(tail, sep);
      JoinFront(items, sep);
      assert tail[|tail| - 1] == items[|items| - 1];
      Split(items[0] + sep, Join(tail, sep));
      PrefixExtends(items[0], sep + Join(tail, sep), items[0]);
      Associate(items[0], sep, Join(tail, sep));
      EndsWithExtends(items[0] + sep, Join(tail, sep), items[|items| - 1]);
    }
  }

  /** A suffix of `s` is a suffix of `p + s`. */
  lemma EndsWithExtends(p: string, s: string, t: string)
    requires EndsWith(s, t)
    ensures EndsWith(p + s, t)
  {
    assert (p + s)[|p + s| - |t|..] == s[|s| - |t|..];
  }

  /** A join of two or more items is the first, `sep`, and the join of the rest. */
  lemma JoinFront(items: seq<string>, sep: string)
    requires |items| >= 2
    ensures Join(items, sep) == (items[0] + sep) + Join(items[1..], sep)
  {
  }

  lemma {:induction false} ItemsAtOffsets(items: seq<string>, sep: string)
    ensures forall i :: 0 <= i < |items| ==>
      OccursAt(Join(items, sep), items[i], JoinOffset(items, sep, i))
    decreases |items|
  {
    if |items| == 1 {
      assert Join(items, sep)[0..|items[0]|] == items[0];
    } else if |items| > 1 {
      var lead, rest := items[0] + sep, Join(items[1..], sep);
      ItemsAtOffsets(items[1..], sep);
      JoinFront(items, sep);
      forall i | 0 <= i < |items|
        ensures OccursAt(Join(items, sep), items[i], JoinOffset(items, sep, i))
      {
        if i == 0 {
          assert (lead + rest)[0..|items[0]|] == items[0];
        } else {
          assert items[i] == items[1..][i - 1];
          Shift(lead, rest, items[i], JoinOffset(items[1..], sep, i - 1));
        }
      }
    }
  }

  lemma {:induction false} SeparatorsAfterItems(items: seq<string>, sep: string)
    ensures forall i :: 0 <= i < |items| - 1 ==>
      OccursAt(Join(items, sep), sep, JoinOffset(items, sep, i) + |items[i]|)
    decreases |items|
  {
    if |items| > 1 {
      var tail := items[1..];
      SeparatorsAfterItems(tail, sep);
      forall i | 0 <= i < |items| - 1
        ensures OccursAt(Join(items, sep), sep, JoinOffset(items, sep, i) + |items[i]|)
      {
        if i == 0 {
          SeparatorAfterFirst(items, sep);
        } else {
          assert OccursAt(Join(tail, sep), sep, JoinOffset(tail, sep, i - 1) + |tail[i - 1]|);
          SeparatorShifts(items, sep, i);
        }
      }
    }
  }

  /** The first separator follows the first item. */
  lemma SeparatorAfterFirst(items: seq<string>, sep: string)
    requires |items| >= 2
    ensures OccursAt(Join(items, sep), sep, |items[0]|)
  {
    JoinFront(items, sep);
    var r := Join(items, sep);
    assert r == items[0] + (sep + Join(items[1..], sep));
    assert r[|items[0]|..|items[0]| + |sep|] == sep;
  }

  /** A separator of the rest's join is one of the whole join, `|items[0] + sep|` later. */
  lemma SeparatorShifts(items: seq<string>, sep: string, i: nat)
    requires 1 <= i < |items| - 1
    requires OccursAt(Join(items[1..], sep), sep, JoinOffset(items[1..], sep, i - 1) + |items[1..][i - 1]|)
    ensures OccursAt(Join(items, sep), sep, JoinOffset(items, sep, i) + |items[i]|)
  {
    var tail := items[1..];
    var at := JoinOffset(tail, sep, i - 1) + |tail[i - 1]|;
    JoinFront(items, sep);
    Shift(items[0] + sep, Join(tail, sep), sep, at);
    assert JoinOffset(items, sep, i) + |items[i]| == |items[0] + sep| + at;
  }

  /** What occurs in `s` also occurs in `p + s`, shifted by `|p|`. */
  lemma Shift(p: string, s: string, t: string, i: int)
    requires OccursAt(s, t, i)
    ensures OccursAt(p + s, t, |p| + i)
  {
    assert (p + s)[|p| + i..|p| + i + |t|] == s[i..i + |t|];
  }

  predicate StartsWith(s: string, prefix: string)
  {
    |prefix| <= |s| && s[..|prefix|] == prefix
  }

  predicate EndsWith(s: string, suffix: string)
  {
    |suffix| <= |s| && s[|s| - |suffix|..] == suffix
  }

  predicate OccursAt(s: string, t: string, i: int)
  {
    0 <= i && i + |t| <= |s| && s[i..i + |t|] == t
  }

  predicate Contains(s: string, t: string)
  {
    exists i :: 0 <= i <= |s| && OccursAt(s, t, i)
  }

  /** Concatenation splits back into its two parts. */
  lemma Split(a: string, b: string)
    ensures (a + b)[..|a|] == a && (a + b)[|a|..] == b
    ensures StartsWith(a + b, a) && EndsWith(a + b, b)
  {
  }

  /** Concatenation regroups freely. */
  lemma Associate<T>(a: seq<T>, b: seq<T>, c: seq<T>)
    ensures (a + b) + c == a + (b + c)
  {
  }

  /** The three leading parts of `a + b + c + d + e + f`, each at its offset. */
  lemma SplitAt3(s: string, a: string, b: string, c: string, d: string, e: string, f: string)
    requires s == a + b + c + d + e + f
    ensures StartsWith(s, a)
    ensures StartsWith(s[|a|..], b)
    ensures StartsWith(s[|a| + |b|..], c)
  {
    var rest := d + e + f;
    assert s == a + (b + (c + rest));
    Split(a, b + (c + rest));
    Split(b, c + rest);
    assert s[|a|..][|b|..] == s[|a| + |b|..];
    Split(c, rest);
  }

  lemma PrefixExtends(a: string, b: string, p: string)
    requires StartsWith(a, p)
    ensures StartsWith(a + b, p)
  {
    assert (a + b)[..|p|] == a[..|p|];
  }

  /** Two prefixes that disagree at some position cannot both hold. */
  lemma PrefixesDisagree(s: string, p1: string, p2: string, i: nat)
    requires i < |p1| && i < |p2| && p1[i] != p2[i]
    requires StartsWith(s, p1)
    ensures !StartsWith(s, p2)
  {
    assert s[i] == s[..|p1|][i] == p1[i];
  }

  /** What follows the first two of four concatenated parts. */
  lemma DropTwo(a: string, b: string, c: string, d: string)
    ensures (a + b + c + d)[|a| + |b|..] == c + d
  {
    assert a + b + c + d == (a + b) + (c + d);
    Split(a + b, c + d);
  }
}
