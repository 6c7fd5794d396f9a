/** String helpers the dumper relies on: strings.Contains, strings.Builder
    and fmt's %d from Go's standard library, and the comma-joining done by
    the row serializer and by show_create_table's column loop. */
module Text {
  import opened Sql

  /** `sub` occurs in `s` starting at index `i`. */
  ghost predicate OccursAt(s: string, sub: string, i: int)
  {
    0 <= i && i + |sub| <= |s| && s[i..i + |sub|] == sub
  }

  /** strings.Contains: a plain substring test. */
  function Contains(s: string, sub: string): bool
    decreases |s|
  {
    (|sub| <= |s| && s[..|sub|] == sub) || (|s| > 0 && Contains(s[1..], sub))
  }

  /** An occurrence in the tail is an occurrence one place further on. */
  lemma OccursFromTail(s: string, sub: string, i: int)
    requires |s| > 0 && OccursAt(s[1..], sub, i)
    ensures OccursAt(s, sub, i + 1)
  {
    assert s[1..][i..i + |sub|] == s[i + 1..i + 1 + |sub|];
  }

  /** An occurrence past the first place is an occurrence in the tail. */
  lemma OccursInTail(s: string, sub: string, i: int)
    requires i > 0 && OccursAt(s, sub, i)
    ensures OccursAt(s[1..], sub, i - 1)
  {
    assert s[1..][i - 1..i - 1 + |sub|] == s[i..i + |sub|];
  }

  /** Contains agrees with the declarative definition, in both directions. */
  lemma {:induction false} ContainsIff(s: string, sub: string)
    ensures Contains(s, sub) <==> exists i :: OccursAt(s, sub, i)
    decreases |s|
  {
    if Contains(s, sub) {
      if |sub| <= |s| && s[..|sub|] == sub {
        assert OccursAt(s, sub, 0);
      } else {
        ContainsIff(s[1..], sub);
        var i :| OccursAt(s[1..], sub, i);
        OccursFromTail(s, sub, i);
      }
    }
    if exists i :: OccursAt(s, sub, i) {
      var i :| OccursAt(s, sub, i);
      if i == 0 {
        assert s[..|sub|] == sub;
      } else {
        OccursInTail(s, sub, i);
        ContainsIff(s[1..], sub);
      }
    }
  }

  /** Whatever surrounds a string, the result contains it. */
  lemma OccursInMiddle(a: string, x: string, b: string)
    ensures OccursAt(a + x + b, x, |a|)
  {
    assert (a + x + b)[|a|..|a| + |x|] == x;
  }

  /** What is written last ends the text. */
  lemma OccursAtEnd(a: string, x: string)
    ensures OccursAt(a + x, x, |a|)
  {
    assert (a + x)[|a|..|a| + |x|] == x;
  }

  /** An occurrence survives text appended after it. */
  lemma OccursExtends(s: string, x: string, i: int, rest: string)
    requires OccursAt(s, x, i)
    ensures OccursAt(s + rest, x, i)
  {
    assert (s + rest)[i..i + |x|] == s[i..i + |x|];
  }

  /** An occurrence moves right by what is written before it. */
  lemma OccursShift(before: string, s: string, x: string, i: int)
    requires OccursAt(s, x, i)
    ensures OccursAt(before + s, x, |before| + i)
  {
    assert (before + s)[|before| + i..|before| + i + |x|] == s[i..i + |x|];
  }

  /** Four pieces written one after another: each starts where the pieces
      before it end. */
  lemma FourParts(a: string, b: string, c: string, d: string)
    ensures OccursAt(a + b + c + d, a, 0)
    ensures OccursAt(a + b + c + d, b, |a|)
    ensures OccursAt(a + b + c + d, d, |a| + |b| + |c|)
  {
    var s := a + b + c + d;
    assert s[0..|a|] == a;
    assert s[|a|..|a| + |b|] == b;
    assert s[|a| + |b| + |c|..|s|] == d;
  }

  /** Six pieces written one after another: the second, the third, the
      fourth and the last start where the pieces before them end. */
  lemma PartsLayout(a: string, b: string, c: string, d: string, e: string, f: string)
    ensures OccursAt(a + b + c + d + e + f, b, |a|)
    ensures OccursAt(a + b + c + d + e + f, c, |a| + |b|)
    ensures OccursAt(a + b + c + d + e + f, d, |a| + |b| + |c|)
    ensures OccursAt(a + b + c + d + e + f, f, |a| + |b| + |c| + |d| + |e|)
  {
    var s := a + b + c + d + e + f;
    assert s[|a|..|a| + |b|] == b;
    assert s[|a| + |b|..|a| + |b| + |c|] == c;
    assert s[|a| + |b| + |c|..|a| + |b| + |c| + |d|] == d;
    assert s[|a| + |b| + |c| + |d| + |e|..|s|] == f;
  }

  /** In a concatenation, each part starts where the parts before it end. */
  lemma {:induction false} ConcatLayout(parts: seq<string>, i: int)
    requires 0 <= i < |parts|
    ensures OccursAt(Concat(parts), parts[i], |Concat(parts[..i])|)
    decreases |parts|
  {
    var n := |parts|;
    if i == n - 1 {
      assert parts[..n - 1] == parts[..i];
      OccursInMiddle(Concat(parts[..i]), parts[i], "");
      assert Concat(parts[..i]) + parts[i] + "" == Concat(parts);
    } else {
      var init := parts[..n - 1];
      assert init[..i] == parts[..i];
      ConcatLayout(init, i);
      OccursExtends(Concat(init), parts[i], |Concat(parts[..i])|, parts[n - 1]);
    }
  }

  /** The text of each item, written one after another (a template's
      {{range}} over the items). */
  function Each<T>(items: seq<T>, text: T -> string): string
    decreases |items|
  {
    if items == [] then "" else Each(items[..|items| - 1], text) + text(items[|items| - 1])
  }

  /** The text of item i starts where the texts of the items before it end,
      and the text up to and including it is the text of the items before it
      followed by its own. */
  lemma {:induction false} EachLayout<T>(items: seq<T>, text: T -> string, i: int)
    requires 0 <= i < |items|
    ensures OccursAt(Each(items, text), text(items[i]), |Each(items[..i], text)|)
    ensures Each(items[..i + 1], text) == Each(items[..i], text) + text(items[i])
    decreases |items|
  {
    var n := |items|;
    var init := items[..n - 1];
    if i == n - 1 {
      assert init == items[..i];
      assert items[..i + 1] == items;
      OccursAtEnd(Each(init, text), text(items[i]));
    } else {
      assert init[..i] == items[..i];
      assert init[..i + 1] == items[..i + 1];
      EachLayout(init, text, i);
      OccursExtends(Each(init, text), text(items[i]), |Each(items[..i], text)|, text(items[n - 1]));
    }
  }

  /** Between a header and a footer, the text of item i starts where the
      header and the texts of the items before it end. */
  lemma FramedLayout<T>(header: string, items: seq<T>, text: T -> string, footer: string, i: int)
    requires 0 <= i < |items|
    ensures OccursAt(header + Each(items, text) + footer, text(items[i]), |header| + |Each(items[..i], text)|)
  {
    EachLayout(items, text, i);
    OccursShift(header, Each(items, text), text(items[i]), |Each(items[..i], text)|);
    OccursExtends(header + Each(items, text), text(items[i]), |header| + |Each(items[..i], text)|, footer);
  }

  /** The parts joined with `sep` between neighbours: the commas between
      cells and rows that dump_test.go:192 asserts for the row serializer,
      and the "," appended before each later column in show_create_table's
      column loop (postgres.go:88-95). */
  function Join(parts: seq<string>, sep: string): string
    decreases |parts|
  {
    if parts == [] then ""
    else if |parts| == 1 then parts[0]
    else Join(parts[..|parts| - 1], sep) + sep + parts[|parts| - 1]
  }

  /** Joining one more part adds the separator and that part. */
  lemma JoinSnoc(parts: seq<string>, j: int, sep: string)
    requires 2 <= j <= |parts|
    ensures Join(parts[..j], sep) == Join(parts[..j - 1], sep) + sep + parts[j - 1]
  {
    assert parts[..j][..j - 1] == parts[..j - 1];
  }

  /** Three parts joined: each neighbour pair is separated by `sep`. */
  lemma JoinThree(x: string, y: string, z: string, sep: string)
    ensures Join([x, y, z], sep) == x + sep + y + sep + z
  {
    var parts := [x, y, z];
    assert parts[..1] == [x];
    JoinSnoc(parts, 2, sep);
    JoinSnoc(parts, 3, sep);
    assert parts[..3] == parts;
  }

  /** The parts written one after another (a strings.Builder). */
  function Concat(parts: seq<string>): string
    decreases |parts|
  {
    if parts == [] then "" else Concat(parts[..|parts| - 1]) + parts[|parts| - 1]
  }

  function DigitChar(d: nat): (c: char)
    requires d < 10
  {
    (('0' as int) + d) as char
  }

  function DigitValue(c: char): (d: nat)
    requires '0' <= c <= '9'
    ensures d < 10
  {
    (c as int - '0' as int) as nat
  }

  /** The decimal digits of n, most significant first, with no leading zero. */
  function Digits(n: nat): (s: string)
    decreases n
  {
    if n < 10 then [DigitChar(n)] else Digits(n / 10) + [DigitChar(n % 10)]
  }

  /** fmt's %d verb applied to an integer. */
  function FormatInt(n: int): string
  {
    if n < 0 then "-" + Digits(-n) else Digits(n)
  }

  predicate AllDigits(s: string)
  {
    forall i :: 0 <= i < |s| ==> '0' <= s[i] <= '9'
  }

  /** The value of a non-empty string of decimal digits, and nothing for
      any other string. */
  function ReadDigits(s: string): Option<nat>
    decreases |s|
  {
    if s == [] || !('0' <= s[|s| - 1] <= '9') then None
    else if |s| == 1 then Some(DigitValue(s[0]))
    else match ReadDigits(s[..|s| - 1])
      case None => None
      case Some(v) => Some(10 * v + DigitValue(s[|s| - 1]))
  }

  /** Reads back what %d writes. */
  function ParseInt(s: string): Option<int>
  {
    if |s| > 1 && s[0] == '-' then
      match ReadDigits(s[1..])
      case None => None
      case Some(v) => Some(0 - v)
    else
      match ReadDigits(s)
      case None => None
      case Some(v) => Some(v)
  }

  lemma {:induction false} DigitsShape(n: nat)
    ensures |Digits(n)| > 0 && AllDigits(Digits(n))
    ensures Digits(n)[0] != '-'
    decreases n
  {
    if n >= 10 {
      DigitsShape(n / 10);
    }
  }

  lemma {:induction false} DigitsRoundTrip(n: nat)
    ensures ReadDigits(Digits(n)) == Some(n)
    decreases n
  {
    if n >= 10 {
      DigitsRoundTrip(n / 10);
      var s := Digits(n);
      assert s[..|s| - 1] == Digits(n / 10);
      assert s[|s| - 1] == DigitChar(n % 10);
    }
  }

  /** What %d writes is a single line. */
  lemma FormatIntOneLine(n: int)
    ensures forall i :: 0 <= i < |FormatInt(n)| ==> FormatInt(n)[i] != '\n'
  {
    if n < 0 {
      DigitsShape(-n);
      assert forall i :: 1 <= i < |FormatInt(n)| ==> FormatInt(n)[i] == Digits(-n)[i - 1];
    } else {
      DigitsShape(n);
    }
  }

  /** %d of a natural number reads back as that number. */
  lemma ParseNonNegative(n: int)
    requires n >= 0
    ensures ParseInt(FormatInt(n)) == Some(n)
  {
    DigitsRoundTrip(n);
    DigitsShape(n);
  }

  /** A minus sign before a digit string reads back as its negated value. */
  lemma ParseMinus(d: string)
    requires ReadDigits(d).Some?
    ensures ParseInt("-" + d) == Some(0 - ReadDigits(d).value)
  {
    assert ("-" + d)[1..] == d;
  }

  /** %d of a negative number is a minus sign and digits, read back as the
      number. */
  lemma ParseNegative(n: int)
    requires n < 0
    ensures ParseInt(FormatInt(n)) == Some(n)
  {
    var d := Digits(-n);
    assert FormatInt(n) == "-" + d;
    DigitsRoundTrip(-n);
    ParseMinus(d);
  }

  /** %d is injective and can be read back: the number is recovered exactly. */
  lemma FormatIntRoundTrip(n: int)
    ensures ParseInt(FormatInt(n)) == Some(n)
  {
    if n < 0 {
      ParseNegative(n);
    } else {
      ParseNonNegative(n);
    }
  }
}
