/** Canonical texts: UUIDs, decimal numbers and RFC 3339 timestamps, and why they can be read back. */
module Text {
  import opened Basics

  // ----- Positional numerals -----

  function Digit(d: nat): char
    requires d < 16
  {
    "0123456789abcdef"[d]
  }

  function DigitValue(c: char): nat {
    if '0' <= c <= '9' then c as nat - '0' as nat
    else if 'a' <= c <= 'f' then c as nat - 'a' as nat + 10
    else 0
  }

  datatype Radix = Ten | Sixteen {
    function Times(n: nat): nat {
      if Ten? then 10 * n else 16 * n
    }

    function Quotient(n: nat): nat {
      if Ten? then n / 10 else n / 16
    }

    function Remainder(n: nat): (d: nat)
      ensures d < 16
    {
      if Ten? then n % 10 else n % 16
    }

    function Power(e: nat): nat {
      if e == 0 then 1 else Times(Power(e - 1))
    }
  }

  /** The last `width` digits of `n`, leading zeros included. */
  function Fixed(n: nat, radix: Radix, width: nat): (s: string)
    ensures |s| == width
  {
    if width == 0 then "" else Fixed(radix.Quotient(n), radix, width - 1) + [Digit(radix.Remainder(n))]
  }

  /** The shortest decimal text of `n`. */
  function Decimal(n: nat): string {
    if n < 10 then [Digit(n)] else Decimal(n / 10) + [Digit(n % 10)]
  }

  function Value(s: string, radix: Radix): nat {
    if s == "" then 0 else radix.Times(Value(s[..|s| - 1], radix)) + DigitValue(s[|s| - 1])
  }

  lemma DigitReadsBack(d: nat)
    requires d < 16
    ensures DigitValue(Digit(d)) == d
    ensures Digit(d) != '|' && Digit(d) != ':' && Digit(d) != '-' && Digit(d) != '.'
  {
  }

  lemma {:induction false} FixedReadsBack(n: nat, radix: Radix, width: nat)
    requires n < radix.Power(width)
    ensures Value(Fixed(n, radix, width), radix) == n
  {
    if width > 0 {
      FixedReadsBack(radix.Quotient(n), radix, width - 1);
      DigitReadsBack(radix.Remainder(n));
      var s := Fixed(n, radix, width);
      assert s[..|s| - 1] == Fixed(radix.Quotient(n), radix, width - 1) && s[|s| - 1] == Digit(radix.Remainder(n));
    }
  }

  lemma {:induction false} DecimalReadsBack(n: nat)
    ensures Value(Decimal(n), Ten) == n
  {
    DigitReadsBack(n % 10);
    if n >= 10 {
      DecimalReadsBack(n / 10);
      var s := Decimal(n);
      assert s[..|s| - 1] == Decimal(n / 10);
    } else {
      assert Decimal(n)[..0] == "";
    }
  }

  ghost predicate Free(s: string, c: char) {
    c !in s
  }

  lemma {:induction false} FixedIsFree(n: nat, radix: Radix, width: nat, c: char)
    requires c in "|:-."
    ensures Free(Fixed(n, radix, width), c)
  {
    if width > 0 {
      FixedIsFree(radix.Quotient(n), radix, width - 1, c);
      DigitReadsBack(radix.Remainder(n));
    }
  }

  lemma {:induction false} DecimalIsFree(n: nat, c: char)
    requires c in "|:-."
    ensures Free(Decimal(n), c)
  {
    DigitReadsBack(n % 10);
    if n >= 10 {
      DecimalIsFree(n / 10, c);
    }
  }

  // ----- Joining fields -----

  /** The fields with a separator between them. */
  function Join(fields: seq<string>, separator: char): string {
    if fields == [] then ""
    else if |fields| == 1 then fields[0]
    else fields[0] + [separator] + Join(fields[1..], separator)
  }

  /** The part of `s` before the first `c`. */
  function UpTo(s: string, c: char): (a: string)
    ensures |a| <= |s| && (c in s ==> |a| < |s|)
  {
    if s == "" || s[0] == c then "" else [s[0]] + UpTo(s[1..], c)
  }

  function Split(s: string, c: char): seq<string> {
    if c !in s then [s] else [UpTo(s, c)] + Split(s[|UpTo(s, c)| + 1..], c)
  }

  lemma {:induction false} UpToSeparator(a: string, r: string, c: char)
    requires Free(a, c)
    ensures UpTo(a + [c] + r, c) == a
  {
    if a != "" {
      assert (a + [c] + r)[1..] == a[1..] + [c] + r;
      UpToSeparator(a[1..], r, c);
    }
  }

  /** Joined fields can be read back as long as no field contains the separator. */
  lemma {:induction false} JoinReadsBack(xs: seq<string>, c: char)
    requires xs != [] && forall x :: x in xs ==> Free(x, c)
    ensures Split(Join(xs, c), c) == xs
  {
    if |xs| > 1 {
      var s := Join(xs, c);
      assert s[|xs[0]|] == c;
      UpToSeparator(xs[0], Join(xs[1..], c), c);
      assert s[|xs[0]| + 1..] == Join(xs[1..], c);
      JoinReadsBack(xs[1..], c);
    } else {
      assert xs[0] in xs;
    }
  }

  // ----- UUIDs -----

  function Groups(h: string): seq<string>
    requires |h| == 32
  {
    [h[..8], h[8..12], h[12..16], h[16..20], h[20..]]
  }

  /** The 36-character lower-case text (section 4 of RFC 9562). */
  function UuidText(id: Id): string {
    Join(Groups(Fixed(id, Sixteen, 32)), '-')
  }

  /** The number a canonical text stands for. */
  function UuidValue(s: string): nat {
    Value(Flatten(Split(s, '-')), Sixteen)
  }

  function Flatten(parts: seq<string>): string {
    if parts == [] then "" else parts[0] + Flatten(parts[1..])
  }

  lemma FlattenGroups(h: string)
    requires |h| == 32
    ensures Flatten(Groups(h)) == h
  {
    var g := Groups(h);
    assert g[1..][1..][1..][1..] == [h[20..]];
    assert g[1..][1..][1..] == [h[16..20], h[20..]];
    assert g[1..][1..] == [h[12..16], h[16..20], h[20..]];
    assert g[1..] == [h[8..12], h[12..16], h[16..20], h[20..]];
    assert Flatten([h[20..]]) == h[20..];
    assert Flatten(g[1..][1..][1..]) == h[16..];
    assert Flatten(g[1..][1..]) == h[12..];
    assert Flatten(g[1..]) == h[8..];
  }

  lemma UuidReadsBack(id: Id)
    requires id < UUID_LIMIT
    ensures UuidValue(UuidText(id)) == id
  {
    var h := Fixed(id, Sixteen, 32);
    FixedIsFree(id, Sixteen, 32, '-');
    JoinReadsBack(Groups(h), '-');
    FlattenGroups(h);
    UuidLimitIsPower();
    FixedReadsBack(id, Sixteen, 32);
  }

  /** The order of Go strings. */
  predicate LexLess(a: string, b: string) {
    b != "" && (a == "" || a[0] < b[0] || (a[0] == b[0] && LexLess(a[1..], b[1..])))
  }

  lemma {:induction false} LexLessConcat(a: string, b: string, r: string, r': string)
    requires |a| == |b|
    ensures LexLess(a + r, b + r') <==> LexLess(a, b) || (a == b && LexLess(r, r'))
  {
    if a == "" {
      assert a + r == r && b + r' == r';
    } else {
      assert (a + r)[1..] == a[1..] + r && (b + r')[1..] == b[1..] + r';
      LexLessConcat(a[1..], b[1..], r, r');
      assert a == [a[0]] + a[1..] && b == [b[0]] + b[1..];
    }
  }

  lemma RadixOrder(n: nat, m: nat, radix: Radix)
    ensures n < m <==>
              || radix.Quotient(n) < radix.Quotient(m)
              || (radix.Quotient(n) == radix.Quotient(m) && radix.Remainder(n) < radix.Remainder(m))
  {
  }

  lemma DigitOrder(d: nat, e: nat)
    requires d < 16 && e < 16
    ensures LexLess([Digit(d)], [Digit(e)]) <==> d < e
  {
  }

  lemma {:induction false} FixedOrder(n: nat, m: nat, radix: Radix, width: nat)
    requires n < radix.Power(width) && m < radix.Power(width)
    ensures n < m <==> LexLess(Fixed(n, radix, width), Fixed(m, radix, width))
  {
    if width > 0 {
      var q, q' := radix.Quotient(n), radix.Quotient(m);
      RadixOrder(n, m, radix);
      assert q < radix.Power(width - 1) && q' < radix.Power(width - 1);
      FixedOrder(q, q', radix, width - 1);
      FixedDigitOrder(q, q', radix.Remainder(n), radix.Remainder(m), radix, width - 1);
    }
  }

  lemma FixedDigitOrder(q: nat, q': nat, d: nat, d': nat, radix: Radix, width: nat)
    requires q < radix.Power(width) && q' < radix.Power(width) && d < 16 && d' < 16
    ensures LexLess(Fixed(q, radix, width) + [Digit(d)], Fixed(q', radix, width) + [Digit(d')]) <==>
              LexLess(Fixed(q, radix, width), Fixed(q', radix, width)) || (q == q' && d < d')
  {
    FixedReadsBack(q, radix, width);
    FixedReadsBack(q', radix, width);
    DigitOrder(d, d');
    LexLessConcat(Fixed(q, radix, width), Fixed(q', radix, width), [Digit(d)], [Digit(d')]);
  }

  lemma {:induction false} PowerAdd(a: nat, b: nat)
    ensures Sixteen.Power(a + b) == Sixteen.Power(a) * Sixteen.Power(b)
  {
    if a > 0 {
      PowerAdd(a - 1, b);
    }
  }

  lemma UuidLimitIsPower()
    ensures Sixteen.Power(32) == UUID_LIMIT
  {
    PowerAdd(2, 2);
    PowerAdd(4, 4);
    PowerAdd(8, 8);
    PowerAdd(16, 16);
  }

  lemma FirstFieldOrder(a: string, b: string, c: char, x: string, y: string, u: string, v: string)
    requires |a| == |b| && (LexLess(x, y) <==> LexLess(u, v))
    ensures LexLess(a + [c] + x, b + [c] + y) <==> LexLess(a + u, b + v)
  {
    LexLessConcat(a, b, [c] + x, [c] + y);
    LexLessConcat([c], [c], x, y);
    LexLessConcat(a, b, u, v);
    assert a + [c] + x == a + ([c] + x) && b + [c] + y == b + ([c] + y);
  }

  /** A common separator does not change the order of texts whose fields have the same widths. */
  lemma {:induction false} JoinOrder(xs: seq<string>, ys: seq<string>, c: char)
    requires |xs| == |ys| && forall i :: 0 <= i < |xs| ==> |xs[i]| == |ys[i]|
    ensures LexLess(Join(xs, c), Join(ys, c)) <==> LexLess(Flatten(xs), Flatten(ys))
  {
    if |xs| == 1 {
      assert xs[0] + "" == xs[0] && ys[0] + "" == ys[0];
    } else if |xs| > 1 {
      JoinOrder(xs[1..], ys[1..], c);
      FirstFieldOrder(
        xs[0], ys[0], c, Join(xs[1..], c), Join(ys[1..], c), Flatten(xs[1..]), Flatten(ys[1..]));
    }
  }

  /** Comparing the texts of two UUIDs, as the sorts do, is comparing their numbers. */
  lemma UuidTextOrder(a: Id, b: Id)
    requires a < UUID_LIMIT && b < UUID_LIMIT
    ensures LexLess(UuidText(a), UuidText(b)) <==> a < b
  {
    var x, y := Fixed(a, Sixteen, 32), Fixed(b, Sixteen, 32);
    UuidLimitIsPower();
    FixedOrder(a, b, Sixteen, 32);
    FlattenGroups(x);
    FlattenGroups(y);
    JoinOrder(Groups(x), Groups(y), '-');
  }
}
