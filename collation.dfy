/**
 * Text comparison as SQLite's default BINARY collation performs it for the
 * `date >= ?` and `date <= ?` clauses of the search handler: byte-wise
 * lexicographic order of the UTF-8 encodings, which is the same as
 * lexicographic order of the Unicode scalar values that Dafny's `char` holds.
 */
module Collation {
  import opened Integers

  /** a sorts at or before b; a proper prefix sorts first. */
  predicate TextLe(a: string, b: string)
  {
    if a == [] then true
    else if b == [] then false
    else if a[0] != b[0] then a[0] < b[0]
    else TextLe(a[1..], b[1..])
  }

  lemma {:induction false} TextLeReflexive(a: string)
    ensures TextLe(a, a)
  {
    if a != [] {
      TextLeReflexive(a[1..]);
    }
  }

  lemma {:induction false} TextLeAntisymmetric(a: string, b: string)
    requires TextLe(a, b) && TextLe(b, a)
    ensures a == b
  {
    if a != [] && b != [] {
      TextLeAntisymmetric(a[1..], b[1..]);
      assert a == [a[0]] + a[1..] && b == [b[0]] + b[1..];
    }
  }

  lemma {:induction false} TextLeTransitive(a: string, b: string, c: string)
    requires TextLe(a, b) && TextLe(b, c)
    ensures TextLe(a, c)
  {
    if a != [] && b != [] && c != [] && a[0] == b[0] && b[0] == c[0] {
      TextLeTransitive(a[1..], b[1..], c[1..]);
    }
  }

  lemma {:induction false} TextLeTotal(a: string, b: string)
    ensures TextLe(a, b) || TextLe(b, a)
  {
    if a != [] && b != [] && a[0] == b[0] {
      TextLeTotal(a[1..], b[1..]);
    }
  }

  /** Comparing u + v with u' + v', where |u| == |u'|, is decided by u and u' unless they are equal. */
  lemma {:induction false} TextLeConcat(u: string, v: string, u': string, v': string)
    requires |u| == |u'|
    ensures TextLe(u + v, u' + v') <==> if u == u' then TextLe(v, v') else TextLe(u, u')
  {
    if u == [] {
      assert u + v == v && u' + v' == v';
    } else {
      assert (u + v)[1..] == u[1..] + v && (u' + v')[1..] == u'[1..] + v';
      if u[0] == u'[0] {
        TextLeConcat(u[1..], v, u'[1..], v');
        assert u == u' <==> u[1..] == u'[1..] by {
          assert u == [u[0]] + u[1..] && u' == [u'[0]] + u'[1..];
        }
      }
    }
  }

  /** A leading digit decides the order of numbers of one length. */
  lemma LeadingDigitDecides(a: nat, b: nat, p: nat, r1: nat, r2: nat)
    requires a < b && r1 < p && r2 < p
    ensures a * p + r1 < b * p + r2
  {
    assert (a + 1) * p <= b * p;
  }

  /** For digit strings of one length, text order is numeric order. */
  lemma {:induction false} DigitsOrder(x: string, y: string)
    requires AllDigits(x) && AllDigits(y) && |x| == |y|
    ensures TextLe(x, y) <==> DigitsValue(x) <= DigitsValue(y)
  {
    if x != [] {
      DigitsSplitFirst(x);
      DigitsSplitFirst(y);
      var p := Pow10(|x| - 1);
      DigitsValueBound(x[1..]);
      DigitsValueBound(y[1..]);
      if x[0] == y[0] {
        DigitsOrder(x[1..], y[1..]);
      } else if x[0] < y[0] {
        LeadingDigitDecides(DigitValue(x[0]), DigitValue(y[0]), p, DigitsValue(x[1..]), DigitsValue(y[1..]));
      } else {
        LeadingDigitDecides(DigitValue(y[0]), DigitValue(x[0]), p, DigitsValue(y[1..]), DigitsValue(x[1..]));
      }
    }
  }

  lemma DigitsSplitFirst(x: string)
    requires AllDigits(x) && x != []
    ensures DigitsValue(x) == DigitValue(x[0]) * Pow10(|x| - 1) + DigitsValue(x[1..])
  {
    assert [x[0]] + x[1..] == x;
    DigitsValueAppend([x[0]], x[1..]);
    assert DigitsValue([x[0]]) == DigitValue(x[0]);
  }

  /** A calendar date written YYYY-MM-DD, as an HTML date input submits it. */
  predicate IsIsoDate(s: string)
  {
    && |s| == 10
    && AllDigits(s[..4]) && s[4] == '-'
    && AllDigits(s[5..7]) && s[7] == '-'
    && AllDigits(s[8..])
  }

  /** year * 10000 + month * 100 + day: orders dates chronologically. */
  function DateKey(s: string): nat
    requires IsIsoDate(s)
  {
    DigitsValue(s[..4]) * 10000 + DigitsValue(s[5..7]) * 100 + DigitsValue(s[8..])
  }

  /** The digits of an ISO date, with the two separators taken out. */
  function DateDigits(s: string): string
    requires IsIsoDate(s)
  {
    s[..4] + (s[5..7] + s[8..])
  }

  /** Two ISO dates compare as text as their digits do, the separators standing at the same places. */
  lemma IsoDateAsDigits(a: string, b: string)
    requires IsIsoDate(a) && IsIsoDate(b)
    ensures TextLe(a, b) <==> TextLe(DateDigits(a), DateDigits(b))
  {
    var ya, ma, da := a[..4], a[5..7], a[8..];
    var yb, mb, db := b[..4], b[5..7], b[8..];
    var ra, rb := ma + (['-'] + da), mb + (['-'] + db);
    assert a == ya + (['-'] + ra);
    assert b == yb + (['-'] + rb);
    TextLeConcat(ya, ['-'] + ra, yb, ['-'] + rb);
    TextLeConcat(['-'], ra, ['-'], rb);
    TextLeConcat(ma, ['-'] + da, mb, ['-'] + db);
    TextLeConcat(['-'], da, ['-'], db);
    TextLeConcat(ya, ma + da, yb, mb + db);
    TextLeConcat(ma, da, mb, db);
  }

  lemma DateKeyDigits(s: string)
    requires IsIsoDate(s)
    ensures AllDigits(DateDigits(s)) && |DateDigits(s)| == 8
    ensures DigitsValue(DateDigits(s)) == DateKey(s)
  {
    DigitsValueAppend(s[5..7], s[8..]);
    DigitsValueAppend(s[..4], s[5..7] + s[8..]);
  }

  /** Comparing two ISO dates as text compares them chronologically, bounds included. */
  lemma IsoDateOrder(a: string, b: string)
    requires IsIsoDate(a) && IsIsoDate(b)
    ensures TextLe(a, b) <==> DateKey(a) <= DateKey(b)
  {
    IsoDateAsDigits(a, b);
    DateKeyDigits(a);
    DateKeyDigits(b);
    DigitsOrder(DateDigits(a), DateDigits(b));
  }
}
