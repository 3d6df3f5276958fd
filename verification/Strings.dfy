/** Python string helpers the core uses: `sep.join(parts)`, `s.split(sep)`
    and the `int(s)` conversion of a decimal string. */
module Strings {
  import opened Wrappers

  /** `sep.join(parts)`. */
  function Join(parts: seq<string>, sep: string): string
  {
    if parts == [] then ""
    else if |parts| == 1 then parts[0]
    else parts[0] + sep + Join(parts[1..], sep)
  }

  /** Index of the first occurrence of `c` in `s`. */
  function IndexOf(s: string, c: char): (i: nat)
    requires c in s
    ensures i < |s| && s[i] == c && c !in s[..i]
  {
    if s[0] == c then 0 else 1 + IndexOf(s[1..], c)
  }

  /** `s.split(c)` for a one-character separator. */
  function Split(s: string, c: char): (parts: seq<string>)
    ensures parts != []
    decreases |s|
  {
    if c !in s then [s]
    else
      var i := IndexOf(s, c);
      [s[..i]] + Split(s[i + 1..], c)
  }

  lemma {:induction false} IndexOfAfter(a: string, c: char, b: string)
    requires c !in a
    ensures c in a + [c] + b && IndexOf(a + [c] + b, c) == |a|
  {
    if a != [] {
      assert (a + [c] + b)[1..] == a[1..] + [c] + b;
      IndexOfAfter(a[1..], c, b);
    }
  }

  /** Splitting a join gives the parts back when no part holds the separator. */
  lemma {:induction false} SplitJoin(parts: seq<string>, c: char)
    requires |parts| >= 1
    requires forall k :: 0 <= k < |parts| ==> c !in parts[k]
    ensures Split(Join(parts, [c]), c) == parts
  {
    if |parts| > 1 {
      var s := Join(parts, [c]);
      var rest := Join(parts[1..], [c]);
      assert s == parts[0] + [c] + rest;
      IndexOfAfter(parts[0], c, rest);
      assert s[..|parts[0]|] == parts[0];
      assert s[|parts[0]| + 1..] == rest;
      SplitJoin(parts[1..], c);
    }
  }

  /** The last part of a join is a suffix, preceded by the separator when
      there are other parts. */
  lemma {:induction false} JoinLast(parts: seq<string>, sep: string)
    requires parts != []
    ensures var s := Join(parts, sep); var last := parts[|parts| - 1];
      && |last| <= |s| && s[|s| - |last|..] == last
      && (|parts| > 1 ==> |last| + |sep| <= |s| && s[|s| - |last| - |sep|..|s| - |last|] == sep)
  {
    if |parts| > 1 {
      JoinLast(parts[1..], sep);
      var rest := Join(parts[1..], sep);
      assert Join(parts, sep) == parts[0] + sep + rest;
      if |parts| == 2 {
        assert rest == parts[1];
      }
    }
  }

  /** `sub` occurs in `s` at some position. */
  predicate Occurs(sub: string, s: string)
  {
    exists i :: 0 <= i <= |s| && sub <= s[i..]
  }

  lemma OccursInside(sub: string, a: string, s: string, b: string)
    requires Occurs(sub, s)
    ensures Occurs(sub, a + s + b)
  {
    var i :| 0 <= i <= |s| && sub <= s[i..];
    assert s[i..] + b == (a + s + b)[|a| + i..];
  }

  /** A text made of an opening, `keywords`, an introduction, the joined
      `parts` and a closing contains the keywords and every part. */
  lemma TemplateQuotes(opening: string, keywords: string, intro: string, parts: seq<string>, sep: string, closing: string)
    ensures var text := opening + keywords + intro + Join(parts, sep) + closing;
      && Occurs(keywords, text)
      && forall k :: 0 <= k < |parts| ==> Occurs(parts[k], text)
  {
    var joined := Join(parts, sep);
    var text := opening + keywords + intro + joined + closing;
    assert keywords <= keywords[0..];
    OccursInside(keywords, opening, keywords, intro + joined + closing);
    assert text == opening + keywords + (intro + joined + closing);
    JoinKeepsParts(parts, sep);
    forall k | 0 <= k < |parts| ensures Occurs(parts[k], text) {
      OccursInside(parts[k], opening + keywords + intro, joined, closing);
    }
  }

  /** Every part can be found in the joined string. */
  lemma {:induction false} JoinKeepsParts(parts: seq<string>, sep: string)
    ensures forall k :: 0 <= k < |parts| ==> Occurs(parts[k], Join(parts, sep))
  {
    if |parts| == 1 {
      assert parts[0] <= Join(parts, sep)[0..];
    } else if |parts| > 1 {
      var rest := Join(parts[1..], sep);
      JoinKeepsParts(parts[1..], sep);
      assert Join(parts, sep) == parts[0] + sep + rest;
      forall k | 0 <= k < |parts| ensures Occurs(parts[k], Join(parts, sep)) {
        if k == 0 {
          assert parts[0] <= Join(parts, sep)[0..];
        } else {
          assert parts[k] == parts[1..][k - 1];
          OccursInside(parts[k], parts[0] + sep, rest, "");
          assert parts[0] + sep + rest + "" == Join(parts, sep);
        }
      }
    }
  }

  /** Joining a split gives the string back. */
  lemma {:induction false} JoinSplit(s: string, c: char)
    decreases |s|
    ensures Join(Split(s, c), [c]) == s
  {
    if c in s {
      var i := IndexOf(s, c);
      var tail := s[i + 1..];
      JoinSplit(tail, c);
      var rest := Split(tail, c);
      assert |rest| >= 1;
      var parts := [s[..i]] + rest;
      assert Split(s, c) == parts;
      assert parts[1..] == rest;
      assert Join(parts, [c]) == s[..i] + [c] + Join(rest, [c]);
      assert s == s[..i] + [c] + tail;
    }
  }

  /** No piece of a split holds the separator. */
  lemma {:induction false} SplitPiecesFree(s: string, c: char)
    decreases |s|
    ensures forall k :: 0 <= k < |Split(s, c)| ==> c !in Split(s, c)[k]
  {
    if c in s {
      var i := IndexOf(s, c);
      SplitPiecesFree(s[i + 1..], c);
      var rest := Split(s[i + 1..], c);
      assert forall k :: 1 <= k < |Split(s, c)| ==> Split(s, c)[k] == rest[k - 1];
    }
  }

  // ---------------------------------------------------------------------
  // `int(s)`, restricted to an optional sign followed by ASCII digits

  predicate IsDigit(ch: char)
  {
    '0' <= ch <= '9'
  }

  predicate AllDigits(s: string)
  {
    forall i :: 0 <= i < |s| ==> IsDigit(s[i])
  }

  function DigitsValue(s: string): nat
    requires AllDigits(s)
  {
    if s == [] then 0 else DigitsValue(s[..|s| - 1]) * 10 + (s[|s| - 1] as int - '0' as int)
  }

  function ParseInt(s: string): Option<int>
  {
    if |s| > 1 && (s[0] == '-' || s[0] == '+') && AllDigits(s[1..]) then
      Some(if s[0] == '-' then -(DigitsValue(s[1..]) as int) else DigitsValue(s[1..]))
    else if s != [] && AllDigits(s) then Some(DigitsValue(s))
    else None
  }

  /** `str(n)` for a natural number. */
  function Decimal(n: nat): (r: string)
    ensures r != [] && AllDigits(r)
  {
    (if n < 10 then "" else Decimal(n / 10)) + [('0' as int + n % 10) as char]
  }

  /** `str(n)` for an integer. */
  function IntToString(n: int): string
  {
    if n < 0 then "-" + Decimal(-n) else Decimal(n)
  }

  lemma {:induction false} DecimalValue(n: nat)
    ensures DigitsValue(Decimal(n)) == n
  {
    if n >= 10 {
      DecimalValue(n / 10);
    }
    var d := Decimal(n);
    assert d[..|d| - 1] == if n < 10 then "" else Decimal(n / 10);
  }

  /** `int(str(n)) == n`: the parse inverts the printer. */
  lemma ParseIntToString(n: int)
    ensures ParseInt(IntToString(n)) == Some(n)
  {
    if n < 0 {
      ParseNegative(n);
    } else {
      ParseNatural(n);
    }
  }

  lemma ParseNegative(n: int)
    requires n < 0
    ensures ParseInt(IntToString(n)) == Some(n)
  {
    var s := IntToString(n);
    var d := Decimal(-n);
    DecimalValue(-n);
    assert s == "-" + d;
    assert |s| > 1 && s[0] == '-' && s[1..] == d && AllDigits(d);
    assert ParseInt(s) == Some(-(DigitsValue(d) as int));
  }

  lemma ParseNatural(n: int)
    requires n >= 0
    ensures ParseInt(IntToString(n)) == Some(n)
  {
    var s := IntToString(n);
    var d := Decimal(n);
    DecimalValue(n);
    assert s == d && d != [] && AllDigits(d);
    assert IsDigit(s[0]);
    assert !(|s| > 1 && (s[0] == '-' || s[0] == '+'));
    assert ParseInt(s) == Some(DigitsValue(d));
  }
}
