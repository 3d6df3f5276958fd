/** The text normaliser `clean_text` (identical in worker/worker.py and
    backend/worker.py): lower-case, drop every character that is neither a
    word character nor whitespace, collapse whitespace runs to one space,
    trim. */
module TextNormalizer {

  /** The character classes the normaliser relies on. Python's `\w`, `\s`
      and `str.lower` are Unicode-aware; the model takes them as parameters
      and uses only the facts collected in `WellFormed`. */
  datatype CharClasses = CharClasses(isWord: char -> bool, isSpace: char -> bool, lower: char -> char)

  /** Facts true of Python's classes: the space character is whitespace and
      maps to itself, whitespace is never a word character, and lower-casing
      twice is lower-casing once. */
  ghost predicate WellFormed(cc: CharClasses)
  {
    && cc.isSpace(' ')
    && cc.lower(' ') == ' '
    && (forall c :: cc.isWord(c) ==> !cc.isSpace(c))
    && (forall c :: cc.lower(cc.lower(c)) == cc.lower(c))
  }

  /** One cell of the "Review Text" column as pandas reads it. */
  datatype Cell = Text(s: string) | NaN | OtherValue

  // The four stages of clean_text, each a plain string transform.

  function Lowered(cc: CharClasses, s: string): string
  {
    if s == [] then [] else [cc.lower(s[0])] + Lowered(cc, s[1..])
  }

  function KeepWordsAndSpaces(cc: CharClasses, s: string): string
  {
    if s == [] then []
    else (if cc.isWord(s[0]) || cc.isSpace(s[0]) then [s[0]] else []) + KeepWordsAndSpaces(cc, s[1..])
  }

  /** Every maximal run of whitespace becomes one ' ' (emitted at the run's end). */
  function CollapseSpaces(cc: CharClasses, s: string): string
  {
    if s == [] then []
    else if cc.isSpace(s[0]) then
      (if |s| > 1 && cc.isSpace(s[1]) then [] else [' ']) + CollapseSpaces(cc, s[1..])
    else [s[0]] + CollapseSpaces(cc, s[1..])
  }

  function StripLeft(cc: CharClasses, s: string): string
  {
    if s != [] && cc.isSpace(s[0]) then StripLeft(cc, s[1..]) else s
  }

  function StripRight(cc: CharClasses, s: string): string
  {
    if s != [] && cc.isSpace(s[|s| - 1]) then StripRight(cc, s[..|s| - 1]) else s
  }

  /** Python's `str.strip()` with no argument. */
  function Strip(cc: CharClasses, s: string): string
  {
    StripRight(cc, StripLeft(cc, s))
  }

  /** clean_text: a non-string cell (NaN or any other value) becomes "". */
  function Clean(cc: CharClasses, cell: Cell): string
  {
    match cell
    case Text(s) => Strip(cc, CollapseSpaces(cc, KeepWordsAndSpaces(cc, Lowered(cc, s))))
    case _ => ""
  }

  /** The shape of a normalised string: only lower-case word characters and
      single spaces, no space at either end. */
  ghost predicate Normalized(cc: CharClasses, s: string)
  {
    && (forall i :: 0 <= i < |s| ==> s[i] == ' ' || (cc.isWord(s[i]) && cc.lower(s[i]) == s[i]))
    && (|s| > 0 ==> s[0] != ' ' && s[|s| - 1] != ' ')
    && (forall i :: 0 <= i < |s| - 1 ==> !(s[i] == ' ' && s[i + 1] == ' '))
  }

  /** The word characters of a string, in order. */
  function WordChars(cc: CharClasses, s: string): string
  {
    if s == [] then [] else (if cc.isWord(s[0]) then [s[0]] else []) + WordChars(cc, s[1..])
  }

  // ---------------------------------------------------------------------
  // Stage lemmas

  ghost predicate AllFixed(cc: CharClasses, s: string)
  {
    forall i :: 0 <= i < |s| ==> cc.lower(s[i]) == s[i]
  }

  ghost predicate AllWordOrSpace(cc: CharClasses, s: string)
  {
    forall i :: 0 <= i < |s| ==> cc.isWord(s[i]) || cc.isSpace(s[i])
  }

  /** After collapsing, whitespace is only ' ', and every other character is a word character. */
  ghost predicate WordOrBlank(cc: CharClasses, s: string)
  {
    forall i :: 0 <= i < |s| ==> s[i] == ' ' || (cc.isWord(s[i]) && cc.lower(s[i]) == s[i])
  }

  ghost predicate NoDoubleBlank(s: string)
  {
    forall i :: 0 <= i < |s| - 1 ==> !(s[i] == ' ' && s[i + 1] == ' ')
  }

  lemma {:induction false} LoweredFixed(cc: CharClasses, s: string)
    requires WellFormed(cc)
    ensures |Lowered(cc, s)| == |s|
    ensures forall i :: 0 <= i < |s| ==> Lowered(cc, s)[i] == cc.lower(s[i])
    ensures AllFixed(cc, Lowered(cc, s))
  {
    if s != [] {
      LoweredFixed(cc, s[1..]);
    }
  }

  lemma {:induction false} WordCharsAppend(cc: CharClasses, a: string, b: string)
    ensures WordChars(cc, a + b) == WordChars(cc, a) + WordChars(cc, b)
  {
    if a == [] {
      assert a + b == b;
    } else {
      assert (a + b)[1..] == a[1..] + b;
      WordCharsAppend(cc, a[1..], b);
    }
  }

  lemma {:induction false} KeepProps(cc: CharClasses, s: string)
    requires WellFormed(cc)
    requires AllFixed(cc, s)
    ensures AllFixed(cc, KeepWordsAndSpaces(cc, s))
    ensures AllWordOrSpace(cc, KeepWordsAndSpaces(cc, s))
    ensures WordChars(cc, KeepWordsAndSpaces(cc, s)) == WordChars(cc, s)
  {
    if s != [] {
      KeepProps(cc, s[1..]);
      var head := if cc.isWord(s[0]) || cc.isSpace(s[0]) then [s[0]] else [];
      WordCharsAppend(cc, head, KeepWordsAndSpaces(cc, s[1..]));
    }
  }

  lemma {:induction false} CollapseProps(cc: CharClasses, s: string)
    requires WellFormed(cc)
    requires AllFixed(cc, s) && AllWordOrSpace(cc, s)
    ensures var r := CollapseSpaces(cc, s);
      && WordOrBlank(cc, r)
      && NoDoubleBlank(r)
      && (s != [] ==> r != [] && (r[0] == ' ' <==> cc.isSpace(s[0])))
      && WordChars(cc, r) == WordChars(cc, s)
  {
    if s != [] {
      CollapseProps(cc, s[1..]);
      var head := if cc.isSpace(s[0]) then (if |s| > 1 && cc.isSpace(s[1]) then [] else [' ']) else [s[0]];
      WordCharsAppend(cc, head, CollapseSpaces(cc, s[1..]));
    }
  }

  lemma {:induction false} NoWordCharsInSpaces(cc: CharClasses, s: string)
    requires WellFormed(cc)
    requires forall i :: 0 <= i < |s| ==> cc.isSpace(s[i])
    ensures WordChars(cc, s) == []
  {
    if s != [] {
      NoWordCharsInSpaces(cc, s[1..]);
    }
  }

  /** How many blanks `lstrip` removes from the front of `s`. */
  function LeadingBlanks(cc: CharClasses, s: string): (k: nat)
    ensures k <= |s|
  {
    if s != [] && cc.isSpace(s[0]) then 1 + LeadingBlanks(cc, s[1..]) else 0
  }

  /** How long a prefix of `s` `rstrip` keeps. */
  function KeptPrefix(cc: CharClasses, s: string): (k: nat)
    ensures k <= |s|
  {
    if s != [] && cc.isSpace(s[|s| - 1]) then KeptPrefix(cc, s[..|s| - 1]) else |s|
  }

  /** `lstrip` removes exactly the leading blanks: the result is the suffix
      after them, and it does not start with a blank. */
  lemma {:induction false} StripLeftProps(cc: CharClasses, s: string)
    ensures var k := LeadingBlanks(cc, s);
      && StripLeft(cc, s) == s[k..]
      && (forall i :: 0 <= i < k ==> cc.isSpace(s[i]))
      && (k < |s| ==> !cc.isSpace(s[k]))
  {
    if s != [] && cc.isSpace(s[0]) {
      var t := s[1..];
      StripLeftProps(cc, t);
      var k := LeadingBlanks(cc, t);
      assert t[k..] == s[k + 1..];
      forall i | 0 <= i < k + 1 ensures cc.isSpace(s[i]) {
        if i > 0 {
          assert s[i] == t[i - 1];
        }
      }
      if k < |t| {
        assert t[k] == s[k + 1];
      }
    } else {
      assert s[0..] == s;
    }
  }

  /** `rstrip` removes exactly the trailing blanks: the result is the prefix
      before them, and it does not end with a blank. */
  lemma {:induction false} StripRightProps(cc: CharClasses, s: string)
    ensures var k := KeptPrefix(cc, s);
      && StripRight(cc, s) == s[..k]
      && (forall i :: k <= i < |s| ==> cc.isSpace(s[i]))
      && (k > 0 ==> !cc.isSpace(s[k - 1]))
  {
    if s != [] && cc.isSpace(s[|s| - 1]) {
      var t := s[..|s| - 1];
      StripRightProps(cc, t);
      var k := KeptPrefix(cc, t);
      assert t[..k] == s[..k];
      forall i | k <= i < |s| ensures cc.isSpace(s[i]) {
        if i < |t| {
          assert s[i] == t[i];
        }
      }
      if k > 0 {
        assert t[k - 1] == s[k - 1];
      }
    } else {
      assert s[..|s|] == s;
    }
  }

  /** `r` is `s` with the blanks before position `a` and after `r` cut off. */
  ghost predicate TrimmedFrom(cc: CharClasses, s: string, a: nat, r: string)
  {
    && a + |r| <= |s| && r == s[a..a + |r|]
    && (forall i :: 0 <= i < a ==> cc.isSpace(s[i]))
    && (forall i :: a + |r| <= i < |s| ==> cc.isSpace(s[i]))
  }

  /** `str.strip()` removes blanks at both ends and nothing else: the result
      is a slice of the input and everything cut off is blank. */
  lemma StripTrims(cc: CharClasses, s: string)
    ensures exists a: nat :: TrimmedFrom(cc, s, a, Strip(cc, s))
  {
    StripLeftProps(cc, s);
    var k := LeadingBlanks(cc, s);
    var t := s[k..];
    StripRightProps(cc, t);
    var m := KeptPrefix(cc, t);
    assert Strip(cc, s) == t[..m];
    TrimmedSlice(cc, s, k, m);
  }

  lemma TrimmedSlice(cc: CharClasses, s: string, k: nat, m: nat)
    requires k <= |s| && m <= |s| - k
    requires forall i :: 0 <= i < k ==> cc.isSpace(s[i])
    requires forall i :: m <= i < |s| - k ==> cc.isSpace(s[k..][i])
    ensures TrimmedFrom(cc, s, k, s[k..][..m])
  {
    var t := s[k..];
    forall i | k + m <= i < |s| ensures cc.isSpace(s[i]) {
      assert s[i] == t[i - k];
    }
  }

  /** The result of `str.strip()` neither starts nor ends with a blank. */
  lemma StripEnds(cc: CharClasses, s: string)
    ensures var r := Strip(cc, s); r == [] || (!cc.isSpace(r[0]) && !cc.isSpace(r[|r| - 1]))
  {
    StripLeftProps(cc, s);
    var t := StripLeft(cc, s);
    StripRightProps(cc, t);
    var m := KeptPrefix(cc, t);
    if m > 0 {
      assert Strip(cc, s) == t[..m];
      assert Strip(cc, s)[0] == t[0] == s[LeadingBlanks(cc, s)];
    }
  }

  lemma SliceKeepsShape(cc: CharClasses, s: string, a: nat, b: nat)
    requires a <= b <= |s|
    requires WordOrBlank(cc, s) && NoDoubleBlank(s)
    ensures WordOrBlank(cc, s[a..b]) && NoDoubleBlank(s[a..b])
  {
    var t := s[a..b];
    assert forall i :: 0 <= i < |t| ==> t[i] == s[a + i];
  }

  lemma StripLeftKeeps(cc: CharClasses, s: string)
    requires WellFormed(cc)
    requires WordOrBlank(cc, s) && NoDoubleBlank(s)
    ensures WordOrBlank(cc, StripLeft(cc, s)) && NoDoubleBlank(StripLeft(cc, s))
    ensures WordChars(cc, StripLeft(cc, s)) == WordChars(cc, s)
  {
    StripLeftProps(cc, s);
    var l := StripLeft(cc, s);
    var k := LeadingBlanks(cc, s);
    assert s == s[..k] + l;
    NoWordCharsInSpaces(cc, s[..k]);
    WordCharsAppend(cc, s[..k], l);
    SliceKeepsShape(cc, s, k, |s|);
  }

  lemma StripRightKeeps(cc: CharClasses, s: string)
    requires WellFormed(cc)
    requires WordOrBlank(cc, s) && NoDoubleBlank(s)
    ensures WordOrBlank(cc, StripRight(cc, s)) && NoDoubleBlank(StripRight(cc, s))
    ensures WordChars(cc, StripRight(cc, s)) == WordChars(cc, s)
  {
    StripRightProps(cc, s);
    var r := StripRight(cc, s);
    var j := KeptPrefix(cc, s);
    assert s == r + s[j..];
    NoWordCharsInSpaces(cc, s[j..]);
    WordCharsAppend(cc, r, s[j..]);
    SliceKeepsShape(cc, s, 0, j);
  }

  lemma StripLeftStartsWithWord(cc: CharClasses, s: string)
    requires WordOrBlank(cc, s)
    ensures StripRight(cc, StripLeft(cc, s)) != [] ==> !cc.isSpace(StripRight(cc, StripLeft(cc, s))[0])
  {
    StripLeftProps(cc, s);
    var l := StripLeft(cc, s);
    StripRightProps(cc, l);
    var r := StripRight(cc, l);
    if r != [] {
      assert r[0] == l[0];
    }
  }

  /** Stripping a collapsed string: what remains is normalised and keeps every word character. */
  lemma StripCollapsed(cc: CharClasses, s: string)
    requires WellFormed(cc)
    requires WordOrBlank(cc, s) && NoDoubleBlank(s)
    ensures Normalized(cc, Strip(cc, s))
    ensures WordChars(cc, Strip(cc, s)) == WordChars(cc, s)
  {
    StripLeftKeeps(cc, s);
    var l := StripLeft(cc, s);
    StripRightKeeps(cc, l);
    StripRightProps(cc, l);
    StripLeftStartsWithWord(cc, s);
  }

  // ---------------------------------------------------------------------
  // Properties of clean_text

  /** The output of clean_text contains only lower-case word characters and
      single spaces and has no leading or trailing space; its word characters
      are exactly those of the lower-cased input, in order. */
  lemma CleanIsNormalized(cc: CharClasses, cell: Cell)
    requires WellFormed(cc)
    ensures Normalized(cc, Clean(cc, cell))
    ensures cell.Text? ==> WordChars(cc, Clean(cc, cell)) == WordChars(cc, Lowered(cc, cell.s))
    ensures !cell.Text? ==> Clean(cc, cell) == ""
  {
    if cell.Text? {
      var s := cell.s;
      LoweredFixed(cc, s);
      KeepProps(cc, Lowered(cc, s));
      CollapseProps(cc, KeepWordsAndSpaces(cc, Lowered(cc, s)));
      StripCollapsed(cc, CollapseSpaces(cc, KeepWordsAndSpaces(cc, Lowered(cc, s))));
    }
  }

  lemma {:induction false} LoweredOfNormalized(cc: CharClasses, s: string)
    requires WellFormed(cc) && WordOrBlank(cc, s)
    ensures Lowered(cc, s) == s
  {
    if s != [] {
      LoweredOfNormalized(cc, s[1..]);
    }
  }

  lemma {:induction false} KeepOfNormalized(cc: CharClasses, s: string)
    requires WellFormed(cc) && WordOrBlank(cc, s)
    ensures KeepWordsAndSpaces(cc, s) == s
  {
    if s != [] {
      KeepOfNormalized(cc, s[1..]);
    }
  }

  lemma {:induction false} CollapseOfNormalized(cc: CharClasses, s: string)
    requires WellFormed(cc) && WordOrBlank(cc, s) && NoDoubleBlank(s)
    ensures CollapseSpaces(cc, s) == s
  {
    if s != [] {
      CollapseOfNormalized(cc, s[1..]);
      if |s| > 1 {
        assert !(s[0] == ' ' && s[1] == ' ');
      }
    }
  }

  /** A normalised string is a fixed point of clean_text. */
  lemma NormalizedIsFixpoint(cc: CharClasses, s: string)
    requires WellFormed(cc) && Normalized(cc, s)
    ensures Clean(cc, Text(s)) == s
  {
    LoweredOfNormalized(cc, s);
    KeepOfNormalized(cc, s);
    CollapseOfNormalized(cc, s);
    assert StripLeft(cc, s) == s;
    assert StripRight(cc, s) == s;
  }

  /** clean_text is idempotent. */
  lemma CleanIdempotent(cc: CharClasses, cell: Cell)
    requires WellFormed(cc)
    ensures Clean(cc, Text(Clean(cc, cell))) == Clean(cc, cell)
  {
    CleanIsNormalized(cc, cell);
    NormalizedIsFixpoint(cc, Clean(cc, cell));
  }

  /** A cell cleans to "" exactly when it is not a string or no character of
      it is a word character once lower-cased. */
  lemma CleanEmptyIff(cc: CharClasses, cell: Cell)
    requires WellFormed(cc)
    ensures Clean(cc, cell) == "" <==> (cell.Text? ==> forall i :: 0 <= i < |cell.s| ==> !cc.isWord(cc.lower(cell.s[i])))
  {
    CleanIsNormalized(cc, cell);
    if cell.Text? {
      var s := cell.s;
      var r := Clean(cc, cell);
      LoweredFixed(cc, s);
      WordCharsEmptyIff(cc, Lowered(cc, s));
      if r != [] {
        assert r[0] != ' ';
        assert WordChars(cc, r) != [];
      }
    }
  }

  lemma {:induction false} WordCharsEmptyIff(cc: CharClasses, s: string)
    ensures WordChars(cc, s) == [] <==> forall i :: 0 <= i < |s| ==> !cc.isWord(s[i])
  {
    if s != [] {
      WordCharsEmptyIff(cc, s[1..]);
      assert forall i :: 1 <= i < |s| ==> s[i] == s[1..][i - 1];
    }
  }
}
