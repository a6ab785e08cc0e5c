/** The few facts about strings that the repository's tools rely on: code-point
    order (what Python's sort uses), substring and prefix tests, ASCII case
    folding and stripping, and decimal rendering of a count. */
module Text {

  /** Strict lexicographic order on code points. */
  predicate Less(a: string, b: string)
  {
    if b == "" then false
    else if a == "" then true
    else a[0] < b[0] || (a[0] == b[0] && Less(a[1..], b[1..]))
  }

  lemma {:induction false} LessIsTotal(a: string, b: string)
    ensures a == b || Less(a, b) || Less(b, a)
  {
    if a != "" && b != "" && a[0] == b[0] {
      LessIsTotal(a[1..], b[1..]);
      assert a == [a[0]] + a[1..] && b == [b[0]] + b[1..];
    }
  }

  lemma {:induction false} LessIsAsymmetric(a: string, b: string)
    ensures !(Less(a, b) && Less(b, a))
  {
    if a != "" && b != "" {
      LessIsAsymmetric(a[1..], b[1..]);
    }
  }

  lemma {:induction false} LessIsTransitive(a: string, b: string, c: string)
    requires Less(a, b) && Less(b, c)
    ensures Less(a, c)
  {
    if a != "" && a[0] == b[0] == c[0] {
      LessIsTransitive(a[1..], b[1..], c[1..]);
    }
  }

  /** The term occurs in the text with its first character at position i. */
  predicate OccursAt(text: string, term: string, i: nat)
  {
    i + |term| <= |text| && text[i..i + |term|] == term
  }

  /** Python's `term in text`. */
  predicate Contains(text: string, term: string)
  {
    exists i | 0 <= i <= |text| :: OccursAt(text, term, i)
  }

  /** Containing a term is being made of something, the term, and something. */
  lemma ContainsIsBeingMadeOf(text: string, term: string)
    ensures Contains(text, term) <==> exists a, b :: text == a + term + b
  {
    if Contains(text, term) {
      var i :| 0 <= i <= |text| && OccursAt(text, term, i);
      assert text == text[..i] + term + text[i + |term|..];
    }
    if exists a, b :: text == a + term + b {
      var a, b :| text == a + term + b;
      assert OccursAt(text, term, |a|);
    }
  }

  predicate ContainsAny(text: string, terms: seq<string>)
  {
    exists t | t in terms :: Contains(text, t)
  }

  function LowerChar(c: char): char
  {
    if 'A' <= c <= 'Z' then c - 'A' + 'a' else c
  }

  /** Case folding, on ASCII letters. */
  function Lower(s: string): (r: string)
    ensures |r| == |s|
    ensures forall i | 0 <= i < |s| :: r[i] == LowerChar(s[i])
    ensures forall i | 0 <= i < |s| :: r[i] == if 'A' <= s[i] <= 'Z' then s[i] - 'A' + 'a' else s[i]
  {
    seq(|s|, i requires 0 <= i < |s| => LowerChar(s[i]))
  }

  lemma LowerOfConcat(a: string, b: string)
    ensures Lower(a + b) == Lower(a) + Lower(b)
  {
  }

  predicate IsSpace(c: char)
  {
    c == ' ' || c == '\t' || c == '\n' || c == '\r'
  }

  function StripLeft(s: string): string
  {
    if s != "" && IsSpace(s[0]) then StripLeft(s[1..]) else s
  }

  function StripRight(s: string): string
  {
    if s != "" && IsSpace(s[|s| - 1]) then StripRight(s[..|s| - 1]) else s
  }

  function Strip(s: string): string
  {
    StripRight(StripLeft(s))
  }

  predicate Blank(s: string)
  {
    forall c | c in s :: c == ' ' || c == '\t' || c == '\n' || c == '\r'
  }

  lemma {:induction false} StripLeftTakesBlanks(s: string)
    ensures exists a :: s == a + StripLeft(s) && Blank(a)
    ensures StripLeft(s) == "" || !Blank([StripLeft(s)[0]])
  {
    if s != "" && IsSpace(s[0]) {
      StripLeftTakesBlanks(s[1..]);
      var a :| s[1..] == a + StripLeft(s[1..]) && Blank(a);
      assert s == ([s[0]] + a) + StripLeft(s) && Blank([s[0]] + a);
    } else {
      assert s == "" + StripLeft(s) && Blank("");
      assert s != "" ==> s[0] in [s[0]];
    }
  }

  lemma {:induction false} StripRightTakesBlanks(s: string)
    ensures exists b :: s == StripRight(s) + b && Blank(b)
    ensures StripRight(s) == "" || !Blank([StripRight(s)[|StripRight(s)| - 1]])
  {
    if s != "" && IsSpace(s[|s| - 1]) {
      StripRightTakesBlanks(s[..|s| - 1]);
      var b :| s[..|s| - 1] == StripRight(s[..|s| - 1]) + b && Blank(b);
      assert s == StripRight(s) + (b + [s[|s| - 1]]) && Blank(b + [s[|s| - 1]]);
    } else {
      assert s == StripRight(s) + "" && Blank("");
      assert s != "" ==> s[|s| - 1] in [s[|s| - 1]];
    }
  }

  /** Stripping takes blanks off both ends, and all of them. */
  lemma StripTakesBlanks(s: string)
    ensures exists a, b :: s == a + Strip(s) + b && Blank(a) && Blank(b)
    ensures Strip(s) == "" || (!Blank([Strip(s)[0]]) && !Blank([Strip(s)[|Strip(s)| - 1]]))
  {
    StripLeftTakesBlanks(s);
    StripRightTakesBlanks(StripLeft(s));
    var a :| s == a + StripLeft(s) && Blank(a);
    var b :| StripLeft(s) == Strip(s) + b && Blank(b);
    assert s == a + Strip(s) + b;
    if Strip(s) != "" {
      assert Strip(s)[0] == StripLeft(s)[0];
    }
  }

  /** A text is stripped to nothing exactly when it is blank. */
  lemma StripsToNothing(s: string)
    ensures Strip(s) == "" <==> Blank(s)
  {
    StripTakesBlanks(s);
    var a, b :| s == a + Strip(s) + b && Blank(a) && Blank(b);
    if Strip(s) != "" {
      assert s[|a|] == Strip(s)[0] && s[|a|] in s;
      assert Strip(s)[0] in [Strip(s)[0]];
    }
  }

  predicate HasPrefix(s: string, p: string)
  {
    |p| <= |s| && s[..|p|] == p
  }

  function Digit(d: nat): (c: char)
    requires d < 10
    ensures '0' <= c <= '9'
    ensures (c - '0') as int == d
  {
    '0' + d as char
  }

  /** Decimal rendering of a count. */
  function Decimal(n: nat): (s: string)
    ensures s != ""
    ensures forall c | c in s :: '0' <= c <= '9'
  {
    if n < 10 then [Digit(n)] else Decimal(n / 10) + [Digit(n % 10)]
  }

  lemma {:induction false} DecimalIsInjective(m: nat, n: nat)
    requires Decimal(m) == Decimal(n)
    ensures m == n
  {
    var a, b := Decimal(m), Decimal(n);
    if m < 10 && n < 10 {
      assert a[0] == b[0];
    } else if m >= 10 && n >= 10 {
      assert a[..|a| - 1] == Decimal(m / 10) && b[..|b| - 1] == Decimal(n / 10);
      assert a[|a| - 1] == Digit(m % 10) && b[|b| - 1] == Digit(n % 10);
      DecimalIsInjective(m / 10, n / 10);
    } else {
      assert false;
    }
  }
}
