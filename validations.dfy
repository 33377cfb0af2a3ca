/**
 * The field validators of the lead form (src/app/lib/validations.ts).
 *
 * Each validator is a regular-expression test. The model writes the regular
 * expression as a predicate that follows its structure token by token, and
 * proves it equal to a plain characterisation of the accepted strings.
 * `isDate` depends on the host's date parser and is not modelled here: the rule
 * table of the public form takes it as a parameter.
 */
module Validations {

  /** `\d` of an ECMAScript regular expression: the ASCII digits only. */
  predicate IsDigit(c: char)
  {
    '0' <= c <= '9'
  }

  /** `[1-9]` */
  predicate IsNonZeroDigit(c: char)
  {
    '1' <= c <= '9'
  }

  /**
   * `\s` of an ECMAScript regular expression: the WhiteSpace and
   * LineTerminator code points (tab, line feed, vertical tab, form feed,
   * carriage return, space, the Unicode space separators, the line and
   * paragraph separators and the byte order mark).
   */
  predicate IsWhitespace(c: char)
  {
    || c == '\t' || c == '\n' || c == '\U{000B}' || c == '\U{000C}' || c == '\r'
    || c == ' ' || c == '\U{00A0}' || c == '\U{1680}'
    || ('\U{2000}' <= c <= '\U{200A}')
    || c == '\U{2028}' || c == '\U{2029}' || c == '\U{202F}' || c == '\U{205F}'
    || c == '\U{3000}' || c == '\U{FEFF}'
  }

  predicate IsDigitString(s: string)
  {
    forall i :: 0 <= i < |s| ==> IsDigit(s[i])
  }

  predicate NoWhitespace(s: string)
  {
    forall i :: 0 <= i < |s| ==> !IsWhitespace(s[i])
  }

  // ---------------------------------------------------------------------------
  // Digits: `s.replace(/\D/g, '')`
  // ---------------------------------------------------------------------------

  /** The digits of `s` in their original order; every other character is dropped. */
  function Digits(s: string): (r: string)
    ensures IsDigitString(r)
    ensures |r| <= |s|
    ensures IsDigitString(s) ==> r == s
  {
    if s == [] then []
    else if IsDigit(s[0]) then [s[0]] + Digits(s[1..])
    else Digits(s[1..])
  }

  /** Every occurrence of every digit is kept; with `IsDigitString` nothing else is. */
  lemma {:induction false} DigitsKeepsEveryDigit(s: string)
    ensures forall c | IsDigit(c) :: multiset(Digits(s))[c] == multiset(s)[c]
  {
    if s != [] {
      assert s == [s[0]] + s[1..];
      DigitsKeepsEveryDigit(s[1..]);
    }
  }

  /** Stripping distributes over concatenation, so the digits keep their order. */
  lemma {:induction false} DigitsAppend(a: string, b: string)
    ensures Digits(a + b) == Digits(a) + Digits(b)
  {
    if a == [] {
      assert a + b == b;
    } else {
      assert (a + b)[0] == a[0];
      assert (a + b)[1..] == a[1..] + b;
      DigitsAppend(a[1..], b);
    }
  }

  // ---------------------------------------------------------------------------
  // isPhone: /^\(?([1-9]{2})\)?\s?9?\d{4}-?\d{4}$/ applied to the digits
  // ---------------------------------------------------------------------------

  /**
   * `\d{4}-?\d{4}$`. The optional `-` is taken whenever it is there: leaving it
   * would hand a `-` to `\d`, which cannot match it.
   */
  predicate MatchesLocalNumber(u: string)
  {
    && |u| >= 4
    && IsDigitString(u[..4])
    && var v := if |u| > 4 && u[4] == '-' then u[5..] else u[4..];
    && |v| == 4
    && IsDigitString(v)
  }

  /** `9?\d{4}-?\d{4}$`: the greedy `9?` is tried first, then given back. */
  predicate MatchesSubscriber(u: string)
  {
    || (|u| > 0 && u[0] == '9' && MatchesLocalNumber(u[1..]))
    || MatchesLocalNumber(u)
  }

  /**
   * `^\(?([1-9]{2})\)?\s?9?\d{4}-?\d{4}$`. Each of `\(?`, `\)?` and `\s?` is
   * taken whenever its character is there, since the token after it cannot
   * match that character.
   */
  predicate MatchesPhonePattern(t: string)
  {
    var t1 := if |t| > 0 && t[0] == '(' then t[1..] else t;
    && |t1| >= 2
    && IsNonZeroDigit(t1[0])
    && IsNonZeroDigit(t1[1])
    && var t2 := if |t1| > 2 && t1[2] == ')' then t1[3..] else t1[2..];
    && var t3 := if |t2| > 0 && IsWhitespace(t2[0]) then t2[1..] else t2;
    && MatchesSubscriber(t3)
  }

  /**
   * The accepted digit strings: two area-code digits in 1-9, then either
   * eight digits or a `9` and eight digits.
   */
  predicate IsPhoneDigits(d: string)
  {
    && (|d| == 10 || (|d| == 11 && d[2] == '9'))
    && IsNonZeroDigit(d[0])
    && IsNonZeroDigit(d[1])
  }

  /** On a string of digits the punctuation of the pattern never matches. */
  lemma DigitStringPhonePattern(d: string)
    requires IsDigitString(d)
    ensures MatchesPhonePattern(d) <==> IsPhoneDigits(d)
  {
    if |d| >= 2 {
      var u := d[2..];
      assert IsDigitString(u);
      assert MatchesLocalNumber(u) <==> |u| == 8 by {
        if |u| >= 4 {
          assert IsDigitString(u[4..]);
          assert |u| > 4 ==> u[4] != '-';
        }
      }
      if |u| > 0 {
        assert MatchesLocalNumber(u[1..]) <==> |u| == 9 by {
          var w := u[1..];
          assert IsDigitString(w);
          if |w| >= 4 {
            assert IsDigitString(w[4..]);
            assert |w| > 4 ==> w[4] != '-';
          }
        }
      }
      assert d[0] != '(';
      assert |d| > 2 ==> d[2] != ')' && !IsWhitespace(d[2]);
    }
  }

  /** `isPhone`: the digits of `value` match the Brazilian phone pattern. */
  function IsPhone(value: string): (b: bool)
    ensures b <==> IsPhoneDigits(Digits(value))
  {
    DigitStringPhonePattern(Digits(value));
    MatchesPhonePattern(Digits(value))
  }

  /** Inserting a non-digit character anywhere never changes the verdict. */
  lemma IsPhoneIgnoresNonDigit(a: string, c: char, b: string)
    requires !IsDigit(c)
    ensures IsPhone(a + [c] + b) == IsPhone(a + b)
  {
    assert Digits(a + [c] + b) == Digits(a + b) by {
      assert a + [c] + b == a + ([c] + b);
      DigitsAppend(a, [c] + b);
      DigitsAppend([c], b);
      assert Digits([c]) == [];
      DigitsAppend(a, b);
    }
  }

  /**
   * A fully typed value of the mask `(00) 00000-0000` reduces to its eleven
   * digits, so it is a valid phone exactly when both area-code digits are
   * non-zero and the number starts with `9`.
   */
  lemma MaskedPhone(area: string, prefix: string, line: string)
    requires |area| == 2 && |prefix| == 5 && |line| == 4
    requires IsDigitString(area) && IsDigitString(prefix) && IsDigitString(line)
    ensures Digits("(" + area + ") " + prefix + "-" + line) == area + prefix + line
    ensures IsPhone("(" + area + ") " + prefix + "-" + line)
        <==> IsNonZeroDigit(area[0]) && IsNonZeroDigit(area[1]) && prefix[0] == '9'
  {
    var p1 := "(" + area;
    DigitsAppend("(", area);
    assert Digits(p1) == area;
    var p2 := p1 + ") ";
    DigitsAppend(p1, ") ");
    assert Digits(") ") == [] by {
      assert ") "[1..] == " ";
    }
    assert Digits(p2) == area;
    var p3 := p2 + prefix;
    DigitsAppend(p2, prefix);
    var p4 := p3 + "-";
    DigitsAppend(p3, "-");
    assert Digits(p4) == area + prefix;
    DigitsAppend(p4, line);
    assert Digits(p4 + line) == area + prefix + line;
    assert (area + prefix + line)[2] == prefix[0];
  }

  lemma MaskedPhoneExample()
    ensures IsPhone("(11) 98765-4321")
  {
    MaskedPhone("11", "98765", "4321");
    assert "(" + "11" + ") " + "98765" + "-" + "4321" == "(11) 98765-4321";
  }

  lemma ShortPhoneExample()
    ensures !IsPhone("123")
  {
  }

  // ---------------------------------------------------------------------------
  // isEmail: /^[^\s@]+@[^\s@]+\.[^\s@]+$/
  // ---------------------------------------------------------------------------

  /** `[^\s@]` */
  predicate IsEmailChar(c: char)
  {
    c != '@' && !IsWhitespace(c)
  }

  predicate EmailChars(s: string)
  {
    forall i :: 0 <= i < |s| ==> IsEmailChar(s[i])
  }

  /** The pattern matched with its `@` at index `at` and its `\.` at index `dot`. */
  predicate EmailSplit(s: string, at: int, dot: int)
  {
    && 0 < at && at + 1 < dot && dot + 1 < |s|
    && s[at] == '@' && s[dot] == '.'
    && EmailChars(s[..at]) && EmailChars(s[at + 1..dot]) && EmailChars(s[dot + 1..])
  }

  /** The language of the e-mail regular expression. */
  ghost predicate MatchesEmailPattern(s: string)
  {
    exists at, dot :: EmailSplit(s, at, dot)
  }

  /** The number of occurrences of `c` in `s`. */
  function Count(s: string, c: char): (n: nat)
    ensures n == 0 <==> c !in s
  {
    if s == [] then 0 else (if s[0] == c then 1 else 0) + Count(s[1..], c)
  }

  lemma {:induction false} CountAppend(a: string, b: string, c: char)
    ensures Count(a + b, c) == Count(a, c) + Count(b, c)
  {
    if a == [] {
      assert a + b == b;
    } else {
      assert (a + b)[1..] == a[1..] + b;
      CountAppend(a[1..], b, c);
    }
  }

  /** The index of the first `c` in `s`, or `|s|` when there is none. */
  function IndexOf(s: string, c: char): (i: nat)
    ensures i <= |s|
    ensures i < |s| ==> s[i] == c
    ensures c !in s[..i]
  {
    if s == [] then 0
    else if s[0] == c then 0
    else
      var j := IndexOf(s[1..], c);
      assert s[..j + 1] == [s[0]] + s[1..][..j];
      j + 1
  }

  /** A `.` in `domain` that is neither its first nor its last character. */
  predicate HasInnerDot(domain: string)
  {
    exists k :: 0 < k < |domain| - 1 && domain[k] == '.'
  }

  /**
   * The accepted e-mail shape: no whitespace, exactly one `@`, something
   * before it, and a `.` inside the part after it.
   */
  predicate HasEmailShape(value: string)
  {
    var at := IndexOf(value, '@');
    && NoWhitespace(value)
    && Count(value, '@') == 1
    && 0 < at < |value|
    && HasInnerDot(value[at + 1..])
  }

  /** Every string of the e-mail shape matches the regular expression. */
  lemma IsEmailSound(s: string)
    requires HasEmailShape(s)
    ensures MatchesEmailPattern(s)
  {
    var at := IndexOf(s, '@');
    var domain := s[at + 1..];
    assert s == (s[..at] + [s[at]]) + domain;
    CountAppend(s[..at] + [s[at]], domain, '@');
    CountAppend(s[..at], [s[at]], '@');
    assert '@' !in domain;
    var k :| 0 < k < |domain| - 1 && domain[k] == '.';
    var dot := at + 1 + k;
    assert s[..at] == s[..at];
    assert EmailChars(s[..at]) by {
      forall i | 0 <= i < at ensures IsEmailChar(s[..at][i]) {
        assert s[..at][i] == s[i];
      }
    }
    assert s[at + 1..dot] == domain[..k];
    assert EmailChars(domain[..k]) by {
      forall i | 0 <= i < k ensures IsEmailChar(domain[..k][i]) {
        assert domain[..k][i] == s[at + 1 + i];
      }
    }
    var tail := domain[k + 1..];
    assert s[dot + 1..] == tail;
    assert EmailChars(tail) by {
      forall i | 0 <= i < |tail| ensures IsEmailChar(tail[i]) {
        assert tail[i] == s[dot + 1 + i];
      }
    }
    assert EmailSplit(s, at, dot);
  }

  /** A match of the regular expression has no whitespace. */
  lemma EmailSplitNoWhitespace(s: string, at: int, dot: int)
    requires EmailSplit(s, at, dot)
    ensures NoWhitespace(s)
  {
    forall i | 0 <= i < |s|
      ensures !IsWhitespace(s[i])
    {
      if i < at {
        assert s[i] == s[..at][i];
      } else if at < i < dot {
        assert s[i] == s[at + 1..dot][i - at - 1];
      } else if dot < i {
        assert s[i] == s[dot + 1..][i - dot - 1];
      }
    }
  }

  /** A match of the regular expression has its only `@` at `at`. */
  lemma EmailSplitSingleAt(s: string, at: int, dot: int)
    requires EmailSplit(s, at, dot)
    ensures Count(s, '@') == 1 && IndexOf(s, '@') == at
  {
    var domain := s[at + 1..];
    assert domain == (s[at + 1..dot] + [s[dot]]) + s[dot + 1..];
    CountAppend(s[at + 1..dot] + [s[dot]], s[dot + 1..], '@');
    CountAppend(s[at + 1..dot], [s[dot]], '@');
    assert s == (s[..at] + [s[at]]) + domain;
    CountAppend(s[..at] + [s[at]], domain, '@');
    CountAppend(s[..at], [s[at]], '@');
  }

  /** Every match of the regular expression has the e-mail shape. */
  lemma IsEmailComplete(s: string)
    requires MatchesEmailPattern(s)
    ensures HasEmailShape(s)
  {
    var at, dot :| EmailSplit(s, at, dot);
    EmailSplitNoWhitespace(s, at, dot);
    EmailSplitSingleAt(s, at, dot);
    var domain := s[at + 1..];
    assert 0 < dot - at - 1 < |domain| - 1 && domain[dot - at - 1] == '.';
  }

  /** The e-mail shape is exactly the regular expression's language. */
  lemma IsEmailMatchesPattern(s: string)
    ensures HasEmailShape(s) <==> MatchesEmailPattern(s)
  {
    if HasEmailShape(s) {
      IsEmailSound(s);
    }
    if MatchesEmailPattern(s) {
      IsEmailComplete(s);
    }
  }

  /** `isEmail`: the value matches `^[^\s@]+@[^\s@]+\.[^\s@]+$`, decided through its shape. */
  function IsEmail(value: string): (b: bool)
    ensures b <==> MatchesEmailPattern(value)
  {
    IsEmailMatchesPattern(value);
    HasEmailShape(value)
  }

  lemma EmailExamples()
    ensures !IsEmail("")
    ensures !IsEmail("a@b")
    ensures IsEmail("a@b.co")
  {
    var ok := "a@b.co";
    assert IndexOf(ok, '@') == 1;
    assert ok[2..][1] == '.';
  }
}
