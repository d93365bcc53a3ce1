/** How free text is read: blanks, numbers, and the algorithm keys behind scanner spellings. */
module Spellings {
  import opened Wrappers
  import opened Text
  import opened Decimal
  import opened AlgorithmNames

  // ----- blanks -----

  predicate IsBlank(c: char) {
    c == ' ' || c == '\t' || c == '\n' || c == '\r' || c == '\U{0b}' || c == '\U{0c}'
  }

  ghost predicate AllBlank(s: string) {
    forall i :: 0 <= i < |s| ==> IsBlank(s[i])
  }

  lemma {:induction false} LeftStripCutsBlanks(s: string) returns (n: nat)
    ensures n <= |s| && AllBlank(s[..n]) && StripLeft(s) == s[n..]
    ensures n < |s| ==> !IsBlank(s[n])
  {
    n := 0;
    if s != "" && IsSpace(s[0]) {
      var m := LeftStripCutsBlanks(s[1..]);
      n := m + 1;
      assert s[..n] == [s[0]] + s[1..][..m];
    }
  }

  lemma {:induction false} RightStripCutsBlanks(s: string) returns (n: nat)
    ensures n <= |s| && AllBlank(s[n..]) && StripRight(s) == s[..n]
    ensures forall i :: n <= i < |s| ==> IsBlank(s[i])
    ensures n > 0 ==> !IsBlank(s[n - 1])
  {
    n := |s|;
    if s != "" && IsSpace(s[|s| - 1]) {
      var init := s[..|s| - 1];
      n := RightStripCutsBlanks(init);
      assert s[..n] == init[..n];
      assert s[n..] == init[n..] + [s[|s| - 1]];
    } else {
      assert s[..n] == s;
    }
  }

  /** A string is blanks, what stripping leaves, and blanks; and what it leaves neither starts nor ends with one. */
  lemma StripCutsTheBlanks(s: string) returns (before: string, after: string)
    ensures s == before + Strip(s) + after && AllBlank(before) && AllBlank(after)
    ensures Strip(s) != "" ==> !IsBlank(Strip(s)[0]) && !IsBlank(Strip(s)[|Strip(s)| - 1])
  {
    var n := LeftStripCutsBlanks(s);
    var m := RightStripCutsBlanks(s[n..]);
    before, after := s[..n], s[n..][m..];
    assert s == s[..n] + s[n..] && s[n..] == s[n..][..m] + s[n..][m..];
  }

  /** There is only one way to cut a string like that. */
  lemma StripOfPadded(before: string, t: string, after: string)
    requires AllBlank(before) && AllBlank(after)
    requires t != "" ==> !IsBlank(t[0]) && !IsBlank(t[|t| - 1])
    ensures Strip(before + t + after) == t
  {
    var s := before + t + after;
    var n := LeftStripCutsBlanks(s);
    if t == "" {
      assert AllBlank(s);
    } else {
      assert s[|before|] == t[0];
      assert n == |before| && s[n..] == t + after;
      RightStripOfPadded(t, after);
    }
  }

  lemma RightStripOfPadded(t: string, after: string)
    requires t != "" && !IsBlank(t[|t| - 1]) && AllBlank(after)
    ensures StripRight(t + after) == t
  {
    var s := t + after;
    var m := RightStripCutsBlanks(s);
    assert s[|t| - 1] == t[|t| - 1];
    assert m == |t| && s[..m] == t;
  }

  // ----- numbers -----

  /** A number is read without the blanks around it, and with its sign. */
  lemma SignsAndBlanks(text: string, n: nat)
    ensures Strip(text) == Print(n) ==> ParseInt(text) == Some(n)
    ensures Strip(text) == ['+'] + Print(n) ==> ParseInt(text) == Some(n)
    ensures Strip(text) == ['-'] + Print(n) ==> ParseInt(text) == Some(0 - n as int)
  {
    ParseDigitsOfPrint(n);
    var digits := Print(n);
    assert digits[0] in digits && IsDigit(digits[0]);
    if Strip(text) == ['+'] + digits {
      ParseSigned(text, '+', digits);
    }
    if Strip(text) == ['-'] + digits {
      ParseSigned(text, '-', digits);
    }
  }

  lemma ParseSigned(text: string, sign: char, digits: string)
    requires Strip(text) == [sign] + digits && (sign == '-' || sign == '+') && ParseDigits(digits).Some?
    ensures ParseInt(text) == Some(if sign == '-' then 0 - ParseDigits(digits).value as int else ParseDigits(digits).value)
  {
    assert ([sign] + digits)[1..] == digits;
  }

  /** A digit after a number multiplies it by ten. */
  lemma DigitsArePositional(s: string, front: string)
    requires s != "" && '0' <= s[|s| - 1] <= '9'
    requires front == s[..|s| - 1] && ParseDigits(front).Some?
    ensures ParseDigits(s) == Some(10 * ParseDigits(front).value + (s[|s| - 1] as int - 48))
  {
    LastIsDigit(front);
  }

  /** One underscore may stand before it. */
  lemma UnderscoreIsSkipped(s: string, front: string)
    requires |s| > 1 && '0' <= s[|s| - 1] <= '9' && s[|s| - 2] == '_'
    requires front == s[..|s| - 1][..|s| - 2] && ParseDigits(front).Some?
    ensures ParseDigits(s) == Some(10 * ParseDigits(front).value + (s[|s| - 1] as int - 48))
  {}

  lemma OneDigit(c: char)
    requires '0' <= c <= '9'
    ensures ParseDigits([c]) == Some(c as int - 48)
  {}

  lemma LastIsDigit(s: string)
    requires ParseDigits(s).Some?
    ensures s != "" && IsDigit(s[|s| - 1]) && s[|s| - 1] != '_'
  {}

  /** Nothing else is a number: a number starts and ends with a digit and holds digits and single underscores only. */
  lemma {:induction false} NumbersAreDigits(s: string)
    requires ParseDigits(s).Some?
    ensures s != "" && IsDigit(s[0]) && IsDigit(s[|s| - 1])
    ensures forall i :: 0 <= i < |s| ==> IsDigit(s[i]) || s[i] == '_'
    ensures forall i :: 0 < i < |s| ==> IsDigit(s[i]) || IsDigit(s[i - 1])
  {
    var front := s[..|s| - 1];
    if front != "" {
      var front' := if front[|front| - 1] == '_' then front[..|front| - 1] else front;
      NumbersAreDigits(front');
      forall i | 0 <= i < |s| ensures IsDigit(s[i]) || s[i] == '_' {
        assert i < |front'| ==> s[i] == front'[i];
      }
      forall i | 0 < i < |s| ensures IsDigit(s[i]) || IsDigit(s[i - 1]) {
        assert i < |front'| ==> s[i] == front'[i] && s[i - 1] == front'[i - 1];
        assert i == |front'| ==> s[i - 1] == front'[|front'| - 1];
      }
    }
  }

  // ----- algorithm keys -----

  /** Spellings are read character by character: letters in either case and digits count, anything else does not. */
  lemma {:induction false} CompactConcat(s: string, t: string)
    ensures Compact(s + t) == Compact(s) + Compact(t)
  {
    if s == "" {
      assert s + t == t;
    } else {
      CompactConcat(s[1..], t);
      CompactOfCons(s[0], s[1..]);
      CompactOfCons(s[0], s[1..] + t);
      assert s == [s[0]] + s[1..] && s + t == [s[0]] + (s[1..] + t);
      assert Compact([s[0]]) + (Compact(s[1..]) + Compact(t)) == (Compact([s[0]]) + Compact(s[1..])) + Compact(t);
    }
  }

  lemma CompactOfCons(c: char, s: string)
    ensures Compact([c] + s) == Compact([c]) + Compact(s)
  {
    CompactOfOne(c);
    assert ([c] + s)[1..] == s;
  }

  lemma CompactOfOne(c: char)
    ensures Compact([c]) ==
            if 'a' <= c <= 'z' || '0' <= c <= '9' then [c]
            else if 'A' <= c <= 'Z' then [(c as int - 'A' as int + 'a' as int) as char]
            else ""
  {
    assert [c][1..] == "";
  }

  ghost predicate StartsWith(s: string, prefix: string) {
    |prefix| <= |s| && forall i :: 0 <= i < |prefix| ==> s[i] == prefix[i]
  }

  /** The families: everything of RSA, of ECDH and of ECDSA is one key each, and so is any other curve but the two named ones. */
  lemma KeyFamilies(spelling: string)
    ensures var letters, key := Compact(spelling), Normalise(Some(spelling));
            && (key.None? <==> |letters| == 0)
            && (StartsWith(letters, "rsa") ==> key == Some("rsa"))
            && (letters == "x25519" || letters == "curve25519" ==> key == Some("x25519"))
            && (letters == "ed25519" ==> key == Some("ed25519"))
            && (StartsWith(letters, "ecdh") ==> key == Some("ecdh"))
            && (StartsWith(letters, "ecdsa") ==> key == Some("ecdsa"))
            && (StartsWith(letters, "ec") && !StartsWith(letters, "ecdh") && !StartsWith(letters, "ecdsa") ==> key == Some("ecc"))
            && (|letters| > 0 && !StartsWith(letters, "rsa") && !StartsWith(letters, "ec") && letters != "curve25519" ==>
                  key == Some(letters))
  {
    var letters := Compact(spelling);
    PrefixIsStart("rsa", letters);
    PrefixIsStart("ecdh", letters);
    PrefixIsStart("ecdsa", letters);
    PrefixIsStart("ec", letters);
    FamiliesAreApart(letters);
  }

  lemma PrefixIsStart(prefix: string, s: string)
    ensures prefix <= s <==> StartsWith(s, prefix)
  {
    if StartsWith(s, prefix) {
      assert s[..|prefix|] == prefix;
    }
  }

  lemma FamiliesAreApart(letters: string)
    ensures StartsWith(letters, "rsa") ==> letters[0] == 'r'
    ensures StartsWith(letters, "ec") ==> letters[0] == 'e' && letters[1] == 'c'
    ensures StartsWith(letters, "ecdh") ==> StartsWith(letters, "ec") && letters[3] == 'h'
    ensures StartsWith(letters, "ecdsa") ==> StartsWith(letters, "ec") && letters[3] == 's'
    ensures letters == "x25519" ==> letters[0] == 'x'
    ensures letters == "curve25519" ==> letters[0] == 'c'
    ensures letters == "ed25519" ==> letters[1] == 'd'
  {}
}
