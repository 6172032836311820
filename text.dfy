/** The string operations of Python that the script relies on:
    `str.lower`, `str.split`, `str.rfind`, `str.isnumeric`, `int()` and
    `str.endswith`, each restricted to what matters for the script's inputs. */
module Text {
  import opened Common

  // ---------------------------------------------------------------- lower()

  function LowerChar(c: char): char
  {
    if 'A' <= c <= 'Z' then (c as int + 32) as char else c
  }

  predicate IsUpper(c: char)
  {
    'A' <= c <= 'Z'
  }

  /** `s.lower()` on the ASCII letters: no capital is left, each capital
      becomes its small letter and every other character is kept. */
  function Lower(s: string): (r: string)
    ensures |r| == |s|
    ensures forall i :: 0 <= i < |r| ==> !IsUpper(r[i])
    ensures forall i :: 0 <= i < |s| && !IsUpper(s[i]) ==> r[i] == s[i]
    ensures forall i :: 0 <= i < |s| && IsUpper(s[i]) ==> r[i] as int == s[i] as int + 32
  {
    seq(|s|, i requires 0 <= i < |s| => LowerChar(s[i]))
  }

  /** Lowering twice is lowering once. */
  lemma LowerIdempotent(s: string)
    ensures Lower(Lower(s)) == Lower(s)
  {
  }

  /** `answer.lower() == "y"`, the confirmation test used by every prompt. */
  predicate IsYes(answer: string)
  {
    Lower(answer) == "y"
  }

  /** `answer.lower() == "n"`. */
  predicate IsNo(answer: string)
  {
    Lower(answer) == "n"
  }

  /** The confirmation token is a single `y` in either case, nothing else. */
  lemma YesIsOneLetter(answer: string)
    ensures IsYes(answer) <==> answer == "y" || answer == "Y"
  {
    if IsYes(answer) {
      assert |answer| == 1;
      assert LowerChar(answer[0]) == 'y';
      assert answer == [answer[0]];
    }
    if answer == "y" || answer == "Y" {
      assert Lower(answer)[0] == 'y';
    }
  }

  /** Likewise the refusal token is a single `n` in either case. */
  lemma NoIsOneLetter(answer: string)
    ensures IsNo(answer) <==> answer == "n" || answer == "N"
  {
    if IsNo(answer) {
      assert |answer| == 1;
      assert LowerChar(answer[0]) == 'n';
      assert answer == [answer[0]];
    }
    if answer == "n" || answer == "N" {
      assert Lower(answer)[0] == 'n';
    }
  }

  // ------------------------------------------------------ split(sep), join

  /** `s.split(sep)` for a one-character separator: always at least one
      piece, empty pieces kept. */
  function SplitOn(s: string, sep: char): (pieces: seq<string>)
    ensures |pieces| >= 1
    ensures forall i :: 0 <= i < |pieces| ==> sep !in pieces[i]
    decreases |s|
  {
    if s == [] then [""]
    else
      var rest := SplitOn(s[1..], sep);
      if s[0] == sep then [""] + rest
      else [[s[0]] + rest[0]] + rest[1..]
  }

  /** `sep.join(pieces)`. */
  function JoinWith(pieces: seq<string>, sep: char): string
  {
    if |pieces| == 0 then ""
    else if |pieces| == 1 then pieces[0]
    else pieces[0] + [sep] + JoinWith(pieces[1..], sep)
  }

  /** Splitting loses nothing: joining the pieces back gives the input. */
  lemma {:induction false} JoinSplit(s: string, sep: char)
    ensures JoinWith(SplitOn(s, sep), sep) == s
    decreases |s|
  {
    if s != [] {
      JoinSplit(s[1..], sep);
      var rest := SplitOn(s[1..], sep);
      if s[0] == sep {
        assert SplitOn(s, sep) == [""] + rest;
        assert ([""] + rest)[1..] == rest;
      } else {
        var pieces := SplitOn(s, sep);
        assert pieces == [[s[0]] + rest[0]] + rest[1..];
        if |rest| == 1 {
          assert pieces == [[s[0]] + rest[0]];
        } else {
          assert pieces[1..] == rest[1..];
          assert JoinWith(rest, sep) == rest[0] + [sep] + JoinWith(rest[1..], sep);
        }
      }
    }
  }

  /** A string without the separator splits into itself alone. */
  lemma {:induction false} SplitWithoutSeparator(s: string, sep: char)
    requires sep !in s
    ensures SplitOn(s, sep) == [s]
    decreases |s|
  {
    if s != [] {
      SplitWithoutSeparator(s[1..], sep);
      assert [s[0]] + s[1..] == s;
    }
  }

  lemma {:induction false} SplitAtFirstSeparator(a: string, b: string, sep: char)
    requires sep !in a
    ensures SplitOn(a + [sep] + b, sep) == [a] + SplitOn(b, sep)
    decreases |a|
  {
    if a == [] {
      assert a + [sep] + b == [sep] + b;
      assert ([sep] + b)[1..] == b;
    } else {
      SplitAtFirstSeparator(a[1..], b, sep);
      assert (a + [sep] + b)[1..] == a[1..] + [sep] + b;
      assert [a[0]] + a[1..] == a;
    }
  }

  /** The other direction of the round trip: pieces free of the separator
      are recovered by splitting their join. */
  lemma {:induction false} SplitJoin(pieces: seq<string>, sep: char)
    requires |pieces| >= 1
    requires forall i :: 0 <= i < |pieces| ==> sep !in pieces[i]
    ensures SplitOn(JoinWith(pieces, sep), sep) == pieces
    decreases |pieces|
  {
    if |pieces| == 1 {
      SplitWithoutSeparator(pieces[0], sep);
    } else {
      SplitJoin(pieces[1..], sep);
      SplitAtFirstSeparator(pieces[0], JoinWith(pieces[1..], sep), sep);
      assert [pieces[0]] + pieces[1..] == pieces;
    }
  }

  /** A joined sequence of at least two pieces contains the separator. */
  lemma JoinedHasSeparator(pieces: seq<string>, sep: char)
    requires |pieces| >= 2
    ensures sep in JoinWith(pieces, sep)
  {
    var j := JoinWith(pieces, sep);
    assert j == pieces[0] + [sep] + JoinWith(pieces[1..], sep);
    assert j[|pieces[0]|] == sep;
  }

  // --------------------------------------------------------- split(), strip

  /** `str.isspace` on the characters below 128. */
  predicate IsSpace(c: char)
  {
    c == ' ' || (9 <= c as int <= 13) || (28 <= c as int <= 31)
  }

  /** Length of the run of non-blank characters that starts `s`. */
  function WordEnd(s: string): (n: nat)
    ensures n <= |s|
    ensures forall i :: 0 <= i < n ==> !IsSpace(s[i])
    ensures n < |s| ==> IsSpace(s[n])
  {
    if s == [] || IsSpace(s[0]) then 0 else 1 + WordEnd(s[1..])
  }

  /** `s.split()`: the maximal runs of non-blank characters, in order. */
  function SplitWhitespace(s: string): (words: seq<string>)
    ensures forall i :: 0 <= i < |words| ==> words[i] != ""
    ensures forall i, j :: 0 <= i < |words| && 0 <= j < |words[i]| ==> !IsSpace(words[i][j])
    decreases |s|
  {
    if s == [] then []
    else if IsSpace(s[0]) then SplitWhitespace(s[1..])
    else
      var n := WordEnd(s);
      [s[..n]] + SplitWhitespace(s[n..])
  }

  /** The characters of `s` that are not blank, in order. */
  function NonBlank(s: string): string
  {
    if s == [] then [] else if IsSpace(s[0]) then NonBlank(s[1..]) else [s[0]] + NonBlank(s[1..])
  }

  function Flatten(words: seq<string>): string
  {
    if words == [] then [] else words[0] + Flatten(words[1..])
  }

  lemma {:induction false} NonBlankOfWord(s: string, n: nat)
    requires n <= |s|
    requires forall i :: 0 <= i < n ==> !IsSpace(s[i])
    ensures NonBlank(s) == s[..n] + NonBlank(s[n..])
    decreases n
  {
    if n > 0 {
      NonBlankOfWord(s[1..], n - 1);
      assert s[1..][n - 1..] == s[n..];
      assert s[..n] == [s[0]] + s[1..][..n - 1];
    }
  }

  /** A blank-free word followed by a blank or by nothing is the whole
      leading word. */
  lemma {:induction false} WordEndOfWord(w: string, rest: string)
    requires forall i :: 0 <= i < |w| ==> !IsSpace(w[i])
    requires rest == [] || IsSpace(rest[0])
    ensures WordEnd(w + rest) == |w|
    decreases |w|
  {
    if w != [] {
      WordEndOfWord(w[1..], rest);
      assert (w + rest)[1..] == w[1..] + rest;
    } else {
      assert w + rest == rest;
    }
  }

  /** The words are exactly the maximal blank-free runs: words joined by
      single spaces split back into those words. */
  lemma {:induction false} SplitWhitespaceJoin(words: seq<string>)
    requires forall i :: 0 <= i < |words| ==> words[i] != ""
    requires forall i, j :: 0 <= i < |words| && 0 <= j < |words[i]| ==> !IsSpace(words[i][j])
    ensures SplitWhitespace(JoinWith(words, ' ')) == words
    decreases |words|
  {
    if words != [] {
      var w := words[0];
      var rest := if |words| == 1 then "" else [' '] + JoinWith(words[1..], ' ');
      var s := w + rest;
      assert JoinWith(words, ' ') == s;
      WordEndOfWord(w, rest);
      assert s[..|w|] == w && s[|w|..] == rest;
      if |words| == 1 {
        assert words == [w];
      } else {
        SplitWhitespaceJoin(words[1..]);
        assert rest[1..] == JoinWith(words[1..], ' ');
        assert SplitWhitespace(rest) == SplitWhitespace(rest[1..]);
        assert words == [w] + words[1..];
      }
    }
  }

  /** `s.split()` keeps every non-blank character and drops only blanks. */
  lemma {:induction false} SplitWhitespaceKeepsText(s: string)
    ensures Flatten(SplitWhitespace(s)) == NonBlank(s)
    decreases |s|
  {
    if s != [] {
      if IsSpace(s[0]) {
        SplitWhitespaceKeepsText(s[1..]);
      } else {
        var n := WordEnd(s);
        SplitWhitespaceKeepsText(s[n..]);
        NonBlankOfWord(s, n);
        var words := SplitWhitespace(s);
        assert words == [s[..n]] + SplitWhitespace(s[n..]);
        assert words[1..] == SplitWhitespace(s[n..]);
      }
    }
  }

  /** `s.lstrip()`: `s` without exactly its leading blanks. */
  function TrimStart(s: string): (r: string)
    ensures r == [] || !IsSpace(r[0])
    ensures |r| <= |s| && r == s[|s| - |r|..]
    ensures forall i :: 0 <= i < |s| - |r| ==> IsSpace(s[i])
  {
    if s != [] && IsSpace(s[0]) then TrimStart(s[1..]) else s
  }

  /** `s.rstrip()`: `s` without exactly its trailing blanks. */
  function TrimEnd(s: string): (r: string)
    ensures r == [] || !IsSpace(r[|r| - 1])
    ensures |r| <= |s| && r == s[..|r|]
    ensures forall i :: |r| <= i < |s| ==> IsSpace(s[i])
  {
    if s != [] && IsSpace(s[|s| - 1]) then TrimEnd(s[..|s| - 1]) else s
  }

  /** `s.strip()`. */
  function Strip(s: string): string
  {
    TrimEnd(TrimStart(s))
  }

  // ------------------------------------------------------- digits and int()

  predicate IsDigit(c: char)
  {
    '0' <= c <= '9'
  }

  /** `s.isnumeric()` for ASCII input: non-empty and all decimal digits. */
  predicate IsNumeric(s: string)
  {
    |s| > 0 && forall i :: 0 <= i < |s| ==> IsDigit(s[i])
  }

  function CharValue(c: char): nat
    requires IsDigit(c)
  {
    c as int - '0' as int
  }

  /** The value of a string of decimal digits. */
  function DigitsValue(ds: string): (v: nat)
    requires forall i :: 0 <= i < |ds| ==> IsDigit(ds[i])
  {
    if ds == [] then 0
    else DigitsValue(ds[..|ds| - 1]) * 10 + CharValue(ds[|ds| - 1])
  }

  /** `int(s)` for base-10 text: surrounding blanks, an optional sign and at
      least one digit. `None` stands for the `ValueError` `int()` raises. */
  function ParseInt(s: string): Option<int>
  {
    var t := Strip(s);
    if |t| > 0 && (t[0] == '-' || t[0] == '+') then
      if IsNumeric(t[1..]) then
        Some(if t[0] == '-' then 0 - DigitsValue(t[1..]) else DigitsValue(t[1..]))
      else None
    else if IsNumeric(t) then Some(DigitsValue(t))
    else None
  }

  function DigitChar(d: nat): (c: char)
    requires d < 10
    ensures IsDigit(c) && CharValue(c) == d
  {
    ('0' as int + d) as char
  }

  /** `str(n)` for a natural number. */
  function Decimal(n: nat): (ds: string)
    ensures IsNumeric(ds)
  {
    if n < 10 then [DigitChar(n)] else Decimal(n / 10) + [DigitChar(n % 10)]
  }

  lemma {:induction false} DecimalValue(n: nat)
    ensures DigitsValue(Decimal(n)) == n
  {
    if n >= 10 {
      DecimalValue(n / 10);
      var ds := Decimal(n);
      assert ds[..|ds| - 1] == Decimal(n / 10);
    }
  }

  /** `int(str(n)) == n` and `int("-" + str(n)) == -n`. */
  lemma ParseDecimal(n: nat)
    ensures ParseInt(Decimal(n)) == Some(n)
    ensures ParseInt("-" + Decimal(n)) == Some(0 - n)
  {
    DecimalValue(n);
    var ds := Decimal(n);
    StripUnpadded(ds);
    var neg := "-" + ds;
    assert neg[|neg| - 1] == ds[|ds| - 1];
    StripUnpadded(neg);
    assert neg[1..] == ds;
  }

  /** A string that neither starts nor ends with a blank is its own strip. */
  lemma StripUnpadded(s: string)
    requires s != [] && !IsSpace(s[0]) && !IsSpace(s[|s| - 1])
    ensures Strip(s) == s
  {
    assert TrimStart(s) == s;
  }

  /** `int()` of a numeric answer is the number the digits spell. */
  lemma ParseNumeric(s: string)
    requires IsNumeric(s)
    ensures ParseInt(s) == Some(DigitsValue(s))
  {
    assert Strip(s) == s;
  }

  // --------------------------------------------------------- rfind, endswith

  /** `s.rfind(c)`: the last index holding `c`, or -1. */
  function RFind(s: string, c: char): (i: int)
    ensures -1 <= i < |s|
    ensures i == -1 <==> c !in s
    ensures 0 <= i ==> s[i] == c && c !in s[i + 1..]
  {
    if s == [] then -1
    else if s[|s| - 1] == c then |s| - 1
    else
      var i := RFind(s[..|s| - 1], c);
      assert s == s[..|s| - 1] + [s[|s| - 1]];
      assert 0 <= i ==> s[i + 1..] == s[..|s| - 1][i + 1..] + [s[|s| - 1]];
      i
  }

  /** `s.endswith(suffix)`. */
  predicate EndsWith(s: string, suffix: string)
  {
    |suffix| <= |s| && s[|s| - |suffix|..] == suffix
  }
}
