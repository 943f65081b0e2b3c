/**
 * The java.lang.String operations the framework uses, on `seq<char>`:
 * case mapping, `replaceAll(" ", "")`, `trim()`, `replaceAll(" +", " ")`
 * and `replaceAll("\n", "\n\t")`.
 */
module Strings {

  /** A character `String.trim()` strips: code point at most U+0020. */
  predicate IsTrimmable(c: char) {
    c <= ' '
  }

  /** Neither end of `s` is a trimmable character. */
  predicate Trimmed(s: string) {
    s == [] || (!IsTrimmable(s[0]) && !IsTrimmable(s[|s| - 1]))
  }

  /** `s` never holds two spaces side by side. */
  predicate NoDoubleSpace(s: string) {
    forall i :: 0 <= i < |s| - 1 ==> !(s[i] == ' ' && s[i + 1] == ' ')
  }

  predicate IsUpper(c: char) {
    'A' <= c <= 'Z'
  }

  predicate IsLower(c: char) {
    'a' <= c <= 'z'
  }

  function LowerChar(c: char): char {
    if IsUpper(c) then (c as int + 32) as char else c
  }

  function UpperChar(c: char): char {
    if IsLower(c) then (c as int - 32) as char else c
  }

  /** `String.toLowerCase()`, on the ASCII letters. */
  function ToLowerCase(s: string): (r: string)
    ensures |r| == |s|
    ensures forall i :: 0 <= i < |s| ==> r[i] == LowerChar(s[i])
  {
    seq(|s|, i requires 0 <= i < |s| => LowerChar(s[i]))
  }

  /** `String.toUpperCase()`, on the ASCII letters. */
  function ToUpperCase(s: string): (r: string)
    ensures |r| == |s|
    ensures forall i :: 0 <= i < |s| ==> r[i] == UpperChar(s[i])
  {
    seq(|s|, i requires 0 <= i < |s| => UpperChar(s[i]))
  }

  /** How many times `c` occurs in `s`. */
  function Occurrences(s: string, c: char): nat {
    if s == [] then 0 else (if s[0] == c then 1 else 0) + Occurrences(s[1..], c)
  }

  /** `s` with every occurrence of `c` deleted (`replaceAll` of a one-character literal by ""). */
  function Without(s: string, c: char): (r: string)
    ensures c !in r
    ensures |r| == |s| - Occurrences(s, c)
    ensures forall x :: x in r ==> x in s
  {
    if s == [] then []
    else
      (if s[0] == c then [] else [s[0]]) + Without(s[1..], c)
  }

  /** On a single character, `Without` deletes it when it is `c` and keeps it otherwise. */
  lemma WithoutOfChar(x: char, c: char)
    ensures Without([x], c) == if x == c then [] else [x]
  {
    assert [x][1..] == [];
  }

  /** Deleting a character from a concatenation deletes it from each part: the kept characters stay in order. */
  lemma {:induction false} WithoutConcat(a: string, b: string, c: char)
    ensures Without(a + b, c) == Without(a, c) + Without(b, c)
  {
    if a == [] {
      assert a + b == b;
    } else {
      var h := if a[0] == c then [] else [a[0]];
      assert (a + b)[0] == a[0] && (a + b)[1..] == a[1..] + b;
      WithoutConcat(a[1..], b, c);
      calc {
        Without(a + b, c);
        h + Without(a[1..] + b, c);
        h + (Without(a[1..], c) + Without(b, c));
        (h + Without(a[1..], c)) + Without(b, c);
        Without(a, c) + Without(b, c);
      }
    }
  }

  /** Lower-casing maps each part of a concatenation on its own. */
  lemma ToLowerCaseConcat(a: string, b: string)
    ensures ToLowerCase(a + b) == ToLowerCase(a) + ToLowerCase(b)
  {
  }

  /** Lower-casing turns no character into a space and no space into anything else. */
  lemma {:induction false} ToLowerCaseKeepsSpaces(s: string)
    ensures Occurrences(ToLowerCase(s), ' ') == Occurrences(s, ' ')
  {
    if s != [] {
      assert ToLowerCase(s)[1..] == ToLowerCase(s[1..]);
      ToLowerCaseKeepsSpaces(s[1..]);
    }
  }

  // ---------------------------------------------------------------- trim

  /** Drops the leading trimmable characters. */
  function TrimStart(s: string): (r: string)
    ensures |r| <= |s| && r == s[|s| - |r|..]
    ensures r == [] || !IsTrimmable(r[0])
    ensures forall i :: 0 <= i < |s| - |r| ==> IsTrimmable(s[i])
  {
    if s != [] && IsTrimmable(s[0]) then TrimStart(s[1..]) else s
  }

  /** Drops the trailing trimmable characters. */
  function TrimEnd(s: string): (r: string)
    ensures |r| <= |s| && r == s[..|r|]
    ensures r == [] || !IsTrimmable(r[|r| - 1])
    ensures forall i :: |r| <= i < |s| ==> IsTrimmable(s[i])
  {
    if s != [] && IsTrimmable(s[|s| - 1]) then TrimEnd(s[..|s| - 1]) else s
  }

  /** `String.trim()`. */
  function Trim(s: string): (r: string)
    ensures Trimmed(r)
  {
    TrimEnd(TrimStart(s))
  }

  lemma TrimOfTrimmed(s: string)
    requires Trimmed(s)
    ensures Trim(s) == s
  {
  }

  // ------------------------------------------------- collapse runs of spaces

  /** Drops the leading spaces (and only spaces). */
  function SkipSpaces(s: string): (r: string)
    ensures |r| <= |s| && r == s[|s| - |r|..]
    ensures r == [] || r[0] != ' '
    ensures forall i :: 0 <= i < |s| - |r| ==> s[i] == ' '
    ensures s != [] && s[0] == ' ' ==> |r| < |s|
  {
    if s != [] && s[0] == ' ' then SkipSpaces(s[1..]) else s
  }

  /**
   * `replaceAll(" +", " ")`: every maximal run of spaces, scanned left to
   * right, is replaced by one space.
   */
  function Collapse(s: string): (r: string)
    ensures |r| <= |s|
    ensures NoDoubleSpace(r)
    ensures r == [] <==> s == []
    ensures s != [] ==> r[0] == s[0] && r[|r| - 1] == s[|s| - 1]
    decreases |s|
  {
    if s == [] then []
    else if s[0] == ' ' then [' '] + Collapse(SkipSpaces(s))
    else [s[0]] + Collapse(s[1..])
  }

  /**
   * A second, independent definition of the same operation: a space is
   * dropped exactly when the character after it is a space too.
   */
  function Squeeze(s: string): (r: string)
  {
    if |s| <= 1 then s
    else if s[0] == ' ' && s[1] == ' ' then Squeeze(s[1..])
    else [s[0]] + Squeeze(s[1..])
  }

  lemma {:induction false} CollapseIsSqueeze(s: string)
    ensures Collapse(s) == Squeeze(s)
    decreases |s|
  {
    if |s| <= 1 {
    } else if s[0] == ' ' {
      CollapseIsSqueeze(s[1..]);
      if s[1] == ' ' {
        assert SkipSpaces(s) == SkipSpaces(s[1..]);
      } else {
        assert SkipSpaces(s) == s[1..];
        assert Collapse(s[1..]) == [s[1]] + Collapse(s[2..]);
      }
    } else {
      CollapseIsSqueeze(s[1..]);
    }
  }

  lemma {:induction false} CollapseOfNoDoubleSpace(s: string)
    requires NoDoubleSpace(s)
    ensures Collapse(s) == s
    decreases |s|
  {
    if s == [] {
    } else {
      assert NoDoubleSpace(s[1..]) by {
        forall i | 0 <= i < |s[1..]| - 1 ensures !(s[1..][i] == ' ' && s[1..][i + 1] == ' ') {
          assert s[1..][i] == s[i + 1] && s[1..][i + 1] == s[i + 2];
        }
      }
      CollapseOfNoDoubleSpace(s[1..]);
      if s[0] == ' ' {
        assert s[1..] == [] || s[1] != ' ';
        assert SkipSpaces(s) == s[1..];
      }
    }
  }

  /** Collapsing deletes spaces only: the other characters survive, in order. */
  lemma {:induction false} CollapseKeepsNonSpaces(s: string)
    ensures Without(Collapse(s), ' ') == Without(s, ' ')
    decreases |s|
  {
    if s == [] {
    } else if s[0] == ' ' {
      SkipSpacesKeepsNonSpaces(s);
      CollapseKeepsNonSpaces(SkipSpaces(s));
      assert ([' '] + Collapse(SkipSpaces(s)))[1..] == Collapse(SkipSpaces(s));
    } else {
      CollapseKeepsNonSpaces(s[1..]);
      assert ([s[0]] + Collapse(s[1..]))[1..] == Collapse(s[1..]);
    }
  }

  lemma {:induction false} SkipSpacesKeepsNonSpaces(s: string)
    ensures Without(SkipSpaces(s), ' ') == Without(s, ' ')
    decreases |s|
  {
    if s != [] && s[0] == ' ' {
      assert SkipSpaces(s) == SkipSpaces(s[1..]);
      assert Without(s, ' ') == [] + Without(s[1..], ' ');
      SkipSpacesKeepsNonSpaces(s[1..]);
    }
  }

  // ---------------------------------------------------------- normalisation

  /** `s.trim().replaceAll(" +", " ")`: the line normalisation of the framework. */
  function Normalize(s: string): (r: string)
    ensures Trimmed(r)
    ensures NoDoubleSpace(r)
    ensures |r| <= |s|
  {
    Collapse(Trim(s))
  }

  lemma NormalizeIdempotent(s: string)
    ensures Normalize(Normalize(s)) == Normalize(s)
  {
    var n := Normalize(s);
    TrimOfTrimmed(n);
    CollapseOfNoDoubleSpace(n);
  }

  /** Normalising deletes only blanks: the non-space characters of the trimmed line survive, in order. */
  lemma NormalizeKeepsWords(s: string)
    ensures Without(Normalize(s), ' ') == Without(Trim(s), ' ')
  {
    CollapseKeepsNonSpaces(Trim(s));
  }

  // ------------------------------------------------------------ indentation

  /** `replaceAll("\n", "\n\t")`: a tab after every line break. */
  function Indent(s: string): (r: string)
    ensures |r| >= |s|
  {
    if s == [] then []
    else (if s[0] == '\n' then "\n\t" else [s[0]]) + Indent(s[1..])
  }

  lemma {:induction false} IndentSingleLine(s: string)
    requires '\n' !in s
    ensures Indent(s) == s
  {
    if s != [] {
      IndentSingleLine(s[1..]);
    }
  }
}
