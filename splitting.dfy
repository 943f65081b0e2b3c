/**
 * Splitting a string at a separator character and joining it back:
 * the pieces between separators, their inverse `Join`, and Java's
 * `String.split` on a one-character literal, which drops trailing empty
 * pieces and returns the whole string when the separator does not occur.
 */
module Splitting {
  import opened Strings

  /** The pieces of `s` between occurrences of `sep`, empty pieces included. */
  function Pieces(s: string, sep: char): (r: seq<string>)
    ensures |r| >= 1
    ensures |r| == 1 ==> r[0] == s
    decreases |s|
  {
    if s == [] then [[]]
    else if s[0] == sep then [[]] + Pieces(s[1..], sep)
    else
      var p := Pieces(s[1..], sep);
      [[s[0]] + p[0]] + p[1..]
  }

  /** The pieces of `xs`, with `sep` between neighbours. */
  function Join(xs: seq<string>, sep: char): string
  {
    if |xs| == 0 then []
    else if |xs| == 1 then xs[0]
    else xs[0] + [sep] + Join(xs[1..], sep)
  }

  lemma {:induction false} JoinSnoc(xs: seq<string>, y: string, sep: char)
    requires |xs| >= 1
    ensures Join(xs + [y], sep) == Join(xs, sep) + [sep] + y
    decreases |xs|
  {
    if |xs| > 1 {
      assert (xs + [y])[1..] == xs[1..] + [y];
      JoinSnoc(xs[1..], y, sep);
    }
  }

  lemma JoinCons(x: string, xs: seq<string>, sep: char)
    requires |xs| >= 1
    ensures Join([x] + xs, sep) == x + [sep] + Join(xs, sep)
  {
    assert ([x] + xs)[1..] == xs;
  }

  /** No piece of `xs` holds `sep`. */
  predicate FreeOf(xs: seq<string>, sep: char) {
    forall i :: 0 <= i < |xs| ==> sep !in xs[i]
  }

  lemma {:induction false} PiecesOfSeparatorFree(s: string, sep: char)
    requires sep !in s
    ensures Pieces(s, sep) == [s]
    decreases |s|
  {
    if s != [] {
      PiecesOfSeparatorFree(s[1..], sep);
    }
  }

  lemma {:induction false} PiecesAreSeparatorFree(s: string, sep: char)
    ensures FreeOf(Pieces(s, sep), sep)
    decreases |s|
  {
    if s != [] {
      PiecesAreSeparatorFree(s[1..], sep);
    }
  }

  /** A separator splits the pieces of what precedes it from the pieces of what follows. */
  lemma {:induction false} PiecesAround(a: string, sep: char, b: string)
    ensures Pieces(a + [sep] + b, sep) == Pieces(a, sep) + Pieces(b, sep)
    decreases |a|
  {
    if a == [] {
      assert a + [sep] + b == [sep] + b;
      assert ([sep] + b)[1..] == b;
    } else {
      assert (a + [sep] + b)[1..] == a[1..] + [sep] + b;
      PiecesAround(a[1..], sep, b);
    }
  }

  /** `Join` of separator-free pieces is undone by `Pieces`. */
  lemma {:induction false} PiecesOfJoin(xs: seq<string>, sep: char)
    requires |xs| >= 1 && FreeOf(xs, sep)
    ensures Pieces(Join(xs, sep), sep) == xs
    decreases |xs|
  {
    if |xs| == 1 {
      PiecesOfSeparatorFree(xs[0], sep);
    } else {
      PiecesOfJoin(xs[1..], sep);
      PiecesAround(xs[0], sep, Join(xs[1..], sep));
      PiecesOfSeparatorFree(xs[0], sep);
    }
  }

  /** `Pieces` is undone by `Join`. */
  lemma {:induction false} JoinOfPieces(s: string, sep: char)
    ensures Join(Pieces(s, sep), sep) == s
    decreases |s|
  {
    if s != [] {
      JoinOfPieces(s[1..], sep);
      var p := Pieces(s[1..], sep);
      if s[0] == sep {
        assert ([[]] + p)[1..] == p;
      } else if |p| > 1 {
        assert ([[s[0]] + p[0]] + p[1..])[1..] == p[1..];
      }
    }
  }

  // ------------------------------------------------------- String.split

  /** The pieces without their trailing empty ones. */
  function DropTrailingEmpty(xs: seq<string>): (r: seq<string>)
    ensures |r| <= |xs| && r == xs[..|r|]
    ensures r == [] || r[|r| - 1] != []
    ensures forall i :: |r| <= i < |xs| ==> xs[i] == []
  {
    if xs != [] && xs[|xs| - 1] == [] then DropTrailingEmpty(xs[..|xs| - 1]) else xs
  }

  /**
   * Java's `s.split(String.valueOf(sep))`: the whole string when the
   * separator does not occur; otherwise the pieces between separators, in
   * order, with the trailing empty ones (and only those) dropped.
   */
  function JavaSplit(s: string, sep: char): (r: seq<string>)
    ensures sep !in s ==> r == [s]
    ensures FreeOf(r, sep)
    ensures sep in s ==> |r| <= |Pieces(s, sep)| && r == Pieces(s, sep)[..|r|]
    ensures sep in s ==> r == [] || r[|r| - 1] != []
    ensures sep in s ==> forall i :: |r| <= i < |Pieces(s, sep)| ==> Pieces(s, sep)[i] == []
  {
    PiecesAreSeparatorFree(s, sep);
    if sep !in s then [s] else DropTrailingEmpty(Pieces(s, sep))
  }

  /** Every piece is non-empty when `s` is, does not start or end with `sep` and never repeats it. */
  lemma {:induction false} PiecesNonEmpty(s: string, sep: char)
    requires s != [] && s[0] != sep && s[|s| - 1] != sep
    requires forall i :: 0 <= i < |s| - 1 ==> !(s[i] == sep && s[i + 1] == sep)
    ensures forall i :: 0 <= i < |Pieces(s, sep)| ==> Pieces(s, sep)[i] != []
    decreases |s|
  {
    var t := s[1..];
    if t != [] {
      if t[0] == sep {
        var u := t[1..];
        assert |s| >= 3 && u == s[2..];
        PiecesNonEmpty(u, sep);
        var p := Pieces(t, sep);
        assert p == [[]] + Pieces(u, sep);
        assert p[0] == [] && p[1..] == Pieces(u, sep);
        assert Pieces(s, sep) == [[s[0]] + p[0]] + p[1..];
        assert [s[0]] + p[0] == [s[0]];
      } else {
        PiecesNonEmpty(t, sep);
      }
    }
  }

  /**
   * On a normalised line, splitting at spaces gives the single token ""
   * for the empty line and otherwise non-empty, space-free tokens that
   * join back to the line.
   */
  lemma TokensOfNormalized(s: string)
    requires Trimmed(s) && NoDoubleSpace(s)
    ensures s == [] ==> JavaSplit(s, ' ') == [[]]
    ensures s != [] ==> |JavaSplit(s, ' ')| >= 1
    ensures s != [] ==> forall i :: 0 <= i < |JavaSplit(s, ' ')| ==> JavaSplit(s, ' ')[i] != [] && ' ' !in JavaSplit(s, ' ')[i]
    ensures Join(JavaSplit(s, ' '), ' ') == s
  {
    if s != [] {
      PiecesNonEmpty(s, ' ');
      PiecesAreSeparatorFree(s, ' ');
      JoinOfPieces(s, ' ');
    }
  }

  /** Joining non-empty, space-free tokens with spaces and splitting again gives the tokens back. */
  lemma SplitOfJoin(xs: seq<string>)
    requires |xs| >= 1 && FreeOf(xs, ' ')
    requires forall i :: 0 <= i < |xs| ==> xs[i] != []
    ensures JavaSplit(Join(xs, ' '), ' ') == xs
  {
    PiecesOfJoin(xs, ' ');
    if ' ' !in Join(xs, ' ') {
      PiecesOfSeparatorFree(Join(xs, ' '), ' ');
    }
  }

  // -------------------------------------------------------------- indentation

  /** The first piece unchanged, every later piece after a tab. */
  function TabbedAfterFirst(ps: seq<string>): (r: seq<string>)
    requires |ps| >= 1
    ensures |r| == |ps| && r[0] == ps[0]
    ensures forall i :: 1 <= i < |ps| ==> r[i] == "\t" + ps[i]
  {
    [ps[0]] + seq(|ps| - 1, i requires 0 <= i < |ps| - 1 => "\t" + ps[i + 1])
  }

  /** `replaceAll("\n", "\n\t")` puts a tab at the start of every line but the first. */
  lemma {:induction false} IndentLines(s: string)
    ensures Pieces(Indent(s), '\n') == TabbedAfterFirst(Pieces(s, '\n'))
    decreases |s|
  {
    if s != [] {
      IndentLines(s[1..]);
      IndentLinesStep(s);
    }
  }

  /** The step of `IndentLines` for a text that starts with one more character. */
  lemma IndentLinesStep(s: string)
    requires s != []
    requires Pieces(Indent(s[1..]), '\n') == TabbedAfterFirst(Pieces(s[1..], '\n'))
    ensures Pieces(Indent(s), '\n') == TabbedAfterFirst(Pieces(s, '\n'))
  {
    var p := Pieces(s[1..], '\n');
    var q := Pieces(Indent(s[1..]), '\n');
    PiecesCons(s[0], s[1..], '\n');
    if s[0] == '\n' {
      IndentBreak(s);
      PiecesCons('\n', ['\t'] + Indent(s[1..]), '\n');
      PiecesCons('\t', Indent(s[1..]), '\n');
      TabbedAfterBreak(p, q);
    } else {
      IndentChar(s);
      PiecesCons(s[0], Indent(s[1..]), '\n');
      TabbedAfterChar(s[0], p, q);
    }
  }

  lemma IndentBreak(s: string)
    requires s != [] && s[0] == '\n'
    ensures Indent(s) == ['\n'] + (['\t'] + Indent(s[1..]))
  {
  }

  lemma IndentChar(s: string)
    requires s != [] && s[0] != '\n'
    ensures Indent(s) == [s[0]] + Indent(s[1..])
  {
  }

  /** The pieces of a text that starts with `c`. */
  lemma PiecesCons(c: char, t: string, sep: char)
    ensures Pieces([c] + t, sep)
         == if c == sep then [[]] + Pieces(t, sep) else [[c] + Pieces(t, sep)[0]] + Pieces(t, sep)[1..]
  {
    assert ([c] + t)[1..] == t;
  }

  lemma TabbedAfterBreak(p: seq<string>, q: seq<string>)
    requires |p| >= 1 && q == TabbedAfterFirst(p)
    ensures [[]] + ([['\t'] + q[0]] + q[1..]) == TabbedAfterFirst([[]] + p)
  {
    var l := [[]] + ([['\t'] + q[0]] + q[1..]);
    var r := TabbedAfterFirst([[]] + p);
    forall i | 1 <= i < |l| ensures l[i] == r[i] {
      assert r[i] == "\t" + p[i - 1];
      if i > 1 {
        assert l[i] == q[i - 1];
      }
    }
  }

  lemma TabbedAfterChar(c: char, p: seq<string>, q: seq<string>)
    requires |p| >= 1 && q == TabbedAfterFirst(p)
    ensures [[c] + q[0]] + q[1..] == TabbedAfterFirst([[c] + p[0]] + p[1..])
  {
    var l := [[c] + q[0]] + q[1..];
    var r := TabbedAfterFirst([[c] + p[0]] + p[1..]);
    forall i | 1 <= i < |l| ensures l[i] == r[i] {
      assert l[i] == q[i] && r[i] == "\t" + p[i];
    }
  }

  /** Every piece after a tab. */
  function Tabbed(ps: seq<string>): (r: seq<string>)
    ensures |r| == |ps|
    ensures forall i :: 0 <= i < |ps| ==> r[i] == "\t" + ps[i]
  {
    seq(|ps|, i requires 0 <= i < |ps| => "\t" + ps[i])
  }

  /** A tab before the indented text puts a tab at the start of every one of its lines. */
  lemma IndentedLines(s: string)
    ensures Pieces("\t" + Indent(s), '\n') == Tabbed(Pieces(s, '\n'))
  {
    IndentLines(s);
    var t := "\t" + Indent(s);
    var p := Pieces(s, '\n');
    var q := Pieces(Indent(s), '\n');
    assert t[0] == '\t' && t[1..] == Indent(s);
    var r := Pieces(t, '\n');
    assert r == [['\t'] + q[0]] + q[1..];
    assert |r| == |p|;
    forall i | 0 <= i < |p| ensures r[i] == "\t" + p[i] {
      if i > 0 {
        assert r[i] == q[i];
      }
    }
  }

  // ------------------------------------------------------------------- lines

  /** Each line after a line break: what appending "\n" + line for every line produces. */
  function Lines(ls: seq<string>): string
  {
    if ls == [] then []
    else Lines(ls[..|ls| - 1]) + "\n" + ls[|ls| - 1]
  }

  lemma LinesSnoc(ls: seq<string>, x: string)
    ensures Lines(ls + [x]) == Lines(ls) + "\n" + x
  {
    assert (ls + [x])[..|ls|] == ls;
  }

  lemma LinesOne(x: string)
    ensures Lines([x]) == "\n" + x
  {
    assert [x][..0] == [];
    assert [] + "\n" + x == "\n" + x;
  }

  lemma {:induction false} LinesConcat(a: seq<string>, b: seq<string>)
    ensures Lines(a + b) == Lines(a) + Lines(b)
    decreases |b|
  {
    if b == [] {
      assert a + b == a;
    } else {
      var init := b[..|b| - 1];
      LinesConcat(a, init);
      assert (a + b)[..|a + b| - 1] == a + init;
    }
  }

  /** A text followed by lines is the text and the lines joined with line breaks. */
  lemma {:induction false} LinesJoin(head: string, ls: seq<string>)
    ensures head + Lines(ls) == Join([head] + ls, '\n')
    decreases |ls|
  {
    if ls == [] {
      assert [head] + ls == [head];
    } else {
      var init := ls[..|ls| - 1];
      LinesJoin(head, init);
      assert Lines(ls) == Lines(init) + "\n" + ls[|ls| - 1];
      assert head + Lines(ls) == (head + Lines(init)) + ['\n'] + ls[|ls| - 1];
      assert [head] + ls == ([head] + init) + [ls[|ls| - 1]];
      JoinSnoc([head] + init, ls[|ls| - 1], '\n');
    }
  }

  /** Splitting at line breaks recovers the text and the lines that follow it. */
  lemma PiecesOfLines(head: string, ls: seq<string>)
    requires '\n' !in head && FreeOf(ls, '\n')
    ensures Pieces(head + Lines(ls), '\n') == [head] + ls
  {
    LinesJoin(head, ls);
    PiecesOfJoin([head] + ls, '\n');
  }

  /** A text is the lines of its own pieces, after a line break. */
  lemma LinesOfText(text: string)
    ensures Lines(Pieces(text, '\n')) == "\n" + text
  {
    var t := Pieces(text, '\n');
    JoinOfPieces(text, '\n');
    LinesJoin("", t);
    JoinCons("", t, '\n');
    assert "" + Lines(t) == Lines(t);
    assert "" + ['\n'] + text == "\n" + text;
  }

  /** A tab before each piece adds no separator. */
  lemma TabbedFree(ps: seq<string>, sep: char)
    requires FreeOf(ps, sep) && sep != '\t'
    ensures FreeOf(Tabbed(ps), sep)
  {
    forall i | 0 <= i < |ps| ensures sep !in Tabbed(ps)[i] {
      assert Tabbed(ps)[i] == "\t" + ps[i];
    }
  }

  lemma FreeOfConcat(a: seq<string>, b: seq<string>, sep: char)
    ensures FreeOf(a + b, sep) <==> FreeOf(a, sep) && FreeOf(b, sep)
  {
    if FreeOf(a, sep) && FreeOf(b, sep) {
      forall i | 0 <= i < |a + b| ensures sep !in (a + b)[i] {
        if i >= |a| {
          assert (a + b)[i] == b[i - |a|];
        }
      }
    }
    if FreeOf(a + b, sep) {
      forall i | 0 <= i < |a| ensures sep !in a[i] {
        assert (a + b)[i] == a[i];
      }
      forall i | 0 <= i < |b| ensures sep !in b[i] {
        assert (a + b)[|a| + i] == b[i];
      }
    }
  }

  /** Text made only of lines after line breaks splits into an empty first line and those lines. */
  lemma PiecesOfLinesOnly(ls: seq<string>)
    requires FreeOf(ls, '\n')
    ensures Pieces(Lines(ls), '\n') == [""] + ls
  {
    assert "" + Lines(ls) == Lines(ls);
    PiecesOfLines("", ls);
  }

  lemma SeqAssoc<T>(a: seq<T>, b: seq<T>, c: seq<T>, d: seq<T>)
    ensures a + (b + c + d) == a + b + c + d
  {
  }

  /** Two lines and then more. */
  lemma LinesTwoThen(a: string, b: string, t: seq<string>)
    ensures Lines([a, b] + t) == "\n" + a + "\n" + b + Lines(t)
    ensures FreeOf([a, b] + t, '\n') <==> '\n' !in a && '\n' !in b && FreeOf(t, '\n')
  {
    LinesConcat([a, b], t);
    LinesOne(a);
    LinesSnoc([a], b);
    assert [a] + [b] == [a, b];
    FreeOfConcat([a, b], t, '\n');
  }

  lemma LinesFour(a: string, b: string, c: string, d: string)
    ensures Lines([a, b, c, d]) == "\n" + a + "\n" + b + "\n" + c + "\n" + d
  {
    LinesOne(a);
    LinesSnoc([a], b);
    assert [a] + [b] == [a, b];
    LinesSnoc([a, b], c);
    assert [a, b] + [c] == [a, b, c];
    LinesSnoc([a, b, c], d);
    assert [a, b, c] + [d] == [a, b, c, d];
  }

  /** A line break, a first line, then two groups of lines: the pieces are an empty line, the first line and the two groups. */
  lemma PiecesAfterHeader(x: string, ys: seq<string>, zs: seq<string>)
    requires '\n' !in x && FreeOf(ys, '\n') && FreeOf(zs, '\n')
    ensures Pieces("\n" + x + Lines(ys) + Lines(zs), '\n') == ["", x] + ys + zs
  {
    var ls := [x] + ys + zs;
    LinesConcat([x] + ys, zs);
    LinesConcat([x], ys);
    LinesOne(x);
    FreeOfConcat([x], ys, '\n');
    FreeOfConcat([x] + ys, zs, '\n');
    PiecesOfLinesOnly(ls);
    SeqAssoc([""], [x], ys, zs);
    assert [""] + [x] == ["", x];
  }

  lemma AppendAssoc<T>(a: seq<T>, b: seq<T>, c: seq<T>)
    ensures a + b + c == a + (b + c)
  {
  }
}
