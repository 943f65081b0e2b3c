/**
 * The raw-input line reader: bytes typed at a raw-mode terminal are
 * gathered into a character buffer, with backspace/delete removing the
 * last character, until the enter key; every change is echoed; the
 * finished line is trimmed and its runs of spaces collapsed.
 *
 * The byte stream is a parameter (`System.in`) and the echo is returned
 * as a string (`System.out`).
 */
module InputUtil {
  import opened Wrappers
  import opened Strings

  /** The enter key. */
  const ENTER: bv8 := 10
  /** The backspace key of most terminals. */
  const DELETE: bv8 := 127
  /** The backspace key sent as ASCII BS. */
  const DELETE_NUMPAD: bv8 := 8

  /** The echo of one effective delete: back, blank, back. */
  const ERASE: string := "\U{8} \U{8}"

  /** Java's `(char) System.in.read()` of a byte that was read. */
  function CharOf(b: bv8): char {
    (b as int) as char
  }

  predicate IsDelete(b: bv8) {
    b == DELETE || b == DELETE_NUMPAD
  }

  /** The buffer after one byte: a delete removes the last character if there is one; anything else is appended. */
  function Apply(buf: seq<char>, b: bv8): (r: seq<char>)
    ensures IsDelete(b) ==> |r| == (if buf == [] then 0 else |buf| - 1) && r == buf[..|r|]
    ensures !IsDelete(b) ==> |r| == |buf| + 1 && r[..|buf|] == buf && r[|buf|] == CharOf(b)
  {
    if !IsDelete(b) then buf + [CharOf(b)]
    else if |buf| > 0 then buf[..|buf| - 1]
    else buf
  }

  /** What one byte echoes, given the buffer before it. */
  function EchoOf(buf: seq<char>, b: bv8): string
  {
    if !IsDelete(b) then [CharOf(b)]
    else if |buf| > 0 then ERASE
    else ""
  }

  /** The buffer after the given bytes, starting empty. */
  function Edits(bytes: seq<bv8>): seq<char>
  {
    if bytes == [] then []
    else Apply(Edits(bytes[..|bytes| - 1]), bytes[|bytes| - 1])
  }

  /** Everything the given bytes echo, starting from the empty buffer. */
  function Echoes(bytes: seq<bv8>): string
  {
    if bytes == [] then []
    else
      var init := bytes[..|bytes| - 1];
      Echoes(init) + EchoOf(Edits(init), bytes[|bytes| - 1])
  }

  lemma EditsSnoc(bytes: seq<bv8>, b: bv8)
    ensures Edits(bytes + [b]) == Apply(Edits(bytes), b)
    ensures Echoes(bytes + [b]) == Echoes(bytes) + EchoOf(Edits(bytes), b)
  {
    assert (bytes + [b])[..|bytes|] == bytes;
  }

  lemma PrefixStep(input: seq<bv8>, i: nat)
    requires i < |input|
    ensures Edits(input[..i + 1]) == Apply(Edits(input[..i]), input[i])
    ensures Echoes(input[..i + 1]) == Echoes(input[..i]) + EchoOf(Edits(input[..i]), input[i])
    ensures ENTER in input[..i + 1] <==> ENTER in input[..i] || input[i] == ENTER
    ensures input[..i + 1][..i] == input[..i]
  {
    assert input[..i + 1] == input[..i] + [input[i]];
    EditsSnoc(input[..i], input[i]);
  }

  /**
   * `InputUtil.readUserInput`. Reads bytes up to and including the first
   * ENTER; `consumed` is how many were read. When the input ends before an
   * ENTER, no line is returned.
   */
  method ReadUserInput(input: seq<bv8>) returns (line: Option<string>, consumed: nat, echo: string)
    ensures consumed <= |input|
    ensures echo == Echoes(input[..consumed])
    ensures line.Some? <==> ENTER in input
    ensures line.Some? ==> 0 < consumed && input[consumed - 1] == ENTER && ENTER !in input[..consumed - 1]
    ensures line.None? ==> consumed == |input|
    ensures line.Some? ==> line.value == Normalize(Edits(input[..consumed]))
    ensures line.Some? ==> Trimmed(line.value) && NoDoubleSpace(line.value)
  {
    var readNext := true;
    var resultChars: seq<char> := [];
    var i := 0;
    echo := "";
    while readNext && i < |input|
      invariant 0 <= i <= |input|
      invariant resultChars == Edits(input[..i])
      invariant echo == Echoes(input[..i])
      invariant readNext <==> ENTER !in input[..i]
      invariant !readNext ==> 0 < i && input[i - 1] == ENTER && ENTER !in input[..i - 1]
    {
      var deleted := false;
      var curr := input[i];
      PrefixStep(input, i);
      i := i + 1;
      if curr == ENTER {
        readNext := false;
      } else if IsDelete(curr) {
        deleted := true;
      }
      if !deleted {
        resultChars := resultChars + [CharOf(curr)];
        echo := echo + [CharOf(curr)];
      } else if |resultChars| > 0 {
        resultChars := resultChars[..|resultChars| - 1];
        echo := echo + ERASE;
      }
    }
    consumed := i;
    if readNext {
      assert input[..i] == input;
      line := None;
    } else {
      line := Some(Normalize(resultChars));
    }
  }

  // --------------------------------------------------------------- buffer

  /** A delete byte never lands in the buffer, nor does a backspace character. */
  lemma {:induction false} EditsHoldNoDeletes(bytes: seq<bv8>)
    ensures CharOf(DELETE) !in Edits(bytes) && CharOf(DELETE_NUMPAD) !in Edits(bytes)
  {
    if bytes != [] {
      var init := bytes[..|bytes| - 1];
      EditsHoldNoDeletes(init);
      var b := bytes[|bytes| - 1];
      if !IsDelete(b) {
        assert CharOf(b) != CharOf(DELETE) && CharOf(b) != CharOf(DELETE_NUMPAD);
      }
    }
  }

  /** The buffer never grows by more than one character per byte. */
  lemma {:induction false} EditsLength(bytes: seq<bv8>)
    ensures |Edits(bytes)| <= |bytes|
  {
    if bytes != [] {
      EditsLength(bytes[..|bytes| - 1]);
    }
  }

  /** Without deletes, the buffer is exactly the bytes typed, and so is the echo. */
  lemma {:induction false} EditsWithoutDeletes(bytes: seq<bv8>)
    requires forall k :: 0 <= k < |bytes| ==> !IsDelete(bytes[k])
    ensures Edits(bytes) == seq(|bytes|, k requires 0 <= k < |bytes| => CharOf(bytes[k]))
    ensures Echoes(bytes) == Edits(bytes)
  {
    if bytes != [] {
      EditsWithoutDeletes(bytes[..|bytes| - 1]);
    }
  }

  // ------------------------------------------------------------ the terminal

  /**
   * A terminal line as the echo leaves it: the cells written so far and
   * the cursor column. A backspace character moves the cursor one column
   * left (not past the first); any other character is written at the cursor,
   * which moves right.
   */
  datatype Screen = Screen(cells: seq<char>, cursor: nat)

  predicate WellFormed(sc: Screen) {
    sc.cursor <= |sc.cells|
  }

  function Display(sc: Screen, c: char): (r: Screen)
    requires WellFormed(sc)
    ensures WellFormed(r)
  {
    if c == CharOf(DELETE_NUMPAD) then Screen(sc.cells, if sc.cursor == 0 then 0 else sc.cursor - 1)
    else if sc.cursor < |sc.cells| then Screen(sc.cells[sc.cursor := c], sc.cursor + 1)
    else Screen(sc.cells + [c], sc.cursor + 1)
  }

  function Render(sc: Screen, text: string): (r: Screen)
    requires WellFormed(sc)
    ensures WellFormed(r)
    decreases |text|
  {
    if text == [] then sc else Render(Display(sc, text[0]), text[1..])
  }

  lemma {:induction false} RenderConcat(sc: Screen, a: string, b: string)
    requires WellFormed(sc)
    ensures Render(sc, a + b) == Render(Render(sc, a), b)
    decreases |a|
  {
    if a != [] {
      assert (a + b)[1..] == a[1..] + b;
      RenderConcat(Display(sc, a[0]), a[1..], b);
    } else {
      assert a + b == b;
    }
  }

  /** The screen shows exactly `buf` up to the cursor, and only blanks after it. */
  predicate Shows(sc: Screen, buf: seq<char>) {
    && sc.cursor == |buf| <= |sc.cells|
    && sc.cells[..|buf|] == buf
    && forall k :: |buf| <= k < |sc.cells| ==> sc.cells[k] == ' '
  }

  /** A byte the echo can show in one column: printable ASCII, or a delete. */
  predicate Typeable(b: bv8) {
    IsDelete(b) || (32 <= b < 127)
  }

  lemma EchoStep(sc: Screen, buf: seq<char>, b: bv8)
    requires WellFormed(sc) && Shows(sc, buf) && Typeable(b)
    ensures Shows(Render(sc, EchoOf(buf, b)), Apply(buf, b))
  {
    if !IsDelete(b) {
      assert Render(sc, [CharOf(b)]) == Display(sc, CharOf(b));
    } else if |buf| > 0 {
      var s1 := Display(sc, '\U{8}');
      var s2 := Display(s1, ' ');
      var s3 := Display(s2, '\U{8}');
      assert ERASE[1..][1..][1..] == [];
      assert Render(s2, ERASE[1..][1..]) == Render(s3, []);
      assert Render(sc, ERASE) == s3;
      assert s3.cells[..|buf| - 1] == buf[..|buf| - 1];
    }
  }

  /**
   * For bytes typed in one column each, the echo leaves the terminal
   * showing the buffer, with every deleted character blanked out.
   */
  lemma {:induction false} EchoShowsBuffer(bytes: seq<bv8>)
    requires forall k :: 0 <= k < |bytes| ==> Typeable(bytes[k])
    ensures Shows(Render(Screen([], 0), Echoes(bytes)), Edits(bytes))
  {
    if bytes != [] {
      var init := bytes[..|bytes| - 1];
      var b := bytes[|bytes| - 1];
      EchoShowsBuffer(init);
      RenderConcat(Screen([], 0), Echoes(init), EchoOf(Edits(init), b));
      EchoStep(Render(Screen([], 0), Echoes(init)), Edits(init), b);
    }
  }
}
