/**
 * Command descriptors: `Command`, its subclass `IndefCommand` (declared in
 * IndefiniteCommand.java) and that one's subclass `BoundedCommand`.
 *
 * The three Java classes are one Dafny class here; the constant `kind`
 * says which class an object was built as, and `Usage` dispatches on it
 * the way Java's overriding of `getUsage` does.
 */
module Commands {
  import opened Wrappers
  import opened Lang
  import opened Strings
  import opened Splitting
  import opened Decimal

  /** The class an object was constructed as; a bounded command keeps its parameter range. */
  datatype Kind = PlainCommand | IndefCommand | BoundedCommand(min: int32, max: int32)

  /** `name.toLowerCase().replaceAll(" ", "")`. */
  function DefaultReference(name: string): (r: string)
    ensures ' ' !in r
    ensures |r| == |name| - Occurrences(name, ' ')
    ensures forall c :: c in r ==> !IsUpper(c)
  {
    ToLowerCaseKeepsSpaces(name);
    Without(ToLowerCase(name), ' ')
  }

  /** The default reference of a name is built piece by piece: that of each part, in order. */
  lemma DefaultReferenceConcat(a: string, b: string)
    ensures DefaultReference(a + b) == DefaultReference(a) + DefaultReference(b)
  {
    ToLowerCaseConcat(a, b);
    WithoutConcat(ToLowerCase(a), ToLowerCase(b), ' ');
  }

  /** A space contributes nothing; any other character contributes its lower-case form. */
  lemma DefaultReferenceOfChar(x: char)
    ensures DefaultReference([x]) == if x == ' ' then [] else [LowerChar(x)]
  {
    assert ToLowerCase([x]) == [LowerChar(x)];
    assert [LowerChar(x)][1..] == [];
  }

  /** The command named "Command 1" answers to "command1". */
  lemma DefaultReferenceOfCommandOne()
    ensures DefaultReference("Command 1") == "command1"
  {
    CommandOneParts();
    DefaultReferenceSpaceThen("Command", '1');
    DefaultReferenceOfWord();
    CommandOneSpelled();
  }

  /** A space then one more character: the space is dropped, the character lower-cased. */
  lemma DefaultReferenceSpaceThen(a: string, y: char)
    ensures DefaultReference(a + [' '] + [y]) == DefaultReference(a) + (if y == ' ' then [] else [LowerChar(y)])
  {
    DefaultReferenceConcat(a + [' '], [y]);
    DefaultReferenceConcat(a, [' ']);
    DefaultReferenceOfChar(' ');
    DefaultReferenceOfChar(y);
  }

  lemma CommandOneParts()
    ensures "Command 1" == "Command" + [' '] + ['1']
  {
  }

  lemma DefaultReferenceOfWord()
    ensures DefaultReference("Command") == "command"
  {
    assert ToLowerCase("Command") == "command";
    WithoutAbsent("command", ' ');
  }

  lemma CommandOneSpelled()
    ensures "command" + [LowerChar('1')] == "command1"
  {
  }

  lemma {:induction false} WithoutAbsent(s: string, c: char)
    requires c !in s
    ensures Without(s, c) == s
  {
    if s != [] {
      WithoutAbsent(s[1..], c);
    }
  }

  /** A default reference is its own default reference. */
  lemma DefaultReferenceIdempotent(name: string)
    ensures DefaultReference(DefaultReference(name)) == DefaultReference(name)
  {
    var d := DefaultReference(name);
    assert ToLowerCase(d) == d;
    WithoutAbsent(d, ' ');
  }

  // ------------------------------------------------------------ Command usage

  const USAGE_PREFIX: string := "Usage: ~$ "

  /** The tail `getUsage` appends for the parameters: " <p>" for each, in order. */
  function ParamsUsage(params: seq<string>): string
  {
    if params == [] then []
    else ParamsUsage(params[..|params| - 1]) + " <" + params[|params| - 1] + ">"
  }

  /** `Command.getUsage()` for a parameter list that is present. */
  function ListedUsage(defaultReference: string, params: seq<string>): (r: string)
    ensures |r| >= |USAGE_PREFIX + defaultReference| && r[..|USAGE_PREFIX + defaultReference|] == USAGE_PREFIX + defaultReference
    ensures params == [] ==> r == USAGE_PREFIX + defaultReference
  {
    USAGE_PREFIX + defaultReference + ParamsUsage(params)
  }

  /** Each parameter name between angle brackets. */
  function Bracketed(params: seq<string>): (r: seq<string>)
    ensures |r| == |params|
  {
    seq(|params|, i requires 0 <= i < |params| => "<" + params[i] + ">")
  }

  /** The usage line is the words "Usage:", "~$", the reference and one "<p>" per parameter, separated by single spaces. */
  lemma {:induction false} ListedUsageWords(defaultReference: string, params: seq<string>)
    ensures ListedUsage(defaultReference, params) == Join(["Usage:", "~$", defaultReference] + Bracketed(params), ' ')
    decreases |params|
  {
    var head := ["Usage:", "~$", defaultReference];
    if params == [] {
      assert head + Bracketed(params) == head;
      UsageHeadJoin(defaultReference);
    } else {
      var init := params[..|params| - 1];
      var p := params[|params| - 1];
      ListedUsageWords(defaultReference, init);
      assert head + Bracketed(params) == (head + Bracketed(init)) + ["<" + p + ">"];
      JoinSnoc(head + Bracketed(init), "<" + p + ">", ' ');
      ListedUsageStep(defaultReference, params);
    }
  }

  lemma UsageHeadJoin(defaultReference: string)
    ensures Join(["Usage:", "~$", defaultReference], ' ') == USAGE_PREFIX + defaultReference
  {
    var head := ["Usage:", "~$", defaultReference];
    assert head[1..] == ["~$", defaultReference] && head[1..][1..] == [defaultReference];
    assert Join(head[1..], ' ') == "~$" + [' '] + defaultReference;
    assert Join(head, ' ') == "Usage:" + [' '] + ("~$" + [' '] + defaultReference);
  }

  /** One more parameter adds a space and the bracketed name. */
  lemma ListedUsageStep(defaultReference: string, params: seq<string>)
    requires params != []
    ensures ListedUsage(defaultReference, params)
         == ListedUsage(defaultReference, params[..|params| - 1]) + [' '] + ("<" + params[|params| - 1] + ">")
  {
    var init := params[..|params| - 1];
    var p := params[|params| - 1];
    assert ParamsUsage(params) == ParamsUsage(init) + " <" + p + ">";
    assert " <" + p + ">" == [' '] + ("<" + p + ">");
  }

  /**
   * For a space-free, non-empty reference and space-free parameter names,
   * splitting the usage line at spaces recovers the reference and each
   * parameter, in order.
   */
  lemma ListedUsageSplits(defaultReference: string, params: seq<string>)
    requires defaultReference != [] && ' ' !in defaultReference
    requires forall i :: 0 <= i < |params| ==> ' ' !in params[i]
    ensures JavaSplit(ListedUsage(defaultReference, params), ' ') == ["Usage:", "~$", defaultReference] + Bracketed(params)
  {
    ListedUsageWords(defaultReference, params);
    var words := ["Usage:", "~$", defaultReference] + Bracketed(params);
    forall i | 3 <= i < |words| ensures ' ' !in words[i] {
      assert words[i] == "<" + params[i - 3] + ">";
    }
    SplitOfJoin(words);
  }

  // -------------------------------------------------------- IndefCommand usage

  /** The parameter summary used when none was set. */
  const DEFAULT_SUMMARY: string := " <Parameters> ..."

  function SummaryText(paramSummary: Option<string>): string {
    if paramSummary.Some? then paramSummary.value else DEFAULT_SUMMARY
  }

  /** One "OR" line per alternate reference. */
  function OrLine(reference: string): string {
    "       OR " + reference + " ~"
  }

  /** The tail `getUsage` appends for the references: a line break and an "OR" line for each, in order. */
  function OrLines(references: seq<string>): string
  {
    if references == [] then []
    else OrLines(references[..|references| - 1]) + "\n" + OrLine(references[|references| - 1])
  }

  /** `IndefCommand.getUsage()`. */
  function IndefiniteUsage(defaultReference: string, paramSummary: Option<string>, usageReset: Option<string>,
                           references: seq<string>, usageAppend: Option<string>): (r: string)
    ensures usageReset.Some? ==> r == usageReset.value
    ensures usageReset.None? ==> |r| >= |USAGE_PREFIX + defaultReference + SummaryText(paramSummary)|
    ensures usageReset.None? ==> r[..|USAGE_PREFIX + defaultReference + SummaryText(paramSummary)|] == USAGE_PREFIX + defaultReference + SummaryText(paramSummary)
  {
    if usageReset.Some? then usageReset.value
    else
      USAGE_PREFIX + defaultReference + SummaryText(paramSummary) + OrLines(references)
      + (if usageAppend.Some? then "\n" + usageAppend.value else "")
  }

  function OrLineList(references: seq<string>): (r: seq<string>)
    ensures |r| == |references|
  {
    seq(|references|, i requires 0 <= i < |references| => OrLine(references[i]))
  }

  lemma {:induction false} OrLinesJoin(head: string, references: seq<string>)
    ensures head + OrLines(references) == Join([head] + OrLineList(references), '\n')
    decreases |references|
  {
    if references == [] {
      assert [head] + OrLineList(references) == [head];
    } else {
      var init := references[..|references| - 1];
      var r := references[|references| - 1];
      OrLinesJoin(head, init);
      assert [head] + OrLineList(references) == ([head] + OrLineList(init)) + [OrLine(r)];
      JoinSnoc([head] + OrLineList(init), OrLine(r), '\n');
      OrLinesStep(head, references);
    }
  }

  /** One more reference adds a line break and its "OR" line. */
  lemma OrLinesStep(head: string, references: seq<string>)
    requires references != []
    ensures head + OrLines(references)
         == head + OrLines(references[..|references| - 1]) + ['\n'] + OrLine(references[|references| - 1])
  {
    var x := OrLines(references[..|references| - 1]);
    var o := OrLine(references[|references| - 1]);
    assert OrLines(references) == x + "\n" + o;
    SeqAssoc(head, x, "\n", o);
  }

  /** No "OR" line holds a line break when no reference does. */
  lemma OrLineListFree(references: seq<string>)
    requires forall i :: 0 <= i < |references| ==> '\n' !in references[i]
    ensures FreeOf(OrLineList(references), '\n')
  {
    forall i | 0 <= i < |references| ensures '\n' !in OrLineList(references)[i] {
      assert OrLineList(references)[i] == "       OR " + references[i] + " ~";
    }
  }

  /** The usage is the usage line, the "OR" lines and the appended text, joined with line breaks. */
  lemma IndefiniteUsageJoin(defaultReference: string, paramSummary: Option<string>,
                            references: seq<string>, usageAppend: Option<string>)
    ensures IndefiniteUsage(defaultReference, paramSummary, None, references, usageAppend)
         == Join([USAGE_PREFIX + defaultReference + SummaryText(paramSummary)] + OrLineList(references)
                 + (if usageAppend.Some? then [usageAppend.value] else []), '\n')
  {
    var head := USAGE_PREFIX + defaultReference + SummaryText(paramSummary);
    var lines := [head] + OrLineList(references);
    OrLinesJoin(head, references);
    if usageAppend.Some? {
      JoinSnoc(lines, usageAppend.value, '\n');
    } else {
      assert lines + [] == lines;
    }
  }

  /**
   * Without a usage reset, and with single-line parts, the usage has the
   * lines: the usage line with the summary, one "OR" line per reference in
   * order, then the appended text if there is one.
   */
  lemma IndefiniteUsageLines(defaultReference: string, paramSummary: Option<string>,
                             references: seq<string>, usageAppend: Option<string>)
    requires '\n' !in defaultReference && '\n' !in SummaryText(paramSummary)
    requires forall i :: 0 <= i < |references| ==> '\n' !in references[i]
    requires usageAppend.Some? ==> '\n' !in usageAppend.value
    ensures Pieces(IndefiniteUsage(defaultReference, paramSummary, None, references, usageAppend), '\n')
         == [USAGE_PREFIX + defaultReference + SummaryText(paramSummary)] + OrLineList(references)
            + (if usageAppend.Some? then [usageAppend.value] else [])
  {
    var head := USAGE_PREFIX + defaultReference + SummaryText(paramSummary);
    var tail := if usageAppend.Some? then [usageAppend.value] else [];
    IndefiniteUsageJoin(defaultReference, paramSummary, references, usageAppend);
    assert '\n' !in USAGE_PREFIX;
    assert '\n' !in head;
    OrLineListFree(references);
    FreeOfConcat([head], OrLineList(references), '\n');
    FreeOfConcat([head] + OrLineList(references), tail, '\n');
    PiecesOfJoin([head] + OrLineList(references) + tail, '\n');
  }

  // ------------------------------------------------------- BoundedCommand range

  /** What follows the minimum and its comma in the minimum-only constructor's message. */
  const OPEN_RANGE_TAIL: string := "\U{221E}) is not a valid parameter range!"

  /** What follows the maximum in the two-bound constructor's message. */
  const CLOSED_RANGE_TAIL: string := "] is not a valid parameter range!"

  /**
   * The message of the minimum-only constructor's exception: after the
   * opening bracket, the minimum, then the infinity sign after its comma.
   */
  function LowerBoundMessage(min: int32): (r: string)
    ensures |r| >= 1 && r[0] == '['
    ensures Pieces(r[1..], ',') == [IntToString(min as int), OPEN_RANGE_TAIL]
  {
    var lo := IntToString(min as int);
    NoCommaInNumber(min as int);
    TailsCommaFree();
    TwoPieces(lo, OPEN_RANGE_TAIL, ',');
    "[" + (lo + [','] + OPEN_RANGE_TAIL)
  }

  /**
   * The message of the two-bound constructor's exception: after the
   * opening bracket, the minimum and, after its comma, the maximum.
   */
  function RangeMessage(min: int32, max: int32): (r: string)
    ensures |r| >= 1 && r[0] == '['
    ensures Pieces(r[1..], ',') == [IntToString(min as int), IntToString(max as int) + CLOSED_RANGE_TAIL]
  {
    var lo, hi := IntToString(min as int), IntToString(max as int) + CLOSED_RANGE_TAIL;
    NoCommaInNumber(min as int);
    NoCommaInNumber(max as int);
    TailsCommaFree();
    assert ',' !in hi;
    TwoPieces(lo, hi, ',');
    "[" + (lo + [','] + hi)
  }

  lemma TailsCommaFree()
    ensures ',' !in OPEN_RANGE_TAIL && ',' !in CLOSED_RANGE_TAIL
  {
  }

  /** Two separator-free parts around one separator split back into the two parts. */
  lemma TwoPieces(lo: string, hi: string, sep: char)
    requires sep !in lo && sep !in hi
    ensures Pieces(lo + [sep] + hi, sep) == [lo, hi]
  {
    PiecesAround(lo, sep, hi);
    PiecesOfSeparatorFree(lo, sep);
    PiecesOfSeparatorFree(hi, sep);
  }

  /** What `BoundedCommand(name, description, logic, min)` throws, if anything. */
  function CheckLowerBound(min: int32): (r: Option<Exception>)
    ensures r.Some? <==> min < 0
    ensures r.Some? ==> r.value.IllegalArgumentException?
  {
    if min < 0 then Some(IllegalArgumentException(LowerBoundMessage(min))) else None
  }

  /** What `BoundedCommand(name, description, logic, min, max)` throws, if anything; equal bounds are refused. */
  function CheckRange(min: int32, max: int32): (r: Option<Exception>)
    ensures r.Some? <==> min < 0 || min >= max
    ensures r.None? ==> 0 <= min < max
    ensures r.Some? ==> r.value.IllegalArgumentException?
  {
    if min < 0 || min >= max then Some(IllegalArgumentException(RangeMessage(min, max))) else None
  }

  lemma NoCommaInNumber(i: int)
    ensures ',' !in IntToString(i)
  {
    var r := IntToString(i);
    if i < 0 {
      assert r == "-" + NatToString(-i);
      assert forall k :: 1 <= k < |r| ==> r[k] == NatToString(-i)[k - 1];
    }
  }

  // ------------------------------------------------------------------ objects

  /** Copies the parameter list the command logic supplies, when it supplies one. */
  method CopyParams(logicParams: Option<seq<string>>) returns (params: Option<seq<string>>)
    ensures params == logicParams
  {
    if logicParams.None? {
      return None;
    }
    var paramList := logicParams.value;
    var copy: seq<string> := [];
    for i := 0 to |paramList|
      invariant |copy| == i
      invariant forall k :: 0 <= k < i ==> copy[k] == paramList[k]
    {
      copy := copy + [paramList[i]];
    }
    assert copy == paramList;
    params := Some(copy);
  }

  class Command {
    const name: string
    const description: string
    const defaultReference: string
    /** The parameter names, or None when the logic supplied no list (Java leaves the array null). */
    const params: Option<seq<string>>
    const kind: Kind
    var alternateReferences: seq<string>
    /** `IndefCommand.paramSummary`. */
    var paramSummary: Option<string>
    /** What the usage reset / usage append accessors that `IndefCommand` calls return; they are not part of this model. */
    var usageReset: Option<string>
    var usageAppend: Option<string>

    /** `new Command(name, description, logic)`; `logicParams` is what `logic.getParams()` returns. */
    constructor(name: string, description: string, logicParams: Option<seq<string>>)
      ensures this.name == name && this.description == description
      ensures defaultReference == DefaultReference(name) && params == logicParams
      ensures kind == PlainCommand && alternateReferences == []
      ensures paramSummary == None && usageReset == None && usageAppend == None
    {
      this.name := name;
      this.description := description;
      this.defaultReference := DefaultReference(name);
      var copy := CopyParams(logicParams);
      this.params := copy;
      this.kind := PlainCommand;
      this.alternateReferences := [];
      this.paramSummary, this.usageReset, this.usageAppend := None, None, None;
    }

    /** `new IndefCommand(name, description, logic)`. */
    constructor Indefinite(name: string, description: string, logicParams: Option<seq<string>>)
      ensures this.name == name && this.description == description
      ensures defaultReference == DefaultReference(name) && params == logicParams
      ensures kind == IndefCommand && alternateReferences == []
      ensures paramSummary == None && usageReset == None && usageAppend == None
    {
      this.name := name;
      this.description := description;
      this.defaultReference := DefaultReference(name);
      var copy := CopyParams(logicParams);
      this.params := copy;
      this.kind := IndefCommand;
      this.alternateReferences := [];
      this.paramSummary, this.usageReset, this.usageAppend := None, None, None;
    }

    /** The field assignments of the `BoundedCommand` constructors, once the range was accepted. */
    constructor Bounded(name: string, description: string, logicParams: Option<seq<string>>, min: int32, max: int32)
      requires 0 <= min <= max
      ensures this.name == name && this.description == description
      ensures defaultReference == DefaultReference(name) && params == logicParams
      ensures kind == BoundedCommand(min, max) && alternateReferences == []
      ensures paramSummary == None && usageReset == None && usageAppend == None
    {
      this.name := name;
      this.description := description;
      this.defaultReference := DefaultReference(name);
      var copy := CopyParams(logicParams);
      this.params := copy;
      this.kind := BoundedCommand(min, max);
      this.alternateReferences := [];
      this.paramSummary, this.usageReset, this.usageAppend := None, None, None;
    }

    /** `addPossibleReference`: appends, leaving the earlier references as they were. */
    method AddPossibleReference(reference: string)
      modifies this
      ensures alternateReferences == old(alternateReferences) + [reference]
      ensures paramSummary == old(paramSummary) && usageReset == old(usageReset) && usageAppend == old(usageAppend)
    {
      alternateReferences := alternateReferences + [reference];
    }

    /** `IndefCommand.setParamSummary`: replaces the summary and returns the same object. */
    method SetParamSummary(summary: Option<string>) returns (self: Command)
      requires !kind.PlainCommand?
      modifies this
      ensures self == this && paramSummary == summary
      ensures alternateReferences == old(alternateReferences)
      ensures usageReset == old(usageReset) && usageAppend == old(usageAppend)
    {
      paramSummary := summary;
      self := this;
    }

    /**
     * `getUsage()`: `Command`'s version for a plain command, which throws a
     * NullPointerException when there is no parameter list, and
     * `IndefCommand`'s override for the other two kinds.
     */
    function Usage(): (r: Result<string, Exception>)
      reads this
      ensures kind.PlainCommand? ==> (r.Failure? <==> params.None?)
      ensures r.Failure? ==> r.error == NullPointerException
      ensures kind.PlainCommand? && params.Some? ==>
                r.Success? && |r.value| >= |USAGE_PREFIX + defaultReference|
                && r.value[..|USAGE_PREFIX + defaultReference|] == USAGE_PREFIX + defaultReference
      ensures !kind.PlainCommand? && usageReset.Some? ==> r == Success(usageReset.value)
    {
      if kind.PlainCommand? then
        if params.None? then Failure(NullPointerException)
        else Success(ListedUsage(defaultReference, params.value))
      else
        Success(IndefiniteUsage(defaultReference, paramSummary, usageReset, alternateReferences, usageAppend))
    }
  }

  /** `new BoundedCommand(name, description, logic, min)`: the maximum is `Integer.MAX_VALUE`. */
  method NewBoundedCommand(name: string, description: string, logicParams: Option<seq<string>>, min: int32)
    returns (r: Result<Command, Exception>)
    ensures r.Failure? <==> min < 0
    ensures r.Failure? ==> r.error == IllegalArgumentException(LowerBoundMessage(min))
    ensures r.Success? ==> fresh(r.value) && r.value.kind == BoundedCommand(min, INT_MAX)
    ensures r.Success? ==> r.value.name == name && r.value.description == description && r.value.params == logicParams
    ensures r.Success? ==> r.value.defaultReference == DefaultReference(name) && r.value.alternateReferences == []
    ensures r.Success? ==> r.value.paramSummary == None && r.value.usageReset == None && r.value.usageAppend == None
  {
    var thrown := CheckLowerBound(min);
    if thrown.Some? {
      return Failure(thrown.value);
    }
    var c := new Command.Bounded(name, description, logicParams, min, INT_MAX);
    r := Success(c);
  }

  /** `new BoundedCommand(name, description, logic, min, max)`. */
  method NewBoundedRangeCommand(name: string, description: string, logicParams: Option<seq<string>>, min: int32, max: int32)
    returns (r: Result<Command, Exception>)
    ensures r.Failure? <==> min < 0 || min >= max
    ensures r.Failure? ==> r.error == IllegalArgumentException(RangeMessage(min, max))
    ensures r.Success? ==> fresh(r.value) && r.value.kind == BoundedCommand(min, max) && 0 <= min < max
    ensures r.Success? ==> r.value.name == name && r.value.description == description && r.value.params == logicParams
    ensures r.Success? ==> r.value.defaultReference == DefaultReference(name) && r.value.alternateReferences == []
    ensures r.Success? ==> r.value.paramSummary == None && r.value.usageReset == None && r.value.usageAppend == None
  {
    var thrown := CheckRange(min, max);
    if thrown.Some? {
      return Failure(thrown.value);
    }
    var c := new Command.Bounded(name, description, logicParams, min, max);
    r := Success(c);
  }

  // ------------------------------------------------------------- snapshots

  /** What the console client and the help pages read from a command. */
  datatype CommandInfo = CommandInfo(
    defaultReference: string,
    description: string,
    alternateReferences: seq<string>,
    usage: Result<string, Exception>)

  function Info(c: Command): CommandInfo
    reads c
  {
    CommandInfo(c.defaultReference, c.description, c.alternateReferences, c.Usage())
  }

  function Infos(cs: seq<Command>): (r: seq<CommandInfo>)
    reads cs
    ensures |r| == |cs|
    ensures forall i :: 0 <= i < |cs| ==> r[i] == Info(cs[i])
  {
    seq(|cs|, i requires 0 <= i < |cs| reads cs => Info(cs[i]))
  }
}
