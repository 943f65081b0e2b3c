/**
 * `Option`: an optional toggle of a command, called by a short flag
 * ("-x") or by any of its long references ("--name").
 */
module Options {
  import Wrappers

  /** A reference that `addReference` produces: it starts with "--". */
  predicate IsLongReference(s: string) {
    |s| >= 2 && s[0] == '-' && s[1] == '-'
  }

  /** The index of the first element of `xs` that is also in `ys`. */
  function FirstShared(xs: seq<string>, ys: seq<string>): (r: Wrappers.Option<nat>)
    ensures r.Some? ==> r.value < |xs| && xs[r.value] in ys
    ensures r.Some? ==> forall j :: 0 <= j < r.value ==> xs[j] !in ys
    ensures r.None? ==> forall j :: 0 <= j < |xs| ==> xs[j] !in ys
  {
    if xs == [] then Wrappers.None
    else if xs[0] in ys then Wrappers.Some(0)
    else match FirstShared(xs[1..], ys)
      case None => Wrappers.None
      case Some(i) => Wrappers.Some(i + 1)
  }

  /**
   * What `mine.equals(theirs)` reports: the flag when the flags are the
   * same, else the first of their references that is one of mine, else null.
   */
  function Conflict(myFlag: string, myRefs: seq<string>, theirFlag: string, theirRefs: seq<string>)
    : (r: Wrappers.Option<string>)
    ensures theirFlag == myFlag ==> r == Wrappers.Some(myFlag)
    ensures theirFlag != myFlag ==> (r.None? <==> forall j :: 0 <= j < |theirRefs| ==> theirRefs[j] !in myRefs)
    ensures theirFlag != myFlag && r.Some? ==> r.value in theirRefs && r.value in myRefs
  {
    if theirFlag == myFlag then Wrappers.Some(myFlag)
    else match FirstShared(theirRefs, myRefs)
      case None => Wrappers.None
      case Some(i) => Wrappers.Some(theirRefs[i])
  }

  /** Whether two options conflict does not depend on which of them is asked. */
  lemma ConflictSymmetric(flagA: string, refsA: seq<string>, flagB: string, refsB: seq<string>)
    ensures Conflict(flagA, refsA, flagB, refsB).None? <==> Conflict(flagB, refsB, flagA, refsA).None?
  {
    if flagA != flagB {
      if Conflict(flagA, refsA, flagB, refsB).Some? {
        var x := Conflict(flagA, refsA, flagB, refsB).value;
        var i :| 0 <= i < |refsA| && refsA[i] == x;
        assert refsA[i] in refsB;
      }
      if Conflict(flagB, refsB, flagA, refsA).Some? {
        var x := Conflict(flagB, refsB, flagA, refsA).value;
        var i :| 0 <= i < |refsB| && refsB[i] == x;
        assert refsB[i] in refsA;
      }
    }
  }

  class Option {
    const flag: string
    const description: string
    var active: bool
    var refs: seq<string>

    /** The flag is "-" and one character; every reference is a long one. */
    ghost predicate Valid()
      reads this
    {
      && |flag| == 2 && flag[0] == '-'
      && forall i :: 0 <= i < |refs| ==> IsLongReference(refs[i])
    }

    /** `new Option(flag, description)`: the flag is "-" followed by the character; the option starts inactive. */
    constructor(flag: char, description: string)
      ensures Valid()
      ensures this.flag == ['-', flag] && this.description == description
      ensures !active && refs == []
    {
      this.flag := ['-', flag];
      this.description := description;
      active := false;
      refs := [];
    }

    /** `addReference`: appends "--" + reference and returns the same option. */
    method AddReference(reference: string) returns (self: Option)
      requires Valid()
      modifies this
      ensures Valid() && self == this
      ensures refs == old(refs) + ["--" + reference] && active == old(active)
    {
      refs := refs + ["--" + reference];
      self := this;
    }

    /** `isCalled`: the character is the flag's letter and the option is active. */
    predicate IsCalled(c: char)
      requires Valid()
      reads this
    {
      c == flag[1] && active
    }

    /** `isReferencedBy`: the argument is the flag or one of the long references. */
    predicate IsReferencedBy(arg: string)
      reads this
    {
      arg == flag || arg in refs
    }

    /** `activate`. */
    method Activate()
      requires Valid()
      modifies this
      ensures Valid() && active && refs == old(refs)
    {
      active := true;
    }

    /** `reset`. */
    method Reset()
      requires Valid()
      modifies this
      ensures Valid() && !active && refs == old(refs)
    {
      active := false;
    }

    /** `equals(t)`, the conflict finder: a search through t's references. */
    method Equals(t: Option) returns (r: Wrappers.Option<string>)
      ensures r == Conflict(flag, refs, t.flag, t.refs)
    {
      if t.flag == flag {
        return Wrappers.Some(flag);
      }
      var theirs := t.refs;
      for i := 0 to |theirs|
        invariant forall j :: 0 <= j < i ==> theirs[j] !in refs
      {
        if theirs[i] in refs {
          FirstSharedAt(theirs, refs, i);
          return Wrappers.Some(theirs[i]);
        }
      }
      NoneShared(theirs, refs);
      r := Wrappers.None;
    }
  }

  lemma FirstSharedAt(xs: seq<string>, ys: seq<string>, i: nat)
    requires i < |xs| && xs[i] in ys
    requires forall j :: 0 <= j < i ==> xs[j] !in ys
    ensures FirstShared(xs, ys) == Wrappers.Some(i)
  {
  }

  lemma NoneShared(xs: seq<string>, ys: seq<string>)
    requires forall j :: 0 <= j < |xs| ==> xs[j] !in ys
    ensures FirstShared(xs, ys) == Wrappers.None
  {
  }

  /**
   * For any letter but '-', the option is called by it exactly when the
   * option is active and "-" + letter references it: no long reference
   * can be mistaken for the flag.
   */
  lemma CalledMeansReferenced(o: Option, c: char)
    requires o.Valid() && c != '-'
    ensures o.IsCalled(c) <==> o.active && o.IsReferencedBy(['-', c])
  {
  }
}
