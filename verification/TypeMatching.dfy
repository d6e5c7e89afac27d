/** Which argument lists a signature takes: `SingleTypeMatch`, `SingleTypeMatchArray`, `TypeMatch` and `ArgNameMatch`
    of avs_core/core/PluginManager.cpp. */
module TypeMatching {
  import opened Options
  import opened Signatures

  /** Script values; what a clip, a function or a string is does not matter here. */
  datatype AVSValue =
    | Undefined
    | BoolValue(b: bool)
    | IntValue(i: int)
    | LongValue(l: int)
    | FloatValue(f: real)
    | DoubleValue(d: real)
    | StringValue(s: string)
    | ClipValue(clip: int)
    | FunctionValue(function_: int)
    | ArrayValue(elems: seq<AVSValue>)
  {
    predicate IsInt() { IntValue? || LongValue? }
    predicate IsFloat() { DoubleValue? || FloatValue? || IntValue? || LongValue? }
  }

  predicate SingleTypeMatch(t: char, arg: AVSValue, strict: bool) {
    if t == '.' then true
    else if t == 'b' then arg.BoolValue?
    else if t == 'i' then arg.IsInt()
    else if t == 'f' then arg.IsFloat() && (!strict || !arg.IsInt())
    else if t == 's' then arg.StringValue?
    else if t == 'c' then arg.ClipValue?
    else if t == 'n' then arg.FunctionValue?
    else if t == 'a' then arg.ArrayValue?
    else false
  }

  /** The letter a value has of its own. */
  function Letter(v: AVSValue): (t: Option<char>) {
    match v
    case Undefined => None
    case BoolValue(_) => Some('b')
    case IntValue(_) => Some('i')
    case LongValue(_) => Some('i')
    case FloatValue(_) => Some('f')
    case DoubleValue(_) => Some('f')
    case StringValue(_) => Some('s')
    case ClipValue(_) => Some('c')
    case FunctionValue(_) => Some('n')
    case ArrayValue(_) => Some('a')
  }

  /** A parameter takes the values of its own letter, a dot takes all, and unless it must match strictly a float takes
      integers too. */
  lemma LetterTakes(t: char, v: AVSValue, strict: bool)
    requires IsParameterTypeSpecifier(t)
    ensures SingleTypeMatch(t, v, strict) <==> t == '.' || Letter(v) == Some(t) || (t == 'f' && Letter(v) == Some('i') && !strict)
  {
  }

  predicate ArrayMatches(t: char, arg: AVSValue, strict: bool) {
    arg.ArrayValue? && forall i :: 0 <= i < |arg.elems| ==> SingleTypeMatch(t, arg.elems[i], strict)
  }

  method SingleTypeMatchArray(t: char, arg: AVSValue, strict: bool) returns (r: bool)
    ensures r == ArrayMatches(t, arg, strict)
  {
    if !arg.ArrayValue? {
      return false;
    }
    for i := 0 to |arg.elems|
      invariant forall j :: 0 <= j < i ==> SingleTypeMatch(t, arg.elems[j], strict)
    {
      if !SingleTypeMatch(t, arg.elems[i], strict) {
        return false;
      }
    }
    return true;
  }

  // ----- What a match is, on parameters -----

  /** Nothing is left to give: the next parameter is named, or all up to a named one may be empty. */
  predicate RestOptional(ps: seq<Param>) {
    ps == [] || ps[0].name.Some? || (ps[0].mod.ZeroOrMore? && RestOptional(ps[1..]))
  }

  /** From the start of parameter ps[0]. `optional` is set once a named parameter has been passed, for good. */
  predicate MatchParams(ps: seq<Param>, args: seq<AVSValue>, strict: bool, optional: bool)
    decreases |ps| + |args|, 4
  {
    if args == [] then RestOptional(ps)
    else ps != [] && MatchNamed(ps, args, strict, optional || ps[0].name.Some?)
  }

  /** Past the name of ps[0]. */
  predicate MatchNamed(ps: seq<Param>, args: seq<AVSValue>, strict: bool, optional: bool)
    requires ps != [] && args != []
    decreases |ps| + |args|, 3
  {
    if ps[0].mod.ZeroOrMore? then MatchRepeat(ps, args, strict, optional)
    else MatchLetter(ps, args, strict, optional)
  }

  /** At the type letter of ps[0], with no star behind it. */
  predicate MatchLetter(ps: seq<Param>, args: seq<AVSValue>, strict: bool, optional: bool)
    requires ps != [] && args != []
    decreases |ps| + |args|, 2
  {
    if ps[0].ptype == '.' then MatchAfter(ps, args[1..], strict, optional)
    else if ps[0].mod.OneOrMore? && args[0].ArrayValue? && ps[0].ptype != 'a' then MatchRepeat(ps, args, strict, optional)
    else ((optional && args[0].Undefined?) || SingleTypeMatch(ps[0].ptype, args[0], strict)) && MatchAfter(ps, args[1..], strict, optional)
  }

  /** Past the type letter of ps[0]. */
  predicate MatchAfter(ps: seq<Param>, args: seq<AVSValue>, strict: bool, optional: bool)
    requires ps != []
    decreases |ps| + |args|, 2
  {
    if ps[0].mod.Single? then MatchParams(ps[1..], args, strict, optional) else MatchRepeat(ps, args, strict, optional)
  }

  /** At the modifier of ps[0]. */
  predicate MatchRepeat(ps: seq<Param>, args: seq<AVSValue>, strict: bool, optional: bool)
    requires ps != []
    decreases |ps| + |args|, 0
  {
    if args == [] then RestOptional(ps[1..])
    else if args[0].ArrayValue? && ps[0].ptype != '.' then
      ArrayMatches(ps[0].ptype, args[0], strict) && MatchParams(ps[1..], args[1..], strict, optional)
    else if SingleTypeMatch(ps[0].ptype, args[0], strict) then MatchRepeat(ps, args[1..], strict, optional)
    else MatchParams(ps[1..], args, strict, optional)
  }

  // ----- What a match promises -----

  /** Parameter p takes the value v: its type agrees, or it is an array of such for an array-style parameter, or it is
      undefined from the first named parameter on. */
  predicate Takes(p: Param, v: AVSValue, strict: bool, optional: bool) {
    || SingleTypeMatch(p.ptype, v, strict)
    || (!p.mod.Single? && ArrayMatches(p.ptype, v, strict))
    || (optional && v.Undefined?)
  }

  /** The arguments are dealt out in order, counts[j] of them to parameter j. Each is one that its parameter takes; a
      single parameter gets one, a one-or-more parameter at least one; when there are none left, the rest is optional. */
  ghost predicate Dealt(ps: seq<Param>, args: seq<AVSValue>, counts: seq<nat>, strict: bool, optional: bool)
    decreases ps
  {
    if args == [] then counts == [] && RestOptional(ps)
    else
      && ps != [] && counts != [] && counts[0] <= |args|
      && var opt := optional || ps[0].name.Some?;
      && (forall i :: 0 <= i < counts[0] ==> Takes(ps[0], args[i], strict, opt))
      && (counts[0] == 0 ==> ps[0].mod.ZeroOrMore?)
      && (counts[0] > 1 ==> !ps[0].mod.Single?)
      && Dealt(ps[1..], args[counts[0]..], counts[1..], strict, opt)
  }

  /** At a modifier: some more arguments, all of the right type, go to this parameter. */
  lemma {:induction false} RepeatDeals(ps: seq<Param>, args: seq<AVSValue>, strict: bool, optional: bool) returns (n: nat)
    requires ps != [] && MatchRepeat(ps, args, strict, optional) && !ps[0].mod.Single?
    ensures n <= |args| && MatchParams(ps[1..], args[n..], strict, optional)
    ensures forall i :: 0 <= i < n ==> Takes(ps[0], args[i], strict, optional)
    decreases args
  {
    n := 0;
    assert args[0..] == args;
    if args != [] {
      if args[0].ArrayValue? && ps[0].ptype != '.' {
        n := 1;
      } else if SingleTypeMatch(ps[0].ptype, args[0], strict) {
        n := RepeatDeals(ps, args[1..], strict, optional);
        OneMore(ps[0], args, n, strict, optional);
        n := n + 1;
      }
    }
  }

  lemma OneMore(p: Param, args: seq<AVSValue>, n: nat, strict: bool, optional: bool)
    requires n < |args| && Takes(p, args[0], strict, optional)
    requires forall i :: 0 <= i < n ==> Takes(p, args[1..][i], strict, optional)
    ensures forall i :: 0 <= i < n + 1 ==> Takes(p, args[i], strict, optional)
    ensures args[1..][n..] == args[n + 1..]
  {
    forall i | 0 <= i < n + 1 ensures Takes(p, args[i], strict, optional) {
      if i > 0 { assert args[i] == args[1..][i - 1]; }
    }
  }

  /** What the first parameter gets. */
  lemma FirstDeals(ps: seq<Param>, args: seq<AVSValue>, strict: bool, optional: bool) returns (n: nat)
    requires ps != [] && args != [] && MatchNamed(ps, args, strict, optional)
    ensures n <= |args| && MatchParams(ps[1..], args[n..], strict, optional)
    ensures forall i :: 0 <= i < n ==> Takes(ps[0], args[i], strict, optional)
    ensures n == 0 ==> ps[0].mod.ZeroOrMore?
    ensures n > 1 ==> !ps[0].mod.Single?
  {
    if ps[0].mod.ZeroOrMore? {
      n := RepeatDeals(ps, args, strict, optional);
      return;
    }
    assert MatchLetter(ps, args, strict, optional);
    if ps[0].ptype != '.' && ps[0].mod.OneOrMore? && args[0].ArrayValue? && ps[0].ptype != 'a' {
      assert MatchRepeat(ps, args, strict, optional);
      n := 1;
    } else if ps[0].mod.Single? {
      assert MatchAfter(ps, args[1..], strict, optional);
      n := 1;
    } else {
      assert MatchAfter(ps, args[1..], strict, optional);
      n := RepeatDeals(ps, args[1..], strict, optional);
      OneMore(ps[0], args, n, strict, optional);
      n := n + 1;
    }
  }

  /** A match deals every argument to a parameter that takes it. */
  lemma {:induction false} MatchDeals(ps: seq<Param>, args: seq<AVSValue>, strict: bool, optional: bool) returns (counts: seq<nat>)
    requires MatchParams(ps, args, strict, optional)
    ensures Dealt(ps, args, counts, strict, optional)
    decreases ps
  {
    if args == [] {
      counts := [];
    } else {
      var opt := optional || ps[0].name.Some?;
      var n := FirstDeals(ps, args, strict, opt);
      var more := MatchDeals(ps[1..], args[n..], strict, opt);
      counts := [n] + more;
      assert counts[1..] == more;
    }
  }

  // ----- Exactly what matches -----

  /** An array given for an array-style parameter of a type stands for all its values. */
  predicate StandsForAll(p: Param, v: AVSValue) {
    v.ArrayValue? && p.ptype != '.'
  }

  predicate OneOfMany(p: Param, v: AVSValue, strict: bool) {
    !StandsForAll(p, v) && SingleTypeMatch(p.ptype, v, strict)
  }

  /** The first n arguments are all in a row that have the type, or those before an array of it and that array. */
  predicate WholeRun(p: Param, args: seq<AVSValue>, n: nat, strict: bool)
    requires n <= |args|
  {
    || ((forall i :: 0 <= i < n ==> OneOfMany(p, args[i], strict))
        && (n < |args| ==> !StandsForAll(p, args[n]) && !OneOfMany(p, args[n], strict)))
    || (n > 0 && (forall i :: 0 <= i < n - 1 ==> OneOfMany(p, args[i], strict))
        && StandsForAll(p, args[n - 1]) && ArrayMatches(p.ptype, args[n - 1], strict))
  }

  predicate TakesFirst(p: Param, v: AVSValue, strict: bool, optional: bool) {
    p.ptype == '.' || SingleTypeMatch(p.ptype, v, strict) || (optional && v.Undefined?)
  }

  /** How many of the arguments the parameter takes: it leaves behind nothing that it could take. */
  predicate MayTake(p: Param, args: seq<AVSValue>, n: nat, strict: bool, optional: bool)
    requires args != [] && n <= |args|
  {
    match p.mod
    case Single => n == 1 && TakesFirst(p, args[0], strict, optional)
    case ZeroOrMore => WholeRun(p, args, n, strict)
    case OneOrMore =>
      if StandsForAll(p, args[0]) && p.ptype != 'a' then n == 1 && ArrayMatches(p.ptype, args[0], strict)
      else n >= 1 && TakesFirst(p, args[0], strict, optional) && WholeRun(p, args[1..], n - 1, strict)
  }

  /** Parameter by parameter takes what it can, and behind the last argument the rest is optional. */
  ghost predicate AllTaken(ps: seq<Param>, args: seq<AVSValue>, counts: seq<nat>, strict: bool, optional: bool)
    decreases ps
  {
    if args == [] then counts == [] && RestOptional(ps)
    else
      && ps != [] && counts != [] && counts[0] <= |args|
      && var opt := optional || ps[0].name.Some?;
      MayTake(ps[0], args, counts[0], strict, opt) && AllTaken(ps[1..], args[counts[0]..], counts[1..], strict, opt)
  }

  lemma RunStep(p: Param, args: seq<AVSValue>, n: nat, strict: bool)
    requires args != [] && n <= |args|
    ensures WholeRun(p, args, n, strict) <==>
      if StandsForAll(p, args[0]) then n == 1 && ArrayMatches(p.ptype, args[0], strict)
      else if OneOfMany(p, args[0], strict) then n >= 1 && WholeRun(p, args[1..], n - 1, strict)
      else n == 0
  {
    var rest := args[1..];
    assert forall i :: 0 < i < |args| ==> args[i] == rest[i - 1];
    if OneOfMany(p, args[0], strict) && n >= 1 {
      assert (forall i :: 0 <= i < n ==> OneOfMany(p, args[i], strict)) <==> forall i :: 0 <= i < n - 1 ==> OneOfMany(p, rest[i], strict);
      assert (forall i :: 0 <= i < n - 1 ==> OneOfMany(p, args[i], strict))
        <==> forall i :: 0 <= i < n - 2 ==> OneOfMany(p, rest[i], strict);
    }
  }

  lemma {:induction false} RepeatTakes(ps: seq<Param>, args: seq<AVSValue>, strict: bool, optional: bool) returns (n: nat)
    requires ps != [] && MatchRepeat(ps, args, strict, optional)
    ensures n <= |args| && WholeRun(ps[0], args, n, strict) && MatchParams(ps[1..], args[n..], strict, optional)
    decreases args
  {
    n := 0;
    assert args[0..] == args;
    if args != [] {
      if StandsForAll(ps[0], args[0]) {
        n := 1;
      } else if OneOfMany(ps[0], args[0], strict) {
        n := RepeatTakes(ps, args[1..], strict, optional);
        assert args[1..][n..] == args[n + 1..];
        n := n + 1;
      }
      RunStep(ps[0], args, n, strict);
    }
  }

  lemma {:induction false} RepeatTaken(ps: seq<Param>, args: seq<AVSValue>, n: nat, strict: bool, optional: bool)
    requires ps != [] && n <= |args| && WholeRun(ps[0], args, n, strict) && MatchParams(ps[1..], args[n..], strict, optional)
    ensures MatchRepeat(ps, args, strict, optional)
    decreases args
  {
    if args != [] {
      RunStep(ps[0], args, n, strict);
      if OneOfMany(ps[0], args[0], strict) {
        assert args[1..][n - 1..] == args[n..];
        RepeatTaken(ps, args[1..], n - 1, strict, optional);
      } else if n == 0 {
        assert args[0..] == args;
      }
    }
  }

  lemma FirstTakes(ps: seq<Param>, args: seq<AVSValue>, strict: bool, optional: bool) returns (n: nat)
    requires ps != [] && args != [] && MatchNamed(ps, args, strict, optional)
    ensures n <= |args| && MayTake(ps[0], args, n, strict, optional) && MatchParams(ps[1..], args[n..], strict, optional)
  {
    if ps[0].mod.ZeroOrMore? {
      n := RepeatTakes(ps, args, strict, optional);
      return;
    }
    assert MatchLetter(ps, args, strict, optional);
    n := 1;
    if ps[0].mod.OneOrMore? && StandsForAll(ps[0], args[0]) && ps[0].ptype != 'a' {
      assert MatchRepeat(ps, args, strict, optional);
    } else {
      assert MatchAfter(ps, args[1..], strict, optional);
      if ps[0].mod.OneOrMore? {
        n := RepeatTakes(ps, args[1..], strict, optional);
        assert args[1..][n..] == args[n + 1..];
        n := n + 1;
      }
    }
  }

  lemma FirstTaken(ps: seq<Param>, args: seq<AVSValue>, n: nat, strict: bool, optional: bool)
    requires ps != [] && args != [] && n <= |args|
    requires MayTake(ps[0], args, n, strict, optional) && MatchParams(ps[1..], args[n..], strict, optional)
    ensures MatchNamed(ps, args, strict, optional)
  {
    if ps[0].mod.ZeroOrMore? {
      RepeatTaken(ps, args, n, strict, optional);
    } else if ps[0].mod.OneOrMore? {
      if StandsForAll(ps[0], args[0]) && ps[0].ptype != 'a' {
        RunStep(ps[0], args, 1, strict);
        RepeatTaken(ps, args, 1, strict, optional);
      } else {
        assert args[1..][n - 1..] == args[n..];
        RepeatTaken(ps, args[1..], n - 1, strict, optional);
        assert MatchAfter(ps, args[1..], strict, optional);
      }
      assert MatchLetter(ps, args, strict, optional);
    } else {
      assert MatchAfter(ps, args[1..], strict, optional);
      assert MatchLetter(ps, args, strict, optional);
    }
  }

  lemma {:induction false} MatchTakesAll(ps: seq<Param>, args: seq<AVSValue>, strict: bool, optional: bool) returns (counts: seq<nat>)
    requires MatchParams(ps, args, strict, optional)
    ensures AllTaken(ps, args, counts, strict, optional)
    decreases ps
  {
    counts := [];
    if args != [] {
      var opt := optional || ps[0].name.Some?;
      var n := FirstTakes(ps, args, strict, opt);
      var more := MatchTakesAll(ps[1..], args[n..], strict, opt);
      counts := [n] + more;
      assert counts[1..] == more;
    }
  }

  lemma {:induction false} AllTakenMatch(ps: seq<Param>, args: seq<AVSValue>, counts: seq<nat>, strict: bool, optional: bool)
    requires AllTaken(ps, args, counts, strict, optional)
    ensures MatchParams(ps, args, strict, optional)
    decreases ps
  {
    if args != [] {
      var opt := optional || ps[0].name.Some?;
      AllTakenMatch(ps[1..], args[counts[0]..], counts[1..], strict, opt);
      FirstTaken(ps, args, counts[0], strict, opt);
    }
  }

  /** The arguments match exactly if each parameter in turn takes all it can and none is left. */
  lemma MatchExactly(ps: seq<Param>, args: seq<AVSValue>, strict: bool, optional: bool)
    ensures MatchParams(ps, args, strict, optional) ==> exists counts: seq<nat> :: AllTaken(ps, args, counts, strict, optional)
    ensures forall counts: seq<nat> :: AllTaken(ps, args, counts, strict, optional) ==> MatchParams(ps, args, strict, optional)
  {
    if MatchParams(ps, args, strict, optional) {
      var counts: seq<nat> := MatchTakesAll(ps, args, strict, optional);
      assert AllTaken(ps, args, counts, strict, optional);
    }
    forall counts: seq<nat> | AllTaken(ps, args, counts, strict, optional) ensures MatchParams(ps, args, strict, optional) {
      AllTakenMatch(ps, args, counts, strict, optional);
    }
  }

  /** A parameter that takes all it can may starve the next: `i*i` refuses an integer. */
  lemma StarvedByTheFirst(v: AVSValue, strict: bool)
    requires v.IsInt()
    ensures var ps := [Param(None, 'i', ZeroOrMore), Param(None, 'i', Single)];
      !MatchParams(ps, [v], strict, false) && Dealt(ps, [v], [0, 1], strict, false)
  {
    var ps, args, counts := [Param(None, 'i', ZeroOrMore), Param(None, 'i', Single)], [v], [0, 1];
    assert ps[1..] == [Param(None, 'i', Single)] && args[1..] == [] && args[0..] == args && counts[1..] == [1];
    assert MatchRepeat(ps, args, strict, false) == MatchRepeat(ps, [], strict, false);
    OneForOne(ps[1], v, strict);
  }

  lemma OneForOne(p: Param, v: AVSValue, strict: bool)
    requires p.mod.Single? && p.name == None && SingleTypeMatch(p.ptype, v, strict)
    ensures Dealt([p], [v], [1], strict, false)
  {
    assert [p][1..] == [] && [v][1..] == [] && [1][1..] == [];
    assert Dealt([], [], [], strict, false);
  }

  // ----- The matcher, on the text -----

  datatype MatchResult = Match(yes: bool) | UnterminatedName | NoType | InvalidCharacter

  /** A C string: the NUL after the last character may be read, nothing beyond it. */
  function CharAt(s: string, i: nat): (c: char)
    requires i <= |s|
  {
    if i < |s| then s[i] else '\0'
  }

  function StrChr(s: string, from: nat, c: char): (r: Option<nat>)
    requires from <= |s|
    decreases |s| - from
  {
    if from == |s| then None else if s[from] == c then Some(from) else StrChr(s, from + 1, c)
  }

  /** The pointer stands at the start of the first of `rest`, or at its modifier. */
  ghost predicate Stands(s: string, pos: nat, rest: seq<Param>, atMod: bool) {
    && pos <= |s| && WellFormed(rest)
    && if atMod then
         && rest != [] && !rest[0].mod.Single? && pos >= 1 && s[pos - 1] == rest[0].ptype
         && s[pos..] == ModText(rest[0].mod) + Render(rest[1..])
       else s[pos..] == Render(rest)
  }

  lemma TextAt(s: string, pos: nat, rest: seq<Param>)
    requires Stands(s, pos, rest, false) && rest != []
    ensures pos < |s| && WellFormedParam(rest[0])
    ensures rest[0].name == None ==>
              && s[pos] == rest[0].ptype && s[pos..] == [rest[0].ptype] + (ModText(rest[0].mod) + Render(rest[1..]))
    ensures rest[0].name.Some? ==>
              && s[pos] == '[' && s[pos + 1..] == rest[0].name.value + "]" + ([rest[0].ptype] + (ModText(rest[0].mod) + Render(rest[1..])))
  {
    Unfold(rest[0], rest[1..]);
    assert rest == [rest[0]] + rest[1..];
    assert s[pos..][0] == s[pos] && s[pos..][1..] == s[pos + 1..];
  }

  lemma {:induction false} FindsBracket(s: string, from: nat, name: string, after: string)
    requires from <= |s| && s[from..] == name + "]" + after && ']' !in name
    ensures StrChr(s, from, ']') == Some(from + |name|)
    ensures s[from + |name| + 1..] == after
    decreases |name|
  {
    assert s[from..][0] == s[from];
    assert s[from + |name| + 1..] == s[from..][|name| + 1..];
    if name != "" {
      assert s[from] == name[0];
      assert s[from + 1..] == s[from..][1..] == name[1..] + "]" + after;
      FindsBracket(s, from + 1, name[1..], after);
    } else {
      assert s[from] == ']';
    }
  }

  /** The pointer stands on the type letter of `rest[0]`. */
  ghost predicate OnType(s: string, pos: nat, rest: seq<Param>) {
    && pos < |s| && WellFormed(rest) && rest != []
    && s[pos..] == [rest[0].ptype] + (ModText(rest[0].mod) + Render(rest[1..]))
  }

  lemma TypeText(s: string, pos: nat, rest: seq<Param>)
    requires OnType(s, pos, rest)
    ensures s[pos] == rest[0].ptype && WellFormedParam(rest[0]) && WellFormed(rest[1..])
    ensures s[pos + 1..] == ModText(rest[0].mod) + Render(rest[1..])
    ensures CharAt(s, pos + 1) == '*' <==> rest[0].mod.ZeroOrMore?
    ensures CharAt(s, pos + 1) == '+' <==> rest[0].mod.OneOrMore?
    ensures rest[0].mod.Single? ==> Stands(s, pos + 1, rest[1..], false)
    ensures !rest[0].mod.Single? ==> Stands(s, pos + 1, rest, true)
  {
    assert s[pos..][0] == s[pos] && s[pos..][1..] == s[pos + 1..];
    NoLeadingModifier(rest[1..]);
    if pos + 1 < |s| {
      assert s[pos + 1..][0] == s[pos + 1];
    }
  }

  lemma ModText1(s: string, pos: nat, rest: seq<Param>)
    requires Stands(s, pos, rest, true)
    ensures pos < |s| && IsParameterTypeModifier(s[pos]) && WellFormedParam(rest[0])
    ensures Stands(s, pos + 1, rest[1..], false)
    ensures CharAt(s, pos + 1) != '*'
  {
    assert s[pos..] != "" && s[pos..][0] == s[pos] && s[pos..][1..] == s[pos + 1..];
    assert ModText(rest[0].mod) == [s[pos]];
    NoLeadingModifier(rest[1..]);
    if pos + 1 < |s| {
      assert s[pos + 1..][0] == s[pos + 1];
    }
  }

  lemma LetterIsNoMark(c: char)
    requires IsParameterTypeSpecifier(c)
    ensures c != '\0' && c != '[' && !IsParameterTypeModifier(c)
  {
  }

  /** Skips the name of a parameter, if the pointer stands on one. */
  method SkipName(s: string, pos: nat, optional: bool, ghost rest: seq<Param>, ghost atMod: bool)
    returns (next: nat, opt: bool, bug: Option<MatchResult>)
    requires Stands(s, pos, rest, atMod) && rest != []
    ensures bug == None && pos <= next && opt == (optional || (!atMod && rest[0].name.Some?))
    ensures if atMod then next == pos else OnType(s, next, rest)
  {
    next, opt, bug := pos, optional, None;
    if atMod {
      ModText1(s, pos, rest);
    } else {
      TextAt(s, pos, rest);
      LetterIsNoMark(rest[0].ptype);
    }
    if CharAt(s, pos) == '[' {
      next, opt, bug := SkipBrackets(s, pos, rest);
    }
  }

  lemma NamePrefix(s: string, from: nat, name: string, after: string)
    requires from <= |s| && s[from..] == name + "]" + after
    ensures from + |name| < |s| && s[from..from + |name|] == name
  {
    var rest := s[from..];
    assert |rest| == |name| + 1 + |after|;
    assert s[from..from + |name|] == rest[..|name|];
    assert rest[..|name|] == name;
  }

  lemma BracketFound(s: string, pos: nat, rest: seq<Param>)
    requires Stands(s, pos, rest, false) && rest != [] && rest[0].name.Some?
    ensures pos + 1 <= |s| && StrChr(s, pos + 1, ']').Some?
    ensures var q := StrChr(s, pos + 1, ']').value;
      pos < q < |s| && s[pos + 1..q] == rest[0].name.value && s[q + 1..] == [rest[0].ptype] + (ModText(rest[0].mod) + Render(rest[1..]))
  {
    TextAt(s, pos, rest);
    NamePrefix(s, pos + 1, rest[0].name.value, [rest[0].ptype] + (ModText(rest[0].mod) + Render(rest[1..])));
    FindsBracket(s, pos + 1, rest[0].name.value, [rest[0].ptype] + (ModText(rest[0].mod) + Render(rest[1..])));
  }

  lemma BracketLeadsToType(s: string, pos: nat, rest: seq<Param>)
    requires pos <= |s| && WellFormed(rest) && rest != []
    requires s[pos..] == [rest[0].ptype] + (ModText(rest[0].mod) + Render(rest[1..]))
    ensures OnType(s, pos, rest)
  {
    assert |s[pos..]| > 0;
  }

  method SkipBrackets(s: string, pos: nat, ghost rest: seq<Param>) returns (next: nat, opt: bool, bug: Option<MatchResult>)
    requires Stands(s, pos, rest, false) && rest != [] && rest[0].name.Some?
    ensures bug == None && pos <= next && opt && OnType(s, next, rest)
  {
    BracketFound(s, pos, rest);
    var q := StrChr(s, pos + 1, ']');
    if q == None {
      return pos, true, Some(UnterminatedName);
    }
    next, opt, bug := q.value + 1, true, None;
    BracketLeadsToType(s, next, rest);
    TypeText(s, next, rest);
    LetterIsNoMark(rest[0].ptype);
    if CharAt(s, next) == '\0' {
      bug := Some(NoType);
    }
  }

  /** A star to come is stepped over to, so that no argument is fine too. */
  method SkipToStar(s: string, pos: nat, ghost rest: seq<Param>, ghost atMod: bool) returns (next: nat, ghost nowMod: bool)
    requires if atMod then Stands(s, pos, rest, true) else OnType(s, pos, rest)
    ensures pos <= next && nowMod == (atMod || rest[0].mod.ZeroOrMore?)
    ensures if nowMod then Stands(s, next, rest, true) else OnType(s, next, rest)
  {
    next, nowMod := pos, atMod;
    if atMod { ModText1(s, pos, rest); } else { TypeText(s, pos, rest); }
    if CharAt(s, pos + 1) == '*' {
      next, nowMod := pos + 1, true;
    }
  }

  /** What is still to be decided with the pointer at `rest`. */
  ghost predicate Continues(rest: seq<Param>, args: seq<AVSValue>, strict: bool, optional: bool, atMod: bool) {
    if atMod && rest != [] then MatchRepeat(rest, args, strict, optional) else MatchParams(rest, args, strict, optional)
  }

  /** The same, once a name and the way to a star are behind the pointer. */
  ghost predicate ContinuesAt(rest: seq<Param>, args: seq<AVSValue>, strict: bool, optional: bool, atMod: bool)
    requires rest != [] && args != []
  {
    if atMod then MatchRepeat(rest, args, strict, optional) else MatchLetter(rest, args, strict, optional)
  }

  lemma NameSkipped(rest: seq<Param>, args: seq<AVSValue>, strict: bool, optional: bool, atMod: bool)
    requires rest != [] && args != []
    ensures Continues(rest, args, strict, optional, atMod)
      == ContinuesAt(rest, args, strict, optional || (!atMod && rest[0].name.Some?), atMod || rest[0].mod.ZeroOrMore?)
  {
    if !atMod {
      assert MatchParams(rest, args, strict, optional) == MatchNamed(rest, args, strict, optional || rest[0].name.Some?);
    }
  }

  lemma LetterTaken(rest: seq<Param>, args: seq<AVSValue>, strict: bool, optional: bool)
    requires rest != [] && args != []
    ensures MatchAfter(rest, args[1..], strict, optional)
      == Continues(if rest[0].mod.Single? then rest[1..] else rest, args[1..], strict, optional, !rest[0].mod.Single?)
  {
  }

  /** On a type letter other than the dot. */
  method TakeLetter(s: string, pos: nat, arg: AVSValue, strict: bool, optional: bool, ghost rest: seq<Param>, ghost args: seq<AVSValue>)
    returns (next: nat, taken: bool, stop: Option<MatchResult>, ghost rest': seq<Param>, ghost nowMod: bool)
    requires OnType(s, pos, rest) && !rest[0].mod.ZeroOrMore? && args != [] && args[0] == arg && s[pos] != '.'
    ensures stop == None || stop == Some(Match(false))
    ensures stop == None ==> Stands(s, next, rest', nowMod) && next == pos + 1
    ensures MatchLetter(rest, args, strict, optional)
      == (stop == None && Continues(rest', if taken then args[1..] else args, strict, optional, nowMod))
  {
    TypeText(s, pos, rest);
    LetterTaken(rest, args, strict, optional);
    next, taken, stop, rest', nowMod := pos, false, None, rest, false;
    if CharAt(s, pos + 1) == '+' && arg.ArrayValue? && s[pos] != 'a' {
      next, nowMod := pos + 1, true;
    } else if (!optional || !arg.Undefined?) && !SingleTypeMatch(s[pos], arg, strict) {
      stop := Some(Match(false));
    } else {
      next, taken := pos + 1, true;
      rest', nowMod := if rest[0].mod.Single? then rest[1..] else rest, !rest[0].mod.Single?;
    }
  }

  lemma RepeatUnfolds(rest: seq<Param>, args: seq<AVSValue>, strict: bool, optional: bool)
    requires rest != [] && args != []
    ensures MatchRepeat(rest, args, strict, optional)
      == if args[0].ArrayValue? && rest[0].ptype != '.' then
           ArrayMatches(rest[0].ptype, args[0], strict) && Continues(rest[1..], args[1..], strict, optional, false)
         else if SingleTypeMatch(rest[0].ptype, args[0], strict) then Continues(rest, args[1..], strict, optional, true)
         else Continues(rest[1..], args, strict, optional, false)
  {
  }

  /** On a plus or a star. */
  method TakeRepeated(s: string, pos: nat, arg: AVSValue, strict: bool, optional: bool, ghost rest: seq<Param>, ghost args: seq<AVSValue>)
    returns (next: nat, taken: bool, stop: Option<MatchResult>, ghost rest': seq<Param>, ghost nowMod: bool)
    requires Stands(s, pos, rest, true) && args != [] && args[0] == arg
    ensures stop == None || stop == Some(Match(false))
    ensures stop == None ==> Stands(s, next, rest', nowMod) && pos <= next && (next > pos || taken)
    ensures MatchRepeat(rest, args, strict, optional)
      == (stop == None && Continues(rest', if taken then args[1..] else args, strict, optional, nowMod))
  {
    ModText1(s, pos, rest);
    RepeatUnfolds(rest, args, strict, optional);
    next, taken, stop, rest', nowMod := pos, false, None, rest, true;
    if arg.ArrayValue? && CharAt(s, pos - 1) != '.' {
      var ok := SingleTypeMatchArray(CharAt(s, pos - 1), arg, strict);
      if !ok {
        stop := Some(Match(false));
      } else {
        next, taken, rest', nowMod := pos + 1, true, rest[1..], false;
      }
    } else if !SingleTypeMatch(CharAt(s, pos - 1), arg, strict) {
      next, rest', nowMod := pos + 1, rest[1..], false;
    } else {
      taken := true;
    }
  }

  /** The switch on the character under the pointer. `taken` says whether the argument is used up. */
  method TakeArgument(s: string, pos: nat, arg: AVSValue, strict: bool, optional: bool,
                      ghost rest: seq<Param>, ghost atMod: bool, ghost args: seq<AVSValue>)
    returns (next: nat, taken: bool, stop: Option<MatchResult>, ghost rest': seq<Param>, ghost nowMod: bool)
    requires if atMod then Stands(s, pos, rest, true) else OnType(s, pos, rest) && !rest[0].mod.ZeroOrMore?
    requires args != [] && args[0] == arg
    ensures stop == None || stop == Some(Match(false))
    ensures stop == None ==> Stands(s, next, rest', nowMod) && pos <= next && (next > pos || taken)
    ensures ContinuesAt(rest, args, strict, optional, atMod)
      == (stop == None && Continues(rest', if taken then args[1..] else args, strict, optional, nowMod))
  {
    var c := CharAt(s, pos);
    next, taken, stop, rest', nowMod := pos, false, None, rest, atMod;
    if atMod { ModText1(s, pos, rest); } else { TypeText(s, pos, rest); }
    LetterIsNoMark(rest[0].ptype);
    if c == 'b' || c == 'i' || c == 'f' || c == 's' || c == 'c' || c == 'n' || c == 'a' {
      next, taken, stop, rest', nowMod := TakeLetter(s, pos, arg, strict, optional, rest, args);
    } else if c == '.' {
      LetterTaken(rest, args, strict, optional);
      next, taken := pos + 1, true;
      rest', nowMod := if rest[0].mod.Single? then rest[1..] else rest, !rest[0].mod.Single?;
    } else if c == '+' || c == '*' {
      next, taken, stop, rest', nowMod := TakeRepeated(s, pos, arg, strict, optional, rest, args);
    } else {
      stop := Some(InvalidCharacter);
    }
  }

  /** Past a name, and to a star that may come. */
  method Approach(s: string, pos: nat, strict: bool, optional: bool, ghost rest: seq<Param>, ghost atMod: bool, ghost args: seq<AVSValue>)
    returns (next: nat, opt: bool, stop: Option<MatchResult>, ghost nowMod: bool)
    requires Stands(s, pos, rest, atMod) && rest != [] && args != []
    ensures stop == None && pos <= next
    ensures if nowMod then Stands(s, next, rest, true) else OnType(s, next, rest) && !rest[0].mod.ZeroOrMore?
    ensures ContinuesAt(rest, args, strict, opt, nowMod) == Continues(rest, args, strict, optional, atMod)
  {
    nowMod := atMod;
    next, opt, stop := SkipName(s, pos, optional, rest, atMod);
    if stop == None {
      next, nowMod := SkipToStar(s, next, rest, atMod);
      NameSkipped(rest, args, strict, optional, atMod);
    }
  }

  /** One turn of the matcher's loop. */
  method Turn(s: string, pos: nat, strict: bool, optional: bool, arg: AVSValue,
              ghost rest: seq<Param>, ghost atMod: bool, ghost args: seq<AVSValue>)
    returns (next: nat, opt: bool, taken: bool, stop: Option<MatchResult>, ghost left: seq<Param>, ghost nowMod: bool)
    requires Stands(s, pos, rest, atMod) && rest != [] && args != [] && args[0] == arg
    ensures stop == None || stop == Some(Match(false))
    ensures stop == None ==> Stands(s, next, left, nowMod) && pos <= next && (next > pos || taken)
    ensures Continues(rest, args, strict, optional, atMod)
      == (stop == None && Continues(left, if taken then args[1..] else args, strict, opt, nowMod))
  {
    taken, left := false, rest;
    next, opt, stop, nowMod := Approach(s, pos, strict, optional, rest, atMod, args);
    if stop == None {
      next, taken, stop, left, nowMod := TakeArgument(s, next, arg, strict, opt, rest, nowMod, args);
    }
  }

  lemma AtEnd(s: string, pos: nat, rest: seq<Param>, atMod: bool)
    requires Stands(s, pos, rest, atMod) && '\0' !in s
    ensures CharAt(s, pos) == '\0' <==> rest == []
    ensures CharAt(s, pos) == '\0' || CharAt(s, pos) == '[' ==> !atMod
    ensures IsParameterTypeModifier(CharAt(s, pos)) <==> atMod
    ensures !atMod ==> (CharAt(s, pos) == '[' <==> rest != [] && rest[0].name.Some?)
  {
    if atMod {
      ModText1(s, pos, rest);
    } else if rest != [] {
      TextAt(s, pos, rest);
      LetterIsNoMark(rest[0].ptype);
      assert s[pos] in s;
    } else {
      assert s[pos..] == "";
    }
  }

  lemma AtLetter(s: string, pos: nat, rest: seq<Param>)
    requires Stands(s, pos, rest, false) && '\0' !in s && CharAt(s, pos) != '\0' && CharAt(s, pos) != '['
    ensures pos < |s| && rest != [] && rest[0].name == None
    ensures CharAt(s, pos + 1) == '*' <==> rest[0].mod.ZeroOrMore?
    ensures rest[0].mod.ZeroOrMore? ==>
      pos + 2 <= |s| && Stands(s, pos + 2, rest[1..], false) && RestOptional(rest) == RestOptional(rest[1..])
    ensures !rest[0].mod.ZeroOrMore? ==> !RestOptional(rest)
  {
    AtEnd(s, pos, rest, false);
    TextAt(s, pos, rest);
    TypeText(s, pos, rest);
    if rest[0].mod.ZeroOrMore? {
      ModText1(s, pos + 1, rest);
    }
  }

  /** After the last argument: the remaining parameters must all be optional. */
  method RestIsOptional(s: string, pos: nat, ghost rest: seq<Param>, ghost atMod: bool) returns (yes: bool)
    requires Stands(s, pos, rest, atMod) && '\0' !in s
    ensures yes == if atMod then RestOptional(rest[1..]) else RestOptional(rest)
  {
    var p := pos;
    ghost var left := if atMod then rest[1..] else rest;
    AtEnd(s, p, rest, atMod);
    if CharAt(s, p) == '+' || CharAt(s, p) == '*' {
      ModText1(s, p, rest);
      p := p + 1;
    }
    yes := SkipStars(s, p, left);
  }

  method SkipStars(s: string, pos: nat, ghost rest: seq<Param>) returns (yes: bool)
    requires Stands(s, pos, rest, false) && '\0' !in s
    ensures yes == RestOptional(rest)
  {
    var p := pos;
    ghost var left := rest;
    AtEnd(s, p, left, false);
    if CharAt(s, p) == '\0' || CharAt(s, p) == '[' {
      return true;
    }
    AtLetter(s, p, left);
    while CharAt(s, p + 1) == '*'
      invariant p < |s| && Stands(s, p, left, false) && CharAt(s, p) != '\0' && CharAt(s, p) != '['
      invariant RestOptional(left) == RestOptional(rest)
      decreases |s| - p
    {
      AtLetter(s, p, left);
      p, left := p + 2, left[1..];
      AtEnd(s, p, left, false);
      if CharAt(s, p) == '\0' || CharAt(s, p) == '[' {
        return true;
      }
      AtLetter(s, p, left);
    }
    AtLetter(s, p, left);
    return false;
  }

  lemma MatchHasDeal(ps: seq<Param>, args: seq<AVSValue>, strict: bool)
    requires MatchParams(ps, args, strict, false)
    ensures HasDeal(ps, args, strict)
  {
    var counts := MatchDeals(ps, args, strict, false);
  }

  ghost predicate HasDeal(ps: seq<Param>, args: seq<AVSValue>, strict: bool) {
    exists counts :: Dealt(ps, args, counts, strict, false)
  }

  /** On every valid signature the matcher ends, reads nothing beyond the terminator, never finds a "bug in filter",
      and says what `MatchParams` says of the parameters; when it says yes, every argument has a parameter that takes it. */
  method TypeMatch(s: string, args: seq<AVSValue>, strict: bool, ghost ps: seq<Param>) returns (r: MatchResult)
    requires WellFormed(ps) && s == Render(ps) && '\0' !in s
    ensures r == Match(MatchParams(ps, args, strict, false))
    ensures r == Match(true) ==> HasDeal(ps, args, strict)
    ensures r == Match(true) ==> exists counts: seq<nat> :: AllTaken(ps, args, counts, strict, false)
    ensures forall counts: seq<nat> :: AllTaken(ps, args, counts, strict, false) ==> r == Match(true)
  {
    MatchExactly(ps, args, strict, false);
    var pos, i, optional := 0, 0, false;
    ghost var rest, atMod := ps, false;
    assert s[0..] == s && args[0..] == args;
    while i < |args|
      invariant i <= |args| && Stands(s, pos, rest, atMod)
      invariant Continues(rest, args[i..], strict, optional, atMod) == MatchParams(ps, args, strict, false)
      decreases |s| - pos + |args| - i
    {
      AtEnd(s, pos, rest, atMod);
      if CharAt(s, pos) == '\0' {
        return Match(false);
      }
      var taken: bool, stop: Option<MatchResult>;
      assert args[i..][0] == args[i] && args[i..][1..] == args[i + 1..];
      pos, optional, taken, stop, rest, atMod := Turn(s, pos, strict, optional, args[i], rest, atMod, args[i..]);
      if stop.Some? {
        return stop.value;
      }
      if taken {
        i := i + 1;
      }
    }
    var yes := RestIsOptional(s, pos, rest, atMod);
    if yes {
      MatchHasDeal(ps, args, strict);
    }
    return Match(yes);
  }

  // ----- Names -----

  function ToLower(c: char): (r: char) {
    if 'A' <= c <= 'Z' then (c as int + 32) as char else c
  }

  predicate SameIgnoringCase(a: string, b: string) {
    |a| == |b| && forall i :: 0 <= i < |a| ==> ToLower(a[i]) == ToLower(b[i])
  }

  predicate HasName(ps: seq<Param>, name: string)
    decreases ps
  {
    ps != [] && ((ps[0].name.Some? && SameIgnoringCase(name, ps[0].name.value)) || HasName(ps[1..], name))
  }

  /** Compares with the name the pointer stands at. `closed` says whether its bracket was found. */
  method CompareName(s: string, p: nat, name: string, ghost rest: seq<Param>) returns (next: nat, hit: bool, closed: bool)
    requires Stands(s, p, rest, false) && rest != [] && rest[0].name.Some?
    ensures closed && OnType(s, next, rest) && p < next
    ensures hit <==> SameIgnoringCase(name, rest[0].name.value)
  {
    BracketFound(s, p, rest);
    var q := StrChr(s, p + 1, ']');
    if q == None {
      return p, false, false;
    }
    BracketLeadsToType(s, q.value + 1, rest);
    return q.value + 1, SameIgnoringCase(name, s[p + 1..q.value]), true;
  }

  /** Past the type letter of the first parameter, or past its modifier. */
  lemma OnePast(s: string, p: nat, rest: seq<Param>, atMod: bool)
    requires if atMod then Stands(s, p, rest, true) else OnType(s, p, rest)
    ensures Stands(s, p + 1, if atMod || rest[0].mod.Single? then rest[1..] else rest, !(atMod || rest[0].mod.Single?))
  {
    if atMod { ModText1(s, p, rest); } else { TypeText(s, p, rest); }
  }

  ghost predicate Pending(rest: seq<Param>, atMod: bool, name: string) {
    HasName(if atMod && rest != [] then rest[1..] else rest, name)
  }

  lemma NamePassed(rest: seq<Param>, atMod: bool, name: string)
    requires rest != []
    ensures var here := !atMod && rest[0].name.Some? && SameIgnoringCase(name, rest[0].name.value);
      var past := Pending(if atMod || rest[0].mod.Single? then rest[1..] else rest, !(atMod || rest[0].mod.Single?), name);
      Pending(rest, atMod, name) <==> here || past
  {
  }

  /** Moves past a name, if the pointer stands on one, and compares it. */
  method MeetName(s: string, p: nat, name: string, ghost rest: seq<Param>, ghost atMod: bool)
    returns (next: nat, hit: bool, closed: bool)
    requires Stands(s, p, rest, atMod) && CharAt(s, p) != '\0' && '\0' !in s
    ensures rest != [] && p <= next && closed
    ensures if atMod then Stands(s, next, rest, true) else OnType(s, next, rest)
    ensures hit <==> !atMod && rest[0].name.Some? && SameIgnoringCase(name, rest[0].name.value)
  {
    AtEnd(s, p, rest, atMod);
    next, hit, closed := p, false, true;
    if CharAt(s, p) == '[' {
      next, hit, closed := CompareName(s, p, name, rest);
    } else if !atMod {
      TextAt(s, p, rest);
    }
  }

  lemma NameStep(s: string, p: nat, name: string, rest: seq<Param>, atMod: bool) returns (rest': seq<Param>, nowMod: bool)
    requires rest != [] && if atMod then Stands(s, p, rest, true) else OnType(s, p, rest)
    ensures Stands(s, p + 1, rest', nowMod)
    ensures Pending(rest, atMod, name)
      <==> (!atMod && rest[0].name.Some? && SameIgnoringCase(name, rest[0].name.value)) || Pending(rest', nowMod, name)
  {
    NamePassed(rest, atMod, name);
    OnePast(s, p, rest, atMod);
    rest', nowMod := if atMod || rest[0].mod.Single? then rest[1..] else rest, !(atMod || rest[0].mod.Single?);
  }

  /** One turn of the inner loop of `ArgNameMatch`. */
  method NameTurn(s: string, p: nat, name: string, ghost rest: seq<Param>, ghost atMod: bool)
    returns (next: nat, hit: bool, closed: bool, ghost rest': seq<Param>, ghost nowMod: bool)
    requires Stands(s, p, rest, atMod) && CharAt(s, p) != '\0' && '\0' !in s
    ensures p < next && closed && Stands(s, next, rest', nowMod)
    ensures Pending(rest, atMod, name) <==> hit || Pending(rest', nowMod, name)
  {
    next, hit, closed := MeetName(s, p, name, rest, atMod);
    rest', nowMod := NameStep(s, next, name, rest, atMod);
    next := next + 1;
  }

  /** The inner loop of `ArgNameMatch`. */
  method FindArgName(s: string, name: string, ghost ps: seq<Param>) returns (found: bool)
    requires WellFormed(ps) && s == Render(ps) && '\0' !in s
    ensures found <==> HasName(ps, name)
  {
    var p := 0;
    ghost var rest, atMod := ps, false;
    assert s[0..] == s;
    while CharAt(s, p) != '\0'
      invariant Stands(s, p, rest, atMod)
      invariant HasName(ps, name) <==> Pending(rest, atMod, name)
      decreases |s| - p
    {
      var hit, closed;
      p, hit, closed, rest, atMod := NameTurn(s, p, name, rest, atMod);
      if !closed || hit {
        return hit;
      }
    }
    AtEnd(s, p, rest, atMod);
    return false;
  }

  /** Every name given is the name of some parameter, letter case aside. */
  method ArgNameMatch(s: string, names: seq<Option<string>>, ghost ps: seq<Param>) returns (r: bool)
    requires WellFormed(ps) && s == Render(ps) && '\0' !in s
    ensures r <==> forall i :: 0 <= i < |names| && names[i].Some? ==> HasName(ps, names[i].value)
  {
    for i := 0 to |names|
      invariant forall j :: 0 <= j < i && names[j].Some? ==> HasName(ps, names[j].value)
    {
      if names[i].Some? {
        var found := FindArgName(s, names[i].value, ps);
        if !found {
          return false;
        }
      }
    }
    return true;
  }
}
