/** The grouping of unnamed arguments (step 3 of `Invoke_` in avs_core/core/avisynth.cpp) for the function whose
    signature `TypeMatch` has accepted. */
module ArgumentBinding {
  import opened Options
  import opened Signatures
  import opened TypeMatching

  /** One entry of `args3` with its mark in `args3_really_filled`. */
  datatype Slot = Slot(value: AVSValue, filled: bool)

  datatype BindResult =
    | Bound(slots: seq<Slot>)
    | ElementsMismatch
    | EmptyArrayGiven
    | NothingForOneOrMore
    | TooMany

  datatype Taken = Took(slot: Slot, count: nat) | Fails(error: BindResult)

  // ----- What a binding is, on parameters -----

  function CountMatching(t: char, args: seq<AVSValue>, strict: bool): (n: nat)
    ensures n <= |args|
  {
    if args == [] || !SingleTypeMatch(t, args[0], strict) then 0 else 1 + CountMatching(t, args[1..], strict)
  }

  function BindGroup(p: Param, args: seq<AVSValue>, n: nat): (r: Taken)
    requires n <= |args|
  {
    if n > 0 then Took(Slot(ArrayValue(args[..n]), p.name.Some?), n)
    else if p.name.Some? then Took(Slot(Undefined, false), 0)
    else if p.mod.OneOrMore? then Fails(NothingForOneOrMore)
    else Took(Slot(ArrayValue([]), false), 0)
  }

  function BindOne(p: Param, args: seq<AVSValue>, strict: bool): (r: Taken)
    ensures r.Took? ==> r.count <= |args|
    ensures r.Fails? ==> !r.error.Bound?
  {
    if p.mod.Single? then
      if args == [] then Took(Slot(Undefined, false), 0) else Took(Slot(args[0], true), 1)
    else if args != [] && args[0].ArrayValue? && p.ptype != '.' then
      if !ArrayMatches(p.ptype, args[0], strict) then Fails(ElementsMismatch)
      else if p.mod.OneOrMore? && args[0].elems == [] then Fails(EmptyArrayGiven)
      else Took(Slot(args[0], true), 1)
    else BindGroup(p, args, CountMatching(p.ptype, args, strict))
  }

  function Before(slots: seq<Slot>, r: BindResult): (r': BindResult) {
    if r.Bound? then Bound(slots + r.slots) else r
  }

  function BindAll(ps: seq<Param>, args: seq<AVSValue>, strict: bool): (r: BindResult)
    decreases ps
  {
    if ps == [] then if args == [] then Bound([]) else TooMany
    else match BindOne(ps[0], args, strict)
      case Fails(error) => error
      case Took(slot, count) => Before([slot], BindAll(ps[1..], args[count..], strict))
  }

  // ----- What a slot means -----

  /** How a parameter's slot tells what it was given. Nothing: undefined if it can still be given by name or is a single
      value, an empty array otherwise. An array for an array-style parameter of a type: that array. Else one value, or an
      array of the values. Only what was really given counts as filled, and values put together only under a name. */
  predicate SlotTells(p: Param, given: seq<AVSValue>, slot: Slot) {
    if given == [] then slot == Slot(if p.mod.Single? || p.name.Some? then Undefined else ArrayValue([]), false)
    else if p.mod.Single? then |given| == 1 && slot == Slot(given[0], true)
    else if given[0].ArrayValue? && p.ptype != '.' then |given| == 1 && slot == Slot(given[0], true)
    else slot == Slot(ArrayValue(given), p.name.Some?)
  }

  /** What a parameter may be given of the arguments that are left: one, if single; an array of the right elements, and
      not an empty one for a one-or-more parameter; or all the arguments in a row that have its type. A one-or-more
      parameter without a name must be given something. */
  predicate MayGive(p: Param, args: seq<AVSValue>, n: nat, strict: bool)
    requires n <= |args|
  {
    if p.mod.Single? then n == if args == [] then 0 else 1
    else if args != [] && args[0].ArrayValue? && p.ptype != '.' then
      n == 1 && ArrayMatches(p.ptype, args[0], strict) && (p.mod.OneOrMore? ==> args[0].elems != [])
    else
      && (forall i :: 0 <= i < n ==> SingleTypeMatch(p.ptype, args[i], strict))
      && (n < |args| ==> !SingleTypeMatch(p.ptype, args[n], strict))
      && (n == 0 && p.mod.OneOrMore? ==> p.name.Some?)
  }

  /** The arguments go to the parameters group by group, none is left, and the slots tell so. */
  ghost predicate Grouped(ps: seq<Param>, args: seq<AVSValue>, groups: seq<nat>, slots: seq<Slot>, strict: bool)
    decreases ps
  {
    if ps == [] then args == [] && groups == [] && slots == []
    else
      && groups != [] && slots != [] && groups[0] <= |args|
      && MayGive(ps[0], args, groups[0], strict) && SlotTells(ps[0], args[..groups[0]], slots[0])
      && Grouped(ps[1..], args[groups[0]..], groups[1..], slots[1..], strict)
  }

  lemma {:induction false} MatchingRun(t: char, args: seq<AVSValue>, strict: bool)
    ensures var n := CountMatching(t, args, strict);
      && (forall i :: 0 <= i < n ==> SingleTypeMatch(t, args[i], strict))
      && (n < |args| ==> !SingleTypeMatch(t, args[n], strict))
    decreases args
  {
    if args != [] && SingleTypeMatch(t, args[0], strict) {
      var rest, n := args[1..], CountMatching(t, args, strict);
      MatchingRun(t, rest, strict);
      forall i | 0 <= i < n ensures SingleTypeMatch(t, args[i], strict) {
        if i > 0 { assert args[i] == rest[i - 1]; }
      }
      assert n < |args| ==> args[n] == rest[n - 1];
    }
  }

  lemma RunCounted(t: char, args: seq<AVSValue>, n: nat, strict: bool)
    requires n <= |args|
    ensures n == CountMatching(t, args, strict)
      <==> (forall i :: 0 <= i < n ==> SingleTypeMatch(t, args[i], strict)) && (n < |args| ==> !SingleTypeMatch(t, args[n], strict))
  {
    MatchingRun(t, args, strict);
  }

  lemma GivesOne(p: Param, args: seq<AVSValue>, n: nat, slot: Slot, strict: bool)
    requires n <= |args|
    ensures BindOne(p, args, strict) == Took(slot, n) <==> MayGive(p, args, n, strict) && SlotTells(p, args[..n], slot)
  {
    if !p.mod.Single? && !(args != [] && args[0].ArrayValue? && p.ptype != '.') {
      RunCounted(p.ptype, args, n, strict);
    } else if args != [] {
      assert args[..1][0] == args[0];
    }
  }

  /** The binding is Bound(slots) exactly when the arguments can be given group by group so that the slots tell it. */
  lemma BoundExactly(ps: seq<Param>, args: seq<AVSValue>, slots: seq<Slot>, strict: bool)
    ensures BindAll(ps, args, strict) == Bound(slots) ==> exists groups: seq<nat> :: Grouped(ps, args, groups, slots, strict)
    ensures forall groups: seq<nat> :: Grouped(ps, args, groups, slots, strict) ==> BindAll(ps, args, strict) == Bound(slots)
  {
    if BindAll(ps, args, strict) == Bound(slots) {
      var groups := GroupsOf(ps, args, slots, strict);
      assert Grouped(ps, args, groups, slots, strict);
    }
    forall groups | Grouped(ps, args, groups, slots, strict) ensures BindAll(ps, args, strict) == Bound(slots) {
      GroupedIsBound(ps, args, groups, slots, strict);
    }
  }

  lemma {:induction false} GroupsOf(ps: seq<Param>, args: seq<AVSValue>, slots: seq<Slot>, strict: bool) returns (groups: seq<nat>)
    requires BindAll(ps, args, strict) == Bound(slots)
    ensures Grouped(ps, args, groups, slots, strict)
    decreases ps
  {
    groups := [];
    if ps != [] {
      var r := BindOne(ps[0], args, strict);
      var rest := BindAll(ps[1..], args[r.count..], strict);
      assert slots == [r.slot] + rest.slots;
      GivesOne(ps[0], args, r.count, r.slot, strict);
      var more := GroupsOf(ps[1..], args[r.count..], rest.slots, strict);
      groups := [r.count] + more;
      assert groups[1..] == more && slots[1..] == rest.slots;
    }
  }

  lemma {:induction false} GroupedIsBound(ps: seq<Param>, args: seq<AVSValue>, groups: seq<nat>, slots: seq<Slot>, strict: bool)
    requires Grouped(ps, args, groups, slots, strict)
    ensures BindAll(ps, args, strict) == Bound(slots)
    decreases ps
  {
    if ps != [] {
      GivesOne(ps[0], args, groups[0], slots[0], strict);
      GroupedIsBound(ps[1..], args[groups[0]..], groups[1..], slots[1..], strict);
      assert slots == [slots[0]] + slots[1..];
    }
  }

  /** Given nothing, a named array is undefined and an unnamed one empty, as scripts can tell. */
  lemma GivenNothing(strict: bool)
    ensures BindAll([Param(Some("n"), 'i', ZeroOrMore)], [], strict) == Bound([Slot(Undefined, false)])
    ensures BindAll([Param(None, 'i', ZeroOrMore)], [], strict) == Bound([Slot(ArrayValue([]), false)])
  {
    var named, unnamed := Param(Some("n"), 'i', ZeroOrMore), Param(None, 'i', ZeroOrMore);
    var none: seq<AVSValue> := [];
    assert none[0..] == none && [named][1..] == [] && [unnamed][1..] == [];
    assert BindAll([], none, strict) == Bound([]);
    assert BindOne(named, none, strict) == Took(Slot(Undefined, false), 0);
    assert BindOne(unnamed, none, strict) == Took(Slot(ArrayValue([]), false), 0);
  }

  // ----- Nothing is lost -----

  /** The arguments a binding stands for, read back in order. */
  function ReadBack(slots: seq<Slot>): (args: seq<AVSValue>)
    decreases slots
  {
    if slots == [] then []
    else (match slots[0].value
          case Undefined => []
          case ArrayValue(elems) => elems
          case v => [v]) + ReadBack(slots[1..])
  }

  /** The parameters that no argument is left for. */
  function Unreached(ps: seq<Param>, args: seq<AVSValue>, strict: bool): (r: seq<Param>)
    decreases ps
  {
    if ps == [] || args == [] then ps
    else Unreached(ps[1..], if ps[0].mod.Single? then args[1..] else args[CountMatching(ps[0].ptype, args, strict)..], strict)
  }

  /** Some parameter that needs at least one argument, and has no name to get it by, gets none. */
  ghost predicate Starved(ps: seq<Param>) {
    exists i :: 0 <= i < |ps| && ps[i].name == None && ps[i].mod.OneOrMore?
  }

  ghost predicate Plain(args: seq<AVSValue>) {
    forall i :: 0 <= i < |args| ==> !args[i].Undefined? && !args[i].ArrayValue?
  }

  lemma {:induction false} RepeatTakesAll(ps: seq<Param>, args: seq<AVSValue>, strict: bool, optional: bool)
    requires ps != [] && Plain(args)
    ensures MatchRepeat(ps, args, strict, optional)
      == MatchParams(ps[1..], args[CountMatching(ps[0].ptype, args, strict)..], strict, optional)
    decreases args
  {
    if args != [] && SingleTypeMatch(ps[0].ptype, args[0], strict) {
      RepeatTakesAll(ps, args[1..], strict, optional);
      assert args[1..][CountMatching(ps[0].ptype, args[1..], strict)..] == args[CountMatching(ps[0].ptype, args, strict)..];
    } else {
      assert args[0..] == args;
    }
  }

  /** What the matcher says of the first parameter is what the binder does with it. */
  lemma MatchTakes(ps: seq<Param>, args: seq<AVSValue>, strict: bool, optional: bool)
    requires ps != [] && args != [] && Plain(args) && MatchParams(ps, args, strict, optional)
    ensures var opt := optional || ps[0].name.Some?;
      if ps[0].mod.Single? then MatchParams(ps[1..], args[1..], strict, opt)
      else MatchParams(ps[1..], args[CountMatching(ps[0].ptype, args, strict)..], strict, opt)
    ensures ps[0].mod.OneOrMore? ==> CountMatching(ps[0].ptype, args, strict) > 0
  {
    var opt := optional || ps[0].name.Some?;
    NameSkipped(ps, args, strict, optional, false);
    RepeatTakesAll(ps, args, strict, opt);
    LetterTaken(ps, args, strict, opt);
    if ps[0].mod.OneOrMore? {
      RepeatTakesAll(ps, args[1..], strict, opt);
      assert args[1..][CountMatching(ps[0].ptype, args[1..], strict)..] == args[CountMatching(ps[0].ptype, args, strict)..];
    }
  }

  lemma {:induction false} BindNothing(ps: seq<Param>, strict: bool)
    ensures Starved(ps) ==> BindAll(ps, [], strict) == NothingForOneOrMore
    ensures !Starved(ps) ==>
      && BindAll(ps, [], strict).Bound?
      && |BindAll(ps, [], strict).slots| == |ps|
      && ReadBack(BindAll(ps, [], strict).slots) == []
    decreases ps
  {
    if ps != [] {
      BindNothing(ps[1..], strict);
      StarvedStep(ps);
      var r := BindOne(ps[0], [], strict);
      assert CountMatching(ps[0].ptype, [], strict) == 0;
      if r.Took? {
        assert BindAll(ps, [], strict) == Before([r.slot], BindAll(ps[1..], [], strict));
        if BindAll(ps[1..], [], strict).Bound? {
          ReadBackCons(r.slot, BindAll(ps[1..], [], strict).slots);
        }
      }
    }
  }

  lemma StarvedStep(ps: seq<Param>)
    requires ps != []
    ensures Starved(ps) <==> (ps[0].name == None && ps[0].mod.OneOrMore?) || Starved(ps[1..])
  {
    if Starved(ps) {
      var i :| 0 <= i < |ps| && ps[i].name == None && ps[i].mod.OneOrMore?;
      assert i == 0 || ps[i] == ps[1..][i - 1];
    }
    if Starved(ps[1..]) {
      var i :| 0 <= i < |ps[1..]| && ps[1..][i].name == None && ps[1..][i].mod.OneOrMore?;
      assert ps[1..][i] == ps[i + 1];
    }
  }

  lemma ReadBackCons(slot: Slot, slots: seq<Slot>)
    ensures ReadBack([slot] + slots) == ReadBack([slot]) + ReadBack(slots)
  {
    assert ([slot] + slots)[1..] == slots && [slot][1..] == [];
  }

  /** For arguments that are neither undefined nor arrays, a list that the matcher accepts is bound without loss: one
      slot for each parameter, no argument left over, and the slots read back in order are the arguments. The one
      way out is an unnamed one-or-more parameter behind the last argument, and it is always taken. */
  lemma {:induction false} LosslessBinding(ps: seq<Param>, args: seq<AVSValue>, strict: bool, optional: bool)
    requires Plain(args) && MatchParams(ps, args, strict, optional)
    ensures Starved(Unreached(ps, args, strict)) ==> BindAll(ps, args, strict) == NothingForOneOrMore
    ensures !Starved(Unreached(ps, args, strict)) ==>
      && BindAll(ps, args, strict).Bound?
      && |BindAll(ps, args, strict).slots| == |ps|
      && ReadBack(BindAll(ps, args, strict).slots) == args
    decreases ps
  {
    if args == [] {
      BindNothing(ps, strict);
    } else {
      MatchTakes(ps, args, strict, optional);
      var p, n := ps[0], if ps[0].mod.Single? then 1 else CountMatching(ps[0].ptype, args, strict);
      LosslessBinding(ps[1..], args[n..], strict, optional || p.name.Some?);
      var slot := BindOne(p, args, strict).slot;
      FirstTaken(p, args, strict);
      assert BindAll(ps, args, strict) == Before([slot], BindAll(ps[1..], args[n..], strict));
      if BindAll(ps[1..], args[n..], strict).Bound? {
        ReadBackCons(slot, BindAll(ps[1..], args[n..], strict).slots);
        assert args == args[..n] + args[n..];
      }
    }
  }

  lemma FirstTaken(p: Param, args: seq<AVSValue>, strict: bool)
    requires args != [] && Plain(args) && (p.mod.OneOrMore? ==> CountMatching(p.ptype, args, strict) > 0)
    ensures var n := if p.mod.Single? then 1 else CountMatching(p.ptype, args, strict);
      && BindOne(p, args, strict).Took? && BindOne(p, args, strict).count == n
      && ReadBack([BindOne(p, args, strict).slot]) == args[..n]
  {
    var slot := BindOne(p, args, strict).slot;
    assert [slot][1..] == [] && ReadBack([]) == [];
    assert args[..1] == [args[0]];
  }

  /** What a slot holds is undefined or of its parameter's type: an array of it for an array-style parameter. */
  predicate SlotFits(p: Param, v: AVSValue, strict: bool) {
    || v.Undefined?
    || (if p.mod.Single? then SingleTypeMatch(p.ptype, v, strict) else ArrayMatches(p.ptype, v, strict))
  }

  ghost predicate SlotsFit(ps: seq<Param>, slots: seq<Slot>, strict: bool) {
    |slots| == |ps| && forall i :: 0 <= i < |ps| ==> SlotFits(ps[i], slots[i].value, strict)
  }

  lemma {:induction false} CountedMatch(t: char, args: seq<AVSValue>, strict: bool)
    ensures ArrayMatches(t, ArrayValue(args[..CountMatching(t, args, strict)]), strict)
    decreases args
  {
    if args != [] && SingleTypeMatch(t, args[0], strict) {
      CountedMatch(t, args[1..], strict);
      var n := CountMatching(t, args[1..], strict);
      var first := args[..n + 1];
      forall i | 0 <= i < |first| ensures SingleTypeMatch(t, first[i], strict) {
        if i > 0 { assert first[i] == args[1..][..n][i - 1]; }
      }
    }
  }

  /** A single argument that the matcher takes has the parameter's type. */
  lemma SingleAgrees(ps: seq<Param>, args: seq<AVSValue>, strict: bool, optional: bool)
    requires ps != [] && args != [] && Plain(args) && ps[0].mod.Single? && MatchParams(ps, args, strict, optional)
    ensures SingleTypeMatch(ps[0].ptype, args[0], strict)
  {
    var n := FirstDeals(ps, args, strict, optional || ps[0].name.Some?);
    assert Takes(ps[0], args[0], strict, optional || ps[0].name.Some?);
  }

  lemma SlotFitsFirst(ps: seq<Param>, args: seq<AVSValue>, strict: bool, optional: bool)
    requires ps != [] && Plain(args) && MatchParams(ps, args, strict, optional)
    requires BindOne(ps[0], args, strict).Took?
    ensures SlotFits(ps[0], BindOne(ps[0], args, strict).slot.value, strict)
  {
    CountedMatch(ps[0].ptype, args, strict);
    if args != [] && ps[0].mod.Single? {
      SingleAgrees(ps, args, strict, optional);
    }
  }

  lemma {:induction false} NothingFits(ps: seq<Param>, strict: bool)
    requires BindAll(ps, [], strict).Bound?
    ensures SlotsFit(ps, BindAll(ps, [], strict).slots, strict)
    decreases ps
  {
    if ps != [] {
      var none: seq<AVSValue> := [];
      var r := BindOne(ps[0], none, strict);
      assert none[r.count..] == none;
      NothingFits(ps[1..], strict);
      FitsCons(ps, r.slot, BindAll(ps[1..], [], strict).slots, strict);
    }
  }

  lemma FitsCons(ps: seq<Param>, slot: Slot, slots: seq<Slot>, strict: bool)
    requires ps != [] && SlotFits(ps[0], slot.value, strict) && SlotsFit(ps[1..], slots, strict)
    ensures SlotsFit(ps, [slot] + slots, strict)
  {
    forall i | 0 <= i < |ps| ensures SlotFits(ps[i], ([slot] + slots)[i].value, strict) {
      if i > 0 { assert ps[i] == ps[1..][i - 1]; }
    }
  }

  /** What the function is called with: of an accepted list of defined, non-array arguments, each slot that is bound
      holds a value of its parameter's type. */
  lemma {:induction false} BoundTypesAgree(ps: seq<Param>, args: seq<AVSValue>, strict: bool, optional: bool)
    requires Plain(args) && MatchParams(ps, args, strict, optional) && BindAll(ps, args, strict).Bound?
    ensures SlotsFit(ps, BindAll(ps, args, strict).slots, strict)
    decreases ps
  {
    if args == [] {
      NothingFits(ps, strict);
    } else {
      MatchTakes(ps, args, strict, optional);
      FirstTaken(ps[0], args, strict);
      SlotFitsFirst(ps, args, strict, optional);
      var r := BindOne(ps[0], args, strict);
      BoundTypesAgree(ps[1..], args[r.count..], strict, optional || ps[0].name.Some?);
      FitsCons(ps, r.slot, BindAll(ps[1..], args[r.count..], strict).slots, strict);
    }
  }

  /** The way out exists: with the signature `i[a]sc+`, the matcher accepts a single integer and the binder throws. */
  lemma AcceptedButStarved()
    ensures var ps := [Param(None, 'i', Single), Param(Some("a"), 's', Single), Param(None, 'c', OneOrMore)];
      && WellFormed(ps) && Render(ps) == "i[a]sc+"
      && MatchParams(ps, [IntValue(1)], true, false) && BindAll(ps, [IntValue(1)], true) == NothingForOneOrMore
  {
    var i, a, c := Param(None, 'i', Single), Param(Some("a"), 's', Single), Param(None, 'c', OneOrMore);
    var ps := [i, a, c];
    assert ps[1..] == [a, c] && [a, c][1..] == [c] && [c][1..] == [];
    assert Render([c]) == "c+";
    assert Render([a, c]) == "[a]sc+";
    assert [IntValue(1)][1..] == [];
    assert MatchParams([a, c], [], true, false);
    assert MatchLetter(ps, [IntValue(1)], true, false);
    assert BindAll([c], [], true) == NothingForOneOrMore;
    assert BindAll([a, c], [], true) == NothingForOneOrMore;
  }

  // ----- The binder, on the text -----

  function From(args: seq<AVSValue>, i: nat): (r: seq<AVSValue>) {
    if i <= |args| then args[i..] else []
  }

  lemma FromFrom(args: seq<AVSValue>, i: nat, n: nat)
    requires n <= |From(args, i)|
    ensures From(args, i)[n..] == From(args, i + n)
  {
  }

  /** The end of a typed run of arguments. */
  method CollectRun(t: char, args: seq<AVSValue>, start: nat, strict: bool) returns (end: nat)
    ensures start <= end && end - start == CountMatching(t, From(args, start), strict)
    ensures end > start ==> end <= |args|
  {
    end := start;
    assert From(args, start)[0..] == From(args, start);
    while end < |args|
      invariant start <= end && (end > start ==> end <= |args|)
      invariant CountMatching(t, From(args, start), strict) == end - start + CountMatching(t, From(args, end), strict)
      decreases |args| - end
    {
      assert From(args, end)[1..] == From(args, end + 1);
      if !SingleTypeMatch(t, args[end], strict) {
        break;
      }
      end := end + 1;
    }
  }

  /** An array-style parameter: a given array as it is, or a run of arguments put into one. */
  method BindArray(t: char, plus: bool, named: bool, args: seq<AVSValue>, src: nat, strict: bool, ghost p: Param)
    returns (taken: Taken)
    requires p.ptype == t && !p.mod.Single? && plus == p.mod.OneOrMore? && named == p.name.Some?
    ensures taken == BindOne(p, From(args, src), strict)
  {
    if src < |args| && args[src].ArrayValue? && t != '.' {
      var ok := SingleTypeMatchArray(t, args[src], strict);
      if !ok {
        return Fails(ElementsMismatch);
      }
      if plus && |args[src].elems| == 0 {
        return Fails(EmptyArrayGiven);
      }
      return Took(Slot(args[src], true), 1);
    }
    var end := CollectRun(t, args, src, strict);
    var size := end - src;
    if size == 0 && plus {
      if !named {
        return Fails(NothingForOneOrMore);
      }
      return Took(Slot(Undefined, false), 0);
    }
    if size == 0 {
      return Took(Slot(if named then Undefined else ArrayValue([]), false), 0);
    }
    assert args[src..end] == From(args, src)[..size];
    return Took(Slot(ArrayValue(args[src..end]), named), size);
  }

  lemma BeforeBefore(done: seq<Slot>, slot: Slot, r: BindResult)
    ensures Before(done, Before([slot], r)) == Before(done + [slot], r)
  {
    if r.Bound? {
      assert done + ([slot] + r.slots) == done + [slot] + r.slots;
    }
  }

  /** A single parameter takes the next argument, and counts one even if there is none. */
  function SingleTaken(args: seq<AVSValue>, src: nat): (t: Taken) {
    Took(if src < |args| then Slot(args[src], true) else Slot(Undefined, false), 1)
  }

  /** One parameter, with the pointer on its type letter. */
  method BindParam(s: string, pos: nat, named: bool, args: seq<AVSValue>, src: nat, strict: bool, ghost rest: seq<Param>)
    returns (next: nat, taken: Taken)
    requires OnType(s, pos, rest) && named == rest[0].name.Some?
    ensures Stands(s, next, rest[1..], false) && pos < next
    ensures taken == (if rest[0].mod.Single? then SingleTaken(args, src) else BindOne(rest[0], From(args, src), strict))
  {
    TypeText(s, pos, rest);
    LetterIsNoMark(rest[0].ptype);
    if CharAt(s, pos + 1) == '*' || CharAt(s, pos + 1) == '+' {
      taken := BindArray(s[pos], CharAt(s, pos + 1) == '+', named, args, src, strict, rest[0]);
      next := pos + 2;
      ModText1(s, pos + 1, rest);
    } else {
      taken := SingleTaken(args, src);
      next := pos + 1;
    }
  }

  lemma TakenBinds(rest: seq<Param>, args: seq<AVSValue>, src: nat, strict: bool, t: Taken)
    requires rest != []
    requires t == if rest[0].mod.Single? then SingleTaken(args, src) else BindOne(rest[0], From(args, src), strict)
    ensures t.Fails? ==> BindAll(rest, From(args, src), strict) == t.error && !t.error.Bound?
    ensures t.Took? ==>
      BindAll(rest, From(args, src), strict) == Before([t.slot], BindAll(rest[1..], From(args, src + t.count), strict))
  {
    if rest[0].mod.Single? {
      if src < |args| {
        FromFrom(args, src, 1);
      } else {
        assert From(args, src) == [] && From(args, src + 1) == [];
      }
    } else if t.Took? {
      FromFrom(args, src, t.count);
    }
  }

  /** Where the pointer stands: at the start of a parameter, or past its name. */
  ghost predicate AtParam(s: string, p: nat, rest: seq<Param>, named: bool) {
    if named then OnType(s, p, rest) && rest[0].name.Some? else Stands(s, p, rest, false)
  }

  lemma AtParamChar(s: string, p: nat, rest: seq<Param>, named: bool)
    requires AtParam(s, p, rest, named) && '\0' !in s
    ensures p <= |s|
    ensures CharAt(s, p) == '\0' <==> !named && rest == []
    ensures CharAt(s, p) == '[' <==> !named && rest != [] && rest[0].name.Some?
    ensures rest != [] && CharAt(s, p) != '[' ==> OnType(s, p, rest) && named == rest[0].name.Some?
  {
    if named {
      TypeText(s, p, rest);
      LetterIsNoMark(rest[0].ptype);
    } else {
      AtEnd(s, p, rest, false);
      if rest != [] {
        TextAt(s, p, rest);
      }
    }
  }

  lemma NamePast(s: string, p: nat, rest: seq<Param>)
    requires Stands(s, p, rest, false) && rest != [] && rest[0].name.Some?
    ensures p + 1 <= |s| && StrChr(s, p + 1, ']').Some?
    ensures p < StrChr(s, p + 1, ']').value && AtParam(s, StrChr(s, p + 1, ']').value + 1, rest, true)
  {
    BracketFound(s, p, rest);
    BracketLeadsToType(s, StrChr(s, p + 1, ']').value + 1, rest);
  }

  /** `slots` are filled, `rest` and the arguments from `src` on are still to be bound. */
  ghost predicate Partly(ps: seq<Param>, args: seq<AVSValue>, strict: bool, slots: seq<Slot>, rest: seq<Param>, src: nat) {
    BindAll(ps, args, strict) == Before(slots, BindAll(rest, From(args, src), strict))
  }

  lemma FailsSoFar(ps: seq<Param>, args: seq<AVSValue>, strict: bool, slots: seq<Slot>, rest: seq<Param>, src: nat, t: Taken)
    requires rest != [] && Partly(ps, args, strict, slots, rest, src) && t.Fails?
    requires t == if rest[0].mod.Single? then SingleTaken(args, src) else BindOne(rest[0], From(args, src), strict)
    ensures BindAll(ps, args, strict) == t.error
  {
    TakenBinds(rest, args, src, strict, t);
  }

  lemma TookSoFar(ps: seq<Param>, args: seq<AVSValue>, strict: bool, slots: seq<Slot>, rest: seq<Param>, src: nat, t: Taken,
                  more: seq<Slot>)
    requires rest != [] && Partly(ps, args, strict, slots, rest, src) && t.Took? && more == slots + [t.slot]
    requires t == if rest[0].mod.Single? then SingleTaken(args, src) else BindOne(rest[0], From(args, src), strict)
    ensures Partly(ps, args, strict, more, rest[1..], src + t.count)
  {
    TakenBinds(rest, args, src, strict, t);
    BeforeBefore(slots, t.slot, BindAll(rest[1..], From(args, src + t.count), strict));
  }

  /** One turn of the grouping loop on a parameter whose name, if any, is behind the pointer. */
  method BindTurn(s: string, p: nat, named: bool, args: seq<AVSValue>, src: nat, strict: bool, slots: seq<Slot>,
                  ghost rest: seq<Param>, ghost ps: seq<Param>)
    returns (next: nat, src': nat, slots': seq<Slot>, error: Option<BindResult>)
    requires OnType(s, p, rest) && named == rest[0].name.Some? && Partly(ps, args, strict, slots, rest, src)
    ensures Stands(s, next, rest[1..], false) && p < next
    ensures error.Some? ==> BindAll(ps, args, strict) == error.value
    ensures error.None? ==> Partly(ps, args, strict, slots', rest[1..], src')
  {
    var taken: Taken;
    next, taken := BindParam(s, p, named, args, src, strict, rest);
    src', slots', error := src, slots, None;
    if taken.Fails? {
      FailsSoFar(ps, args, strict, slots, rest, src, taken);
      error := Some(taken.error);
    } else {
      src', slots' := src + taken.count, slots + [taken.slot];
      TookSoFar(ps, args, strict, slots, rest, src, taken, slots');
    }
  }

  lemma AllBound(ps: seq<Param>, args: seq<AVSValue>, strict: bool, slots: seq<Slot>, src: nat)
    requires Partly(ps, args, strict, slots, [], src)
    ensures BindAll(ps, args, strict) == if src < |args| then TooMany else Bound(slots)
  {
    assert slots + [] == slots;
  }

  /** The grouping loop fills one slot after the other and does what `BindAll` does with the parameters. */
  method BindArguments(s: string, args: seq<AVSValue>, strict: bool, ghost ps: seq<Param>) returns (r: BindResult)
    requires WellFormed(ps) && s == Render(ps) && '\0' !in s
    ensures r == BindAll(ps, args, strict)
  {
    var p: nat, src: nat, slots: seq<Slot>, lastWasNamed := 0, 0, [], false;
    ghost var rest := ps;
    assert s[0..] == s && args[0..] == args;
    AtParamChar(s, p, rest, lastWasNamed);
    while CharAt(s, p) != '\0'
      invariant p <= |s| && AtParam(s, p, rest, lastWasNamed)
      invariant Partly(ps, args, strict, slots, rest, src)
      decreases |s| - p
    {
      AtParamChar(s, p, rest, lastWasNamed);
      if CharAt(s, p) == '[' {
        NamePast(s, p, rest);
        var q := StrChr(s, p + 1, ']');
        if q == None {
          break;
        }
        p, lastWasNamed := q.value + 1, true;
      } else {
        var error: Option<BindResult>;
        p, src, slots, error := BindTurn(s, p, lastWasNamed, args, src, strict, slots, rest, ps);
        if error.Some? {
          return error.value;
        }
        rest, lastWasNamed := rest[1..], false;
      }
    }
    AtParamChar(s, p, rest, lastWasNamed);
    AllBound(ps, args, strict, slots, src);
    if src < |args| {
      return TooMany;
    }
    return Bound(slots);
  }
}
