/** The language of function signatures: `IsValidParameterString` in avs_core/core/PluginManager.cpp. */
module Signatures {
  import opened Options

  datatype Modifier = Single | OneOrMore | ZeroOrMore

  /** One parameter, as in `[name]i+`. */
  datatype Param = Param(name: Option<string>, ptype: char, mod: Modifier)

  predicate IsParameterTypeSpecifier(c: char) {
    c == 'b' || c == 'i' || c == 'f' || c == 's' || c == 'c' || c == '.' || c == 'n' || c == 'a'
  }

  predicate IsParameterTypeModifier(c: char) {
    c == '+' || c == '*'
  }

  function ModText(m: Modifier): (s: string) {
    match m
    case Single => ""
    case OneOrMore => "+"
    case ZeroOrMore => "*"
  }

  function NameText(name: Option<string>): (s: string) {
    match name
    case None => ""
    case Some(n) => "[" + n + "]"
  }

  function ParamText(p: Param): (s: string) {
    NameText(p.name) + [p.ptype] + ModText(p.mod)
  }

  function Render(ps: seq<Param>): (s: string) {
    if ps == [] then "" else ParamText(ps[0]) + Render(ps[1..])
  }

  /** A name may hold anything but the bracket that ends it, and a C string holds no NUL. */
  predicate WellFormedParam(p: Param) {
    && IsParameterTypeSpecifier(p.ptype)
    && (p.name.Some? ==> ']' !in p.name.value && '\0' !in p.name.value)
  }

  predicate WellFormed(ps: seq<Param>) {
    forall i :: 0 <= i < |ps| ==> WellFormedParam(ps[i])
  }

  // ----- The automaton -----

  function Delta(state: int, c: char): (next: int) {
    if state == 0 then if IsParameterTypeSpecifier(c) then 1 else if c == '[' then 2 else -1
    else if state == 1 then
      if IsParameterTypeSpecifier(c) then 1 else if c == '[' then 2 else if IsParameterTypeModifier(c) then 0 else -1
    else if state == 2 then if c == ']' then 3 else 2
    else if state == 3 then if IsParameterTypeSpecifier(c) then 1 else -1
    else -1
  }

  function Run(state: int, s: string): (final: int)
    decreases s
  {
    if s == "" then state else Run(Delta(state, s[0]), s[1..])
  }

  predicate Accepts(state: int) {
    state == 0 || state == 1
  }

  lemma {:induction false} RunStep(state: int, s: string, i: nat)
    requires i < |s|
    ensures Run(state, s[..i + 1]) == Delta(Run(state, s[..i]), s[i])
    decreases i
  {
    if i > 0 {
      assert s[..i + 1][1..] == s[1..][..i] && s[..i][1..] == s[1..][..i - 1];
      RunStep(Delta(state, s[0]), s[1..], i - 1);
    } else {
      assert s[..1][1..] == "" && s[..0] == "";
    }
  }

  lemma {:induction false} RunDead(s: string)
    ensures Run(-1, s) == -1
  {
    if s != "" {
      RunDead(s[1..]);
    }
  }

  lemma {:induction false} RunConcat(state: int, a: string, b: string)
    ensures Run(state, a + b) == Run(Run(state, a), b)
    decreases a
  {
    if a == "" {
      assert a + b == b;
    } else {
      assert (a + b)[1..] == a[1..] + b;
      RunConcat(Delta(state, a[0]), a[1..], b);
    }
  }

  lemma {:induction false} RunName(n: string)
    requires ']' !in n
    ensures Run(2, n) == 2
  {
    if n != "" {
      RunName(n[1..]);
    }
  }

  lemma RunNameText(state: int, name: Option<string>)
    requires Accepts(state) && (name.Some? ==> ']' !in name.value)
    ensures Run(state, NameText(name)) == if name.Some? then 3 else state
  {
    if name.Some? {
      RunConcat(state, "[", name.value);
      RunConcat(state, "[" + name.value, "]");
      RunName(name.value);
      assert Run(state, "[") == 2 && Run(2, "]") == 3;
    }
  }

  lemma RunParam(state: int, p: Param)
    requires Accepts(state) && WellFormedParam(p)
    ensures Accepts(Run(state, ParamText(p)))
  {
    RunNameText(state, p.name);
    RunConcat(state, NameText(p.name), [p.ptype]);
    RunConcat(state, NameText(p.name) + [p.ptype], ModText(p.mod));
    assert Run(if p.name.Some? then 3 else state, [p.ptype]) == 1;
    assert Run(1, ModText(p.mod)) == if p.mod.Single? then 1 else 0;
  }

  lemma {:induction false} SignaturesAccepted(state: int, ps: seq<Param>)
    requires Accepts(state) && WellFormed(ps)
    ensures Accepts(Run(state, Render(ps)))
    decreases ps
  {
    if ps != [] {
      RunParam(state, ps[0]);
      RunConcat(state, ParamText(ps[0]), Render(ps[1..]));
      SignaturesAccepted(Run(state, ParamText(ps[0])), ps[1..]);
    }
  }

  // ----- Reading a signature back -----

  lemma AcceptedModifier(s: string) returns (m: Modifier, rest: string)
    requires Accepts(Run(1, s))
    ensures s == ModText(m) + rest
    ensures Accepts(Run(if m.Single? then 1 else 0, rest))
    ensures m.Single? ==> rest == "" || !IsParameterTypeModifier(rest[0])
  {
    if s != "" && IsParameterTypeModifier(s[0]) {
      m, rest := if s[0] == '+' then OneOrMore else ZeroOrMore, s[1..];
      assert s == [s[0]] + s[1..];
    } else {
      m, rest := Single, s;
    }
  }

  lemma AcceptedType(s: string)
    requires Accepts(Run(3, s))
    ensures s != "" && IsParameterTypeSpecifier(s[0]) && Accepts(Run(1, s[1..]))
  {
    if s != "" {
      RunDead(s[1..]);
    }
  }

  lemma Regroup(a: string, b: string, c: string, d: string)
    ensures a + (b + (c + d)) == a + b + c + d
  {
  }

  /** Reads the parameters off an accepted string; `name` belongs to the first of them. */
  lemma {:induction false} AcceptedAfterName(name: Option<string>, s: string) returns (ps: seq<Param>)
    requires Accepts(Run(3, s)) && '\0' !in s && (name.Some? ==> ']' !in name.value && '\0' !in name.value)
    ensures WellFormed(ps) && NameText(name) + s == Render(ps)
    decreases |s|, 0
  {
    AcceptedType(s);
    var m, rest := AcceptedModifier(s[1..]);
    assert forall c :: c in rest ==> c in s[1..];
    var tail := AcceptedHasParams(rest, if m.Single? then 1 else 0);
    ps := [Param(name, s[0], m)] + tail;
    assert ps[1..] == tail;
    assert s == [s[0]] + (ModText(m) + rest);
    Regroup(NameText(name), [s[0]], ModText(m), rest);
  }

  lemma {:induction false} AcceptedHasParams(s: string, state: int) returns (ps: seq<Param>)
    requires Accepts(state) && Accepts(Run(state, s)) && '\0' !in s
    requires state == 1 ==> s == "" || !IsParameterTypeModifier(s[0])
    ensures WellFormed(ps) && s == Render(ps)
    decreases |s|, 1
  {
    if s == "" {
      ps := [];
    } else if s[0] == '[' {
      var n := AcceptedInName(s[1..]);
      assert s == "[" + (s[1..][..n] + "]" + s[1..][n + 1..]);
      ps := AcceptedAfterName(Some(s[1..][..n]), s[1..][n + 1..]);
    } else {
      RunDead(s[1..]);
      assert Delta(state, s[0]) == 1 == Delta(3, s[0]);
      ps := AcceptedAfterName(None, s);
    }
  }

  /** A name that is accepted has its closing bracket. */
  lemma {:induction false} AcceptedInName(s: string) returns (n: nat)
    requires Accepts(Run(2, s))
    ensures n < |s| && s[n] == ']' && ']' !in s[..n] && Accepts(Run(3, s[n + 1..]))
  {
    if s[0] == ']' {
      n := 0;
    } else {
      var m := AcceptedInName(s[1..]);
      n := m + 1;
      assert s[..n] == [s[0]] + s[1..][..m] && s[n + 1..] == s[1..][m + 1..];
    }
  }

  /** The validator accepts exactly the strings that spell a list of parameters. */
  lemma AcceptedExactly(s: string)
    requires '\0' !in s
    ensures Accepts(Run(0, s)) <==> exists ps :: WellFormed(ps) && Render(ps) == s
  {
    if Accepts(Run(0, s)) {
      var ps := AcceptedHasParams(s, 0);
    } else {
      forall ps | WellFormed(ps) ensures Render(ps) != s {
        SignaturesAccepted(0, ps);
      }
    }
  }

  method IsValidParameterString(p: string) returns (valid: bool)
    requires '\0' !in p
    ensures valid <==> exists ps :: WellFormed(ps) && Render(ps) == p
  {
    var state, i := 0, 0;
    while i < |p| && state != -1
      invariant 0 <= i <= |p| && state == Run(0, p[..i])
      invariant -1 <= state <= 3
    {
      var c := p[i];
      RunStep(0, p, i);
      if state == 0 {
        if IsParameterTypeSpecifier(c) {
          state := 1;
        } else if c == '[' {
          state := 2;
        } else {
          state := -1;
        }
      } else if state == 1 {
        if IsParameterTypeSpecifier(c) {
        } else if c == '[' {
          state := 2;
        } else if IsParameterTypeModifier(c) {
          state := 0;
        } else {
          state := -1;
        }
      } else if state == 2 {
        if c == ']' {
          state := 3;
        }
      } else {
        if IsParameterTypeSpecifier(c) {
          state := 1;
        } else {
          state := -1;
        }
      }
      i := i + 1;
    }
    valid := state == 0 || state == 1;
    RunConcat(0, p[..i], p[i..]);
    RunDead(p[i..]);
    assert p == p[..i] + p[i..];
    AcceptedExactly(p);
  }

  // ----- A signature has one reading -----

  lemma SameName(m: string, n: string, a: string, b: string)
    requires ']' !in m && ']' !in n && m + "]" + a == n + "]" + b
    ensures m == n && a == b
  {
    FirstBracket(m, a);
    FirstBracket(n, b);
    assert m == (m + "]" + a)[..|m|] && n == (n + "]" + b)[..|n|];
    assert a == (m + "]" + a)[|m| + 1..] && b == (n + "]" + b)[|n| + 1..];
  }

  function BracketAt(s: string): (i: nat)
    decreases s
  {
    if s == "" || s[0] == ']' then 0 else 1 + BracketAt(s[1..])
  }

  lemma {:induction false} FirstBracket(m: string, a: string)
    requires ']' !in m
    ensures BracketAt(m + "]" + a) == |m|
    decreases m
  {
    if m != "" {
      assert (m + "]" + a)[0] == m[0] && (m + "]" + a)[1..] == m[1..] + "]" + a;
      FirstBracket(m[1..], a);
    }
  }

  lemma SameModifier(m: Modifier, n: Modifier, ps: seq<Param>, qs: seq<Param>)
    requires WellFormed(ps) && WellFormed(qs) && ModText(m) + Render(ps) == ModText(n) + Render(qs)
    ensures m == n && Render(ps) == Render(qs)
  {
    LeadingModifier(m, ps);
    LeadingModifier(n, qs);
    assert Render(ps) == (ModText(m) + Render(ps))[|ModText(m)|..];
    assert Render(qs) == (ModText(n) + Render(qs))[|ModText(n)|..];
  }

  /** The modifier shows in the first character. */
  function ModifierOf(s: string): (m: Modifier) {
    if s == "" || !IsParameterTypeModifier(s[0]) then Single else if s[0] == '+' then OneOrMore else ZeroOrMore
  }

  lemma LeadingModifier(m: Modifier, ps: seq<Param>)
    requires WellFormed(ps)
    ensures ModifierOf(ModText(m) + Render(ps)) == m
  {
    NoLeadingModifier(ps);
  }

  lemma NoLeadingModifier(ps: seq<Param>)
    requires WellFormed(ps)
    ensures Render(ps) == "" || !IsParameterTypeModifier(Render(ps)[0])
  {
    if ps != [] {
      assert WellFormedParam(ps[0]);
    }
  }

  lemma Unfold(p: Param, rest: seq<Param>)
    ensures Render([p] + rest)
      == (if p.name.Some? then "[" + (p.name.value + "]" + ([p.ptype] + (ModText(p.mod) + Render(rest))))
          else [p.ptype] + (ModText(p.mod) + Render(rest)))
  {
    assert ([p] + rest)[1..] == rest;
  }

  lemma SameHead(c: char, d: char, a: string, b: string)
    requires [c] + a == [d] + b
    ensures c == d && a == b
  {
    assert ([c] + a)[0] == c && ([d] + b)[0] == d && ([c] + a)[1..] == a && ([d] + b)[1..] == b;
  }

  /** No string spells two lists of parameters. */
  lemma {:induction false} OneReading(ps: seq<Param>, qs: seq<Param>)
    requires WellFormed(ps) && WellFormed(qs) && Render(ps) == Render(qs)
    ensures ps == qs
    decreases ps
  {
    if ps == [] || qs == [] {
      return;
    }
    var p, q := ps[0], qs[0];
    assert ps == [p] + ps[1..] && qs == [q] + qs[1..] && WellFormedParam(p) && WellFormedParam(q);
    Unfold(p, ps[1..]);
    Unfold(q, qs[1..]);
    var a, b := [p.ptype] + (ModText(p.mod) + Render(ps[1..])), [q.ptype] + (ModText(q.mod) + Render(qs[1..]));
    SameStart(p, q, a, b);
    SameHead(p.ptype, q.ptype, ModText(p.mod) + Render(ps[1..]), ModText(q.mod) + Render(qs[1..]));
    SameModifier(p.mod, q.mod, ps[1..], qs[1..]);
    OneReading(ps[1..], qs[1..]);
  }

  lemma OpensWithBracket(p: Param, a: string)
    requires WellFormedParam(p) && a != "" && a[0] == p.ptype
    ensures var s := if p.name.Some? then "[" + (p.name.value + "]" + a) else a;
      s != "" && (s[0] == '[' <==> p.name.Some?)
  {
  }

  lemma SameStart(p: Param, q: Param, a: string, b: string)
    requires WellFormedParam(p) && WellFormedParam(q) && a != "" && b != "" && a[0] == p.ptype && b[0] == q.ptype
    requires (if p.name.Some? then "[" + (p.name.value + "]" + a) else a) == (if q.name.Some? then "[" + (q.name.value + "]" + b) else b)
    ensures p.name == q.name && a == b
  {
    OpensWithBracket(p, a);
    OpensWithBracket(q, b);
    if p.name.Some? {
      SameHead('[', '[', p.name.value + "]" + a, q.name.value + "]" + b);
      SameName(p.name.value, q.name.value, a, b);
    }
  }
}
