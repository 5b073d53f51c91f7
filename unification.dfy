/**
 * Robinson unification without an occurs check (Unifier.unify and sequenceUnify), the
 * substitution it produces, composition of substitutions, and resolution of a term to
 * the substitution's fixed point.
 */
module Unification {
  import opened Wrappers
  import opened Terms

  /** Unifier.Substitution: the raw map the algorithm produced, not resolved to a fixed point. */
  datatype Substitution = Substitution(resultMap: SubstMap)

  /** The empty substitution (EMPTY in the source). */
  const EMPTY: Substitution := Substitution(map[])

  /**
   * What unify returns: a substitution, or `null` (NoUnifier). The source's recursion is
   * not structural (the tails grow when a substitution is applied to them, and nothing
   * rules out cycles), so the model counts nesting depth in `fuel`; OutOfFuel is the
   * model's own third outcome, which `UnifyFuelMonotone` shows never changes an answer.
   */
  datatype Outcome = Unified(subst: Substitution) | NoUnifier | OutOfFuel

  /** A pair of terms to be made equal (Unifier.TermTerm). */
  datatype TermTerm = TermTerm(left: Term, right: Term)

  /** unify(lhs, rhs): a variable on either side is bound to the other side, with no occurs check;
    * two atoms unify when they are the same atom; two sequences element by element; anything else fails. */
  function Unify(lhs: Term, rhs: Term, fuel: nat): Outcome
    decreases fuel, 1, 0
  {
    if lhs.Variable? then Unified(Substitution(map[lhs.name := rhs]))
    else if rhs.Variable? then Unified(Substitution(map[rhs.name := lhs]))
    else if lhs.Atom? && rhs.Atom? then (if lhs.name == rhs.name then Unified(EMPTY) else NoUnifier)
    else if lhs.Sequence? && rhs.Sequence? then SequenceUnify(lhs.terms, rhs.terms, fuel)
    else NoUnifier
  }

  /** sequenceUnify: unify the heads, apply that substitution to both tails, unify the tails,
    * and merge the two maps, entries of the tails' map winning on a clash. */
  function SequenceUnify(lhs: seq<Term>, rhs: seq<Term>, fuel: nat): Outcome
    decreases fuel, 0, |lhs|
  {
    if |lhs| != |rhs| then NoUnifier
    else if |lhs| == 0 then Unified(EMPTY)
    else if fuel == 0 then OutOfFuel
    else
      match Unify(lhs[0], rhs[0], fuel - 1)
      case Unified(subs1) =>
        var restLhs := ApplyEach(lhs[1..], subs1.resultMap);
        var restRhs := ApplyEach(rhs[1..], subs1.resultMap);
        (match SequenceUnify(restLhs, restRhs, fuel)
         case Unified(subs2) => Unified(Substitution(subs1.resultMap + subs2.resultMap))
         case failed => failed)
      case failed => failed
  }

  /** The list form of unify: exactly one pair is supported, anything else throws. */
  function UnifyList(termPairs: seq<TermTerm>, fuel: nat): (r: Result<Outcome>)
    ensures r.Ok? <==> |termPairs| == 1
    ensures r.Ok? ==> r.value == Unify(termPairs[0].left, termPairs[0].right, fuel)
  {
    if |termPairs| == 1 then Ok(Unify(termPairs[0].left, termPairs[0].right, fuel))
    else Err("AssertionError")
  }

  // ---------------------------------------------------------------------------
  // Properties of unify

  /** Two atoms unify exactly when they are the same atom, and then to the empty substitution. */
  lemma UnifyAtoms(lhs: Term, rhs: Term, fuel: nat)
    requires lhs.Atom? && rhs.Atom?
    ensures Unify(lhs, rhs, fuel) == (if lhs == rhs then Unified(EMPTY) else NoUnifier)
  {
  }

  /** A variable on either side is bound to the whole other side, even when that side contains it. */
  lemma UnifyVariable(lhs: Term, rhs: Term, fuel: nat)
    requires lhs.Variable? || rhs.Variable?
    ensures var v := if lhs.Variable? then lhs else rhs;
            var other := if lhs.Variable? then rhs else lhs;
            Unify(lhs, rhs, fuel) == Unified(Substitution(map[v.name := other]))
  {
  }

  /** Sequences of different lengths never unify; an atom never unifies with a sequence;
    * two empty sequences unify to the empty substitution. */
  lemma UnifyShapeMismatch(lhs: Term, rhs: Term, fuel: nat)
    requires !lhs.Variable? && !rhs.Variable?
    ensures lhs.Atom? != rhs.Atom? ==> Unify(lhs, rhs, fuel) == NoUnifier
    ensures lhs.Sequence? && rhs.Sequence? && |lhs.terms| != |rhs.terms| ==> Unify(lhs, rhs, fuel) == NoUnifier
    ensures lhs == rhs == Sequence([]) ==> Unify(lhs, rhs, fuel) == Unified(EMPTY)
  {
  }

  /** More fuel never changes an answer that was reached: fuel only cuts the recursion off. */
  lemma {:induction false} UnifyFuelMonotone(lhs: Term, rhs: Term, fuel: nat, more: nat)
    requires fuel <= more && Unify(lhs, rhs, fuel) != OutOfFuel
    ensures Unify(lhs, rhs, more) == Unify(lhs, rhs, fuel)
    decreases fuel, 1, 0
  {
    if !lhs.Variable? && !rhs.Variable? && lhs.Sequence? && rhs.Sequence? {
      SequenceUnifyFuelMonotone(lhs.terms, rhs.terms, fuel, more);
    }
  }

  /** `UnifyFuelMonotone` for sequences. */
  lemma {:induction false} SequenceUnifyFuelMonotone(lhs: seq<Term>, rhs: seq<Term>, fuel: nat, more: nat)
    requires fuel <= more && SequenceUnify(lhs, rhs, fuel) != OutOfFuel
    ensures SequenceUnify(lhs, rhs, more) == SequenceUnify(lhs, rhs, fuel)
    decreases fuel, 0, |lhs|
  {
    if |lhs| == |rhs| && |lhs| > 0 {
      assert fuel > 0;
      var first := Unify(lhs[0], rhs[0], fuel - 1);
      UnifyFuelMonotone(lhs[0], rhs[0], fuel - 1, more - 1);
      if first.Unified? {
        var m := first.subst.resultMap;
        var restLhs, restRhs := ApplyEach(lhs[1..], m), ApplyEach(rhs[1..], m);
        SequenceUnifyFuelMonotone(restLhs, restRhs, fuel, more);
        var rest := SequenceUnify(restLhs, restRhs, fuel);
        assert SequenceUnify(lhs, rhs, fuel) == if rest.Unified? then Unified(Substitution(m + rest.subst.resultMap)) else rest;
        assert SequenceUnify(lhs, rhs, more) == if rest.Unified? then Unified(Substitution(m + rest.subst.resultMap)) else rest;
      } else {
        assert SequenceUnify(lhs, rhs, fuel) == first == SequenceUnify(lhs, rhs, more);
      }
    }
  }

  /** Unification invents no variables: every variable the substitution binds or mentions
    * occurs in one of the two inputs. */
  lemma {:induction false} UnifyIntroducesNoVariables(lhs: Term, rhs: Term, fuel: nat)
    requires Unify(lhs, rhs, fuel).Unified?
    ensures VarsOfMap(Unify(lhs, rhs, fuel).subst.resultMap) <= Vars(lhs) + Vars(rhs)
    decreases fuel, 1, 0
  {
    var m := Unify(lhs, rhs, fuel).subst.resultMap;
    if lhs.Variable? {
      SingletonVars(lhs.name, rhs);
    } else if rhs.Variable? {
      SingletonVars(rhs.name, lhs);
    } else if lhs.Atom? && rhs.Atom? {
      assert VarsOfMap(m) == {};
    } else {
      SequenceUnifyIntroducesNoVariables(lhs.terms, rhs.terms, fuel);
    }
  }

  /** `UnifyIntroducesNoVariables` for sequences. */
  lemma {:induction false} SequenceUnifyIntroducesNoVariables(lhs: seq<Term>, rhs: seq<Term>, fuel: nat)
    requires SequenceUnify(lhs, rhs, fuel).Unified?
    ensures VarsOfMap(SequenceUnify(lhs, rhs, fuel).subst.resultMap) <= VarsOf(lhs) + VarsOf(rhs)
    decreases fuel, 0, |lhs|
  {
    if |lhs| == 0 {
      assert VarsOfMap(map[]) == {};
    } else {
      var m1 := Unify(lhs[0], rhs[0], fuel - 1).subst.resultMap;
      UnifyIntroducesNoVariables(lhs[0], rhs[0], fuel - 1);
      var restLhs, restRhs := ApplyEach(lhs[1..], m1), ApplyEach(rhs[1..], m1);
      var m2 := SequenceUnify(restLhs, restRhs, fuel).subst.resultMap;
      SequenceUnifyIntroducesNoVariables(restLhs, restRhs, fuel);
      var all := VarsOf(lhs) + VarsOf(rhs);
      assert Vars(lhs[0]) + Vars(rhs[0]) <= all;
      ApplyEachVars(lhs[1..], m1);
      ApplyEachVars(rhs[1..], m1);
      TailVars(lhs);
      TailVars(rhs);
      MergeVars(m1, m2);
    }
  }

  /** A one-entry map mentions its variable and the variables of its term. */
  lemma SingletonVars(v: string, t: Term)
    ensures VarsOfMap(map[v := t]) <= {v} + Vars(t)
  {
    forall x | x in VarsOfMap(map[v := t]) ensures x in {v} + Vars(t) {
      if x != v {
        var w :| w in map[v := t] && x in Vars(map[v := t][w]);
      }
    }
  }

  /** Applying a substitution to each element introduces only the substitution's variables. */
  lemma ApplyEachVars(ts: seq<Term>, m: SubstMap)
    ensures VarsOf(ApplyEach(ts, m)) <= VarsOf(ts) + VarsOfMap(m)
  {
    var r := ApplyEach(ts, m);
    forall x | x in VarsOf(r) ensures x in VarsOf(ts) + VarsOfMap(m) {
      var i :| 0 <= i < |r| && x in Vars(r[i]);
      ApplyVars(ts[i], m);
    }
  }

  /** The tail of a sequence mentions no variable the whole does not. */
  lemma TailVars(ts: seq<Term>)
    requires |ts| > 0
    ensures VarsOf(ts[1..]) <= VarsOf(ts)
  {
    forall x | x in VarsOf(ts[1..]) ensures x in VarsOf(ts) {
      var i :| 0 <= i < |ts[1..]| && x in Vars(ts[1..][i]);
      assert ts[1..][i] == ts[i + 1];
    }
  }

  /** Merging two maps mentions only their variables. */
  lemma MergeVars(m1: SubstMap, m2: SubstMap)
    ensures VarsOfMap(m1 + m2) <= VarsOfMap(m1) + VarsOfMap(m2)
  {
    forall x | x in VarsOfMap(m1 + m2) ensures x in VarsOfMap(m1) + VarsOfMap(m2) {
      if x !in (m1 + m2).Keys {
        var v :| v in m1 + m2 && x in Vars((m1 + m2)[v]);
        if v in m2 {
          assert x in Vars(m2[v]);
        } else {
          assert x in Vars(m1[v]);
        }
      }
    }
  }

  /** On terms without variables unify decides equality: the same term gives the empty
    * substitution, a different one gives no unifier. Fuel up to the left term's nesting depth
    * always suffices, since a ground head's substitution is empty and leaves the tails alone. */
  lemma {:induction false} UnifyGroundIsEquality(lhs: Term, rhs: Term, fuel: nat)
    requires Vars(lhs) == {} && Vars(rhs) == {}
    requires fuel >= Depth(lhs)
    ensures Unify(lhs, rhs, fuel) == if lhs == rhs then Unified(EMPTY) else NoUnifier
    decreases fuel, 1, 0
  {
    if lhs.Sequence? && rhs.Sequence? {
      var ts := lhs.terms;
      var depths := seq(|ts|, i requires 0 <= i < |ts| => Depth(ts[i]));
      assert forall i | 0 <= i < |ts| :: Depth(ts[i]) == depths[i] <= MaxOf(depths);
      SequenceUnifyGroundIsEquality(lhs.terms, rhs.terms, fuel);
    }
  }

  /** `UnifyGroundIsEquality` for sequences: fuel above every left element's depth suffices. */
  lemma {:induction false} SequenceUnifyGroundIsEquality(lhs: seq<Term>, rhs: seq<Term>, fuel: nat)
    requires VarsOf(lhs) == {} && VarsOf(rhs) == {}
    requires forall i | 0 <= i < |lhs| :: Depth(lhs[i]) < fuel
    ensures SequenceUnify(lhs, rhs, fuel) == if lhs == rhs then Unified(EMPTY) else NoUnifier
    decreases fuel, 0, |lhs|
  {
    if |lhs| == |rhs| && |lhs| > 0 {
      assert Vars(lhs[0]) == {} by { assert forall x | x in Vars(lhs[0]) :: x in VarsOf(lhs); }
      assert Vars(rhs[0]) == {} by { assert forall x | x in Vars(rhs[0]) :: x in VarsOf(rhs); }
      UnifyGroundIsEquality(lhs[0], rhs[0], fuel - 1);
      if lhs[0] == rhs[0] {
        ApplyEachEmpty(lhs[1..]);
        ApplyEachEmpty(rhs[1..]);
        TailVars(lhs);
        TailVars(rhs);
        assert forall i | 0 <= i < |lhs[1..]| :: lhs[1..][i] == lhs[i + 1];
        SequenceUnifyGroundIsEquality(lhs[1..], rhs[1..], fuel);
        assert EMPTY.resultMap + EMPTY.resultMap == EMPTY.resultMap;
        assert lhs == [lhs[0]] + lhs[1..] && rhs == [rhs[0]] + rhs[1..];
      } else {
        assert lhs != rhs;
      }
    }
  }

  /** Applying the empty substitution to each element changes nothing. */
  lemma ApplyEachEmpty(ts: seq<Term>)
    ensures ApplyEach(ts, map[]) == ts
  {
    forall i | 0 <= i < |ts| ensures Apply(ts[i], map[]) == ts[i] {
      ApplyEmpty(ts[i]);
    }
  }

  // ---------------------------------------------------------------------------
  // compose

  /** What compose(s1, s2) promises: s1's entries, overwritten by s2's entries with s1 applied to their terms. */
  ghost predicate IsComposition(composed: SubstMap, s1: SubstMap, s2: SubstMap)
  {
    && composed.Keys == s1.Keys + s2.Keys
    && (forall v | v in s2 :: composed[v] == Apply(s2[v], s1))
    && (forall v | v in s1 && v !in s2 :: composed[v] == s1[v])
  }

  /** compose(s1, s2): copy s1, then put every entry of s2 with s1 applied to its term. */
  method Compose(s1: SubstMap, s2: SubstMap) returns (composed: SubstMap)
    ensures IsComposition(composed, s1, s2)
  {
    composed := s1;
    var pending := s2.Keys;
    while pending != {}
      invariant pending <= s2.Keys
      invariant composed.Keys == s1.Keys + (s2.Keys - pending)
      invariant forall v | v in s2.Keys - pending :: composed[v] == Apply(s2[v], s1)
      invariant forall v | v in s1 && v !in s2.Keys - pending :: composed[v] == s1[v]
      decreases pending
    {
      var v :| v in pending;
      composed := composed[v := Apply(s2[v], s1)];
      pending := pending - {v};
    }
  }

  /** Applying a composition is applying s2 and then s1. */
  lemma {:induction false} ApplyComposition(t: Term, composed: SubstMap, s1: SubstMap, s2: SubstMap)
    requires IsComposition(composed, s1, s2)
    ensures Apply(t, composed) == Apply(Apply(t, s2), s1)
  {
    match t
    case Atom(_) =>
    case Variable(n) =>
    case Sequence(ts) =>
      forall i | 0 <= i < |ts| ensures Apply(ts[i], composed) == Apply(Apply(ts[i], s2), s1) {
        ApplyComposition(ts[i], composed, s1, s2);
      }
      assert ApplyEach(ts, composed) == ApplyEach(ApplyEach(ts, s2), s1);
  }

  // ---------------------------------------------------------------------------
  // resolve

  /** The term after `n` applications of `m`. */
  ghost function Iterate(m: SubstMap, t: Term, n: nat): Term
  {
    if n == 0 then t else Apply(Iterate(m, t, n - 1), m)
  }

  /** Repeated application reaches a term that `m` leaves unchanged: exactly when resolve stops. */
  ghost predicate ReachesFixedPoint(m: SubstMap, t: Term)
  {
    exists n: nat :: Iterate(m, t, n + 1) == Iterate(m, t, n)
  }

  /**
   * Substitution.resolve: apply the map until the term stops changing. The source's
   * do-while loop runs forever when no fixed point exists, which the missing occurs
   * check allows (see `ResolveOfTest17Diverges`); the precondition excludes exactly that.
   */
  method Resolve(s: Substitution, term: Term) returns (current: Term, ghost steps: nat)
    requires ReachesFixedPoint(s.resultMap, term)
    ensures Apply(current, s.resultMap) == current
    ensures steps >= 1 && current == Iterate(s.resultMap, term, steps) == Iterate(s.resultMap, term, steps - 1)
    ensures forall j: nat | j < steps - 1 :: Iterate(s.resultMap, term, j + 1) != Iterate(s.resultMap, term, j)
  {
    var m := s.resultMap;
    ghost var bound: nat :| Iterate(m, term, bound + 1) == Iterate(m, term, bound);
    var previous := term;
    current := Apply(term, m);
    steps := 1;
    while current != previous
      invariant 1 <= steps <= bound + 1
      invariant previous == Iterate(m, term, steps - 1) && current == Iterate(m, term, steps)
      invariant forall j: nat | j < steps - 1 :: Iterate(m, term, j + 1) != Iterate(m, term, j)
      decreases bound + 1 - steps
    {
      assert steps != bound + 1 && Iterate(m, term, steps) != Iterate(m, term, steps - 1);
      previous := current;
      current := Apply(current, m);
      steps := steps + 1;
    }
  }

  // ---------------------------------------------------------------------------
  // Worked examples (the unifier's tests)

  /** Applying a substitution to `name(args)` keeps the functor and applies to the arguments. */
  lemma ApplyFn(name: string, args: seq<Term>, m: SubstMap)
    ensures Apply(Fn(name, args), m) == Fn(name, ApplyEach(args, m))
  {
    var t := Fn(name, args);
    assert Apply(t, m).terms == [Atom(name)] + ApplyEach(args, m) by {
      assert Apply(t, m).terms[0] == Atom(name);
      forall i | 1 <= i < |t.terms| ensures Apply(t, m).terms[i] == ApplyEach(args, m)[i - 1] {
        assert t.terms[i] == args[i - 1];
      }
    }
  }

  /** Unifying `name(args)` with `name(args')` is unifying the argument lists. */
  lemma UnifyFn(name: string, lhs: seq<Term>, rhs: seq<Term>, fuel: nat)
    requires fuel > 0
    ensures Unify(Fn(name, lhs), Fn(name, rhs), fuel) == SequenceUnify(lhs, rhs, fuel)
  {
    var l, r := Fn(name, lhs).terms, Fn(name, rhs).terms;
    assert Unify(l[0], r[0], fuel - 1) == Unified(EMPTY);
    ApplyEachEmpty(lhs);
    ApplyEachEmpty(rhs);
    var rest := SequenceUnify(lhs, rhs, fuel);
    if rest.Unified? {
      assert map[] + rest.subst.resultMap == rest.subst.resultMap;
    }
  }

  /** A constant `name()` is unchanged by any substitution. */
  lemma ApplyConst(name: string, m: SubstMap)
    ensures Apply(Fn(name, []), m) == Fn(name, [])
  {
    ApplyFn(name, [], m);
  }

  /** `name(arg)` with a constant argument is unchanged by any substitution. */
  lemma ApplyUnary(name: string, arg: Term, m: SubstMap)
    requires Apply(arg, m) == arg
    ensures Apply(Fn(name, [arg]), m) == Fn(name, [arg])
  {
    ApplyFn(name, [arg], m);
    assert ApplyEach([arg], m) == [arg];
  }

  /** A one-binding map merged before a map that does not bind its key adds that binding. */
  lemma MergeSingle(k: string, v: Term, m: SubstMap)
    requires k !in m
    ensures map[k := v] + m == m[k := v]
  {
  }

  /** Unifying two one-element lists whose first pair unifies. */
  lemma SequenceUnifySingle(lhs: Term, rhs: Term, fuel: nat, s: SubstMap)
    requires fuel > 0 && Unify(lhs, rhs, fuel - 1) == Unified(Substitution(s))
    ensures SequenceUnify([lhs], [rhs], fuel) == Unified(Substitution(s))
  {
    assert ApplyEach([lhs][1..], s) == [];
    assert ApplyEach([rhs][1..], s) == [];
    assert s + map[] == s;
  }

  /** One step of sequenceUnify: the heads give s1 and the substituted tails give s2. */
  lemma SequenceUnifyStep(lhs: seq<Term>, rhs: seq<Term>, fuel: nat, s1: SubstMap, s2: SubstMap)
    requires |lhs| == |rhs| > 0 && fuel > 0
    requires Unify(lhs[0], rhs[0], fuel - 1) == Unified(Substitution(s1))
    requires SequenceUnify(ApplyEach(lhs[1..], s1), ApplyEach(rhs[1..], s1), fuel) == Unified(Substitution(s2))
    ensures SequenceUnify(lhs, rhs, fuel) == Unified(Substitution(s1 + s2))
  {
  }

  /** The tail of test 2: g(b), Y against g(W), c. */
  lemma UnifyTest2Tail()
    ensures SequenceUnify([Fn("g", [Fn("b", [])]), Variable("Y")], [Fn("g", [Variable("W")]), Fn("c", [])], 5)
         == Unified(Substitution(map["W" := Fn("b", []), "Y" := Fn("c", [])]))
  {
    var b, c := Fn("b", []), Fn("c", []);
    var gb, gw := Fn("g", [b]), Fn("g", [Variable("W")]);
    var m2 := map["W" := b];
    UnifyFn("g", [b], [Variable("W")], 4);
    SequenceUnifySingle(b, Variable("W"), 4, m2);
    ApplyConst("c", m2);
    assert ApplyEach([gb, Variable("Y")][1..], m2) == [Variable("Y")];
    assert ApplyEach([gw, c][1..], m2) == [c];
    var m3 := map["Y" := c];
    SequenceUnifySingle(Variable("Y"), c, 5, m3);
    SequenceUnifyStep([gb, Variable("Y")], [gw, c], 5, m2, m3);
    assert m2 + m3 == map["W" := b, "Y" := c];
  }

  /** The arguments of test 2: f(a), g(b), Y against Z, g(W), c. */
  lemma UnifyTest2Args()
    ensures SequenceUnify([Fn("f", [Fn("a", [])]), Fn("g", [Fn("b", [])]), Variable("Y")],
                          [Variable("Z"), Fn("g", [Variable("W")]), Fn("c", [])], 5)
         == Unified(Substitution(map["W" := Fn("b", []), "Y" := Fn("c", []), "Z" := Fn("f", [Fn("a", [])])]))
  {
    var a, b, c := Fn("a", []), Fn("b", []), Fn("c", []);
    var fa, gb, gw := Fn("f", [a]), Fn("g", [b]), Fn("g", [Variable("W")]);
    var lhs, rhs := [fa, gb, Variable("Y")], [Variable("Z"), gw, c];
    var m1 := map["Z" := fa];
    ApplyConst("b", m1);
    ApplyUnary("g", b, m1);
    ApplyConst("c", m1);
    ApplyFn("g", [Variable("W")], m1);
    assert ApplyEach([Variable("W")], m1) == [Variable("W")];
    assert ApplyEach(lhs[1..], m1) == [gb, Variable("Y")];
    assert ApplyEach(rhs[1..], m1) == [gw, c];
    var m23 := map["W" := b, "Y" := c];
    UnifyTest2Tail();
    SequenceUnifyStep(lhs, rhs, 5, m1, m23);
    MergeSingle("Z", fa, m23);
  }

  /** p(f(a), g(b), Y) and p(Z, g(W), c) unify to [b/W, c/Y, f(a)/Z]. */
  lemma UnifyTest2()
    ensures Unify(Fn("p", [Fn("f", [Fn("a", [])]), Fn("g", [Fn("b", [])]), Variable("Y")]),
                  Fn("p", [Variable("Z"), Fn("g", [Variable("W")]), Fn("c", [])]), 5)
         == Unified(Substitution(map["W" := Fn("b", []), "Y" := Fn("c", []), "Z" := Fn("f", [Fn("a", [])])]))
  {
    UnifyFn("p", [Fn("f", [Fn("a", [])]), Fn("g", [Fn("b", [])]), Variable("Y")],
            [Variable("Z"), Fn("g", [Variable("W")]), Fn("c", [])], 5);
    UnifyTest2Args();
  }

  /** p(a, X) and p(b, Y) do not unify: two different atoms meet at the same position. */
  lemma UnifyTest5()
    ensures Unify(Fn("p", [Fn("a", []), Variable("X")]), Fn("p", [Fn("b", []), Variable("Y")]), 5) == NoUnifier
  {
    var a, b := Fn("a", []), Fn("b", []);
    UnifyFn("p", [a, Variable("X")], [b, Variable("Y")], 5);
    assert a.terms[0] != b.terms[0];
    assert Unify(a, b, 4) == NoUnifier;
  }

  /** f(g(X), X) and f(Y) do not unify: different lengths. */
  lemma UnifyTest9()
    ensures Unify(Fn("f", [Fn("g", [Variable("X")]), Variable("X")]), Fn("f", [Variable("Y")]), 5) == NoUnifier
  {
  }

  /** The tail of test 16 once Z is bound: X, h(g(a)) against h(Y), h(Y). */
  lemma UnifyTest16Tail()
    ensures SequenceUnify([Variable("X"), Fn("h", [Fn("g", [Fn("a", [])])])],
                          [Fn("h", [Variable("Y")]), Fn("h", [Variable("Y")])], 5)
         == Unified(Substitution(map["X" := Fn("h", [Variable("Y")]), "Y" := Fn("g", [Fn("a", [])])]))
  {
    var a := Fn("a", []);
    var hy, ga := Fn("h", [Variable("Y")]), Fn("g", [a]);
    var hga := Fn("h", [ga]);
    var m2 := map["X" := hy];
    ApplyConst("a", m2);
    ApplyUnary("g", a, m2);
    ApplyUnary("h", ga, m2);
    ApplyFn("h", [Variable("Y")], m2);
    assert ApplyEach([Variable("Y")], m2) == [Variable("Y")];
    assert ApplyEach([Variable("X"), hga][1..], m2) == [hga];
    assert ApplyEach([hy, hy][1..], m2) == [hy];
    var m3 := map["Y" := ga];
    UnifyFn("h", [ga], [Variable("Y")], 4);
    SequenceUnifySingle(ga, Variable("Y"), 4, m3);
    SequenceUnifySingle(hga, hy, 5, m3);
    SequenceUnifyStep([Variable("X"), hga], [hy, hy], 5, m2, m3);
    assert m2 + m3 == map["X" := hy, "Y" := ga];
  }

  /** The arguments of test 16: a, X, h(g(Z)) against Z, h(Y), h(Y). */
  lemma UnifyTest16Args()
    ensures SequenceUnify([Fn("a", []), Variable("X"), Fn("h", [Fn("g", [Variable("Z")])])],
                          [Variable("Z"), Fn("h", [Variable("Y")]), Fn("h", [Variable("Y")])], 5)
         == Unified(Substitution(map["X" := Fn("h", [Variable("Y")]), "Y" := Fn("g", [Fn("a", [])]), "Z" := Fn("a", [])]))
  {
    var a := Fn("a", []);
    var hy, gz, ga := Fn("h", [Variable("Y")]), Fn("g", [Variable("Z")]), Fn("g", [a]);
    var hgz, hga := Fn("h", [gz]), Fn("h", [ga]);
    var lhs, rhs := [a, Variable("X"), hgz], [Variable("Z"), hy, hy];
    var m1 := map["Z" := a];
    ApplyFn("g", [Variable("Z")], m1);
    assert ApplyEach([Variable("Z")], m1) == [a];
    ApplyFn("h", [gz], m1);
    assert ApplyEach([gz], m1) == [ga];
    ApplyFn("h", [Variable("Y")], m1);
    assert ApplyEach([Variable("Y")], m1) == [Variable("Y")];
    assert ApplyEach(lhs[1..], m1) == [Variable("X"), hga];
    assert ApplyEach(rhs[1..], m1) == [hy, hy];
    var m23 := map["X" := hy, "Y" := ga];
    UnifyTest16Tail();
    SequenceUnifyStep(lhs, rhs, 5, m1, m23);
    MergeSingle("Z", a, m23);
  }

  /** p(a, X, h(g(Z))) and p(Z, h(Y), h(Y)) unify to [h(Y)/X, g(a)/Y, a/Z]: later pairs see earlier bindings. */
  lemma UnifyTest16()
    ensures Unify(Fn("p", [Fn("a", []), Variable("X"), Fn("h", [Fn("g", [Variable("Z")])])]),
                  Fn("p", [Variable("Z"), Fn("h", [Variable("Y")]), Fn("h", [Variable("Y")])]), 5)
         == Unified(Substitution(map["X" := Fn("h", [Variable("Y")]), "Y" := Fn("g", [Fn("a", [])]), "Z" := Fn("a", [])]))
  {
    UnifyFn("p", [Fn("a", []), Variable("X"), Fn("h", [Fn("g", [Variable("Z")])])],
            [Variable("Z"), Fn("h", [Variable("Y")]), Fn("h", [Variable("Y")])], 5);
    UnifyTest16Args();
  }

  /** p(X, X) and p(Y, f(Y)) unify to [Y/X, f(Y)/Y]: no occurs check. */
  lemma UnifyTest17()
    ensures Unify(Fn("p", [Variable("X"), Variable("X")]), Fn("p", [Variable("Y"), Fn("f", [Variable("Y")])]), 5)
         == Unified(Substitution(map["X" := Variable("Y"), "Y" := Fn("f", [Variable("Y")])]))
  {
    var fy := Fn("f", [Variable("Y")]);
    UnifyFn("p", [Variable("X"), Variable("X")], [Variable("Y"), fy], 5);
    var m1 := map["X" := Variable("Y")];
    ApplyFn("f", [Variable("Y")], m1);
    assert ApplyEach([Variable("Y")], m1) == [Variable("Y")];
    assert ApplyEach([Variable("X"), Variable("X")][1..], m1) == [Variable("Y")];
    assert ApplyEach([Variable("Y"), fy][1..], m1) == [fy];
    var m2 := map["Y" := fy];
    SequenceUnifySingle(Variable("Y"), fy, 5, m2);
    assert m1 + m2 == map["X" := Variable("Y"), "Y" := fy];
  }

  /** `n` applications of f around Y. */
  function Nest(y: string, n: nat): Term
  {
    if n == 0 then Variable(y) else Fn("f", [Nest(y, n - 1)])
  }

  /** Under [Y/X, f(Y)/Y], applying once more wraps one more f around Y. */
  lemma {:induction false} ApplyNest(m: SubstMap, n: nat)
    requires m == map["X" := Variable("Y"), "Y" := Fn("f", [Variable("Y")])]
    ensures Apply(Nest("Y", n), m) == Nest("Y", n + 1)
  {
    if n > 0 {
      ApplyNest(m, n - 1);
      assert ApplyEach(Nest("Y", n).terms, m) == [Atom("f"), Nest("Y", n)];
    }
  }

  /** The sequence [X, X]. */
  const SelfPair: Term := Sequence([Variable("X"), Variable("X")])

  /** unify([X, X], [[X, X], [X, X]]) never stops: X is bound to [X, X], which turns the
    * remaining pair into the same problem one level down. */
  lemma {:induction false} UnifyDiverges(fuel: nat)
    ensures Unify(SelfPair, Sequence([SelfPair, SelfPair]), fuel) == OutOfFuel
  {
    var s, t := SelfPair, Sequence([SelfPair, SelfPair]);
    if fuel > 0 {
      var m := map["X" := s];
      assert Unify(s.terms[0], t.terms[0], fuel - 1) == Unified(Substitution(m));
      assert Apply(s, m) == t;
      assert ApplyEach(s.terms[1..], m) == [s];
      assert ApplyEach(t.terms[1..], m) == [t];
      UnifyDiverges(fuel - 1);
      assert SequenceUnify([s], [t], fuel) == OutOfFuel;
    }
  }

  /** Resolving X under test 17's answer never stops: X, Y, f(Y), f(f(Y)), ... */
  lemma ResolveOfTest17Diverges()
    ensures !ReachesFixedPoint(map["X" := Variable("Y"), "Y" := Fn("f", [Variable("Y")])], Variable("X"))
  {
    var m := map["X" := Variable("Y"), "Y" := Fn("f", [Variable("Y")])];
    forall n: nat ensures Iterate(m, Variable("X"), n + 1) == Nest("Y", n) {
      IterateNest(m, n);
    }
    forall n: nat ensures Iterate(m, Variable("X"), n + 1) != Iterate(m, Variable("X"), n) {
      if n > 0 {
        assert Nest("Y", n).terms[1] == Nest("Y", n - 1);
      }
    }
  }

  /** Iterating test 17's answer from X. */
  lemma {:induction false} IterateNest(m: SubstMap, n: nat)
    requires m == map["X" := Variable("Y"), "Y" := Fn("f", [Variable("Y")])]
    ensures Iterate(m, Variable("X"), n + 1) == Nest("Y", n)
  {
    if n > 0 {
      IterateNest(m, n - 1);
      ApplyNest(m, n - 1);
    }
  }

  /**
   * Without the occurs check a substitution can make the two sides differ after resolution:
   * p(X, X) and p(f(X), f(a)) give [a/X] (the tail's entry overwrites X/f(X)), and resolving
   * the two sides gives p(a, a) and p(f(a), f(a)).
   */
  lemma NoOccursCheckIsUnsound()
    ensures var lhs := Fn("p", [Variable("X"), Variable("X")]);
            var rhs := Fn("p", [Fn("f", [Variable("X")]), Fn("f", [Fn("a", [])])]);
            && Unify(lhs, rhs, 5) == Unified(Substitution(map["X" := Fn("a", [])]))
            && Apply(lhs, map["X" := Fn("a", [])]) != Apply(rhs, map["X" := Fn("a", [])])
  {
    var a := Fn("a", []);
    var fx, fa, ffa := Fn("f", [Variable("X")]), Fn("f", [a]), Fn("f", [Fn("f", [a])]);
    UnifyFn("p", [Variable("X"), Variable("X")], [fx, fa], 5);
    var m1 := map["X" := fx];
    ApplyConst("a", m1);
    ApplyUnary("f", a, m1);
    assert ApplyEach([Variable("X"), Variable("X")][1..], m1) == [fx];
    assert ApplyEach([fx, fa][1..], m1) == [fa];
    var m2 := map["X" := a];
    assert Unify(fx, fa, 4) == Unified(Substitution(m2)) by {
      UnifyFn("f", [Variable("X")], [a], 4);
      SequenceUnifySingle(Variable("X"), a, 4, m2);
    }
    SequenceUnifySingle(fx, fa, 5, m2);
    assert m1 + m2 == m2;
    var lhs, rhs := Fn("p", [Variable("X"), Variable("X")]), Fn("p", [fx, fa]);
    ApplyFn("p", [Variable("X"), Variable("X")], m2);
    assert Apply(lhs, m2).terms[1] == a;
    ApplyFn("p", [fx, fa], m2);
    assert Apply(rhs, m2).terms[1] == Apply(fx, m2);
    ApplyFn("f", [Variable("X")], m2);
    assert Apply(fx, m2).terms[0] == Atom("f") != a.terms[0];
  }
}
