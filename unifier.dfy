/**
 * The Unifier instance: per-instance tables that intern atoms, variables and sequences,
 * the fresh-variable counter, and the substitution builder.
 */
module Unifiers {
  import opened Wrappers
  import opened Terms
  import opened Unification

  // ---------------------------------------------------------------------------
  // Names of fresh variables: "T" followed by the decimal counter

  /** The decimal digit for `d`. */
  function DigitChar(d: nat): (c: char)
    requires d < 10
    ensures '0' <= c <= '9' && c as int - '0' as int == d
  {
    (d + '0' as int) as char
  }

  /** Java's decimal rendering of a non-negative int. */
  function NatToString(n: nat): (s: string)
    ensures |s| >= 1 && forall i | 0 <= i < |s| :: '0' <= s[i] <= '9'
    decreases n
  {
    if n < 10 then [DigitChar(n)] else NatToString(n / 10) + [DigitChar(n % 10)]
  }

  /** Reads a string of decimal digits back; None when it is empty or holds a non-digit. */
  function ParseDigits(s: string): Option<nat>
    decreases |s|
  {
    if |s| == 0 || !('0' <= s[|s| - 1] <= '9') then None
    else
      var d := s[|s| - 1] as int - '0' as int;
      if |s| == 1 then Some(d)
      else match ParseDigits(s[..|s| - 1])
        case Some(high) => Some(high * 10 + d)
        case None => None
  }

  /** Reading back a rendered number gives the number. */
  lemma {:induction false} ParseNatToString(n: nat)
    ensures ParseDigits(NatToString(n)) == Some(n)
    decreases n
  {
    if n >= 10 {
      var s := NatToString(n);
      ParseNatToString(n / 10);
      assert s[..|s| - 1] == NatToString(n / 10);
    }
  }

  /** The name of the k-th fresh variable. */
  function VarName(k: nat): string
  {
    "T" + NatToString(k)
  }

  /** The counter value a fresh-variable name was made from, if it is one. */
  function ParseVarName(s: string): Option<nat>
  {
    if |s| >= 1 && s[0] == 'T' then ParseDigits(s[1..]) else None
  }

  /** Fresh-variable names determine their counter value, so distinct counters give distinct names. */
  lemma ParseVarNameOfVarName(k: nat)
    ensures ParseVarName(VarName(k)) == Some(k)
  {
    assert VarName(k)[1..] == NatToString(k);
    ParseNatToString(k);
  }

  /** The table names that some later counter value would produce: shrinks as the counter moves past them. */
  function Pending(keys: set<string>, varId: nat): set<string>
  {
    set s | s in keys && ParseVarName(s).Some? && ParseVarName(s).value >= varId
  }

  /** Moving the counter past a name the table holds shrinks the pending names. */
  lemma PendingShrinks(keys: set<string>, varId: nat)
    requires VarName(varId) in keys
    ensures Pending(keys, varId + 1) < Pending(keys, varId)
  {
    ParseVarNameOfVarName(varId);
    assert VarName(varId) in Pending(keys, varId) && VarName(varId) !in Pending(keys, varId + 1);
  }

  /** The loop of variable(): counts up from `start` past every name the table already holds. */
  method FirstFreshId(taken: map<string, Term>, start: nat) returns (k: nat)
    ensures k >= start && VarName(k) !in taken
    ensures forall j | start <= j < k :: VarName(j) in taken
  {
    k := start;
    while VarName(k) in taken
      invariant k >= start
      invariant forall j | start <= j < k :: VarName(j) in taken
      decreases Pending(taken.Keys, k)
    {
      PendingShrinks(taken.Keys, k);
      k := k + 1;
    }
  }

  // ---------------------------------------------------------------------------
  // Variable names must contain an upper-case letter

  /** Locale.ROOT lower-casing, on ASCII letters. */
  function ToLower(s: string): (r: string)
    ensures |r| == |s|
    ensures forall i | 0 <= i < |s| :: r[i] == if 'A' <= s[i] <= 'Z' then (s[i] as int + 32) as char else s[i]
  {
    seq(|s|, i requires 0 <= i < |s| => if 'A' <= s[i] <= 'Z' then (s[i] as int + 32) as char else s[i])
  }

  /** The Variable constructor's check: lower-casing the name must change it. */
  predicate IsVariableName(name: string)
  {
    name != ToLower(name)
  }

  /** A name passes the check exactly when it has an upper-case letter. */
  lemma IsVariableNameIffUpper(name: string)
    ensures IsVariableName(name) <==> exists i | 0 <= i < |name| :: 'A' <= name[i] <= 'Z'
  {
    if IsVariableName(name) {
      var i :| 0 <= i < |name| && ToLower(name)[i] != name[i];
    } else {
      forall i | 0 <= i < |name| ensures !('A' <= name[i] <= 'Z') {
        assert ToLower(name)[i] == name[i];
      }
    }
  }

  /** Every fresh-variable name passes the check. */
  lemma VarNameIsVariableName(k: nat)
    ensures IsVariableName(VarName(k))
  {
    assert ToLower(VarName(k))[0] == 't';
  }

  // ---------------------------------------------------------------------------
  // substitution(...)

  /** Every odd position holds a variable (the cast in the loop succeeds). */
  predicate VariablesAtOddPositions(varTerms: seq<Term>)
  {
    forall i | 0 <= i < |varTerms| / 2 :: varTerms[2 * i + 1].Variable?
  }

  /** The variables at the first `k` odd positions are pairwise distinct. */
  predicate DistinctPrefix(varTerms: seq<Term>, k: nat)
    requires k <= |varTerms| / 2
  {
    forall i, j | 0 <= i < j < k :: varTerms[2 * i + 1] != varTerms[2 * j + 1]
  }

  /** The variables at odd positions are pairwise distinct (the map builder accepts them). */
  predicate DistinctVariables(varTerms: seq<Term>)
  {
    DistinctPrefix(varTerms, |varTerms| / 2)
  }

  /** The map built from the first `k` pairs, a later pair overwriting an earlier one. */
  function PairsMap(varTerms: seq<Term>, k: nat): SubstMap
    requires k <= |varTerms| / 2
    requires forall j | 0 <= j < k :: varTerms[2 * j + 1].Variable?
  {
    if k == 0 then map[]
    else
      assert varTerms[2 * (k - 1) + 1].Variable?;
      PairsMap(varTerms, k - 1)[varTerms[2 * k - 1].name := varTerms[2 * k - 2]]
  }

  /** What substitution(...) returns or throws. */
  function SubstitutionOf(varTerms: seq<Term>): Result<Substitution>
  {
    if |varTerms| % 2 != 0 then Err("AssertionError")
    else if !VariablesAtOddPositions(varTerms) then Err("ClassCastException")
    else if !DistinctVariables(varTerms) then Err("IllegalArgumentException")
    else Ok(Substitution(PairsMap(varTerms, |varTerms| / 2)))
  }

  /** The first `k` pairs bind exactly their variables' names. */
  lemma {:induction false} PairsMapKeys(varTerms: seq<Term>, k: nat)
    requires k <= |varTerms| / 2
    requires forall j | 0 <= j < k :: varTerms[2 * j + 1].Variable?
    ensures PairsMap(varTerms, k).Keys == set j | 0 <= j < k :: varTerms[2 * j + 1].name
  {
    if k > 0 {
      PairsMapKeys(varTerms, k - 1);
      assert (set j | 0 <= j < k :: varTerms[2 * j + 1].name)
          == (set j | 0 <= j < k - 1 :: varTerms[2 * j + 1].name) + {varTerms[2 * (k - 1) + 1].name};
    }
  }

  /** One more pair keeps the variables distinct exactly when its variable is not bound yet. */
  lemma DistinctPrefixStep(varTerms: seq<Term>, k: nat)
    requires k < |varTerms| / 2
    requires forall j | 0 <= j <= k :: varTerms[2 * j + 1].Variable?
    ensures DistinctPrefix(varTerms, k + 1) <==>
      DistinctPrefix(varTerms, k) && varTerms[2 * k + 1].name !in PairsMap(varTerms, k)
  {
    var v := varTerms[2 * k + 1];
    PairsMapKeys(varTerms, k);
    if v.name in PairsMap(varTerms, k) {
      var j :| 0 <= j < k && varTerms[2 * j + 1].name == v.name;
      assert varTerms[2 * j + 1] == v;
    } else {
      forall j | 0 <= j < k ensures varTerms[2 * j + 1] != v {
        assert varTerms[2 * j + 1].name in PairsMap(varTerms, k).Keys;
      }
    }
  }

  /** With distinct variables, each variable is bound to the term just before it. */
  lemma {:induction false} PairsMapValues(varTerms: seq<Term>, k: nat)
    requires k <= |varTerms| / 2
    requires forall j | 0 <= j < k :: varTerms[2 * j + 1].Variable?
    requires DistinctPrefix(varTerms, k)
    ensures forall j | 0 <= j < k :: varTerms[2 * j + 1].name in PairsMap(varTerms, k)
    ensures forall j | 0 <= j < k :: PairsMap(varTerms, k)[varTerms[2 * j + 1].name] == varTerms[2 * j]
  {
    if k > 0 {
      PairsMapValues(varTerms, k - 1);
      forall j | 0 <= j < k - 1 ensures varTerms[2 * j + 1].name != varTerms[2 * k - 1].name {
        assert varTerms[2 * j + 1] != varTerms[2 * (k - 1) + 1];
      }
    }
  }

  /** substitution(...) succeeds exactly for an even number of arguments with distinct variables at
    * the odd positions, and then maps each variable to the term before it and binds nothing else. */
  lemma SubstitutionOfMeaning(varTerms: seq<Term>)
    ensures SubstitutionOf(varTerms).Ok? <==>
      |varTerms| % 2 == 0 && VariablesAtOddPositions(varTerms) && DistinctVariables(varTerms)
    ensures SubstitutionOf(varTerms).Ok? ==>
      && SubstitutionOf(varTerms).value.resultMap.Keys == (set i | 0 <= i < |varTerms| / 2 :: varTerms[2 * i + 1].name)
      && forall i | 0 <= i < |varTerms| / 2 ::
           SubstitutionOf(varTerms).value.resultMap[varTerms[2 * i + 1].name] == varTerms[2 * i]
  {
    if SubstitutionOf(varTerms).Ok? {
      PairsMapKeys(varTerms, |varTerms| / 2);
      PairsMapValues(varTerms, |varTerms| / 2);
    }
  }

  /**
   * substitution(t1, X1, t2, X2, ...): the map [t1/X1, t2/X2, ...]. An odd number of arguments
   * throws AssertionError; a non-variable at an odd position throws in the cast; a repeated
   * variable throws when the map is built, after the loop.
   */
  method MakeSubstitution(varTerms: seq<Term>) returns (r: Result<Substitution>)
    ensures r == SubstitutionOf(varTerms)
  {
    if |varTerms| % 2 != 0 {
      return Err("AssertionError");
    }
    var m: SubstMap := map[];
    var duplicate := false;
    var k := 0;
    while k < |varTerms| / 2
      invariant 0 <= k <= |varTerms| / 2
      invariant forall j | 0 <= j < k :: varTerms[2 * j + 1].Variable?
      invariant m == PairsMap(varTerms, k)
      invariant duplicate <==> !DistinctPrefix(varTerms, k)
      decreases |varTerms| / 2 - k
    {
      var v := varTerms[2 * k + 1];
      if !v.Variable? {
        return Err("ClassCastException");
      }
      DistinctPrefixStep(varTerms, k);
      duplicate := duplicate || v.name in m;
      m := m[v.name := varTerms[2 * k]];
      k := k + 1;
    }
    if duplicate {
      return Err("IllegalArgumentException");
    }
    return Ok(Substitution(m));
  }

  /** substitution(f(a, Y), Z) is [f(a, Y)/Z], as the unifier's first test prints it. */
  lemma SubstitutionTest1()
    ensures SubstitutionOf([Fn("f", [Fn("a", []), Variable("Y")]), Variable("Z")])
         == Ok(Substitution(map["Z" := Fn("f", [Fn("a", []), Variable("Y")])]))
  {
    var vt := [Fn("f", [Fn("a", []), Variable("Y")]), Variable("Z")];
    assert VariablesAtOddPositions(vt);
    assert DistinctVariables(vt);
  }

  // ---------------------------------------------------------------------------
  // The Unifier object

  /** What apply(first, args) hands back for `t` given the sequence table: the entry already
    * stored under t's printed form, or `t` itself. */
  function InternedByPrint(table: map<string, Term>, t: Term): Term
  {
    var key := Print(t);
    if key in table then table[key] else t
  }

  /** A Unifier: its fresh-variable counter and its three interning tables. */
  class Unifier {
    var varId: nat
    var variableMap: map<string, Term>
    var atomMap: map<string, Term>
    var sequenceMap: map<string, Term>
    /** The table of the corrected `apply`, keyed by the sequence itself. */
    var sequenceTable: map<Term, Term>

    /** Each table maps a key to the term it was made for. */
    ghost predicate Valid()
      reads this
    {
      && (forall n | n in variableMap :: variableMap[n] == Variable(n) && IsVariableName(n))
      && (forall n | n in atomMap :: atomMap[n] == Atom(n))
      && (forall k | k in sequenceMap :: sequenceMap[k].Sequence? && Print(sequenceMap[k]) == k)
      && (forall t | t in sequenceTable :: sequenceTable[t] == t)
    }

    constructor()
      ensures Valid()
      ensures varId == 0 && variableMap == map[] && atomMap == map[] && sequenceMap == map[]
      ensures sequenceTable == map[]
    {
      varId := 0;
      variableMap := map[];
      atomMap := map[];
      sequenceMap := map[];
      sequenceTable := map[];
    }

    /** atom(name): the atom with that name, added to the table when new. */
    method AtomNamed(name: string) returns (a: Term)
      requires Valid()
      modifies this
      ensures Valid()
      ensures a == Atom(name)
      ensures atomMap == old(atomMap)[name := Atom(name)]
      ensures variableMap == old(variableMap) && sequenceMap == old(sequenceMap)
      ensures varId == old(varId) && sequenceTable == old(sequenceTable)
    {
      if name in atomMap {
        a := atomMap[name];
      } else {
        a := Atom(name);
        atomMap := atomMap[name := a];
      }
    }

    /** variable(name): the variable with that name, added to the table when new; a name
      * without an upper-case letter throws and leaves the table alone. */
    method VariableNamed(name: string) returns (r: Result<Term>)
      requires Valid()
      modifies this
      ensures Valid()
      ensures r.Ok? <==> IsVariableName(name)
      ensures r.Ok? ==> r.value == Variable(name) && variableMap == old(variableMap)[name := Variable(name)]
      ensures r.Err? ==> variableMap == old(variableMap)
      ensures atomMap == old(atomMap) && sequenceMap == old(sequenceMap)
      ensures varId == old(varId) && sequenceTable == old(sequenceTable)
    {
      if name in variableMap {
        r := Ok(variableMap[name]);
      } else if !IsVariableName(name) {
        r := Err("IllegalArgumentException");
      } else {
        variableMap := variableMap[name := Variable(name)];
        r := Ok(Variable(name));
      }
    }

    /** variable(): the first name T<k>, counting up from the counter, that the table does not
      * hold; the counter ends one past it. */
    method FreshVariable() returns (v: Term)
      requires Valid()
      modifies this
      ensures Valid()
      ensures v.Variable? && v.name !in old(variableMap) && IsVariableName(v.name)
      ensures variableMap == old(variableMap)[v.name := v]
      ensures varId > old(varId) && v.name == VarName(varId - 1)
      ensures forall j | old(varId) <= j < varId - 1 :: VarName(j) in old(variableMap)
      ensures atomMap == old(atomMap) && sequenceMap == old(sequenceMap)
      ensures sequenceTable == old(sequenceTable)
    {
      var k := FirstFreshId(variableMap, varId);
      var name := VarName(k);
      VarNameIsVariableName(k);
      v := Variable(name);
      varId, variableMap := k + 1, variableMap[name := v];
    }

    /**
     * apply(first, args) as written: interns the functor atom, then keys the sequence table
     * by the printed form. Printing is not injective, so this can hand back a different
     * sequence that merely prints the same (see `ApplyNamedCollision`).
     */
    method ApplyNamed(first: string, args: seq<Term>) returns (s: Term)
      requires Valid()
      modifies this
      ensures Valid()
      ensures s == InternedByPrint(old(sequenceMap), Fn(first, args))
      ensures s.Sequence? && Print(s) == Print(Fn(first, args))
      ensures sequenceMap == old(sequenceMap)[Print(Fn(first, args)) := s]
      ensures atomMap == old(atomMap)[first := Atom(first)]
      ensures variableMap == old(variableMap) && varId == old(varId) && sequenceTable == old(sequenceTable)
    {
      var head := AtomNamed(first);
      var sequence := Sequence([head] + args);
      var key := Print(sequence);
      if key in sequenceMap {
        s := sequenceMap[key];
      } else {
        sequenceMap := sequenceMap[key := sequence];
        s := sequence;
      }
    }

    /**
     * apply(first, args) as its documentation describes it ("returns an existing one with
     * the same terms"): the table is keyed by the sequence itself, so the result is always
     * the sequence of the functor and the arguments.
     */
    method ApplyStructural(first: string, args: seq<Term>) returns (s: Term)
      requires Valid()
      modifies this
      ensures Valid()
      ensures s == Fn(first, args)
      ensures sequenceTable == old(sequenceTable)[s := s]
      ensures atomMap == old(atomMap)[first := Atom(first)]
      ensures variableMap == old(variableMap) && varId == old(varId) && sequenceMap == old(sequenceMap)
    {
      var head := AtomNamed(first);
      var sequence := Sequence([head] + args);
      if sequence in sequenceTable {
        s := sequenceTable[sequence];
      } else {
        sequenceTable := sequenceTable[sequence := sequence];
        s := sequence;
      }
    }
  }

  /** p(X) with X an atom and p(X) with X a variable print alike but are different terms. */
  lemma PrintIsNotInjective()
    ensures Fn("p", [Atom("X")]) != Fn("p", [Variable("X")])
    ensures Print(Fn("p", [Atom("X")])) == Print(Fn("p", [Variable("X")])) == "p(X)"
  {
    var t1, t2 := Fn("p", [Atom("X")]), Fn("p", [Variable("X")]);
    assert t1.terms[1] != t2.terms[1];
    PrintUnary("p", Atom("X"));
    PrintUnary("p", Variable("X"));
    assert "p" + "(" + "X" + ")" == "p(X)";
  }

  /** On a new unifier, apply("p", atom("X")) followed by apply("p", variable("X")) hands back
    * the first sequence, whose argument is an atom, where the caller asked for a variable. */
  method ApplyNamedCollision() returns (first: Term, second: Term)
    ensures first == Fn("p", [Atom("X")])
    ensures second == first && second != Fn("p", [Variable("X")])
  {
    var u := new Unifier();
    var x := u.AtomNamed("X");
    first := u.ApplyNamed("p", [x]);
    var y := u.VariableNamed("X");
    assert IsVariableName("X") by { assert ToLower("X")[0] == 'x'; }
    PrintIsNotInjective();
    second := u.ApplyNamed("p", [y.value]);
  }

  /** The corrected apply keeps the two apart: each call returns the sequence asked for. */
  method ApplyStructuralKeepsApart() returns (first: Term, second: Term)
    ensures first == Fn("p", [Atom("X")]) && second == Fn("p", [Variable("X")])
    ensures first != second
  {
    var u := new Unifier();
    var x := u.AtomNamed("X");
    first := u.ApplyStructural("p", [x]);
    var y := u.VariableNamed("X");
    assert IsVariableName("X") by { assert ToLower("X")[0] == 'x'; }
    second := u.ApplyStructural("p", [y.value]);
    PrintIsNotInjective();
  }

  /** On a new unifier, two corrected applies with the same functor and arguments return the
    * same term, and the second finds the first's entry, so the table holds that one entry. */
  method ApplyStructuralReuses(first: string, args: seq<Term>) returns (s1: Term, s2: Term, table: map<Term, Term>)
    ensures s1 == s2 == Fn(first, args)
    ensures table == map[Fn(first, args) := Fn(first, args)]
  {
    var u := new Unifier();
    s1 := u.ApplyStructural(first, args);
    s2 := u.ApplyStructural(first, args);
    table := u.sequenceTable;
  }

}
