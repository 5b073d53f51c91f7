/**
 * Terms of the first-order unifier (Unifier.Term and its three implementations) and
 * the two operations every term supports: applying a substitution and printing.
 *
 * The source interns atoms and variables by name, so reference equality on them is
 * name equality; here a term is a value and `==` is structural.
 */
module Terms {

  /** Atom (a leaf symbol), Variable (to be solved for) or Sequence (functor first, then arguments). */
  datatype Term = Atom(name: string) | Variable(name: string) | Sequence(terms: seq<Term>)

  /** The raw variable-to-term map of a substitution, keyed by variable name. */
  type SubstMap = map<string, Term>

  /** The sequence `name(args...)`: the functor atom followed by the arguments. */
  function Fn(name: string, args: seq<Term>): (t: Term)
    ensures t.Sequence? && |t.terms| == |args| + 1 && t.terms[0] == Atom(name)
    ensures t.terms[1..] == args
  {
    Sequence([Atom(name)] + args)
  }

  /** Term.apply: replace every variable bound in `m` by its term, once (not to a fixed point). */
  function Apply(t: Term, m: SubstMap): Term
  {
    match t
    case Atom(_) => t
    case Variable(n) => if n in m then m[n] else t
    case Sequence(ts) => Sequence(seq(|ts|, i requires 0 <= i < |ts| => Apply(ts[i], m)))
  }

  /** Applies `m` to every element (the source's sequenceApply). */
  function ApplyEach(ts: seq<Term>, m: SubstMap): (r: seq<Term>)
    ensures |r| == |ts|
    ensures forall i | 0 <= i < |ts| :: r[i] == Apply(ts[i], m)
  {
    seq(|ts|, i requires 0 <= i < |ts| => Apply(ts[i], m))
  }

  /** The names of the variables that occur in `t`. */
  function Vars(t: Term): set<string>
  {
    match t
    case Atom(_) => {}
    case Variable(n) => {n}
    case Sequence(ts) => set i, v | 0 <= i < |ts| && v in Vars(ts[i]) :: v
  }

  /** The names of the variables that occur in some element of `ts`. */
  function VarsOf(ts: seq<Term>): set<string>
  {
    set i, v | 0 <= i < |ts| && v in Vars(ts[i]) :: v
  }

  /** Every variable bound by `m`, and every variable its terms mention. */
  function VarsOfMap(m: SubstMap): set<string>
  {
    m.Keys + (set v, x | v in m && x in Vars(m[v]) :: x)
  }

  /** The nesting depth of a term: 0 for an atom or a variable, one more than its deepest element
    * for a sequence. */
  function Depth(t: Term): nat
  {
    match t
    case Sequence(ts) => 1 + MaxOf(seq(|ts|, i requires 0 <= i < |ts| => Depth(ts[i])))
    case _ => 0
  }

  /** The largest of some naturals, 0 for none. */
  function MaxOf(ns: seq<nat>): (r: nat)
    ensures forall i | 0 <= i < |ns| :: ns[i] <= r
    ensures |ns| > 0 ==> exists i | 0 <= i < |ns| :: ns[i] == r
  {
    if |ns| == 0 then 0
    else
      var rest := MaxOf(ns[1..]);
      assert forall i | 1 <= i < |ns| :: ns[i] == ns[1..][i - 1];
      if ns[0] >= rest then ns[0] else rest
  }

  /** The printed form (toString): a name for an atom or variable; a one-element sequence
    * prints as its head alone, a longer one as `head(arg1, ..., argn)`, an empty one as "". */
  function Print(t: Term): string
  {
    match t
    case Atom(n) => n
    case Variable(n) => n
    case Sequence(ts) =>
      if |ts| == 0 then ""
      else if |ts| == 1 then Print(ts[0])
      else Print(ts[0]) + "(" + JoinComma(seq(|ts| - 1, i requires 0 <= i < |ts| - 1 => Print(ts[i + 1]))) + ")"
  }

  /** The strings separated by ", ". */
  function JoinComma(ss: seq<string>): string
  {
    if |ss| == 0 then "" else if |ss| == 1 then ss[0] else ss[0] + ", " + JoinComma(ss[1..])
  }

  /** Applying the empty substitution changes nothing. */
  lemma {:induction false} ApplyEmpty(t: Term)
    ensures Apply(t, map[]) == t
  {
    match t
    case Atom(_) =>
    case Variable(_) =>
    case Sequence(ts) =>
      forall i | 0 <= i < |ts| ensures Apply(ts[i], map[]) == ts[i] {
        ApplyEmpty(ts[i]);
      }
      assert ApplyEach(ts, map[]) == ts;
  }

  /** Applying a substitution introduces no variable that is neither in the term nor in the substitution. */
  lemma {:induction false} ApplyVars(t: Term, m: SubstMap)
    ensures Vars(Apply(t, m)) <= Vars(t) + VarsOfMap(m)
  {
    match t
    case Atom(_) =>
    case Variable(n) =>
      if n in m {
        forall x | x in Vars(m[n]) ensures x in VarsOfMap(m) {
        }
      }
    case Sequence(ts) =>
      var r := ApplyEach(ts, m);
      forall x | x in Vars(Apply(t, m)) ensures x in Vars(t) + VarsOfMap(m) {
        var i :| 0 <= i < |r| && x in Vars(r[i]);
        ApplyVars(ts[i], m);
      }
  }

  /** A unary application prints as `f(x)`. */
  lemma PrintUnary(f: string, x: Term)
    ensures Print(Fn(f, [x])) == f + "(" + Print(x) + ")"
  {
    var t := Fn(f, [x]);
    var ss := seq(|t.terms| - 1, i requires 0 <= i < |t.terms| - 1 => Print(t.terms[i + 1]));
    assert ss == [Print(x)];
  }

  /** A binary application prints as `f(x, y)`. */
  lemma PrintBinary(f: string, x: Term, y: Term)
    ensures Print(Fn(f, [x, y])) == f + "(" + Print(x) + ", " + Print(y) + ")"
  {
    var t := Fn(f, [x, y]);
    var ss := seq(|t.terms| - 1, i requires 0 <= i < |t.terms| - 1 => Print(t.terms[i + 1]));
    assert ss == [Print(x), Print(y)];
    assert ss[1..] == [Print(y)];
    assert JoinComma(ss) == Print(x) + ", " + Print(y);
  }

  /** A ternary application prints as `f(x, y, z)`. */
  lemma PrintTernary(f: string, x: Term, y: Term, z: Term)
    ensures Print(Fn(f, [x, y, z])) == f + "(" + Print(x) + ", " + Print(y) + ", " + Print(z) + ")"
  {
    var t := Fn(f, [x, y, z]);
    var ss := seq(|t.terms| - 1, i requires 0 <= i < |t.terms| - 1 => Print(t.terms[i + 1]));
    assert ss == [Print(x), Print(y), Print(z)];
    assert ss[1..] == [Print(y), Print(z)] && ss[1..][1..] == [Print(z)];
    assert JoinComma(ss[1..]) == Print(y) + ", " + Print(z);
    assert JoinComma(ss) == Print(x) + ", " + (Print(y) + ", " + Print(z));
  }

  /** `p(f(a), g(b), y)` prints with each one-element sequence as its head alone. */
  lemma PrintNestedShape(p: string, f: string, a: string, g: string, b: string, y: string)
    ensures Print(Fn(p, [Fn(f, [Fn(a, [])]), Fn(g, [Fn(b, [])]), Variable(y)]))
         == p + "(" + (f + "(" + a + ")") + ", " + (g + "(" + b + ")") + ", " + y + ")"
  {
    var fa, gb := Fn(f, [Fn(a, [])]), Fn(g, [Fn(b, [])]);
    assert Fn(a, []) == Sequence([Atom(a)]) && Fn(b, []) == Sequence([Atom(b)]);
    PrintUnary(f, Fn(a, []));
    PrintUnary(g, Fn(b, []));
    PrintTernary(p, fa, gb, Variable(y));
  }

  /** A printing example pinned by the unifier's test: p(f(a), g(b), Y). */
  lemma PrintNestedSequence()
    ensures Print(Fn("p", [Fn("f", [Fn("a", [])]), Fn("g", [Fn("b", [])]), Variable("Y")]))
         == "p(f(a), g(b), Y)"
  {
    PrintNestedShape("p", "f", "a", "g", "b", "Y");
    assert "p" + "(" + ("f" + "(" + "a" + ")") + ", " + ("g" + "(" + "b" + ")") + ", " + "Y" + ")"
        == "p(f(a), g(b), Y)";
  }

}
