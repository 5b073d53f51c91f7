/**
 * The statement compiler of the first-generation interpreter (sml.compile.Compiler): the table of
 * types, the type environment of the type resolver, the resolver that turns an expression into
 * `term = variable` constraints, the compilation of expressions to code, and the compiled
 * statement that evaluates its bindings and reports them.
 *
 * The evaluation-time environment, the code evaluator and the printing of values belong to
 * classes outside this file (sml.eval.Environment, Codes); they enter here as an abstract
 * environment and two function parameters.
 */
module SmlCompiler {
  import opened Wrappers
  import opened JavaInts
  import opened Terms
  import opened Unifiers

  // ---------------------------------------------------------------------------
  // Types and the type table

  /** The primitive types (sml.type.PrimitiveType). */
  datatype PrimitiveType = BOOL | CHAR | INT | REAL | STRING | UNIT

  /** A type: primitive, or a function type carrying the description it was interned under. */
  datatype Type =
    | Primitive(prim: PrimitiveType)
    | FnType(description: string, paramType: Type, resultType: Type)

  /** The description of a primitive type: its lower-case name. */
  function PrimitiveName(p: PrimitiveType): string
  {
    match p
    case BOOL => "bool"
    case CHAR => "char"
    case INT => "int"
    case REAL => "real"
    case STRING => "string"
    case UNIT => "unit"
  }

  /** Type.description(). */
  function Description(t: Type): string
  {
    match t
    case Primitive(p) => PrimitiveName(p)
    case FnType(d, _, _) => d
  }

  /** TypeSystem.primitiveType(name): the primitive type of a name, where "unit" gives INT and
    * the character type is spelled "CHAR"; any other name is rejected. */
  function PrimitiveTypeNamed(name: string): (r: Result<Type>)
    ensures r.Ok? <==> name in {"bool", "CHAR", "int", "real", "string", "unit"}
    ensures r.Ok? ==> r.value.Primitive? && r.value != Primitive(UNIT)
    ensures name in {"bool", "int", "real", "string"} ==> r.Ok? && Description(r.value) == name
    ensures name == "unit" ==> r == Ok(Primitive(INT))
    ensures r.Err? ==> r == Err("not a primitive type: " + name)
  {
    if name == "bool" then Ok(Primitive(BOOL))
    else if name == "CHAR" then Ok(Primitive(CHAR))
    else if name == "int" then Ok(Primitive(INT))
    else if name == "real" then Ok(Primitive(REAL))
    else if name == "string" then Ok(Primitive(STRING))
    else if name == "unit" then Ok(Primitive(INT))
    else Err("not a primitive type: " + name)
  }

  /** The table a new TypeSystem starts with. */
  function InitialTypes(): map<string, Type>
  {
    map["int" := Primitive(INT), "bool" := Primitive(BOOL), "string" := Primitive(STRING),
        "real" := Primitive(REAL), "unit" := Primitive(UNIT)]
  }

  /** The description fnType gives the function type from `p` to `r`. */
  function FnDescription(p: Type, r: Type): string
  {
    Description(p) + " -> " + Description(r)
  }

  /** TypeSystem: all types in use, indexed by description. */
  class TypeSystem {
    var types: map<string, Type>
    /** The table of the corrected fnType, keyed by the parameter and result types. */
    var fnTypes: map<(Type, Type), Type>

    /** Every entry is filed under its own description, the initial entries are never replaced,
      * and the corrected table holds the function type of its key. */
    ghost predicate Valid()
      reads this
    {
      && (forall d | d in types :: Description(types[d]) == d)
      && (forall d | d in InitialTypes() :: d in types && types[d] == InitialTypes()[d])
      && (forall k | k in fnTypes :: fnTypes[k] == FnType(FnDescription(k.0, k.1), k.0, k.1))
    }

    /** new TypeSystem(): the five primitive descriptions. */
    constructor ()
      ensures Valid() && types == InitialTypes() && fnTypes == map[]
    {
      types := InitialTypes();
      fnTypes := map[];
    }

    /** fnType(paramType, resultType) as written: the type already filed under the description
      * "p -> r" if there is one, otherwise a new function type filed under it. */
    method FnTypeOf(paramType: Type, resultType: Type) returns (t: Type)
      requires Valid()
      modifies this
      ensures Valid()
      ensures Description(t) == FnDescription(paramType, resultType)
      ensures var d := FnDescription(paramType, resultType);
        && t == (if d in old(types) then old(types)[d] else FnType(d, paramType, resultType))
        && types == old(types)[d := t]
      ensures fnTypes == old(fnTypes)
    {
      var description := FnDescription(paramType, resultType);
      if description in types {
        t := types[description];
      } else {
        t := FnType(description, paramType, resultType);
        types := types[description := t];
      }
    }

    /** fnType as evidently intended: interned by the pair of types, so the answer is always the
      * function type from `paramType` to `resultType`, and repeated calls agree. */
    method FnTypeOfPair(paramType: Type, resultType: Type) returns (t: Type)
      requires Valid()
      modifies this
      ensures Valid()
      ensures t.FnType? && t.paramType == paramType && t.resultType == resultType
      ensures Description(t) == FnDescription(paramType, resultType)
      ensures fnTypes == old(fnTypes)[(paramType, resultType) := t] && types == old(types)
    {
      var key := (paramType, resultType);
      if key in fnTypes {
        t := fnTypes[key];
      } else {
        t := FnType(FnDescription(paramType, resultType), paramType, resultType);
        fnTypes := fnTypes[key := t];
      }
    }
  }

  /** The function type int -> int, as fnType first files it. */
  function IntToInt(): Type
  {
    FnType("int -> int", Primitive(INT), Primitive(INT))
  }

  /** The descriptions of (int -> int) -> int and of int -> (int -> int) coincide, and neither
    * they nor int -> int are among the initial descriptions. */
  lemma FnDescriptionIsNotInjective()
    ensures FnDescription(Primitive(INT), Primitive(INT)) == "int -> int"
    ensures FnDescription(IntToInt(), Primitive(INT)) == "int -> int -> int"
    ensures FnDescription(Primitive(INT), IntToInt()) == "int -> int -> int"
    ensures "int -> int" !in InitialTypes() && "int -> int -> int" !in InitialTypes()
  {
    assert "int -> int"[0] == 'i' && "int -> int"[3] == ' ';
    assert "int -> int -> int"[3] == ' ';
  }

  /** Asking for (int -> int) -> int and then for int -> (int -> int) returns the first type
    * twice: the second answer's parameter is a function type, not int. */
  method FnTypeCollision() returns (first: Type, second: Type)
    ensures first == second && second.FnType? && second.paramType != Primitive(INT)
  {
    FnDescriptionIsNotInjective();
    var typeSystem := new TypeSystem();
    var intToInt := typeSystem.FnTypeOf(Primitive(INT), Primitive(INT));
    assert intToInt == IntToInt();
    first := typeSystem.FnTypeOf(intToInt, Primitive(INT));
    assert first == FnType("int -> int -> int", IntToInt(), Primitive(INT));
    second := typeSystem.FnTypeOf(Primitive(INT), intToInt);
  }

  /** The corrected fnType keeps the two types apart. */
  method FnTypeOfPairKeepsApart() returns (first: Type, second: Type)
    ensures first != second && second.FnType? && second.paramType == Primitive(INT)
  {
    var typeSystem := new TypeSystem();
    var intToInt := typeSystem.FnTypeOfPair(Primitive(INT), Primitive(INT));
    first := typeSystem.FnTypeOfPair(intToInt, Primitive(INT));
    second := typeSystem.FnTypeOfPair(Primitive(INT), intToInt);
  }

  // ---------------------------------------------------------------------------
  // The type environment of the resolver

  /** TypeEnv: empty, or one name bound to a type term over a parent. */
  datatype TypeEnv = EmptyTypeEnv | BindTypeEnv(definedName: string, typeTerm: Term, parent: TypeEnv)
  {
    /** get(name): the newest binding's term; the empty environment throws "not found". */
    function Get(name: string): (r: Result<Term>)
      ensures r.Err? ==> r == Err("not found: " + name)
    {
      match this
      case EmptyTypeEnv => Err("not found: " + name)
      case BindTypeEnv(n, t, p) => if name == n then Ok(t) else p.Get(name)
    }

    /** bind(name, typeTerm): a new link over this one; this one is unchanged. */
    function Bind(name: string, typeTerm: Term): (r: TypeEnv)
      ensures r.Get(name) == Ok(typeTerm)
      ensures forall n | n != name :: r.Get(n) == Get(n)
      ensures r.Bindings() == [(name, typeTerm)] + Bindings()
    {
      BindTypeEnv(name, typeTerm, this)
    }

    /** Every binding, newest first, obscured ones included. */
    function Bindings(): seq<(string, Term)>
    {
      match this
      case EmptyTypeEnv => []
      case BindTypeEnv(n, t, p) => [(n, t)] + p.Bindings()
    }
  }

  /** The term of the first pair in `bs` named `name`. */
  function FirstTermNamed(bs: seq<(string, Term)>, name: string): (r: Option<Term>)
    ensures r.None? <==> forall i | 0 <= i < |bs| :: bs[i].0 != name
    ensures r.Some? ==> exists i | 0 <= i < |bs| :: bs[i] == (name, r.value) && forall j | 0 <= j < i :: bs[j].0 != name
  {
    if |bs| == 0 then None
    else if bs[0].0 == name then Some(bs[0].1)
    else
      var r := FirstTermNamed(bs[1..], name);
      assert forall i | 1 <= i < |bs| :: bs[i] == bs[1..][i - 1];
      r
  }

  /** Lookup answers with the first binding of the name in the list of all bindings, newest
    * first, and fails exactly when no binding has the name. */
  lemma {:induction false} GetIsNewestBinding(env: TypeEnv, name: string)
    ensures env.Get(name) == match FirstTermNamed(env.Bindings(), name)
                             case None => Err("not found: " + name)
                             case Some(t) => Ok(t)
  {
    match env
    case EmptyTypeEnv =>
    case BindTypeEnv(n, t, p) =>
      GetIsNewestBinding(p, name);
      assert env.Bindings()[1..] == p.Bindings();
  }

  // ---------------------------------------------------------------------------
  // The syntax the compiler reads (Ast, with just the fields used)

  /** A literal; a real literal keeps its digits, as floating point is outside the model. */
  datatype Literal = IntLit(n: int) | RealLit(digits: string) | StringLit(s: string) | BoolLit(b: bool)

  /** A pattern: a name, or any other pattern kind. */
  datatype Pat = NamedPat(name: string) | OtherPat(op: string)

  /** The infix operators. */
  datatype InfixOp = ANDALSO | ORELSE | PLUS | MINUS | TIMES | DIVIDE | CARET

  /** An expression; `OtherExp` is any kind the compiler does not handle. */
  datatype Exp =
    | Lit(lit: Literal)
    | Id(name: string)
    | If(condition: Exp, ifTrue: Exp, ifFalse: Exp)
    | Let(decl: VarDecl, e: Exp)
    | FnExp(arm: MatchArm)
    | Apply(fn: Exp, arg: Exp)
    | InfixCall(op: InfixOp, a0: Exp, a1: Exp)
    | OtherExp(opName: string)

  /** `pat => e`. */
  datatype MatchArm = MatchArm(pat: Pat, e: Exp)

  /** One `pat = exp` of a declaration. */
  datatype PatExp = PatExp(pat: Pat, exp: Exp)

  /** `val p1 = e1 and ...`, its bindings in declaration order. */
  datatype VarDecl = VarDecl(patExps: seq<PatExp>)

  /** The nodes the type resolver accepts. */
  datatype Node = ExpNode(exp: Exp) | DeclNode(decl: VarDecl) | MatchNode(arm: MatchArm)

  /** An infix operator's name, as error messages print it. */
  function InfixOpName(op: InfixOp): string
  {
    match op
    case ANDALSO => "ANDALSO"
    case ORELSE => "ORELSE"
    case PLUS => "PLUS"
    case MINUS => "MINUS"
    case TIMES => "TIMES"
    case DIVIDE => "DIVIDE"
    case CARET => "CARET"
  }

  /** The operator's name, as error messages print it. */
  function OpName(e: Exp): string
  {
    match e
    case Lit(IntLit(_)) => "INT_LITERAL"
    case Lit(RealLit(_)) => "REAL_LITERAL"
    case Lit(StringLit(_)) => "STRING_LITERAL"
    case Lit(BoolLit(_)) => "BOOL_LITERAL"
    case Id(_) => "ID"
    case If(_, _, _) => "IF"
    case Let(_, _) => "LET"
    case FnExp(_) => "FN"
    case Apply(_, _) => "APPLY"
    case InfixCall(op, _, _) => InfixOpName(op)
    case OtherExp(op) => op
  }

  // ---------------------------------------------------------------------------
  // Type deduction, as a function of the fresh-variable counter

  /** A constraint `term = variable`. */
  datatype TermVariable = TermVariable(term: Term, variable: Term)

  /** The resolver's answer, the constraints it appended and its next fresh-variable number. */
  datatype Deduction = Deduction(result: Result<Term>, terms: seq<TermVariable>, next: nat)

  /** The primitive type of a literal. */
  function LiteralType(lit: Literal): PrimitiveType
  {
    match lit
    case IntLit(_) => INT
    case RealLit(_) => REAL
    case StringLit(_) => STRING
    case BoolLit(_) => BOOL
  }

  /** The type of an infix operator whose operands share its type; `^` has none. */
  function InfixType(op: InfixOp): Option<PrimitiveType>
  {
    match op
    case ANDALSO => Some(BOOL)
    case ORELSE => Some(BOOL)
    case PLUS => Some(INT)
    case MINUS => Some(INT)
    case TIMES => Some(INT)
    case DIVIDE => Some(INT)
    case CARET => None
  }

  /** The atom that stands for a primitive type. */
  function TypeAtom(p: PrimitiveType): Term
  {
    Atom(PrimitiveName(p))
  }

  /** The k-th fresh variable. */
  function FreshVar(k: nat): Term
  {
    Variable(VarName(k))
  }

  /** The decimal digits at the start of `s`. */
  function LeadingDigits(s: string): (r: string)
    ensures |r| <= |s| && r == s[..|r|]
  {
    if |s| == 0 || !('0' <= s[0] <= '9') then "" else [s[0]] + LeadingDigits(s[1..])
  }

  /** The leading digits of digits followed by a non-digit are those digits. */
  lemma {:induction false} LeadingDigitsOf(d: string, rest: string)
    requires forall i | 0 <= i < |d| :: '0' <= d[i] <= '9'
    requires |rest| > 0 && !('0' <= rest[0] <= '9')
    ensures LeadingDigits(d + rest) == d
  {
    if |d| == 0 {
      assert d + rest == rest;
    } else {
      assert (d + rest)[0] == d[0] && (d + rest)[1..] == d[1..] + rest;
      LeadingDigitsOf(d[1..], rest);
      assert d == [d[0]] + d[1..];
    }
  }

  /** The counter of the parameter variable in a key `fn(T<k>, ...)` of the unifier's
    * print-keyed sequence table, as deduceType on a match arm fills it. */
  function FnKeyId(key: string): Option<nat>
  {
    if |key| >= 4 && key[..4] == "fn(T" then ParseDigits(LeadingDigits(key[4..])) else None
  }

  /** The key of `fn(T<j>, body)` names `j`, whatever the body prints as. */
  lemma FnKeyIdOfPrint(j: nat, body: Term)
    ensures FnKeyId(Print(Fn("fn", [FreshVar(j), body]))) == Some(j)
  {
    var digits, tail := NatToString(j), ", " + Print(body) + ")";
    PrintBinary("fn", FreshVar(j), body);
    var key := Print(Fn("fn", [FreshVar(j), body]));
    assert key == "fn(T" + (digits + tail);
    assert key[..4] == "fn(T" && key[4..] == digits + tail;
    LeadingDigitsOf(digits, tail);
    ParseNatToString(j);
  }

  /** Every key `after` has and `before` lacks is `fn(T<k>, ...)` with `k` at least `lo`. */
  ghost predicate KeysFrom(before: map<string, Term>, after: map<string, Term>, lo: nat)
  {
    forall k | k in after && k !in before :: FnKeyId(k).Some? && FnKeyId(k).value >= lo
  }

  /** New keys of two steps in turn are new keys of the first, or of the second from a later counter. */
  lemma KeysFromTrans(a: map<string, Term>, b: map<string, Term>, c: map<string, Term>, lo: nat, mid: nat)
    requires KeysFrom(a, b, lo) && KeysFrom(b, c, mid) && lo <= mid
    ensures KeysFrom(a, c, lo)
  {
  }

  /**
   * TypeResolver.deduceType on an expression, fresh variables numbered from `next`: literals
   * give their type's atom, an identifier its binding; `if` gives a fresh variable equated with
   * both branches (the condition is not looked at); `fn` gives `fn(param, body)`; an infix call
   * gives its type's atom. Any other expression cannot be typed.
   */
  function DeduceOf(env: TypeEnv, e: Exp, next: nat): Deduction
    decreases e, 1
  {
    match e
    case Lit(lit) => Deduction(Ok(TypeAtom(LiteralType(lit))), [], next)
    case Id(name) => Deduction(env.Get(name), [], next)
    case If(_, ifTrue, ifFalse) =>
      var dt := DeduceOf(env, ifTrue, next);
      if dt.result.Err? then dt
      else
        var df := DeduceOf(env, ifFalse, dt.next);
        if df.result.Err? then df
        else
          var v := FreshVar(df.next);
          Deduction(Ok(v), dt.terms + df.terms + [TermVariable(dt.result.value, v), TermVariable(df.result.value, v)],
                    df.next + 1)
    case FnExp(arm) => DeduceMatchOf(env, arm, next)
    case InfixCall(op, _, _) =>
      if InfixType(op).Some? then DeduceInfixOf(env, e, InfixType(op).value, next)
      else Deduction(Err("cannot deduce type for " + OpName(e)), [], next)
    case _ => Deduction(Err("cannot deduce type for " + OpName(e)), [], next)
  }

  /** TypeResolver.infix: one fresh variable `v`, the constraint `atom = v`, then each operand's
    * constraints and `operand = v`; the answer is the atom. */
  function DeduceInfixOf(env: TypeEnv, call: Exp, t: PrimitiveType, next: nat): Deduction
    requires call.InfixCall?
    decreases call, 0
  {
    var atom := TypeAtom(t);
    var v := FreshVar(next);
    var d0 := DeduceOf(env, call.a0, next + 1);
    if d0.result.Err? then d0
    else
      var d1 := DeduceOf(env, call.a1, d0.next);
      if d1.result.Err? then d1
      else
        Deduction(Ok(atom),
                  [TermVariable(atom, v)] + d0.terms + [TermVariable(d0.result.value, v)]
                    + d1.terms + [TermVariable(d1.result.value, v)],
                  d1.next)
  }

  /** deduceType on `pat => e`: the parameter gets a fresh variable in an extended environment. */
  function DeduceMatchOf(env: TypeEnv, arm: MatchArm, next: nat): Deduction
    decreases arm
  {
    if !arm.pat.NamedPat? then Deduction(Err("ClassCastException"), [], next)
    else
      var p := FreshVar(next);
      var d := DeduceOf(env.Bind(arm.pat.name, p), arm.e, next + 1);
      if d.result.Err? then d
      else Deduction(Ok(Fn("fn", [p, d.result.value])), d.terms, d.next)
  }

  /** deduceType on any node; a declaration gives the type of its first binding. */
  function DeduceNodeOf(env: TypeEnv, node: Node, next: nat): Deduction
  {
    match node
    case ExpNode(e) => DeduceOf(env, e, next)
    case DeclNode(decl) =>
      if |decl.patExps| == 0 then Deduction(Err("NoSuchElementException"), [], next)
      else DeduceOf(env, decl.patExps[0].exp, next)
    case MatchNode(arm) => DeduceMatchOf(env, arm, next)
  }

  /** How many fresh variables deducing `e` draws: one per `if`, `fn` and typed infix call. */
  function FreshCount(e: Exp): nat
  {
    match e
    case If(_, t, f) => FreshCount(t) + FreshCount(f) + 1
    case FnExp(arm) => 1 + FreshCount(arm.e)
    case InfixCall(op, a0, a1) => if InfixType(op).Some? then 1 + FreshCount(a0) + FreshCount(a1) else 0
    case _ => 0
  }

  /** How many constraints deducing `e` emits: two per `if`, three per typed infix call. */
  function ConstraintCount(e: Exp): nat
  {
    match e
    case If(_, t, f) => ConstraintCount(t) + ConstraintCount(f) + 2
    case FnExp(arm) => ConstraintCount(arm.e)
    case InfixCall(op, a0, a1) => if InfixType(op).Some? then 3 + ConstraintCount(a0) + ConstraintCount(a1) else 0
    case _ => 0
  }

  /** `t` is one of the fresh variables numbered `lo` up to `hi`. */
  ghost predicate IsFreshIn(t: Term, lo: nat, hi: nat)
  {
    exists k | lo <= k < hi :: t == FreshVar(k)
  }

  /** Every constraint of `d` equates a term with a fresh variable numbered `lo` up to `hi`. */
  ghost predicate ConstrainsFresh(terms: seq<TermVariable>, lo: nat, hi: nat)
  {
    forall i | 0 <= i < |terms| :: IsFreshIn(terms[i].variable, lo, hi)
  }

  /** Constraints fresh in a range are fresh in any wider range. */
  lemma ConstrainsFreshWiden(a: seq<TermVariable>, lo: nat, hi: nat, lo': nat, hi': nat)
    requires lo' <= lo && hi <= hi'
    requires ConstrainsFresh(a, lo, hi)
    ensures ConstrainsFresh(a, lo', hi')
  {
    forall i | 0 <= i < |a| ensures IsFreshIn(a[i].variable, lo', hi') {
      assert IsFreshIn(a[i].variable, lo, hi);
      var k :| lo <= k < hi && a[i].variable == FreshVar(k);
    }
  }

  /** Joining two lists of constraints fresh in a range gives one fresh in that range. */
  lemma ConstrainsFreshJoin(a: seq<TermVariable>, b: seq<TermVariable>, lo: nat, hi: nat)
    requires ConstrainsFresh(a, lo, hi) && ConstrainsFresh(b, lo, hi)
    ensures ConstrainsFresh(a + b, lo, hi)
  {
    forall i | 0 <= i < |a + b| ensures IsFreshIn((a + b)[i].variable, lo, hi) {
      if i < |a| {
        assert (a + b)[i] == a[i];
      } else {
        assert (a + b)[i] == b[i - |a|];
      }
    }
  }

  /** A single constraint on the fresh variable `k`. */
  lemma ConstrainsFreshOne(t: Term, k: nat, lo: nat, hi: nat)
    requires lo <= k < hi
    ensures ConstrainsFresh([TermVariable(t, FreshVar(k))], lo, hi)
  {
    assert [TermVariable(t, FreshVar(k))][0].variable == FreshVar(k);
  }

  /**
   * What a successful deduction emits: it draws exactly `FreshCount(e)` fresh variables, in
   * order from `next`, emits exactly `ConstraintCount(e)` constraints, and every constraint's
   * variable is one of the variables it drew.
   */
  lemma {:induction false} DeduceCounts(env: TypeEnv, e: Exp, next: nat)
    ensures DeduceOf(env, e, next).result.Ok? ==>
      && DeduceOf(env, e, next).next == next + FreshCount(e)
      && |DeduceOf(env, e, next).terms| == ConstraintCount(e)
      && ConstrainsFresh(DeduceOf(env, e, next).terms, next, DeduceOf(env, e, next).next)
    decreases e
  {
    var d := DeduceOf(env, e, next);
    if d.result.Ok? {
      match e
      case Lit(_) =>
      case Id(_) =>
      case If(_, ifTrue, ifFalse) =>
        var dt := DeduceOf(env, ifTrue, next);
        DeduceCounts(env, ifTrue, next);
        var df := DeduceOf(env, ifFalse, dt.next);
        DeduceCounts(env, ifFalse, dt.next);
        var v, hi := FreshVar(df.next), df.next + 1;
        ConstrainsFreshWiden(dt.terms, next, dt.next, next, hi);
        ConstrainsFreshWiden(df.terms, dt.next, df.next, next, hi);
        ConstrainsFreshOne(dt.result.value, df.next, next, hi);
        ConstrainsFreshOne(df.result.value, df.next, next, hi);
        ConstrainsFreshJoin(dt.terms, df.terms, next, hi);
        ConstrainsFreshJoin(dt.terms + df.terms, [TermVariable(dt.result.value, v)], next, hi);
        ConstrainsFreshJoin(dt.terms + df.terms + [TermVariable(dt.result.value, v)], [TermVariable(df.result.value, v)],
                            next, hi);
      case FnExp(arm) =>
        DeduceCounts(env.Bind(arm.pat.name, FreshVar(next)), arm.e, next + 1);
        var db := DeduceOf(env.Bind(arm.pat.name, FreshVar(next)), arm.e, next + 1);
        ConstrainsFreshWiden(db.terms, next + 1, db.next, next, db.next);
      case InfixCall(op, a0, a1) =>
        DeduceInfixCounts(env, e, InfixType(op).value, next);
      case _ =>
    }
  }

  /** `DeduceCounts` for a typed infix call. */
  lemma {:induction false} DeduceInfixCounts(env: TypeEnv, call: Exp, t: PrimitiveType, next: nat)
    requires call.InfixCall?
    ensures DeduceInfixOf(env, call, t, next).result.Ok? ==>
      && DeduceInfixOf(env, call, t, next).next == next + 1 + FreshCount(call.a0) + FreshCount(call.a1)
      && |DeduceInfixOf(env, call, t, next).terms| == 3 + ConstraintCount(call.a0) + ConstraintCount(call.a1)
      && ConstrainsFresh(DeduceInfixOf(env, call, t, next).terms, next, DeduceInfixOf(env, call, t, next).next)
    decreases call, 0
  {
    var d := DeduceInfixOf(env, call, t, next);
    if d.result.Ok? {
      var v := FreshVar(next);
      var d0 := DeduceOf(env, call.a0, next + 1);
      DeduceCounts(env, call.a0, next + 1);
      var d1 := DeduceOf(env, call.a1, d0.next);
      DeduceCounts(env, call.a1, d0.next);
      var hi := d1.next;
      var first := [TermVariable(TypeAtom(t), v)];
      var mid0 := [TermVariable(d0.result.value, v)];
      var mid1 := [TermVariable(d1.result.value, v)];
      ConstrainsFreshOne(TypeAtom(t), next, next, hi);
      ConstrainsFreshOne(d0.result.value, next, next, hi);
      ConstrainsFreshOne(d1.result.value, next, next, hi);
      ConstrainsFreshWiden(d0.terms, next + 1, d0.next, next, hi);
      ConstrainsFreshWiden(d1.terms, d0.next, hi, next, hi);
      ConstrainsFreshJoin(first, d0.terms, next, hi);
      ConstrainsFreshJoin(first + d0.terms, mid0, next, hi);
      ConstrainsFreshJoin(first + d0.terms + mid0, d1.terms, next, hi);
      ConstrainsFreshJoin(first + d0.terms + mid0 + d1.terms, mid1, next, hi);
    }
  }

  // ---------------------------------------------------------------------------
  // The resolver as an object

  /** The state change a resolver method makes, as `DeduceOf` predicts it: the same answer, and
    * on success the predicted constraints appended and the counter at the predicted value. On
    * failure the resolver is abandoned, so its state is left unspecified. */
  ghost predicate Realizes(d: Deduction, r: Result<Term>, before: seq<TermVariable>, after: seq<TermVariable>, next: nat)
  {
    && r == d.result
    && (r.Ok? ==> after == before + d.terms && next == d.next)
  }

  /** TypeResolver: a unifier (the source of atoms and fresh variables) and the constraints. */
  class TypeResolver {
    const unifier: Unifier
    const typeSystem: TypeSystem
    var terms: seq<TermVariable>

    /** The unifier's tables are valid, and every fresh-variable name it holds was drawn below
      * its counter, so the next fresh variable is always numbered by the counter. */
    ghost predicate Valid()
      reads this, unifier
    {
      && unifier.Valid()
      && (forall k: nat | VarName(k) in unifier.variableMap :: k < unifier.varId)
      && forall key | key in unifier.sequenceMap :: FnKeyId(key).Some? && FnKeyId(key).value < unifier.varId
    }

    /** new TypeResolver(typeSystem), with a new unifier and no constraints. */
    constructor (typeSystem: TypeSystem)
      ensures Valid() && fresh(unifier) && terms == [] && unifier.varId == 0
      ensures this.typeSystem == typeSystem
    {
      this.typeSystem := typeSystem;
      unifier := new Unifier();
      terms := [];
    }

    /** unifier.variable(): with only fresh names in the table, the variable numbered by the
      * counter, which then moves up by one. */
    method NewVariable() returns (v: Term)
      requires Valid()
      modifies unifier
      ensures Valid()
      ensures v == FreshVar(old(unifier.varId)) && unifier.varId == old(unifier.varId) + 1
      ensures unifier.sequenceMap == old(unifier.sequenceMap)
    {
      ghost var v0, before := unifier.varId, unifier.variableMap;
      assert VarName(v0) !in before;
      v := unifier.FreshVariable();
      assert unifier.varId == v0 + 1;
      forall k: nat | VarName(k) in unifier.variableMap ensures k < unifier.varId {
        if VarName(k) !in before {
          ParseVarNameOfVarName(k);
          ParseVarNameOfVarName(v0);
        }
      }
    }

    /** atom(type): the atom named by the type's description. */
    method AtomOf(t: Type) returns (a: Term)
      requires Valid()
      modifies unifier
      ensures Valid()
      ensures a == Atom(Description(t)) && unifier.varId == old(unifier.varId)
      ensures unifier.sequenceMap == old(unifier.sequenceMap)
    {
      a := unifier.AtomNamed(Description(t));
    }

    /** equiv(term, variable): appends the constraint `term = variable`. */
    method Equiv(term: Term, variable: Term)
      requires Valid()
      modifies this
      ensures Valid()
      ensures terms == old(terms) + [TermVariable(term, variable)]
    {
      terms := terms + [TermVariable(term, variable)];
    }

    /** deduceType on an expression. */
    method DeduceExp(env: TypeEnv, e: Exp) returns (r: Result<Term>)
      requires Valid()
      modifies this, unifier
      ensures Valid()
      ensures Realizes(DeduceOf(env, e, old(unifier.varId)), r, old(terms), terms, unifier.varId)
      ensures unifier.varId >= old(unifier.varId)
      ensures KeysFrom(old(unifier.sequenceMap), unifier.sequenceMap, old(unifier.varId))
      decreases e, 1
    {
      match e
      case Lit(lit) =>
        var a := AtomOf(Primitive(LiteralType(lit)));
        return Ok(a);
      case Id(name) =>
        return env.Get(name);
      case If(_, ifTrue, ifFalse) =>
        ghost var before, n0 := terms, unifier.varId;
        ghost var dt := DeduceOf(env, ifTrue, n0);
        var trueTerm := DeduceExp(env, ifTrue);
        if trueTerm.Err? {
          assert DeduceOf(env, e, n0) == dt;
          return trueTerm;
        }
        ghost var df := DeduceOf(env, ifFalse, dt.next);
        var falseTerm := DeduceExp(env, ifFalse);
        if falseTerm.Err? {
          assert DeduceOf(env, e, n0) == df;
          return falseTerm;
        }
        ConcatAssociates(before, dt.terms, df.terms);
        ghost var acc := dt.terms + df.terms;
        var v := NewVariable();
        Equiv(trueTerm.value, v);
        ConcatAssociates(before, acc, [TermVariable(trueTerm.value, v)]);
        acc := acc + [TermVariable(trueTerm.value, v)];
        Equiv(falseTerm.value, v);
        ConcatAssociates(before, acc, [TermVariable(falseTerm.value, v)]);
        acc := acc + [TermVariable(falseTerm.value, v)];
        assert DeduceOf(env, e, n0) == Deduction(Ok(v), acc, df.next + 1);
        return Ok(v);
      case FnExp(arm) =>
        r := DeduceMatch(env, arm);
      case InfixCall(op, _, _) =>
        if InfixType(op).None? {
          return Err("cannot deduce type for " + OpName(e));
        }
        r := Infix(env, e, InfixType(op).value);
      case _ =>
        return Err("cannot deduce type for " + OpName(e));
    }

    /** infix(env, call, type). */
    method Infix(env: TypeEnv, call: Exp, t: PrimitiveType) returns (r: Result<Term>)
      requires call.InfixCall?
      requires Valid()
      modifies this, unifier
      ensures Valid()
      ensures Realizes(DeduceInfixOf(env, call, t, old(unifier.varId)), r, old(terms), terms, unifier.varId)
      ensures unifier.varId >= old(unifier.varId)
      ensures KeysFrom(old(unifier.sequenceMap), unifier.sequenceMap, old(unifier.varId))
      decreases call, 0
    {
      ghost var before, n0 := terms, unifier.varId;
      var atom := AtomOf(Primitive(t));
      var v := NewVariable();
      Equiv(atom, v);
      ghost var acc := [TermVariable(atom, v)];
      ghost var d0 := DeduceOf(env, call.a0, n0 + 1);
      var t0 := DeduceExp(env, call.a0);
      if t0.Err? {
        assert DeduceInfixOf(env, call, t, n0) == d0;
        return t0;
      }
      ConcatAssociates(before, acc, d0.terms);
      acc := acc + d0.terms;
      Equiv(t0.value, v);
      ConcatAssociates(before, acc, [TermVariable(t0.value, v)]);
      acc := acc + [TermVariable(t0.value, v)];
      ghost var d1 := DeduceOf(env, call.a1, d0.next);
      var t1 := DeduceExp(env, call.a1);
      if t1.Err? {
        assert DeduceInfixOf(env, call, t, n0) == d1;
        return t1;
      }
      ConcatAssociates(before, acc, d1.terms);
      acc := acc + d1.terms;
      Equiv(t1.value, v);
      ConcatAssociates(before, acc, [TermVariable(t1.value, v)]);
      acc := acc + [TermVariable(t1.value, v)];
      assert DeduceInfixOf(env, call, t, n0) == Deduction(Ok(atom), acc, d1.next);
      return Ok(atom);
    }

    /** deduceType on `pat => e`; the function term is built by the structural `apply`. */
    method DeduceMatch(env: TypeEnv, arm: MatchArm) returns (r: Result<Term>)
      requires Valid()
      modifies this, unifier
      ensures Valid()
      ensures Realizes(DeduceMatchOf(env, arm, old(unifier.varId)), r, old(terms), terms, unifier.varId)
      ensures unifier.varId >= old(unifier.varId)
      ensures KeysFrom(old(unifier.sequenceMap), unifier.sequenceMap, old(unifier.varId))
      decreases arm
    {
      if !arm.pat.NamedPat? {
        return Err("ClassCastException");
      }
      ghost var p0, before := unifier.varId, unifier.sequenceMap;
      var parameterType := NewVariable();
      var env2 := env.Bind(arm.pat.name, parameterType);
      var expType := DeduceExp(env2, arm.e);
      if expType.Err? {
        return expType;
      }
      FnKeyIdOfPrint(p0, expType.value);
      var s := unifier.ApplyNamed("fn", [parameterType, expType.value]);
      return Ok(s);
    }

    /** deduceType on any node. */
    method DeduceNode(env: TypeEnv, node: Node) returns (r: Result<Term>)
      requires Valid()
      modifies this, unifier
      ensures Valid()
      ensures Realizes(DeduceNodeOf(env, node, old(unifier.varId)), r, old(terms), terms, unifier.varId)
      ensures unifier.varId >= old(unifier.varId)
      ensures KeysFrom(old(unifier.sequenceMap), unifier.sequenceMap, old(unifier.varId))
    {
      match node
      case ExpNode(e) =>
        r := DeduceExp(env, e);
      case DeclNode(decl) =>
        if |decl.patExps| == 0 {
          return Err("NoSuchElementException");
        }
        r := DeduceExp(env, decl.patExps[0].exp);
      case MatchNode(arm) =>
        r := DeduceMatch(env, arm);
    }
  }

  // ---------------------------------------------------------------------------
  // Compiler.deduceType: only atom results are supported

  /** The atoms that name primitive types. */
  function PrimitiveNames(): set<string>
  {
    {"int", "real", "string", "bool"}
  }

  /** Every atom bound in `env` names a primitive type. */
  ghost predicate KnownAtoms(env: TypeEnv)
  {
    match env
    case EmptyTypeEnv => true
    case BindTypeEnv(_, t, p) => (t.Atom? ==> t.name in PrimitiveNames()) && KnownAtoms(p)
  }

  /** Lookup in such an environment finds only atoms naming primitive types. */
  lemma {:induction false} GetKnownAtom(env: TypeEnv, name: string)
    requires KnownAtoms(env)
    ensures env.Get(name).Ok? && env.Get(name).value.Atom? ==> env.Get(name).value.name in PrimitiveNames()
  {
    match env
    case EmptyTypeEnv =>
    case BindTypeEnv(n, _, p) =>
      if name != n {
        GetKnownAtom(p, name);
      }
  }

  /** A deduced atom names a primitive type: literals and infix calls give primitive atoms,
    * `if` a variable, `fn` a sequence, and identifiers what the environment binds. */
  lemma DeducedAtomIsPrimitive(env: TypeEnv, node: Node, next: nat)
    requires KnownAtoms(env)
    ensures DeduceNodeOf(env, node, next).result.Ok? && DeduceNodeOf(env, node, next).result.value.Atom? ==>
      DeduceNodeOf(env, node, next).result.value.name in PrimitiveNames()
  {
    match node
    case ExpNode(e) => DeducedExpAtomIsPrimitive(env, e, next);
    case DeclNode(decl) =>
      if |decl.patExps| > 0 {
        DeducedExpAtomIsPrimitive(env, decl.patExps[0].exp, next);
      }
    case MatchNode(arm) =>
  }

  /** The same for one expression. */
  lemma DeducedExpAtomIsPrimitive(env: TypeEnv, e: Exp, next: nat)
    requires KnownAtoms(env)
    ensures DeduceOf(env, e, next).result.Ok? && DeduceOf(env, e, next).result.value.Atom? ==>
      DeduceOf(env, e, next).result.value.name in PrimitiveNames()
  {
    match e
    case Id(name) => GetKnownAtom(env, name);
    case FnExp(arm) => assert DeduceOf(env, e, next) == DeduceMatchOf(env, arm, next);
    case InfixCall(op, _, _) =>
    case _ =>
  }

  /** The type environment Compiler.deduceType starts from: true and false are bool. */
  function InitialTypeEnv(): TypeEnv
  {
    EmptyTypeEnv.Bind("true", TypeAtom(BOOL)).Bind("false", TypeAtom(BOOL))
  }

  /**
   * Compiler.deduceType(env, node), with a new resolver: an atom result is looked up in the
   * type table; any other result fails. The environment argument is never consulted.
   */
  function DeduceTypeOf(node: Node): (r: Result<Type>)
    ensures r.Ok? <==> DeduceNodeOf(InitialTypeEnv(), node, 0).result.Ok? && DeduceNodeOf(InitialTypeEnv(), node, 0).result.value.Atom?
    ensures r.Ok? ==>
              && r.value in {Primitive(INT), Primitive(REAL), Primitive(STRING), Primitive(BOOL)}
              && Atom(Description(r.value)) == DeduceNodeOf(InitialTypeEnv(), node, 0).result.value
  {
    var d := DeduceNodeOf(InitialTypeEnv(), node, 0);
    match d.result
    case Err(message) => Err(message)
    case Ok(t) =>
      if t.Atom? then
        DeducedAtomIsPrimitive(InitialTypeEnv(), node, 0);
        Ok(InitialTypes()[t.name])
      else Err("AssertionError")
  }

  /** A function expression never gets a type: its term is a sequence, not an atom. */
  lemma FnExpHasNoType(arm: MatchArm)
    ensures DeduceTypeOf(ExpNode(FnExp(arm))).Err?
  {
    assert DeduceOf(InitialTypeEnv(), FnExp(arm), 0) == DeduceMatchOf(InitialTypeEnv(), arm, 0);
  }

  /** Nor does a conditional: its term is a fresh variable. */
  lemma IfHasNoType(c: Exp, t: Exp, f: Exp)
    ensures DeduceTypeOf(ExpNode(If(c, t, f))).Err?
  {
  }

  // ---------------------------------------------------------------------------
  // Compiler.compile: expressions to code

  /** The constants code can hold; a real literal keeps its digits (no floating point). */
  datatype Value = IntValue(i: Int32) | RealValue(digits: string) | BoolValue(b: bool) | StringValue(s: string)

  /** The code Compiler.compile builds, one constructor per Codes factory it calls; the
    * infix factories (andAlso, orElse, plus, minus, times, divide, power) share one. */
  datatype Code =
    | Constant(value: Value)
    | GetCode(name: string)
    | IfThenElse(condition: Code, ifTrue: Code, ifFalse: Code)
    | LetCode(varCodes: seq<NameTypeCode>, resultCode: Code)
    | FnCode(paramName: string, paramType: Type, body: Code)
    | ApplyCode(fnCode: Code, argCode: Code)
    | InfixCode(op: InfixOp, code0: Code, code1: Code)

  /** Codes.NameTypeCode: one binding of a `let`. */
  datatype NameTypeCode = NameTypeCode(name: string, varType: Type, code: Code)

  /**
   * compile(env, expression). An int literal is truncated to 32 bits (BigDecimal.intValue);
   * `fn` first needs a function type from deduceType, which never gives one, so it fails with
   * deduceType's error; any other operator is "op not handled". The environment argument is
   * only passed along, so it is left out.
   */
  function CompileOf(e: Exp): Result<Code>
    decreases e
  {
    match e
    case Lit(IntLit(n)) => Ok(Constant(IntValue(Wrap32(n))))
    case Lit(RealLit(digits)) => Ok(Constant(RealValue(digits)))
    case Lit(BoolLit(b)) => Ok(Constant(BoolValue(b)))
    case Lit(StringLit(s)) => Ok(Constant(StringValue(s)))
    case Id(name) => Ok(GetCode(name))
    case If(condition, ifTrue, ifFalse) =>
      var c := CompileOf(condition);
      if c.Err? then c
      else
        var t := CompileOf(ifTrue);
        if t.Err? then t
        else
          var f := CompileOf(ifFalse);
          if f.Err? then f
          else Ok(IfThenElse(c.value, t.value, f.value))
    case Let(decl, body) =>
      var bindings := CompileBindingsOf(decl.patExps);
      if bindings.Err? then Err(bindings.message)
      else
        var result := CompileOf(body);
        if result.Err? then result
        else Ok(LetCode(bindings.value, result.value))
    case FnExp(arm) =>
      if !arm.pat.NamedPat? then Err("ClassCastException")
      else
        var t := DeduceTypeOf(ExpNode(e));
        if t.Err? then Err(t.message) else Err("ClassCastException")
    case Apply(fn, arg) =>
      var f := CompileOf(fn);
      if f.Err? then f
      else
        var a := CompileOf(arg);
        if a.Err? then a
        else Ok(ApplyCode(f.value, a.value))
    case InfixCall(op, a0, a1) =>
      var c0 := CompileOf(a0);
      if c0.Err? then c0
      else
        var c1 := CompileOf(a1);
        if c1.Err? then c1
        else Ok(InfixCode(op, c0.value, c1.value))
    case OtherExp(opName) => Err("op not handled: " + opName)
  }

  /** The bindings of a `let`, in order, stopping at the first that fails. */
  function CompileBindingsOf(ps: seq<PatExp>): Result<seq<NameTypeCode>>
    decreases ps
  {
    if |ps| == 0 then Ok([])
    else
      var init := CompileBindingsOf(ps[..|ps| - 1]);
      if init.Err? then init
      else
        var last := CompileBindingOf(ps[|ps| - 1]);
        if last.Err? then Err(last.message)
        else Ok(init.value + [last.value])
  }

  /** One binding of a `let`: only a named pattern is supported ("TODO:"); its type is
    * deduced, then its expression compiled. */
  function CompileBindingOf(pe: PatExp): Result<NameTypeCode>
    decreases pe
  {
    if !pe.pat.NamedPat? then Err("TODO:")
    else
      var t := DeduceTypeOf(ExpNode(pe.exp));
      if t.Err? then Err(t.message)
      else
        var c := CompileOf(pe.exp);
        if c.Err? then Err(c.message)
        else Ok(NameTypeCode(pe.pat.name, t.value, c.value))
  }

  /** The bindings up to `i + 1` are those up to `i` followed by binding `i`, unless either fails. */
  lemma BindingsStep(ps: seq<PatExp>, i: nat)
    requires i < |ps|
    ensures CompileBindingsOf(ps[..i + 1])
         == if CompileBindingsOf(ps[..i]).Err? then CompileBindingsOf(ps[..i])
            else if CompileBindingOf(ps[i]).Err? then Err(CompileBindingOf(ps[i]).message)
            else Ok(CompileBindingsOf(ps[..i]).value + [CompileBindingOf(ps[i]).value])
  {
    assert ps[..i + 1][..i] == ps[..i];
  }

  /** A failing prefix of the bindings makes the whole `let` fail with the same message. */
  lemma {:induction false} BindingsFailEarly(ps: seq<PatExp>, k: nat)
    requires k <= |ps| && CompileBindingsOf(ps[..k]).Err?
    ensures CompileBindingsOf(ps) == CompileBindingsOf(ps[..k])
    decreases |ps| - k
  {
    if k < |ps| {
      assert ps[..k + 1][..k] == ps[..k];
      BindingsFailEarly(ps, k + 1);
    } else {
      assert ps[..k] == ps;
    }
  }

  /** The source an int literal denotes once truncated to 32 bits. */
  function WrapLiterals(e: Exp): Exp
    decreases e
  {
    match e
    case Lit(IntLit(n)) => Lit(IntLit(Wrap32(n) as int))
    case If(c, t, f) => If(WrapLiterals(c), WrapLiterals(t), WrapLiterals(f))
    case Let(decl, body) => Let(VarDecl(WrapBindings(decl.patExps)), WrapLiterals(body))
    case FnExp(arm) => FnExp(MatchArm(arm.pat, WrapLiterals(arm.e)))
    case Apply(fn, arg) => Apply(WrapLiterals(fn), WrapLiterals(arg))
    case InfixCall(op, a0, a1) => InfixCall(op, WrapLiterals(a0), WrapLiterals(a1))
    case _ => e
  }

  /** WrapLiterals on every binding. */
  function WrapBindings(ps: seq<PatExp>): seq<PatExp>
    decreases ps
  {
    if |ps| == 0 then []
    else WrapBindings(ps[..|ps| - 1]) + [WrapBinding(ps[|ps| - 1])]
  }

  /** WrapLiterals on one binding's expression. */
  function WrapBinding(pe: PatExp): PatExp
    decreases pe
  {
    PatExp(pe.pat, WrapLiterals(pe.exp))
  }

  /** The expression a piece of code was compiled from. */
  function Decompile(c: Code): Exp
    decreases c
  {
    match c
    case Constant(IntValue(i)) => Lit(IntLit(i as int))
    case Constant(RealValue(digits)) => Lit(RealLit(digits))
    case Constant(BoolValue(b)) => Lit(BoolLit(b))
    case Constant(StringValue(s)) => Lit(StringLit(s))
    case GetCode(name) => Id(name)
    case IfThenElse(cc, t, f) => If(Decompile(cc), Decompile(t), Decompile(f))
    case LetCode(varCodes, resultCode) => Let(VarDecl(DecompileBindings(varCodes)), Decompile(resultCode))
    case FnCode(paramName, _, body) => FnExp(MatchArm(NamedPat(paramName), Decompile(body)))
    case ApplyCode(f, a) => Apply(Decompile(f), Decompile(a))
    case InfixCode(op, c0, c1) => InfixCall(op, Decompile(c0), Decompile(c1))
  }

  /** Decompile on every binding, each under its named pattern. */
  function DecompileBindings(vcs: seq<NameTypeCode>): seq<PatExp>
    decreases vcs
  {
    if |vcs| == 0 then []
    else DecompileBindings(vcs[..|vcs| - 1]) + [PatExp(NamedPat(vcs[|vcs| - 1].name), Decompile(vcs[|vcs| - 1].code))]
  }

  /** Compilation loses nothing but the high bits of int literals: decompiling the code gives
    * back the source expression with its literals truncated. */
  lemma {:induction false} CompileRoundTrip(e: Exp)
    ensures CompileOf(e).Ok? ==> Decompile(CompileOf(e).value) == WrapLiterals(e)
    decreases e
  {
    match e
    case Lit(_) =>
    case Id(_) =>
    case If(c, t, f) =>
      CompileRoundTrip(c);
      CompileRoundTrip(t);
      CompileRoundTrip(f);
    case Let(decl, body) =>
      CompileBindingsRoundTrip(decl.patExps);
      CompileRoundTrip(body);
    case FnExp(_) =>
    case Apply(fn, arg) =>
      CompileRoundTrip(fn);
      CompileRoundTrip(arg);
    case InfixCall(_, a0, a1) =>
      CompileRoundTrip(a0);
      CompileRoundTrip(a1);
    case OtherExp(_) =>
  }

  /** The same for the bindings of a `let`. */
  lemma {:induction false} CompileBindingsRoundTrip(ps: seq<PatExp>)
    ensures CompileBindingsOf(ps).Ok? ==> DecompileBindings(CompileBindingsOf(ps).value) == WrapBindings(ps)
    decreases ps
  {
    if |ps| > 0 && CompileBindingsOf(ps).Ok? {
      var init := ps[..|ps| - 1];
      var last := ps[|ps| - 1];
      CompileBindingsRoundTrip(init);
      assert last.exp < last;
      CompileRoundTrip(last.exp);
      var vcs := CompileBindingsOf(ps).value;
      assert vcs[..|vcs| - 1] == CompileBindingsOf(init).value;
    }
  }

  /** An int literal that fits in 32 bits compiles to itself. */
  lemma SmallIntLiteralCompilesExactly(n: int)
    requires -0x8000_0000 <= n < 0x8000_0000
    ensures CompileOf(Lit(IntLit(n))) == Ok(Constant(IntValue(n as Int32)))
  {
  }

  // ---------------------------------------------------------------------------
  // Compiler.compileStatement and CompiledStatement.eval

  /** What the shell hands the compiler: a bare expression, a declaration, or anything else. */
  datatype Statement = ExpStatement(exp: Exp) | DeclStatement(decl: VarDecl) | OtherStatement(opName: string)

  /** Compiler.TypeAndCode. */
  datatype TypeAndCode = TypeAndCode(varType: Type, code: Code)

  /** One entry of the insertion-ordered map from names to their type and code. */
  datatype VarCode = VarCode(name: string, typeAndCode: TypeAndCode)

  /** The compiled statement: its type and its entries, in insertion order. */
  datatype CompiledStatement = CompiledStatement(statementType: Type, varCodes: seq<VarCode>)

  /** The keys of an insertion-ordered map, in order. */
  function Names(entries: seq<VarCode>): (r: seq<string>)
    ensures |r| == |entries| && forall k | 0 <= k < |entries| :: r[k] == entries[k].name
  {
    seq(|entries|, k requires 0 <= k < |entries| => entries[k].name)
  }

  /** The value of the first entry named `name`. */
  function ValueOf(entries: seq<VarCode>, name: string): Option<TypeAndCode>
  {
    if |entries| == 0 then None
    else if entries[0].name == name then Some(entries[0].typeAndCode)
    else ValueOf(entries[1..], name)
  }

  /** The names of an entry list, one entry at a time. */
  lemma EntriesConsNames(e: VarCode, rest: seq<VarCode>)
    ensures Names([e] + rest) == [e.name] + Names(rest)
  {
    var r := [e] + rest;
    var names, expected := Names(r), [e.name] + Names(rest);
    forall k | 0 <= k < |names| ensures names[k] == expected[k] {
      if k > 0 {
        assert r[k] == rest[k - 1];
      }
    }
    assert names == expected;
  }

  /** The lookups of an entry list, one entry at a time. */
  lemma EntriesConsValues(e: VarCode, rest: seq<VarCode>)
    ensures forall n :: ValueOf([e] + rest, n) == if e.name == n then Some(e.typeAndCode) else ValueOf(rest, n)
  {
    var r := [e] + rest;
    assert r[0] == e && r[1..] == rest;
  }

  /** Names and lookups of an entry list, one entry at a time. */
  lemma EntriesCons(e: VarCode, rest: seq<VarCode>)
    ensures Names([e] + rest) == [e.name] + Names(rest)
    ensures forall n :: ValueOf([e] + rest, n) == if e.name == n then Some(e.typeAndCode) else ValueOf(rest, n)
  {
    EntriesConsNames(e, rest);
    EntriesConsValues(e, rest);
  }

  /** LinkedHashMap.put: a new key goes last; an existing key keeps its place and takes the
    * new value; every other key keeps its value. */
  function Put(entries: seq<VarCode>, name: string, tc: TypeAndCode): (r: seq<VarCode>)
    ensures Names(r) == if name in Names(entries) then Names(entries) else Names(entries) + [name]
    ensures ValueOf(r, name) == Some(tc)
    ensures forall n | n != name :: ValueOf(r, n) == ValueOf(entries, n)
  {
    if |entries| == 0 then
      EntriesCons(VarCode(name, tc), []);
      [VarCode(name, tc)]
    else
      var first, tail := entries[0], entries[1..];
      assert entries == [first] + tail;
      EntriesCons(first, tail);
      if first.name == name then
        EntriesCons(VarCode(name, tc), tail);
        [VarCode(name, tc)] + tail
      else
        var rest := Put(tail, name, tc);
        EntriesCons(first, rest);
        [first] + rest
  }

  /** compileStatement: a bare expression is the declaration `val it = e`; anything other
    * than an expression or a declaration fails the cast. */
  function StatementDecl(statement: Statement): (r: Result<VarDecl>)
    ensures statement.ExpStatement? ==> r == Ok(VarDecl([PatExp(NamedPat("it"), statement.exp)]))
    ensures statement.DeclStatement? ==> r == Ok(statement.decl)
    ensures statement.OtherStatement? ==> r == Err("ClassCastException")
  {
    match statement
    case ExpStatement(e) => Ok(VarDecl([PatExp(NamedPat("it"), e)]))
    case DeclStatement(decl) => Ok(decl)
    case OtherStatement(_) => Err("ClassCastException")
  }

  /** One binding of a statement: the pattern must be named; its type is deduced, then its
    * expression compiled. */
  function StatementEntryOf(pe: PatExp): (r: Result<VarCode>)
    ensures r.Ok? ==> pe.pat.NamedPat? && r.value.name == pe.pat.name
  {
    if !pe.pat.NamedPat? then Err("ClassCastException")
    else
      var t := DeduceTypeOf(ExpNode(pe.exp));
      if t.Err? then Err(t.message)
      else
        var c := CompileOf(pe.exp);
        if c.Err? then Err(c.message)
        else Ok(VarCode(pe.pat.name, TypeAndCode(t.value, c.value)))
  }

  /** The entries of a statement: each binding put into the map in order, stopping at the
    * first that fails. */
  function StatementCodesOf(ps: seq<PatExp>): Result<seq<VarCode>>
  {
    if |ps| == 0 then Ok([])
    else
      var init := StatementCodesOf(ps[..|ps| - 1]);
      if init.Err? then init
      else
        var entry := StatementEntryOf(ps[|ps| - 1]);
        if entry.Err? then Err(entry.message)
        else Ok(Put(init.value, entry.value.name, entry.value.typeAndCode))
  }

  /** The entries up to binding `i + 1` are those up to `i` with binding `i` put in, unless
    * either fails. */
  lemma StatementCodesStep(ps: seq<PatExp>, i: nat)
    requires i < |ps|
    ensures StatementCodesOf(ps[..i + 1])
         == if StatementCodesOf(ps[..i]).Err? then StatementCodesOf(ps[..i])
            else if StatementEntryOf(ps[i]).Err? then Err(StatementEntryOf(ps[i]).message)
            else Ok(Put(StatementCodesOf(ps[..i]).value, StatementEntryOf(ps[i]).value.name,
                        StatementEntryOf(ps[i]).value.typeAndCode))
  {
    assert ps[..i + 1][..i] == ps[..i];
  }

  /** A failing prefix of the bindings makes the whole statement fail with the same message. */
  lemma {:induction false} StatementCodesFailEarly(ps: seq<PatExp>, k: nat)
    requires k <= |ps| && StatementCodesOf(ps[..k]).Err?
    ensures StatementCodesOf(ps) == StatementCodesOf(ps[..k])
    decreases |ps| - k
  {
    if k < |ps| {
      assert ps[..k + 1][..k] == ps[..k];
      StatementCodesFailEarly(ps, k + 1);
    } else {
      assert ps[..k] == ps;
    }
  }

  /** The names bound by a declaration's patterns, in order. */
  function PatNames(ps: seq<PatExp>): (r: seq<string>)
    ensures |r| == |ps|
  {
    seq(|ps|, k requires 0 <= k < |ps| => if ps[k].pat.NamedPat? then ps[k].pat.name else "")
  }

  /** No name occurs twice. */
  predicate Distinct(names: seq<string>)
  {
    forall i, j | 0 <= i < j < |names| :: names[i] != names[j]
  }

  /** StatementCodesOf with the per-binding step passed in, so that facts about names need not
    * look inside type deduction or compilation. */
  function CodesWith(ps: seq<PatExp>, entryOf: PatExp -> Result<VarCode>): Result<seq<VarCode>>
  {
    if |ps| == 0 then Ok([])
    else
      var init := CodesWith(ps[..|ps| - 1], entryOf);
      if init.Err? then init
      else
        var entry := entryOf(ps[|ps| - 1]);
        if entry.Err? then Err(entry.message)
        else Ok(Put(init.value, entry.value.name, entry.value.typeAndCode))
  }

  /** StatementCodesOf is CodesWith the statement's own binding step. */
  lemma {:induction false} StatementCodesIsCodesWith(ps: seq<PatExp>)
    ensures StatementCodesOf(ps) == CodesWith(ps, StatementEntryOf)
  {
    if |ps| > 0 {
      StatementCodesIsCodesWith(ps[..|ps| - 1]);
    }
  }

  /** With any binding step that keeps the pattern's name, the entries are named exactly by
    * the patterns, each once. */
  lemma {:induction false} CodesWithNames(ps: seq<PatExp>, entryOf: PatExp -> Result<VarCode>)
    requires forall pe :: entryOf(pe).Ok? ==> pe.pat.NamedPat? && entryOf(pe).value.name == pe.pat.name
    ensures CodesWith(ps, entryOf).Ok? ==>
      && Distinct(Names(CodesWith(ps, entryOf).value))
      && (forall n :: n in Names(CodesWith(ps, entryOf).value) <==> n in PatNames(ps))
  {
    if |ps| > 0 && CodesWith(ps, entryOf).Ok? {
      var init, last := ps[..|ps| - 1], ps[|ps| - 1];
      CodesWithStep(ps, entryOf);
      CodesWithNames(init, entryOf);
      var entry := entryOf(last).value;
      PatNamesSnoc(ps);
      PutNames(CodesWith(init, entryOf).value, entry.name, entry.typeAndCode, PatNames(init));
    }
  }

  /** A successful run is its successful prefix with the last entry put in. */
  lemma CodesWithStep(ps: seq<PatExp>, entryOf: PatExp -> Result<VarCode>)
    requires |ps| > 0 && CodesWith(ps, entryOf).Ok?
    ensures CodesWith(ps[..|ps| - 1], entryOf).Ok? && entryOf(ps[|ps| - 1]).Ok?
    ensures CodesWith(ps, entryOf).value
         == Put(CodesWith(ps[..|ps| - 1], entryOf).value, entryOf(ps[|ps| - 1]).value.name,
                entryOf(ps[|ps| - 1]).value.typeAndCode)
  {
  }

  /** The pattern names of a declaration are those of all but its last binding, then the last. */
  lemma PatNamesSnoc(ps: seq<PatExp>)
    requires |ps| > 0
    ensures PatNames(ps) == PatNames(ps[..|ps| - 1]) + [PatNames(ps)[|ps| - 1]]
  {
    var init := ps[..|ps| - 1];
    assert forall k | 0 <= k < |init| :: init[k] == ps[k];
  }

  /** The map holds each bound name exactly once, and exactly the names the patterns bind. */
  lemma StatementCodesNames(ps: seq<PatExp>)
    ensures StatementCodesOf(ps).Ok? ==>
      && Distinct(Names(StatementCodesOf(ps).value))
      && (forall n :: n in Names(StatementCodesOf(ps).value) <==> n in PatNames(ps))
  {
    StatementCodesIsCodesWith(ps);
    CodesWithNames(ps, StatementEntryOf);
  }

  /** Putting `name` into entries named exactly `names` (each once) gives entries named exactly
    * `names + [name]`, each once. */
  lemma PutNames(entries: seq<VarCode>, name: string, tc: TypeAndCode, names: seq<string>)
    requires Distinct(Names(entries)) && forall n :: n in Names(entries) <==> n in names
    ensures Distinct(Names(Put(entries, name, tc)))
    ensures forall n :: n in Names(Put(entries, name, tc)) <==> n in names + [name]
  {
    PutKeepsDistinct(entries, name, tc);
    forall n ensures n in names + [name] <==> n in names || n == name {
    }
  }

  /** Put never duplicates a key. */
  lemma PutKeepsDistinct(entries: seq<VarCode>, name: string, tc: TypeAndCode)
    requires Distinct(Names(entries))
    ensures Distinct(Names(Put(entries, name, tc)))
    ensures forall n :: n in Names(Put(entries, name, tc)) <==> n in Names(entries) || n == name
  {
  }

  /** compileStatement: the entries, then the type of the whole declaration. */
  function CompileStatementOf(statement: Statement): Result<CompiledStatement>
  {
    var decl := StatementDecl(statement);
    if decl.Err? then Err(decl.message)
    else
      var codes := StatementCodesOf(decl.value.patExps);
      if codes.Err? then Err(codes.message)
      else
        var t := DeduceTypeOf(DeclNode(decl.value));
        if t.Err? then Err(t.message)
        else Ok(CompiledStatement(t.value, codes.value))
  }

  /** The output line eval writes for one binding; the type is always printed as int. */
  function ReportLine(name: string, shown: string): string
  {
    "val " + name + " = " + shown + " : int"
  }

  /** The lines eval writes: each entry's code is run against the environment eval was given,
    * not against the one it is building. */
  function ReportLines<E, V>(entries: seq<VarCode>, env: E, run: (Code, E) -> V, show: V -> string): (r: seq<string>)
    ensures |r| == |entries|
  {
    seq(|entries|, k requires 0 <= k < |entries| =>
      ReportLine(entries[k].name, show(run(entries[k].typeAndCode.code, env))))
  }

  /** The environment eval returns: `base` with each entry added in order. */
  function AddAll<E, V>(base: E, entries: seq<VarCode>, env: E, run: (Code, E) -> V,
                        add: (E, string, Type, V) -> E): E
  {
    if |entries| == 0 then base
    else
      var last := entries[|entries| - 1];
      add(AddAll(base, entries[..|entries| - 1], env, run, add), last.name, last.typeAndCode.varType,
          run(last.typeAndCode.code, env))
  }

  /** The bindings of a statement are simultaneous: the lines for a split statement are the
    * lines of its parts. */
  lemma {:induction false} ReportLinesSplit<E, V>(a: seq<VarCode>, b: seq<VarCode>, env: E, run: (Code, E) -> V, show: V -> string)
    ensures ReportLines(a + b, env, run, show) == ReportLines(a, env, run, show) + ReportLines(b, env, run, show)
  {
    var lhs := ReportLines(a + b, env, run, show);
    var rhs := ReportLines(a, env, run, show) + ReportLines(b, env, run, show);
    forall k | 0 <= k < |lhs| ensures lhs[k] == rhs[k] {
      if k >= |a| {
        assert (a + b)[k] == b[k - |a|];
      }
    }
  }

  /**
   * CompiledStatement.eval, given the code runner, the environment extender and the way a
   * value prints as parameters: adds each entry to the environment and writes its line.
   */
  method Eval<E, V>(statement: CompiledStatement, env: E, output: seq<string>, run: (Code, E) -> V,
                    add: (E, string, Type, V) -> E, show: V -> string)
    returns (resultEnvironment: E, newOutput: seq<string>)
    ensures newOutput == output + ReportLines(statement.varCodes, env, run, show)
    ensures resultEnvironment == AddAll(env, statement.varCodes, env, run, add)
  {
    resultEnvironment := env;
    newOutput := output;
    var i := 0;
    while i < |statement.varCodes|
      invariant 0 <= i <= |statement.varCodes|
      invariant newOutput == output + ReportLines(statement.varCodes[..i], env, run, show)
      invariant resultEnvironment == AddAll(env, statement.varCodes[..i], env, run, add)
    {
      var entry := statement.varCodes[i];
      var value := run(entry.typeAndCode.code, env);
      resultEnvironment := add(resultEnvironment, entry.name, entry.typeAndCode.varType, value);
      ReportLinesSplit(statement.varCodes[..i], [entry], env, run, show);
      assert statement.varCodes[..i + 1] == statement.varCodes[..i] + [entry];
      assert statement.varCodes[..i + 1][..i] == statement.varCodes[..i];
      newOutput := newOutput + [ReportLine(entry.name, show(value))];
      i := i + 1;
    }
    assert statement.varCodes[..i] == statement.varCodes;
  }

  /** The Compiler: its type system is shared by every deduction. */
  class Compiler {
    const typeSystem: TypeSystem

    /** new Compiler(): a new type system. */
    constructor ()
      ensures fresh(typeSystem) && typeSystem.Valid()
    {
      typeSystem := new TypeSystem();
    }

    /** deduceType(env, node): a new resolver, true and false bound to the bool atom. */
    method DeduceType(node: Node) returns (r: Result<Type>)
      requires typeSystem.Valid()
      ensures r == DeduceTypeOf(node)
    {
      var typeResolver := new TypeResolver(typeSystem);
      var boolType := PrimitiveTypeNamed("bool");
      var trueType := typeResolver.AtomOf(boolType.value);
      var falseType := typeResolver.AtomOf(boolType.value);
      var typeEnv := EmptyTypeEnv.Bind("true", trueType).Bind("false", falseType);
      var typeTerm := typeResolver.DeduceNode(typeEnv, node);
      if typeTerm.Err? {
        return Err(typeTerm.message);
      }
      if !typeTerm.value.Atom? {
        return Err("AssertionError");
      }
      DeducedAtomIsPrimitive(typeEnv, node, 0);
      return Ok(typeResolver.typeSystem.types[typeTerm.value.name]);
    }

    /** compile(env, expression). */
    method Compile(e: Exp) returns (r: Result<Code>)
      requires typeSystem.Valid()
      ensures r == CompileOf(e)
      decreases e
    {
      match e {
        case Lit(IntLit(n)) =>
          return Ok(Constant(IntValue(Wrap32(n))));
        case Lit(RealLit(digits)) =>
          return Ok(Constant(RealValue(digits)));
        case Lit(BoolLit(b)) =>
          return Ok(Constant(BoolValue(b)));
        case Lit(StringLit(s)) =>
          return Ok(Constant(StringValue(s)));
        case Id(name) =>
          return Ok(GetCode(name));
        case If(condition, ifTrue, ifFalse) =>
          var conditionCode := Compile(condition);
          if conditionCode.Err? {
            return conditionCode;
          }
          var trueCode := Compile(ifTrue);
          if trueCode.Err? {
            return trueCode;
          }
          var falseCode := Compile(ifFalse);
          if falseCode.Err? {
            return falseCode;
          }
          return Ok(IfThenElse(conditionCode.value, trueCode.value, falseCode.value));
        case Let(decl, body) =>
          var ps := decl.patExps;
          var varCodes: seq<NameTypeCode> := [];
          var i := 0;
          while i < |ps|
            invariant 0 <= i <= |ps|
            invariant CompileBindingsOf(ps[..i]) == Ok(varCodes)
          {
            var pe := ps[i];
            BindingsStep(ps, i);
            if !pe.pat.NamedPat? {
              BindingsFailEarly(ps, i + 1);
              return Err("TODO:");
            }
            var t := DeduceType(ExpNode(pe.exp));
            if t.Err? {
              BindingsFailEarly(ps, i + 1);
              return Err(t.message);
            }
            assert pe in ps && pe.exp < pe;
            var initCode := Compile(pe.exp);
            if initCode.Err? {
              BindingsFailEarly(ps, i + 1);
              return Err(initCode.message);
            }
            varCodes := varCodes + [NameTypeCode(pe.pat.name, t.value, initCode.value)];
            i := i + 1;
          }
          assert ps[..i] == ps;
          var resultCode := Compile(body);
          if resultCode.Err? {
            return resultCode;
          }
          return Ok(LetCode(varCodes, resultCode.value));
        case FnExp(arm) =>
          if !arm.pat.NamedPat? {
            return Err("ClassCastException");
          }
          // deduceType never gives a function type, so its failure is the answer
          var fnType := DeduceType(ExpNode(e));
          FnExpHasNoType(arm);
          return Err(fnType.message);
        case Apply(fn, arg) =>
          var fnCode := Compile(fn);
          if fnCode.Err? {
            return fnCode;
          }
          var argCode := Compile(arg);
          if argCode.Err? {
            return argCode;
          }
          return Ok(ApplyCode(fnCode.value, argCode.value));
        case InfixCall(op, a0, a1) =>
          var code0 := Compile(a0);
          if code0.Err? {
            return code0;
          }
          var code1 := Compile(a1);
          if code1.Err? {
            return code1;
          }
          return Ok(InfixCode(op, code0.value, code1.value));
        case OtherExp(opName) =>
          return Err("op not handled: " + opName);
      }
    }

    /** compileStatement(env, statement). */
    method CompileStatement(statement: Statement) returns (r: Result<CompiledStatement>)
      requires typeSystem.Valid()
      ensures r == CompileStatementOf(statement)
    {
      var decl: VarDecl;
      match statement {
        case ExpStatement(e) =>
          decl := VarDecl([PatExp(NamedPat("it"), e)]);
        case DeclStatement(d) =>
          decl := d;
        case OtherStatement(_) =>
          return Err("ClassCastException");
      }
      var ps := decl.patExps;
      var varCodes: seq<VarCode> := [];
      var i := 0;
      while i < |ps|
        invariant 0 <= i <= |ps|
        invariant StatementCodesOf(ps[..i]) == Ok(varCodes)
      {
        var pe := ps[i];
        StatementCodesStep(ps, i);
        if !pe.pat.NamedPat? {
          StatementCodesFailEarly(ps, i + 1);
          return Err("ClassCastException");
        }
        var t := DeduceType(ExpNode(pe.exp));
        if t.Err? {
          StatementCodesFailEarly(ps, i + 1);
          return Err(t.message);
        }
        var code := Compile(pe.exp);
        if code.Err? {
          StatementCodesFailEarly(ps, i + 1);
          return Err(code.message);
        }
        varCodes := Put(varCodes, pe.pat.name, TypeAndCode(t.value, code.value));
        i := i + 1;
      }
      assert ps[..i] == ps;
      var t := DeduceType(DeclNode(decl));
      if t.Err? {
        return Err(t.message);
      }
      return Ok(CompiledStatement(t.value, varCodes));
    }
  }

  // ---------------------------------------------------------------------------
  // Examples

  /** `1 + 2` has type int. */
  lemma SumHasTypeInt()
    ensures DeduceTypeOf(ExpNode(InfixCall(PLUS, Lit(IntLit(1)), Lit(IntLit(2))))) == Ok(Primitive(INT))
  {
  }

  /** `true`, entered bare, is bound to `it` with type bool, yet its line says int. */
  lemma BoolStatementReportsInt<E, V>(env: E, run: (Code, E) -> V, show: V -> string)
    ensures CompileStatementOf(ExpStatement(Lit(BoolLit(true))))
      == Ok(CompiledStatement(Primitive(BOOL), [VarCode("it", TypeAndCode(Primitive(BOOL), Constant(BoolValue(true))))]))
    ensures ReportLines([VarCode("it", TypeAndCode(Primitive(BOOL), Constant(BoolValue(true))))], env, run, show)
      == ["val it = " + show(run(Constant(BoolValue(true)), env)) + " : int"]
  {
    var shown := show(run(Constant(BoolValue(true)), env));
    assert "val " + "it" + " = " + shown + " : int" == "val it = " + shown + " : int";
  }
}
