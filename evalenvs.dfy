/**
 * Run-time environments (morel eval.EvalEnvs): single-slot links (immutable or settable), an
 * array-backed link binding several names, a link whose slots are filled by matching a
 * pattern against a value, and a map leaf.
 *
 * A Java EvalEnv is one of four classes; without traits the model joins them in the datatype
 * `EvalEnv`. Parents are fixed at construction, so every chain is finite; the ghost `depth`
 * of each link records that, and `Wf` states it.
 */
module EvalEnvs {
  import opened Wrappers
  import opened JavaInts

  /** The run-time values a pattern is matched against; tuples, records, lists and constructor
    * applications ([tag, argument]) are all Java lists. */
  datatype Value =
    | BoolVal(b: bool)
    | CharVal(c: char)
    | StringVal(s: string)
    | IntVal(i: Int32)
    | ListVal(items: seq<Value>)

  /** The pattern kinds bindRecurse handles (Ast.Pat, with just the fields it reads); a record
    * pattern lists its field patterns in label order. `OtherPat` is any other kind. */
  datatype Pat =
    | IdPat(name: string)
    | WildcardPat
    | BoolLiteralPat(b: bool)
    | CharLiteralPat(c: char)
    | StringLiteralPat(s: string)
    | IntLiteralPat(n: int)
    | TuplePat(args: seq<Pat>)
    | RecordPat(args: seq<Pat>)
    | ListPat(args: seq<Pat>)
    | ConsPat(p0: Pat, p1: Pat)
    | Con0Pat(tyCon: string)
    | ConPat(tyCon: string, pat: Pat)
    | OtherPat(op: string)

  // ---------------------------------------------------------------------------
  // The binder, as a function of the slot array and the slot counter

  /** The part of a MutablePatSubEvalEnv that binding changes. */
  datatype BindState = BindState(values: seq<Option<Value>>, slot: nat)

  /** What bindRecurse returns (or throws), and the state it leaves. */
  datatype Outcome = Outcome(result: Result<bool>, state: BindState)

  /** bindRecurse(pat, value): identifiers write `values[slot++]`; literals compare; tuples,
    * records and lists recurse pairwise and stop at the first component that does not succeed.
    * Nothing written before a failure is undone. */
  function Bind(p: Pat, v: Value, st: BindState): Outcome
    decreases p
  {
    match p
    case IdPat(_) =>
      if st.slot < |st.values| then Outcome(Ok(true), BindState(st.values[st.slot := Some(v)], st.slot + 1))
      else Outcome(Err("ArrayIndexOutOfBoundsException"), BindState(st.values, st.slot + 1))
    case WildcardPat => Outcome(Ok(true), st)
    case BoolLiteralPat(b) => Outcome(Ok(v == BoolVal(b)), st)
    case CharLiteralPat(c) => Outcome(Ok(v == CharVal(c)), st)
    case StringLiteralPat(s) => Outcome(Ok(v == StringVal(s)), st)
    case IntLiteralPat(n) =>
      if v.IntVal? then Outcome(Ok(Wrap32(n) == v.i), st) else Outcome(Err("ClassCastException"), st)
    case TuplePat(ps) =>
      if v.ListVal? then BindEach(ps, v.items, st) else Outcome(Err("ClassCastException"), st)
    case RecordPat(ps) =>
      if v.ListVal? then BindEach(ps, v.items, st) else Outcome(Err("ClassCastException"), st)
    case ListPat(ps) =>
      if !v.ListVal? then Outcome(Err("ClassCastException"), st)
      else if |v.items| != |ps| then Outcome(Ok(false), st)
      else BindEach(ps, v.items, st)
    case ConsPat(p0, p1) =>
      if !v.ListVal? then Outcome(Err("ClassCastException"), st)
      else if |v.items| == 0 then Outcome(Ok(false), st)
      else
        var first := Bind(p0, v.items[0], st);
        if first.result == Ok(true) then Bind(p1, ListVal(v.items[1..]), first.state) else first
    case Con0Pat(tag) =>
      if !v.ListVal? then Outcome(Err("ClassCastException"), st)
      else if |v.items| == 0 then Outcome(Err("IndexOutOfBoundsException"), st)
      else Outcome(Ok(v.items[0] == StringVal(tag)), st)
    case ConPat(tag, q) =>
      if !v.ListVal? then Outcome(Err("ClassCastException"), st)
      else if |v.items| == 0 then Outcome(Err("IndexOutOfBoundsException"), st)
      else if v.items[0] != StringVal(tag) then Outcome(Ok(false), st)
      else if |v.items| < 2 then Outcome(Err("IndexOutOfBoundsException"), st)
      else Bind(q, v.items[1], st)
    case OtherPat(op) => Outcome(Err("cannot compile " + op), st)
  }

  /** The loop over Pair.zip(patterns, values): pairs up to the shorter of the two, stopping at
    * the first pair that does not succeed. */
  function BindEach(ps: seq<Pat>, vs: seq<Value>, st: BindState): Outcome
    decreases ps
  {
    if |ps| == 0 || |vs| == 0 then Outcome(Ok(true), st)
    else
      var first := Bind(ps[0], vs[0], st);
      if first.result == Ok(true) then BindEach(ps[1..], vs[1..], first.state) else first
  }

  // ---------------------------------------------------------------------------
  // The same matching without slots: the result and the values captured, in order

  /** The outcome of matching without an array: the result and the values the identifiers took
    * before matching stopped. */
  datatype Match = Match(result: Result<bool>, captured: seq<Value>)

  /** Matching `p` against `v`, collecting identifier values left to right. */
  function MatchPat(p: Pat, v: Value): Match
    decreases p
  {
    match p
    case IdPat(_) => Match(Ok(true), [v])
    case WildcardPat => Match(Ok(true), [])
    case BoolLiteralPat(b) => Match(Ok(v == BoolVal(b)), [])
    case CharLiteralPat(c) => Match(Ok(v == CharVal(c)), [])
    case StringLiteralPat(s) => Match(Ok(v == StringVal(s)), [])
    case IntLiteralPat(n) => if v.IntVal? then Match(Ok(Wrap32(n) == v.i), []) else Match(Err("ClassCastException"), [])
    case TuplePat(ps) => if v.ListVal? then MatchEach(ps, v.items) else Match(Err("ClassCastException"), [])
    case RecordPat(ps) => if v.ListVal? then MatchEach(ps, v.items) else Match(Err("ClassCastException"), [])
    case ListPat(ps) =>
      if !v.ListVal? then Match(Err("ClassCastException"), [])
      else if |v.items| != |ps| then Match(Ok(false), [])
      else MatchEach(ps, v.items)
    case ConsPat(p0, p1) =>
      if !v.ListVal? then Match(Err("ClassCastException"), [])
      else if |v.items| == 0 then Match(Ok(false), [])
      else
        var first := MatchPat(p0, v.items[0]);
        if first.result == Ok(true) then
          var rest := MatchPat(p1, ListVal(v.items[1..]));
          Match(rest.result, first.captured + rest.captured)
        else first
    case Con0Pat(tag) =>
      if !v.ListVal? then Match(Err("ClassCastException"), [])
      else if |v.items| == 0 then Match(Err("IndexOutOfBoundsException"), [])
      else Match(Ok(v.items[0] == StringVal(tag)), [])
    case ConPat(tag, q) =>
      if !v.ListVal? then Match(Err("ClassCastException"), [])
      else if |v.items| == 0 then Match(Err("IndexOutOfBoundsException"), [])
      else if v.items[0] != StringVal(tag) then Match(Ok(false), [])
      else if |v.items| < 2 then Match(Err("IndexOutOfBoundsException"), [])
      else MatchPat(q, v.items[1])
    case OtherPat(op) => Match(Err("cannot compile " + op), [])
  }

  /** Pairwise matching up to the shorter list, stopping at the first pair that does not succeed. */
  function MatchEach(ps: seq<Pat>, vs: seq<Value>): Match
    decreases ps
  {
    if |ps| == 0 || |vs| == 0 then Match(Ok(true), [])
    else
      var first := MatchPat(ps[0], vs[0]);
      if first.result == Ok(true) then
        var rest := MatchEach(ps[1..], vs[1..]);
        Match(rest.result, first.captured + rest.captured)
      else first
  }

  /** The number of identifier patterns in `p`: the most slots matching can write. */
  function IdCount(p: Pat): nat
    decreases p
  {
    match p
    case IdPat(_) => 1
    case TuplePat(ps) => IdCounts(ps)
    case RecordPat(ps) => IdCounts(ps)
    case ListPat(ps) => IdCounts(ps)
    case ConsPat(p0, p1) => IdCount(p0) + IdCount(p1)
    case ConPat(_, q) => IdCount(q)
    case _ => 0
  }

  /** The number of identifier patterns in `ps`. */
  function IdCounts(ps: seq<Pat>): nat
    decreases ps
  {
    if |ps| == 0 then 0 else IdCount(ps[0]) + IdCounts(ps[1..])
  }

  /** `values` with `captured` written from `slot` on. */
  function Written(values: seq<Option<Value>>, slot: nat, captured: seq<Value>): (r: seq<Option<Value>>)
    requires slot + |captured| <= |values|
    ensures |r| == |values|
    ensures forall i | 0 <= i < |values| ::
      r[i] == if slot <= i < slot + |captured| then Some(captured[i - slot]) else values[i]
  {
    values[..slot] + seq(|captured|, i requires 0 <= i < |captured| => Some(captured[i])) + values[slot + |captured|..]
  }

  /** Writing two runs one after the other is writing their concatenation. */
  lemma WrittenTwice(values: seq<Option<Value>>, slot: nat, c1: seq<Value>, c2: seq<Value>)
    requires slot + |c1| + |c2| <= |values|
    ensures Written(Written(values, slot, c1), slot + |c1|, c2) == Written(values, slot, c1 + c2)
  {
    var lhs, rhs := Written(Written(values, slot, c1), slot + |c1|, c2), Written(values, slot, c1 + c2);
    forall i | 0 <= i < |values| ensures lhs[i] == rhs[i] {
      if slot <= i < slot + |c1| {
        assert (c1 + c2)[i - slot] == c1[i - slot];
      } else if slot + |c1| <= i < slot + |c1| + |c2| {
        assert (c1 + c2)[i - slot] == c2[i - slot - |c1|];
      }
    }
  }

  /** Binding left state `st` as `o` exactly when it wrote the values `m` captured into
    * consecutive slots from `st.slot` on and gave `m`'s result. */
  ghost predicate Agrees(o: Outcome, m: Match, st: BindState)
  {
    && st.slot + |m.captured| <= |st.values|
    && o == Outcome(m.result, BindState(Written(st.values, st.slot, m.captured), st.slot + |m.captured|))
  }

  /** A step that captures nothing and leaves the state alone agrees with its match. */
  lemma AgreesUnchanged(r: Result<bool>, st: BindState)
    requires st.slot <= |st.values|
    ensures Agrees(Outcome(r, st), Match(r, []), st)
  {
    assert Written(st.values, st.slot, []) == st.values;
  }

  /** Two agreeing steps, the second starting where the first left off, agree with the
    * concatenation of their captures. */
  lemma AgreesThen(st: BindState, o0: Outcome, m0: Match, o1: Outcome, m1: Match)
    requires Agrees(o0, m0, st) && Agrees(o1, m1, o0.state)
    ensures Agrees(o1, Match(m1.result, m0.captured + m1.captured), st)
  {
    WrittenTwice(st.values, st.slot, m0.captured, m1.captured);
  }

  /**
   * The slot discipline: with room for every identifier of `p`, binding gives the same result
   * as matching without slots, writes exactly the captured values into consecutive slots from
   * `slot` on, leaves every other slot alone and advances `slot` past them. This holds when the
   * match fails too: the writes made before the failure stay.
   */
  lemma {:induction false} BindIsMatchWritten(p: Pat, v: Value, st: BindState)
    requires st.slot + IdCount(p) <= |st.values|
    ensures |MatchPat(p, v).captured| <= IdCount(p)
    ensures Agrees(Bind(p, v, st), MatchPat(p, v), st)
    decreases p, 1
  {
    match p
    case IdPat(_) =>
      assert Written(st.values, st.slot, [v]) == st.values[st.slot := Some(v)];
    case TuplePat(ps) =>
      if v.ListVal? { BindEachIsMatchWritten(ps, v.items, st); } else { AgreesUnchanged(Bind(p, v, st).result, st); }
    case RecordPat(ps) =>
      if v.ListVal? { BindEachIsMatchWritten(ps, v.items, st); } else { AgreesUnchanged(Bind(p, v, st).result, st); }
    case ListPat(ps) =>
      if v.ListVal? && |v.items| == |ps| { BindEachIsMatchWritten(ps, v.items, st); }
      else { AgreesUnchanged(Bind(p, v, st).result, st); }
    case ConsPat(p0, p1) =>
      if v.ListVal? && |v.items| > 0 { BindConsIsMatchWritten(p0, p1, v.items, st); }
      else { AgreesUnchanged(Bind(p, v, st).result, st); }
    case ConPat(tag, q) =>
      if v.ListVal? && |v.items| >= 2 && v.items[0] == StringVal(tag) {
        BindIsMatchWritten(q, v.items[1], st);
      } else {
        AgreesUnchanged(Bind(p, v, st).result, st);
      }
    case _ =>
      AgreesUnchanged(Bind(p, v, st).result, st);
  }

  /** `BindIsMatchWritten` for a cons pattern against a non-empty list. */
  lemma {:induction false} BindConsIsMatchWritten(p0: Pat, p1: Pat, items: seq<Value>, st: BindState)
    requires |items| > 0
    requires st.slot + IdCount(p0) + IdCount(p1) <= |st.values|
    ensures |MatchPat(ConsPat(p0, p1), ListVal(items)).captured| <= IdCount(p0) + IdCount(p1)
    ensures Agrees(Bind(ConsPat(p0, p1), ListVal(items), st), MatchPat(ConsPat(p0, p1), ListVal(items)), st)
    decreases ConsPat(p0, p1), 0
  {
    BindIsMatchWritten(p0, items[0], st);
    var o0, m0 := Bind(p0, items[0], st), MatchPat(p0, items[0]);
    if m0.result == Ok(true) {
      BindIsMatchWritten(p1, ListVal(items[1..]), o0.state);
      AgreesThen(st, o0, m0, Bind(p1, ListVal(items[1..]), o0.state), MatchPat(p1, ListVal(items[1..])));
    }
  }

  /** `BindIsMatchWritten` for the pairwise loop. */
  lemma {:induction false} BindEachIsMatchWritten(ps: seq<Pat>, vs: seq<Value>, st: BindState)
    requires st.slot + IdCounts(ps) <= |st.values|
    ensures |MatchEach(ps, vs).captured| <= IdCounts(ps)
    ensures Agrees(BindEach(ps, vs, st), MatchEach(ps, vs), st)
    decreases ps
  {
    if |ps| == 0 || |vs| == 0 {
      AgreesUnchanged(Ok(true), st);
    } else {
      BindIsMatchWritten(ps[0], vs[0], st);
      var o0, m0 := Bind(ps[0], vs[0], st), MatchPat(ps[0], vs[0]);
      if m0.result == Ok(true) {
        BindEachIsMatchWritten(ps[1..], vs[1..], o0.state);
        AgreesThen(st, o0, m0, BindEach(ps[1..], vs[1..], o0.state), MatchEach(ps[1..], vs[1..]));
      }
    }
  }

  /** Binding is not atomic: the tuple pattern (x, 1) against the value (5, 2) fails at the
    * second component, after 5 has already been written into slot 0. */
  lemma TupleBindIsNotAtomic()
    ensures Bind(TuplePat([IdPat("x"), IntLiteralPat(1)]), ListVal([IntVal(5), IntVal(2)]), BindState([None], 0))
         == Outcome(Ok(false), BindState([Some(IntVal(5))], 1))
  {
    var ps := [IdPat("x"), IntLiteralPat(1)];
    var vs := [IntVal(5), IntVal(2)];
    var st1 := BindState([Some(IntVal(5))], 1);
    assert Bind(ps[0], vs[0], BindState([None], 0)) == Outcome(Ok(true), st1);
    assert Wrap32(1) == 1;
    assert Bind(ps[1], vs[1], st1) == Outcome(Ok(false), st1);
    assert BindEach(ps[1..], vs[1..], st1) == Outcome(Ok(false), st1);
  }

  /** A tuple pattern is zipped with the value, so components beyond the shorter side are
    * ignored: (x) matches (5, 2), binding x to 5. */
  lemma TupleBindTruncates()
    ensures Bind(TuplePat([IdPat("x")]), ListVal([IntVal(5), IntVal(2)]), BindState([None], 0))
         == Outcome(Ok(true), BindState([Some(IntVal(5))], 1))
  {
    var vs := [IntVal(5), IntVal(2)];
    var st1 := BindState([Some(IntVal(5))], 1);
    assert Bind(IdPat("x"), vs[0], BindState([None], 0)) == Outcome(Ok(true), st1);
    assert BindEach([IdPat("x")][1..], vs[1..], st1) == Outcome(Ok(true), st1);
  }

  /** A list pattern demands the exact length; a cons pattern rejects the empty list. */
  lemma ListAndConsLengths(ps: seq<Pat>, items: seq<Value>, p0: Pat, p1: Pat, st: BindState)
    ensures |items| != |ps| ==> Bind(ListPat(ps), ListVal(items), st) == Outcome(Ok(false), st)
    ensures Bind(ConsPat(p0, p1), ListVal([]), st) == Outcome(Ok(false), st)
  {
  }

  /** An integer literal pattern compares the literal's low 32 bits with the Java int. */
  lemma IntLiteralWraps()
    ensures Bind(IntLiteralPat(0x1_0000_0005), IntVal(5), BindState([], 0)).result == Ok(true)
    ensures Bind(IntLiteralPat(5), IntVal(5), BindState([], 0)).result == Ok(true)
    ensures Bind(IntLiteralPat(6), IntVal(5), BindState([], 0)).result == Ok(false)
  {
    assert Wrap32(0x1_0000_0005) == 5;
    assert Wrap32(5) == 5;
    assert Wrap32(6) == 6;
  }

  // ---------------------------------------------------------------------------
  // The environments

  /** An evaluation environment: one of the four link kinds. */
  datatype EvalEnv =
    | Sub(sub: SubEvalEnv)
    | ArrayEnv(arr: MutableArraySubEvalEnv)
    | PatEnv(pat: MutablePatSubEvalEnv)
    | MapEnv(valueMap: map<string, Value>)

  /** How many links lie under `env`, counting itself. */
  ghost function Depth(env: EvalEnv): nat
  {
    match env
    case Sub(e) => e.depth
    case ArrayEnv(e) => e.depth
    case PatEnv(e) => e.depth
    case MapEnv(_) => 0
  }

  /** Every link sits above its parent: the chain ends in a map leaf. */
  ghost predicate Wf(env: EvalEnv)
    decreases Depth(env)
  {
    match env
    case Sub(e) => Depth(e.parentEnv) < e.depth && Wf(e.parentEnv)
    case ArrayEnv(e) => Depth(e.parentEnv) < e.depth && Wf(e.parentEnv)
    case PatEnv(e) => Depth(e.parentEnv) < e.depth && Wf(e.parentEnv)
    case MapEnv(_) => true
  }

  /** The mutable objects a lookup in `env` reads. */
  ghost function Footprint(env: EvalEnv): set<object>
    requires Wf(env)
    decreases Depth(env)
  {
    match env
    case Sub(e) => {e} + Footprint(e.parentEnv)
    case ArrayEnv(e) => {e} + Footprint(e.parentEnv)
    case PatEnv(e) => {e, e.values} + Footprint(e.parentEnv)
    case MapEnv(_) => {}
  }

  /** The first position of `name` in `names` (List.indexOf). */
  function IndexOf(names: seq<string>, name: string): (i: nat)
    requires name in names
    ensures i < |names| && names[i] == name && forall j | 0 <= j < i :: names[j] != name
  {
    if names[0] == name then 0 else 1 + IndexOf(names[1..], name)
  }

  /**
   * getOpt: the value of the nearest link that binds `name`; None stands for Java's null,
   * both for an unbound name and for a settable link not yet set. An array-backed link whose
   * array was never set throws when it binds the name.
   */
  ghost function Lookup(env: EvalEnv, name: string): Result<Option<Value>>
    requires Wf(env)
    reads Footprint(env)
    decreases Depth(env)
  {
    match env
    case Sub(e) => if name == e.name then Ok(e.value) else Lookup(e.parentEnv, name)
    case ArrayEnv(e) =>
      if name in e.names then
        match e.values
        case None => Err("NullPointerException")
        case Some(vs) =>
          var i := IndexOf(e.names, name);
          if i < |vs| then Ok(vs[i]) else Err("ArrayIndexOutOfBoundsException")
      else Lookup(e.parentEnv, name)
    case PatEnv(e) =>
      if name in e.names then
        var i := IndexOf(e.names, name);
        if i < e.values.Length then Ok(e.values[i]) else Err("ArrayIndexOutOfBoundsException")
      else Lookup(e.parentEnv, name)
    case MapEnv(m) => Ok(if name in m then Some(m[name]) else None)
  }

  /** EvalEnvs.copyOf: a map leaf; names it does not hold are unbound. */
  function CopyOf(valueMap: map<string, Value>): (env: EvalEnv)
    ensures Wf(env) && Footprint(env) == {}
    ensures forall n :: Lookup(env, n) == Ok(if n in valueMap then Some(valueMap[n]) else None)
  {
    MapEnv(valueMap)
  }

  /** The parent of a link. */
  function Parent(env: EvalEnv): EvalEnv
    requires !env.MapEnv?
  {
    match env
    case Sub(e) => e.parentEnv
    case ArrayEnv(e) => e.parentEnv
    case PatEnv(e) => e.parentEnv
  }

  /** Whether the link at the head of `env` binds `name` itself. */
  predicate BindsHere(env: EvalEnv, name: string)
  {
    match env
    case Sub(e) => name == e.name
    case ArrayEnv(e) => name in e.names
    case PatEnv(e) => name in e.names
    case MapEnv(_) => true
  }

  /**
   * getOpt, followed link by link as the overriding methods hand the name to their parents:
   * a SubEvalEnv compares its name, an array-backed link searches its names, a map leaf ends
   * the walk.
   */
  method GetOpt(env: EvalEnv, name: string) returns (r: Result<Option<Value>>)
    requires Wf(env)
    ensures r == Lookup(env, name)
  {
    var cur := env;
    while !BindsHere(cur, name)
      invariant Wf(cur) && Lookup(env, name) == Lookup(cur, name)
      decreases Depth(cur)
    {
      cur := Parent(cur);
    }
    match cur
    case Sub(e) => r := Ok(e.value);
    case ArrayEnv(e) =>
      var i := IndexOf(e.names, name);
      match e.values {
        case None => r := Err("NullPointerException");
        case Some(vs) => r := if i < |vs| then Ok(vs[i]) else Err("ArrayIndexOutOfBoundsException");
      }
    case PatEnv(e) =>
      var i := IndexOf(e.names, name);
      r := if i < e.values.Length then Ok(e.values[i]) else Err("ArrayIndexOutOfBoundsException");
    case MapEnv(m) => r := Ok(if name in m then Some(m[name]) else None);
  }

  /** SubEvalEnv, and MutableSubEvalEnv when `mutable`: one name over a parent. */
  class SubEvalEnv {
    const parentEnv: EvalEnv
    const name: string
    const mutable: bool
    var value: Option<Value>
    ghost const depth: nat

    /** new SubEvalEnv(parent, name, value). */
    constructor (parentEnv: EvalEnv, name: string, value: Value)
      requires Wf(parentEnv)
      ensures Wf(Sub(this)) && Footprint(Sub(this)) == {this} + Footprint(parentEnv)
      ensures this.parentEnv == parentEnv && this.name == name && this.value == Some(value) && !mutable
    {
      this.parentEnv := parentEnv;
      this.name := name;
      this.value := Some(value);
      this.mutable := false;
      this.depth := Depth(parentEnv) + 1;
    }

    /** new MutableSubEvalEnv(parent, name): the value starts as null. */
    constructor Mutable(parentEnv: EvalEnv, name: string)
      requires Wf(parentEnv)
      ensures Wf(Sub(this)) && Footprint(Sub(this)) == {this} + Footprint(parentEnv)
      ensures this.parentEnv == parentEnv && this.name == name && value == None && mutable
    {
      this.parentEnv := parentEnv;
      this.name := name;
      this.value := None;
      this.mutable := true;
      this.depth := Depth(parentEnv) + 1;
    }

    /** MutableSubEvalEnv.set: replaces this link's value and nothing else. */
    method Set(v: Value)
      requires mutable
      modifies this
      ensures value == Some(v)
    {
      value := Some(v);
    }
  }

  /** MutableArraySubEvalEnv: several names over a parent, their values set as one array. */
  class MutableArraySubEvalEnv {
    const parentEnv: EvalEnv
    const names: seq<string>
    var values: Option<seq<Option<Value>>>
    ghost const depth: nat

    /** new MutableArraySubEvalEnv(parent, names): no values yet. */
    constructor (parentEnv: EvalEnv, names: seq<string>)
      requires Wf(parentEnv)
      ensures Wf(ArrayEnv(this)) && Footprint(ArrayEnv(this)) == {this} + Footprint(parentEnv)
      ensures this.parentEnv == parentEnv && this.names == names && values == None
    {
      this.parentEnv := parentEnv;
      this.names := names;
      this.values := None;
      this.depth := Depth(parentEnv) + 1;
    }

    /** set(value): takes the array of values, which must have one value per name. */
    method Set(newValues: seq<Option<Value>>)
      requires |newValues| == |names|
      modifies this
      ensures values == Some(newValues)
    {
      values := Some(newValues);
    }
  }

  /** MutablePatSubEvalEnv: the names of a pattern over a parent, filled by matching a value. */
  class MutablePatSubEvalEnv {
    const parentEnv: EvalEnv
    const names: seq<string>
    const pat: Pat
    const values: array<Option<Value>>
    var slot: nat
    ghost const depth: nat

    /** The binder's view of this link. */
    ghost function State(): BindState
      reads this, values
    {
      BindState(values[..], slot)
    }

    /** new MutablePatSubEvalEnv(parent, pat, names): one empty slot per name; the pattern is
      * not a bare identifier. */
    constructor (parentEnv: EvalEnv, pat: Pat, names: seq<string>)
      requires Wf(parentEnv)
      requires !pat.IdPat?
      ensures Wf(PatEnv(this)) && Footprint(PatEnv(this)) == {this, values} + Footprint(parentEnv)
      ensures this.parentEnv == parentEnv && this.names == names && this.pat == pat
      ensures fresh(values) && values[..] == seq(|names|, _ => None) && slot == 0
    {
      this.parentEnv := parentEnv;
      this.names := names;
      this.pat := pat;
      this.values := new Option<Value>[|names|](_ => None);
      this.slot := 0;
      this.depth := Depth(parentEnv) + 1;
    }

    /** setOpt(value): restarts at slot 0 and binds the whole pattern. */
    method SetOpt(v: Value) returns (r: Result<bool>)
      modifies this, values
      ensures Outcome(r, State()) == Bind(pat, v, BindState(old(values[..]), 0))
    {
      slot := 0;
      r := BindRecurse(pat, v);
    }

    /** set(value): setOpt, throwing "bind failed" exactly when setOpt returns false. */
    method Set(v: Value) returns (r: Result<()>)
      modifies this, values
      ensures var b := Bind(pat, v, BindState(old(values[..]), 0));
        && State() == b.state
        && (r.Ok? <==> b.result == Ok(true))
        && (b.result == Ok(false) ==> r == Err("bind failed"))
        && (b.result.Err? ==> r == Err(b.result.message))
    {
      var ok := SetOpt(v);
      match ok
      case Ok(true) => r := Ok(());
      case Ok(false) => r := Err("bind failed");
      case Err(message) => r := Err(message);
    }

    /** bindRecurse(pat, value), writing into `values` through `slot`. */
    method BindRecurse(p: Pat, v: Value) returns (r: Result<bool>)
      modifies this, values
      ensures Outcome(r, State()) == Bind(p, v, old(State()))
      decreases p, 1
    {
      match p
      case IdPat(_) =>
        if slot < values.Length {
          values[slot] := Some(v);
          slot := slot + 1;
          return Ok(true);
        }
        slot := slot + 1;
        return Err("ArrayIndexOutOfBoundsException");
      case WildcardPat => return Ok(true);
      case BoolLiteralPat(b) => return Ok(v == BoolVal(b));
      case CharLiteralPat(c) => return Ok(v == CharVal(c));
      case StringLiteralPat(s) => return Ok(v == StringVal(s));
      case IntLiteralPat(n) =>
        if !v.IntVal? {
          return Err("ClassCastException");
        }
        return Ok(Wrap32(n) == v.i);
      case TuplePat(ps) =>
        if !v.ListVal? {
          return Err("ClassCastException");
        }
        r := BindZip(ps, v.items);
      case RecordPat(ps) =>
        if !v.ListVal? {
          return Err("ClassCastException");
        }
        r := BindZip(ps, v.items);
      case ListPat(ps) =>
        if !v.ListVal? {
          return Err("ClassCastException");
        }
        if |v.items| != |ps| {
          return Ok(false);
        }
        r := BindZip(ps, v.items);
      case ConsPat(p0, p1) =>
        if !v.ListVal? {
          return Err("ClassCastException");
        }
        if |v.items| == 0 {
          return Ok(false);
        }
        r := BindRecurse(p0, v.items[0]);
        if r == Ok(true) {
          r := BindRecurse(p1, ListVal(v.items[1..]));
        }
      case Con0Pat(tag) =>
        if !v.ListVal? {
          return Err("ClassCastException");
        }
        if |v.items| == 0 {
          return Err("IndexOutOfBoundsException");
        }
        return Ok(v.items[0] == StringVal(tag));
      case ConPat(tag, q) =>
        if !v.ListVal? {
          return Err("ClassCastException");
        }
        if |v.items| == 0 {
          return Err("IndexOutOfBoundsException");
        }
        if v.items[0] != StringVal(tag) {
          return Ok(false);
        }
        if |v.items| < 2 {
          return Err("IndexOutOfBoundsException");
        }
        r := BindRecurse(q, v.items[1]);
      case OtherPat(op) => return Err("cannot compile " + op);
    }

    /** The loop over Pair.zip(patterns, values) in bindRecurse. */
    method BindZip(ps: seq<Pat>, vs: seq<Value>) returns (r: Result<bool>)
      modifies this, values
      ensures Outcome(r, State()) == BindEach(ps, vs, old(State()))
      decreases ps, 0
    {
      var i := 0;
      while i < |ps| && i < |vs|
        invariant 0 <= i <= |ps| && i <= |vs|
        invariant BindEach(ps, vs, old(State())) == BindEach(ps[i..], vs[i..], State())
        decreases |ps| - i
      {
        assert ps[i..][1..] == ps[i + 1..] && vs[i..][1..] == vs[i + 1..];
        r := BindRecurse(ps[i], vs[i]);
        if r != Ok(true) {
          return;
        }
        i := i + 1;
      }
      return Ok(true);
    }
  }
}
