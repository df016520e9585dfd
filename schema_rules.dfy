/*
 * The rules of a config schema (`ConfigSchemaRule`): how a schema directive
 * becomes a rule, and the four checks a rule makes of every directive with
 * its name, namely where it may appear, its arguments and their typed
 * values, how often it may repeat among its siblings and which sibling
 * directives it precludes. `ApplySchema` runs the rules over a config tree
 * in preorder and stops at the first failure.
 */
module SchemaRules {
  import opened Common
  import opened ConfigLexer
  import opened ConfigTree
  import opened ConfigSchema

  // ---------------------------------------------------------------------
  // Parameter order
  // ---------------------------------------------------------------------

  /**
   * The order class of a parameter as the constructor's check reads it:
   * required, then `optional` (checked before `vararg`, so `[x]...` counts
   * as optional), then vararg.
   */
  function RankAsWritten(p: Param): (k: nat)
    ensures k <= 2
  {
    if p.Required() then 0 else if p.optional then 1 else 2
  }

  /** The order class the check evidently means: any vararg, optional or not, is a vararg. */
  function Rank(p: Param): (k: nat)
    ensures k <= 2
  {
    if p.vararg then 2 else if p.optional then 1 else 0
  }

  function Ranks(ps: seq<Param>, rank: Param -> nat): (ks: seq<nat>)
    ensures |ks| == |ps|
    ensures forall i :: 0 <= i < |ps| ==> ks[i] == rank(ps[i])
  {
    if ps == [] then [] else [rank(ps[0])] + Ranks(ps[1..], rank)
  }

  predicate AtMostTwo(ks: seq<nat>)
  {
    forall i :: 0 <= i < |ks| ==> ks[i] <= 2
  }

  /**
   * The `reduce` over the parameters: `memo` is the class of the previous
   * parameter (0 before the first); the first parameter out of order names
   * the error.
   */
  function OrderErrorFrom(ks: seq<nat>, memo: nat): (r: Option<string>)
    ensures r.None? || r.value in OrderMessages
    ensures memo <= 1 && |ks| <= 1 && (ks == [] || ks[0] >= memo) ==> r.None?
  {
    if ks == [] then None
    else if ks[0] == 0 && memo > 0 then Some(RequiredAfterMessage)
    else if ks[0] == 1 && memo > 1 then Some(OptionalAfterMessage)
    else if ks[0] >= 2 && memo == 2 then Some(OneVarargMessage)
    else OrderErrorFrom(ks[1..], ks[0])
  }

  const RequiredAfterMessage := "Required parameter defined after non-required"
  const OptionalAfterMessage := "Optional parameter defined after vararg"
  const OneVarargMessage := "Only one vararg can be defined per directive"
  const OrderMessages := {RequiredAfterMessage, OptionalAfterMessage, OneVarargMessage}

  /** Classes never decrease, and no two parameters are both of class 2. */
  predicate WellOrdered(ks: seq<nat>)
  {
    forall i, j :: 0 <= i < j < |ks| ==> ks[i] <= ks[j] && (ks[i] < 2 || ks[j] < 2)
  }

  /** The order check passes exactly when the classes, after the `memo` in front, are well ordered. */
  lemma {:induction false} OrderErrorWellOrdered(ks: seq<nat>, memo: nat)
    requires AtMostTwo(ks) && memo <= 2
    ensures OrderErrorFrom(ks, memo).None? <==> WellOrdered([memo] + ks)
  {
    if ks != [] {
      var all := [memo] + ks;
      OrderErrorWellOrdered(ks[1..], ks[0]);
      assert [ks[0]] + ks[1..] == ks;
      assert all[1..] == ks;
      if OrderErrorFrom(ks, memo).None? {
        assert memo <= ks[0] && memo < 2;
        forall i, j | 0 <= i < j < |all|
          ensures all[i] <= all[j] && (all[i] < 2 || all[j] < 2)
        {
          if i > 0 {
            assert all[i] == ks[i - 1] && all[j] == ks[j - 1];
          } else if j > 1 {
            assert all[1] == ks[0] && all[j] == ks[j - 1];
          }
        }
      } else {
        WellOrderedTail(memo, ks);
      }
    }
  }

  /** A well-ordered list starting with `memo` orders `memo` before the rest, and orders the rest. */
  lemma WellOrderedTail(memo: nat, ks: seq<nat>)
    requires ks != []
    ensures WellOrdered([memo] + ks) ==> WellOrdered(ks) && memo <= ks[0] && (memo < 2 || ks[0] < 2)
  {
    var all := [memo] + ks;
    if WellOrdered(all) {
      assert all[0] == memo && all[1] == ks[0];
      forall i, j | 0 <= i < j < |ks|
        ensures PairOrdered(ks[i], ks[j])
      {
        assert all[i + 1] == ks[i] && all[j + 1] == ks[j];
      }
    }
  }

  predicate PairOrdered(a: nat, b: nat)
  {
    a <= b && (a < 2 || b < 2)
  }

  /** The parameters' order check, as the constructor makes it (`asWritten`) or with every vararg ranked last. */
  function OrderError(ps: seq<Param>, asWritten: bool): (r: Option<string>)
    ensures r.None? || r.value in OrderMessages
    ensures |ps| <= 1 ==> r.None?
  {
    OrderErrorFrom(Ranks(ps, if asWritten then RankAsWritten else Rank), 0)
  }

  /** A class 0 in front changes nothing: it precedes every class and is not 2. */
  lemma ZeroInFront(ks: seq<nat>)
    ensures WellOrdered([0] + ks) <==> WellOrdered(ks)
  {
    var all := [0] + ks;
    if WellOrdered(ks) {
      forall i, j | 0 < i < j < |all|
        ensures all[i] <= all[j] && (all[i] < 2 || all[j] < 2)
      {
        assert all[i] == ks[i - 1] && all[j] == ks[j - 1];
      }
    }
    if WellOrdered(all) {
      forall i, j | 0 <= i < j < |ks|
        ensures PairOrdered(ks[i], ks[j])
      {
        assert all[i + 1] == ks[i] && all[j + 1] == ks[j];
      }
    }
  }

  /** The intended check passes exactly when the parameters' classes are well ordered. */
  lemma OrderErrorIff(ps: seq<Param>)
    ensures OrderError(ps, false).None? <==> WellOrdered(Ranks(ps, Rank))
  {
    var ks := Ranks(ps, Rank);
    OrderErrorWellOrdered(ks, 0);
    ZeroInFront(ks);
  }

  /** Under the intended order, a vararg can only be the last parameter. */
  lemma VarargLast(ps: seq<Param>, v: nat)
    requires WellOrdered(Ranks(ps, Rank))
    requires v < |ps| && ps[v].vararg
    ensures v == |ps| - 1
  {
    var ks := Ranks(ps, Rank);
    WellOrderedLast(ks, v);
    assert ks[v] == 2;
  }

  lemma WellOrderedLast(ks: seq<nat>, v: nat)
    requires WellOrdered(ks) && v < |ks|
    ensures v < |ks| - 1 ==> ks[v] <= ks[|ks| - 1] && (ks[v] < 2 || ks[|ks| - 1] < 2)
  {
  }

  /**
   * Two optional varargs, `[a]...` and `[b]...`, pass the check as
   * written, although only the first of them can ever receive arguments;
   * the intended check rejects them.
   */
  lemma TwoOptionalVarargs(a: Param, b: Param)
    requires a.optional && a.vararg && b.optional && b.vararg
    ensures OrderError([a, b], true) == None
    ensures OrderError([a, b], false) == Some("Only one vararg can be defined per directive")
  {
    var written := Ranks([a, b], RankAsWritten);
    var intended := Ranks([a, b], Rank);
    assert written == [1, 1] && written[1..] == [1];
    assert OrderErrorFrom(written, 0) == OrderErrorFrom([1], 1) == OrderErrorFrom([], 1);
    assert intended == [2, 2] && intended[1..] == [2];
    assert OrderErrorFrom(intended, 0) == OrderErrorFrom([2], 2);
  }

  // ---------------------------------------------------------------------
  // Rules
  // ---------------------------------------------------------------------

  /** `maxcount`: absent (`Infinity`), a number, or a value `Number()` reads as `NaN`. */
  datatype Limit = Unlimited | AtMost(n: int) | NotANumber

  /** The largest argument count a rule allows; a vararg makes it `Infinity`. */
  datatype Bound = Finite(n: nat) | Infinite

  datatype Rule = Rule(name: string, at: seq<Option<string>>, precludes: seq<string>, maxcount: Limit,
                       params: seq<Param>)

  /**
   * The number `maxcount` compares as: the empty string is 0, decimal
   * digits with an optional `-` their value, and everything else `NaN`.
   */
  function LimitOf(value: Option<string>): (l: Limit)
    ensures value.None? ==> l == Unlimited
    ensures value == Some("") ==> l == AtMost(0)
    ensures value.Some? && AllDigits(value.value) && value.value != "" ==> l == AtMost(DecimalValue(value.value))
  {
    if value.None? then Unlimited
    else
      var s := value.value;
      if s == "" then AtMost(0)
      else if AllDigits(s) then AtMost(DecimalValue(s))
      else if |s| > 1 && s[0] == '-' && AllDigits(s[1..]) then AtMost(0 - DecimalValue(s[1..]))
      else NotANumber
  }

  function CountRequired(ps: seq<Param>): (n: nat)
    ensures n <= |ps|
  {
    if ps == [] then 0 else (if ps[0].Required() then 1 else 0) + CountRequired(ps[1..])
  }

  predicate HasVararg(ps: seq<Param>)
  {
    exists i :: 0 <= i < |ps| && ps[i].vararg
  }

  function MinParams(ps: seq<Param>): nat
  {
    CountRequired(ps)
  }

  function MaxParams(ps: seq<Param>): (b: Bound)
    ensures b.Finite? ==> b.n == |ps|
    ensures b.Infinite? <==> FirstVararg(ps) < |ps|
  {
    HasVarargFirst(ps);
    if HasVararg(ps) then Infinite else Finite(|ps|)
  }

  predicate DistinctNames(ps: seq<Param>)
  {
    forall i, j :: 0 <= i < j < |ps| ==> ps[i].name != ps[j].name
  }

  /** The parameters the `param` children define, in order, or the first child's error. */
  function MakeParams(nodes: seq<Node>): (r: Result<seq<Param>>)
    requires forall i :: 0 <= i < |nodes| ==> nodes[i].name == Some("param")
    ensures r.Ok? ==> |r.value| == |nodes|
  {
    if nodes == [] then Ok([])
    else
      var p := MakeParam(nodes[0]);
      if p.Err? then Err(p.error)
      else
        var rest := MakeParams(nodes[1..]);
        if rest.Err? then Err(rest.error) else Ok([p.value] + rest.value)
  }

  /** Child `i` is the first `param` child whose parameter cannot be made, and it fails with `e`. */
  predicate FirstFailure(nodes: seq<Node>, i: int, e: string)
  {
    0 <= i < |nodes| && (forall j :: 0 <= j <= i ==> nodes[j].name == Some("param"))
    && MakeParam(nodes[i]) == Err(e) && forall j :: 0 <= j < i ==> MakeParam(nodes[j]).Ok?
  }

  /** Each parameter is what its own `param` child defines; an error is the first failing child's error. */
  lemma {:induction false} MakeParamsEach(nodes: seq<Node>)
    requires forall i :: 0 <= i < |nodes| ==> nodes[i].name == Some("param")
    ensures MakeParams(nodes).Ok? ==> forall i :: 0 <= i < |nodes| ==> MakeParam(nodes[i]) == Ok(MakeParams(nodes).value[i])
    ensures MakeParams(nodes).Err? ==> exists i :: FirstFailure(nodes, i, MakeParams(nodes).error)
  {
    if nodes != [] && MakeParam(nodes[0]).Err? {
      assert FirstFailure(nodes, 0, MakeParams(nodes).error);
    } else if nodes != [] {
      var tail := nodes[1..];
      MakeParamsEach(tail);
      var rest := MakeParams(tail);
      if rest.Err? {
        var k :| FirstFailure(tail, k, rest.error);
        forall j | 1 <= j <= k ensures MakeParam(nodes[j]).Ok? {
          assert nodes[j] == tail[j - 1];
        }
        assert tail[k] == nodes[k + 1];
        assert FirstFailure(nodes, k + 1, MakeParams(nodes).error);
      } else {
        var ps := MakeParams(nodes).value;
        assert ps == [MakeParam(nodes[0]).value] + rest.value;
        forall i | 1 <= i < |nodes| ensures MakeParam(nodes[i]) == Ok(ps[i]) {
          assert nodes[i] == tail[i - 1] && ps[i] == rest.value[i - 1];
        }
      }
    }
  }

  function ParamNodes(node: Node): (ns: seq<Node>)
    ensures forall i :: 0 <= i < |ns| ==> ns[i].name == Some("param")
    ensures forall x :: x in ns <==> x in node.children && x.name == Some("param")
  {
    Filter(node.children, MakePredicate(Named("param")).value)
  }

  /**
   * The rule a schema directive defines. `schemaRoot` is the directive's
   * parent, where `maxcount` is inherited from. The order check is the
   * intended one (see `OrderError`).
   */
  function MakeRule(node: Node, schemaRoot: Node): (r: Result<Rule>)
    ensures GetOne([node], Named("at"), false).value.None? ==>
      r == Err(ThrowFor(node.position, "Bad schema: Missing \"at\" directive"))
    ensures r.Ok? ==> (r.value.name == NameText(node.name)
      && GetOne([node], Named("at"), false).value.Some?
      && |r.value.at| == |GetOne([node], Named("at"), false).value.value.args|
      && (forall i :: 0 <= i < |r.value.at| ==>
            (r.value.at[i].None? <==> GetOne([node], Named("at"), false).value.value.args[i] == "$")))
    ensures r.Ok? ==> r.value.maxcount == LimitOf(GetValue([node, schemaRoot], Named("maxcount"), true).value)
    ensures r.Ok? ==> (MakeParams(ParamNodes(node)) == Ok(r.value.params)
      && DistinctNames(r.value.params) && WellOrdered(Ranks(r.value.params, Rank)))
  {
    var at := GetOne([node], Named("at"), false).value;
    if at.None? then Err(ThrowFor(node.position, "Bad schema: Missing \"at\" directive"))
    else
      var places := seq(|at.value.args|, i requires 0 <= i < |at.value.args| =>
                          if at.value.args[i] == "$" then None else Some(at.value.args[i]));
      var precluded := GetOne([node], Named("precludes"), false).value;
      var maxcount := LimitOf(GetValue([node, schemaRoot], Named("maxcount"), true).value);
      var params := MakeParams(ParamNodes(node));
      if params.Err? then Err(params.error)
      else if !DistinctNames(params.value) then Err(ThrowFor(node.position, "Not all param names were unique"))
      else
        var order := OrderError(params.value, false);
        if order.Some? then Err(ThrowFor(node.position, order.value))
        else
          OrderErrorIff(params.value);
          Ok(Rule(NameText(node.name), places, if precluded.Some? then precluded.value.args else [], maxcount,
                  params.value))
  }

  // ---------------------------------------------------------------------
  // Arguments and typed values (`$validateAndTransformArgs`)
  // ---------------------------------------------------------------------

  function Expected(min: nat, max: Bound): string
  {
    if max == Finite(min) then NatToDecimal(min)
    else NatToDecimal(min) + " to " + (if max.Infinite? then "Infinity" else NatToDecimal(max.n))
  }

  predicate CountFits(argc: nat, min: nat, max: Bound)
  {
    min <= argc && (max.Infinite? || argc <= max.n)
  }

  /** The error for an argument count outside `[min, max]`, with the directive's position. */
  function ArgCountError(node: Node, ps: seq<Param>): (r: Option<string>)
    ensures r.None? <==> CountFits(|node.args|, MinParams(ps), MaxParams(ps))
    ensures r.Some? ==> r.value == ThrowFor(node.position,
      "\"" + NameText(node.name) + "\" directive had too " + (if |node.args| < MinParams(ps) then "few" else "many")
      + " arguments; expected " + Expected(MinParams(ps), MaxParams(ps)) + ", found " + NatToDecimal(|node.args|))
  {
    var argc := |node.args|;
    var min := MinParams(ps);
    var max := MaxParams(ps);
    if argc < min || (max.Finite? && argc > max.n) then
      Some(ThrowFor(node.position, "\"" + NameText(node.name) + "\" directive had too " + (if argc < min then "few" else "many")
        + " arguments; expected " + Expected(min, max) + ", found " + NatToDecimal(argc)))
    else None
  }

  /** `paramsLeft[0]` exists at each of the next `argc` arguments: the list holds a vararg or is long enough. */
  predicate Covers(left: seq<Param>, argc: nat)
  {
    FirstVararg(left) < |left| || argc <= |left|
  }

  lemma {:induction false} HasVarargFirst(ps: seq<Param>)
    ensures HasVararg(ps) <==> FirstVararg(ps) < |ps|
  {
    if ps != [] && !ps[0].vararg {
      HasVarargFirst(ps[1..]);
      if HasVararg(ps) {
        var i :| 0 <= i < |ps| && ps[i].vararg;
        assert ps[1..][i - 1].vararg;
      }
    }
  }

  /**
   * A parameter's `convert`: the conversion its type names. Binding takes
   * it as a parameter; a rule binds with `Convert`.
   */
  type Converter = (ParamType, string) -> Result<Value>

  /** The list a vararg has collected so far. */
  function Items(acc: map<string, Value>, name: string): seq<Value>
  {
    if name in acc && acc[name].ListV? then acc[name].items else []
  }

  /**
   * The `_.each` over the arguments: each argument is converted by the
   * first parameter left; a parameter that is not a vararg is then shifted
   * off, a vararg stays and collects the value in its list. The first
   * failed conversion is the error, without a position. The result is the
   * parameters left and the typed values.
   */
  function BindFrom(left: seq<Param>, args: seq<string>, acc: map<string, Value>, conv: Converter): (r: Result<(seq<Param>, map<string, Value>)>)
    requires Covers(left, |args|)
  {
    if args == [] then Ok((left, acc))
    else
      var p := left[0];
      var v := conv(p.ptype, args[0]);
      if v.Err? then Err(v.error)
      else if !p.vararg then BindFrom(left[1..], args[1..], acc[p.name := v.value], conv)
      else BindFrom(left, args[1..], acc[p.name := ListV(Items(acc, p.name) + [v.value])], conv)
  }

  /** Index of the first vararg, or the number of parameters. */
  function FirstVararg(ps: seq<Param>): (v: nat)
    ensures v <= |ps| && (v < |ps| ==> ps[v].vararg)
    ensures forall i :: 0 <= i < v ==> !ps[i].vararg
  {
    if ps == [] then 0 else if ps[0].vararg then 0 else 1 + FirstVararg(ps[1..])
  }

  /** The parameter the `k`-th argument is bound to: its own, or the vararg once reached. */
  function Slot(ps: seq<Param>, k: nat): nat
  {
    if k < FirstVararg(ps) then k else FirstVararg(ps)
  }

  /** Converting a run of arguments of one type, stopping at the first error. */
  function ConvertAll(t: ParamType, args: seq<string>, conv: Converter): (r: Result<seq<Value>>)
    ensures r.Ok? <==> forall k :: 0 <= k < |args| ==> conv(t, args[k]).Ok?
    ensures r.Ok? ==> |r.value| == |args| && forall k :: 0 <= k < |args| ==> r.value[k] == conv(t, args[k]).value
  {
    if args == [] then Ok([])
    else
      var v := conv(t, args[0]);
      if v.Err? then Err(v.error)
      else
        var rest := ConvertAll(t, args[1..], conv);
        if rest.Err? then Err(rest.error) else Ok([v.value] + rest.value)
  }

  /** Once the vararg is first, it takes every remaining argument into its list. */
  lemma {:induction false} VarargTakesRest(left: seq<Param>, args: seq<string>, acc: map<string, Value>, conv: Converter)
    requires left != [] && left[0].vararg
    ensures ConvertAll(left[0].ptype, args, conv).Err? ==> BindFrom(left, args, acc, conv).Err?
    ensures ConvertAll(left[0].ptype, args, conv).Ok? ==> (BindFrom(left, args, acc, conv) ==
      Ok((left, if args == [] then acc else acc[left[0].name := ListV(Items(acc, left[0].name) + ConvertAll(left[0].ptype, args, conv).value)])))
  {
    if args != [] {
      var p := left[0];
      var v := conv(p.ptype, args[0]);
      if v.Ok? {
        var acc' := acc[p.name := ListV(Items(acc, p.name) + [v.value])];
        assert BindFrom(left, args, acc, conv) == BindFrom(left, args[1..], acc', conv);
        VarargTakesRest(left, args[1..], acc', conv);
        var rest := ConvertAll(p.ptype, args[1..], conv);
        if rest.Ok? {
          assert ConvertAll(p.ptype, args, conv) == Ok([v.value] + rest.value);
          if args[1..] == [] {
            assert [v.value] + rest.value == [v.value];
          } else {
            ItemsExtend(acc, p.name, v.value, rest.value);
          }
        } else {
          assert ConvertAll(p.ptype, args, conv).Err?;
        }
      }
    }
  }

  /** Adding one item to a list value, then a run of items, adds the whole run at once. */
  lemma ItemsExtend(acc: map<string, Value>, name: string, x: Value, rest: seq<Value>)
    ensures var acc' := acc[name := ListV(Items(acc, name) + [x])];
            acc'[name := ListV(Items(acc', name) + rest)] == acc[name := ListV(Items(acc, name) + ([x] + rest))]
  {
    var acc' := acc[name := ListV(Items(acc, name) + [x])];
    assert Items(acc', name) == Items(acc, name) + [x];
    assert Items(acc', name) + rest == Items(acc, name) + ([x] + rest);
  }

  function NamesOf(ps: seq<Param>): set<string>
  {
    set i | 0 <= i < |ps| :: ps[i].name
  }

  /** How many parameters the arguments reach: up to and including the vararg, or one per argument. */
  function Reached(left: seq<Param>, argc: nat): nat
  {
    if FirstVararg(left) < argc then FirstVararg(left) + 1 else argc
  }

  /** Every argument converts under the parameter it is bound to. */
  predicate AllConvert(left: seq<Param>, args: seq<string>, conv: Converter)
    requires Covers(left, |args|)
  {
    forall k :: 0 <= k < |args| ==> conv(left[Slot(left, k)].ptype, args[k]).Ok?
  }

  lemma SlotShift(left: seq<Param>, k: nat)
    requires left != [] && !left[0].vararg && k >= 1
    ensures FirstVararg(left) == 1 + FirstVararg(left[1..])
    ensures Slot(left, k) == 1 + Slot(left[1..], k - 1)
    ensures Slot(left, 0) == 0
  {
  }

  lemma AllConvertShift(left: seq<Param>, args: seq<string>, conv: Converter)
    requires left != [] && !left[0].vararg && args != [] && Covers(left, |args|)
    ensures AllConvert(left, args, conv) <==> conv(left[0].ptype, args[0]).Ok? && AllConvert(left[1..], args[1..], conv)
  {
    forall k | 1 <= k < |args|
      ensures left[Slot(left, k)] == left[1..][Slot(left[1..], k - 1)] && args[k] == args[1..][k - 1]
    {
      SlotShift(left, k);
    }
    SlotShift(left, 1);
    if AllConvert(left[1..], args[1..], conv) && conv(left[0].ptype, args[0]).Ok? {
      forall k | 0 <= k < |args|
        ensures conv(left[Slot(left, k)].ptype, args[k]).Ok?
      {
        if k >= 1 {
          assert conv(left[1..][Slot(left[1..], k - 1)].ptype, args[1..][k - 1]).Ok?;
        }
      }
    }
    if AllConvert(left, args, conv) {
      forall k | 0 <= k < |args[1..]|
        ensures conv(left[1..][Slot(left[1..], k)].ptype, args[1..][k]).Ok?
      {
        assert conv(left[Slot(left, k + 1)].ptype, args[k + 1]).Ok?;
      }
    }
  }

  /** How many parameters the arguments shift off: those before the vararg, one per argument. */
  function Shifted(left: seq<Param>, argc: nat): nat
  {
    if FirstVararg(left) < argc then FirstVararg(left) else argc
  }

  /** Binding succeeds exactly when every argument converts under the parameter it is bound to. */
  lemma {:induction false} BindOk(left: seq<Param>, args: seq<string>, acc: map<string, Value>, conv: Converter)
    requires Covers(left, |args|)
    ensures BindFrom(left, args, acc, conv).Ok? <==> AllConvert(left, args, conv)
  {
    if args != [] {
      if left[0].vararg {
        VarargTakesRest(left, args, acc, conv);
      } else {
        AllConvertShift(left, args, conv);
        var v := conv(left[0].ptype, args[0]);
        if v.Ok? {
          BindOk(left[1..], args[1..], acc[left[0].name := v.value], conv);
        }
      }
    }
  }

  /** The parameters left after binding: all but those shifted off, so a reached vararg stays. */
  lemma {:induction false} BindLeft(left: seq<Param>, args: seq<string>, acc: map<string, Value>, conv: Converter)
    requires Covers(left, |args|)
    ensures BindFrom(left, args, acc, conv).Ok? ==> BindFrom(left, args, acc, conv).value.0 == left[Shifted(left, |args|)..]
  {
    if args != [] {
      if left[0].vararg {
        VarargTakesRest(left, args, acc, conv);
      } else {
        var v := conv(left[0].ptype, args[0]);
        if v.Ok? {
          BindLeft(left[1..], args[1..], acc[left[0].name := v.value], conv);
          assert left[1..][Shifted(left[1..], |args| - 1)..] == left[Shifted(left, |args|)..];
        }
      }
    }
  }

  /** Keys other than the names of the parameters reached keep their values. */
  lemma {:induction false} BindFrame(left: seq<Param>, args: seq<string>, acc: map<string, Value>, conv: Converter, key: string)
    requires Covers(left, |args|)
    requires forall k :: 0 <= k < Reached(left, |args|) ==> left[k].name != key
    ensures BindFrom(left, args, acc, conv).Ok? ==>
      (key in BindFrom(left, args, acc, conv).value.1 <==> key in acc)
      && (key in acc ==> BindFrom(left, args, acc, conv).value.1[key] == acc[key])
  {
    if args != [] {
      if left[0].vararg {
        VarargTakesRest(left, args, acc, conv);
      } else {
        var v := conv(left[0].ptype, args[0]);
        if v.Ok? {
          forall k | 0 <= k < Reached(left[1..], |args| - 1)
            ensures left[1..][k].name != key
          {
            assert left[1..][k] == left[k + 1];
          }
          BindFrame(left[1..], args[1..], acc[left[0].name := v.value], conv, key);
        }
      }
    }
  }

  /** With distinct names, each parameter before the vararg holds the value of its own argument. */
  lemma {:induction false} BindFixed(left: seq<Param>, args: seq<string>, acc: map<string, Value>, conv: Converter, k: nat)
    requires Covers(left, |args|) && DistinctNames(left)
    requires k < |args| && k < FirstVararg(left)
    ensures BindFrom(left, args, acc, conv).Ok? ==>
      left[k].name in BindFrom(left, args, acc, conv).value.1
      && conv(left[k].ptype, args[k]) == Ok(BindFrom(left, args, acc, conv).value.1[left[k].name])
  {
    var v := conv(left[0].ptype, args[0]);
    if v.Ok? {
      var acc' := acc[left[0].name := v.value];
      if k == 0 {
        forall j | 0 <= j < Reached(left[1..], |args| - 1)
          ensures left[1..][j].name != left[0].name
        {
          assert left[1..][j] == left[j + 1];
        }
        BindFrame(left[1..], args[1..], acc', conv, left[0].name);
      } else {
        BindFixed(left[1..], args[1..], acc', conv, k - 1);
        assert left[1..][k - 1] == left[k] && args[1..][k - 1] == args[k];
      }
    }
  }

  /** A reached vararg appends the values of all the remaining arguments to its list. */
  lemma {:induction false} BindVararg(left: seq<Param>, args: seq<string>, acc: map<string, Value>, conv: Converter)
    requires Covers(left, |args|) && DistinctNames(left)
    requires FirstVararg(left) < |args|
    ensures BindFrom(left, args, acc, conv).Ok? ==>
      var v := FirstVararg(left);
      left[v].name in BindFrom(left, args, acc, conv).value.1 && ConvertAll(left[v].ptype, args[v..], conv).Ok?
      && BindFrom(left, args, acc, conv).value.1[left[v].name]
         == ListV(Items(acc, left[v].name) + ConvertAll(left[v].ptype, args[v..], conv).value)
  {
    if left[0].vararg {
      VarargTakesRest(left, args, acc, conv);
      assert args[0..] == args;
    } else {
      var v := conv(left[0].ptype, args[0]);
      if v.Ok? {
        var acc' := acc[left[0].name := v.value];
        var fv := FirstVararg(left);
        BindVararg(left[1..], args[1..], acc', conv);
        assert left[1..][fv - 1] == left[fv] && args[1..][fv - 1..] == args[fv..];
        assert left[0].name != left[fv].name;
        assert Items(acc', left[fv].name) == Items(acc, left[fv].name);
      }
    }
  }

  /** One step of the loop over `paramsLeft`: an optional parameter with a default takes it. */
  function DefaultStep(p: Param, m: map<string, Value>, asWritten: bool): map<string, Value>
  {
    if p.optional && p.defaultValue.Some? && (asWritten || p.name !in m) then m[p.name := p.defaultValue.value]
    else m
  }

  /**
   * Defaults for the parameters left. As written, every optional parameter
   * left with a default takes it, so a reached optional vararg loses the
   * values it collected; the intended version leaves bound names alone.
   */
  function Defaults(left: seq<Param>, m: map<string, Value>, asWritten: bool): (r: map<string, Value>)
  {
    if left == [] then m else Defaults(left[1..], DefaultStep(left[0], m, asWritten), asWritten)
  }

  /** The names of the optional parameters that have a default. */
  function DefaultNames(left: seq<Param>): set<string>
  {
    if left == [] then {}
    else (if left[0].optional && left[0].defaultValue.Some? then {left[0].name} else {}) + DefaultNames(left[1..])
  }

  /** In both versions the names with a value afterwards are the bound ones and those of the optional parameters left with a default. */
  lemma {:induction false} DefaultsKeys(left: seq<Param>, m: map<string, Value>, asWritten: bool)
    ensures Defaults(left, m, asWritten).Keys == m.Keys + DefaultNames(left)
  {
    if left != [] {
      DefaultsKeys(left[1..], DefaultStep(left[0], m, asWritten), asWritten);
    }
  }

  predicate TakesDefault(p: Param, key: string)
  {
    p.name == key && p.optional && p.defaultValue.Some?
  }

  /** The intended defaults never overwrite a bound value, and give a default exactly to the unbound names that have one. */
  lemma {:induction false} DefaultsMeaning(left: seq<Param>, m: map<string, Value>, key: string)
    ensures key in m ==> key in Defaults(left, m, false) && Defaults(left, m, false)[key] == m[key]
    ensures key !in m ==> (key in Defaults(left, m, false) <==> exists i :: 0 <= i < |left| && TakesDefault(left[i], key))
    ensures forall i :: 0 <= i < |left| && key !in m && TakesDefault(left[i], key) && DistinctNames(left) ==>
      Defaults(left, m, false)[key] == left[i].defaultValue.value
  {
    if left != [] {
      var m' := DefaultStep(left[0], m, false);
      DefaultsMeaning(left[1..], m', key);
      if key !in m {
        if exists i :: 0 <= i < |left| && TakesDefault(left[i], key) {
          var i :| 0 <= i < |left| && TakesDefault(left[i], key);
          if i > 0 { assert TakesDefault(left[1..][i - 1], key); }
        }
        if exists i :: 0 <= i < |left[1..]| && TakesDefault(left[1..][i], key) {
          var i :| 0 <= i < |left[1..]| && TakesDefault(left[1..][i], key);
          assert TakesDefault(left[i + 1], key);
        }
        forall i | 0 <= i < |left| && TakesDefault(left[i], key) && DistinctNames(left)
          ensures Defaults(left, m, false)[key] == left[i].defaultValue.value
        {
          if i > 0 {
            assert TakesDefault(left[1..][i - 1], key);
            assert left[0].name != left[i].name;
          }
        }
      }
    }
  }

  /**
   * `$validateAndTransformArgs` as a function of the directive and the
   * rule's parameters: the count check, then binding, then defaults.
   */
  function TransformArgs(node: Node, ps: seq<Param>, conv: Converter, asWritten: bool): (r: Result<map<string, Value>>)
    ensures ArgCountError(node, ps).Some? ==> r == Err(ArgCountError(node, ps).value)
  {
    var count := ArgCountError(node, ps);
    if count.Some? then Err(count.value)
    else
      var bound := BindFrom(ps, node.args, map[], conv);
      if bound.Err? then Err(bound.error)
      else Ok(Defaults(bound.value.0, bound.value.1, asWritten))
  }

  /** A directive's typed values exist exactly when the count fits and every argument converts. */
  lemma TransformOk(node: Node, ps: seq<Param>, conv: Converter)
    ensures TransformArgs(node, ps, conv, false).Ok? <==>
      CountFits(|node.args|, MinParams(ps), MaxParams(ps)) && AllConvert(ps, node.args, conv)
  {
    if ArgCountError(node, ps).None? {
      BindOk(ps, node.args, map[], conv);
    }
  }

  /** The bound parameters that are left hold no names twice when the rule's names are distinct. */
  lemma LeftDistinct(node: Node, ps: seq<Param>, conv: Converter)
    requires DistinctNames(ps) && Covers(ps, |node.args|)
    requires BindFrom(ps, node.args, map[], conv).Ok?
    ensures BindFrom(ps, node.args, map[], conv).value.0 == ps[Shifted(ps, |node.args|)..]
    ensures DistinctNames(BindFrom(ps, node.args, map[], conv).value.0)
  {
    BindLeft(ps, node.args, map[], conv);
    var left := BindFrom(ps, node.args, map[], conv).value.0;
    var s := Shifted(ps, |node.args|);
    forall i, j | 0 <= i < j < |left| ensures left[i].name != left[j].name {
      assert left[i] == ps[s + i] && left[j] == ps[s + j];
    }
  }

  /** Each parameter before the vararg holds the value of its own argument. */
  lemma TransformFixed(node: Node, ps: seq<Param>, conv: Converter, k: nat)
    requires DistinctNames(ps) && k < |node.args| && k < FirstVararg(ps)
    ensures TransformArgs(node, ps, conv, false).Ok? ==>
      ps[k].name in TransformArgs(node, ps, conv, false).value
      && conv(ps[k].ptype, node.args[k]) == Ok(TransformArgs(node, ps, conv, false).value[ps[k].name])
  {
    if TransformArgs(node, ps, conv, false).Ok? {
      var bound := BindFrom(ps, node.args, map[], conv);
      BindFixed(ps, node.args, map[], conv, k);
      DefaultsMeaning(bound.value.0, bound.value.1, ps[k].name);
    }
  }

  /** A reached vararg holds the list of the values of all the remaining arguments, whatever its default. */
  lemma TransformVararg(node: Node, ps: seq<Param>, conv: Converter)
    requires DistinctNames(ps) && FirstVararg(ps) < |node.args|
    ensures TransformArgs(node, ps, conv, false).Ok? ==>
      var v := FirstVararg(ps);
      ps[v].name in TransformArgs(node, ps, conv, false).value && ConvertAll(ps[v].ptype, node.args[v..], conv).Ok?
      && TransformArgs(node, ps, conv, false).value[ps[v].name] == ListV(ConvertAll(ps[v].ptype, node.args[v..], conv).value)
  {
    if TransformArgs(node, ps, conv, false).Ok? {
      var bound := BindFrom(ps, node.args, map[], conv);
      BindVararg(ps, node.args, map[], conv);
      DefaultsMeaning(bound.value.0, bound.value.1, ps[FirstVararg(ps)].name);
    }
  }

  /** A parameter the arguments do not reach holds its default when it has one. */
  lemma TransformDefault(node: Node, ps: seq<Param>, conv: Converter, i: nat)
    requires DistinctNames(ps) && Reached(ps, |node.args|) <= i < |ps| && TakesDefault(ps[i], ps[i].name)
    ensures TransformArgs(node, ps, conv, false).Ok? ==>
      ps[i].name in TransformArgs(node, ps, conv, false).value
      && TransformArgs(node, ps, conv, false).value[ps[i].name] == ps[i].defaultValue.value
  {
    if TransformArgs(node, ps, conv, false).Ok? {
      var bound := BindFrom(ps, node.args, map[], conv);
      var key := ps[i].name;
      LeftDistinct(node, ps, conv);
      BindFrame(ps, node.args, map[], conv, key);
      DefaultsMeaning(bound.value.0, bound.value.1, key);
      assert bound.value.0[i - Shifted(ps, |node.args|)] == ps[i];
    }
  }

  /** Every typed value belongs to a parameter of the rule. */
  lemma TransformKeys(node: Node, ps: seq<Param>, conv: Converter, key: string)
    ensures TransformArgs(node, ps, conv, false).Ok? && key in TransformArgs(node, ps, conv, false).value ==>
      exists i :: 0 <= i < |ps| && ps[i].name == key
  {
    if TransformArgs(node, ps, conv, false).Ok? && key in TransformArgs(node, ps, conv, false).value {
      var bound := BindFrom(ps, node.args, map[], conv);
      BindLeft(ps, node.args, map[], conv);
      var s := Shifted(ps, |node.args|);
      DefaultsMeaning(bound.value.0, bound.value.1, key);
      if key !in bound.value.1 {
        var i :| 0 <= i < |bound.value.0| && TakesDefault(bound.value.0[i], key);
        assert ps[s + i].name == key;
      } else if forall k :: 0 <= k < Reached(ps, |node.args|) ==> ps[k].name != key {
        BindFrame(ps, node.args, map[], conv, key);
      }
    }
  }

  /**
   * An optional vararg with a default, `[x]...` defaulting to `z`, given
   * two arguments: as written the default replaces the collected list;
   * the intended version keeps the list.
   */
  lemma VarargDefaultOverwrite()
    ensures var p := Param(StringT, "x", "items", true, true, Some(StringV("z")));
      var node := Node(Some("items"), ["a", "b"], None, 1, None, []);
      TransformArgs(node, [p], Convert, true) == Ok(map["x" := StringV("z")])
      && TransformArgs(node, [p], Convert, false) == Ok(map["x" := ListV([StringV("a"), StringV("b")])])
  {
    var p := Param(StringT, "x", "items", true, true, Some(StringV("z")));
    var node := Node(Some("items"), ["a", "b"], None, 1, None, []);
    assert [p][0].vararg;
    assert ArgCountError(node, [p]) == None;
    var m1 := map["x" := ListV([StringV("a")])];
    var m2 := map["x" := ListV([StringV("a"), StringV("b")])];
    assert node.args[1..] == ["b"] && ["b"][1..] == [];
    assert Convert(StringT, "a") == Ok(StringV("a")) && Convert(StringT, "b") == Ok(StringV("b"));
    var empty: map<string, Value> := map[];
    assert Items(empty, "x") == [];
    assert [] + [StringV("a")] == [StringV("a")];
    assert empty["x" := ListV([StringV("a")])] == m1;
    assert BindFrom([p], node.args, map[], Convert) == BindFrom([p], ["b"], m1, Convert);
    assert Items(m1, "x") + [StringV("b")] == [StringV("a"), StringV("b")];
    assert m1["x" := ListV([StringV("a"), StringV("b")])] == m2;
    assert BindFrom([p], ["b"], m1, Convert) == BindFrom([p], [], m2, Convert);
    assert Defaults([p], m2, true) == Defaults([], map["x" := StringV("z")], true);
    assert Defaults([p], m2, false) == Defaults([], m2, false);
  }

  /**
   * `$validateAndTransformArgs`: the count check, the loop over the
   * arguments that shifts `paramsLeft` and fills the typed values, then
   * the loop that gives the parameters left their defaults.
   */
  method ValidateAndTransformArgs(node: Node, ps: seq<Param>) returns (r: Result<map<string, Value>>)
    ensures r == TransformArgs(node, ps, Convert, false)
  {
    var count := ArgCountError(node, ps);
    if count.Some? {
      return Err(count.value);
    }
    var args := node.args;
    var paramsLeft := ps;
    var typedArgs: map<string, Value> := map[];
    var k := 0;
    while k < |args|
      invariant 0 <= k <= |args|
      invariant Covers(paramsLeft, |args| - k)
      invariant BindFrom(ps, args, map[], Convert) == BindFrom(paramsLeft, args[k..], typedArgs, Convert)
    {
      var param := paramsLeft[0];
      var value := Convert(param.ptype, args[k]);
      if value.Err? {
        return Err(value.error);
      }
      assert args[k..][1..] == args[k + 1..];
      if !param.vararg {
        paramsLeft := paramsLeft[1..];
        typedArgs := typedArgs[param.name := value.value];
      } else {
        var list := if param.name in typedArgs && typedArgs[param.name].ListV? then typedArgs[param.name].items else [];
        typedArgs := typedArgs[param.name := ListV(list + [value.value])];
      }
      k := k + 1;
    }
    assert args[k..] == [];
    var j := 0;
    while j < |paramsLeft|
      invariant 0 <= j <= |paramsLeft|
      invariant BindFrom(ps, args, map[], Convert) == Ok((paramsLeft, BindFrom(ps, args, map[], Convert).value.1))
      invariant Defaults(paramsLeft, BindFrom(ps, args, map[], Convert).value.1, false) == Defaults(paramsLeft[j..], typedArgs, false)
    {
      var param := paramsLeft[j];
      assert paramsLeft[j..][1..] == paramsLeft[j + 1..];
      if param.optional && param.defaultValue.Some? && param.name !in typedArgs {
        typedArgs := typedArgs[param.name := param.defaultValue.value];
      }
      j := j + 1;
    }
    return Ok(typedArgs);
  }

  // ---------------------------------------------------------------------
  // Repetition (`$validateMaxCount`)
  // ---------------------------------------------------------------------

  /** How many directives in `s` have the name `name`. */
  function CountNamed(s: seq<Node>, name: Option<string>): (n: nat)
    ensures n <= |s|
  {
    if s == [] then 0 else CountNamed(s[..|s| - 1], name) + (if s[|s| - 1].name == name then 1 else 0)
  }

  /** The directive at `idx` is a same-named sibling beyond the limit: counting itself, more than `maxcount` so far. */
  predicate TooMany(siblings: seq<Node>, idx: nat, limit: Limit)
    requires idx < |siblings|
  {
    limit.AtMost? && CountNamed(siblings[..idx + 1], siblings[idx].name) > limit.n
  }

  function TooManyMessage(node: Node): string
  {
    ThrowFor(node.position, NameText(node.name) + " directive appears too many times")
  }

  /**
   * `$validateMaxCount` for the directive at `idx` among its siblings: no
   * check when `maxcount` exceeds the number of siblings, else a count of
   * the same-named siblings up to and including the directive. A `NaN`
   * limit fails every comparison, so it never throws.
   */
  method ValidateMaxCount(siblings: seq<Node>, idx: nat, limit: Limit) returns (err: Option<string>)
    requires idx < |siblings|
    ensures err.Some? <==> TooMany(siblings, idx, limit)
    ensures err.Some? ==> err.value == TooManyMessage(siblings[idx])
  {
    if limit.Unlimited? || (limit.AtMost? && limit.n > |siblings|) {
      return None;
    }
    var name := siblings[idx].name;
    var count := 0;
    var i := 0;
    while i < |siblings|
      invariant 0 <= i <= idx
      invariant count == CountNamed(siblings[..i], name)
      decreases |siblings| - i
    {
      assert siblings[..i + 1][..i] == siblings[..i];
      if siblings[i].name == name {
        count := count + 1;
      }
      if i == idx {
        i := i + 1;
        break;
      }
      i := i + 1;
    }
    if limit.AtMost? && count > limit.n {
      return Some(TooManyMessage(siblings[idx]));
    }
    return None;
  }

  lemma {:induction false} CountNamedPrefix(s: seq<Node>, name: Option<string>, i: nat, j: nat)
    requires i <= j <= |s|
    ensures CountNamed(s[..i], name) <= CountNamed(s[..j], name)
    decreases j - i
  {
    if i < j {
      CountNamedPrefix(s, name, i, j - 1);
      assert s[..j][..j - 1] == s[..j - 1];
    }
  }

  /** Once a directive is one too many, so is every later sibling with its name. */
  lemma TooManyLater(siblings: seq<Node>, i: nat, j: nat, limit: Limit)
    requires i < j < |siblings| && siblings[i].name == siblings[j].name
    requires TooMany(siblings, i, limit)
    ensures TooMany(siblings, j, limit)
  {
    CountNamedPrefix(siblings, siblings[i].name, i + 1, j + 1);
  }

  /** The first directive with its name among its siblings passes any limit of at least 1. */
  lemma {:induction false} FirstNeverTooMany(siblings: seq<Node>, idx: nat, n: int)
    requires idx < |siblings| && n >= 1
    requires forall k :: 0 <= k < idx ==> siblings[k].name != siblings[idx].name
    ensures !TooMany(siblings, idx, AtMost(n))
  {
    NoneNamed(siblings[..idx], siblings[idx].name);
    assert siblings[..idx + 1][..idx] == siblings[..idx];
  }

  lemma {:induction false} NoneNamed(s: seq<Node>, name: Option<string>)
    requires forall k :: 0 <= k < |s| ==> s[k].name != name
    ensures CountNamed(s, name) == 0
  {
    if s != [] {
      NoneNamed(s[..|s| - 1], name);
    }
  }

  // ---------------------------------------------------------------------
  // Location, exclusion and one rule
  // ---------------------------------------------------------------------

  /** The first name in `precluded` that names one of `parent`'s children. */
  function FirstPrecluded(precluded: seq<string>, parent: Node): (r: Option<string>)
    ensures r.Some? ==> r.value in precluded && HasMatch(parent.children, MakePredicate(Named(r.value)).value)
    ensures r.None? ==> forall p :: p in precluded ==> !HasMatch(parent.children, MakePredicate(Named(p)).value)
  {
    if precluded == [] then None
    else if GetOne([parent], Named(precluded[0]), false).value.Some? then
      FindUpNearest([parent], MakePredicate(Named(precluded[0])).value, false);
      Some(precluded[0])
    else
      FindUpNearest([parent], MakePredicate(Named(precluded[0])).value, false);
      FirstPrecluded(precluded[1..], parent)
  }

  /** Every check the rule makes of the directive at `idx` under `parent` passes. */
  ghost predicate RuleAccepts(rule: Rule, parent: Node, idx: nat)
    requires idx < |parent.children|
  {
    parent.name in rule.at
    && TransformArgs(parent.children[idx], rule.params, Convert, false).Ok?
    && !TooMany(parent.children, idx, rule.maxcount)
    && forall p :: p in rule.precludes ==> !HasMatch(parent.children, MakePredicate(Named(p)).value)
  }

  /**
   * `applyTo`: the location, the arguments, the count among siblings and
   * the exclusions, in that order; the result is the directive's typed
   * values.
   */
  function ApplyRule(rule: Rule, parent: Node, idx: nat): (r: Result<map<string, Value>>)
    requires idx < |parent.children|
    ensures r.Ok? <==> RuleAccepts(rule, parent, idx)
    ensures r.Ok? ==> TransformArgs(parent.children[idx], rule.params, Convert, false) == r
    ensures parent.name !in rule.at ==>
      r == Err(ThrowFor(parent.children[idx].position, "The " + NameText(parent.children[idx].name) + " directive can't be used here"))
    ensures (parent.name in rule.at && TransformArgs(parent.children[idx], rule.params, Convert, false).Ok?
      && TooMany(parent.children, idx, rule.maxcount)) ==> r == Err(TooManyMessage(parent.children[idx]))
  {
    var node := parent.children[idx];
    if parent.name !in rule.at then
      Err(ThrowFor(node.position, "The " + NameText(node.name) + " directive can't be used here"))
    else
      var values := TransformArgs(node, rule.params, Convert, false);
      if values.Err? then values
      else if TooMany(parent.children, idx, rule.maxcount) then Err(TooManyMessage(node))
      else
        var p := FirstPrecluded(rule.precludes, parent);
        if p.Some? then
          Err(ThrowFor(parent.position, NameText(node.name) + " and " + p.value + " directives are mutually exclusive"))
        else values
  }

  // ---------------------------------------------------------------------
  // The whole schema (`applySchema`)
  // ---------------------------------------------------------------------

  /** The rules of a schema, by name; a later directive with the same name replaces an earlier one. */
  function BuildRules(defs: seq<Node>, schemaRoot: Node): (r: Result<map<string, Rule>>)
    ensures r.Err? ==> exists i :: 0 <= i < |defs| && MakeRule(defs[i], schemaRoot) == Err(r.error)
  {
    if defs == [] then Ok(map[])
    else
      assert forall i :: 0 <= i < |defs| - 1 ==> defs[..|defs| - 1][i] == defs[i];
      var earlier := BuildRules(defs[..|defs| - 1], schemaRoot);
      if earlier.Err? then earlier
      else
        var rule := MakeRule(defs[|defs| - 1], schemaRoot);
        if rule.Err? then Err(rule.error)
        else Ok(earlier.value[NameText(defs[|defs| - 1].name) := rule.value])
  }

  function DefinedNames(defs: seq<Node>): set<string>
  {
    set i | 0 <= i < |defs| :: NameText(defs[i].name)
  }

  /** The rules are keyed by exactly the names the schema defines. */
  lemma {:induction false} BuildRulesKeys(defs: seq<Node>, schemaRoot: Node)
    ensures BuildRules(defs, schemaRoot).Ok? ==> BuildRules(defs, schemaRoot).value.Keys == DefinedNames(defs)
  {
    var r := BuildRules(defs, schemaRoot);
    if defs != [] && r.Ok? {
      var init := defs[..|defs| - 1];
      var last := defs[|defs| - 1];
      BuildRulesKeys(init, schemaRoot);
      assert r.value == BuildRules(init, schemaRoot).value[NameText(last.name) := MakeRule(last, schemaRoot).value];
      forall x | x in DefinedNames(defs) ensures x in DefinedNames(init) + {NameText(last.name)} {
        var i :| 0 <= i < |defs| && NameText(defs[i].name) == x;
        if i < |defs| - 1 { assert init[i] == defs[i]; }
      }
      forall x | x in DefinedNames(init) ensures x in DefinedNames(defs) {
        var i :| 0 <= i < |init| && NameText(init[i].name) == x;
        assert defs[i] == init[i];
      }
    }
  }

  /** Each rule is that of the last definition with its name: a later definition replaces an earlier one. */
  lemma {:induction false} BuildRulesLast(defs: seq<Node>, schemaRoot: Node, i: nat)
    requires i < |defs|
    requires forall k :: i < k < |defs| ==> NameText(defs[k].name) != NameText(defs[i].name)
    ensures BuildRules(defs, schemaRoot).Ok? ==>
      NameText(defs[i].name) in BuildRules(defs, schemaRoot).value
      && MakeRule(defs[i], schemaRoot) == Ok(BuildRules(defs, schemaRoot).value[NameText(defs[i].name)])
  {
    var r := BuildRules(defs, schemaRoot);
    if r.Ok? {
      var init := defs[..|defs| - 1];
      var last := defs[|defs| - 1];
      assert r.value == BuildRules(init, schemaRoot).value[NameText(last.name) := MakeRule(last, schemaRoot).value];
      if i < |defs| - 1 {
        assert init[i] == defs[i];
        forall k | i < k < |init| ensures NameText(init[k].name) != NameText(init[i].name) {
          assert init[k] == defs[k];
        }
        BuildRulesLast(init, schemaRoot, i);
      }
    }
  }

  /** The directive at `idx` has a rule and the rule accepts it. */
  ghost predicate NodeAccepted(rules: map<string, Rule>, parent: Node, idx: nat)
    requires idx < |parent.children|
  {
    NameText(parent.children[idx].name) in rules && RuleAccepts(rules[NameText(parent.children[idx].name)], parent, idx)
  }

  /** Every directive below `n` is accepted. */
  ghost predicate TreeAccepted(rules: map<string, Rule>, n: Node)
    decreases n
  {
    forall i :: 0 <= i < |n.children| ==> NodeAccepted(rules, n, i) && TreeAccepted(rules, n.children[i])
  }

  /**
   * The children of `parent` from `i` on, each checked and then its own
   * subtree, in preorder, each given its typed values; the first failure
   * is the error.
   */
  function ApplyFrom(rules: map<string, Rule>, parent: Node, i: nat): (r: Result<seq<Node>>)
    requires i <= |parent.children|
    decreases parent, |parent.children| - i, 1
    ensures r.Ok? ==> |r.value| == |parent.children| - i
    ensures i < |parent.children| && NameText(parent.children[i].name) !in rules ==>
      r == Err(ThrowFor(parent.children[i].position, "Unknown directive \"" + NameText(parent.children[i].name) + "\""))
  {
    if i >= |parent.children| then Ok([])
    else
      var head := CheckChild(rules, parent, i);
      if head.Err? then Err(head.error)
      else
        var rest := ApplyFrom(rules, parent, i + 1);
        if rest.Err? then rest
        else Ok([head.value] + rest.value)
  }

  /** The `i`-th child checked by its rule, holding its typed values, then its own children checked. */
  function CheckChild(rules: map<string, Rule>, parent: Node, i: nat): (r: Result<Node>)
    requires i < |parent.children|
    decreases parent, |parent.children| - i, 0
  {
    var node := parent.children[i];
    var key := NameText(node.name);
    if key !in rules then Err(ThrowFor(node.position, "Unknown directive \"" + key + "\""))
    else
      var values := ApplyRule(rules[key], parent, i);
      if values.Err? then Err(values.error)
      else
        var below := ApplyFrom(rules, node, 0);
        if below.Err? then Err(below.error)
        else Ok(node.(values := Some(values.value), children := below.value))
  }

  /** `applySchema`: build every rule, then check the config tree below its root. */
  function ApplySchema(configRoot: Node, schemaRoot: Node): (r: Result<Node>)
    ensures r.Ok? ==> (r.value.name == configRoot.name && r.value.args == configRoot.args
      && |r.value.children| == |configRoot.children|)
  {
    var rules := BuildRules(schemaRoot.children, schemaRoot);
    if rules.Err? then Err(rules.error)
    else
      var children := ApplyFrom(rules.value, configRoot, 0);
      if children.Err? then Err(children.error)
      else Ok(configRoot.(children := children.value))
  }

  /** Every child of `parent` from `i` on, and everything below it, is accepted. */
  ghost predicate AcceptedFrom(rules: map<string, Rule>, parent: Node, i: nat)
  {
    forall j :: i <= j < |parent.children| ==> NodeAccepted(rules, parent, j) && TreeAccepted(rules, parent.children[j])
  }

  lemma AcceptedFromSplit(rules: map<string, Rule>, parent: Node, i: nat)
    requires i < |parent.children|
    ensures AcceptedFrom(rules, parent, i) <==>
      NodeAccepted(rules, parent, i) && TreeAccepted(rules, parent.children[i]) && AcceptedFrom(rules, parent, i + 1)
  {
  }

  /** The schema accepts the children from `i` on exactly when each, and everything below it, is accepted. */
  lemma {:induction false} ApplyFromAccepted(rules: map<string, Rule>, parent: Node, i: nat)
    requires i <= |parent.children|
    decreases parent, |parent.children| - i
    ensures ApplyFrom(rules, parent, i).Ok? <==> AcceptedFrom(rules, parent, i)
  {
    if i < |parent.children| {
      var node := parent.children[i];
      ApplyFromAccepted(rules, node, 0);
      ApplyFromAccepted(rules, parent, i + 1);
      AcceptedFromSplit(rules, parent, i);
      CheckChildAccepted(rules, parent, i);
      assert TreeAccepted(rules, node) <==> AcceptedFrom(rules, node, 0);
      assert ApplyFrom(rules, parent, i).Ok? <==> CheckChild(rules, parent, i).Ok? && ApplyFrom(rules, parent, i + 1).Ok?;
    }
  }

  /** One child passes exactly when its rule accepts it and its own children pass. */
  lemma CheckChildAccepted(rules: map<string, Rule>, parent: Node, i: nat)
    requires i < |parent.children|
    ensures CheckChild(rules, parent, i).Ok? <==>
      NodeAccepted(rules, parent, i) && ApplyFrom(rules, parent.children[i], 0).Ok?
  {
    var key := NameText(parent.children[i].name);
    if key in rules {
      assert ApplyRule(rules[key], parent, i).Ok? <==> RuleAccepts(rules[key], parent, i);
    }
  }

  /** A config tree passes the schema exactly when the rules build and every directive in it is accepted. */
  lemma ApplySchemaAccepted(configRoot: Node, schemaRoot: Node)
    ensures ApplySchema(configRoot, schemaRoot).Ok? <==>
      BuildRules(schemaRoot.children, schemaRoot).Ok? && TreeAccepted(BuildRules(schemaRoot.children, schemaRoot).value, configRoot)
  {
    var rules := BuildRules(schemaRoot.children, schemaRoot);
    if rules.Ok? {
      ApplyFromAccepted(rules.value, configRoot, 0);
      assert TreeAccepted(rules.value, configRoot) <==> AcceptedFrom(rules.value, configRoot, 0);
    }
  }

  /**
   * `out` is `node` as the schema checked it: same name, arguments,
   * position and depth, the typed values its rule computes, and its own
   * children checked.
   */
  ghost predicate CheckedAs(rules: map<string, Rule>, node: Node, out: Node)
  {
    NameText(node.name) in rules
    && out.name == node.name && out.args == node.args && out.position == node.position && out.depth == node.depth
    && out.values.Some? && TransformArgs(node, rules[NameText(node.name)].params, Convert, false) == Ok(out.values.value)
    && Ok(out.children) == ApplyFrom(rules, node, 0)
  }

  /**
   * Each checked directive keeps its name, arguments, position and depth,
   * and holds the typed values its rule computes.
   */
  lemma ApplyFromValues(rules: map<string, Rule>, parent: Node, i: nat, j: nat)
    requires i <= j < |parent.children|
    ensures ApplyFrom(rules, parent, i).Ok? ==>
      CheckedAs(rules, parent.children[j], ApplyFrom(rules, parent, i).value[j - i])
  {
    if ApplyFrom(rules, parent, i).Ok? {
      ApplyFromEach(rules, parent, i);
      CheckChildChecked(rules, parent, j);
    }
  }

  /** A successful check from `i` on holds, in order, each child checked on its own. */
  lemma {:induction false} ApplyFromEach(rules: map<string, Rule>, parent: Node, i: nat)
    requires i <= |parent.children| && ApplyFrom(rules, parent, i).Ok?
    decreases |parent.children| - i
    ensures forall k :: i <= k < |parent.children| ==>
      CheckChild(rules, parent, k).Ok? && ApplyFrom(rules, parent, i).value[k - i] == CheckChild(rules, parent, k).value
  {
    if i < |parent.children| {
      ApplyFromEach(rules, parent, i + 1);
      assert ApplyFrom(rules, parent, i).value == [CheckChild(rules, parent, i).value] + ApplyFrom(rules, parent, i + 1).value;
    }
  }

  /** A child that passes is kept as it was, with its typed values and its children checked. */
  lemma CheckChildChecked(rules: map<string, Rule>, parent: Node, i: nat)
    requires i < |parent.children| && CheckChild(rules, parent, i).Ok?
    ensures CheckedAs(rules, parent.children[i], CheckChild(rules, parent, i).value)
  {
    var node := parent.children[i];
    var key := NameText(node.name);
    assert key in rules;
    var values := ApplyRule(rules[key], parent, i);
    var below := ApplyFrom(rules, node, 0);
    assert values.Ok? && below.Ok?;
    assert CheckChild(rules, parent, i).value == node.(values := Some(values.value), children := below.value);
  }

  /** A first directive whose name the schema does not define is an unknown directive. */
  lemma UnknownDirective(configRoot: Node, schemaRoot: Node)
    requires configRoot.children != [] && NameText(configRoot.children[0].name) !in DefinedNames(schemaRoot.children)
    ensures BuildRules(schemaRoot.children, schemaRoot).Ok? ==> (ApplySchema(configRoot, schemaRoot) ==
      Err(ThrowFor(configRoot.children[0].position, "Unknown directive \"" + NameText(configRoot.children[0].name) + "\"")))
  {
    BuildRulesKeys(schemaRoot.children, schemaRoot);
  }
}
