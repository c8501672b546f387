/** `convertFlowToExecutionFormat` of the strategy save route: turns the
    nodes of a flow-builder graph into the strategy record the execution
    engine monitors, or null when the graph cannot be executed.

    A node's `params` object is a map from property names to values; a
    property it lacks reads as `undefined`, and a missing `params` object
    (`None`) makes any property access throw, which the converter catches
    and turns into null. The clock (`Date.now()`) and the configured vault
    id (`NEXT_PUBLIC_VAULT_CONTRACT_ID`, "" when unset) are parameters. */
module SaveRoute {
  import opened Soroban
  import opened Js
  import E = ExecutionEngine

  type Params = map<string, JsValue>

  /** A flow node; `nodeType` is `data.nodeType`, `params` is `data.params`. */
  datatype StrategyNode = StrategyNode(id: string, nodeType: string, params: Option<Params>)

  /** The request body; the description and the edges play no part. */
  datatype SaveRequest = SaveRequest(name: string, nodes: seq<StrategyNode>)

  const BACKEND_EXECUTOR: string := "GBOQA7EK4NYZNQU2OQVTZ4VBOW6ZTHO4IICW5KREIHGORBJASQDHILBR"
  const DEFAULT_VAULT: string := "CCDLJL4C7MLQDMN4CFXEF64MD275QUORCVX6ZQQJEHMKTZKRLP5IGE2B"

  /** `params[key]` */
  function Get(p: Params, key: string): JsValue {
    if key in p then p[key] else Undefined
  }

  /** The index of the first node of type t, or |nodes|. */
  function FindIndex(nodes: seq<StrategyNode>, t: string): (k: nat)
    ensures k <= |nodes|
    ensures k < |nodes| ==> nodes[k].nodeType == t
    ensures forall i :: 0 <= i < k ==> nodes[i].nodeType != t
  {
    if nodes == [] then 0 else if nodes[0].nodeType == t then 0 else 1 + FindIndex(nodes[1..], t)
  }

  /** `nodes.find(n => n.data.nodeType === t)`: the first such node. */
  function FindNode(nodes: seq<StrategyNode>, t: string): (r: Option<StrategyNode>)
    ensures r.None? <==> forall i :: 0 <= i < |nodes| ==> nodes[i].nodeType != t
    ensures r.Some? ==> r.value.nodeType == t && r.value == nodes[FindIndex(nodes, t)]
  {
    var k := FindIndex(nodes, t);
    if k < |nodes| then Some(nodes[k]) else None
  }

  /** `nodes.filter(n => types has n.data.nodeType)`, keeping their order. */
  function Select(nodes: seq<StrategyNode>, types: set<string>): (r: seq<StrategyNode>)
    ensures |r| <= |nodes|
    ensures forall n :: n in r <==> n in nodes && n.nodeType in types
    ensures r == [] <==> forall i :: 0 <= i < |nodes| ==> nodes[i].nodeType !in types
  {
    if nodes == [] then []
    else
      var rest := Select(nodes[1..], types);
      assert forall i :: 1 <= i < |nodes| ==> nodes[i] == nodes[1..][i - 1];
      (if nodes[0].nodeType in types then [nodes[0]] else []) + rest
  }

  /** One condition node's condition: always a price condition on the
      trigger's symbol ('XLM' if falsy), with operator '>' and value 0
      when those are falsy. */
  function ConditionOf(trigger: Params, p: Params): (c: E.StrategyCondition)
    ensures c.kind == "price"
    ensures c.parameter == Or(Get(trigger, "symbol"), Str("XLM"))
    ensures c.operator == Or(Get(p, "operator"), Str(">"))
    ensures c.value == Or(Get(p, "value"), Num(Dec(0, 0)))
    ensures Truthy(c.parameter) && Truthy(c.operator)
  {
    E.StrategyCondition("price", Or(Get(trigger, "symbol"), Str("XLM")),
                        Or(Get(p, "operator"), Str(">")), Or(Get(p, "value"), Num(Dec(0, 0))))
  }

  /** `filter` distributes over concatenation: the kept nodes of two
      parts, in the parts' order. */
  lemma {:induction false} SelectAppend(a: seq<StrategyNode>, b: seq<StrategyNode>, types: set<string>)
    ensures Select(a + b, types) == Select(a, types) + Select(b, types)
    decreases |a|
  {
    if a == [] {
      assert a + b == b;
    } else {
      var t := a[1..];
      var h: seq<StrategyNode> := if a[0].nodeType in types then [a[0]] else [];
      E.SplitHead(a, b);
      SelectCons(a[0], t + b, types);
      SelectCons(a[0], t, types);
      SelectAppend(t, b, types);
      E.Regroup(h, Select(t, types), Select(b, types));
    }
  }

  /** `filter` on a node followed by the rest. */
  lemma SelectCons(n: StrategyNode, rest: seq<StrategyNode>, types: set<string>)
    ensures Select([n] + rest, types) == (if n.nodeType in types then [n] else []) + Select(rest, types)
  {
    var ns := [n] + rest;
    assert ns[0] == n && ns[1..] == rest;
  }

  /** A single node is kept exactly when its type is selected. */
  lemma SelectOne(n: StrategyNode, types: set<string>)
    ensures Select([n], types) == if n.nodeType in types then [n] else []
  {
    assert [n][1..] == [];
    assert Select([n], types) == (if n.nodeType in types then [n] else []) + Select([], types);
  }

  /** One buy/sell node's action: its node type, the asset ('XLM' if
      falsy), `String(amount || 0)` and no recipient. */
  function ActionOf(nodeType: string, p: Params): (a: E.StrategyAction)
    ensures a.kind == nodeType && a.recipient.None?
    ensures a.asset == Or(Get(p, "asset"), Str("XLM")) && Truthy(a.asset)
    ensures a.amount == ToJsString(Or(Get(p, "amount"), Num(Dec(0, 0))))
    ensures a.amount != ""
  {
    E.StrategyAction(nodeType, Or(Get(p, "asset"), Str("XLM")), ToJsString(Or(Get(p, "amount"), Num(Dec(0, 0)))), None)
  }

  /** A numeric amount survives the trip through `String`: the engine's
      `Number(amount)` gives back its value. */
  lemma AmountReadsBack(nodeType: string, p: Params)
    requires Get(p, "amount").Num? && Get(p, "amount").n.Dec?
    ensures StringToNumber(ActionOf(nodeType, p).amount).Dec?
    ensures Value(StringToNumber(ActionOf(nodeType, p).amount)) == Value(Get(p, "amount").n)
  {
    var n := Get(p, "amount").n;
    var v := Or(Get(p, "amount"), Num(Dec(0, 0)));
    assert v == Num(n) || v == Num(Dec(0, 0));
    NumberStringRoundTrip(v.n);
    if v != Num(n) {
      assert !Truthy(Num(n));
      assert Value(n) == 0.0;
    }
  }

  /** The conditions, in node order; None when a property access throws,
      which happens for the first node whose `params`, or the trigger's, is
      missing. */
  function ConvertConditions(trigger: Option<Params>, nodes: seq<StrategyNode>): (r: Option<seq<E.StrategyCondition>>)
    ensures r.Some? <==> (nodes == [] || trigger.Some?) && forall i :: 0 <= i < |nodes| ==> nodes[i].params.Some?
    ensures r.Some? ==> |r.value| == |nodes|
    ensures r.Some? ==> forall i :: 0 <= i < |nodes| ==>
      trigger.Some? && nodes[i].params.Some? && r.value[i] == ConditionOf(trigger.value, nodes[i].params.value)
  {
    if nodes == [] then Some([])
    else if trigger.None? || nodes[0].params.None? then None
    else
      var rest := ConvertConditions(trigger, nodes[1..]);
      assert forall i :: 1 <= i < |nodes| ==> nodes[i] == nodes[1..][i - 1];
      if rest.None? then None
      else Some([ConditionOf(trigger.value, nodes[0].params.value)] + rest.value)
  }

  /** The actions, in node order; None when a node's `params` is missing. */
  function ConvertActions(nodes: seq<StrategyNode>): (r: Option<seq<E.StrategyAction>>)
    ensures r.Some? <==> forall i :: 0 <= i < |nodes| ==> nodes[i].params.Some?
    ensures r.Some? ==> |r.value| == |nodes|
    ensures r.Some? ==> forall i :: 0 <= i < |nodes| ==>
      nodes[i].params.Some? && r.value[i] == ActionOf(nodes[i].nodeType, nodes[i].params.value)
  {
    if nodes == [] then Some([])
    else if nodes[0].params.None? then None
    else
      var rest := ConvertActions(nodes[1..]);
      assert forall i :: 1 <= i < |nodes| ==> nodes[i] == nodes[1..][i - 1];
      if rest.None? then None
      else Some([ActionOf(nodes[0].nodeType, nodes[0].params.value)] + rest.value)
  }

  /** `name.replace(/\D/g, '')`: the digits of the name, in order. */
  function NameDigits(name: string): (d: string)
    ensures AllDigits(d) && |d| <= |name|
    ensures forall c :: c in d <==> c in name && IsDigit(c)
  {
    if name == [] then []
    else
      var rest := NameDigits(name[1..]);
      assert forall i :: 1 <= i < |name| ==> name[i] == name[1..][i - 1];
      (if IsDigit(name[0]) then [name[0]] else []) + rest
  }

  /** `parseInt(digits) || Date.now() % 1000`: the digits' value, unless
      there are none (NaN) or it is 0, both falsy. */
  function AlgoIdOf(name: string, nowMs: nat): (id: int)
    ensures id >= 0
    ensures NameDigits(name) == [] ==> id == nowMs % 1000
    ensures NameDigits(name) != [] ==> id == if DigitsValue(NameDigits(name)) == 0 then nowMs % 1000
                                              else DigitsValue(NameDigits(name))
  {
    var d := NameDigits(name);
    DigitsValueNonNegative(d);
    if d != [] && DigitsValue(d) != 0 then DigitsValue(d) else nowMs % 1000
  }

  lemma {:induction false} NameDigitsAppend(a: string, b: string)
    ensures NameDigits(a + b) == NameDigits(a) + NameDigits(b)
    decreases |a|
  {
    if a != [] {
      assert (a + b)[1..] == a[1..] + b;
      NameDigitsAppend(a[1..], b);
    } else {
      assert a + b == b;
    }
  }

  lemma {:induction false} NameDigitsOfDigits(s: string)
    requires AllDigits(s)
    ensures NameDigits(s) == s
    decreases |s|
  {
    if s != [] {
      assert IsDigit(s[0]);
      NameDigitsOfDigits(s[1..]);
    }
  }

  lemma {:induction false} NameDigitsNone(s: string)
    requires forall i :: 0 <= i < |s| ==> !IsDigit(s[i])
    ensures NameDigits(s) == []
    decreases |s|
  {
    if s != [] {
      assert !IsDigit(s[0]);
      NameDigitsNone(s[1..]);
    }
  }

  /** A name such as "Strategy 42", text without digits followed by the
      decimal digits of a positive n, gets algo id n. */
  lemma AlgoIdFromName(prefix: string, n: nat, nowMs: nat)
    requires forall i :: 0 <= i < |prefix| ==> !IsDigit(prefix[i])
    requires n > 0
    ensures AlgoIdOf(prefix + NatToDigits(n), nowMs) == n
  {
    NameDigitsAppend(prefix, NatToDigits(n));
    NameDigitsOfDigits(NatToDigits(n));
    NameDigitsNone(prefix);
    assert NameDigits(prefix + NatToDigits(n)) == NatToDigits(n);
    NatToDigitsValue(n);
  }

  /** `convertFlowToExecutionFormat`. */
  function ConvertFlowToExecutionFormat(flow: SaveRequest, nowMs: nat, vaultEnv: string): (r: Option<E.StrategyExecution>)
    ensures FindNode(flow.nodes, "trigger").None? ==> r.None?
    ensures Select(flow.nodes, {"buy", "sell"}) == [] ==> r.None?
    ensures r.Some? <==>
      FindNode(flow.nodes, "trigger").Some? && Select(flow.nodes, {"buy", "sell"}) != [] &&
      ConvertConditions(FindNode(flow.nodes, "trigger").value.params, Select(flow.nodes, {"condition"})).Some? &&
      ConvertActions(Select(flow.nodes, {"buy", "sell"})).Some?
    ensures r.Some? ==>
      r.value.active && r.value.creatorAddress == BACKEND_EXECUTOR &&
      r.value.vaultAddress == (if vaultEnv != "" then vaultEnv else DEFAULT_VAULT) &&
      r.value.algoId == AlgoIdOf(flow.name, nowMs) &&
      |r.value.conditions| == |Select(flow.nodes, {"condition"})| &&
      |r.value.actions| == |Select(flow.nodes, {"buy", "sell"})| > 0
    ensures r.Some? ==>
      r.value.conditions == ConvertConditions(FindNode(flow.nodes, "trigger").value.params, Select(flow.nodes, {"condition"})).value &&
      r.value.actions == ConvertActions(Select(flow.nodes, {"buy", "sell"})).value
  {
    var trigger := FindNode(flow.nodes, "trigger");
    if trigger.None? then None
    else
      var conditionNodes := Select(flow.nodes, {"condition"});
      var actionNodes := Select(flow.nodes, {"buy", "sell"});
      if actionNodes == [] then None
      else
        var conditions := ConvertConditions(trigger.value.params, conditionNodes);
        var actions := ConvertActions(actionNodes);
        if conditions.None? || actions.None? then None
        else Some(E.StrategyExecution(AlgoIdOf(flow.name, nowMs), BACKEND_EXECUTOR,
                                      if vaultEnv != "" then vaultEnv else DEFAULT_VAULT,
                                      conditions.value, actions.value, true))
  }

  /** What a converted strategy looks like: every condition is a price
      condition on the same, truthy, symbol, and every action is a buy or a
      sell with a non-empty amount and no recipient. */
  lemma ConvertedShape(flow: SaveRequest, nowMs: nat, vaultEnv: string)
    requires ConvertFlowToExecutionFormat(flow, nowMs, vaultEnv).Some?
    ensures var s := ConvertFlowToExecutionFormat(flow, nowMs, vaultEnv).value;
      (forall i :: 0 <= i < |s.conditions| ==>
         s.conditions[i].kind == "price" && Truthy(s.conditions[i].parameter) &&
         s.conditions[i].parameter == s.conditions[0].parameter) &&
      (forall i :: 0 <= i < |s.actions| ==>
         (s.actions[i].kind == "buy" || s.actions[i].kind == "sell") &&
         s.actions[i].amount != "" && s.actions[i].recipient.None?)
  {
    var s := ConvertFlowToExecutionFormat(flow, nowMs, vaultEnv).value;
    var actionNodes := Select(flow.nodes, {"buy", "sell"});
    forall i | 0 <= i < |s.actions| ensures s.actions[i].kind == "buy" || s.actions[i].kind == "sell" {
      assert s.actions[i].kind == actionNodes[i].nodeType;
      assert actionNodes[i] in actionNodes;
    }
  }

  /** Once deployed, such a strategy's conditions read only the price
      oracle: all hold exactly when every price reading succeeds and
      compares true against `Number(value)`. */
  lemma ConvertedConditionsReadPrice(flow: SaveRequest, nowMs: nat, vaultEnv: string, env: E.Env)
    requires ConvertFlowToExecutionFormat(flow, nowMs, vaultEnv).Some?
    ensures var cs := ConvertFlowToExecutionFormat(flow, nowMs, vaultEnv).value.conditions;
      E.AllConditionsHold(cs, env) <==>
        forall i :: 0 <= i < |cs| ==>
          env.price(cs[i].parameter).Some? &&
          E.CompareValues(env.price(cs[i].parameter).value, cs[i].operator, ToNumber(cs[i].value))
  {
    var cs := ConvertFlowToExecutionFormat(flow, nowMs, vaultEnv).value.conditions;
    assert forall i :: 0 <= i < |cs| ==> cs[i].kind == "price" by {
      ConvertedShape(flow, nowMs, vaultEnv);
    }
    PriceConditionsHold(cs, env);
  }

  /** Price conditions all hold exactly when each price reading succeeds
      and compares true. */
  lemma PriceConditionsHold(cs: seq<E.StrategyCondition>, env: E.Env)
    requires forall i :: 0 <= i < |cs| ==> cs[i].kind == "price"
    ensures E.AllConditionsHold(cs, env) <==>
      forall i :: 0 <= i < |cs| ==>
        env.price(cs[i].parameter).Some? &&
        E.CompareValues(env.price(cs[i].parameter).value, cs[i].operator, ToNumber(cs[i].value))
  {
  }

  /** One condition node converts to one condition. */
  lemma OneCondition(trigger: Params, c: StrategyNode)
    requires c.params.Some?
    ensures ConvertConditions(Some(trigger), [c]) == Some([ConditionOf(trigger, c.params.value)])
  {
    assert [c][1..] == [];
    assert ConvertConditions(Some(trigger), [c][1..]) == Some([]);
    assert [c][0] == c;
    assert [ConditionOf(trigger, c.params.value)] + [] == [ConditionOf(trigger, c.params.value)];
  }

  /** One buy/sell node converts to one action. */
  lemma OneAction(b: StrategyNode)
    requires b.params.Some?
    ensures ConvertActions([b]) == Some([ActionOf(b.nodeType, b.params.value)])
  {
    assert [b][1..] == [];
    assert ConvertActions([b][1..]) == Some([]);
    assert [b][0] == b;
    assert [ActionOf(b.nodeType, b.params.value)] + [] == [ActionOf(b.nodeType, b.params.value)];
  }

  /** In a trigger, a condition and a buy node, each kind is found once. */
  lemma ThreeNodesSplit(t: StrategyNode, c: StrategyNode, b: StrategyNode)
    requires t.nodeType == "trigger" && c.nodeType == "condition" && b.nodeType == "buy"
    ensures FindNode([t, c, b], "trigger") == Some(t)
    ensures Select([t, c, b], {"condition"}) == [c]
    ensures Select([t, c, b], {"buy", "sell"}) == [b]
  {
    var nodes := [t, c, b];
    assert FindIndex(nodes, "trigger") == 0;
    assert nodes[1..] == [c, b] && [c, b][1..] == [b] && [b][1..] == [];
    assert Select([b], {"condition"}) == [] + Select([], {"condition"});
    assert Select([c, b], {"condition"}) == [c] + Select([b], {"condition"});
    assert Select(nodes, {"condition"}) == [] + Select([c, b], {"condition"});
    assert Select([b], {"buy", "sell"}) == [b] + Select([], {"buy", "sell"});
    assert Select([c, b], {"buy", "sell"}) == [] + Select([b], {"buy", "sell"});
    assert Select(nodes, {"buy", "sell"}) == [] + Select([c, b], {"buy", "sell"});
  }

  /** The builder's smallest executable flow, a trigger, a condition and
      a buy node, converts to one condition and one action built from
      their params. */
  lemma ConvertThreeNodes(t: StrategyNode, c: StrategyNode, b: StrategyNode, name: string, nowMs: nat, vaultEnv: string)
    requires t.nodeType == "trigger" && c.nodeType == "condition" && b.nodeType == "buy"
    requires t.params.Some? && c.params.Some? && b.params.Some?
    ensures ConvertFlowToExecutionFormat(SaveRequest(name, [t, c, b]), nowMs, vaultEnv) ==
      Some(E.StrategyExecution(AlgoIdOf(name, nowMs), BACKEND_EXECUTOR,
                               if vaultEnv != "" then vaultEnv else DEFAULT_VAULT,
                               [ConditionOf(t.params.value, c.params.value)],
                               [ActionOf("buy", b.params.value)], true))
  {
    ThreeNodesSplit(t, c, b);
    OneCondition(t.params.value, c);
    OneAction(b);
  }

  lemma ScenarioParams(tp: Params, cp: Params, bp: Params)
    requires tp == map["symbol" := Str("BTC")]
    requires cp == map["operator" := Str("<"), "value" := Num(Dec(30000, 0))]
    requires bp == map["amount" := Str("10")]
    ensures ConditionOf(tp, cp) == E.StrategyCondition("price", Str("BTC"), Str("<"), Num(Dec(30000, 0)))
    ensures ActionOf("buy", bp) == E.StrategyAction("buy", Str("XLM"), "10", None)
  {
    assert Get(tp, "symbol") == Str("BTC");
    assert Get(cp, "operator") == Str("<") && Get(cp, "value") == Num(Dec(30000, 0));
    assert Get(bp, "asset") == Undefined && Get(bp, "amount") == Str("10");
  }

  /** A flow of a trigger, one condition and one buy node, in the shape the
      builder produces, converts to one price condition and one action. */
  method ConvertScenario(nowMs: nat) returns (r: Option<E.StrategyExecution>)
    ensures r.Some? && r.value.algoId == 7 && r.value.active
    ensures r.value.conditions == [E.StrategyCondition("price", Str("BTC"), Str("<"), Num(Dec(30000, 0)))]
    ensures r.value.actions == [E.StrategyAction("buy", Str("XLM"), "10", None)]
  {
    var tp := map["symbol" := Str("BTC")];
    var cp := map["operator" := Str("<"), "value" := Num(Dec(30000, 0))];
    var bp := map["amount" := Str("10")];
    var name := "Strategy 7";
    assert name == "Strategy " + NatToDigits(7);
    AlgoIdFromName("Strategy ", 7, nowMs);
    ConvertThreeNodes(StrategyNode("1", "trigger", Some(tp)), StrategyNode("2", "condition", Some(cp)),
                      StrategyNode("3", "buy", Some(bp)), name, nowMs, "");
    ScenarioParams(tp, cp, bp);
    r := ConvertFlowToExecutionFormat(SaveRequest(name, [StrategyNode("1", "trigger", Some(tp)),
                                      StrategyNode("2", "condition", Some(cp)), StrategyNode("3", "buy", Some(bp))]), nowMs, "");
  }
}
