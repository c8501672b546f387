/** The platform's backend execution engine: a registry of strategies keyed
    by algo id, a monitoring switch, and the evaluator that decides, on each
    tick, which active strategies have all their conditions met and so get
    a `spend_for_execution` call on their vault.

    The registry is a JavaScript `Map`, which iterates in insertion order;
    it is modelled as the sequence of its entries in that order, with
    distinct algo ids. The interval timer is the `monitoring` flag. The
    price and threshold readings, which the engine does not yet implement,
    come from oracles in `Env`; the clock is `Env.nowMs`. */
module ExecutionEngine {
  import opened Soroban
  import opened Js

  /** One condition as the engine receives it. `kind` is `type`. */
  datatype StrategyCondition = StrategyCondition(kind: string, parameter: JsValue, operator: JsValue, value: JsValue)

  /** One action; `kind` is `type`, and an absent recipient is `None`. */
  datatype StrategyAction = StrategyAction(kind: string, asset: JsValue, amount: string, recipient: Option<string>)

  datatype StrategyExecution = StrategyExecution(
    algoId: int,
    creatorAddress: string,
    vaultAddress: string,
    conditions: seq<StrategyCondition>,
    actions: seq<StrategyAction>,
    active: bool)

  /** What the engine reads from the outside world during one check: the
      clock in milliseconds, and the current price of, or threshold value
      for, a condition's parameter. `None` is a reading that threw. */
  datatype Env = Env(nowMs: nat, price: JsValue -> Option<Number>, threshold: JsValue -> Option<Number>)

  /** What `getStatus` returns. */
  datatype Status = Status(isMonitoring: bool, activeStrategies: nat, strategies: seq<StrategyExecution>)

  /** The arguments of the `spend_for_execution` call that `executeStrategy`
      prepares: the vault contract, then recipient, amount, purpose. The
      transaction hash argument is built from the clock and left out. */
  datatype SpendCall = SpendCall(contract: string, to: string, amount: string, purpose: string)

  const DEFAULT_EXECUTOR: string := "GBOQA7EK4NYZNQU2OQVTZ4VBOW6ZTHO4IICW5KREIHGORBJASQDHILBR"

  // ---- condition evaluation ----

  predicate IsOperator(op: JsValue) {
    op == Str(">") || op == Str("<") || op == Str("=") || op == Str(">=") || op == Str("<=")
  }

  /** `compareValues`: JavaScript's comparisons, under which NaN compares
      false with everything; an unknown operator is false. */
  function CompareValues(current: Number, op: JsValue, target: Number): (r: bool)
    ensures r ==> current.Dec? && target.Dec? && IsOperator(op)
    ensures current.Dec? && target.Dec? && op == Str(">") ==> (r <==> Value(current) > Value(target))
    ensures current.Dec? && target.Dec? && op == Str("<") ==> (r <==> Value(current) < Value(target))
    ensures current.Dec? && target.Dec? && op == Str("=") ==> (r <==> Value(current) == Value(target))
    ensures current.Dec? && target.Dec? && op == Str(">=") ==> (r <==> Value(current) >= Value(target))
    ensures current.Dec? && target.Dec? && op == Str("<=") ==> (r <==> Value(current) <= Value(target))
  {
    if current.NaN? || target.NaN? then false
    else if op == Str(">") then Value(current) > Value(target)
    else if op == Str("<") then Value(current) < Value(target)
    else if op == Str("=") then Value(current) == Value(target)
    else if op == Str(">=") then Value(current) >= Value(target)
    else if op == Str("<=") then Value(current) <= Value(target)
    else false
  }

  /** Between two numbers, `>` and `<=` are complements, so are `<` and
      `>=`, and `=` is `>=` and `<=` together; with NaN on either side
      every operator is false. */
  lemma CompareLaws(current: Number, target: Number)
    ensures current.Dec? && target.Dec? ==>
      (CompareValues(current, Str(">"), target) <==> !CompareValues(current, Str("<="), target)) &&
      (CompareValues(current, Str("<"), target) <==> !CompareValues(current, Str(">="), target)) &&
      (CompareValues(current, Str("="), target) <==>
         CompareValues(current, Str(">="), target) && CompareValues(current, Str("<="), target))
    ensures current.NaN? || target.NaN? ==> forall op :: !CompareValues(current, op, target)
  {
  }

  /** `evaluateTimeCondition`: the clock in whole seconds, rounded down,
      against `Number(value)`. */
  function EvaluateTimeCondition(c: StrategyCondition, nowMs: nat): (r: bool)
    ensures r ==> ToNumber(c.value).Dec? && IsOperator(c.operator)
  {
    CompareValues(Dec(nowMs / 1000, 0), c.operator, ToNumber(c.value))
  }

  /** With a numeric target, each of the five operators compares the clock's
      whole seconds with the target. */
  lemma TimeConditionSeconds(c: StrategyCondition, nowMs: nat)
    requires ToNumber(c.value).Dec?
    ensures c.operator == Str(">") ==>
      (EvaluateTimeCondition(c, nowMs) <==> (nowMs / 1000) as real > Value(ToNumber(c.value)))
    ensures c.operator == Str("<") ==>
      (EvaluateTimeCondition(c, nowMs) <==> (nowMs / 1000) as real < Value(ToNumber(c.value)))
    ensures c.operator == Str("=") ==>
      (EvaluateTimeCondition(c, nowMs) <==> (nowMs / 1000) as real == Value(ToNumber(c.value)))
    ensures c.operator == Str(">=") ==>
      (EvaluateTimeCondition(c, nowMs) <==> (nowMs / 1000) as real >= Value(ToNumber(c.value)))
    ensures c.operator == Str("<=") ==>
      (EvaluateTimeCondition(c, nowMs) <==> (nowMs / 1000) as real <= Value(ToNumber(c.value)))
  {
    assert Value(Dec(nowMs / 1000, 0)) == (nowMs / 1000) as real;
  }

  /** Once a `>=` time condition is met, it stays met as the clock moves on. */
  lemma TimeConditionStays(c: StrategyCondition, earlier: nat, later: nat)
    requires c.operator == Str(">=") && earlier <= later
    requires EvaluateTimeCondition(c, earlier)
    ensures EvaluateTimeCondition(c, later)
  {
    TimeConditionSeconds(c, earlier);
    TimeConditionSeconds(c, later);
    assert (earlier / 1000) as real <= (later / 1000) as real by { DivMonotone(earlier, later); }
  }

  lemma DivMonotone(a: nat, b: nat)
    requires a <= b
    ensures a / 1000 <= b / 1000
  {
  }

  /** A `>=` time condition on a whole number of seconds t is met exactly
      from millisecond 1000·t on, and a `<` one exactly before it. */
  lemma TimeConditionReached(nowMs: nat, parameter: JsValue, t: int)
    ensures EvaluateTimeCondition(StrategyCondition("time", parameter, Str(">="), Num(Dec(t, 0))), nowMs) <==>
            nowMs >= 1000 * t
    ensures EvaluateTimeCondition(StrategyCondition("time", parameter, Str("<"), Num(Dec(t, 0))), nowMs) <==>
            nowMs < 1000 * t
  {
    var secs := nowMs / 1000;
    assert Value(Dec(secs, 0)) == secs as real;
    assert Value(Dec(t, 0)) == t as real;
    assert secs >= t <==> nowMs >= 1000 * t;
  }

  /** `evaluateCondition`: dispatch on the kind; an unknown kind, or a
      reading that throws, gives false. */
  function EvaluateCondition(c: StrategyCondition, env: Env): (r: bool)
    ensures c.kind != "price" && c.kind != "time" && c.kind != "threshold" ==> !r
    ensures c.kind == "price" && env.price(c.parameter).None? ==> !r
    ensures c.kind == "threshold" && env.threshold(c.parameter).None? ==> !r
    ensures c.kind == "price" && env.price(c.parameter).Some? ==>
      (r <==> CompareValues(env.price(c.parameter).value, c.operator, ToNumber(c.value)))
    ensures c.kind == "threshold" && env.threshold(c.parameter).Some? ==>
      (r <==> CompareValues(env.threshold(c.parameter).value, c.operator, ToNumber(c.value)))
    ensures c.kind == "time" ==> r == EvaluateTimeCondition(c, env.nowMs)
    ensures r ==> IsOperator(c.operator)
  {
    if c.kind == "price" then
      match env.price(c.parameter)
      case None => false
      case Some(p) => CompareValues(p, c.operator, ToNumber(c.value))
    else if c.kind == "time" then EvaluateTimeCondition(c, env.nowMs)
    else if c.kind == "threshold" then
      match env.threshold(c.parameter)
      case None => false
      case Some(v) => CompareValues(v, c.operator, ToNumber(c.value))
    else false
  }

  /** Every condition of the list holds. */
  predicate AllConditionsHold(conditions: seq<StrategyCondition>, env: Env) {
    forall i :: 0 <= i < |conditions| ==> EvaluateCondition(conditions[i], env)
  }

  /** The strategies of `es`, in order, that a check executes. */
  function Due(es: seq<StrategyExecution>, env: Env): (r: seq<StrategyExecution>)
    ensures |r| <= |es|
  {
    if es == [] then []
    else (if es[0].active && AllConditionsHold(es[0].conditions, env) then [es[0]] else []) + Due(es[1..], env)
  }

  /** A strategy is due exactly when it is registered, active and all its
      conditions hold. */
  lemma {:induction false} DueMembers(es: seq<StrategyExecution>, env: Env, s: StrategyExecution)
    ensures s in Due(es, env) <==> s in es && s.active && AllConditionsHold(s.conditions, env)
  {
    if es != [] {
      DueMembers(es[1..], env, s);
      assert es == [es[0]] + es[1..];
    }
  }

  /** The call `executeStrategy` prepares: the first action's recipient,
      unless absent or empty, else the executor; its amount, unless empty,
      else "0"; and a purpose naming the algo id. */
  function SpendRequest(s: StrategyExecution, executor: string): (c: SpendCall)
    ensures c.contract == s.vaultAddress
    ensures c.to == (if |s.actions| > 0 && s.actions[0].recipient.Some? && s.actions[0].recipient.value != ""
                     then s.actions[0].recipient.value else executor)
    ensures c.amount == (if |s.actions| > 0 && s.actions[0].amount != "" then s.actions[0].amount else "0")
    ensures c.amount != ""
    ensures |c.purpose| >= |PURPOSE_PREFIX|
    ensures c.purpose[..|PURPOSE_PREFIX|] == PURPOSE_PREFIX
    ensures StringToNumber(c.purpose[|PURPOSE_PREFIX|..]) == Dec(s.algoId, 0)
  {
    var first := if |s.actions| > 0 then Some(s.actions[0]) else None;
    var to := if first.Some? && first.value.recipient.Some? && first.value.recipient.value != ""
              then first.value.recipient.value else executor;
    var amount := if first.Some? && first.value.amount != "" then first.value.amount else "0";
    PurposeNamesAlgo(s.algoId);
    SpendCall(s.vaultAddress, to, amount, Purpose(s.algoId))
  }

  const PURPOSE_PREFIX: string := "Strategy execution for algo "

  function Purpose(algoId: int): string {
    PURPOSE_PREFIX + NumberToString(Dec(algoId, 0))
  }

  /** The algo id can be read back from the purpose text. */
  lemma PurposeNamesAlgo(algoId: int)
    ensures |Purpose(algoId)| >= |PURPOSE_PREFIX|
    ensures Purpose(algoId)[..|PURPOSE_PREFIX|] == PURPOSE_PREFIX
    ensures StringToNumber(Purpose(algoId)[|PURPOSE_PREFIX|..]) == Dec(algoId, 0)
  {
    var p := Purpose(algoId);
    assert p[|PURPOSE_PREFIX|..] == NumberToString(Dec(algoId, 0));
    NumberStringRoundTrip(Dec(algoId, 0));
  }

  // ---- the registry: a Map, as its entries in insertion order ----

  /** The algo ids of `es` are pairwise distinct. */
  ghost predicate Distinct(es: seq<StrategyExecution>) {
    forall i, j :: 0 <= i < j < |es| ==> es[i].algoId != es[j].algoId
  }

  /** The index of the first entry with this algo id, or |es|. */
  function Position(es: seq<StrategyExecution>, algoId: int): (k: nat)
    ensures k <= |es|
    ensures k < |es| ==> es[k].algoId == algoId
    ensures forall i :: 0 <= i < k ==> es[i].algoId != algoId
  {
    if es == [] then 0 else if es[0].algoId == algoId then 0 else 1 + Position(es[1..], algoId)
  }

  /** `Map.get(algoId)` */
  function Find(es: seq<StrategyExecution>, algoId: int): (r: Option<StrategyExecution>)
    ensures r.Some? <==> exists i :: 0 <= i < |es| && es[i].algoId == algoId
    ensures r.Some? ==> r.value.algoId == algoId && r.value in es
  {
    var k := Position(es, algoId);
    if k < |es| then Some(es[k]) else None
  }

  /** In a map with distinct ids, each entry is what its id finds. */
  lemma FindEntry(es: seq<StrategyExecution>, i: int)
    requires Distinct(es) && 0 <= i < |es|
    ensures Find(es, es[i].algoId) == Some(es[i])
  {
    var k := Position(es, es[i].algoId);
    assert k <= i;
  }

  /** Two maps with distinct ids and the same entries for one id find the
      same thing for it. */
  lemma FindSame(es: seq<StrategyExecution>, fs: seq<StrategyExecution>, algoId: int)
    requires Distinct(es) && Distinct(fs)
    requires forall e: StrategyExecution :: e.algoId == algoId ==> (e in es <==> e in fs)
    ensures Find(es, algoId) == Find(fs, algoId)
  {
    if Find(es, algoId).Some? {
      var e := Find(es, algoId).value;
      var i :| 0 <= i < |fs| && fs[i] == e;
      FindEntry(fs, i);
      var j :| 0 <= j < |es| && es[j] == e;
      FindEntry(es, j);
    }
    if Find(fs, algoId).Some? {
      var e := Find(fs, algoId).value;
      var j :| 0 <= j < |es| && es[j] == e;
      FindEntry(es, j);
      var i :| 0 <= i < |fs| && fs[i] == e;
      FindEntry(fs, i);
    }
  }

  /** Position is fixed by what it ensures: the first match, or |es|. */
  lemma PositionUnique(es: seq<StrategyExecution>, algoId: int, k: nat)
    requires k <= |es| && (k < |es| ==> es[k].algoId == algoId)
    requires forall i :: 0 <= i < k ==> es[i].algoId != algoId
    ensures Position(es, algoId) == k
  {
  }

  /** Replacing an entry by one with the same id keeps the ids distinct and
      every other id's lookup. */
  lemma FindAfterReplace(es: seq<StrategyExecution>, k: int, s: StrategyExecution)
    requires Distinct(es) && 0 <= k < |es| && es[k].algoId == s.algoId
    ensures Distinct(es[k := s])
    ensures forall id :: id != s.algoId ==> Find(es[k := s], id) == Find(es, id)
  {
    var fs := es[k := s];
    forall id | id != s.algoId ensures Find(fs, id) == Find(es, id) {
      var p := Position(es, id);
      assert p != k;
      PositionUnique(fs, id, p);
    }
  }

  /** Appending an entry with a new id keeps the ids distinct and every
      other id's lookup. */
  lemma FindAfterAppend(es: seq<StrategyExecution>, s: StrategyExecution)
    requires Distinct(es) && Find(es, s.algoId).None?
    ensures Distinct(es + [s])
    ensures forall id :: id != s.algoId ==> Find(es + [s], id) == Find(es, id)
  {
    var fs := es + [s];
    forall id | id != s.algoId ensures Find(fs, id) == Find(es, id) {
      var p := Position(es, id);
      if p < |es| {
        PositionUnique(fs, id, p);
      } else {
        PositionUnique(fs, id, |fs|);
      }
    }
  }

  /** `es` without the entry for `algoId`, the others in their order. */
  function Without(es: seq<StrategyExecution>, algoId: int): (r: seq<StrategyExecution>)
    ensures forall e :: e in r <==> e in es && e.algoId != algoId
  {
    if es == [] then []
    else (if es[0].algoId == algoId then [] else [es[0]]) + Without(es[1..], algoId)
  }

  /** A non-empty sequence, alone and followed by another, seen from its head. */
  lemma SplitHead<T>(a: seq<T>, b: seq<T>)
    requires a != []
    ensures a == [a[0]] + a[1..] && a + b == [a[0]] + (a[1..] + b)
  {
  }

  lemma Regroup<T>(x: seq<T>, y: seq<T>, z: seq<T>)
    ensures x + (y + z) == (x + y) + z
  {
  }

  /** Deleting from an entry followed by the rest. */
  lemma WithoutCons(e: StrategyExecution, rest: seq<StrategyExecution>, algoId: int)
    ensures Without([e] + rest, algoId) == (if e.algoId == algoId then [] else [e]) + Without(rest, algoId)
  {
    var es := [e] + rest;
    assert es[0] == e && es[1..] == rest;
  }

  /** A single entry is dropped exactly when it has the id. */
  lemma WithoutOne(e: StrategyExecution, algoId: int)
    ensures Without([e], algoId) == if e.algoId == algoId then [] else [e]
  {
    WithoutCons(e, [], algoId);
    assert [e] + [] == [e];
  }

  /** Deleting distributes over concatenation: the remaining entries of two
      parts, in the parts' order. */
  lemma {:induction false} WithoutAppend(a: seq<StrategyExecution>, b: seq<StrategyExecution>, algoId: int)
    ensures Without(a + b, algoId) == Without(a, algoId) + Without(b, algoId)
    decreases |a|
  {
    if a == [] {
      assert a + b == b;
    } else {
      var t := a[1..];
      var h: seq<StrategyExecution> := if a[0].algoId == algoId then [] else [a[0]];
      SplitHead(a, b);
      WithoutCons(a[0], t + b, algoId);
      WithoutCons(a[0], t, algoId);
      WithoutAppend(t, b, algoId);
      Regroup(h, Without(t, algoId), Without(b, algoId));
    }
  }

  /** The entries before and after position p, around the one at p. */
  lemma SpliceParts(es: seq<StrategyExecution>, p: int)
    requires 0 <= p < |es|
    ensures es == es[..p] + ([es[p]] + es[p + 1..])
  {
  }

  /** Deleting the id of an entry that sits between two runs free of that id
      leaves the two runs, joined. */
  lemma WithoutAround(before: seq<StrategyExecution>, e: StrategyExecution, after: seq<StrategyExecution>)
    requires forall i :: 0 <= i < |before| ==> before[i].algoId != e.algoId
    requires forall i :: 0 <= i < |after| ==> after[i].algoId != e.algoId
    ensures Without(before + ([e] + after), e.algoId) == before + after
  {
    var id := e.algoId;
    WithoutAppend(before, [e] + after, id);
    WithoutCons(e, after, id);
    WithoutFree(before, id);
    WithoutFree(after, id);
    assert [] + after == after;
  }

  /** In a map with distinct ids, deleting a present id cuts out exactly its
      entry: the ones before it and the ones after it stay, in order. */
  lemma WithoutSplice(es: seq<StrategyExecution>, algoId: int)
    requires Distinct(es) && Position(es, algoId) < |es|
    ensures var p := Position(es, algoId); Without(es, algoId) == es[..p] + es[p + 1..]
  {
    var p := Position(es, algoId);
    var before, after := es[..p], es[p + 1..];
    forall i | 0 <= i < |after| ensures after[i].algoId != algoId {
      assert after[i] == es[p + 1 + i] && es[p].algoId == algoId;
    }
    SpliceParts(es, p);
    WithoutAround(before, es[p], after);
  }

  /** An entry whose id is not among those of a distinct list can go in
      front of it. */
  lemma DistinctCons(e: StrategyExecution, w: seq<StrategyExecution>)
    requires Distinct(w) && forall x :: x in w ==> x.algoId != e.algoId
    ensures Distinct([e] + w)
  {
    var r := [e] + w;
    forall i, j | 0 <= i < j < |r| ensures r[i].algoId != r[j].algoId {
      assert r[j] == w[j - 1];
      if i > 0 { assert r[i] == w[i - 1]; }
    }
  }

  /** Removing from a map with distinct ids keeps them distinct. */
  lemma {:induction false} WithoutDistinct(es: seq<StrategyExecution>, algoId: int)
    requires Distinct(es)
    ensures Distinct(Without(es, algoId))
  {
    if es != [] {
      var rest := es[1..];
      assert Distinct(rest);
      WithoutDistinct(rest, algoId);
      if es[0].algoId != algoId {
        var w := Without(rest, algoId);
        forall x | x in w ensures x.algoId != es[0].algoId {
          var j :| 0 <= j < |rest| && rest[j] == x;
          assert es[j + 1] == x;
        }
        DistinctCons(es[0], w);
      }
    }
  }

  /** Removing an id no entry carries changes nothing. */
  lemma WithoutFree(es: seq<StrategyExecution>, algoId: int)
    requires forall i :: 0 <= i < |es| ==> es[i].algoId != algoId
    ensures Without(es, algoId) == es
  {
    assert Find(es, algoId).None?;
    WithoutAbsent(es, algoId);
  }

  /** Removing an id that is absent changes nothing. */
  lemma {:induction false} WithoutAbsent(es: seq<StrategyExecution>, algoId: int)
    requires Find(es, algoId).None?
    ensures Without(es, algoId) == es
  {
    if es != [] {
      assert es[0].algoId != algoId;
      assert Find(es[1..], algoId).None? by {
        forall i | 0 <= i < |es[1..]| ensures es[1..][i].algoId != algoId {
          assert es[1..][i] == es[i + 1];
        }
      }
      WithoutAbsent(es[1..], algoId);
      assert es == [es[0]] + es[1..];
    }
  }

  /** Removing shortens a map with distinct ids by one exactly when the id
      was present. */
  lemma WithoutLength(es: seq<StrategyExecution>, algoId: int)
    requires Distinct(es)
    ensures |Without(es, algoId)| == |es| - (if Find(es, algoId).Some? then 1 else 0)
  {
    if Find(es, algoId).Some? {
      WithoutSplice(es, algoId);
    } else {
      WithoutAbsent(es, algoId);
    }
  }

  /** The engine. The `Map` of strategies is `entries`, in insertion order;
      the interval handle is `monitoring`; `executor` is the backend
      executor address, from the environment or the built-in default. */
  class BackendExecutionEngine {
    const executor: string
    var monitoring: bool
    var entries: seq<StrategyExecution>

    ghost predicate Valid()
      reads this
    {
      Distinct(entries)
    }

    /** A new engine: stopped, no strategies. An empty configured executor
        address falls back to the default. */
    constructor (configuredExecutor: string)
      ensures executor == if configuredExecutor != "" then configuredExecutor else DEFAULT_EXECUTOR
      ensures !monitoring && entries == []
      ensures Valid()
    {
      executor := if configuredExecutor != "" then configuredExecutor else DEFAULT_EXECUTOR;
      monitoring := false;
      entries := [];
    }

    /** `monitoringStrategies.get(algoId)` */
    function Lookup(algoId: int): Option<StrategyExecution>
      reads this
    {
      Find(entries, algoId)
    }

    /** `startMonitoring`: a no-op when already monitoring; otherwise the
        interval starts. `started` tells which happened. Loading strategies
        from the registry is not implemented by the engine, so the entries
        stay as they are. */
    method StartMonitoring() returns (started: bool)
      modifies this`monitoring
      ensures started <==> !old(monitoring)
      ensures monitoring
    {
      if monitoring {
        return false;
      }
      monitoring := true;
      started := true;
    }

    /** `stopMonitoring`: clears the interval; a no-op when stopped. */
    method StopMonitoring() returns (stopped: bool)
      modifies this`monitoring
      ensures stopped <==> old(monitoring)
      ensures !monitoring
    {
      stopped := monitoring;
      monitoring := false;
    }

    /** `addStrategy`: `Map.set` by algo id. A new id goes at the end; an
        existing one is replaced where it stands. Other ids are untouched. */
    method AddStrategy(s: StrategyExecution)
      requires Valid()
      modifies this`entries
      ensures Valid()
      ensures Lookup(s.algoId) == Some(s)
      ensures forall id :: id != s.algoId ==> Lookup(id) == old(Lookup(id))
      ensures old(Lookup(s.algoId)).None? ==> entries == old(entries) + [s]
      ensures old(Lookup(s.algoId)).Some? ==>
        |entries| == |old(entries)| && entries == old(entries)[Position(old(entries), s.algoId) := s]
    {
      var k := Position(entries, s.algoId);
      var before := entries;
      if k < |entries| {
        entries := entries[k := s];
        FindAfterReplace(before, k, s);
        FindEntry(entries, k);
      } else {
        entries := entries + [s];
        FindAfterAppend(before, s);
        FindEntry(entries, |entries| - 1);
      }
    }

    /** `removeStrategy`: `Map.delete`; a no-op for an absent id. The
        remaining entries keep their order. */
    method RemoveStrategy(algoId: int)
      requires Valid()
      modifies this`entries
      ensures Valid()
      ensures entries == Without(old(entries), algoId)
      ensures Lookup(algoId).None?
      ensures old(Lookup(algoId)).None? ==> entries == old(entries)
      ensures forall id :: id != algoId ==> Lookup(id) == old(Lookup(id))
      ensures |entries| == |old(entries)| - (if old(Lookup(algoId)).Some? then 1 else 0)
    {
      var before := entries;
      WithoutDistinct(entries, algoId);
      WithoutLength(entries, algoId);
      if Lookup(algoId).None? {
        WithoutAbsent(entries, algoId);
      }
      entries := Without(entries, algoId);
      forall id | id != algoId ensures Lookup(id) == old(Lookup(id)) {
        FindSame(before, entries, id);
      }
    }

    /** `getStatus`: whether the interval is set, the size of the map
        (inactive strategies count too) and its values in insertion order. */
    function GetStatus(): (r: Status)
      reads this
      ensures r.isMonitoring == monitoring
      ensures r.activeStrategies == |r.strategies|
      ensures r.strategies == entries
    {
      Status(monitoring, |entries|, entries)
    }

    /** `evaluateStrategyConditions`: the conditions in order, stopping at
        the first false one. `evaluated` is how many were looked at. */
    method EvaluateStrategyConditions(s: StrategyExecution, env: Env) returns (r: bool, evaluated: nat)
      ensures r <==> AllConditionsHold(s.conditions, env)
      ensures r ==> evaluated == |s.conditions|
      ensures !r ==> 1 <= evaluated <= |s.conditions| && !EvaluateCondition(s.conditions[evaluated - 1], env)
      ensures forall i :: 0 <= i < evaluated - 1 ==> EvaluateCondition(s.conditions[i], env)
    {
      evaluated := 0;
      while evaluated < |s.conditions|
        invariant evaluated <= |s.conditions|
        invariant forall i :: 0 <= i < evaluated ==> EvaluateCondition(s.conditions[i], env)
      {
        var ok := EvaluateCondition(s.conditions[evaluated], env);
        evaluated := evaluated + 1;
        if !ok {
          return false, evaluated;
        }
      }
      r := true;
    }

    /** `checkAndExecuteStrategies`: walks the map in insertion order,
        skipping inactive strategies, and prepares the execution of each
        one whose conditions all hold. Nothing in the engine changes. */
    method CheckAndExecuteStrategies(env: Env) returns (calls: seq<SpendCall>)
      ensures |calls| == |Due(entries, env)|
      ensures forall k :: 0 <= k < |calls| ==> calls[k] == SpendRequest(Due(entries, env)[k], executor)
    {
      calls := [];
      var i := 0;
      while i < |entries|
        invariant i <= |entries|
        invariant calls == Requests(Due(entries[..i], env), executor)
      {
        var s := entries[i];
        var due := false;
        if s.active {
          var evaluated;
          due, evaluated := EvaluateStrategyConditions(s, env);
        }
        PrefixSnoc(entries, i);
        DueSnoc(entries[..i], s, env);
        if due {
          RequestsSnoc(Due(entries[..i], env), s, executor);
          calls := calls + [SpendRequest(s, executor)];
        } else {
          assert Due(entries[..i], env) + [] == Due(entries[..i], env);
        }
        i := i + 1;
      }
      assert entries[..i] == entries;
      RequestsIndex(Due(entries, env), executor);
    }
  }

  /** The calls for a list of due strategies, in order. */
  ghost function Requests(d: seq<StrategyExecution>, executor: string): seq<SpendCall> {
    if d == [] then [] else Requests(d[..|d| - 1], executor) + [SpendRequest(d[|d| - 1], executor)]
  }

  lemma RequestsSnoc(d: seq<StrategyExecution>, s: StrategyExecution, executor: string)
    ensures Requests(d + [s], executor) == Requests(d, executor) + [SpendRequest(s, executor)]
  {
    assert (d + [s])[..|d|] == d;
  }

  lemma {:induction false} RequestsIndex(d: seq<StrategyExecution>, executor: string)
    ensures |Requests(d, executor)| == |d|
    ensures forall k :: 0 <= k < |d| ==> Requests(d, executor)[k] == SpendRequest(d[k], executor)
  {
    if d != [] {
      var front := d[..|d| - 1];
      var r := Requests(front, executor);
      RequestsIndex(front, executor);
      var last := SpendRequest(d[|d| - 1], executor);
      assert Requests(d, executor) == r + [last];
      forall k | 0 <= k < |d| ensures (r + [last])[k] == SpendRequest(d[k], executor) {
        if k < |front| {
          assert (r + [last])[k] == r[k];
          assert front[k] == d[k];
        } else {
          assert (r + [last])[k] == last;
        }
      }
    }
  }

  /** Due over a list grown by one entry. */
  lemma {:induction false} DueSnoc(es: seq<StrategyExecution>, s: StrategyExecution, env: Env)
    ensures Due(es + [s], env) ==
            Due(es, env) + (if s.active && AllConditionsHold(s.conditions, env) then [s] else [])
  {
    var last := if s.active && AllConditionsHold(s.conditions, env) then [s] else [];
    if es == [] {
      assert [s][1..] == [];
      assert Due([s], env) == last + [];
    } else {
      var h := es[0];
      var first := if h.active && AllConditionsHold(h.conditions, env) then [h] else [];
      SnocParts(es, s);
      DueSnoc(es[1..], s, env);
      assert Due(es + [s], env) == first + Due(es[1..] + [s], env);
      assert first + (Due(es[1..], env) + last) == (first + Due(es[1..], env)) + last;
    }
  }

  /** A prefix grown by the next entry; the whole list is its longest prefix. */
  lemma PrefixSnoc(es: seq<StrategyExecution>, i: int)
    requires 0 <= i < |es|
    ensures es[..i + 1] == es[..i] + [es[i]] && es[..|es|] == es
  {
  }

  /** The head and the tail of a list grown by one entry. */
  lemma SnocParts(es: seq<StrategyExecution>, s: StrategyExecution)
    requires es != []
    ensures (es + [s])[0] == es[0] && (es + [s])[1..] == es[1..] + [s]
  {
  }

  /** Starting twice starts once; stopping a stopped engine changes nothing. */
  method StartTwiceScenario() returns (first: bool, second: bool, stopped: bool, again: bool, status: Status)
    ensures first && !second
    ensures stopped && !again
    ensures !status.isMonitoring && status.activeStrategies == 0
  {
    var engine := new BackendExecutionEngine("");
    first := engine.StartMonitoring();
    second := engine.StartMonitoring();
    stopped := engine.StopMonitoring();
    again := engine.StopMonitoring();
    status := engine.GetStatus();
  }

  /** Adding two strategies counts two, and re-adding one, now inactive,
      keeps its place and the count. */
  method AddScenario(a: StrategyExecution, b: StrategyExecution, b2: StrategyExecution)
    returns (afterTwo: Status, afterReplace: Status)
    requires a.algoId != b.algoId && b2.algoId == b.algoId && !b2.active
    ensures afterTwo.activeStrategies == 2 && afterTwo.strategies == [a, b]
    ensures afterReplace.activeStrategies == 2 && afterReplace.strategies == [a, b2]
  {
    TwoIds(a, b, b2);
    var engine := new BackendExecutionEngine("");
    engine.AddStrategy(a);
    engine.AddStrategy(b);
    afterTwo := engine.GetStatus();
    engine.AddStrategy(b2);
    afterReplace := engine.GetStatus();
  }

  /** The lists AddScenario passes through. */
  lemma TwoIds(a: StrategyExecution, b: StrategyExecution, b2: StrategyExecution)
    requires a.algoId != b.algoId && b2.algoId == b.algoId
    ensures Find([], a.algoId).None? && [] + [a] == [a]
    ensures Find([a], b.algoId).None? && [a] + [b] == [a, b]
    ensures Find([a, b], b.algoId).Some? && Position([a, b], b.algoId) == 1
    ensures [a, b][1 := b2] == [a, b2]
  {
    assert Position([a], b.algoId) == 1;
    assert Position([a, b], b.algoId) == 1;
  }

  /** Removing an absent id changes nothing; removing a present one keeps
      the others in order. */
  method RemoveScenario(a: StrategyExecution, b: StrategyExecution, missing: int)
    returns (afterMissing: Status, afterRemove: Status)
    requires a.algoId != b.algoId && missing != a.algoId && missing != b.algoId
    ensures afterMissing.activeStrategies == 2 && afterMissing.strategies == [a, b]
    ensures afterRemove.activeStrategies == 1 && afterRemove.strategies == [b]
  {
    TwoIds(a, b, b);
    RemoveFirst(a, b);
    var engine := new BackendExecutionEngine("");
    engine.AddStrategy(a);
    engine.AddStrategy(b);
    assert Find([a, b], missing).None? by {
      assert Position([a, b], missing) == 2;
    }
    engine.RemoveStrategy(missing);
    afterMissing := engine.GetStatus();
    engine.RemoveStrategy(a.algoId);
    afterRemove := engine.GetStatus();
  }

  /** Removing the first of two entries leaves the second. */
  lemma RemoveFirst(a: StrategyExecution, b: StrategyExecution)
    requires a.algoId != b.algoId
    ensures Without([a, b], a.algoId) == [b]
  {
    assert [a, b][1..] == [b] && [b][1..] == [];
    assert Without([b], a.algoId) == [b] + Without([], a.algoId);
    assert Without([a, b], a.algoId) == [] + Without([b], a.algoId);
  }

  /** All conditions must hold, checked in order: a strategy whose first
      condition has an unknown kind fails after one evaluation, and a price
      of 0.1 is above 0 but not above 1000. */
  method ConditionScenario(base: StrategyExecution, vault: string)
    returns (unknownFirst: bool, probed: nat, above0: bool, above1000: bool)
    ensures !unknownFirst && probed == 1
    ensures above0 && !above1000
  {
    var env := Env(0, _ => Some(Dec(1, 1)), _ => None);
    var price0 := StrategyCondition("price", Str("XLM"), Str(">"), Num(Dec(0, 0)));
    var price1000 := StrategyCondition("price", Str("XLM"), Str(">"), Num(Dec(1000, 0)));
    var unknown := StrategyCondition("volume", Str("XLM"), Str(">"), Num(Dec(0, 0)));
    assert "volume" != "price" && "volume" != "time" && "volume" != "threshold";
    assert !EvaluateCondition(unknown, env);
    assert Value(Dec(1, 1)) == 0.1;
    assert EvaluateCondition(price0, env) && !EvaluateCondition(price1000, env);
    var engine := new BackendExecutionEngine("");
    var s1 := base.(conditions := [unknown, price0]);
    unknownFirst, probed := engine.EvaluateStrategyConditions(s1, env);
    assert s1.conditions[0] == unknown;
    var s2 := base.(conditions := [price0]);
    var count: nat;
    above0, count := engine.EvaluateStrategyConditions(s2, env);
    assert s2.conditions[0] == price0;
    var s3 := base.(conditions := [price1000]);
    above1000, count := engine.EvaluateStrategyConditions(s3, env);
    assert s3.conditions[0] == price1000;
  }
}
