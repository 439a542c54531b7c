/**
 * The validator middleware: for each of the request slots body, params and query, in that
 * order, a configured schema parses the slot's current value and the slot is overwritten
 * with the result; the first failure stops the run, and only a full success calls `next()`.
 */
module Validator {
  import opened JsValues

  /** A schema's `parseAsync`: the parsed (possibly transformed) value, or what it throws. */
  type Parser = Value -> Result<Value, Thrown>

  /** What a field of the route's schema set holds at run time. */
  datatype SchemaSlot =
    | Unset                        // the field is absent (`undefined`)
    | NotSchema(value: Value)      // a value with no `parseAsync` function
    | Schema(parseAsync: Parser)   // a schema object

  /** The route's schema set: one optional schema per slot. */
  datatype RouteSchemas = RouteSchemas(body: SchemaSlot, params: SchemaSlot, query: SchemaSlot)

  datatype SlotName = BodySlot | ParamsSlot | QuerySlot

  /** The order in which the slots are validated. */
  const ORDER: seq<SlotName> := [BodySlot, ParamsSlot, QuerySlot]

  /** The values of a request's three slots. */
  datatype RequestSlots = RequestSlots(body: Value, params: Value, query: Value)

  /** How a run ends: `next()` was called, or the run stopped on a thrown value. */
  datatype Outcome = Next | Fail(error: Thrown)

  /** A run's outcome, the slots it leaves, and the slots whose schema it invoked, in order. */
  datatype Run = Run(outcome: Outcome, slots: RequestSlots, parsed: seq<SlotName>)

  // ---------------------------------------------------------------------------------------
  // isZodSchema
  // ---------------------------------------------------------------------------------------

  predicate SlotTruthy(candidate: SchemaSlot)
  {
    match candidate
    case Unset => false
    case NotSchema(v) => Truthy(v)
    case Schema(_) => true
  }

  /** `typeof candidate.parseAsync === "function"` */
  predicate HasParseFunction(candidate: SchemaSlot)
  {
    candidate.Schema?
  }

  /** `isZodSchema`: a slot is configured when its value is truthy and can parse. */
  function IsZodSchema(candidate: SchemaSlot): (r: bool)
    ensures r <==> candidate.Schema?
  {
    SlotTruthy(candidate) && HasParseFunction(candidate)
  }

  // ---------------------------------------------------------------------------------------
  // Slots by name
  // ---------------------------------------------------------------------------------------

  function SchemaFor(schemas: RouteSchemas, n: SlotName): SchemaSlot
  {
    match n
    case BodySlot => schemas.body
    case ParamsSlot => schemas.params
    case QuerySlot => schemas.query
  }

  function Get(slots: RequestSlots, n: SlotName): Value
  {
    match n
    case BodySlot => slots.body
    case ParamsSlot => slots.params
    case QuerySlot => slots.query
  }

  function Set(slots: RequestSlots, n: SlotName, v: Value): (r: RequestSlots)
    ensures Get(r, n) == v
    ensures forall m :: m != n ==> Get(r, m) == Get(slots, m)
  {
    match n
    case BodySlot => slots.(body := v)
    case ParamsSlot => slots.(params := v)
    case QuerySlot => slots.(query := v)
  }

  predicate Configured(schemas: RouteSchemas, n: SlotName)
  {
    IsZodSchema(SchemaFor(schemas, n))
  }

  /** What the slot's schema makes of the slot's value in `slots`. */
  function ParseSlot(schemas: RouteSchemas, slots: RequestSlots, n: SlotName): Result<Value, Thrown>
    requires Configured(schemas, n)
  {
    SchemaFor(schemas, n).parseAsync(Get(slots, n))
  }

  predicate Fails(schemas: RouteSchemas, slots: RequestSlots, n: SlotName)
  {
    Configured(schemas, n) && ParseSlot(schemas, slots, n).Failure?
  }

  predicate Distinct(names: seq<SlotName>)
  {
    forall i, j :: 0 <= i < j < |names| ==> names[i] != names[j]
  }

  /** The configured slots among `names`, in their order. */
  function ConfiguredAmong(schemas: RouteSchemas, names: seq<SlotName>): (r: seq<SlotName>)
    ensures forall n :: n in r <==> n in names && Configured(schemas, n)
    decreases |names|
  {
    if names == [] then []
    else (if Configured(schemas, names[0]) then [names[0]] else []) + ConfiguredAmong(schemas, names[1..])
  }

  // ---------------------------------------------------------------------------------------
  // The run, slot by slot
  // ---------------------------------------------------------------------------------------

  /** Validates the slots `names` one after the other, stopping at the first failure. */
  function RunSlots(schemas: RouteSchemas, names: seq<SlotName>, slots: RequestSlots): Run
    decreases |names|
  {
    if names == [] then Run(Next, slots, [])
    else
      var n := names[0];
      var schema := SchemaFor(schemas, n);
      if !IsZodSchema(schema) then RunSlots(schemas, names[1..], slots)
      else
        match schema.parseAsync(Get(slots, n))
        case Failure(e) => Run(Fail(e), slots, [n])
        case Success(v) =>
          var rest := RunSlots(schemas, names[1..], Set(slots, n, v));
          Run(rest.outcome, rest.slots, [n] + rest.parsed)
  }

  /** Setting one slot does not change how another slot parses. */
  lemma ParseOtherSlot(schemas: RouteSchemas, slots: RequestSlots, n: SlotName, v: Value, m: SlotName)
    requires m != n && Configured(schemas, m)
    ensures ParseSlot(schemas, Set(slots, n, v), m) == ParseSlot(schemas, slots, m)
  {
  }

  /** A slot that is unconfigured, or not among `names`, is neither parsed nor changed. */
  lemma {:induction false} RunLeavesSlot(schemas: RouteSchemas, names: seq<SlotName>, slots: RequestSlots, m: SlotName)
    requires m !in names || !Configured(schemas, m)
    ensures Get(RunSlots(schemas, names, slots).slots, m) == Get(slots, m)
    ensures m !in RunSlots(schemas, names, slots).parsed
    decreases |names|
  {
    if names != [] {
      var n := names[0];
      assert m !in names[1..] || !Configured(schemas, m);
      if !Configured(schemas, n) {
        RunLeavesSlot(schemas, names[1..], slots, m);
      } else if ParseSlot(schemas, slots, n).Success? {
        var v := ParseSlot(schemas, slots, n).value;
        RunLeavesSlot(schemas, names[1..], Set(slots, n, v), m);
      }
    }
  }

  /** `next()` is reached exactly when no configured slot among `names` fails to parse. */
  lemma {:induction false} RunNextIff(schemas: RouteSchemas, names: seq<SlotName>, slots: RequestSlots)
    requires Distinct(names)
    ensures RunSlots(schemas, names, slots).outcome == Next
        <==> forall k :: 0 <= k < |names| ==> !Fails(schemas, slots, names[k])
    decreases |names|
  {
    if names != [] {
      var n := names[0];
      var tail := names[1..];
      assert Distinct(tail);
      if !Configured(schemas, n) {
        RunNextIff(schemas, tail, slots);
        assert forall k :: 1 <= k < |names| ==> names[k] == tail[k - 1];
      } else if ParseSlot(schemas, slots, n).Success? {
        var v := ParseSlot(schemas, slots, n).value;
        var slots' := Set(slots, n, v);
        RunNextIff(schemas, tail, slots');
        forall k | 0 <= k < |tail|
          ensures Fails(schemas, slots', tail[k]) == Fails(schemas, slots, tail[k])
        {
          assert tail[k] == names[k + 1] != names[0];
        }
        assert forall k :: 1 <= k < |names| ==> names[k] == tail[k - 1];
      } else {
        assert Fails(schemas, slots, names[0]);
      }
    }
  }

  /**
   * On full success every configured slot among `names` holds its schema's output for the
   * value it had before the run, every other slot is unchanged, and each configured slot
   * was parsed once, in order.
   */
  lemma {:induction false} RunSuccess(schemas: RouteSchemas, names: seq<SlotName>, slots: RequestSlots)
    requires Distinct(names)
    requires RunSlots(schemas, names, slots).outcome == Next
    ensures var r := RunSlots(schemas, names, slots);
      && (forall m :: m in names ==> !Fails(schemas, slots, m))
      && r.parsed == ConfiguredAmong(schemas, names)
      && forall m :: Get(r.slots, m) == (if m in names && Configured(schemas, m)
                                         then ParseSlot(schemas, slots, m).value
                                         else Get(slots, m))
    decreases |names|
  {
    RunNextIff(schemas, names, slots);
    if names != [] {
      var n := names[0];
      var tail := names[1..];
      assert Distinct(tail);
      if !Configured(schemas, n) {
        RunSuccess(schemas, tail, slots);
      } else {
        assert !Fails(schemas, slots, names[0]);
        var v := ParseSlot(schemas, slots, n).value;
        var slots' := Set(slots, n, v);
        RunSuccess(schemas, tail, slots');
        RunLeavesSlot(schemas, tail, slots', n);
        forall m | m in tail && Configured(schemas, m)
          ensures ParseSlot(schemas, slots', m) == ParseSlot(schemas, slots, m)
        {
          ParseOtherSlot(schemas, slots, n, v, m);
        }
      }
    }
  }

  /** `names[i]` is the first slot among `names` whose schema rejects its value. */
  predicate IsFirstFailure(schemas: RouteSchemas, slots: RequestSlots, names: seq<SlotName>, i: nat)
  {
    && i < |names|
    && Fails(schemas, slots, names[i])
    && forall j :: 0 <= j < i ==> !Fails(schemas, slots, names[j])
  }

  /** A run that does not reach `next()` has a first failing slot. */
  lemma FailureHasFirst(schemas: RouteSchemas, names: seq<SlotName>, slots: RequestSlots)
    returns (i: nat)
    requires Distinct(names)
    requires RunSlots(schemas, names, slots).outcome.Fail?
    ensures IsFirstFailure(schemas, slots, names, i)
  {
    RunNextIff(schemas, names, slots);
    i := 0;
    while !Fails(schemas, slots, names[i])
      invariant i < |names|
      invariant forall j :: 0 <= j < i ==> !Fails(schemas, slots, names[j])
      invariant exists k :: i <= k < |names| && Fails(schemas, slots, names[k])
      decreases |names| - i
    {
      i := i + 1;
    }
  }

  /**
   * The run stops at the first failing slot `names[i]` and reports its error; it has parsed
   * exactly the configured slots up to and including `names[i]`, and none after it.
   */
  lemma {:induction false} RunStopsAtFirstFailure(schemas: RouteSchemas, names: seq<SlotName>, slots: RequestSlots, i: nat)
    requires Distinct(names)
    requires IsFirstFailure(schemas, slots, names, i)
    ensures var r := RunSlots(schemas, names, slots);
      && r.outcome == Fail(ParseSlot(schemas, slots, names[i]).error)
      && r.parsed == ConfiguredAmong(schemas, names[..i + 1])
    decreases |names|
  {
    var n := names[0];
    var tail := names[1..];
    if i == 0 {
      assert names[..1] == [n];
    } else {
      assert Distinct(tail);
      assert names[..i + 1] == [n] + tail[..i];
      assert !Fails(schemas, slots, n);
      var slots' := if Configured(schemas, n) then Set(slots, n, ParseSlot(schemas, slots, n).value) else slots;
      forall j | 0 <= j < |tail| && Configured(schemas, tail[j])
        ensures ParseSlot(schemas, slots', tail[j]) == ParseSlot(schemas, slots, tail[j])
      {
        assert tail[j] == names[j + 1] != n;
      }
      assert IsFirstFailure(schemas, slots', tail, i - 1) by {
        assert tail[i - 1] == names[i];
        assert forall j :: 0 <= j < i - 1 ==> tail[j] == names[j + 1];
      }
      RunStopsAtFirstFailure(schemas, tail, slots', i - 1);
    }
  }

  /**
   * After a run that stops at the first failing slot `names[i]`, the configured slots before
   * it keep their parsed values (nothing is rolled back), and it and every later slot keep
   * the values they had.
   */
  lemma {:induction false} FailureSlots(schemas: RouteSchemas, names: seq<SlotName>, slots: RequestSlots, i: nat)
    requires Distinct(names)
    requires IsFirstFailure(schemas, slots, names, i)
    ensures var r := RunSlots(schemas, names, slots);
      && (forall j :: 0 <= j < i && Configured(schemas, names[j])
            ==> Get(r.slots, names[j]) == ParseSlot(schemas, slots, names[j]).value)
      && (forall j :: i <= j < |names| ==> Get(r.slots, names[j]) == Get(slots, names[j]))
      && (forall m :: m !in names ==> Get(r.slots, m) == Get(slots, m))
    decreases |names|
  {
    var n := names[0];
    var tail := names[1..];
    if i > 0 {
      assert Distinct(tail);
      assert !Fails(schemas, slots, n);
      var slots' := if Configured(schemas, n) then Set(slots, n, ParseSlot(schemas, slots, n).value) else slots;
      forall j | 0 <= j < |tail| && Configured(schemas, tail[j])
        ensures ParseSlot(schemas, slots', tail[j]) == ParseSlot(schemas, slots, tail[j])
      {
        assert tail[j] == names[j + 1] != n;
      }
      assert forall j :: 0 <= j < |tail| ==> Get(slots', tail[j]) == Get(slots, tail[j]) by {
        assert forall j :: 0 <= j < |tail| ==> tail[j] == names[j + 1] != n;
      }
      assert IsFirstFailure(schemas, slots', tail, i - 1) by {
        assert tail[i - 1] == names[i];
        assert forall j :: 0 <= j < i - 1 ==> tail[j] == names[j + 1];
      }
      FailureSlots(schemas, tail, slots', i - 1);
      RunLeavesSlot(schemas, tail, slots', n);
      assert forall j :: 1 <= j < |names| ==> names[j] == tail[j - 1];
    }
  }

  /** A slot after the first failing one is never parsed. */
  lemma NothingParsedAfterFailure(schemas: RouteSchemas, names: seq<SlotName>, slots: RequestSlots, i: nat, j: nat)
    requires Distinct(names)
    requires IsFirstFailure(schemas, slots, names, i)
    requires i < j < |names|
    ensures names[j] !in RunSlots(schemas, names, slots).parsed
  {
    RunStopsAtFirstFailure(schemas, names, slots, i);
    assert names[j] !in names[..i + 1];
  }

  // ---------------------------------------------------------------------------------------
  // The three slots of a request, in their fixed order
  // ---------------------------------------------------------------------------------------

  /** With no schema configured, `next()` is called and the request is left as it was. */
  lemma NoSchemaPassesThrough(schemas: RouteSchemas, slots: RequestSlots)
    requires !IsZodSchema(schemas.body) && !IsZodSchema(schemas.params) && !IsZodSchema(schemas.query)
    ensures RunSlots(schemas, ORDER, slots) == Run(Next, slots, [])
  {
  }

  /**
   * A failing body schema is the one reported, whatever the params and query schemas would
   * say, and neither params nor query is parsed or changed.
   */
  lemma BodyFailureReportedFirst(schemas: RouteSchemas, slots: RequestSlots)
    requires Fails(schemas, slots, BodySlot)
    ensures RunSlots(schemas, ORDER, slots)
         == Run(Fail(ParseSlot(schemas, slots, BodySlot).error), slots, [BodySlot])
  {
  }

  /** A request's body, params and query, overwritten in place. */
  class Request {
    var body: Value
    var params: Value
    var query: Value

    constructor (body: Value, params: Value, query: Value)
      ensures Slots() == RequestSlots(body, params, query)
    {
      this.body := body;
      this.params := params;
      this.query := query;
    }

    function Slots(): RequestSlots
      reads this
    {
      RequestSlots(body, params, query)
    }
  }

  /**
   * The middleware `validator(schemas)` run on `req`: it overwrites the configured slots in
   * place, in the order body, params, query, and ends in `next()` or in the first thrown
   * value. `parsed` lists the slots whose schema it invoked.
   */
  method Validate(schemas: RouteSchemas, req: Request) returns (outcome: Outcome, ghost parsed: seq<SlotName>)
    modifies req
    ensures Run(outcome, req.Slots(), parsed) == RunSlots(schemas, ORDER, old(req.Slots()))
  {
    parsed := [];
    if IsZodSchema(schemas.body) {
      parsed := parsed + [BodySlot];
      var result := schemas.body.parseAsync(req.body);
      if result.Failure? {
        return Fail(result.error), parsed;
      }
      req.body := result.value;
    }
    if IsZodSchema(schemas.params) {
      parsed := parsed + [ParamsSlot];
      var result := schemas.params.parseAsync(req.params);
      if result.Failure? {
        return Fail(result.error), parsed;
      }
      req.params := result.value;
    }
    if IsZodSchema(schemas.query) {
      parsed := parsed + [QuerySlot];
      var result := schemas.query.parseAsync(req.query);
      if result.Failure? {
        return Fail(result.error), parsed;
      }
      req.query := result.value;
    }
    outcome := Next;
  }
}
