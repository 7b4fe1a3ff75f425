/**
 * The declarative workflow executor of `pypes/pypes/src/workflow.rs`: steps
 * run in order, each calling one function of an instantiated component, its
 * single argument built from a template whose `{{ step.output }}` placeholders
 * name earlier steps' recorded outputs.
 *
 * The wasm side is a parameter: which components are instantiated, which
 * functions they export (with their signatures), what a call returns, and the
 * JSON parser and printer of `serde_json`.
 */
module WorkflowEngine {
  import opened Wrappers
  import opened Strings
  import opened Analyser
  import opened ComponentJson
  import opened Template

  // ---------------------------------------------------------------------------
  // Steps
  // ---------------------------------------------------------------------------

  /** Where a step's function is looked up: at the root, or inside an exported interface. */
  datatype FuncRef = Root(name: string) | Nested(iface: string, name: string)

  /** A function name with a `.` is split at the first one into interface and function. */
  function FuncRefOf(func: string): (r: FuncRef)
    ensures r.Root? <==> '.' !in func
    ensures r.Root? ==> r.name == func
    ensures r.Nested? ==> func == r.iface + "." + r.name && '.' !in r.iface
  {
    if '.' in func then Nested(Before(func, '.'), After(func, '.')) else Root(func)
  }

  /** Parameter and result types of an exported function. */
  datatype Signature = Signature(params: seq<Type>, results: seq<Type>)

  /** A call made to a component: the function and its arguments. */
  datatype Call = Call(component: string, target: FuncRef, args: seq<Val>)

  datatype ExecError =
    | ComponentNotFound(component: string)
    | FunctionNotFound(func: string, component: string)
    | TypeMismatch(step: string)
    | DecodeFailed(reason: DecodeError)
    | TemplateArity
    | NoInputMapping(step: string)
    | CallFailed(component: string, func: string)

  /**
   * The wasm side, as parameters: the instantiated components, the exported
   * functions, what a call returns (`None` when it traps), the JSON parser
   * (`serde_json::from_str`) and printer, and the debug rendering of a value.
   */
  datatype Env = Env(
    instances: set<string>,
    lookup: (string, FuncRef) -> Option<Signature>,
    call: Call -> Option<seq<Val>>,
    parse: string -> Option<Json>,
    text: Json -> string,
    show: (Val, Type) -> string)

  /** The arguments of a step: its interpolated template for one parameter, or none at all. */
  function PrepareArgs(step: Step, params: seq<Type>, outputs: map<string, Json>, env: Env): Result<seq<Val>, ExecError>
  {
    if step.input.Some? then
      var s := Interpolate(step.input.value, outputs, env.text);
      if |params| != 1 then Err(TemplateArity)
      else if params[0] == TString then Ok([VString(s)])
      else
        var j := env.parse(s);
        if j.None? then Err(TypeMismatch(step.id))
        else
          var v := JsonToVal(j.value, params[0], env.text);
          if v.Err? then Err(DecodeFailed(v.error)) else Ok([v.value])
    else if params == [] then Ok([])
    else Err(NoInputMapping(step.id))
  }

  /** The result slots after a call: `n` placeholders, overwritten by the values returned. */
  function Filled(n: nat, vals: seq<Val>): (r: seq<Val>)
    ensures |r| == n
  {
    seq(n, i requires 0 <= i < n => if i < |vals| then vals[i] else VBool(false))
  }

  /** Records the first result, if the function has one, under the step's id. */
  function Record(outputs: map<string, Json>, id: string, results: seq<Type>, vals: seq<Val>, env: Env): map<string, Json>
  {
    var slots := Filled(|results|, vals);
    if |slots| > 0 then outputs[id := ValToJson(slots[0], results[0], env.show)] else outputs
  }

  /** Everything before the call: the instance, the function and the arguments. */
  function StepCall(step: Step, outputs: map<string, Json>, env: Env): Result<(Call, Signature), ExecError>
  {
    if step.component !in env.instances then Err(ComponentNotFound(step.component))
    else
      var target := FuncRefOf(step.func);
      var sig := env.lookup(step.component, target);
      if sig.None? then Err(FunctionNotFound(step.func, step.component))
      else
        var args := PrepareArgs(step, sig.value.params, outputs, env);
        if args.Err? then Err(args.error)
        else Ok((Call(step.component, target, args.value), sig.value))
  }

  /** Only a call can fail with `CallFailed`: the checks before it fail otherwise. */
  lemma StepCallErrors(step: Step, outputs: map<string, Json>, env: Env)
    ensures var sc := StepCall(step, outputs, env);
      sc.Err? ==> !sc.error.CallFailed?
  {
  }

  /** The recorded outputs, the calls made, and the error that stopped the run, if any. */
  datatype Outcome = Outcome(outputs: map<string, Json>, calls: seq<Call>, error: Option<ExecError>)

  /** Runs the remaining steps from the given outputs and calls. */
  function Run(steps: seq<Step>, outputs: map<string, Json>, calls: seq<Call>, env: Env): Outcome
    decreases |steps|
  {
    if steps == [] then Outcome(outputs, calls, None)
    else
      var sc := StepCall(steps[0], outputs, env);
      if sc.Err? then Outcome(outputs, calls, Some(sc.error))
      else
        var (c, sig) := sc.value;
        var vals := env.call(c);
        if vals.None? then Outcome(outputs, calls + [c], Some(CallFailed(steps[0].component, steps[0].func)))
        else Run(steps[1..], Record(outputs, steps[0].id, sig.results, vals.value, env), calls + [c], env)
  }

  /** `execute`: the step loop. */
  method Execute(workflow: Workflow, env: Env) returns (outcome: Outcome)
    ensures outcome == Run(workflow.steps, map[], [], env)
  {
    var steps := workflow.steps;
    var stepOutputs: map<string, Json> := map[];
    var calls: seq<Call> := [];
    var i := 0;
    while i < |steps|
      invariant 0 <= i <= |steps|
      invariant Run(steps[i..], stepOutputs, calls, env) == Run(steps, map[], [], env)
    {
      var step := steps[i];
      assert steps[i..][0] == step && steps[i..][1..] == steps[i + 1..];
      // 1. the instance
      if step.component !in env.instances {
        return Outcome(stepOutputs, calls, Some(ComponentNotFound(step.component)));
      }
      // 2. the function
      var target := FuncRefOf(step.func);
      var sig := env.lookup(step.component, target);
      if sig.None? {
        return Outcome(stepOutputs, calls, Some(FunctionNotFound(step.func, step.component)));
      }
      // 3. the arguments
      var args := PrepareArgs(step, sig.value.params, stepOutputs, env);
      if args.Err? {
        return Outcome(stepOutputs, calls, Some(args.error));
      }
      // 4. the call
      var c := Call(step.component, target, args.value);
      calls := calls + [c];
      var vals := env.call(c);
      if vals.None? {
        return Outcome(stepOutputs, calls, Some(CallFailed(step.component, step.func)));
      }
      // 5. the output
      var results := Filled(|sig.value.results|, vals.value);
      if |results| > 0 {
        stepOutputs := stepOutputs[step.id := ValToJson(results[0], sig.value.results[0], env.show)];
      }
      i := i + 1;
    }
    return Outcome(stepOutputs, calls, None);
  }

  // ---------------------------------------------------------------------------
  // Properties of a run
  // ---------------------------------------------------------------------------

  /** A step whose component is not instantiated stops the run before its call. */
  lemma MissingComponentStops(steps: seq<Step>, outputs: map<string, Json>, calls: seq<Call>, env: Env)
    requires steps != [] && steps[0].component !in env.instances
    ensures Run(steps, outputs, calls, env) == Outcome(outputs, calls, Some(ComponentNotFound(steps[0].component)))
  {
  }

  /** A successful step call targets the step's own, instantiated component. */
  lemma StepCallComponent(step: Step, outputs: map<string, Json>, env: Env)
    ensures var sc := StepCall(step, outputs, env);
      sc.Ok? ==> sc.value.0.component == step.component && step.component in env.instances
  {
  }

  /** A run only appends to the calls, at most one per step. */
  lemma {:induction false} RunCallsExtend(steps: seq<Step>, outputs: map<string, Json>, calls: seq<Call>, env: Env)
    ensures var o := Run(steps, outputs, calls, env);
      |calls| <= |o.calls| <= |calls| + |steps| && o.calls[..|calls|] == calls
    decreases |steps|
  {
    hide PrepareArgs, Record;
    if steps != [] {
      var sc := StepCall(steps[0], outputs, env);
      if sc.Ok? {
        var c := sc.value.0;
        var vals := env.call(c);
        if vals.Some? {
          var next := Record(outputs, steps[0].id, sc.value.1.results, vals.value, env);
          RunCallsExtend(steps[1..], next, calls + [c], env);
          var o := Run(steps[1..], next, calls + [c], env);
          assert o.calls[..|calls|] == (o.calls[..|calls| + 1])[..|calls|];
        }
      }
    }
  }

  /** A run that ends without error makes one call per step. */
  lemma {:induction false} RunCallsComplete(steps: seq<Step>, outputs: map<string, Json>, calls: seq<Call>, env: Env)
    ensures var o := Run(steps, outputs, calls, env);
      o.error.None? ==> |o.calls| == |calls| + |steps|
    decreases |steps|
  {
    hide PrepareArgs, Record;
    if steps != [] {
      var sc := StepCall(steps[0], outputs, env);
      if sc.Ok? {
        var c := sc.value.0;
        var vals := env.call(c);
        if vals.Some? {
          RunCallsComplete(steps[1..], Record(outputs, steps[0].id, sc.value.1.results, vals.value, env), calls + [c], env);
        }
      }
    }
  }

  /** Every call a run makes goes to an instantiated component. */
  lemma {:induction false} RunCallsInstantiated(steps: seq<Step>, outputs: map<string, Json>, calls: seq<Call>, env: Env)
    ensures var o := Run(steps, outputs, calls, env);
      forall k :: |calls| <= k < |o.calls| ==> o.calls[k].component in env.instances
    decreases |steps|
  {
    hide PrepareArgs, Record;
    if steps != [] {
      var sc := StepCall(steps[0], outputs, env);
      StepCallComponent(steps[0], outputs, env);
      if sc.Ok? {
        var c := sc.value.0;
        var vals := env.call(c);
        if vals.Some? {
          var next := Record(outputs, steps[0].id, sc.value.1.results, vals.value, env);
          RunCallsInstantiated(steps[1..], next, calls + [c], env);
          RunCallsExtend(steps[1..], next, calls + [c], env);
        }
      }
    }
  }

  /**
   * The number of steps of a run whose call returned: the calls it made, less
   * the last one when that call failed.
   */
  function StepsDone(o: Outcome, calls: seq<Call>): int
  {
    |o.calls| - |calls| - (if o.error.Some? && o.error.value.CallFailed? then 1 else 0)
  }

  /**
   * Outputs are only added, and only under the id of a step whose call
   * returned: one of the first `StepsDone` steps, never the step whose call
   * failed nor any step after the one that stopped the run.
   */
  lemma {:induction false} RunOutputKeys(steps: seq<Step>, outputs: map<string, Json>, calls: seq<Call>, env: Env)
    ensures var o := Run(steps, outputs, calls, env);
      0 <= StepsDone(o, calls) <= |steps|
      && outputs.Keys <= o.outputs.Keys
      && forall k :: k in o.outputs && k !in outputs ==> exists i :: 0 <= i < StepsDone(o, calls) && steps[i].id == k
    decreases |steps|
  {
    hide PrepareArgs;
    if steps != [] {
      var sc := StepCall(steps[0], outputs, env);
      if sc.Ok? {
        var (c, sig) := sc.value;
        var vals := env.call(c);
        if vals.Some? {
          var next := Record(outputs, steps[0].id, sig.results, vals.value, env);
          RunOutputKeys(steps[1..], next, calls + [c], env);
          var o := Run(steps, outputs, calls, env);
          assert StepsDone(o, calls) == StepsDone(o, calls + [c]) + 1;
          forall k | k in o.outputs && k !in outputs
            ensures exists i :: 0 <= i < StepsDone(o, calls) && steps[i].id == k
          {
            if k in next {
              assert steps[0].id == k;
            } else {
              var i :| 0 <= i < StepsDone(o, calls + [c]) && steps[1..][i].id == k;
              assert steps[i + 1].id == k;
            }
          }
        }
      } else {
        StepCallErrors(steps[0], outputs, env);
      }
    }
  }

  /** A step's output is recorded exactly when its function has a result, and it is the first one. */
  lemma RecordFirstResult(outputs: map<string, Json>, id: string, results: seq<Type>, vals: seq<Val>, env: Env)
    ensures var r := Record(outputs, id, results, vals, env);
      (|results| > 0 ==> r == outputs[id := ValToJson(if vals != [] then vals[0] else VBool(false), results[0], env.show)])
      && (|results| == 0 ==> r == outputs)
  {
  }

  /** With a template, the function must take exactly one argument, which the template fills. */
  lemma TemplateArgs(step: Step, params: seq<Type>, outputs: map<string, Json>, env: Env)
    requires step.input.Some?
    ensures var r := PrepareArgs(step, params, outputs, env);
      (|params| != 1 ==> r == Err(TemplateArity))
      && (params == [TString] ==> r == Ok([VString(Interpolate(step.input.value, outputs, env.text))]))
      && (r.Ok? ==> |params| == 1 && |r.value| == 1)
  {
  }

  /** Without a template, only a function without parameters can be called. */
  lemma NoTemplateArgs(step: Step, params: seq<Type>, outputs: map<string, Json>, env: Env)
    requires step.input.None?
    ensures var r := PrepareArgs(step, params, outputs, env);
      (r.Ok? <==> params == []) && (r.Ok? ==> r.value == []) && (r.Err? ==> r.error == NoInputMapping(step.id))
  {
  }
}
