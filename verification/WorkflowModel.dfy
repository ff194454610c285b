/**
  Loop workflows: the step tree, the context that flows through it, and the rules that read it
  (types.ts, compiler.ts). Values are JSON values; numbers are reals.
 */
module WorkflowModel {
  import opened SecurityPolicy

  datatype Option<+T> = None | Some(value: T)

  datatype Value =
    | Undefined
    | Null
    | Bool(b: bool)
    | Num(n: real)
    | Str(s: string)
    | Arr(items: seq<Value>)
    | Obj(fields: map<string, Value>)

  /** contextSchema: exactly these three fields survive parsing. */
  datatype Context = Context(message: string, results: map<string, Value>, text: string)

  const EMPTY_CONTEXT := Context("", map[], "")

  datatype Operator = Exists | Equals | NotEquals | Gt | Gte | Lt | Lte

  datatype Rule = Rule(path: string, operator: Operator, value: Option<string>)

  datatype StepKind =
    | Agent | Services | Alerts | Dashboards | McpTool | SecurityCheck | Operation | Verify | Approval
    | ConditionKind | ParallelKind | LoopKind

  datatype LoopMode = While | Until | Foreach

  /** The control blocks are optional and independent of the kind, as in the stored definition. */
  datatype Step = Step(id: string, kind: StepKind, retries: nat,
                       condition: ConditionBlock, parallel: ParallelBlock, loop: LoopBlock)
  datatype ConditionBlock = NoCondition | Condition(rule: Rule, whenTrue: seq<Step>, whenFalse: seq<Step>)
  datatype ParallelBlock = NoParallel | Parallel(branches: seq<BranchDef>)
  datatype BranchDef = BranchDef(id: string, steps: seq<Step>)
  datatype LoopBlock =
    | NoLoop
    | Loop(mode: LoopMode, rule: Rule, maxIterations: nat, sourcePath: string, steps: seq<Step>)

  predicate IsCondition(s: Step) { s.kind == ConditionKind && s.condition.Condition? }
  predicate IsParallel(s: Step) { s.kind == ParallelKind && s.parallel.Parallel? }
  predicate IsLoop(s: Step) { s.kind == LoopKind && s.loop.Loop? }

  /** How many items of its array a foreach may take (maxIterations || 50). */
  function ForeachLimit(l: LoopBlock): nat
    requires l.Loop?
  {
    if l.maxIterations == 0 then 50 else l.maxIterations
  }

  // ---------------------------------------------------------------- what happens in a run

  /** Ran: a leaf other than an approval was entered. Asked: an approval leaf was entered.
      Approved/Denied: a resume arrived for it. Items: a foreach took that many items. */
  datatype Event =
    | Ran(id: string) | Asked(id: string) | Approved(id: string) | Denied(id: string) | Items(id: string, n: nat)

  type History = seq<Event>

  datatype Resume = Resume(approved: bool, comment: string)

  datatype Response = Throws | Replies(text: string) | Data(value: Value)

  /** Everything the compiler's runtime asks of the outside world. Every answer may depend on
      the whole history of the run, so each activation of a step has its own answer. */
  datatype Env = Env(
    textOf: Value -> string,
    numberOf: Value -> Option<real>,
    respond: (History, Step, Context, nat) -> Response,
    resume: (History, Step, Context) -> Option<Resume>,
    findings: string -> Findings)

  // ---------------------------------------------------------------- readPath and compareRule

  /** path.split(sep) for a one-character separator. */
  function Split(s: string, sep: char): (parts: seq<string>)
    ensures |parts| >= 1
  {
    if s == "" then [""]
    else
      var rest := Split(s[1..], sep);
      if s[0] == sep then [""] + rest else [[s[0]] + rest[0]] + rest[1..]
  }

  function NonEmpty(parts: seq<string>): seq<string> {
    if parts == [] then [] else (if parts[0] == "" then [] else [parts[0]]) + NonEmpty(parts[1..])
  }

  /** One step of the reduce in readPath. */
  function Descend(env: Env, current: Value, segment: string): Value {
    match current
    case Arr(items) => (
      match env.numberOf(Str(segment))
      case Some(x) =>
        if x == x.Floor as real && 0 <= x.Floor < |items| then items[x.Floor] else Undefined
      case None => Undefined)
    case Obj(fields) => if segment in fields then fields[segment] else Undefined
    case _ => Undefined
  }

  function DescendAll(env: Env, current: Value, segments: seq<string>): Value
    decreases |segments|
  {
    if segments == [] then current else DescendAll(env, Descend(env, current, segments[0]), segments[1..])
  }

  function AsValue(c: Context): Value {
    Obj(map["message" := Str(c.message), "results" := Obj(c.results), "text" := Str(c.text)])
  }

  function ReadPath(env: Env, c: Context, path: string): Value {
    DescendAll(env, AsValue(c), NonEmpty(Split(path, '.')))
  }

  /** String(v ?? '') : strings are themselves; other values go through textOf. */
  function TextOf(env: Env, v: Value): string {
    match v
    case Undefined => ""
    case Null => ""
    case Str(s) => s
    case _ => env.textOf(v)
  }

  function CompareRule(env: Env, c: Context, rule: Rule): bool {
    var actual := ReadPath(env, c, rule.path);
    var wanted := if rule.value.Some? then rule.value.value else "";
    match rule.operator
    case Exists => !actual.Undefined? && !actual.Null?
    case Equals => TextOf(env, actual) == wanted
    case NotEquals => TextOf(env, actual) != wanted
    case _ =>
      var left := env.numberOf(actual);
      var right := if rule.value.Some? then env.numberOf(Str(wanted)) else None;
      left.Some? && right.Some? && InOrder(rule.operator, left.value, right.value)
  }

  predicate InOrder(operator: Operator, left: real, right: real) {
    if operator == Gt then left > right
    else if operator == Gte then left >= right
    else if operator == Lt then left < right
    else left <= right
  }

  // ---------------------------------------------------------------- mergeContexts

  /** Object.assign({}, ...maps): later maps win. */
  function AssignAll(cs: seq<Context>): map<string, Value> {
    if cs == [] then map[] else AssignAll(cs[..|cs| - 1]) + cs[|cs| - 1].results
  }

  /** The non-empty texts, joined by a blank line. */
  function JoinTexts(cs: seq<Context>): string {
    if cs == [] then ""
    else
      var rest := JoinTexts(cs[1..]);
      if cs[0].text == "" then rest
      else if rest == "" then cs[0].text
      else cs[0].text + "\n\n" + rest
  }

  function MergeContexts(cs: seq<Context>): Context {
    var base := if cs == [] then EMPTY_CONTEXT else cs[0];
    Context(base.message, AssignAll(cs), JoinTexts(cs))
  }

  // ---------------------------------------------------------------- leaf steps

  datatype Outcome = Done(ctx: Context) | Failed | Suspended(stepId: string)

  datatype Run = Run(h: History, outcome: Outcome)

  function WithResult(c: Context, key: string, v: Value): Context {
    c.(results := c.results[key := v])
  }

  function WithText(c: Context, key: string, text: string): Context {
    WithResult(c, key, Obj(map["text" := Str(text)])).(text := text)
  }

  function DecisionText(d: Decision): string {
    match d
    case Allow => "allow"
    case RequireApproval => "require-approval"
    case Deny => "deny"
  }

  function VerdictValue(v: Verdict): Value {
    Obj(map["decision" := Str(DecisionText(v.decision)), "riskScore" := Num(v.riskScore as real)])
  }

  /** One execution of a leaf other than an approval; None is a thrown error. */
  function Attempt(env: Env, s: Step, h: History, c: Context, attempt: nat): Option<Context> {
    if s.kind == SecurityCheck then
      var verdict := Evaluate(env.findings(c.message), Operate);
      if verdict.decision == Deny then None else Some(WithResult(c, s.id, VerdictValue(verdict)))
    else
      match env.respond(h, s, c, attempt)
      case Throws => None
      case Replies(text) =>
        if s.kind in {Agent, Operation, Verify} then Some(WithText(c, s.id, text))
        else Some(WithResult(c, s.id, Str(text)))
      case Data(value) =>
        if s.kind in {Agent, Operation, Verify} then None else Some(WithResult(c, s.id, value))
  }

  /** The first attempt that does not throw, out of 1 + retries. */
  function Retry(env: Env, s: Step, h: History, c: Context, attempt: nat): Option<Context>
    decreases s.retries - attempt
  {
    var r := Attempt(env, s, h, c, attempt);
    if r.Some? || attempt >= s.retries then r else Retry(env, s, h, c, attempt + 1)
  }

  function RunLeaf(env: Env, s: Step, h: History, c: Context): Run {
    if s.kind == Approval then
      match env.resume(h, s, c)
      case None => Run(h + [Asked(s.id)], Suspended(s.id))
      case Some(d) =>
        if d.approved then
          Run(h + [Asked(s.id), Approved(s.id)],
              Done(WithResult(c, s.id, Obj(map["approved" := Bool(true), "comment" := Str(d.comment)]))))
        else Run(h + [Asked(s.id), Denied(s.id)], Failed)
    else
      match Retry(env, s, h, c, 0)
      case Some(c') => Run(h + [Ran(s.id)], Done(c'))
      case None => Run(h + [Ran(s.id)], Failed)
  }

  // ---------------------------------------------------------------- foreach items

  /** The contexts prepareForeachStep hands to the body, or None when the path is not an array. */
  function ForeachItems(env: Env, s: Step, c: Context): Option<seq<Context>>
    requires s.loop.Loop?
  {
    match ReadPath(env, c, s.loop.sourcePath)
    case Arr(items) =>
      var n := if |items| < ForeachLimit(s.loop) then |items| else ForeachLimit(s.loop);
      Some(seq(n, i requires 0 <= i < n => WithItem(c, s.id, items[i], i)))
    case _ => None
  }

  function WithItem(c: Context, id: string, item: Value, index: nat): Context {
    c.(results := c.results[id + ".item" := item][id + ".index" := Num(index as real)])
  }
}
