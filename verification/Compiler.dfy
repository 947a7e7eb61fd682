/** Compiling a customer's JSON mapping into an expression tree, and evaluating it on a row.
    (django_connectors/projections/compiler.py) */
module Compiler {
  import opened Values

  const MAX_NESTING_DEPTH: nat := 32
  const FUNCTIONS: set<string> := {"coalesce", "concat", "lower", "upper"}

  /** What a failure means for the run: a broken mapping, or one row's data. */
  datatype Failure = MappingValidation | Cast | InvalidRecord

  datatype CastSpec = CastSpec(name: string, options: seq<Member>)

  /** Text handling this model does not look into: deterministic, and partial where it may raise. */
  datatype Env = Env(
    parseJson: string -> Option<Value>,
    parseInt: string -> Option<int>,
    str: Value -> string,
    lower: string -> string,
    upper: string -> string,
    castAccepts: CastSpec -> bool,
    coerce: (CastSpec, Value) -> Option<Value>,
    looseEqual: (Value, Value) -> bool,
    compare: (string, Value, Value) -> bool)

  datatype Node =
    | Constant(value: Value)
    | SourceRef(column: string, path: seq<string>, cast: Option<CastSpec>, default: Option<Value>)
    | ObjectNode(members: seq<NodeMember>)
    | FunctionCall(name: string, args: seq<Node>, fcast: Option<CastSpec>)

  datatype NodeMember = NodeMember(key: string, node: Node)

  // ---------------------------------------------------------------- evaluation

  /** `json_path`: follow the parts through dicts and lists; anything else reads as None. */
  function WalkPath(env: Env, value: Value, path: seq<string>): Value {
    if path == [] then value
    else
      match value
      case Obj(ms) =>
        (match Find(ms, path[0])
         case None => Null
         case Some(i) => WalkPath(env, ms[i].value, path[1..]))
      case List(items) =>
        (match env.parseInt(path[0])
         case None => Null
         case Some(k) =>
           if 0 <= k < |items| then WalkPath(env, items[k], path[1..])
           else if -|items| <= k < 0 then WalkPath(env, items[k + |items|], path[1..])
           else Null)
      case _ => Null
  }

  function Walked(env: Env, value: Value, path: seq<string>): Value {
    if !value.Text? then WalkPath(env, value, path)
    else
      match env.parseJson(value.s)
      case None => Null
      case Some(parsed) => WalkPath(env, parsed, path)
  }

  /** The walk as the source runs it: one variable stepped along the path, left early on None. */
  method WalkJson(env: Env, value: Value, path: seq<string>) returns (r: Value)
    ensures r == Walked(env, value, path)
  {
    r := value;
    if r.Text? {
      var parsed := env.parseJson(r.s);
      if parsed.None? { return Null; }
      r := parsed.value;
    }
    var i := 0;
    while i < |path|
      invariant i <= |path|
      invariant WalkPath(env, r, path[i..]) == Walked(env, value, path)
    {
      if r.Obj? {
        var at := Find(r.members, path[i]);
        if at.None? { return Null; }
        r := r.members[at.value].value;
      } else if r.List? {
        var k := env.parseInt(path[i]);
        if k.None? || !(-|r.items| <= k.value < |r.items|) { return Null; }
        r := r.items[if k.value < 0 then k.value + |r.items| else k.value];
      } else {
        return Null;
      }
      i := i + 1;
      assert path[i - 1..][1..] == path[i..];
      if r.Null? {
        WalkNull(env, path[i..]);
        return Null;
      }
    }
  }

  lemma WalkNull(env: Env, path: seq<string>)
    ensures WalkPath(env, Null, path) == Null
  {
  }

  function Coerced(env: Env, cast: Option<CastSpec>, value: Value): Result<Value, Failure> {
    if cast.None? || value.Null? then Ok(value)
    else
      match env.coerce(cast.value, value)
      case None => Err(Cast)
      case Some(v) => Ok(v)
  }

  function Evaluate(env: Env, node: Node, row: Row): Result<Value, Failure>
    decreases node, 1
  {
    match node
    case Constant(value) => Ok(value)
    case SourceRef(column, path, cast, default) =>
      if column !in row then
        if default.Some? then Ok(default.value) else Err(MappingValidation)
      else
        var raw := row[column];
        var value := if path == [] then raw else Walked(env, raw, path);
        if value.Null? && default.Some? then Ok(default.value)
        else Coerced(env, cast, value)
    case ObjectNode(members) =>
      var values :- EvaluateMembers(env, members, row);
      Ok(Obj(values))
    case FunctionCall(name, args, cast) =>
      var value :-
        if name == "coalesce" then EvaluateCoalesce(env, args, row)
        else if name == "concat" then
          var text :- EvaluateConcat(env, args, row);
          Ok(Text(text))
        else if (name == "lower" || name == "upper") && args != [] then
          var raw :- Evaluate(env, args[0], row);
          Ok(if raw.Null? then Null
             else Text(if name == "lower" then env.lower(env.str(raw)) else env.upper(env.str(raw))))
        else Err(MappingValidation);
      Coerced(env, cast, value)
  }

  function EvaluateMembers(env: Env, members: seq<NodeMember>, row: Row): Result<seq<Member>, Failure>
    decreases members, 0
  {
    if members == [] then Ok([])
    else
      var value :- Evaluate(env, members[0].node, row);
      var rest :- EvaluateMembers(env, members[1..], row);
      Ok([Member(members[0].key, value)] + rest)
  }

  /** The first argument that is not None; later ones are not evaluated at all. */
  function EvaluateCoalesce(env: Env, args: seq<Node>, row: Row): Result<Value, Failure>
    decreases args, 0
  {
    if args == [] then Ok(Null)
    else
      var value :- Evaluate(env, args[0], row);
      if value.Null? then EvaluateCoalesce(env, args[1..], row) else Ok(value)
  }

  function EvaluateConcat(env: Env, args: seq<Node>, row: Row): Result<string, Failure>
    decreases args, 0
  {
    if args == [] then Ok("")
    else
      var item :- Evaluate(env, args[0], row);
      var rest :- EvaluateConcat(env, args[1..], row);
      Ok((if item.Null? then "" else env.str(item)) + rest)
  }

  /** The columns a compiled node says it reads. */
  function SourceColumns(node: Node): set<string>
    decreases node, 1
  {
    match node
    case Constant(_) => {}
    case SourceRef(column, _, _, _) => {column}
    case ObjectNode(members) => MemberColumns(members)
    case FunctionCall(_, args, _) => ArgColumns(args)
  }

  function MemberColumns(members: seq<NodeMember>): set<string>
    decreases members, 0
  {
    if members == [] then {} else SourceColumns(members[0].node) + MemberColumns(members[1..])
  }

  function ArgColumns(args: seq<Node>): set<string>
    decreases args, 0
  {
    if args == [] then {} else SourceColumns(args[0]) + ArgColumns(args[1..])
  }

  ghost predicate AgreeOn(r1: Row, r2: Row, columns: set<string>) {
    forall c :: c in columns ==> (c in r1 <==> c in r2) && Cell(r1, c) == Cell(r2, c)
  }

  /** Evaluation reads nothing but `source_columns`: values, errors and their kind all agree. */
  lemma {:induction false} EvaluationDependsOnSourceColumns(env: Env, node: Node, r1: Row, r2: Row)
    requires AgreeOn(r1, r2, SourceColumns(node))
    ensures Evaluate(env, node, r1) == Evaluate(env, node, r2)
    decreases node, 1
  {
    match node
    case Constant(_) =>
    case SourceRef(column, _, _, _) =>
      assert column in SourceColumns(node);
    case ObjectNode(members) => MembersDepend(env, members, r1, r2);
    case FunctionCall(name, args, _) => ArgsDepend(env, args, r1, r2);
  }

  lemma {:induction false} MembersDepend(env: Env, members: seq<NodeMember>, r1: Row, r2: Row)
    requires AgreeOn(r1, r2, MemberColumns(members))
    ensures EvaluateMembers(env, members, r1) == EvaluateMembers(env, members, r2)
    decreases members, 0
  {
    if members != [] {
      EvaluationDependsOnSourceColumns(env, members[0].node, r1, r2);
      MembersDepend(env, members[1..], r1, r2);
    }
  }

  lemma {:induction false} ArgsDepend(env: Env, args: seq<Node>, r1: Row, r2: Row)
    requires AgreeOn(r1, r2, ArgColumns(args))
    ensures EvaluateCoalesce(env, args, r1) == EvaluateCoalesce(env, args, r2)
    ensures EvaluateConcat(env, args, r1) == EvaluateConcat(env, args, r2)
    ensures args != [] ==> Evaluate(env, args[0], r1) == Evaluate(env, args[0], r2)
    decreases args, 0
  {
    if args != [] {
      EvaluationDependsOnSourceColumns(env, args[0], r1, r2);
      ArgsDepend(env, args[1..], r1, r2);
    }
  }

  // ---------------------------------------------------------------- compilation

  /** Plain JSON data, nested no deeper than the limit. */
  predicate JsonLiteral(value: Value, depth: nat)
    decreases value, 1
  {
    && depth <= MAX_NESTING_DEPTH
    && match value
       case List(items) => JsonItems(items, depth + 1)
       case Obj(members) => JsonMembers(members, depth + 1)
       case Other(_, _) => false
       case _ => true
  }

  predicate JsonItems(items: seq<Value>, depth: nat)
    decreases items, 0
  {
    items != [] ==> JsonLiteral(items[0], depth) && JsonItems(items[1..], depth)
  }

  predicate JsonMembers(members: seq<Member>, depth: nat)
    decreases members, 0
  {
    members != [] ==> JsonLiteral(members[0].value, depth) && JsonMembers(members[1..], depth)
  }

  predicate OnceEach(members: seq<Member>) {
    forall i, j :: 0 <= i < j < |members| ==> members[i].key != members[j].key
  }

  /** A JSON value as a dict holds it: an object has each key once, at every depth. */
  predicate KeysOnce(value: Value) {
    match value
    case List(items) => forall i :: 0 <= i < |items| ==> KeysOnce(items[i])
    case Obj(members) => OnceEach(members) && forall i :: 0 <= i < |members| ==> KeysOnce(members[i].value)
    case _ => true
  }

  /** What a mapping may write as it stands. */
  predicate Literal(value: Value) { JsonLiteral(value, 0) && KeysOnce(value) }

  predicate Has(members: seq<Member>, key: string) { Find(members, key).Some? }

  function Get(members: seq<Member>, key: string): Value {
    match Find(members, key)
    case None => Null
    case Some(i) => members[i].value
  }

  predicate CastOptionKey(key: string) {
    key == "format" || key == "timezone" || key == "strip" || key == "decimal_separator"
  }

  function CastOptions(members: seq<Member>): seq<Member> {
    if members == [] then []
    else (if CastOptionKey(members[0].key) then [members[0]] else []) + CastOptions(members[1..])
  }

  predicate CastOk(env: Env, cast: CastSpec) {
    && (forall i :: 0 <= i < |cast.options| ==> JsonLiteral(cast.options[i].value, 0))
    && env.castAccepts(cast)
  }

  function CompileCast(env: Env, members: seq<Member>): Result<Option<CastSpec>, Failure> {
    var name := Get(members, "cast");
    var options := CastOptions(members);
    if name.Null? then
      if options != [] then Err(MappingValidation) else Ok(None)
    else if !name.Text? then Err(MappingValidation)
    else if CastOk(env, CastSpec(name.s, options)) then Ok(Some(CastSpec(name.s, options)))
    else Err(MappingValidation)
  }

  /** `[part for part in path.split(".") if part]`, with `current` the part being read. */
  function PathParts(text: string, current: string): seq<string> {
    if text == "" then
      if current == "" then [] else [current]
    else if text[0] == '.' then
      (if current == "" then [] else [current]) + PathParts(text[1..], "")
    else PathParts(text[1..], current + [text[0]])
  }

  function FormCount(members: seq<Member>): nat {
    (if Has(members, "source") then 1 else 0) + (if Has(members, "constant") then 1 else 0) +
    (if Has(members, "object") then 1 else 0) + (if Has(members, "function") then 1 else 0)
  }

  function CompileNode(env: Env, spec: Value, depth: nat): Result<Node, Failure>
    decreases spec, 1
  {
    if depth > MAX_NESTING_DEPTH || !spec.Obj? then Err(MappingValidation)
    else
      var ms := spec.members;
      if FormCount(ms) != 1 then Err(MappingValidation)
      else
        var cast :- CompileCast(env, ms);
        if Has(ms, "constant") then
          var value := Get(ms, "constant");
          if JsonLiteral(value, 0) then Ok(Constant(value)) else Err(MappingValidation)
        else if Has(ms, "source") then CompileSource(ms, cast)
        else if Has(ms, "object") then CompileObject(env, ms, depth)
        else CompileCall(env, ms, cast, depth)
  }

  function CompileObject(env: Env, ms: seq<Member>, depth: nat): Result<Node, Failure>
    decreases ms, 1
  {
    match Find(ms, "object")
    case None => Err(MappingValidation)
    case Some(at) =>
      if !ms[at].value.Obj? || ms[at].value.members == [] then Err(MappingValidation)
      else
        var members :- CompileMembers(env, ms[at].value.members, depth + 1);
        Ok(ObjectNode(members))
  }

  function CompileCall(env: Env, ms: seq<Member>, cast: Option<CastSpec>, depth: nat): Result<Node, Failure>
    decreases ms, 1
  {
    var name := Get(ms, "function");
    if !(name.Text? && name.s in FUNCTIONS) then Err(MappingValidation)
    else
      match Find(ms, "args")
      case None => Err(MappingValidation)
      case Some(at) =>
        if !ms[at].value.List? || ms[at].value.items == [] then Err(MappingValidation)
        else if (name.s == "lower" || name.s == "upper") && |ms[at].value.items| != 1 then Err(MappingValidation)
        else
          var args :- CompileArgs(env, ms[at].value.items, depth + 1);
          Ok(FunctionCall(name.s, args, cast))
  }

  function CompileSource(ms: seq<Member>, cast: Option<CastSpec>): Result<Node, Failure> {
    var column, jsonPath := Get(ms, "source"), Get(ms, "json_path");
    if !column.Text? || column.s == "" then Err(MappingValidation)
    else if !jsonPath.Null? && (!jsonPath.Text? || jsonPath.s == "") then Err(MappingValidation)
    else if Has(ms, "default") && !JsonLiteral(Get(ms, "default"), 0) then Err(MappingValidation)
    else
      Ok(SourceRef(column.s,
                   if jsonPath.Null? then [] else PathParts(jsonPath.s, ""),
                   cast,
                   if Has(ms, "default") then Some(Get(ms, "default")) else None))
  }

  function CompileMembers(env: Env, ms: seq<Member>, depth: nat): Result<seq<NodeMember>, Failure>
    decreases ms, 0
  {
    if ms == [] then Ok([])
    else
      var node :- CompileNode(env, ms[0].value, depth);
      var rest :- CompileMembers(env, ms[1..], depth);
      Ok([NodeMember(ms[0].key, node)] + rest)
  }

  function CompileArgs(env: Env, args: seq<Value>, depth: nat): Result<seq<Node>, Failure>
    decreases args, 0
  {
    if args == [] then Ok([])
    else
      var node :- CompileNode(env, args[0], depth);
      var rest :- CompileArgs(env, args[1..], depth);
      Ok([node] + rest)
  }

  // ---------------------------------------------------------------- what compilation accepts

  /** `node` needs at most `levels` levels below its own. */
  predicate Fits(node: Node, levels: int)
    decreases node, 1
  {
    && levels >= 0
    && match node
       case ObjectNode(members) => MembersFit(members, levels - 1)
       case FunctionCall(_, args, _) => ArgsFit(args, levels - 1)
       case _ => true
  }

  predicate MembersFit(members: seq<NodeMember>, levels: int)
    decreases members, 0
  {
    members != [] ==> Fits(members[0].node, levels) && MembersFit(members[1..], levels)
  }

  predicate ArgsFit(args: seq<Node>, levels: int)
    decreases args, 0
  {
    args != [] ==> Fits(args[0], levels) && ArgsFit(args[1..], levels)
  }

  predicate PathPart(part: string) { part != "" && '.' !in part }

  predicate OnlyCastOptions(options: seq<Member>) {
    forall i :: 0 <= i < |options| ==> CastOptionKey(options[i].key)
  }

  predicate OptionalCastOk(env: Env, cast: Option<CastSpec>) {
    cast.Some? ==>
      && CastOk(env, cast.value) && OnlyCastOptions(cast.value.options)
      && KeysOnce(Obj(cast.value.options))
  }

  predicate WellFormed(env: Env, node: Node)
    decreases node, 1
  {
    match node
    case Constant(value) => Literal(value)
    case SourceRef(column, path, cast, default) =>
      && column != ""
      && (forall i :: 0 <= i < |path| ==> PathPart(path[i]))
      && OptionalCastOk(env, cast)
      && (default.Some? ==> Literal(default.value))
    case ObjectNode(members) =>
      && members != []
      && (forall i, j :: 0 <= i < j < |members| ==> members[i].key != members[j].key)
      && WellFormedMembers(env, members)
    case FunctionCall(name, args, cast) =>
      && name in FUNCTIONS
      && args != []
      && (name == "lower" || name == "upper" ==> |args| == 1)
      && OptionalCastOk(env, cast)
      && WellFormedArgs(env, args)
  }

  predicate WellFormedMembers(env: Env, members: seq<NodeMember>)
    decreases members, 0
  {
    members != [] ==> WellFormed(env, members[0].node) && WellFormedMembers(env, members[1..])
  }

  predicate WellFormedArgs(env: Env, args: seq<Node>)
    decreases args, 0
  {
    args != [] ==> WellFormed(env, args[0]) && WellFormedArgs(env, args[1..])
  }

  lemma GetKeysOnce(ms: seq<Member>, key: string)
    requires KeysOnce(Obj(ms))
    ensures KeysOnce(Get(ms, key))
  {
  }

  lemma {:induction false} OptionsKeysOnce(ms: seq<Member>)
    requires KeysOnce(Obj(ms))
    ensures KeysOnce(Obj(CastOptions(ms)))
    ensures forall i :: 0 <= i < |CastOptions(ms)| ==> exists j :: 0 <= j < |ms| && ms[j] == CastOptions(ms)[i]
  {
    if ms != [] {
      var rest := CastOptions(ms[1..]);
      assert forall i :: 0 <= i < |ms| - 1 ==> ms[1..][i] == ms[i + 1];
      OptionsKeysOnce(ms[1..]);
      forall i | 0 <= i < |rest| ensures exists j :: 1 <= j < |ms| && ms[j] == rest[i] {
        var j :| 0 <= j < |ms[1..]| && ms[1..][j] == rest[i];
        assert ms[j + 1] == rest[i];
      }
    }
  }

  /** Whatever compiles is well formed and nests no deeper than the limit. */
  lemma {:induction false} CompiledNodesAreWellFormed(env: Env, spec: Value, depth: nat)
    requires KeysOnce(spec) && CompileNode(env, spec, depth).Ok?
    ensures var node := CompileNode(env, spec, depth).value;
            WellFormed(env, node) && Fits(node, MAX_NESTING_DEPTH - depth)
    decreases spec, 1
  {
    var ms := spec.members;
    OptionsAreOptions(ms);
    OptionsKeysOnce(ms);
    if Has(ms, "constant") {
      GetKeysOnce(ms, "constant");
    } else if Has(ms, "source") {
      CompiledSourceIsWellFormed(env, ms);
    } else if Has(ms, "object") {
      CompiledObjectIsWellFormed(env, ms, depth);
    } else {
      CompiledCallIsWellFormed(env, ms, CompileCast(env, ms).value, depth);
    }
  }

  lemma CompiledFrom(env: Env, ms: seq<Member>, depth: nat) returns (at: nat)
    requires KeysOnce(Obj(ms)) && CompileObject(env, ms, depth).Ok?
    ensures at < |ms| && ms[at].value.Obj?
    ensures var members := ms[at].value.members;
            && members != [] && OnceEach(members)
            && (forall i :: 0 <= i < |members| ==> KeysOnce(members[i].value))
            && CompileMembers(env, members, depth + 1).Ok?
            && CompileObject(env, ms, depth) == Ok(ObjectNode(CompileMembers(env, members, depth + 1).value))
  {
    hide CompileMembers;
    at := Find(ms, "object").value;
  }

  lemma {:induction false} CompiledObjectIsWellFormed(env: Env, ms: seq<Member>, depth: nat)
    requires KeysOnce(Obj(ms)) && CompileObject(env, ms, depth).Ok? && depth <= MAX_NESTING_DEPTH
    ensures var node := CompileObject(env, ms, depth).value;
            WellFormed(env, node) && Fits(node, MAX_NESTING_DEPTH - depth)
    decreases ms, 1
  {
    hide CompileObject, KeysOnce, CompileNode, CompileMembers;
    var at := CompiledFrom(env, ms, depth);
    CompiledMembersAreWellFormed(env, ms[at].value.members, depth + 1);
  }

  lemma CalledWith(env: Env, ms: seq<Member>, cast: Option<CastSpec>, depth: nat) returns (name: string, at: nat)
    requires KeysOnce(Obj(ms)) && CompileCall(env, ms, cast, depth).Ok?
    ensures name in FUNCTIONS && at < |ms| && ms[at].value.List?
    ensures var args := ms[at].value.items;
            && args != [] && (name == "lower" || name == "upper" ==> |args| == 1)
            && (forall i :: 0 <= i < |args| ==> KeysOnce(args[i]))
            && CompileArgs(env, args, depth + 1).Ok?
            && CompileCall(env, ms, cast, depth)
               == Ok(FunctionCall(name, CompileArgs(env, args, depth + 1).value, cast))
  {
    hide CompileArgs;
    name, at := Get(ms, "function").s, Find(ms, "args").value;
  }

  lemma {:induction false} CompiledCallIsWellFormed(env: Env, ms: seq<Member>, cast: Option<CastSpec>, depth: nat)
    requires KeysOnce(Obj(ms)) && CompileCall(env, ms, cast, depth).Ok?
    requires depth <= MAX_NESTING_DEPTH && OptionalCastOk(env, cast)
    ensures var node := CompileCall(env, ms, cast, depth).value;
            WellFormed(env, node) && Fits(node, MAX_NESTING_DEPTH - depth)
    decreases ms, 1
  {
    hide CompileCall, KeysOnce, CompileNode, CompileArgs, OptionalCastOk;
    var name, at := CalledWith(env, ms, cast, depth);
    CompiledArgsAreWellFormed(env, ms[at].value.items, depth + 1);
  }

  lemma {:induction false} OptionsAreOptions(members: seq<Member>)
    ensures OnlyCastOptions(CastOptions(members))
  {
    if members != [] { OptionsAreOptions(members[1..]); }
  }

  lemma CompiledSourceIsWellFormed(env: Env, ms: seq<Member>)
    requires KeysOnce(Obj(ms)) && CompileCast(env, ms).Ok? && CompileSource(ms, CompileCast(env, ms).value).Ok?
    ensures WellFormed(env, CompileSource(ms, CompileCast(env, ms).value).value)
  {
    var jsonPath := Get(ms, "json_path");
    if jsonPath.Text? { PartsAreParts(jsonPath.s, ""); }
    OptionsAreOptions(ms);
    OptionsKeysOnce(ms);
    GetKeysOnce(ms, "default");
  }

  lemma {:induction false} CompiledMembersAreWellFormed(env: Env, ms: seq<Member>, depth: nat)
    requires (forall i :: 0 <= i < |ms| ==> KeysOnce(ms[i].value)) && CompileMembers(env, ms, depth).Ok?
    ensures var members := CompileMembers(env, ms, depth).value;
            && |members| == |ms| && (forall i :: 0 <= i < |ms| ==> members[i].key == ms[i].key)
            && WellFormedMembers(env, members) && MembersFit(members, MAX_NESTING_DEPTH - depth)
    decreases ms, 0
  {
    if ms != [] {
      CompiledNodesAreWellFormed(env, ms[0].value, depth);
      CompiledMembersAreWellFormed(env, ms[1..], depth);
    }
  }

  lemma {:induction false} CompiledArgsAreWellFormed(env: Env, args: seq<Value>, depth: nat)
    requires (forall i :: 0 <= i < |args| ==> KeysOnce(args[i])) && CompileArgs(env, args, depth).Ok?
    ensures var nodes := CompileArgs(env, args, depth).value;
            |nodes| == |args| && WellFormedArgs(env, nodes) && ArgsFit(nodes, MAX_NESTING_DEPTH - depth)
    decreases args, 0
  {
    if args != [] {
      CompiledNodesAreWellFormed(env, args[0], depth);
      CompiledArgsAreWellFormed(env, args[1..], depth);
    }
  }

  lemma {:induction false} PartsAreParts(text: string, current: string)
    requires '.' !in current
    ensures forall i :: 0 <= i < |PathParts(text, current)| ==> PathPart(PathParts(text, current)[i])
    decreases |text|
  {
    if text != "" {
      PartsAreParts(text[1..], if text[0] == '.' then "" else current + [text[0]]);
    }
  }

  /** A raised missing column is the only way evaluating a compiled node blames the mapping. */
  lemma {:induction false} NoMissingColumn(env: Env, node: Node, row: Row)
    requires WellFormed(env, node) && SourceColumns(node) <= row.Keys
    ensures Evaluate(env, node, row) != Err(MappingValidation)
    decreases node, 1
  {
    match node
    case Constant(_) =>
    case SourceRef(column, _, _, _) => assert column in SourceColumns(node);
    case ObjectNode(members) => NoMissingMemberColumn(env, members, row);
    case FunctionCall(_, args, _) => NoMissingArgColumn(env, args, row);
  }

  lemma {:induction false} NoMissingMemberColumn(env: Env, members: seq<NodeMember>, row: Row)
    requires WellFormedMembers(env, members) && MemberColumns(members) <= row.Keys
    ensures EvaluateMembers(env, members, row) != Err(MappingValidation)
    decreases members, 0
  {
    if members != [] {
      NoMissingColumn(env, members[0].node, row);
      NoMissingMemberColumn(env, members[1..], row);
    }
  }

  lemma {:induction false} NoMissingArgColumn(env: Env, args: seq<Node>, row: Row)
    requires WellFormedArgs(env, args) && ArgColumns(args) <= row.Keys
    ensures EvaluateCoalesce(env, args, row) != Err(MappingValidation)
    ensures EvaluateConcat(env, args, row) != Err(MappingValidation)
    ensures args != [] ==> Evaluate(env, args[0], row) != Err(MappingValidation)
    decreases args, 0
  {
    if args != [] {
      NoMissingColumn(env, args[0], row);
      NoMissingArgColumn(env, args[1..], row);
    }
  }
}
