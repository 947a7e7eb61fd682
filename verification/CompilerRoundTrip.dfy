/** The compiler's partner: writing a compiled node back as JSON. A node is in the compiler's image
    exactly when it is well formed and shallow enough, and compiling its JSON gives it back. */
module CompilerRoundTrip {
  import opened Values
  import opened Compiler

  function CastMembers(cast: Option<CastSpec>): seq<Member> {
    match cast
    case None => []
    case Some(c) => [Member("cast", Text(c.name))] + c.options
  }

  function Joined(path: seq<string>): string {
    if path == [] then "" else if |path| == 1 then path[0] else path[0] + "." + Joined(path[1..])
  }

  function SourceHead(column: string, path: seq<string>, default: Option<Value>): seq<Member> {
    [Member("source", Text(column))]
    + ((if path == [] then [] else [Member("json_path", Text(Joined(path)))])
    + (if default.None? then [] else [Member("default", default.value)]))
  }

  /** A node as the JSON a customer would have written for it. */
  function Unparse(node: Node): Value
    decreases node, 1
  {
    match node
    case Constant(value) => Obj([Member("constant", value)])
    case SourceRef(column, path, cast, default) => Obj(SourceHead(column, path, default) + CastMembers(cast))
    case ObjectNode(members) => Obj([Member("object", Obj(UnparseMembers(members)))])
    case FunctionCall(name, args, cast) =>
      Obj([Member("function", Text(name)), Member("args", List(UnparseArgs(args)))] + CastMembers(cast))
  }

  function UnparseMembers(members: seq<NodeMember>): (ms: seq<Member>)
    ensures |ms| == |members|
    decreases members, 0
  {
    if members == [] then []
    else [Member(members[0].key, Unparse(members[0].node))] + UnparseMembers(members[1..])
  }

  function UnparseArgs(args: seq<Node>): (values: seq<Value>)
    ensures |values| == |args|
    decreases args, 0
  {
    if args == [] then [] else [Unparse(args[0])] + UnparseArgs(args[1..])
  }

  lemma {:induction false} LookupInConcat(a: seq<Member>, b: seq<Member>, key: string)
    ensures Has(a + b, key) <==> Has(a, key) || Has(b, key)
    ensures Get(a + b, key) == if Has(a, key) then Get(a, key) else Get(b, key)
  {
    if a == [] {
      assert a + b == b;
    } else {
      assert (a + b)[0] == a[0] && (a + b)[1..] == a[1..] + b;
      LookupInConcat(a[1..], b, key);
    }
  }

  lemma {:induction false} OptionsInConcat(a: seq<Member>, b: seq<Member>)
    ensures CastOptions(a + b) == CastOptions(a) + CastOptions(b)
  {
    if a == [] {
      assert a + b == b;
    } else {
      assert (a + b)[0] == a[0] && (a + b)[1..] == a[1..] + b;
      OptionsInConcat(a[1..], b);
    }
  }

  lemma {:induction false} OptionsOfOptions(options: seq<Member>)
    requires OnlyCastOptions(options)
    ensures CastOptions(options) == options
  {
    if options != [] { OptionsOfOptions(options[1..]); }
  }

  lemma CastFound(env: Env, ms: seq<Member>, cast: CastSpec)
    requires Get(ms, "cast") == Text(cast.name) && CastOptions(ms) == cast.options && CastOk(env, cast)
    ensures CompileCast(env, ms) == Ok(Some(cast))
  {
  }

  lemma CastRoundTrip(env: Env, head: seq<Member>, cast: Option<CastSpec>)
    requires OptionalCastOk(env, cast) && !Has(head, "cast") && CastOptions(head) == []
    ensures CompileCast(env, head + CastMembers(cast)) == Ok(cast)
  {
    if cast.None? {
      assert head + CastMembers(cast) == head;
    } else {
      var c := [Member("cast", Text(cast.value.name))];
      assert CastMembers(cast) == c + cast.value.options;
      OptionsInConcat(head, c + cast.value.options);
      OptionsInConcat(c, cast.value.options);
      OptionsOfOptions(cast.value.options);
      LookupInConcat(head, c + cast.value.options, "cast");
      LookupInConcat(c, cast.value.options, "cast");
      CastFound(env, head + CastMembers(cast), cast.value);
    }
  }

  /** Cast members answer no other key. */
  lemma OtherLookup(head: seq<Member>, cast: Option<CastSpec>, key: string)
    requires cast.Some? ==> OnlyCastOptions(cast.value.options)
    requires key != "cast" && !CastOptionKey(key)
    ensures Has(head + CastMembers(cast), key) == Has(head, key)
    ensures Get(head + CastMembers(cast), key) == Get(head, key)
  {
    LookupInConcat(head, CastMembers(cast), key);
    if cast.Some? {
      LookupInConcat([Member("cast", Text(cast.value.name))], cast.value.options, key);
    }
  }

  lemma {:induction false} PartsOfPrefix(part: string, rest: string, current: string)
    requires '.' !in part && part != ""
    ensures PathParts(part + "." + rest, current) == [current + part] + PathParts(rest, "")
    ensures PathParts(part, current) == [current + part]
    decreases |part|
  {
    var text := part + "." + rest;
    assert text[0] == part[0] && text[1..] == part[1..] + "." + rest;
    if |part| == 1 {
      assert text[1..] == "." + rest;
      assert (text[1..])[1..] == rest;
      assert part == [part[0]];
    } else {
      PartsOfPrefix(part[1..], rest, current + [part[0]]);
      assert current + [part[0]] + part[1..] == current + part;
    }
  }

  lemma {:induction false} PathRoundTrip(path: seq<string>)
    requires forall i :: 0 <= i < |path| ==> PathPart(path[i])
    ensures PathParts(Joined(path), "") == path
    ensures path != [] ==> Joined(path) != ""
  {
    if path != [] {
      PartsOfPrefix(path[0], Joined(path[1..]), "");
      assert "" + path[0] == path[0];
      PathRoundTrip(path[1..]);
    }
  }

  lemma SourceHeadLookup(column: string, path: seq<string>, default: Option<Value>, key: string)
    ensures var head := SourceHead(column, path, default);
            && (Has(head, key) <==>
                  || key == "source"
                  || (key == "json_path" && path != [])
                  || (key == "default" && default.Some?))
            && (key == "source" ==> Get(head, key) == Text(column))
            && (key == "json_path" ==> Get(head, key) == if path == [] then Null else Text(Joined(path)))
            && (key == "default" && default.Some? ==> Get(head, key) == default.value)
  {
    var p: seq<Member> := if path == [] then [] else [Member("json_path", Text(Joined(path)))];
    var d: seq<Member> := if default.None? then [] else [Member("default", default.value)];
    LookupInConcat([Member("source", Text(column))], p + d, key);
    LookupInConcat(p, d, key);
  }

  lemma SourceHeadOptions(column: string, path: seq<string>, default: Option<Value>)
    ensures CastOptions(SourceHead(column, path, default)) == []
  {
    var p: seq<Member> := if path == [] then [] else [Member("json_path", Text(Joined(path)))];
    var d: seq<Member> := if default.None? then [] else [Member("default", default.value)];
    OptionsInConcat([Member("source", Text(column))], p + d);
    OptionsInConcat(p, d);
  }

  lemma SourceLookup(node: Node, key: string)
    requires node.SourceRef?
    requires node.cast.Some? ==> OnlyCastOptions(node.cast.value.options)
    requires key != "cast" && !CastOptionKey(key)
    ensures var ms := Unparse(node).members;
            && (Has(ms, key) <==>
                  || key == "source"
                  || (key == "json_path" && node.path != [])
                  || (key == "default" && node.default.Some?))
            && (key == "source" ==> Get(ms, key) == Text(node.column))
            && (key == "json_path" ==> Get(ms, key) == if node.path == [] then Null else Text(Joined(node.path)))
            && (key == "default" && node.default.Some? ==> Get(ms, key) == node.default.value)
  {
    SourceHeadLookup(node.column, node.path, node.default, key);
    OtherLookup(SourceHead(node.column, node.path, node.default), node.cast, key);
  }

  lemma SourceCast(env: Env, node: Node)
    requires node.SourceRef? && OptionalCastOk(env, node.cast)
    ensures CompileCast(env, Unparse(node).members) == Ok(node.cast)
  {
    var head := SourceHead(node.column, node.path, node.default);
    SourceHeadLookup(node.column, node.path, node.default, "cast");
    SourceHeadOptions(node.column, node.path, node.default);
    CastRoundTrip(env, head, node.cast);
  }

  lemma SourceNode(env: Env, ms: seq<Member>, node: Node, cast: Option<CastSpec>, depth: nat)
    requires depth <= MAX_NESTING_DEPTH && Has(ms, "source")
    requires !Has(ms, "constant") && !Has(ms, "object") && !Has(ms, "function")
    requires CompileCast(env, ms) == Ok(cast) && CompileSource(ms, cast) == Ok(node)
    ensures CompileNode(env, Obj(ms), depth) == Ok(node)
  {
  }

  lemma SourceFields(ms: seq<Member>, node: Node)
    requires node.SourceRef? && node.column != "" && (node.default.Some? ==> Literal(node.default.value))
    requires Get(ms, "source") == Text(node.column)
    requires Get(ms, "json_path") == if node.path == [] then Null else Text(Joined(node.path))
    requires node.path != [] ==> Joined(node.path) != "" && PathParts(Joined(node.path), "") == node.path
    requires Has(ms, "default") <==> node.default.Some?
    requires node.default.Some? ==> Get(ms, "default") == node.default.value
    ensures CompileSource(ms, node.cast) == Ok(node)
  {
  }

  lemma SourceRoundTrip(env: Env, node: Node, depth: nat)
    requires node.SourceRef? && WellFormed(env, node) && depth <= MAX_NESTING_DEPTH
    ensures CompileNode(env, Unparse(node), depth) == Ok(node)
  {
    hide CompileNode, CompileSource, CompileCast, Find;
    var ms := Unparse(node).members;
    SourceCast(env, node);
    SourceLookup(node, "source");
    SourceLookup(node, "constant");
    SourceLookup(node, "object");
    SourceLookup(node, "function");
    SourceLookup(node, "json_path");
    SourceLookup(node, "default");
    PathRoundTrip(node.path);
    SourceFields(ms, node);
    SourceNode(env, ms, node, node.cast, depth);
  }

  lemma OneMember(env: Env, m: Member, key: string)
    ensures Has([m], key) <==> key == m.key
    ensures Get([m], key) == if key == m.key then m.value else Null
    ensures m.key != "cast" && !CastOptionKey(m.key) ==> CompileCast(env, [m]) == Ok(None)
  {
    if m.key != "cast" && !CastOptionKey(m.key) {
      CastRoundTrip(env, [m], None);
      assert [m] + CastMembers(None) == [m];
    }
  }

  lemma ConstantRoundTrip(env: Env, value: Value, depth: nat)
    requires Literal(value) && depth <= MAX_NESTING_DEPTH
    ensures CompileNode(env, Unparse(Constant(value)), depth) == Ok(Constant(value))
  {
    var m := Member("constant", value);
    OneMember(env, m, "source");
    OneMember(env, m, "constant");
    OneMember(env, m, "object");
    OneMember(env, m, "function");
  }

  lemma ObjectRoundTrip(env: Env, node: Node, depth: nat)
    requires node.ObjectNode? && node.members != [] && depth <= MAX_NESTING_DEPTH
    requires CompileMembers(env, UnparseMembers(node.members), depth + 1) == Ok(node.members)
    ensures CompileNode(env, Unparse(node), depth) == Ok(node)
  {
    var m := Member("object", Obj(UnparseMembers(node.members)));
    OneMember(env, m, "source");
    OneMember(env, m, "constant");
    OneMember(env, m, "object");
    OneMember(env, m, "function");
  }

  lemma FunctionLookup(node: Node, key: string)
    requires node.FunctionCall?
    requires node.fcast.Some? ==> OnlyCastOptions(node.fcast.value.options)
    requires key != "cast" && !CastOptionKey(key)
    ensures var ms := Unparse(node).members;
            && (Has(ms, key) <==> key == "function" || key == "args")
            && (key == "function" ==> Get(ms, key) == Text(node.name))
            && (key == "args" ==> Get(ms, key) == List(UnparseArgs(node.args)))
  {
    var f, a := Member("function", Text(node.name)), Member("args", List(UnparseArgs(node.args)));
    LookupInConcat([f], [a], key);
    assert [f] + [a] == [f, a];
    OtherLookup([f, a], node.fcast, key);
  }

  lemma FunctionCast(env: Env, node: Node)
    requires node.FunctionCall? && OptionalCastOk(env, node.fcast)
    ensures CompileCast(env, Unparse(node).members) == Ok(node.fcast)
  {
    var f, a := Member("function", Text(node.name)), Member("args", List(UnparseArgs(node.args)));
    LookupInConcat([f], [a], "cast");
    OptionsInConcat([f], [a]);
    assert [f] + [a] == [f, a];
    CastRoundTrip(env, [f, a], node.fcast);
  }

  lemma CallFields(env: Env, ms: seq<Member>, name: string, values: seq<Value>, args: seq<Node>,
                   cast: Option<CastSpec>, depth: nat)
    requires Get(ms, "function") == Text(name) && Get(ms, "args") == List(values)
    requires name in FUNCTIONS && values != [] && (name == "lower" || name == "upper" ==> |values| == 1)
    requires CompileArgs(env, values, depth + 1) == Ok(args)
    ensures CompileCall(env, ms, cast, depth) == Ok(FunctionCall(name, args, cast))
  {
  }

  lemma CallNode(env: Env, ms: seq<Member>, node: Node, cast: Option<CastSpec>, depth: nat)
    requires depth <= MAX_NESTING_DEPTH && Has(ms, "function")
    requires !Has(ms, "source") && !Has(ms, "constant") && !Has(ms, "object")
    requires CompileCast(env, ms) == Ok(cast) && CompileCall(env, ms, cast, depth) == Ok(node)
    ensures CompileNode(env, Obj(ms), depth) == Ok(node)
  {
  }

  lemma FunctionRoundTrip(env: Env, node: Node, depth: nat)
    requires node.FunctionCall? && depth <= MAX_NESTING_DEPTH && node.args != []
    requires node.name in FUNCTIONS && (node.name == "lower" || node.name == "upper" ==> |node.args| == 1)
    requires OptionalCastOk(env, node.fcast)
    requires CompileArgs(env, UnparseArgs(node.args), depth + 1) == Ok(node.args)
    ensures CompileNode(env, Unparse(node), depth) == Ok(node)
  {
    hide CompileNode, CompileCall, CompileCast, Find;
    var ms := Unparse(node).members;
    FunctionCast(env, node);
    FunctionLookup(node, "source");
    FunctionLookup(node, "constant");
    FunctionLookup(node, "object");
    FunctionLookup(node, "function");
    FunctionLookup(node, "args");
    CallFields(env, ms, node.name, UnparseArgs(node.args), node.args, node.fcast, depth);
    CallNode(env, ms, node, node.fcast, depth);
  }

  /** Compiling what a node unparses to gives the node back: no branch of the compiler loses anything. */
  lemma {:induction false} CompileUnparse(env: Env, node: Node, depth: nat)
    requires WellFormed(env, node) && Fits(node, MAX_NESTING_DEPTH - depth)
    ensures CompileNode(env, Unparse(node), depth) == Ok(node)
    decreases node, 1
  {
    hide CompileNode;
    match node
    case Constant(value) => ConstantRoundTrip(env, value, depth);
    case SourceRef(_, _, _, _) => SourceRoundTrip(env, node, depth);
    case ObjectNode(members) =>
      assert CompileMembers(env, UnparseMembers(members), depth + 1) == Ok(members) by {
        CompileUnparsedMembers(env, members, depth + 1);
      }
      ObjectRoundTrip(env, node, depth);
    case FunctionCall(name, args, cast) =>
      assert CompileArgs(env, UnparseArgs(args), depth + 1) == Ok(args) by {
        CompileUnparsedArgs(env, args, depth + 1);
      }
      FunctionRoundTrip(env, node, depth);
  }

  lemma CompileOneMoreMember(env: Env, first: Member, rest: seq<Member>, depth: nat)
    requires CompileNode(env, first.value, depth).Ok? && CompileMembers(env, rest, depth).Ok?
    ensures CompileMembers(env, [first] + rest, depth)
         == Ok([NodeMember(first.key, CompileNode(env, first.value, depth).value)]
               + CompileMembers(env, rest, depth).value)
  {
    hide CompileNode;
    assert ([first] + rest)[1..] == rest;
  }

  lemma CompileOneMoreArg(env: Env, first: Value, rest: seq<Value>, depth: nat)
    requires CompileNode(env, first, depth).Ok? && CompileArgs(env, rest, depth).Ok?
    ensures CompileArgs(env, [first] + rest, depth)
         == Ok([CompileNode(env, first, depth).value] + CompileArgs(env, rest, depth).value)
  {
    hide CompileNode;
    assert ([first] + rest)[1..] == rest;
  }

  lemma {:induction false} CompileUnparsedMembers(env: Env, members: seq<NodeMember>, depth: nat)
    requires WellFormedMembers(env, members) && MembersFit(members, MAX_NESTING_DEPTH - depth)
    ensures CompileMembers(env, UnparseMembers(members), depth) == Ok(members)
    decreases members, 0
  {
    hide CompileNode, WellFormed, Fits, Unparse;
    if members != [] {
      CompileUnparse(env, members[0].node, depth);
      CompileUnparsedMembers(env, members[1..], depth);
      hide CompileMembers;
      var first := Member(members[0].key, Unparse(members[0].node));
      CompileOneMoreMember(env, first, UnparseMembers(members[1..]), depth);
      assert members == [members[0]] + members[1..];
    }
  }

  lemma {:induction false} CompileUnparsedArgs(env: Env, args: seq<Node>, depth: nat)
    requires WellFormedArgs(env, args) && ArgsFit(args, MAX_NESTING_DEPTH - depth)
    ensures CompileArgs(env, UnparseArgs(args), depth) == Ok(args)
    decreases args, 0
  {
    hide CompileNode, WellFormed, Fits, Unparse;
    if args != [] {
      CompileUnparse(env, args[0], depth);
      CompileUnparsedArgs(env, args[1..], depth);
      hide CompileArgs;
      CompileOneMoreArg(env, Unparse(args[0]), UnparseArgs(args[1..]), depth);
      assert args == [args[0]] + args[1..];
    }
  }

  // ---------------------------------------------------------------- what it unparses to is JSON

  lemma OnceInConcat(a: seq<Member>, b: seq<Member>)
    requires KeysOnce(Obj(a)) && KeysOnce(Obj(b))
    requires forall i, j :: 0 <= i < |a| && 0 <= j < |b| ==> a[i].key != b[j].key
    ensures KeysOnce(Obj(a + b))
  {
  }

  lemma CastMembersOnce(cast: Option<CastSpec>)
    requires cast.Some? ==> OnlyCastOptions(cast.value.options) && KeysOnce(Obj(cast.value.options))
    ensures KeysOnce(Obj(CastMembers(cast)))
    ensures forall i :: 0 <= i < |CastMembers(cast)| ==>
              CastMembers(cast)[i].key == "cast" || CastOptionKey(CastMembers(cast)[i].key)
  {
    if cast.Some? {
      OnceInConcat([Member("cast", Text(cast.value.name))], cast.value.options);
    }
  }

  lemma SourceHeadOnce(column: string, path: seq<string>, default: Option<Value>)
    requires default.Some? ==> KeysOnce(default.value)
    ensures KeysOnce(Obj(SourceHead(column, path, default)))
    ensures forall m :: m in SourceHead(column, path, default) ==> m.key in {"source", "json_path", "default"}
  {
    var p: seq<Member> := if path == [] then [] else [Member("json_path", Text(Joined(path)))];
    var d: seq<Member> := if default.None? then [] else [Member("default", default.value)];
    OnceInConcat(p, d);
    OnceInConcat([Member("source", Text(column))], p + d);
  }

  /** A well-formed node unparses to an object that holds each key once, at every depth. */
  lemma {:induction false} UnparseKeysOnce(env: Env, node: Node)
    requires WellFormed(env, node)
    ensures KeysOnce(Unparse(node))
    decreases node, 1
  {
    hide SourceHead, CastMembers, JsonLiteral, CastOk;
    match node
    case Constant(value) =>
    case SourceRef(column, path, cast, default) =>
      SourceHeadOnce(column, path, default);
      CastMembersOnce(cast);
      OnceInConcat(SourceHead(column, path, default), CastMembers(cast));
    case ObjectNode(members) =>
      UnparsedMembersOnce(env, members);
    case FunctionCall(name, args, cast) =>
      UnparsedArgsOnce(env, args);
      CastMembersOnce(cast);
      OnceInConcat([Member("function", Text(name)), Member("args", List(UnparseArgs(args)))], CastMembers(cast));
  }

  lemma {:induction false} UnparsedMembersOnce(env: Env, members: seq<NodeMember>)
    requires WellFormedMembers(env, members)
    ensures var ms := UnparseMembers(members);
            forall i :: 0 <= i < |ms| ==> ms[i].key == members[i].key && KeysOnce(ms[i].value)
    decreases members, 0
  {
    if members != [] {
      UnparseKeysOnce(env, members[0].node);
      UnparsedMembersOnce(env, members[1..]);
    }
  }

  lemma {:induction false} UnparsedArgsOnce(env: Env, args: seq<Node>)
    requires WellFormedArgs(env, args)
    ensures forall i :: 0 <= i < |args| ==> KeysOnce(UnparseArgs(args)[i])
    decreases args, 0
  {
    if args != [] {
      UnparseKeysOnce(env, args[0]);
      UnparsedArgsOnce(env, args[1..]);
    }
  }

  /** The compiler's image over all JSON, exactly. */
  lemma CompilerImage(env: Env, node: Node)
    ensures (exists spec :: KeysOnce(spec) && CompileNode(env, spec, 0) == Ok(node))
       <==> WellFormed(env, node) && Fits(node, MAX_NESTING_DEPTH)
  {
    hide CompileNode, WellFormed, Fits, Unparse, KeysOnce;
    if WellFormed(env, node) && Fits(node, MAX_NESTING_DEPTH) {
      CompileUnparse(env, node, 0);
      UnparseKeysOnce(env, node);
    }
    if spec :| KeysOnce(spec) && CompileNode(env, spec, 0) == Ok(node) {
      CompiledNodesAreWellFormed(env, spec, 0);
    }
  }

  // ---------------------------------------------------------------- what a literal may be

  /** Nothing in it, at any depth, is other than JSON. */
  predicate Plain(value: Value) {
    match value
    case List(items) => forall i :: 0 <= i < |items| ==> Plain(items[i])
    case Obj(members) => forall i :: 0 <= i < |members| ==> Plain(members[i].value)
    case Other(_, _) => false
    case _ => true
  }

  function Max(a: nat, b: nat): nat { if a >= b then a else b }

  /** How many levels of lists and objects are below it. */
  function Height(value: Value): nat
    decreases value, 1
  {
    match value
    case List(items) => ItemsHeight(items)
    case Obj(members) => MembersHeight(members)
    case _ => 0
  }

  function ItemsHeight(items: seq<Value>): nat
    decreases items, 0
  {
    if items == [] then 0 else Max(1 + Height(items[0]), ItemsHeight(items[1..]))
  }

  function MembersHeight(members: seq<Member>): nat
    decreases members, 0
  {
    if members == [] then 0 else Max(1 + Height(members[0].value), MembersHeight(members[1..]))
  }

  /** A literal is accepted exactly when it is plain JSON that nests no deeper than the limit. */
  lemma {:induction false} LiteralIff(value: Value, depth: nat)
    ensures JsonLiteral(value, depth) <==> Plain(value) && depth + Height(value) <= MAX_NESTING_DEPTH
    decreases value, 1
  {
    match value
    case List(items) => LiteralItemsIff(items, depth + 1);
    case Obj(members) => LiteralMembersIff(members, depth + 1);
    case _ =>
  }

  lemma {:induction false} LiteralItemsIff(items: seq<Value>, depth: nat)
    requires depth >= 1
    ensures JsonItems(items, depth)
       <==> && (forall i :: 0 <= i < |items| ==> Plain(items[i]))
            && (items == [] || depth - 1 + ItemsHeight(items) <= MAX_NESTING_DEPTH)
    decreases items, 0
  {
    hide JsonLiteral, Height, Plain;
    if items != [] {
      LiteralIff(items[0], depth);
      LiteralItemsIff(items[1..], depth);
      assert forall i :: 0 < i < |items| ==> items[i] == items[1..][i - 1];
    }
  }

  lemma {:induction false} LiteralMembersIff(members: seq<Member>, depth: nat)
    requires depth >= 1
    ensures JsonMembers(members, depth)
       <==> && (forall i :: 0 <= i < |members| ==> Plain(members[i].value))
            && (members == [] || depth - 1 + MembersHeight(members) <= MAX_NESTING_DEPTH)
    decreases members, 0
  {
    hide JsonLiteral, Height, Plain;
    if members != [] {
      LiteralIff(members[0].value, depth);
      LiteralMembersIff(members[1..], depth);
      assert forall i :: 0 < i < |members| ==> members[i] == members[1..][i - 1];
    }
  }

  // ---------------------------------------------------------------- what a cast may be

  const CAST_OPTION_KEYS: set<string> := {"format", "timezone", "strip", "decimal_separator"}

  lemma {:induction false} OptionsAre(ms: seq<Member>)
    ensures forall m :: m in CastOptions(ms) <==> m in ms && m.key in CAST_OPTION_KEYS
  {
    if ms != [] {
      OptionsAre(ms[1..]);
      assert ms == [ms[0]] + ms[1..];
    }
  }

  /** A node has no cast exactly when it names none and carries no option, and a cast exactly when it names one that
      takes the options it carries, all of them literals; anything else is refused. */
  lemma CastIff(env: Env, ms: seq<Member>, cast: CastSpec)
    ensures CompileCast(env, ms) == Ok(None)
       <==> Get(ms, "cast") == Null && forall m :: m in ms ==> m.key !in CAST_OPTION_KEYS
    ensures CompileCast(env, ms) == Ok(Some(cast))
       <==> && Get(ms, "cast") == Text(cast.name) && cast.options == CastOptions(ms) && env.castAccepts(cast)
            && forall m :: m in ms && m.key in CAST_OPTION_KEYS ==>
                 Plain(m.value) && Height(m.value) <= MAX_NESTING_DEPTH
  {
    OptionsAre(ms);
    hide CastOptions, Get, Plain, Height, JsonLiteral;
    var options := CastOptions(ms);
    if options != [] { assert options[0] in options; }
    forall m: Member ensures JsonLiteral(m.value, 0) <==> Plain(m.value) && Height(m.value) <= MAX_NESTING_DEPTH {
      LiteralIff(m.value, 0);
    }
    assert (forall i :: 0 <= i < |options| ==> JsonLiteral(options[i].value, 0))
      <==> forall m :: m in options ==> JsonLiteral(m.value, 0);
  }
}
