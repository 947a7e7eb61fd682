/** The grammar of mapping expressions, and that compilation accepts exactly what is in it.
    (django_connectors/projections/compiler.py) */
module Grammar {
  import opened Values
  import opened Compiler
  import opened CompilerRoundTrip

  const FORMS: set<string> := {"source", "constant", "object", "function"}

  /** Exactly one of the four forms is written. */
  predicate OneForm(ms: seq<Member>) {
    exists form :: form in FORMS && Has(ms, form) && forall other :: other in FORMS && other != form ==> !Has(ms, other)
  }

  predicate ShallowJson(value: Value) { Plain(value) && Height(value) <= MAX_NESTING_DEPTH }

  predicate NonEmptyText(value: Value) { value.Text? && value.s != "" }

  /** No cast and no cast option, or a cast that takes its options, all of them literals. */
  ghost predicate CastFits(env: Env, ms: seq<Member>) {
    if Get(ms, "cast") == Null then forall m :: m in ms ==> m.key !in CAST_OPTION_KEYS
    else
      && Get(ms, "cast").Text?
      && env.castAccepts(CastSpec(Get(ms, "cast").s, CastOptions(ms)))
      && forall m :: m in ms && m.key in CAST_OPTION_KEYS ==> ShallowJson(m.value)
  }

  /** A column name, a dotted path if there is one, and a literal default if there is one. */
  predicate SourceFits(ms: seq<Member>) {
    && NonEmptyText(Get(ms, "source"))
    && (Get(ms, "json_path") != Null ==> NonEmptyText(Get(ms, "json_path")))
    && (Has(ms, "default") ==> ShallowJson(Get(ms, "default")))
  }

  /** An expression of the grammar, `depth` levels down. */
  ghost predicate InGrammar(env: Env, spec: Value, depth: nat)
    decreases spec, 1
  {
    && depth <= MAX_NESTING_DEPTH && spec.Obj?
    && var ms := spec.members;
       && OneForm(ms) && CastFits(env, ms)
       && (Has(ms, "constant") ==> ShallowJson(Get(ms, "constant")))
       && (Has(ms, "source") ==> SourceFits(ms))
       && (Has(ms, "object") ==> ObjectFits(env, ms, depth))
       && (Has(ms, "function") ==> CallFits(env, ms, depth))
  }

  /** A non-empty object of expressions. */
  ghost predicate ObjectFits(env: Env, ms: seq<Member>, depth: nat)
    decreases ms, 1
  {
    match Find(ms, "object")
    case None => false
    case Some(at) =>
      && ms[at].value.Obj? && ms[at].value.members != []
      && forall i :: 0 <= i < |ms[at].value.members| ==> InGrammar(env, ms[at].value.members[i].value, depth + 1)
  }

  /** A known function over a non-empty list of expressions; a change of case takes exactly one. */
  ghost predicate CallFits(env: Env, ms: seq<Member>, depth: nat)
    decreases ms, 1
  {
    match Find(ms, "args")
    case None => false
    case Some(at) =>
      && Get(ms, "function") in {Text("coalesce"), Text("concat"), Text("lower"), Text("upper")}
      && ms[at].value.List? && ms[at].value.items != []
      && (Get(ms, "function") in {Text("lower"), Text("upper")} ==> |ms[at].value.items| == 1)
      && forall i :: 0 <= i < |ms[at].value.items| ==> InGrammar(env, ms[at].value.items[i], depth + 1)
  }

  lemma OneFormIff(ms: seq<Member>)
    ensures OneForm(ms) <==> FormCount(ms) == 1
  {
    hide Has;
    assert FORMS == {"source", "constant", "object", "function"};
    if FormCount(ms) == 1 {
      var form := if Has(ms, "source") then "source" else if Has(ms, "constant") then "constant"
                  else if Has(ms, "object") then "object" else "function";
      assert Has(ms, form) && form in FORMS;
    }
  }

  lemma CastFitsIff(env: Env, ms: seq<Member>)
    ensures CastFits(env, ms) <==> CompileCast(env, ms).Ok?
  {
    var cast := Get(ms, "cast");
    if cast.Text? {
      CastIff(env, ms, CastSpec(cast.s, CastOptions(ms)));
    } else {
      CastIff(env, ms, CastSpec("", []));
    }
  }

  lemma SourceFitsIff(ms: seq<Member>, cast: Option<CastSpec>)
    ensures SourceFits(ms) <==> CompileSource(ms, cast).Ok?
  {
    LiteralIff(Get(ms, "default"), 0);
  }

  /** Compilation accepts exactly the expressions of the grammar. */
  lemma {:induction false} CompilesIff(env: Env, spec: Value, depth: nat)
    ensures CompileNode(env, spec, depth).Ok? <==> InGrammar(env, spec, depth)
    decreases spec, 1
  {
    hide CastFits, CompileCast, SourceFits, CompileSource, ObjectFits, CompileObject, CallFits, CompileCall, OneForm;
    hide FormCount, JsonLiteral, Plain, Height;
    if spec.Obj? {
      var ms := spec.members;
      OneFormIff(ms);
      CastFitsIff(env, ms);
      LiteralIff(Get(ms, "constant"), 0);
      if CompileCast(env, ms).Ok? { SourceFitsIff(ms, CompileCast(env, ms).value); }
      ObjectFitsIff(env, ms, depth);
      if CompileCast(env, ms).Ok? { CallFitsIff(env, ms, CompileCast(env, ms).value, depth); }
      ExactlyOne(ms);
    }
  }

  lemma ExactlyOne(ms: seq<Member>)
    ensures OneForm(ms) ==>
              && (Has(ms, "constant") || Has(ms, "source") || Has(ms, "object") || Has(ms, "function"))
              && (Has(ms, "constant") ==> !Has(ms, "source") && !Has(ms, "object") && !Has(ms, "function"))
              && (Has(ms, "source") ==> !Has(ms, "object") && !Has(ms, "function"))
              && (Has(ms, "object") ==> !Has(ms, "function"))
  {
    OneFormIff(ms);
    hide OneForm, Has;
  }

  lemma {:induction false} ObjectFitsIff(env: Env, ms: seq<Member>, depth: nat)
    ensures ObjectFits(env, ms, depth) <==> CompileObject(env, ms, depth).Ok?
    decreases ms, 1
  {
    hide CompileNode, InGrammar, CompileMembers;
    match Find(ms, "object")
    case None =>
    case Some(at) => if ms[at].value.Obj? { MembersIff(env, ms[at].value.members, depth + 1); }
  }

  lemma {:induction false} CallFitsIff(env: Env, ms: seq<Member>, cast: Option<CastSpec>, depth: nat)
    ensures CallFits(env, ms, depth) <==> CompileCall(env, ms, cast, depth).Ok?
    decreases ms, 1
  {
    hide CompileNode, InGrammar, CompileArgs, Get;
    match Find(ms, "args")
    case None =>
    case Some(at) => if ms[at].value.List? { ArgsIff(env, ms[at].value.items, depth + 1); }
  }

  lemma {:induction false} MembersIff(env: Env, ms: seq<Member>, depth: nat)
    ensures CompileMembers(env, ms, depth).Ok? <==> forall i :: 0 <= i < |ms| ==> InGrammar(env, ms[i].value, depth)
    decreases ms, 0
  {
    hide CompileNode, InGrammar;
    if ms != [] {
      CompilesIff(env, ms[0].value, depth);
      MembersIff(env, ms[1..], depth);
      assert forall i :: 0 < i < |ms| ==> ms[i] == ms[1..][i - 1];
    }
  }

  lemma {:induction false} ArgsIff(env: Env, args: seq<Value>, depth: nat)
    ensures CompileArgs(env, args, depth).Ok? <==> forall i :: 0 <= i < |args| ==> InGrammar(env, args[i], depth)
    decreases args, 0
  {
    hide CompileNode, InGrammar;
    if args != [] {
      CompilesIff(env, args[0], depth);
      ArgsIff(env, args[1..], depth);
      assert forall i :: 0 < i < |args| ==> args[i] == args[1..][i - 1];
    }
  }
}
