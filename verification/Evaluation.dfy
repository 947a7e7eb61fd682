/** What a compiled expression means, form by form: which argument answers, which failure is reported, what the default
    and the cast do. (django_connectors/projections/compiler.py, evaluate and matches) */
module Evaluation {
  import opened Values
  import opened Compiler
  import opened Mapping

  /** A call without a cast. */
  function Call(name: string, args: seq<Node>): Node { FunctionCall(name, args, None) }

  /** The text an argument contributes. */
  function TextOf(env: Env, value: Value): string { if value.Null? then "" else env.str(value) }

  /** Argument `i` is the first that fails. */
  ghost predicate FirstFailure(env: Env, args: seq<Node>, row: Row, i: nat) {
    && i < |args| && Evaluate(env, args[i], row).Err?
    && forall j :: 0 <= j < i ==> Evaluate(env, args[j], row).Ok?
  }

  // ---------------------------------------------------------------- concat

  /** One argument contributes its text, and None contributes nothing; no argument gives the empty text. */
  lemma ConcatOfOne(env: Env, arg: Node, row: Row)
    ensures Evaluate(env, Call("concat", []), row) == Ok(Text(""))
    ensures Evaluate(env, arg, row).Ok? ==>
              Evaluate(env, Call("concat", [arg]), row) == Ok(Text(TextOf(env, Evaluate(env, arg, row).value)))
    ensures Evaluate(env, arg, row).Err? ==> Evaluate(env, Call("concat", [arg]), row) == Evaluate(env, arg, row)
  {
    assert [arg][1..] == [];
    assert EvaluateConcat(env, [], row) == Ok("");
    var item := Evaluate(env, arg, row);
    if item.Ok? {
      assert TextOf(env, item.value) + "" == TextOf(env, item.value);
    }
  }

  /** The text over `a + b` is the text over `a` followed by the text over `b`; the first failure is reported. */
  lemma ConcatSplits(env: Env, a: seq<Node>, b: seq<Node>, row: Row)
    ensures var whole, left, right := Evaluate(env, Call("concat", a + b), row), Evaluate(env, Call("concat", a), row),
                                      Evaluate(env, Call("concat", b), row);
            && (left.Err? ==> whole == left)
            && (left.Ok? && right.Err? ==> whole == right)
            && (left.Ok? && right.Ok? ==>
                  && left.value.Text? && right.value.Text?
                  && whole == Ok(Text(left.value.s + right.value.s)))
  {
    TextsSplit(env, a, b, row);
    hide EvaluateConcat;
  }

  lemma {:induction false} TextsSplit(env: Env, a: seq<Node>, b: seq<Node>, row: Row)
    ensures var whole, left, right := EvaluateConcat(env, a + b, row), EvaluateConcat(env, a, row),
                                      EvaluateConcat(env, b, row);
            && (left.Err? ==> whole == left)
            && (left.Ok? && right.Err? ==> whole == right)
            && (left.Ok? && right.Ok? ==> whole == Ok(left.value + right.value))
  {
    hide Evaluate, EvaluateConcat;
    TextsOfNext(env, a, row);
    if a == [] {
      assert a + b == b;
      assert forall text: string :: "" + text == text;
    } else {
      assert (a + b)[0] == a[0] && (a + b)[1..] == a[1..] + b;
      TextsOfNext(env, a + b, row);
      TextsSplit(env, a[1..], b, row);
      var item, more, rest := Evaluate(env, a[0], row), EvaluateConcat(env, a[1..], row), EvaluateConcat(env, b, row);
      if item.Ok? && more.Ok? && rest.Ok? {
        Regroup(TextOf(env, item.value), more.value, rest.value);
      }
    }
  }

  lemma Regroup(a: string, b: string, c: string)
    ensures a + (b + c) == (a + b) + c
  {
  }

  lemma TextsOfNext(env: Env, args: seq<Node>, row: Row)
    ensures args == [] ==> EvaluateConcat(env, args, row) == Ok("")
    ensures args != [] ==>
              var item, rest := Evaluate(env, args[0], row), EvaluateConcat(env, args[1..], row);
              && (item.Err? ==> EvaluateConcat(env, args, row) == Err(item.error))
              && (item.Ok? && rest.Err? ==> EvaluateConcat(env, args, row) == rest)
              && (item.Ok? && rest.Ok? ==> EvaluateConcat(env, args, row) == Ok(TextOf(env, item.value) + rest.value))
  {
    hide Evaluate;
  }

  /** The join fails when some argument does, with the failure of the first that does. */
  lemma {:induction false} ConcatFails(env: Env, args: seq<Node>, row: Row)
    ensures Evaluate(env, Call("concat", args), row).Ok?
       <==> forall i :: 0 <= i < |args| ==> Evaluate(env, args[i], row).Ok?
    ensures forall i: nat :: FirstFailure(env, args, row, i) ==>
              Evaluate(env, Call("concat", args), row) == Err(Evaluate(env, args[i], row).error)
  {
    if args != [] {
      var tail := args[1..];
      ConcatFails(env, tail, row);
      assert forall i :: 0 < i < |args| ==> args[i] == tail[i - 1];
      forall i: nat | i > 0 && FirstFailure(env, args, row, i) ensures FirstFailure(env, tail, row, i - 1) {
        forall j | 0 <= j < i - 1 ensures Evaluate(env, tail[j], row).Ok? {
          assert tail[j] == args[j + 1];
        }
      }
    }
  }

  // ---------------------------------------------------------------- coalesce

  /** With the first `i` arguments None, the next one that is not answers, even by failing; later ones do not
      matter. With every argument None the answer is None. */
  lemma {:induction false} CoalesceIsTheFirst(env: Env, args: seq<Node>, row: Row, i: nat)
    requires i <= |args| && forall j :: 0 <= j < i ==> Evaluate(env, args[j], row) == Ok(Null)
    ensures i == |args| ==> Evaluate(env, Call("coalesce", args), row) == Ok(Null)
    ensures i < |args| && Evaluate(env, args[i], row) != Ok(Null) ==>
              Evaluate(env, Call("coalesce", args), row) == Evaluate(env, args[i], row)
  {
    if args != [] && i > 0 {
      var tail := args[1..];
      assert forall j :: 0 < j < |args| ==> args[j] == tail[j - 1];
      forall j | 0 <= j < i - 1 ensures Evaluate(env, tail[j], row) == Ok(Null) {
        assert tail[j] == args[j + 1];
      }
      CoalesceIsTheFirst(env, tail, row, i - 1);
    }
  }

  /** The loop of the source, which stops at the first argument that is not None. */
  method Coalesce(env: Env, args: seq<Node>, row: Row) returns (r: Result<Value, Failure>)
    ensures r == Evaluate(env, Call("coalesce", args), row)
  {
    for i := 0 to |args|
      invariant forall j :: 0 <= j < i ==> Evaluate(env, args[j], row) == Ok(Null)
    {
      var value := Evaluate(env, args[i], row);
      if value != Ok(Null) {
        CoalesceIsTheFirst(env, args, row, i);
        return value;
      }
    }
    CoalesceIsTheFirst(env, args, row, |args|);
    return Ok(Null);
  }

  // ---------------------------------------------------------------- lower and upper

  /** The case change of the argument's text; None of None. */
  lemma CaseOf(env: Env, arg: Node, row: Row)
    ensures var raw, low, up := Evaluate(env, arg, row), Evaluate(env, Call("lower", [arg]), row),
                                Evaluate(env, Call("upper", [arg]), row);
            && (raw.Err? ==> low == raw && up == raw)
            && (raw == Ok(Null) ==> low == Ok(Null) && up == Ok(Null))
            && (raw.Ok? && !raw.value.Null? ==>
                  && low == Ok(Text(env.lower(env.str(raw.value))))
                  && up == Ok(Text(env.upper(env.str(raw.value)))))
  {
  }

  // ---------------------------------------------------------------- casts, sources, objects

  /** A cast turns every answer but None and every failure of the call into what the type makes of it. */
  lemma CastComesLast(env: Env, name: string, args: seq<Node>, cast: CastSpec, row: Row)
    ensures var plain, whole := Evaluate(env, Call(name, args), row),
                                Evaluate(env, FunctionCall(name, args, Some(cast)), row);
            && (plain.Err? || plain == Ok(Null) ==> whole == plain)
            && (plain.Ok? && !plain.value.Null? ==>
                  forall v :: whole == Ok(v) <==> env.coerce(cast, plain.value) == Some(v))
            && (plain.Ok? ==> whole.Ok? || whole == Err(Cast))
  {
  }

  /** A source answers with its default exactly when it has one and its column is not there or leads to None. It blames
      the mapping exactly for a missing column without a default, and the row exactly for a value its cast refuses. */
  lemma SourceAnswers(env: Env, column: string, path: seq<string>, cast: Option<CastSpec>, default: Option<Value>,
                      row: Row)
    ensures var answer := Evaluate(env, SourceRef(column, path, cast, default), row);
            var bare := Evaluate(env, SourceRef(column, path, None, None), row);
            && (bare.Err? || bare == Ok(Null) ==> answer == if default.Some? then Ok(default.value) else bare)
            && (bare.Ok? && !bare.value.Null? && cast.None? ==> answer == bare)
            && (bare.Ok? && !bare.value.Null? && cast.Some? ==>
                  && (forall v :: answer == Ok(v) <==> env.coerce(cast.value, bare.value) == Some(v))
                  && (answer.Ok? || answer == Err(Cast)))
    ensures Evaluate(env, SourceRef(column, [], None, None), row)
         == if column in row then Ok(row[column]) else Err(MappingValidation)
    ensures column !in row ==> Evaluate(env, SourceRef(column, path, None, None), row) == Err(MappingValidation)
    ensures column in row && path != [] ==>
              Evaluate(env, SourceRef(column, path, None, None), row) == Ok(Walked(env, row[column], path))
  {
  }

  /** One more part of a path reads one level deeper into what the shorter path leads to. */
  lemma {:induction false} PathSteps(env: Env, value: Value, path: seq<string>, part: string)
    ensures WalkPath(env, value, []) == value
    ensures WalkPath(env, value, path + [part]) == WalkPath(env, WalkPath(env, value, path), [part])
  {
    if path == [] {
      assert path + [part] == [part];
    } else {
      assert (path + [part])[1..] == path[1..] + [part];
      match value
      case Obj(ms) =>
        if Find(ms, path[0]).Some? { PathSteps(env, ms[Find(ms, path[0]).value].value, path[1..], part); }
      case List(items) =>
        var k := env.parseInt(path[0]);
        if k.Some? && -|items| <= k.value < |items| {
          PathSteps(env, items[if k.value < 0 then k.value + |items| else k.value], path[1..], part);
        }
      case _ =>
    }
  }

  /** An object answers with every member's answer under its own key, in order, or with the first failure. */
  lemma {:induction false} ObjectAnswers(env: Env, members: seq<NodeMember>, row: Row)
    ensures var answer := Evaluate(env, ObjectNode(members), row);
            && (answer.Ok? <==> forall i :: 0 <= i < |members| ==> Evaluate(env, members[i].node, row).Ok?)
            && (answer.Ok? ==>
                  && answer.value.Obj? && |answer.value.members| == |members|
                  && forall i :: 0 <= i < |members| ==>
                       Evaluate(env, members[i].node, row) == Ok(answer.value.members[i].value)
                       && answer.value.members[i].key == members[i].key)
    ensures forall i ::
              && 0 <= i < |members| && Evaluate(env, members[i].node, row).Err?
              && (forall j :: 0 <= j < i ==> Evaluate(env, members[j].node, row).Ok?)
              ==> Evaluate(env, ObjectNode(members), row) == Err(Evaluate(env, members[i].node, row).error)
  {
    if members != [] {
      var tail := members[1..];
      ObjectAnswers(env, tail, row);
      assert forall i :: 0 < i < |members| ==> members[i] == tail[i - 1];
      forall i |
        && 0 < i < |members| && Evaluate(env, members[i].node, row).Err?
        && (forall j :: 0 <= j < i ==> Evaluate(env, members[j].node, row).Ok?)
        ensures Evaluate(env, ObjectNode(tail), row) == Err(Evaluate(env, members[i].node, row).error)
      {
        assert tail[i - 1] == members[i];
        forall j | 0 <= j < i - 1 ensures Evaluate(env, tail[j].node, row).Ok? {
          assert tail[j] == members[j + 1];
        }
      }
    }
  }

  // ---------------------------------------------------------------- filters

  /** `eq` and `in` over one value agree, lists split, and what is not equal or not in is so only for a value that is
      there: like SQL, None matches nothing but a null check. */
  lemma FiltersAreThreeValued(env: Env, column: string, value: Value, a: seq<Value>, b: seq<Value>, row: Row)
    ensures var matches := (op: FilterOp, value: Value) => FilterMatches(env, Filter(column, op, value), row);
            && (matches(IsNull, value) <==> !matches(IsNotNull, value))
            && (matches(IsNull, value) <==> column !in row || row[column] == Null)
            && (matches(IsNull, value) ==> forall op: FilterOp :: !op.IsNull? ==> !matches(op, value))
            && (matches(Eq, value) || matches(Ne, value) <==> matches(IsNotNull, value))
            && !(matches(Eq, value) && matches(Ne, value))
            && (matches(Eq, value) ==> env.looseEqual(Cell(row, column), value))
            && (matches(Ne, value) ==> !env.looseEqual(Cell(row, column), value))
            && !matches(In, List([])) && (matches(NotIn, List([])) <==> matches(IsNotNull, value))
            && (matches(In, List([value])) <==> matches(Eq, value))
            && (matches(NotIn, List([value])) <==> matches(Ne, value))
            && (matches(In, List(a + b)) <==> matches(In, List(a)) || matches(In, List(b)))
            && (matches(NotIn, List(a + b)) <==> matches(NotIn, List(a)) && matches(NotIn, List(b)))
  {
    var actual := Cell(row, column);
    AnyEqualSplits(env, actual, a, b);
    assert List([value]).items[0] == value;
  }

  /** A row is selected exactly when every filter lets it through; none means every row is. */
  lemma EveryFilterCounts(env: Env, a: seq<Filter>, b: seq<Filter>, filter: Filter, row: Row)
    ensures Matches(env, [], row)
    ensures Matches(env, [filter], row) <==> FilterMatches(env, filter, row)
    ensures Matches(env, a + b, row) <==> Matches(env, a, row) && Matches(env, b, row)
  {
    hide FilterMatches;
    assert [filter][0] == filter;
    assert forall i :: 0 <= i < |a| ==> (a + b)[i] == a[i];
    if Matches(env, a + b, row) {
      forall i | 0 <= i < |b| ensures FilterMatches(env, b[i], row) {
        assert (a + b)[|a| + i] == b[i];
      }
    }
  }

  lemma AnyEqualSplits(env: Env, actual: Value, a: seq<Value>, b: seq<Value>)
    ensures AnyEqual(env, actual, List(a + b)) <==> AnyEqual(env, actual, List(a)) || AnyEqual(env, actual, List(b))
  {
    if AnyEqual(env, actual, List(a + b)) {
      var i :| 0 <= i < |a + b| && env.looseEqual(actual, (a + b)[i]);
      if i < |a| { assert env.looseEqual(actual, List(a).items[i]); }
      else { assert env.looseEqual(actual, List(b).items[i - |a|]); }
    }
    if i :| 0 <= i < |a| && env.looseEqual(actual, a[i]) {
      assert (a + b)[i] == a[i];
    }
    if i :| 0 <= i < |b| && env.looseEqual(actual, b[i]) {
      assert (a + b)[|a| + i] == b[i];
    }
  }
}
