/** The bundled stand-in for the Typer command-line library: commands registered under a
    name, dispatch on the first argument, and a `--option value` parser driven by the
    parameters of the command's function (`inspect.signature`, given here as a sequence
    of parameter records). */
module TyperShim {
  import opened Options
  import opened Text

  // ---------------------------------------------------------------------------
  // Annotations

  /** A parameter annotation: a string (every annotation is a string when annotations
      are postponed), one of the types the parser tells apart, no annotation
      (`inspect._empty`), or any other annotation object. */
  datatype Annotation =
    | Written(text: string)
    | PathType | BoolType | FloatType | IntType | StrType | ListType
    | OptionalBool | ListOfStr
    | Unannotated
    | OtherAnnotation(name: string)

  /** The lower-cased spellings `_resolve_annotation` turns into types. */
  const ResolvedSpellings: set<string> := {"path", "bool", "float", "int", "list[str]"}

  /** `_resolve_annotation`: the five spellings, in any case, become their types;
      everything else is returned as it is. */
  function ResolveAnnotation(a: Annotation): (r: Annotation)
    ensures r != a <==> a.Written? && LowerStr(a.text) in ResolvedSpellings
    ensures r.Written? ==> r == a
  {
    if a.Written? then
      var lowered := LowerStr(a.text);
      if lowered == "path" then PathType
      else if lowered == "bool" then BoolType
      else if lowered == "float" then FloatType
      else if lowered == "int" then IntType
      else if lowered == "list[str]" then ListType
      else a
    else a
  }

  /** Resolving twice is resolving once. */
  lemma {:induction false} ResolveIdempotent(a: Annotation)
    ensures ResolveAnnotation(ResolveAnnotation(a)) == ResolveAnnotation(a)
  {
    var r := ResolveAnnotation(a);
    if r != a {
      assert !r.Written?;
    }
  }

  /** Two spellings that agree up to case resolve alike. */
  lemma {:induction false} ResolveIgnoresCase(s: string, t: string)
    requires LowerStr(s) == LowerStr(t)
    requires LowerStr(s) in ResolvedSpellings
    ensures ResolveAnnotation(Written(s)) == ResolveAnnotation(Written(t))
    ensures !ResolveAnnotation(Written(s)).Written?
  {
  }

  // ---------------------------------------------------------------------------
  // Values, defaults and parameters

  /** The values the parser produces or a default holds. `float(token)` and
      `int(token)` are kept as the token they were read from. */
  datatype Value =
    | NoneValue
    | BoolValue(b: bool)
    | StrValue(s: string)
    | ListValue(items: seq<string>)
    | PathValue(path: string)
    | FloatOf(floatToken: string)
    | IntOf(intToken: string)

  /** The `default` of an `Option(...)`: the ellipsis (required) or a value. */
  datatype OptionDefault = Ellipsis | Given(value: Value)

  /** A parameter's default: none at all, an `Option(...)`, or a plain value. */
  datatype Default = NoDefault | OptionOf(option: OptionDefault) | Plain(plain: Value)

  datatype Param = Param(name: string, annotation: Annotation, byDefault: Default)

  predicate DistinctNames(params: seq<Param>)
  {
    forall i, j :: 0 <= i < j < |params| ==> params[i].name != params[j].name
  }

  /** The failures the parser and the dispatcher raise: `SystemExit(code)`,
      `SystemExit(message)`, and the `TypeError` of `list(value)` on a default that is
      not iterable. */
  datatype Failure = Exit(code: int) | ExitWith(message: string) | NotIterable

  datatype Outcome<T> = Success(value: T) | Raised(failure: Failure)

  /** `token.startswith("--")` */
  predicate IsOptionToken(token: string)
  {
    |token| >= 2 && token[..2] == "--"
  }

  /** The option token `t` names the parameter `k`: `--` and then `k` with `_` written
      as `-` or as `_`. */
  predicate Names(t: string, k: string)
  {
    IsOptionToken(t) && Underscored(t[2..]) == k
  }

  /** `s.replace("-", "_")` */
  function Underscored(s: string): (r: string)
    ensures |r| == |s| && '-' !in r
  {
    ReplaceChar(s, '-', '_')
  }

  /** `parameters.get(key)` */
  function Lookup(params: seq<Param>, key: string): (r: Option<Param>)
    ensures r.Some? ==> r.value in params && r.value.name == key
    ensures r.None? <==> forall p :: p in params ==> p.name != key
  {
    if |params| == 0 then None
    else if params[0].name == key then Some(params[0])
    else
      assert forall p :: p in params ==> p == params[0] || p in params[1..];
      Lookup(params[1..], key)
  }

  /** The value a parameter starts with: the default of an `Option` unless it is `...`,
      a plain default, and `None` otherwise. */
  function InitialValue(d: Default): (v: Value)
    ensures d.NoDefault? || d == OptionOf(Ellipsis) ==> v == NoneValue
    ensures d.Plain? ==> v == d.plain
    ensures d.OptionOf? && d.option.Given? ==> v == d.option.value
  {
    match d
    case NoDefault => NoneValue
    case OptionOf(Ellipsis) => NoneValue
    case OptionOf(Given(v)) => v
    case Plain(v) => v
  }

  /** The dictionary after the first loop over the parameters. */
  function InitialResult(params: seq<Param>): (m: map<string, Value>)
    ensures forall p :: p in params ==> p.name in m
    ensures forall k :: k in m ==> Lookup(params, k).Some?
  {
    if |params| == 0 then map[]
    else
      var last := params[|params| - 1];
      assert forall p :: p in params ==> p == last || p in params[..|params| - 1];
      InitialResult(params[..|params| - 1])[last.name := InitialValue(last.byDefault)]
  }

  /** With distinct names, every parameter starts with its own initial value. */
  lemma {:induction false} InitialResultValue(params: seq<Param>, i: nat)
    requires DistinctNames(params) && i < |params|
    ensures InitialResult(params)[params[i].name] == InitialValue(params[i].byDefault)
    decreases |params|
  {
    var init := params[..|params| - 1];
    if i < |params| - 1 {
      assert init[i] == params[i];
      InitialResultValue(init, i);
    }
  }

  // ---------------------------------------------------------------------------
  // Reading one option

  /** The lower-cased words that make a boolean option false. */
  const FalseWords: set<string> := {"false", "0", "no"}

  /** `annotation in (bool, Optional[bool])`, or an `Option` whose default is a bool. */
  predicate IsBoolParam(annotation: Annotation, d: Default)
  {
    annotation == BoolType || annotation == OptionalBool ||
    (d.OptionOf? && d.option.Given? && d.option.value.BoolValue?)
  }

  /** `annotation in (List[str], list)` */
  predicate IsListParam(annotation: Annotation)
  {
    annotation == ListOfStr || annotation == ListType
  }

  /** `[] if v is None else list(v)`: a list is copied, a string gives its characters,
      and anything else is not iterable. */
  function AsList(v: Value): (r: Outcome<seq<string>>)
    ensures v == NoneValue ==> r == Success([])
    ensures v.ListValue? ==> r == Success(v.items)
    ensures r.Raised? <==> !(v.NoneValue? || v.ListValue? || v.StrValue?)
    ensures v.StrValue? ==> r.Success? && |r.value| == |v.s| && forall i :: 0 <= i < |v.s| ==> r.value[i] == [v.s[i]]
  {
    match v
    case NoneValue => Success([])
    case ListValue(items) => Success(items)
    case StrValue(s) => Success(seq(|s|, i requires 0 <= i < |s| => [s[i]]))
    case _ => Raised(NotIterable)
  }

  /** `_convert_value(annotation, token)`: a path, a float or an int for those
      annotations and the token itself otherwise. The `__origin__ is Optional` test
      never holds (the origin of `Optional[X]` is `Union`), so it is left out. */
  function ConvertValue(annotation: Annotation, token: string): (v: Value)
    ensures v == StrValue(token) || v == PathValue(token) || v == FloatOf(token) || v == IntOf(token)
    ensures v == PathValue(token) <==> ResolveAnnotation(annotation) == PathType
    ensures v == FloatOf(token) <==> ResolveAnnotation(annotation) == FloatType
    ensures v == IntOf(token) <==> ResolveAnnotation(annotation) == IntType
  {
    var target := ResolveAnnotation(annotation);
    if target == StrType || target == Unannotated then StrValue(token)
    else if target == PathType then PathValue(token)
    else if target == FloatType then FloatOf(token)
    else if target == IntType then IntOf(token)
    else StrValue(token)
  }

  /** The tokens from position `i` up to the next `--` token or the end: what a list
      option collects. */
  function Run(argv: seq<string>, i: nat): (r: seq<string>)
    requires i <= |argv|
    ensures i + |r| <= |argv| && r == argv[i..i + |r|]
    ensures forall t :: t in r ==> !IsOptionToken(t)
    ensures i + |r| == |argv| || IsOptionToken(argv[i + |r|])
    decreases |argv| - i
  {
    if i == |argv| || IsOptionToken(argv[i]) then []
    else [argv[i]] + Run(argv, i + 1)
  }

  /** Any stretch of tokens without a `--` token that ends at a `--` token or at the end
      is the run that starts there. */
  lemma {:induction false} RunIs(argv: seq<string>, i: nat, j: nat)
    requires i <= j <= |argv|
    requires forall t :: t in argv[i..j] ==> !IsOptionToken(t)
    requires j == |argv| || IsOptionToken(argv[j])
    ensures Run(argv, i) == argv[i..j]
  {
    var r := Run(argv, i);
    assert forall k :: i <= k < j ==> argv[k] == argv[i..j][k - i];
    assert forall k :: i <= k < i + |r| ==> argv[k] == r[k - i];
  }

  // ---------------------------------------------------------------------------
  // `_parse_arguments`

  /** One round of the `while idx < len(argv)` loop at position `idx`: the position
      the next round starts at and the updated dictionary, or the failure raised. */
  function Step(params: seq<Param>, argv: seq<string>, idx: nat, result: map<string, Value>): (r: Outcome<(nat, map<string, Value>)>)
    requires idx < |argv|
    requires forall p :: p in params ==> p.name in result
    ensures r.Success? ==> idx < r.value.0 <= |argv| && r.value.1.Keys == result.Keys
    ensures r.Success? ==> IsOptionToken(argv[idx])
    ensures r.Success? ==> forall k :: k in result && !Names(argv[idx], k) ==> r.value.1[k] == result[k]
    ensures r.Raised? ==> !r.failure.Exit?
    ensures !IsOptionToken(argv[idx]) ==> r == Raised(ExitWith("Unexpected argument " + argv[idx]))
    ensures IsOptionToken(argv[idx]) && Lookup(params, Underscored(argv[idx][2..])).None? ==>
      r == Raised(ExitWith("Unknown option " + argv[idx]))
  {
    var token := argv[idx];
    if !IsOptionToken(token) then Raised(ExitWith("Unexpected argument " + token))
    else
      var key := Underscored(token[2..]);
      match Lookup(params, key)
      case None => Raised(ExitWith("Unknown option " + token))
      case Some(p) =>
        var annotation := ResolveAnnotation(p.annotation);
        if IsBoolParam(annotation, p.byDefault) then
          if idx + 1 < |argv| && !IsOptionToken(argv[idx + 1]) then
            Success((idx + 2, result[key := BoolValue(LowerStr(argv[idx + 1]) !in FalseWords)]))
          else
            Success((idx + 1, result[key := BoolValue(true)]))
        else if IsListParam(annotation) then
          match AsList(result[key])
          case Raised(f) => Raised(f)
          case Success(existing) =>
            var values := Run(argv, idx + 1);
            Success((idx + 1 + |values|, result[key := ListValue(existing + values)]))
        else if idx + 1 >= |argv| then Raised(ExitWith("Option " + token + " requires a value"))
        else Success((idx + 2, result[key := ConvertValue(annotation, argv[idx + 1])]))
  }

  /** A bool option at `idx` takes the next token only when it is not a `--` token. */
  lemma {:induction false} StepBool(params: seq<Param>, argv: seq<string>, idx: nat, result: map<string, Value>,
                                    key: string, value: bool, next: nat)
    requires idx < |argv| && IsOptionToken(argv[idx]) && key == Underscored(argv[idx][2..])
    requires forall p :: p in params ==> p.name in result
    requires Lookup(params, key).Some?
    requires IsBoolParam(ResolveAnnotation(Lookup(params, key).value.annotation), Lookup(params, key).value.byDefault)
    requires if idx + 1 < |argv| && !IsOptionToken(argv[idx + 1])
             then next == idx + 2 && value == (LowerStr(argv[idx + 1]) !in FalseWords)
             else next == idx + 1 && value
    ensures Step(params, argv, idx, result) == Success((next, result[key := BoolValue(value)]))
  {
  }

  /** A list option at `idx` takes the run of tokens after it. */
  lemma {:induction false} StepList(params: seq<Param>, argv: seq<string>, idx: nat, result: map<string, Value>,
                                    key: string, existing: seq<string>, values: seq<string>, next: nat)
    requires idx < |argv| && IsOptionToken(argv[idx]) && key == Underscored(argv[idx][2..])
    requires forall p :: p in params ==> p.name in result
    requires Lookup(params, key).Some?
    requires !IsBoolParam(ResolveAnnotation(Lookup(params, key).value.annotation), Lookup(params, key).value.byDefault)
    requires IsListParam(ResolveAnnotation(Lookup(params, key).value.annotation))
    requires AsList(result[key]) == Success(existing)
    requires values == existing + Run(argv, idx + 1) && next == idx + 1 + |Run(argv, idx + 1)|
    ensures Step(params, argv, idx, result) == Success((next, result[key := ListValue(values)]))
  {
  }

  /** The `while idx < len(argv)` loop from position `idx` on, with the dictionary
      `result` built so far. */
  function ParseFrom(params: seq<Param>, argv: seq<string>, idx: nat, result: map<string, Value>): (r: Outcome<map<string, Value>>)
    requires idx <= |argv|
    requires forall p :: p in params ==> p.name in result
    ensures r.Success? ==> r.value.Keys == result.Keys
    ensures r.Raised? ==> !r.failure.Exit?
    ensures idx < |argv| && Step(params, argv, idx, result).Raised? ==>
      r == Raised(Step(params, argv, idx, result).failure)
    decreases |argv| - idx
  {
    if idx == |argv| then Success(result)
    else
      match Step(params, argv, idx, result)
      case Raised(f) => Raised(f)
      case Success((next, updated)) => ParseFrom(params, argv, next, updated)
  }

  /** A parameter that is still `None` after the arguments are read and has no default
      at all. */
  predicate Missing(p: Param, v: Value)
  {
    v == NoneValue && p.byDefault.NoDefault?
  }

  /** What the second loop over the parameters leaves for a parameter whose value is
      `v`: a `None` is replaced by the default of an `Option` unless that is `...`. */
  function Completed(p: Param, v: Value): Value
  {
    if v == NoneValue && p.byDefault.OptionOf? && p.byDefault.option.Given? then p.byDefault.option.value else v
  }

  /** `Missing option --name`, with `_` shown as `-`. */
  function MissingMessage(name: string): string
  {
    "Missing option --" + ReplaceChar(name, '_', '-')
  }

  /** The second loop's work on one parameter: a `None` is replaced by the default of
      an `Option` unless that default is `...`. */
  function CompleteOne(p: Param, m: map<string, Value>): (r: map<string, Value>)
    requires p.name in m
    ensures r.Keys == m.Keys && r[p.name] == Completed(p, m[p.name])
    ensures forall k :: k in m && k != p.name ==> r[k] == m[k]
  {
    if m[p.name] == NoneValue && p.byDefault.OptionOf? && p.byDefault.option.Given?
    then m[p.name := p.byDefault.option.value] else m
  }

  /** The second loop over the parameters, from parameter `i` on. */
  function CompleteFrom(params: seq<Param>, i: nat, result: map<string, Value>): (r: Outcome<map<string, Value>>)
    requires i <= |params|
    requires forall p :: p in params ==> p.name in result
    ensures r.Success? ==> r.value.Keys == result.Keys
    ensures r.Raised? ==> r.failure.ExitWith?
    decreases |params| - i
  {
    if i == |params| then Success(result)
    else if Missing(params[i], result[params[i].name]) then Raised(ExitWith(MissingMessage(params[i].name)))
    else CompleteFrom(params, i + 1, CompleteOne(params[i], result))
  }

  /** `_parse_arguments(func, argv)` */
  function ParseArgumentsOf(params: seq<Param>, argv: seq<string>): (r: Outcome<map<string, Value>>)
    ensures r.Success? ==> r.value.Keys == InitialResult(params).Keys
    ensures r.Raised? ==> !r.failure.Exit?
    ensures |argv| > 0 && !IsOptionToken(argv[0]) ==> r == Raised(ExitWith("Unexpected argument " + argv[0]))
    ensures |argv| > 0 && IsOptionToken(argv[0]) && Lookup(params, Underscored(argv[0][2..])).None? ==>
      r == Raised(ExitWith("Unknown option " + argv[0]))
  {
    match ParseFrom(params, argv, 0, InitialResult(params))
    case Raised(f) => Raised(f)
    case Success(m) => CompleteFrom(params, 0, m)
  }

  /** The loop, started at position `i` with the dictionary `m`, comes to position `idx`
      with the dictionary `result`, every round before it having succeeded. */
  ghost predicate Reaches(params: seq<Param>, argv: seq<string>, i: nat, m: map<string, Value>,
                          idx: nat, result: map<string, Value>)
    requires i <= |argv|
    requires forall p :: p in params ==> p.name in m
    decreases |argv| - i
  {
    if i == idx then m == result
    else
      && i < idx && i < |argv| && Step(params, argv, i, m).Success?
      && Reaches(params, argv, Step(params, argv, i, m).value.0, Step(params, argv, i, m).value.1, idx, result)
  }

  /** The loop has one outcome whichever position it reaches is taken as the start. */
  lemma {:induction false} ReachedSameOutcome(params: seq<Param>, argv: seq<string>, i: nat, m: map<string, Value>,
                                              idx: nat, result: map<string, Value>)
    requires i <= |argv|
    requires forall p :: p in params ==> p.name in m
    requires Reaches(params, argv, i, m, idx, result)
    ensures idx <= |argv| && forall p :: p in params ==> p.name in result
    ensures ParseFrom(params, argv, i, m) == ParseFrom(params, argv, idx, result)
    decreases |argv| - i
  {
    if i != idx {
      var s := Step(params, argv, i, m);
      ReachedSameOutcome(params, argv, s.value.0, s.value.1, idx, result);
    }
  }

  /** Whatever position the loop reaches, a token there without `--` makes the parse
      fail with `Unexpected argument`, and an option naming no parameter with
      `Unknown option`. */
  lemma {:induction false} ReachedTokenErrors(params: seq<Param>, argv: seq<string>, idx: nat, result: map<string, Value>)
    requires Reaches(params, argv, 0, InitialResult(params), idx, result) && idx < |argv|
    ensures !IsOptionToken(argv[idx]) ==>
      ParseArgumentsOf(params, argv) == Raised(ExitWith("Unexpected argument " + argv[idx]))
    ensures IsOptionToken(argv[idx]) && Lookup(params, Underscored(argv[idx][2..])).None? ==>
      ParseArgumentsOf(params, argv) == Raised(ExitWith("Unknown option " + argv[idx]))
  {
    ReachedSameOutcome(params, argv, 0, InitialResult(params), idx, result);
  }

  /** The first loop of `_parse_arguments`: every parameter's initial value. */
  method InitialValues(params: seq<Param>) returns (result: map<string, Value>)
    ensures result == InitialResult(params)
  {
    result := map[];
    for i := 0 to |params|
      invariant result == InitialResult(params[..i])
    {
      assert params[..i + 1][..i] == params[..i];
      result := result[params[i].name := InitialValue(params[i].byDefault)];
    }
    assert params[..|params|] == params;
  }

  /** The inner loop of a list option at position `idx`: appends the tokens up to the
      next `--` token and returns the position of the last one taken. */
  method CollectValues(argv: seq<string>, idx: nat, existing: seq<string>) returns (values: seq<string>, last: nat)
    requires idx < |argv|
    ensures values == existing + Run(argv, idx + 1)
    ensures last == idx + |Run(argv, idx + 1)|
  {
    values, last := existing, idx;
    while last + 1 < |argv| && !IsOptionToken(argv[last + 1])
      invariant idx <= last < |argv|
      invariant values == existing + argv[idx + 1..last + 1]
      invariant forall t :: t in argv[idx + 1..last + 1] ==> !IsOptionToken(t)
      decreases |argv| - last
    {
      assert argv[idx + 1..last + 2] == argv[idx + 1..last + 1] + [argv[last + 1]];
      values := values + [argv[last + 1]];
      last := last + 1;
    }
    RunIs(argv, idx + 1, last + 1);
  }

  /** The last loop of `_parse_arguments`: fills in `Option` defaults and reports the
      first parameter without any default that is still `None`. */
  method CompleteDefaults(params: seq<Param>, parsed: map<string, Value>) returns (r: Outcome<map<string, Value>>)
    requires forall p :: p in params ==> p.name in parsed
    ensures r == CompleteFrom(params, 0, parsed)
  {
    var result := parsed;
    for i := 0 to |params|
      invariant forall p :: p in params ==> p.name in result
      invariant CompleteFrom(params, i, result) == CompleteFrom(params, 0, parsed)
    {
      var p := params[i];
      if result[p.name] == NoneValue {
        if p.byDefault.OptionOf? && p.byDefault.option.Given? {
          result := result[p.name := p.byDefault.option.value];
        } else if p.byDefault.NoDefault? {
          return Raised(ExitWith(MissingMessage(p.name)));
        }
      }
    }
    return Success(result);
  }

  /** `_parse_arguments(func, argv)` */
  method ParseArguments(params: seq<Param>, argv: seq<string>) returns (r: Outcome<map<string, Value>>)
    ensures r == ParseArgumentsOf(params, argv)
  {
    var result := InitialValues(params);
    var idx: nat := 0;
    while idx < |argv|
      invariant idx <= |argv|
      invariant forall p :: p in params ==> p.name in result
      invariant ParseFrom(params, argv, idx, result) == ParseFrom(params, argv, 0, InitialResult(params))
      decreases |argv| - idx
    {
      ghost var idx0, result0 := idx, result;
      var token := argv[idx];
      if !IsOptionToken(token) {
        return Raised(ExitWith("Unexpected argument " + token));
      }
      var key := Underscored(token[2..]);
      var found := Lookup(params, key);
      if found.None? {
        return Raised(ExitWith("Unknown option " + token));
      }
      var annotation := ResolveAnnotation(found.value.annotation);
      if IsBoolParam(annotation, found.value.byDefault) {
        var value := true;
        if idx + 1 < |argv| && !IsOptionToken(argv[idx + 1]) {
          value := LowerStr(argv[idx + 1]) !in FalseWords;
          idx := idx + 1;
        }
        idx := idx + 1;
        StepBool(params, argv, idx0, result0, key, value, idx);
        result := result[key := BoolValue(value)];
      } else if IsListParam(annotation) {
        var existing := AsList(result[key]);
        if existing.Raised? {
          return Raised(existing.failure);
        }
        var values;
        values, idx := CollectValues(argv, idx, existing.value);
        idx := idx + 1;
        StepList(params, argv, idx0, result0, key, existing.value, values, idx);
        result := result[key := ListValue(values)];
      } else {
        if idx + 1 >= |argv| {
          return Raised(ExitWith("Option " + token + " requires a value"));
        }
        var valueToken := argv[idx + 1];
        idx := idx + 1;
        result := result[key := ConvertValue(annotation, valueToken)];
        idx := idx + 1;
        assert Step(params, argv, idx0, result0) == Success((idx, result));
      }
    }
    r := CompleteDefaults(params, result);
  }

  // ---------------------------------------------------------------------------
  // Properties of the parser

  /** A parameter that no option token names keeps the value it had. */
  lemma {:induction false} Untouched(params: seq<Param>, argv: seq<string>, idx: nat, result: map<string, Value>, k: string)
    requires idx <= |argv|
    requires forall p :: p in params ==> p.name in result
    requires k in result
    requires forall j :: idx <= j < |argv| ==> !Names(argv[j], k)
    ensures ParseFrom(params, argv, idx, result).Success? ==> ParseFrom(params, argv, idx, result).value[k] == result[k]
    decreases |argv| - idx
  {
    if idx < |argv| {
      var s := Step(params, argv, idx, result);
      if s.Success? {
        Untouched(params, argv, s.value.0, s.value.1, k);
      }
    }
  }

  /** Handling parameter `i` changes no later parameter, given distinct names. */
  lemma {:induction false} CompleteOneLeavesLater(params: seq<Param>, i: nat, m: map<string, Value>)
    requires DistinctNames(params) && i < |params|
    requires forall p :: p in params ==> p.name in m
    ensures forall j :: i < j < |params| ==> CompleteOne(params[i], m)[params[j].name] == m[params[j].name]
    ensures Lookup(params[i + 1..], params[i].name).None?
  {
    assert forall j :: i < j < |params| ==> params[j].name != params[i].name;
    forall q | q in params[i + 1..] ensures q.name != params[i].name {
      var j :| 0 <= j < |params[i + 1..]| && params[i + 1..][j] == q;
      assert q == params[i + 1 + j];
    }
  }

  /** The second loop raises exactly when some parameter without any default is still
      `None`, and then names the first such parameter. */
  lemma {:induction false} CompleteFromRaises(params: seq<Param>, i: nat, m: map<string, Value>)
    requires DistinctNames(params) && i <= |params|
    requires forall p :: p in params ==> p.name in m
    ensures CompleteFrom(params, i, m).Raised? <==> exists j :: i <= j < |params| && Missing(params[j], m[params[j].name])
    ensures CompleteFrom(params, i, m).Raised? ==>
      exists j :: i <= j < |params| && Missing(params[j], m[params[j].name]) &&
        CompleteFrom(params, i, m).failure == ExitWith(MissingMessage(params[j].name))
    decreases |params| - i
  {
    if i < |params| && !Missing(params[i], m[params[i].name]) {
      CompleteOneLeavesLater(params, i, m);
      CompleteFromRaises(params, i + 1, CompleteOne(params[i], m));
    }
  }

  /** When the second loop succeeds, it has replaced the `None` of each `Option` whose
      default is not `...` by that default, and changed nothing else. */
  lemma {:induction false} CompleteFromValues(params: seq<Param>, i: nat, m: map<string, Value>)
    requires DistinctNames(params) && i <= |params|
    requires forall p :: p in params ==> p.name in m
    ensures CompleteFrom(params, i, m).Success? ==>
      forall j :: i <= j < |params| ==> CompleteFrom(params, i, m).value[params[j].name] == Completed(params[j], m[params[j].name])
    ensures CompleteFrom(params, i, m).Success? ==>
      forall k :: k in m && Lookup(params[i..], k).None? ==> CompleteFrom(params, i, m).value[k] == m[k]
    decreases |params| - i
  {
    if i < |params| && !Missing(params[i], m[params[i].name]) {
      var p := params[i];
      CompleteOneLeavesLater(params, i, m);
      CompleteFromValues(params, i + 1, CompleteOne(p, m));
      forall k | k in m && Lookup(params[i..], k).None?
        ensures Lookup(params[i + 1..], k).None? && k != p.name
      {
        assert p in params[i..];
        assert forall q :: q in params[i + 1..] ==> q in params[i..];
      }
    }
  }

  /** A required `Option(...)` that no token names stays `None`, and the parse does not
      fail on its account. */
  lemma {:induction false} RequiredOptionStaysNone(params: seq<Param>, argv: seq<string>, i: nat)
    requires DistinctNames(params) && i < |params|
    requires params[i].byDefault == OptionOf(Ellipsis)
    requires forall j :: 0 <= j < |argv| ==> !Names(argv[j], params[i].name)
    ensures ParseArgumentsOf(params, argv).Success? ==> ParseArgumentsOf(params, argv).value[params[i].name] == NoneValue
  {
    var init := InitialResult(params);
    InitialResultValue(params, i);
    Untouched(params, argv, 0, init, params[i].name);
    var parsed := ParseFrom(params, argv, 0, init);
    if parsed.Success? {
      CompleteFromValues(params, 0, parsed.value);
    }
  }

  /** A parameter with no default at all that no token names makes the parse fail with
      `Missing option`, unless it already failed on an argument. */
  lemma {:induction false} MissingOptionRaises(params: seq<Param>, argv: seq<string>, i: nat)
    requires DistinctNames(params) && i < |params|
    requires params[i].byDefault.NoDefault?
    requires forall j :: 0 <= j < |argv| ==> !Names(argv[j], params[i].name)
    ensures ParseArgumentsOf(params, argv).Raised?
    ensures ParseFrom(params, argv, 0, InitialResult(params)).Success? ==>
      exists j :: 0 <= j < |params| && params[j].byDefault.NoDefault? &&
        ParseArgumentsOf(params, argv).failure == ExitWith(MissingMessage(params[j].name))
  {
    var init := InitialResult(params);
    InitialResultValue(params, i);
    Untouched(params, argv, 0, init, params[i].name);
    var parsed := ParseFrom(params, argv, 0, init);
    if parsed.Success? {
      CompleteFromRaises(params, 0, parsed.value);
      assert Missing(params[i], parsed.value[params[i].name]);
    }
  }

  /** Only a parameter without any default can be reported missing: when every
      parameter has some default, the parse fails only on the arguments themselves. */
  lemma {:induction false} DefaultsNeverMissing(params: seq<Param>, argv: seq<string>)
    requires DistinctNames(params)
    requires forall p :: p in params ==> !p.byDefault.NoDefault?
    ensures ParseArgumentsOf(params, argv).Raised? ==> ParseFrom(params, argv, 0, InitialResult(params)).Raised?
  {
    var parsed := ParseFrom(params, argv, 0, InitialResult(params));
    if parsed.Success? {
      CompleteFromRaises(params, 0, parsed.value);
      assert forall j :: 0 <= j < |params| ==> params[j] in params;
    }
  }

  /** With distinct names, looking a parameter's name up finds that parameter. */
  lemma {:induction false} LookupFinds(params: seq<Param>, i: nat)
    requires DistinctNames(params) && i < |params|
    ensures Lookup(params, params[i].name) == Some(params[i])
  {
    if i > 0 {
      assert params[0].name != params[i].name;
      assert params[1..][i - 1] == params[i];
      LookupFinds(params[1..], i - 1);
    }
  }

  /** A bool option given alone is true; followed by a token that is not a `--` token,
      it takes that token and is false exactly when the token is `false`, `0` or `no`
      in any case. */
  lemma {:induction false} BoolOptionValue(params: seq<Param>, i: nat, t: string, u: string)
    requires DistinctNames(params) && i < |params| && Names(t, params[i].name)
    requires IsBoolParam(ResolveAnnotation(params[i].annotation), params[i].byDefault)
    requires !IsOptionToken(u)
    ensures ParseArgumentsOf(params, [t]).Success? ==> ParseArgumentsOf(params, [t]).value[params[i].name] == BoolValue(true)
    ensures ParseArgumentsOf(params, [t, u]).Success? ==>
      ParseArgumentsOf(params, [t, u]).value[params[i].name] == BoolValue(LowerStr(u) !in FalseWords)
    ensures ParseArgumentsOf(params, [t, u]).Success? ==>
      (ParseArgumentsOf(params, [t, u]).value[params[i].name] == BoolValue(false) <==> LowerStr(u) in FalseWords)
  {
    var init := InitialResult(params);
    LookupFinds(params, i);
    var one := init[params[i].name := BoolValue(true)];
    StepBool(params, [t], 0, init, params[i].name, true, 1);
    assert ParseFrom(params, [t], 0, init) == Success(one);
    CompleteFromValues(params, 0, one);
    var two := init[params[i].name := BoolValue(LowerStr(u) !in FalseWords)];
    StepBool(params, [t, u], 0, init, params[i].name, LowerStr(u) !in FalseWords, 2);
    assert ParseFrom(params, [t, u], 0, init) == Success(two);
    CompleteFromValues(params, 0, two);
  }

  /** A list option takes every following token up to the next `--` token (or the end)
      and appends them to the list it already holds. */
  lemma {:induction false} ListOptionCollects(params: seq<Param>, i: nat, t: string, toks: seq<string>, rest: seq<string>,
                                              result: map<string, Value>, existing: seq<string>)
    requires DistinctNames(params) && i < |params| && Names(t, params[i].name)
    requires !IsBoolParam(ResolveAnnotation(params[i].annotation), params[i].byDefault)
    requires IsListParam(ResolveAnnotation(params[i].annotation))
    requires forall j :: 0 <= j < |toks| ==> !IsOptionToken(toks[j])
    requires rest == [] || IsOptionToken(rest[0])
    requires forall p :: p in params ==> p.name in result
    requires AsList(result[params[i].name]) == Success(existing)
    ensures ParseFrom(params, [t] + toks + rest, 0, result) ==
      ParseFrom(params, [t] + toks + rest, 1 + |toks|, result[params[i].name := ListValue(existing + toks)])
  {
    var argv := [t] + toks + rest;
    LookupFinds(params, i);
    assert argv[1..1 + |toks|] == toks;
    assert forall s :: s in toks ==> !IsOptionToken(s);
    assert 1 + |toks| < |argv| ==> argv[1 + |toks|] == rest[0];
    RunIs(argv, 1, 1 + |toks|);
    StepList(params, argv, 0, result, params[i].name, existing, existing + toks, 1 + |toks|);
  }

  /** Any other option needs a following token, and takes it whatever it is, even a
      `--` token. */
  lemma {:induction false} ValueOptionTakesNext(params: seq<Param>, i: nat, t: string, u: string, rest: seq<string>,
                                                result: map<string, Value>)
    requires DistinctNames(params) && i < |params| && Names(t, params[i].name)
    requires !IsBoolParam(ResolveAnnotation(params[i].annotation), params[i].byDefault)
    requires !IsListParam(ResolveAnnotation(params[i].annotation))
    requires forall p :: p in params ==> p.name in result
    ensures ParseFrom(params, [t], 0, result) == Raised(ExitWith("Option " + t + " requires a value"))
    ensures ParseFrom(params, [t, u] + rest, 0, result) ==
      ParseFrom(params, [t, u] + rest, 2, result[params[i].name := ConvertValue(ResolveAnnotation(params[i].annotation), u)])
  {
    LookupFinds(params, i);
    assert ([t, u] + rest)[1] == u;
  }

  // ---------------------------------------------------------------------------
  // Commands and dispatch

  /** A command's function: its `__name__` and its parameters. What calling it does is
      not part of this model. */
  datatype Func = Func(funcName: string, params: seq<Param>)

  /** The call `_dispatch` ends in: `func(**kwargs)`. */
  datatype Call = Call(func: Func, kwargs: map<string, Value>)

  /** `(name or func.__name__).replace("-", "_")` */
  function CommandName(name: Option<string>, funcName: string): (r: string)
    ensures '-' !in r
    ensures name.Some? && name.value != "" ==> r == Underscored(name.value)
    ensures name.None? || name.value == "" ==> r == Underscored(funcName)
  {
    if name.Some? && name.value != "" then Underscored(name.value) else Underscored(funcName)
  }

  /** `_dispatch(argv)` over the registered commands. */
  function DispatchIn(commands: map<string, Func>, argv: seq<string>): (r: Outcome<Call>)
    ensures r == Raised(Exit(0)) <==> |argv| == 0
    ensures |argv| > 0 && Underscored(argv[0]) !in commands ==> r == Raised(ExitWith("Unknown command " + argv[0]))
    ensures r.Success? ==> |argv| > 0 && Underscored(argv[0]) in commands && r.value.func == commands[Underscored(argv[0])]
    ensures r.Success? ==> r.value.kwargs.Keys == InitialResult(r.value.func.params).Keys
  {
    if |argv| == 0 then Raised(Exit(0))
    else
      var commandName := Underscored(argv[0]);
      if commandName !in commands then Raised(ExitWith("Unknown command " + argv[0]))
      else
        match ParseArgumentsOf(commands[commandName].params, argv[1..])
        case Raised(f) => Raised(f)
        case Success(kwargs) => Success(Call(commands[commandName], kwargs))
  }

  /** Underscoring twice is underscoring once. */
  lemma {:induction false} UnderscoredIdempotent(s: string)
    ensures Underscored(Underscored(s)) == Underscored(s)
  {
    assert forall i :: 0 <= i < |s| ==> Underscored(s)[i] != '-';
  }

  /** A command registered under a name is reached by that name and by every spelling of
      it with `-` in place of `_` or the other way round, and its function is called with
      the parsed arguments. */
  lemma {:induction false} RegisteredCommandReached(commands: map<string, Func>, name: Option<string>, f: Func, argv: seq<string>)
    requires |argv| > 0
    requires Underscored(argv[0]) == Underscored(if name.Some? && name.value != "" then name.value else f.funcName)
    ensures var r := DispatchIn(commands[CommandName(name, f.funcName) := f], argv);
      (r.Success? <==> ParseArgumentsOf(f.params, argv[1..]).Success?) &&
      (r.Success? ==> r.value == Call(f, ParseArgumentsOf(f.params, argv[1..]).value)) &&
      (r.Raised? ==> r.failure == ParseArgumentsOf(f.params, argv[1..]).failure)
  {
  }

  /** The command table of the shim. `help` is kept but never shown. */
  class Typer {
    var help: string
    var commands: map<string, Func>

    /** `Typer(help=...)` */
    constructor(help: Option<string> := None)
      ensures this.help == (if help.Some? then help.value else "")
      ensures commands == map[]
    {
      this.help := if help.Some? then help.value else "";
      commands := map[];
    }

    /** `@app.command(name)` applied to `f`: registers `f` and returns it unchanged. */
    method Command(name: Option<string> := None, f: Func) returns (g: Func)
      modifies this
      ensures g == f
      ensures commands == old(commands)[CommandName(name, f.funcName) := f]
      ensures help == old(help)
    {
      commands := commands[CommandName(name, f.funcName) := f];
      g := f;
    }

    /** `_dispatch(argv)`: the call to make, or the `SystemExit` raised. */
    method Dispatch(argv: seq<string>) returns (r: Outcome<Call>)
      ensures r == DispatchIn(commands, argv)
    {
      if |argv| == 0 {
        return Raised(Exit(0));
      }
      var commandName := Underscored(argv[0]);
      if commandName !in commands {
        return Raised(ExitWith("Unknown command " + argv[0]));
      }
      var func := commands[commandName];
      var kwargs := ParseArguments(func.params, argv[1..]);
      if kwargs.Raised? {
        return Raised(kwargs.failure);
      }
      return Success(Call(func, kwargs.value));
    }
  }
}
