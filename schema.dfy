/** The declarative side of the registry: a parameter's schema
    (`CommandParameter`), a command definition (`SkillCommand`), and what
    checking one parameter against one argument map yields. The checking
    loop over a whole parameter list is in module Validation. */
module Schema {
  import opened Values

  /** The category tag of a command; it only groups commands for listing. */
  datatype CommandType = Scrape | Analyze | Generate | Validate | Transform | Query

  /** One declared parameter. `typeTag` is the schema's free-form type string
      ("str", "int", "float", "bool", "dict", "list" or anything else);
      every optional constraint is `None` when the schema leaves it unset. */
  datatype Param = Param(
    name: string,
    typeTag: string,
    required: bool,
    description: string,
    default: Value,
    choices: Option<seq<Value>>,
    minValue: Option<real>,
    maxValue: Option<real>,
    pattern: Option<string>,
    minLength: Option<int>,
    maxLength: Option<int>)

  /** A command definition. Only `name` and `parameters` take part in
      validation and dispatch; `kind` is used for listing. */
  datatype Command = Command(
    name: string,
    kind: CommandType,
    description: string,
    parameters: seq<Param>,
    costEstimate: real,
    estimatedDuration: int,
    requiresMcp: bool,
    mcpServers: seq<string>,
    examples: seq<map<string, Value>>)

  /** The error recorded for one parameter, one constructor per message the
      validator can produce. */
  datatype ParamError =
    | Missing
    | WrongType(expected: string, got: string)
    | NotAChoice(choices: seq<Value>)
    | BelowMinimum(min: real)
    | AboveMaximum(max: real)
    | TooShort(minLength: int)
    | TooLong(maxLength: int)
    | PatternMismatch(pattern: string)

  /** The regular-expression engine: `Matches(pattern, text)` holds when
      `re.match(pattern, text)` finds a match at the start of `text`. */
  type Matcher = (string, string) -> bool

  /** The validator's table from type tag to Python class; an unknown tag
      maps to nothing and disables the type check. */
  function ExpectedClass(tag: string): (c: Option<PyClass>)
    ensures c.Some? <==> tag in {"str", "int", "float", "bool", "dict", "list"}
  {
    if tag == "str" then Some(StrClass)
    else if tag == "int" then Some(IntClass)
    else if tag == "float" then Some(FloatClass)
    else if tag == "bool" then Some(BoolClass)
    else if tag == "dict" then Some(DictClass)
    else if tag == "list" then Some(ListClass)
    else None
  }

  /** The type check passes: the tag is unknown, or the value is an instance
      of the class the tag names. */
  predicate TypeOk(p: Param, v: Value)
  {
    ExpectedClass(p.typeTag).None? || IsInstance(v, ExpectedClass(p.typeTag).value)
  }

  /** After a passing type check, an "int" or "float" parameter holds a number. */
  lemma NumericTagHoldsNumber(p: Param, v: Value)
    requires TypeOk(p, v) && p.typeTag in {"int", "float"}
    ensures IsNumber(v)
  {
  }

  /** After a passing type check, a "str" parameter holds a string. */
  lemma StringTagHoldsString(p: Param, v: Value)
    requires TypeOk(p, v) && p.typeTag == "str"
    ensures v.VStr?
  {
  }

  // The constraint checks that run after the type check, in the order the
  // validator runs them. Each is `None` when it passes or does not apply.
  // A list of choices or a pattern that is empty is falsy in Python and
  // switches its check off.

  function ChoiceCheck(p: Param, v: Value): Option<ParamError>
  {
    if p.choices.Some? && p.choices.value != [] && !PyIn(v, p.choices.value)
    then Some(NotAChoice(p.choices.value)) else None
  }

  function MinValueCheck(p: Param, v: Value): Option<ParamError>
    requires TypeOk(p, v)
  {
    if p.typeTag in {"int", "float"} && p.minValue.Some? && NumberOf(v) < p.minValue.value
    then Some(BelowMinimum(p.minValue.value)) else None
  }

  function MaxValueCheck(p: Param, v: Value): Option<ParamError>
    requires TypeOk(p, v)
  {
    if p.typeTag in {"int", "float"} && p.maxValue.Some? && NumberOf(v) > p.maxValue.value
    then Some(AboveMaximum(p.maxValue.value)) else None
  }

  function MinLengthCheck(p: Param, v: Value): Option<ParamError>
    requires TypeOk(p, v)
  {
    if p.typeTag == "str" && p.minLength.Some? && |v.s| < p.minLength.value
    then Some(TooShort(p.minLength.value)) else None
  }

  function MaxLengthCheck(p: Param, v: Value): Option<ParamError>
    requires TypeOk(p, v)
  {
    if p.typeTag == "str" && p.maxLength.Some? && |v.s| > p.maxLength.value
    then Some(TooLong(p.maxLength.value)) else None
  }

  function PatternCheck(p: Param, v: Value, matches: Matcher): Option<ParamError>
    requires TypeOk(p, v)
  {
    if p.typeTag == "str" && p.pattern.Some? && p.pattern.value != "" && !matches(p.pattern.value, v.s)
    then Some(PatternMismatch(p.pattern.value)) else None
  }

  /** The outcomes of the constraint checks, in the order they run. */
  function ConstraintChecks(p: Param, v: Value, matches: Matcher): (cs: seq<Option<ParamError>>)
    requires TypeOk(p, v)
    ensures |cs| == 6
  {
    [ChoiceCheck(p, v), MinValueCheck(p, v), MaxValueCheck(p, v),
     MinLengthCheck(p, v), MaxLengthCheck(p, v), PatternCheck(p, v, matches)]
  }

  /** The position of the last failing check, or -1 when every check
      passes. */
  function LastFailing(cs: seq<Option<ParamError>>): (k: int)
    ensures -1 <= k < |cs|
    ensures k >= 0 ==> cs[k].Some?
    ensures forall j :: k < j < |cs| ==> cs[j].None?
  {
    if cs == [] then -1
    else if cs[|cs| - 1].Some? then |cs| - 1
    else LastFailing(cs[..|cs| - 1])
  }

  /** The error of the last failing check: each failing check overwrites the
      message of the ones before it. */
  function LastFailure(cs: seq<Option<ParamError>>): (r: Option<ParamError>)
    ensures r.Some? <==> exists i :: 0 <= i < |cs| && cs[i].Some?
    ensures r.Some? ==> exists i :: 0 <= i < |cs| && cs[i] == r && forall j :: i < j < |cs| ==> cs[j].None?
  {
    var k := LastFailing(cs);
    if k < 0 then None else cs[k]
  }

  /** The last failing check among the six constraint checks, spelled out
      from the last check backwards. */
  lemma LastFailureOfSix(cs: seq<Option<ParamError>>)
    requires |cs| == 6
    ensures LastFailure(cs) ==
      if cs[5].Some? then cs[5] else if cs[4].Some? then cs[4]
      else if cs[3].Some? then cs[3] else if cs[2].Some? then cs[2]
      else if cs[1].Some? then cs[1] else cs[0]
  {
    assert cs[..5][..4] == cs[..4] && cs[..4][..3] == cs[..3];
    assert cs[..3][..2] == cs[..2] && cs[..2][..1] == cs[..1] && cs[..1][..0] == [];
  }

  /** What checking parameter `p` against the argument map records for it:
      a missing required value stops at "missing", a missing optional value
      records nothing, a wrong type stops at the type error, and otherwise
      the last failing constraint check decides. */
  function CheckParam(p: Param, args: map<string, Value>, matches: Matcher): Option<ParamError>
  {
    var v := Lookup(args, p.name);
    if p.required && v.VNone? then Some(Missing)
    else if v.VNone? then None
    else if !TypeOk(p, v) then Some(WrongType(p.typeTag, TypeName(v)))
    else LastFailure(ConstraintChecks(p, v, matches))
  }

  /** Reference definition of a value that meets every constraint of its
      schema, stated positively and independently of the order of checks. */
  predicate Satisfies(p: Param, v: Value, matches: Matcher)
  {
    if v.VNone? then !p.required
    else
      && TypeOk(p, v)
      && (p.choices.None? || p.choices.value == [] || PyIn(v, p.choices.value))
      && (p.typeTag in {"int", "float"} ==>
            && (p.minValue.Some? ==> p.minValue.value <= NumberOf(v))
            && (p.maxValue.Some? ==> NumberOf(v) <= p.maxValue.value))
      && (p.typeTag == "str" ==>
            && (p.minLength.Some? ==> p.minLength.value <= |v.s|)
            && (p.maxLength.Some? ==> |v.s| <= p.maxLength.value)
            && (p.pattern.Some? && p.pattern.value != "" ==> matches(p.pattern.value, v.s)))
  }

  /** A parameter gets no error exactly when its value meets every
      constraint. */
  lemma CheckParamNoneIff(p: Param, args: map<string, Value>, matches: Matcher)
    ensures CheckParam(p, args, matches).None? <==> Satisfies(p, Lookup(args, p.name), matches)
  {
    var v := Lookup(args, p.name);
    if !v.VNone? && TypeOk(p, v) {
      LastFailureOfSix(ConstraintChecks(p, v, matches));
    }
  }

  /** A required parameter that is absent, or present as `None`, gets
      exactly "missing" whatever its other constraints; only that case
      gets "missing". */
  lemma MissingIff(p: Param, args: map<string, Value>, matches: Matcher)
    ensures CheckParam(p, args, matches) == Some(Missing)
        <==> p.required && (p.name !in args || args[p.name].VNone?)
  {
    var v := Lookup(args, p.name);
    if !v.VNone? && TypeOk(p, v) {
      var cs := ConstraintChecks(p, v, matches);
      assert Some(Missing) !in cs;
    }
  }

  /** An absent optional parameter gets no entry at all. */
  lemma AbsentOptionalPasses(p: Param, args: map<string, Value>, matches: Matcher)
    requires !p.required && p.name !in args
    ensures CheckParam(p, args, matches).None?
  {
  }

  /** A type mismatch stops checking: the error is the type error, and no
      choice, range, length or pattern check contributes. It is the only
      way to get a type error. */
  lemma WrongTypeIff(p: Param, args: map<string, Value>, matches: Matcher)
    ensures CheckParam(p, args, matches).Some? && CheckParam(p, args, matches).value.WrongType?
        <==> !Lookup(args, p.name).VNone? && !TypeOk(p, Lookup(args, p.name))
    ensures !Lookup(args, p.name).VNone? && !TypeOk(p, Lookup(args, p.name)) ==>
        CheckParam(p, args, matches) == Some(WrongType(p.typeTag, TypeName(Lookup(args, p.name))))
  {
    var v := Lookup(args, p.name);
    if !v.VNone? && TypeOk(p, v) {
      var cs := ConstraintChecks(p, v, matches);
      assert forall i :: 0 <= i < 6 ==> cs[i].None? || !cs[i].value.WrongType?;
    }
  }

  /** The type check uses `isinstance`: a boolean passes "int", an integer
      fails "float", and an unknown tag accepts any value. */
  lemma TypeCheckQuirks(p: Param)
    ensures p.typeTag == "int" ==> TypeOk(p, VBool(true))
    ensures p.typeTag == "float" ==> !TypeOk(p, VInt(3))
    ensures p.typeTag == "bool" ==> !TypeOk(p, VInt(1))
    ensures p.typeTag !in {"str", "int", "float", "bool", "dict", "list"} ==>
        forall v :: TypeOk(p, v)
  {
  }

  /** With an unknown type tag only the choices check can fail. */
  lemma UnknownTagOnlyChoices(p: Param, args: map<string, Value>, matches: Matcher)
    requires p.typeTag !in {"str", "int", "float", "bool", "dict", "list"}
    requires !Lookup(args, p.name).VNone?
    ensures CheckParam(p, args, matches) == ChoiceCheck(p, Lookup(args, p.name))
  {
    var v := Lookup(args, p.name);
    LastFailureOfSix(ConstraintChecks(p, v, matches));
  }

  /** A failing maximum overwrites a failing minimum and a failing choice. */
  lemma MaximumWins(p: Param, args: map<string, Value>, matches: Matcher)
    requires p.typeTag in {"int", "float"} && p.maxValue.Some?
    requires var v := Lookup(args, p.name); !v.VNone? && TypeOk(p, v) && NumberOf(v) > p.maxValue.value
    ensures CheckParam(p, args, matches) == Some(AboveMaximum(p.maxValue.value))
  {
    var v := Lookup(args, p.name);
    LastFailureOfSix(ConstraintChecks(p, v, matches));
  }

  /** A failing minimum overwrites a failing choice, and is the result
      when the maximum holds. */
  lemma MinimumWinsOverChoice(p: Param, args: map<string, Value>, matches: Matcher)
    requires p.typeTag in {"int", "float"} && p.minValue.Some?
    requires var v := Lookup(args, p.name);
      && !v.VNone? && TypeOk(p, v) && NumberOf(v) < p.minValue.value
      && (p.maxValue.None? || NumberOf(v) <= p.maxValue.value)
    ensures CheckParam(p, args, matches) == Some(BelowMinimum(p.minValue.value))
  {
    var v := Lookup(args, p.name);
    LastFailureOfSix(ConstraintChecks(p, v, matches));
  }

  /** A failing pattern overwrites failing length and choice checks. */
  lemma PatternWins(p: Param, args: map<string, Value>, matches: Matcher)
    requires p.typeTag == "str" && p.pattern.Some? && p.pattern.value != ""
    requires var v := Lookup(args, p.name); v.VStr? && !matches(p.pattern.value, v.s)
    ensures CheckParam(p, args, matches) == Some(PatternMismatch(p.pattern.value))
  {
  }

  /** A failing maximum length overwrites a failing minimum length and a
      failing choice when the pattern holds or is unset. */
  lemma MaxLengthWins(p: Param, args: map<string, Value>, matches: Matcher)
    requires p.typeTag == "str" && p.maxLength.Some?
    requires var v := Lookup(args, p.name);
      && v.VStr? && |v.s| > p.maxLength.value
      && (p.pattern.None? || p.pattern.value == "" || matches(p.pattern.value, v.s))
    ensures CheckParam(p, args, matches) == Some(TooLong(p.maxLength.value))
  {
    LastFailureOfSix(ConstraintChecks(p, Lookup(args, p.name), matches));
  }

  /** A choices failure survives only when every later check passes. */
  lemma ChoiceErrorIff(p: Param, args: map<string, Value>, matches: Matcher)
    requires var v := Lookup(args, p.name); !v.VNone? && TypeOk(p, v)
    ensures var v := Lookup(args, p.name);
      (CheckParam(p, args, matches).Some? && CheckParam(p, args, matches).value.NotAChoice?) <==>
        (ChoiceCheck(p, v).Some? && ConstraintChecks(p, v, matches)[1..] == [None, None, None, None, None])
  {
    var v := Lookup(args, p.name);
    var cs := ConstraintChecks(p, v, matches);
    LastFailureOfSix(cs);
    assert cs[1..] == [cs[1], cs[2], cs[3], cs[4], cs[5]];
  }

  /** An empty choices list or an empty pattern switches that check off. */
  lemma EmptyConstraintsDisabled(p: Param, v: Value, matches: Matcher)
    requires TypeOk(p, v)
    ensures p.choices == Some([]) ==> ChoiceCheck(p, v).None?
    ensures p.pattern == Some("") ==> PatternCheck(p, v, matches).None?
  {
  }
}
