/** `SkillCommand.validate_parameters`: checking a caller's argument map
    against a command's parameter list, one parameter after the other,
    into a map from parameter name to one error. */
module Validation {
  import opened Values
  import opened Schema

  /** The error map after checking the parameters `ps` in order: a failing
      parameter writes its error under its name; a passing one leaves the
      map as it was. */
  function ParamErrors(ps: seq<Param>, args: map<string, Value>, matches: Matcher): map<string, ParamError>
  {
    if ps == [] then map[]
    else
      var before := ParamErrors(ps[..|ps| - 1], args, matches);
      var last := ps[|ps| - 1];
      match CheckParam(last, args, matches)
      case Some(e) => before[last.name := e]
      case None => before
  }

  /** Runs every check of every declared parameter, in declaration order,
      and returns the errors found. A missing value or a wrong type stops
      the checks of that parameter; later failing checks overwrite earlier
      ones. */
  method ValidateParameters(cmd: Command, params: map<string, Value>, matches: Matcher)
    returns (errors: map<string, ParamError>)
    ensures errors == ParamErrors(cmd.parameters, params, matches)
  {
    errors := map[];
    for k := 0 to |cmd.parameters|
      invariant errors == ParamErrors(cmd.parameters[..k], params, matches)
    {
      assert cmd.parameters[..k + 1][..k] == cmd.parameters[..k];
      ValidateStep(cmd.parameters[..k + 1], params, matches);
      var p := cmd.parameters[k];
      var value := Lookup(params, p.name);

      if p.required && value.VNone? {
        errors := errors[p.name := Missing];
        continue;
      }
      if value.VNone? {
        continue;
      }

      var expected := ExpectedClass(p.typeTag);
      if expected.Some? && !IsInstance(value, expected.value) {
        errors := errors[p.name := WrongType(p.typeTag, TypeName(value))];
        continue;
      }

      errors := RecordConstraintFailures(errors, p, value, matches);
    }
    assert cmd.parameters[..|cmd.parameters|] == cmd.parameters;
  }

  /** Records the failing constraint checks of one parameter whose value is
      present and of the right type, each failure overwriting the one before
      it, so that the last failing check's error is the one kept. */
  method RecordConstraintFailures(errors0: map<string, ParamError>, p: Param, value: Value, matches: Matcher)
    returns (errors: map<string, ParamError>)
    requires !value.VNone? && TypeOk(p, value)
    ensures errors == match LastFailure(ConstraintChecks(p, value, matches))
                      case Some(e) => errors0[p.name := e]
                      case None => errors0
  {
    errors := errors0;
    LastFailureOfSix(ConstraintChecks(p, value, matches));

    if p.choices.Some? && p.choices.value != [] && !PyIn(value, p.choices.value) {
      errors := errors[p.name := NotAChoice(p.choices.value)];
    }

    if p.typeTag in {"int", "float"} {
      if p.minValue.Some? && NumberOf(value) < p.minValue.value {
        errors := errors[p.name := BelowMinimum(p.minValue.value)];
      }
      if p.maxValue.Some? && NumberOf(value) > p.maxValue.value {
        errors := errors[p.name := AboveMaximum(p.maxValue.value)];
      }
    }

    if p.typeTag == "str" {
      if p.minLength.Some? && |value.s| < p.minLength.value {
        errors := errors[p.name := TooShort(p.minLength.value)];
      }
      if p.maxLength.Some? && |value.s| > p.maxLength.value {
        errors := errors[p.name := TooLong(p.maxLength.value)];
      }
      if p.pattern.Some? && p.pattern.value != "" {
        if !matches(p.pattern.value, value.s) {
          errors := errors[p.name := PatternMismatch(p.pattern.value)];
        }
      }
    }
  }

  /** One step of the fold: checking one more parameter either writes its
      error under its name or leaves the map as it was. */
  lemma ValidateStep(ps: seq<Param>, args: map<string, Value>, matches: Matcher)
    requires ps != []
    ensures var before := ParamErrors(ps[..|ps| - 1], args, matches);
      var last := ps[|ps| - 1];
      ParamErrors(ps, args, matches) ==
        if CheckParam(last, args, matches).Some? then before[last.name := CheckParam(last, args, matches).value]
        else before
  {
  }

  /** The error map's keys are names of declared parameters. */
  lemma {:induction false} ValidateKeys(ps: seq<Param>, args: map<string, Value>, matches: Matcher)
    ensures forall n :: n in ParamErrors(ps, args, matches) ==> exists i :: 0 <= i < |ps| && ps[i].name == n
  {
    if ps != [] {
      var init := ps[..|ps| - 1];
      ValidateKeys(init, args, matches);
      ValidateStep(ps, args, matches);
      forall n | n in ParamErrors(ps, args, matches)
        ensures exists i :: 0 <= i < |ps| && ps[i].name == n
      {
        if n != ps[|ps| - 1].name {
          assert n in ParamErrors(init, args, matches);
          var i :| 0 <= i < |init| && init[i].name == n;
          assert ps[i].name == n;
        }
      }
    }
  }

  /** A name has an entry exactly when some parameter of that name fails. */
  lemma {:induction false} ValidateHasEntry(ps: seq<Param>, args: map<string, Value>, matches: Matcher, n: string)
    ensures n in ParamErrors(ps, args, matches) <==>
      exists i :: 0 <= i < |ps| && ps[i].name == n && CheckParam(ps[i], args, matches).Some?
  {
    if ps != [] {
      var init := ps[..|ps| - 1];
      var last := ps[|ps| - 1];
      ValidateHasEntry(init, args, matches, n);
      ValidateStep(ps, args, matches);
      if !(last.name == n && CheckParam(last, args, matches).Some?) {
        assert n in ParamErrors(ps, args, matches) <==> n in ParamErrors(init, args, matches);
        if n in ParamErrors(init, args, matches) {
          var i :| 0 <= i < |init| && init[i].name == n && CheckParam(init[i], args, matches).Some?;
          assert ps[i] == init[i];
        } else {
          forall i | 0 <= i < |ps| && ps[i].name == n
            ensures CheckParam(ps[i], args, matches).None?
          {
            if i < |init| { assert ps[i] == init[i]; }
          }
        }
      }
    }
  }

  /** The entry under a name is the error of the last parameter of that
      name that fails. */
  lemma {:induction false} ValidateEntry(ps: seq<Param>, args: map<string, Value>, matches: Matcher, n: string)
    requires n in ParamErrors(ps, args, matches)
    ensures exists i :: && 0 <= i < |ps| && ps[i].name == n
                        && CheckParam(ps[i], args, matches) == Some(ParamErrors(ps, args, matches)[n])
                        && forall j :: i < j < |ps| && ps[j].name == n ==> CheckParam(ps[j], args, matches).None?
  {
    var init := ps[..|ps| - 1];
    var last := ps[|ps| - 1];
    var v := ParamErrors(ps, args, matches);
    ValidateStep(ps, args, matches);
    if last.name == n && CheckParam(last, args, matches).Some? {
      assert CheckParam(ps[|ps| - 1], args, matches) == Some(v[n]);
    } else {
      assert n in ParamErrors(init, args, matches) && v[n] == ParamErrors(init, args, matches)[n];
      ValidateEntry(init, args, matches, n);
      var i :| && 0 <= i < |init| && init[i].name == n
               && CheckParam(init[i], args, matches) == Some(v[n])
               && forall j :: i < j < |init| && init[j].name == n ==> CheckParam(init[j], args, matches).None?;
      assert ps[i] == init[i];
      forall j | i < j < |ps| && ps[j].name == n
        ensures CheckParam(ps[j], args, matches).None?
      {
        if j < |init| { assert ps[j] == init[j]; }
      }
    }
  }

  /** Every declared name is distinct. */
  predicate NamesUnique(ps: seq<Param>)
  {
    forall i, j :: 0 <= i < j < |ps| ==> ps[i].name != ps[j].name
  }

  /** With distinct names each parameter is checked on its own: its entry
      is exactly what checking it alone yields. */
  lemma ValidateEachParam(ps: seq<Param>, args: map<string, Value>, matches: Matcher, i: int)
    requires NamesUnique(ps) && 0 <= i < |ps|
    ensures ps[i].name in ParamErrors(ps, args, matches) <==> CheckParam(ps[i], args, matches).Some?
    ensures ps[i].name in ParamErrors(ps, args, matches) ==>
      Some(ParamErrors(ps, args, matches)[ps[i].name]) == CheckParam(ps[i], args, matches)
  {
    ValidateHasEntry(ps, args, matches, ps[i].name);
    if ps[i].name in ParamErrors(ps, args, matches) {
      ValidateEntry(ps, args, matches, ps[i].name);
    }
  }

  /** The entry under a name depends only on the argument under that name:
      changing other arguments does not change it. */
  lemma {:induction false} ValidateLocal(ps: seq<Param>, a1: map<string, Value>, a2: map<string, Value>, matches: Matcher, n: string)
    requires Lookup(a1, n) == Lookup(a2, n)
    ensures n in ParamErrors(ps, a1, matches) <==> n in ParamErrors(ps, a2, matches)
    ensures n in ParamErrors(ps, a1, matches) ==> ParamErrors(ps, a1, matches)[n] == ParamErrors(ps, a2, matches)[n]
  {
    if ps != [] {
      ValidateLocal(ps[..|ps| - 1], a1, a2, matches, n);
    }
  }

  /** Validation finds nothing exactly when every declared parameter's
      value meets every constraint of its schema. */
  lemma ValidateEmptyIff(ps: seq<Param>, args: map<string, Value>, matches: Matcher)
    ensures ParamErrors(ps, args, matches) == map[] <==>
      forall i :: 0 <= i < |ps| ==> Satisfies(ps[i], Lookup(args, ps[i].name), matches)
  {
    var v := ParamErrors(ps, args, matches);
    if v == map[] {
      forall i | 0 <= i < |ps| ensures Satisfies(ps[i], Lookup(args, ps[i].name), matches) {
        ValidateHasEntry(ps, args, matches, ps[i].name);
        CheckParamNoneIff(ps[i], args, matches);
      }
    } else {
      var n :| n in v;
      ValidateHasEntry(ps, args, matches, n);
      var i :| 0 <= i < |ps| && ps[i].name == n && CheckParam(ps[i], args, matches).Some?;
      CheckParamNoneIff(ps[i], args, matches);
    }
  }
}
