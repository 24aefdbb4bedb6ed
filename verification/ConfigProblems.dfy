/**
  Which field errors a rejected load lists: for every layer, required field and hook, the
  struct path, the key and the kind of each.
*/
module ConfigProblems {
  import opened Options
  import opened ConfigTypes
  import opened ConfigFields
  import opened ConfigParse
  import opened ConfigFile
  import opened ConfigErrors
  import opened ConfigLayers
  import opened ConfigLoader
  import opened ConfigPrecedence
  import opened Sorting
  import opened Permutations

  const UNPARSED: Option<Error> := Some(Wrapped(Some(Foreign("config.parse"))))

  lemma {:induction false} FlatMapHas<T, U>(f: T -> seq<U>, xs: seq<T>, y: U)
    ensures y in FlatMap(f, xs) <==> exists i :: 0 <= i < |xs| && y in f(xs[i])
  {
    if xs != [] {
      FlatMapHas(f, xs[1..], y);
      assert forall i :: 0 <= i < |xs| - 1 ==> xs[1..][i] == xs[i + 1];
      if i :| 0 <= i < |xs| && y in f(xs[i]) {
        assert i > 0 ==> xs[1..][i - 1] == xs[i];
      }
    }
  }

  /** No binding has this file key. */
  predicate UnknownKey(specs: seq<Spec>, key: string) {
    forall i :: 0 <= i < |specs| ==> specs[i].fileKey != key
  }

  /** No binding has this name, whatever the case. */
  predicate UnknownName(fold: char -> char, specs: seq<Spec>, name: string) {
    forall i :: 0 <= i < |specs| ==> ToLower(fold, specs[i].path) != ToLower(fold, name)
  }

  ghost predicate FileKeyFails(s: Settings, specs: seq<Spec>, walk: Walk, key: string, e: FieldError)
    requires key in walk.vals
  {
    || (UnknownKey(specs, key) && e == FieldError("(file)", key, FileDecode, Some(Foreign("config.unknown_file_key"))))
    || (exists spec :: spec in specs && spec.fileKey == key && OwnsFileKey(specs, spec)
          && Parse(s.parsers, spec.typ, walk.vals[key]) == None && e == FieldError(spec.path, key, ParseFailed, UNPARSED))
  }

  ghost predicate FlagFails(s: Settings, specs: seq<Spec>, name: string, e: FieldError)
    requires name in s.values
  {
    && s.values[name] != ""
    && (|| (UnknownName(s.fold, specs, name) && e == FieldError(name, name, UnknownField, Some(Foreign("config.unknown_field"))))
        || (exists spec :: spec in specs && Answers(s.fold, specs, spec, name)
              && Parse(s.parsers, spec.typ, s.values[name]) == None && e == FieldError(spec.path, name, ParseFailed, UNPARSED)))
  }

  /** Binding i fails in the default or the environment layer, under its environment key. */
  ghost predicate OwnValueFails(s: Settings, specs: seq<Spec>, walk: Walk, layer: Layer, i: nat, e: FieldError)
    requires i < |specs|
  {
    && e == FieldError(specs[i].path, specs[i].envKey, ParseFailed, UNPARSED)
    && exists raw :: Offers(s, specs, walk, layer, specs[i], raw) && Parse(s.parsers, specs[i].typ, raw) == None
  }

  /** The complaints of one layer. */
  ghost predicate Complains(s: Settings, specs: seq<Spec>, walk: Walk, layer: Layer, e: FieldError) {
    match layer
    case File =>
      if walk.fileErrs != [] then e in walk.fileErrs
      else exists key :: key in walk.vals && FileKeyFails(s, specs, walk, key, e)
    case Flags => exists name :: name in s.values && FlagFails(s, specs, name, e)
    case _ => exists i :: 0 <= i < |specs| && OwnValueFails(s, specs, walk, layer, i, e)
  }

  lemma FileWriteFails(s: Settings, specs: seq<Spec>, walk: Walk, key: string, e: FieldError)
    requires key in walk.vals
    ensures e in Problem(s.parsers, FileWrite(specs, walk.vals, key)) <==> FileKeyFails(s, specs, walk, key, e)
  {
    hide LastWith, OwnsFileKey, Parse;
    LastWithExactly(specs, key);
    if spec :| spec in specs && spec.fileKey == key && OwnsFileKey(specs, spec) {
      OwnerIsFound(specs, spec);
      OneOwner(specs, spec, key);
    }
  }

  lemma OneOwner(specs: seq<Spec>, spec: Spec, key: string)
    requires OwnsFileKey(specs, spec) && spec.fileKey == key
    ensures forall other :: OwnsFileKey(specs, other) && other.fileKey == key ==> other == spec
  {
    hide OwnsFileKey;
    forall other | OwnsFileKey(specs, other) && other.fileKey == key
      ensures other == spec
    {
      OwnerIsFound(specs, other);
      OwnerIsFound(specs, spec);
    }
  }

  lemma FlagWriteFails(s: Settings, specs: seq<Spec>, name: string, e: FieldError)
    requires name in s.values
    ensures e in Problem(s.parsers, FlagWrite(s.fold, specs, s.values, name)) <==> FlagFails(s, specs, name, e)
  {
    hide SpecByPath, Answers, Parse, ToLower;
    SpecByPathExactly(s.fold, specs, name);
    forall spec | Answers(s.fold, specs, spec, name)
      ensures SpecByPath(s.fold, specs, name) == Some(spec)
    {
      AnswerIsFound(s.fold, specs, spec, name);
    }
  }

  lemma OwnWriteFails(s: Settings, specs: seq<Spec>, walk: Walk, layer: Layer, i: nat, e: FieldError)
    requires layer == Defaults || layer == Env
    requires i < |specs|
    ensures e in Problem(s.parsers, LayerWrites(s, specs, walk, layer)[i]) <==> OwnValueFails(s, specs, walk, layer, i, e)
  {
    hide Parse;
  }

  /** The problems of a layer's writes are its complaints. */
  lemma LayerComplains(s: Settings, specs: seq<Spec>, walk: Walk, layer: Layer, e: FieldError)
    requires WalkOf(s, walk)
    ensures e in FlatMap(Problems(s.parsers), LayerWrites(s, specs, walk, layer)) <==> Complains(s, specs, walk, layer, e)
  {
    hide FileWalk, Problem, FileKeyFails, FlagFails, OwnValueFails, FlatMap, FileWrite, FlagWrite;
    var ws := LayerWrites(s, specs, walk, layer);
    FlatMapHas(Problems(s.parsers), ws, e);
    match layer {
      case File =>
        if walk.fileErrs != [] {
          ReportsAreProblems(s.parsers, walk.fileErrs, e);
        } else {
          OrderCovers(walk.fileOrder, walk.vals.Keys);
          forall i | 0 <= i < |ws|
            ensures e in Problem(s.parsers, ws[i]) <==> FileKeyFails(s, specs, walk, walk.fileOrder[i], e)
          {
            FileWriteFails(s, specs, walk, walk.fileOrder[i], e);
          }
        }
      case Flags =>
        OrderCovers(walk.flagOrder, s.values.Keys);
        forall i | 0 <= i < |ws|
          ensures e in Problem(s.parsers, ws[i]) <==> FlagFails(s, specs, walk.flagOrder[i], e)
        {
          FlagWriteFails(s, specs, walk.flagOrder[i], e);
        }
      case _ =>
        forall i | 0 <= i < |ws|
          ensures e in Problem(s.parsers, ws[i]) <==> OwnValueFails(s, specs, walk, layer, i, e)
        {
          OwnWriteFails(s, specs, walk, layer, i, e);
        }
    }
  }

  lemma ReportsAreProblems(ps: Parsers, errs: seq<FieldError>, e: FieldError)
    ensures e in errs <==> exists i :: 0 <= i < |errs| && e in Problem(ps, Reports(errs)[i])
  {
    if e in errs {
      var i :| 0 <= i < |errs| && errs[i] == e;
      assert e in Problem(ps, Reports(errs)[i]);
    }
  }

  /** A required field that ends up zero, reported under its environment key. */
  ghost predicate MissingAt(specs: seq<Spec>, t: Target, i: nat, e: FieldError)
    requires i < |specs|
  {
    && specs[i].required && Held(t, specs[i]) == Zero(specs[i].typ)
    && e == FieldError(specs[i].path, specs[i].envKey, MissingRequired, Some(Foreign("config.required_unset")))
  }

  lemma {:induction false} RequiredComplain(specs: seq<Spec>, t: Target, e: FieldError)
    ensures e in RequiredErrors(specs, t) <==> exists i :: 0 <= i < |specs| && MissingAt(specs, t, i, e)
  {
    hide Held, Zero;
    if specs != [] {
      var n := |specs| - 1;
      RequiredComplain(specs[..n], t, e);
      forall i | 0 <= i < n
        ensures MissingAt(specs[..n], t, i, e) <==> MissingAt(specs, t, i, e)
      {
        assert specs[..n][i] == specs[i];
      }
      if i :| 0 <= i < |specs| && MissingAt(specs, t, i, e) {
        assert i < n ==> MissingAt(specs[..n], t, i, e);
      }
      assert e in RequiredErrors(specs, t) <==> e in RequiredErrors(specs[..n], t) || MissingAt(specs, t, n, e);
    }
  }

  /**
    A load that gets to its layers and is rejected lists exactly: each raw string that does not
    parse, under the field's path and the key it came by; each file key and each non-empty flag
    that no binding has; the file's own errors; each required field that ends up zero; and the
    validation hook's error.
  */
  lemma RejectionListsExactly(s: Settings, fields: seq<Field>, walk: Walk, e: FieldError)
    requires WalkOf(s, walk) && LoadOutcome(s, fields, walk).Rejected? && ErrorsOf(Found(s.lower, fields)) == []
    ensures var specs := SpecsOf(Found(s.lower, fields));
      var t := AfterLayer(s, specs, walk, Flags).target;
      e in FieldErrors(LoadOutcome(s, fields, walk).err) <==>
      || (exists layer :: Complains(s, specs, walk, layer, e))
      || (exists i :: 0 <= i < |specs| && MissingAt(specs, t, i, e))
      || (s.validate != None && s.validate.value(t) != None
          && e == FieldError("(validate)", "validate", Validation, s.validate.value(t)))
  {
    hide Found, WalkOf, FlatMap, LayerWrites, Complains, MissingAt, FieldErrors, AfterLayer, LoadOutcome, RequiredErrors;
    var specs := SpecsOf(Found(s.lower, fields));
    var t := AfterLayer(s, specs, walk, Flags).target;
    RejectionListsTheLayers(s, fields, walk);
    LayerComplains(s, specs, walk, Defaults, e);
    LayerComplains(s, specs, walk, File, e);
    LayerComplains(s, specs, walk, Env, e);
    LayerComplains(s, specs, walk, Flags, e);
    RequiredComplain(specs, t, e);
    ProblemsInLayers(s, specs, walk, e);
    forall layer
      ensures Complains(s, specs, walk, layer, e) ==>
              || Complains(s, specs, walk, Defaults, e) || Complains(s, specs, walk, File, e)
              || Complains(s, specs, walk, Env, e) || Complains(s, specs, walk, Flags, e)
    {
      assert layer == Defaults || layer == File || layer == Env || layer == Flags;
    }
  }

  lemma ProblemsInLayers(s: Settings, specs: seq<Spec>, walk: Walk, e: FieldError)
    ensures var t := AfterLayer(s, specs, walk, Flags).target;
      e in AllProblems(s, specs, walk) <==>
      || e in FlatMap(Problems(s.parsers), LayerWrites(s, specs, walk, Defaults))
      || e in FlatMap(Problems(s.parsers), LayerWrites(s, specs, walk, File))
      || e in FlatMap(Problems(s.parsers), LayerWrites(s, specs, walk, Env))
      || e in FlatMap(Problems(s.parsers), LayerWrites(s, specs, walk, Flags))
      || e in RequiredErrors(specs, t) || e in ValidateErrors(s.validate, t)
  {
    hide FlatMap, AfterLayer, RequiredErrors, ValidateErrors, DefaultWrites, FileLayerWrites, EnvWrites, FlagWrites;
  }
}
