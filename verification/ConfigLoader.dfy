/**
  Loading a configuration, as config/config.go does it: four layers of overwrites on one
  target, then the required checks and the validation hook.
*/
module ConfigLoader {
  import opened Options
  import opened ConfigTypes
  import opened ConfigFields
  import opened ConfigParse
  import opened ConfigFile
  import opened ConfigErrors
  import opened ConfigLayers
  import opened Sorting

  datatype Outcome = Loaded(target: Target) | Rejected(err: Error) | Panicked

  /** What a load returns for a struct type with these fields. */
  function LoadOutcome(s: Settings, fields: seq<Field>, walk: Walk): Outcome {
    var items := Found(s.lower, fields);
    if !AllWalk(fields) then Panicked
    else if ErrorsOf(items) != [] then Rejected(RejectionFrom(ErrorsOf(items)))
    else if !NoneBursts(s.parsers, AllWrites(s, SpecsOf(items), walk)) then Panicked
    else
      var end := Final(s, SpecsOf(items), walk);
      if end.errs != [] then Rejected(RejectionFrom(end.errs)) else Loaded(end.target)
  }

  /** The outcomes a load may have: it walks its maps in its own order. */
  ghost predicate MayReturn(s: Settings, fields: seq<Field>, r: Outcome) {
    exists walk :: (ReadsMaps(s, fields) ==> WalkOf(s, walk)) && r == LoadOutcome(s, fields, walk)
  }

  /** The type is fine, so that the layers are read. */
  predicate Reads(s: Settings, fields: seq<Field>) {
    AllWalk(fields) && ErrorsOf(Found(s.lower, fields)) == []
  }

  /** The defaults went in without a panic, so that the file and the flags are read. */
  predicate ReadsMaps(s: Settings, fields: seq<Field>) {
    Reads(s, fields) && NoneBursts(s.parsers, DefaultWrites(SpecsOf(Found(s.lower, fields))))
  }

  lemma NoneBurstsConcat(ps: Parsers, a: seq<Write>, b: seq<Write>)
    ensures NoneBursts(ps, a + b) <==> NoneBursts(ps, a) && NoneBursts(ps, b)
  {
    if NoneBursts(ps, a + b) {
      assert forall i :: 0 <= i < |a| ==> (a + b)[i] == a[i];
      assert forall i :: 0 <= i < |b| ==> (a + b)[|a| + i] == b[i];
    }
  }

  lemma ApplyNext(ps: Parsers, st: State, ws: seq<Write>, i: nat)
    requires i < |ws|
    ensures ApplyAll(ps, st, ws[..i + 1]) == Apply(ps, ApplyAll(ps, st, ws[..i]), ws[i])
  {
    assert ws[..i + 1][..i] == ws[..i];
  }

  lemma ApplyLast(ps: Parsers, st: State, ws: seq<Write>, w: Write)
    ensures ApplyAll(ps, st, ws + [w]) == Apply(ps, ApplyAll(ps, st, ws), w)
  {
    assert (ws + [w])[..|ws|] == ws;
  }

  lemma {:induction false} ApplyConcat(ps: Parsers, st: State, a: seq<Write>, b: seq<Write>)
    ensures ApplyAll(ps, st, a + b) == ApplyAll(ps, ApplyAll(ps, st, a), b)
  {
    if b == [] {
      assert a + b == a;
    } else {
      var n := |b| - 1;
      ApplyConcat(ps, st, a, b[..n]);
      ApplyLast(ps, st, a + b[..n], b[n]);
      assert a + b[..n] + [b[n]] == a + b;
    }
  }

  // One load in progress: the target that the layers overwrite and the problems so far.
  class Loading {
    const settings: Settings
    var target: Target
    var errs: seq<FieldError>

    constructor (settings: Settings)
      ensures this.settings == settings && St() == START
    {
      this.settings, target, errs := settings, map[], [];
    }

    function St(): State
      reads this
    {
      State(target, errs)
    }

    /** Parses and sets; `ok` is false on a panic, here and in the layers. */
    method SetParsed(spec: Spec, raw: string, key: string) returns (ok: bool)
      modifies this
      ensures ok == !Bursts(settings.parsers, Set(spec, raw, key))
      ensures ok ==> St() == Apply(settings.parsers, old(St()), Set(spec, raw, key))
    {
      var converts, v := ParseValue(settings.parsers, spec.typ, raw);
      if !converts {
        return false;
      }
      if v == None {
        errs := errs + [ParseProblem(spec, key)];
        return true;
      }
      if !spec.settable {
        return false;
      }
      target := target[spec.index := v.value];
      return true;
    }

    method ApplyDefaults(specs: seq<Spec>) returns (ok: bool)
      modifies this
      ensures ok == NoneBursts(settings.parsers, DefaultWrites(specs))
      ensures ok ==> St() == ApplyAll(settings.parsers, old(St()), DefaultWrites(specs))
    {
      ghost var ws := DefaultWrites(specs);
      for i := 0 to |specs|
        invariant NoneBursts(settings.parsers, ws[..i])
        invariant St() == ApplyAll(settings.parsers, old(St()), ws[..i])
      {
        ApplyNext(settings.parsers, old(St()), ws, i);
        if specs[i].def == None {
          continue;
        }
        ok := SetParsed(specs[i], specs[i].def.value, specs[i].envKey);
        if !ok {
          assert Bursts(settings.parsers, ws[i]);
          return false;
        }
      }
      assert ws[..|ws|] == ws;
      return true;
    }

    /** Reads the file layer, in whatever order its maps are walked. */
    method ApplyFile(specs: seq<Spec>) returns (ok: bool, ghost walk: Walk)
      requires ValidFile(settings.file)
      modifies this
      ensures FileWalk(settings, walk) && Enumerates(walk.fileOrder, walk.vals.Keys)
      ensures ok == NoneBursts(settings.parsers, FileLayerWrites(specs, walk))
      ensures ok ==> St() == ApplyAll(settings.parsers, old(St()), FileLayerWrites(specs, walk))
    {
      hide FlattenedTo;
      walk := Walk(map[], [], [], []);
      if settings.file.NoFile? {
        assert FileLayerWrites(specs, walk) == [];
        return true, walk;
      }
      var vals: map<string, string>, fileErrs: seq<FieldError> := map[], [];
      if settings.file.Unusable? {
        fileErrs := [FieldError(FILE_TOKEN, settings.file.path, settings.file.kind, Some(settings.file.cause))];
      } else {
        vals, fileErrs := Flatten(settings.lower, settings.file.tree, "");
      }
      errs := errs + fileErrs;
      if fileErrs != [] {
        walk := Walk(vals, fileErrs, Listed(vals.Keys), []);
        ReportsAppend(settings.parsers, old(St()), fileErrs);
        return true, walk;
      }
      assert errs == old(errs);
      var byFileKey := ByFileKey(specs);
      ghost var order;
      ok, order := ApplyVals(specs, byFileKey, vals);
      walk := Walk(vals, fileErrs, order, []);
    }

    method ByFileKey(specs: seq<Spec>) returns (m: map<string, Spec>)
      ensures forall k :: k in m <==> LastWith(specs, k) != None
      ensures forall k :: k in m ==> LastWith(specs, k) == Some(m[k])
    {
      m := map[];
      for i := 0 to |specs|
        invariant forall k :: k in m <==> LastWith(specs[..i], k) != None
        invariant forall k :: k in m ==> LastWith(specs[..i], k) == Some(m[k])
      {
        assert specs[..i + 1][..i] == specs[..i];
        m := m[specs[i].fileKey := specs[i]];
      }
      assert specs[..|specs|] == specs;
    }

    method ApplyVals(specs: seq<Spec>, byFileKey: map<string, Spec>, vals: map<string, string>)
      returns (ok: bool, ghost order: seq<string>)
      requires forall k :: k in byFileKey <==> LastWith(specs, k) != None
      requires forall k :: k in byFileKey ==> LastWith(specs, k) == Some(byFileKey[k])
      modifies this
      ensures Enumerates(order, vals.Keys)
      ensures ok == NoneBursts(settings.parsers, FileWrites(specs, vals, order))
      ensures ok ==> St() == ApplyAll(settings.parsers, old(St()), FileWrites(specs, vals, order))
    {
      order := [];
      var left := vals.Keys;
      while left != {}
        invariant left <= vals.Keys
        invariant Enumerates(order, vals.Keys - left)
        invariant NoneBursts(settings.parsers, FileWrites(specs, vals, order))
        invariant St() == ApplyAll(settings.parsers, old(St()), FileWrites(specs, vals, order))
        decreases left
      {
        var key :| key in left;
        left := left - {key};
        assert FileWrites(specs, vals, order + [key]) == FileWrites(specs, vals, order) + [FileWrite(specs, vals, key)];
        ApplyLast(settings.parsers, old(St()), FileWrites(specs, vals, order), FileWrite(specs, vals, key));
        order := order + [key];
        if key !in byFileKey {
          errs := errs + [FieldError(FILE_TOKEN, key, FileDecode, Some(Foreign("config.unknown_file_key")))];
          continue;
        }
        ok := SetParsed(byFileKey[key], vals[key], key);
        if !ok {
          order := Listed(vals.Keys);
          FileBursts(settings.parsers, specs, vals, order, key);
          return false, order;
        }
      }
      return true, order;
    }

    method ApplyEnv(specs: seq<Spec>) returns (ok: bool)
      modifies this
      ensures ok == NoneBursts(settings.parsers, EnvWrites(settings.lookup, specs))
      ensures ok ==> St() == ApplyAll(settings.parsers, old(St()), EnvWrites(settings.lookup, specs))
    {
      ghost var ws := EnvWrites(settings.lookup, specs);
      for i := 0 to |specs|
        invariant NoneBursts(settings.parsers, ws[..i])
        invariant St() == ApplyAll(settings.parsers, old(St()), ws[..i])
      {
        ApplyNext(settings.parsers, old(St()), ws, i);
        var spec := specs[i];
        if spec.envKey == "" || settings.lookup == None {
          continue;
        }
        var raw := settings.lookup.value(spec.envKey);
        if raw == None || raw.value == "" {
          continue;
        }
        ok := SetParsed(spec, raw.value, spec.envKey);
        if !ok {
          assert Bursts(settings.parsers, ws[i]);
          return false;
        }
      }
      assert ws[..|ws|] == ws;
      return true;
    }

    method ApplyValues(specs: seq<Spec>) returns (ok: bool, ghost order: seq<string>)
      modifies this
      ensures Enumerates(order, settings.values.Keys)
      ensures ok == NoneBursts(settings.parsers, FlagWrites(settings.fold, specs, settings.values, order))
      ensures ok ==> St() == ApplyAll(settings.parsers, old(St()), FlagWrites(settings.fold, specs, settings.values, order))
    {
      order := [];
      var left := settings.values.Keys;
      while left != {}
        invariant left <= settings.values.Keys
        invariant Enumerates(order, settings.values.Keys - left)
        invariant NoneBursts(settings.parsers, FlagWrites(settings.fold, specs, settings.values, order))
        invariant St() == ApplyAll(settings.parsers, old(St()), FlagWrites(settings.fold, specs, settings.values, order))
        decreases left
      {
        var name :| name in left;
        var raw := settings.values[name];
        left := left - {name};
        ghost var w := FlagWrite(settings.fold, specs, settings.values, name);
        assert FlagWrites(settings.fold, specs, settings.values, order + [name])
            == FlagWrites(settings.fold, specs, settings.values, order) + [w];
        ApplyLast(settings.parsers, old(St()), FlagWrites(settings.fold, specs, settings.values, order), w);
        order := order + [name];
        if raw == "" {
          continue;
        }
        var spec := SpecByPath(settings.fold, specs, name);
        if spec == None {
          errs := errs + [FieldError(name, name, UnknownField, Some(Foreign("config.unknown_field")))];
          continue;
        }
        ok := SetParsed(spec.value, raw, name);
        if !ok {
          order := Listed(settings.values.Keys);
          FlagBursts(settings.parsers, settings.fold, specs, settings.values, order, name);
          return false, order;
        }
      }
      return true, order;
    }

    /** The four layers, one after the other. */
    method RunLayers(specs: seq<Spec>) returns (ok: bool, ghost walk: Walk)
      requires ValidFile(settings.file) && St() == START
      modifies this
      ensures NoneBursts(settings.parsers, DefaultWrites(specs)) ==> WalkOf(settings, walk)
      ensures ok == NoneBursts(settings.parsers, AllWrites(settings, specs, walk))
      ensures ok ==> St() == ApplyAll(settings.parsers, START, AllWrites(settings, specs, walk))
    {
      hide NoneBursts, ApplyAll, AllWrites, FlattenedTo, Enumerates;
      walk := Walk(map[], [], [], []);
      ok := ApplyDefaults(specs);
      ghost var a := St();
      if !ok {
        BurstsPanic(settings, specs, walk);
        return false, walk;
      }
      ok, walk := ApplyFile(specs);
      ghost var b := St();
      if ok {
        ok := ApplyEnv(specs);
      }
      ghost var c := St();
      if !ok {
        walk := walk.(flagOrder := Listed(settings.values.Keys));
        BurstsPanic(settings, specs, walk);
        return false, walk;
      }
      ghost var flagOrder;
      ok, flagOrder := ApplyValues(specs);
      walk := walk.(flagOrder := flagOrder);
      BurstsPanic(settings, specs, walk);
      if ok {
        LayersInSequence(settings, specs, walk, a, b, c, St());
      }
    }

    method CheckRequired(specs: seq<Spec>)
      modifies this
      ensures target == old(target) && errs == old(errs) + RequiredErrors(specs, target)
    {
      for i := 0 to |specs|
        invariant target == old(target) && errs == old(errs) + RequiredErrors(specs[..i], target)
      {
        assert specs[..i + 1][..i] == specs[..i];
        var spec := specs[i];
        if !spec.required {
          continue;
        }
        if Held(target, spec) == Zero(spec.typ) {
          errs := errs + [FieldError(spec.path, spec.envKey, MissingRequired, Some(Foreign("config.required_unset")))];
        }
      }
      assert specs[..|specs|] == specs;
    }

    method RunValidate()
      modifies this
      ensures target == old(target) && errs == old(errs) + ValidateErrors(settings.validate, target)
    {
      if settings.validate == None {
        return;
      }
      var err := settings.validate.value(target);
      if err != None {
        errs := errs + [FieldError("(validate)", "validate", Validation, err)];
      }
    }
  }

  lemma FileBursts(ps: Parsers, specs: seq<Spec>, vals: map<string, string>, order: seq<string>, key: string)
    requires key in order && Bursts(ps, FileWrite(specs, vals, key))
    ensures !NoneBursts(ps, FileWrites(specs, vals, order))
  {
    var i :| 0 <= i < |order| && order[i] == key;
    assert Bursts(ps, FileWrites(specs, vals, order)[i]);
  }

  lemma FlagBursts(ps: Parsers, fold: char -> char, specs: seq<Spec>, values: map<string, string>, order: seq<string>, name: string)
    requires name in order && Bursts(ps, FlagWrite(fold, specs, values, name))
    ensures !NoneBursts(ps, FlagWrites(fold, specs, values, order))
  {
    var i :| 0 <= i < |order| && order[i] == name;
    assert Bursts(ps, FlagWrites(fold, specs, values, order)[i]);
  }

  lemma {:induction false} ReportsAppend(ps: Parsers, st: State, errs: seq<FieldError>)
    ensures ApplyAll(ps, st, Reports(errs)) == State(st.target, st.errs + errs)
  {
    if errs != [] {
      var n := |errs| - 1;
      ReportsAppend(ps, st, errs[..n]);
      assert Reports(errs)[..n] == Reports(errs[..n]);
      assert st.errs + errs[..n] + [errs[n]] == st.errs + errs;
    }
  }

  ghost function Listed(keys: set<string>): (order: seq<string>)
    ensures Enumerates(order, keys)
    decreases keys
  {
    if keys == {} then [] else
      var k :| k in keys;
      Listed(keys - {k}) + [k]
  }

  method Load(s: Settings, fields: seq<Field>) returns (r: Outcome)
    requires ValidFile(s.file)
    ensures MayReturn(s, fields, r)
  {
    hide WalkOf, AllWrites, NoneBursts, AllWalk, ApplyAll, RejectionFrom, Items;
    var ok, specs, errs := CollectFields(s.lower, fields, "", "", []);
    ghost var walk := Walk(map[], [], [], []);
    if !ok {
      assert Panicked == LoadOutcome(s, fields, walk);
      return Panicked;
    }
    if errs != [] {
      assert !Reads(s, fields) && Rejected(RejectionFrom(errs)) == LoadOutcome(s, fields, walk);
      return Rejected(RejectionFrom(errs));
    }
    var loading := new Loading(s);
    ok, walk := loading.RunLayers(specs);
    if !ok {
      assert Panicked == LoadOutcome(s, fields, walk);
      return Panicked;
    }
    loading.CheckRequired(specs);
    loading.RunValidate();
    r := if loading.errs != [] then Rejected(RejectionFrom(loading.errs)) else Loaded(loading.target);
    assert r == LoadOutcome(s, fields, walk);
  }

  /** The one list of writes bursts exactly when some layer does. */
  lemma BurstsPanic(s: Settings, specs: seq<Spec>, walk: Walk)
    ensures NoneBursts(s.parsers, AllWrites(s, specs, walk)) <==>
            && NoneBursts(s.parsers, DefaultWrites(specs))
            && NoneBursts(s.parsers, FileLayerWrites(specs, walk))
            && NoneBursts(s.parsers, EnvWrites(s.lookup, specs))
            && NoneBursts(s.parsers, FlagWrites(s.fold, specs, s.values, walk.flagOrder))
  {
    hide NoneBursts, DefaultWrites, FileLayerWrites, EnvWrites, FlagWrites;
    var a, b := DefaultWrites(specs), FileLayerWrites(specs, walk);
    var c, d := EnvWrites(s.lookup, specs), FlagWrites(s.fold, specs, s.values, walk.flagOrder);
    NoneBurstsConcat(s.parsers, a, b);
    NoneBurstsConcat(s.parsers, a + b, c);
    NoneBurstsConcat(s.parsers, a + b + c, d);
  }

  /** The four layers in sequence are the one list of writes. */
  lemma LayersInSequence(s: Settings, specs: seq<Spec>, walk: Walk, a: State, b: State, c: State, d: State)
    requires a == ApplyAll(s.parsers, START, DefaultWrites(specs))
    requires b == ApplyAll(s.parsers, a, FileLayerWrites(specs, walk))
    requires c == ApplyAll(s.parsers, b, EnvWrites(s.lookup, specs))
    requires d == ApplyAll(s.parsers, c, FlagWrites(s.fold, specs, s.values, walk.flagOrder))
    ensures d == ApplyAll(s.parsers, START, AllWrites(s, specs, walk))
  {
    hide FlattenedTo, ApplyAll;
    var ws := DefaultWrites(specs);
    ApplyConcat(s.parsers, START, ws, FileLayerWrites(specs, walk));
    ws := ws + FileLayerWrites(specs, walk);
    ApplyConcat(s.parsers, START, ws, EnvWrites(s.lookup, specs));
    ws := ws + EnvWrites(s.lookup, specs);
    ApplyConcat(s.parsers, START, ws, FlagWrites(s.fold, specs, s.values, walk.flagOrder));
  }
}
