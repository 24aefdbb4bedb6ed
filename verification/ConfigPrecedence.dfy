/**
  What a load means: the highest layer wins, it fails exactly when some layer has a
  problem, and it does not depend on the order in which maps are walked.
*/
module ConfigPrecedence {
  import opened Options
  import opened ConfigTypes
  import opened ConfigFields
  import opened ConfigParse
  import opened ConfigFile
  import opened ConfigErrors
  import opened ConfigLayers
  import opened ConfigLoader
  import opened Sorting
  import opened Permutations

  datatype Layer = Defaults | File | Env | Flags

  function Rank(layer: Layer): nat {
    match layer
    case Defaults => 0
    case File => 1
    case Env => 2
    case Flags => 3
  }

  /** The layer has this raw string for this field. Empty counts as unset for the environment and the flags only. */
  ghost predicate Offers(s: Settings, specs: seq<Spec>, walk: Walk, layer: Layer, spec: Spec, raw: string) {
    match layer
    case Defaults => spec.def == Some(raw)
    case File =>
      && walk.fileErrs == []
      && OwnsFileKey(specs, spec)
      && spec.fileKey in walk.vals && walk.vals[spec.fileKey] == raw
    case Env => raw != "" && spec.envKey != "" && s.lookup != None && s.lookup.value(spec.envKey) == Some(raw)
    case Flags => raw != "" && exists name :: name in s.values && s.values[name] == raw && Answers(s.fold, specs, spec, name)
  }

  /** Of the bindings with one file key the last one owns it. */
  ghost predicate OwnsFileKey(specs: seq<Spec>, spec: Spec) {
    exists i :: 0 <= i < |specs| && specs[i] == spec && forall j :: i < j < |specs| ==> specs[j].fileKey != spec.fileKey
  }

  /** Of the bindings with this path, whatever the case, the first one answers to the name. */
  ghost predicate Answers(fold: char -> char, specs: seq<Spec>, spec: Spec, name: string) {
    exists i :: 0 <= i < |specs| && specs[i] == spec && FirstWithPath(fold, specs, i, name)
  }

  ghost predicate FirstWithPath(fold: char -> char, specs: seq<Spec>, i: nat, name: string)
    requires i < |specs|
  {
    && ToLower(fold, specs[i].path) == ToLower(fold, name)
    && forall j :: 0 <= j < i ==> ToLower(fold, specs[j].path) != ToLower(fold, name)
  }

  function LayerWrites(s: Settings, specs: seq<Spec>, walk: Walk, layer: Layer): seq<Write> {
    match layer
    case Defaults => DefaultWrites(specs)
    case File => FileLayerWrites(specs, walk)
    case Env => EnvWrites(s.lookup, specs)
    case Flags => FlagWrites(s.fold, specs, s.values, walk.flagOrder)
  }

  ghost predicate Writes(ws: seq<Write>, spec: Spec, raw: string) {
    exists i :: 0 <= i < |ws| && ws[i].Set? && ws[i].spec == spec && ws[i].raw == raw
  }

  // Distinct bindings set distinct fields.
  predicate Apart(specs: seq<Spec>) {
    forall i, j :: 0 <= i < j < |specs| ==> specs[i].index != specs[j].index
  }

  lemma {:induction false} SpecsAreItems(items: seq<Item>)
    ensures forall spec :: spec in SpecsOf(items) <==> Bound(spec) in items
  {
    if items != [] {
      var n := |items| - 1;
      SpecsAreItems(items[..n]);
      assert items == items[..n] + [items[n]];
    }
  }

  lemma {:induction false} ApartItems(items: seq<Item>)
    requires forall i, j :: 0 <= i < j < |items| ==> IndexOf(items[i]) != IndexOf(items[j])
    ensures Apart(SpecsOf(items))
  {
    if items != [] {
      var n := |items| - 1;
      ApartItems(items[..n]);
      SpecsAreItems(items[..n]);
      forall i | 0 <= i < |SpecsOf(items[..n])|
        ensures SpecsOf(items[..n])[i].index != IndexOf(items[n])
      {
        var spec := SpecsOf(items[..n])[i];
        assert spec in SpecsOf(items[..n]);
        assert Bound(spec) in items[..n];
        var k :| 0 <= k < n && items[k] == Bound(spec);
      }
    }
  }

  lemma SpecsAreApart(lower: char -> char, fields: seq<Field>)
    ensures Apart(SpecsOf(Found(lower, fields)))
  {
    var items := Found(lower, fields);
    forall i, j | 0 <= i < j < |items|
      ensures IndexOf(items[i]) != IndexOf(items[j])
    {
      BindingsAreApart(lower, fields, i, j);
    }
    ApartItems(items);
  }

  // ---------------------------------------------------------------------------
  // What a layer writes
  // ---------------------------------------------------------------------------

  /** The last binding with a file key is found, whenever there is one. */
  lemma {:induction false} LastWithExactly(specs: seq<Spec>, key: string)
    ensures LastWith(specs, key) == None <==> forall i :: 0 <= i < |specs| ==> specs[i].fileKey != key
    ensures var found := LastWith(specs, key);
      found != None ==> found.value in specs && found.value.fileKey == key && OwnsFileKey(specs, found.value)
  {
    if specs != [] {
      var n := |specs| - 1;
      LastWithExactly(specs[..n], key);
      assert forall i :: 0 <= i < n ==> specs[..n][i] == specs[i];
      if specs[n].fileKey != key && LastWith(specs[..n], key) != None {
        var spec := LastWith(specs[..n], key).value;
        var i :| 0 <= i < n && specs[..n][i] == spec && forall j :: i < j < n ==> specs[..n][j].fileKey != spec.fileKey;
        assert specs[i] == spec && forall j :: i < j < |specs| ==> specs[j].fileKey != spec.fileKey;
      }
    }
  }

  lemma OwnerIsFound(specs: seq<Spec>, spec: Spec)
    requires OwnsFileKey(specs, spec)
    ensures LastWith(specs, spec.fileKey) == Some(spec)
  {
    LastWithExactly(specs, spec.fileKey);
    var i :| 0 <= i < |specs| && specs[i] == spec && forall j :: i < j < |specs| ==> specs[j].fileKey != spec.fileKey;
    var found := LastWith(specs, spec.fileKey).value;
    var k :| 0 <= k < |specs| && specs[k] == found && forall j :: k < j < |specs| ==> specs[j].fileKey != found.fileKey;
    assert !(i < k) && !(k < i);
  }

  /** Comparing without case is comparing the folded texts. */
  lemma FoldsAlike(fold: char -> char, a: string, b: string)
    ensures EqualFold(fold, a, b) <==> ToLower(fold, a) == ToLower(fold, b)
  {
    var x, y := ToLower(fold, a), ToLower(fold, b);
    if x == y {
      assert forall i :: 0 <= i < |a| ==> x[i] == y[i];
    }
  }

  /** The first binding with a name, whatever the case, is found, whenever there is one. */
  lemma {:induction false} SpecByPathExactly(fold: char -> char, specs: seq<Spec>, name: string)
    ensures SpecByPath(fold, specs, name) == None <==>
            forall i :: 0 <= i < |specs| ==> ToLower(fold, specs[i].path) != ToLower(fold, name)
    ensures var found := SpecByPath(fold, specs, name);
      found != None ==> found.value in specs && Answers(fold, specs, found.value, name)
  {
    hide ToLower, EqualFold;
    if specs != [] {
      FoldsAlike(fold, specs[0].path, name);
      SpecByPathExactly(fold, specs[1..], name);
      if EqualFold(fold, specs[0].path, name) {
        assert FirstWithPath(fold, specs, 0, name);
      } else if SpecByPath(fold, specs[1..], name) != None {
        var spec := SpecByPath(fold, specs[1..], name).value;
        var i :| 0 <= i < |specs[1..]| && specs[1..][i] == spec && FirstWithPath(fold, specs[1..], i, name);
        assert forall j :: 0 < j <= i ==> specs[j] == specs[1..][j - 1];
        assert specs[i + 1] == spec && FirstWithPath(fold, specs, i + 1, name);
      }
    }
  }

  lemma AnswerIsFound(fold: char -> char, specs: seq<Spec>, spec: Spec, name: string)
    requires Answers(fold, specs, spec, name)
    ensures SpecByPath(fold, specs, name) == Some(spec)
  {
    hide ToLower;
    SpecByPathExactly(fold, specs, name);
    var i :| 0 <= i < |specs| && specs[i] == spec && FirstWithPath(fold, specs, i, name);
    var found := SpecByPath(fold, specs, name).value;
    var k :| 0 <= k < |specs| && specs[k] == found && FirstWithPath(fold, specs, k, name);
    assert !(i < k) && !(k < i);
  }

  lemma {:induction false} LastWithMeaning(specs: seq<Spec>, key: string)
    ensures LastWith(specs, key) != None ==> LastWith(specs, key).value in specs && LastWith(specs, key).value.fileKey == key
  {
    hide OwnsFileKey;
    LastWithExactly(specs, key);
  }

  lemma SpecByPathMeaning(fold: char -> char, specs: seq<Spec>, name: string)
    ensures var found := SpecByPath(fold, specs, name);
      found != None ==> found.value in specs && EqualFold(fold, found.value.path, name)
  {
    hide ToLower, EqualFold;
    SpecByPathExactly(fold, specs, name);
    if SpecByPath(fold, specs, name) != None {
      FoldsAlike(fold, SpecByPath(fold, specs, name).value.path, name);
    }
  }

  lemma FileOffers(s: Settings, specs: seq<Spec>, walk: Walk, spec: Spec, raw: string)
    requires WalkOf(s, walk)
    ensures Writes(FileLayerWrites(specs, walk), spec, raw) <==> Offers(s, specs, walk, File, spec, raw)
  {
    hide FileWalk, OwnsFileKey;
    var ws := FileLayerWrites(specs, walk);
    if Writes(ws, spec, raw) {
      var i :| 0 <= i < |ws| && ws[i].Set? && ws[i].spec == spec && ws[i].raw == raw;
      LastWithExactly(specs, walk.fileOrder[i]);
    }
    if Offers(s, specs, walk, File, spec, raw) {
      OwnerIsFound(specs, spec);
      assert spec.fileKey in walk.fileOrder;
      var i :| 0 <= i < |walk.fileOrder| && walk.fileOrder[i] == spec.fileKey;
      assert ws[i] == Set(spec, raw, spec.fileKey);
    }
  }

  lemma FlagOffers(s: Settings, specs: seq<Spec>, walk: Walk, spec: Spec, raw: string)
    requires WalkOf(s, walk)
    ensures Writes(LayerWrites(s, specs, walk, Flags), spec, raw) <==> Offers(s, specs, walk, Flags, spec, raw)
  {
    hide FileWalk, Answers;
    var ws := LayerWrites(s, specs, walk, Flags);
    if Writes(ws, spec, raw) {
      var i :| 0 <= i < |ws| && ws[i].Set? && ws[i].spec == spec && ws[i].raw == raw;
      assert walk.flagOrder[i] in s.values;
      SpecByPathExactly(s.fold, specs, walk.flagOrder[i]);
    }
    if Offers(s, specs, walk, Flags, spec, raw) {
      var name :| name in s.values && s.values[name] == raw && Answers(s.fold, specs, spec, name);
      AnswerIsFound(s.fold, specs, spec, name);
      assert name in walk.flagOrder;
      var i :| 0 <= i < |walk.flagOrder| && walk.flagOrder[i] == name;
      assert ws[i] == Set(spec, raw, name);
    }
  }

  lemma SpecOffers(s: Settings, specs: seq<Spec>, walk: Walk, layer: Layer, spec: Spec, raw: string)
    requires layer == Defaults || layer == Env
    requires spec in specs
    ensures Writes(LayerWrites(s, specs, walk, layer), spec, raw) <==> Offers(s, specs, walk, layer, spec, raw)
  {
    var ws := LayerWrites(s, specs, walk, layer);
    if Offers(s, specs, walk, layer, spec, raw) {
      var i :| 0 <= i < |specs| && specs[i] == spec;
      assert ws[i].Set? && ws[i].spec == spec && ws[i].raw == raw;
    }
  }

  /** A layer writes to a field exactly what it offers for it. */
  lemma LayerWritesItsOffers(s: Settings, specs: seq<Spec>, walk: Walk, layer: Layer, spec: Spec)
    requires WalkOf(s, walk) && spec in specs
    ensures forall raw :: Writes(LayerWrites(s, specs, walk, layer), spec, raw) <==> Offers(s, specs, walk, layer, spec, raw)
  {
    hide Writes, Offers, WalkOf;
    forall raw
      ensures Writes(LayerWrites(s, specs, walk, layer), spec, raw) <==> Offers(s, specs, walk, layer, spec, raw)
    {
      match layer
      case File => FileOffers(s, specs, walk, spec, raw);
      case Flags => FlagOffers(s, specs, walk, spec, raw);
      case _ => SpecOffers(s, specs, walk, layer, spec, raw);
    }
  }

  /** Every write of a layer is to a binding of the type. */
  ghost predicate Among(ws: seq<Write>, specs: seq<Spec>) {
    forall i :: 0 <= i < |ws| && ws[i].Set? ==> ws[i].spec in specs
  }

  lemma LayerAmong(s: Settings, specs: seq<Spec>, walk: Walk, layer: Layer)
    ensures Among(LayerWrites(s, specs, walk, layer), specs)
  {
    var ws := LayerWrites(s, specs, walk, layer);
    forall i | 0 <= i < |ws| && ws[i].Set?
      ensures ws[i].spec in specs
    {
      match layer
      case File => LastWithMeaning(specs, walk.fileOrder[i]);
      case Flags => SpecByPathMeaning(s.fold, specs, walk.flagOrder[i]);
      case _ => assert ws[i].spec == specs[i];
    }
  }

  // ---------------------------------------------------------------------------
  // What a list of writes does
  // ---------------------------------------------------------------------------

  function Problem(ps: Parsers, w: Write): seq<FieldError> {
    match w
    case Skip => []
    case Report(err) => [err]
    case Set(spec, raw, key) => if Parse(ps, spec.typ, raw) == None then [ParseProblem(spec, key)] else []
  }

  function Problems(ps: Parsers): Write -> seq<FieldError> {
    w => Problem(ps, w)
  }

  /** The problems of a list of writes are those of its writes, in order. */
  lemma {:induction false} ErrorsOfWrites(ps: Parsers, st: State, ws: seq<Write>)
    ensures ApplyAll(ps, st, ws).errs == st.errs + FlatMap(Problems(ps), ws)
  {
    if ws != [] {
      var n := |ws| - 1;
      ErrorsOfWrites(ps, st, ws[..n]);
      FlatMapConcat(Problems(ps), ws[..n], [ws[n]]);
      assert ws[..n] + [ws[n]] == ws;
      assert FlatMap(Problems(ps), [ws[n]]) == Problem(ps, ws[n]);
    }
  }

  lemma {:induction false} NoProblems(ps: Parsers, ws: seq<Write>)
    ensures FlatMap(Problems(ps), ws) == [] <==> forall i :: 0 <= i < |ws| ==> Problem(ps, ws[i]) == []
  {
    if ws != [] {
      NoProblems(ps, ws[1..]);
      assert ws == [ws[0]] + ws[1..];
    }
  }

  ghost predicate AllParse(ps: Parsers, ws: seq<Write>) {
    forall i :: 0 <= i < |ws| ==> Problem(ps, ws[i]) == []
  }

  ghost predicate SetTo(ps: Parsers, ws: seq<Write>, spec: Spec, t: Target) {
    exists raw :: Writes(ws, spec, raw) && spec.index in t && Parse(ps, spec.typ, raw) == Some(t[spec.index])
  }

  ghost predicate KeptAs(spec: Spec, t: Target, t': Target) {
    (spec.index in t <==> spec.index in t') && (spec.index in t ==> t[spec.index] == t'[spec.index])
  }

  /** A list of writes leaves in a field the last value written, or what it was. */
  lemma {:induction false} EffectOfWrites(ps: Parsers, st: State, ws: seq<Write>, specs: seq<Spec>, spec: Spec)
    requires Apart(specs) && Among(ws, specs) && spec in specs && AllParse(ps, ws)
    ensures var t := ApplyAll(ps, st, ws).target;
            if exists raw :: Writes(ws, spec, raw) then SetTo(ps, ws, spec, t) else KeptAs(spec, st.target, t)
  {
    hide Writes, Parse, Apart;
    if ws != [] {
      var n := |ws| - 1;
      var init, w := ws[..n], ws[n];
      EffectOfWrites(ps, st, init, specs, spec);
      forall raw
        ensures Writes(ws, spec, raw) <==> Writes(init, spec, raw) || (w.Set? && w.spec == spec && w.raw == raw)
      {
        WritesNext(ws, spec, raw);
      }
      assert Problem(ps, w) == [];
      if w.Set? && w.spec.index == spec.index {
        IndexNamesSpec(specs, spec, w.spec);
        assert Writes(ws, spec, w.raw);
      } else {
        var t := ApplyAll(ps, st, init).target;
        if raw :| Writes(init, spec, raw) && spec.index in t && Parse(ps, spec.typ, raw) == Some(t[spec.index]) {
          assert Writes(ws, spec, raw);
        }
      }
    } else {
      NoWrites(spec);
    }
  }

  lemma NoWrites(spec: Spec)
    ensures forall raw :: !Writes([], spec, raw)
  {
  }

  lemma WritesNext(ws: seq<Write>, spec: Spec, raw: string)
    requires ws != []
    ensures var n := |ws| - 1;
      Writes(ws, spec, raw) <==> Writes(ws[..n], spec, raw) || (ws[n].Set? && ws[n].spec == spec && ws[n].raw == raw)
  {
    var n := |ws| - 1;
    if Writes(ws[..n], spec, raw) {
      var i :| 0 <= i < n && ws[..n][i].Set? && ws[..n][i].spec == spec && ws[..n][i].raw == raw;
      assert ws[i].Set? && ws[i].spec == spec && ws[i].raw == raw;
    }
    if Writes(ws, spec, raw) {
      var i :| 0 <= i < |ws| && ws[i].Set? && ws[i].spec == spec && ws[i].raw == raw;
      if i < n {
        assert ws[..n][i].Set? && ws[..n][i].spec == spec && ws[..n][i].raw == raw;
      }
    }
  }

  lemma IndexNamesSpec(specs: seq<Spec>, a: Spec, b: Spec)
    requires Apart(specs) && a in specs && b in specs && a.index == b.index
    ensures a == b
  {
    var i :| 0 <= i < |specs| && specs[i] == a;
    var j :| 0 <= j < |specs| && specs[j] == b;
    assert i < j || j < i || i == j;
  }

  // ---------------------------------------------------------------------------
  // The highest layer wins
  // ---------------------------------------------------------------------------

  lemma ProblemsConcat(ps: Parsers, a: seq<Write>, b: seq<Write>)
    ensures AllParse(ps, a + b) <==> AllParse(ps, a) && AllParse(ps, b)
  {
    forall i | 0 <= i < |b|
      ensures (a + b)[|a| + i] == b[i]
    {
    }
    if AllParse(ps, a + b) {
      assert forall i :: 0 <= i < |a| ==> (a + b)[i] == a[i];
    }
  }

  /** All four layers are free of problems exactly when their list of writes is. */
  lemma LayersParse(s: Settings, specs: seq<Spec>, walk: Walk)
    ensures AllParse(s.parsers, AllWrites(s, specs, walk)) <==>
            forall layer :: AllParse(s.parsers, LayerWrites(s, specs, walk, layer))
  {
    hide AllParse, DefaultWrites, FileLayerWrites, EnvWrites, FlagWrites;
    var a, b := LayerWrites(s, specs, walk, Defaults), LayerWrites(s, specs, walk, File);
    var c, d := LayerWrites(s, specs, walk, Env), LayerWrites(s, specs, walk, Flags);
    ProblemsConcat(s.parsers, a, b);
    ProblemsConcat(s.parsers, a + b, c);
    ProblemsConcat(s.parsers, a + b + c, d);
  }

  lemma NoErrorsMeans(s: Settings, specs: seq<Spec>, walk: Walk)
    ensures var t := ApplyAll(s.parsers, START, AllWrites(s, specs, walk)).target;
      && Final(s, specs, walk).target == t
      && (Final(s, specs, walk).errs == [] <==>
            && AllParse(s.parsers, AllWrites(s, specs, walk))
            && RequiredErrors(specs, t) == []
            && ValidateErrors(s.validate, t) == [])
  {
    var ws := AllWrites(s, specs, walk);
    ErrorsOfWrites(s.parsers, START, ws);
    NoProblems(s.parsers, ws);
  }

  function LayerBelow(layer: Layer): Layer
    requires layer != Defaults
    ensures Rank(LayerBelow(layer)) == Rank(layer) - 1
  {
    match layer
    case File => Defaults
    case Env => File
    case Flags => Env
  }

  /** The state before a layer, and after it. */
  function BeforeLayer(s: Settings, specs: seq<Spec>, walk: Walk, layer: Layer): State
    decreases Rank(layer), 0
  {
    if layer == Defaults then START else AfterLayer(s, specs, walk, LayerBelow(layer))
  }

  function AfterLayer(s: Settings, specs: seq<Spec>, walk: Walk, layer: Layer): State
    decreases Rank(layer), 1
  {
    ApplyAll(s.parsers, BeforeLayer(s, specs, walk, layer), LayerWrites(s, specs, walk, layer))
  }

  lemma AfterAllLayers(s: Settings, specs: seq<Spec>, walk: Walk)
    ensures AfterLayer(s, specs, walk, Flags) == ApplyAll(s.parsers, START, AllWrites(s, specs, walk))
  {
    hide ApplyAll, DefaultWrites, FileLayerWrites, EnvWrites, FlagWrites;
    var a, b := LayerWrites(s, specs, walk, Defaults), LayerWrites(s, specs, walk, File);
    var c, d := LayerWrites(s, specs, walk, Env), LayerWrites(s, specs, walk, Flags);
    ApplyConcat(s.parsers, START, a, b);
    ApplyConcat(s.parsers, START, a + b, c);
    ApplyConcat(s.parsers, START, a + b + c, d);
  }

  ghost predicate Silent(s: Settings, specs: seq<Spec>, walk: Walk, layer: Layer, spec: Spec) {
    forall raw :: !Offers(s, specs, walk, layer, spec, raw)
  }

  /** The field holds what this layer's raw string parses to. */
  ghost predicate TakenFrom(s: Settings, specs: seq<Spec>, walk: Walk, layer: Layer, spec: Spec, t: Target) {
    exists raw :: Offers(s, specs, walk, layer, spec, raw)
      && spec.index in t && Parse(s.parsers, spec.typ, raw) == Some(t[spec.index])
  }

  /** The field holds what the highest of the layers up to `top` says; if none speaks, it was never written. */
  ghost predicate Resolved(s: Settings, specs: seq<Spec>, walk: Walk, top: Layer, spec: Spec, t: Target) {
    || (exists layer ::
          (&& Rank(layer) <= Rank(top) && TakenFrom(s, specs, walk, layer, spec, t)
           && (forall higher :: Rank(layer) < Rank(higher) <= Rank(top) ==> Silent(s, specs, walk, higher, spec))))
    || (spec.index !in t && forall layer :: Rank(layer) <= Rank(top) ==> Silent(s, specs, walk, layer, spec))
  }

  lemma LayerSpeaks(s: Settings, specs: seq<Spec>, walk: Walk, layer: Layer, spec: Spec)
    requires Apart(specs) && spec in specs && WalkOf(s, walk)
    requires AllParse(s.parsers, LayerWrites(s, specs, walk, layer))
    ensures var t, t' := BeforeLayer(s, specs, walk, layer).target, AfterLayer(s, specs, walk, layer).target;
            if Silent(s, specs, walk, layer, spec) then KeptAs(spec, t, t') else TakenFrom(s, specs, walk, layer, spec, t')
  {
    hide Apart, WalkOf, AllParse, Writes, Offers, ApplyAll, LayerWrites, BeforeLayer, Among;
    LayerAmong(s, specs, walk, layer);
    LayerWritesItsOffers(s, specs, walk, layer, spec);
    EffectOfWrites(s.parsers, BeforeLayer(s, specs, walk, layer), LayerWrites(s, specs, walk, layer), specs, spec);
  }

  /** A silent layer on top changes nothing of what is resolved below. */
  lemma SilentOnTop(s: Settings, specs: seq<Spec>, walk: Walk, top: Layer, spec: Spec, t: Target, t': Target)
    requires top != Defaults && Silent(s, specs, walk, top, spec) && KeptAs(spec, t, t')
    requires Resolved(s, specs, walk, LayerBelow(top), spec, t)
    ensures Resolved(s, specs, walk, top, spec, t')
  {
    hide Offers, Parse, Silent;
    if layer :|
      (&& Rank(layer) <= Rank(LayerBelow(top)) && TakenFrom(s, specs, walk, layer, spec, t)
       && (forall higher :: Rank(layer) < Rank(higher) <= Rank(LayerBelow(top)) ==> Silent(s, specs, walk, higher, spec)))
    {
      assert TakenFrom(s, specs, walk, layer, spec, t');
      forall higher | Rank(layer) < Rank(higher) <= Rank(top)
        ensures Silent(s, specs, walk, higher, spec)
      {
        assert higher == top || Rank(higher) <= Rank(LayerBelow(top));
      }
    } else {
      forall layer | Rank(layer) <= Rank(top)
        ensures Silent(s, specs, walk, layer, spec)
      {
        assert layer == top || Rank(layer) <= Rank(LayerBelow(top));
      }
    }
  }

  lemma {:induction false} LayersResolve(s: Settings, specs: seq<Spec>, walk: Walk, top: Layer, spec: Spec)
    requires Apart(specs) && spec in specs && WalkOf(s, walk)
    requires forall layer :: AllParse(s.parsers, LayerWrites(s, specs, walk, layer))
    ensures Resolved(s, specs, walk, top, spec, AfterLayer(s, specs, walk, top).target)
    decreases Rank(top)
  {
    hide Apart, WalkOf, AllParse, LayerWrites, AfterLayer, Silent, TakenFrom;
    LayerSpeaks(s, specs, walk, top, spec);
    var t := AfterLayer(s, specs, walk, top).target;
    if !Silent(s, specs, walk, top, spec) {
      assert TakenFrom(s, specs, walk, top, spec, t);
    } else if top != Defaults {
      hide Resolved;
      LayersResolve(s, specs, walk, LayerBelow(top), spec);
      SilentOnTop(s, specs, walk, top, spec, BeforeLayer(s, specs, walk, top).target, t);
    }
  }

  /**
    What a bound field holds: what its flag parses to, else its environment value, else its
    file value, else its default; if none of them speaks it was never written.
  */
  ghost predicate FlagThenEnvThenFileThenDefault(s: Settings, specs: seq<Spec>, walk: Walk, spec: Spec, t: Target) {
    if !Silent(s, specs, walk, Flags, spec) then TakenFrom(s, specs, walk, Flags, spec, t)
    else if !Silent(s, specs, walk, Env, spec) then TakenFrom(s, specs, walk, Env, spec, t)
    else if !Silent(s, specs, walk, File, spec) then TakenFrom(s, specs, walk, File, spec, t)
    else if !Silent(s, specs, walk, Defaults, spec) then TakenFrom(s, specs, walk, Defaults, spec, t)
    else spec.index !in t
  }

  lemma ResolvedInOrder(s: Settings, specs: seq<Spec>, walk: Walk, spec: Spec, t: Target)
    requires Resolved(s, specs, walk, Flags, spec, t)
    ensures FlagThenEnvThenFileThenDefault(s, specs, walk, spec, t)
  {
    hide Offers, Parse;
    if layer :|
      (&& Rank(layer) <= Rank(Flags) && TakenFrom(s, specs, walk, layer, spec, t)
       && (forall higher :: Rank(layer) < Rank(higher) <= Rank(Flags) ==> Silent(s, specs, walk, higher, spec)))
    {
      assert !Silent(s, specs, walk, layer, spec);
      assert layer != Flags ==> Silent(s, specs, walk, Flags, spec);
      assert layer != Flags && layer != Env ==> Silent(s, specs, walk, Env, spec);
      assert layer == Defaults ==> Silent(s, specs, walk, File, spec);
    }
  }

  /**
    On success every bound field holds what its non-empty flag parses to, else its non-empty
    environment value, else its file value, else its default, else its zero value.
  */
  lemma HighestLayerWins(s: Settings, fields: seq<Field>, walk: Walk, spec: Spec)
    requires LoadOutcome(s, fields, walk).Loaded? && WalkOf(s, walk)
    requires spec in SpecsOf(Found(s.lower, fields))
    ensures FlagThenEnvThenFileThenDefault(
              s, SpecsOf(Found(s.lower, fields)), walk, spec, LoadOutcome(s, fields, walk).target)
  {
    hide Found, WalkOf, AllParse, Resolved, AfterLayer, AllWrites, LayerWrites, FlagThenEnvThenFileThenDefault;
    var specs := SpecsOf(Found(s.lower, fields));
    SpecsAreApart(s.lower, fields);
    NoErrorsMeans(s, specs, walk);
    LayersParse(s, specs, walk);
    AfterAllLayers(s, specs, walk);
    LayersResolve(s, specs, walk, Flags, spec);
    ResolvedInOrder(s, specs, walk, spec, LoadOutcome(s, fields, walk).target);
  }

  /** The same of whatever a load returns. */
  lemma LoadedIsResolved(s: Settings, fields: seq<Field>, t: Target) returns (walk: Walk)
    requires MayReturn(s, fields, Loaded(t))
    ensures WalkOf(s, walk)
    ensures forall spec :: spec in SpecsOf(Found(s.lower, fields)) ==>
              FlagThenEnvThenFileThenDefault(s, SpecsOf(Found(s.lower, fields)), walk, spec, t)
  {
    hide Found, WalkOf, FlagThenEnvThenFileThenDefault, Final, NoneBursts, AllWrites;
    walk :| (ReadsMaps(s, fields) ==> WalkOf(s, walk)) && Loaded(t) == LoadOutcome(s, fields, walk);
    BurstsPanic(s, SpecsOf(Found(s.lower, fields)), walk);
    forall spec | spec in SpecsOf(Found(s.lower, fields))
      ensures FlagThenEnvThenFileThenDefault(s, SpecsOf(Found(s.lower, fields)), walk, spec, t)
    {
      HighestLayerWins(s, fields, walk, spec);
    }
  }

  lemma {:induction false} OnlyBindingsAreWritten(ps: Parsers, st: State, ws: seq<Write>, specs: seq<Spec>, index: seq<nat>)
    requires Among(ws, specs) && index in ApplyAll(ps, st, ws).target && index !in st.target
    ensures exists spec :: spec in specs && spec.index == index
  {
    if ws != [] {
      var n := |ws| - 1;
      if index in ApplyAll(ps, st, ws[..n]).target {
        OnlyBindingsAreWritten(ps, st, ws[..n], specs, index);
      } else {
        assert ws[n].spec in specs;
      }
    }
  }

  lemma {:induction false} LayersTouchOnlyBindings(s: Settings, specs: seq<Spec>, walk: Walk, layer: Layer, index: seq<nat>)
    requires index in AfterLayer(s, specs, walk, layer).target
    ensures exists spec :: spec in specs && spec.index == index
    decreases Rank(layer)
  {
    hide ApplyAll, Among, LayerWrites;
    if index in BeforeLayer(s, specs, walk, layer).target {
      LayersTouchOnlyBindings(s, specs, walk, LayerBelow(layer), index);
    } else {
      LayerAmong(s, specs, walk, layer);
      OnlyBindingsAreWritten(s.parsers, BeforeLayer(s, specs, walk, layer), LayerWrites(s, specs, walk, layer), specs, index);
    }
  }

  /** No layer touches a field that is not bound. */
  lemma OtherFieldsAreUntouched(s: Settings, fields: seq<Field>, walk: Walk, index: seq<nat>)
    requires LoadOutcome(s, fields, walk).Loaded? && index in LoadOutcome(s, fields, walk).target
    ensures LeafAt(fields, index) && Supported(At(fields, index).typ)
  {
    hide LayerWrites, AfterLayer, Expected;
    var items := Found(s.lower, fields);
    var specs := SpecsOf(items);
    AfterAllLayers(s, specs, walk);
    LayersTouchOnlyBindings(s, specs, walk, Flags, index);
    var spec :| spec in specs && spec.index == index;
    SpecsAreItems(items);
    var ps := WalkIsPartition(s.lower, fields);
    var j :| 0 <= j < |items| && items[j] == Bound(spec);
    assert IndexOf(items[j]) == ps[j];
  }

  // ---------------------------------------------------------------------------
  // When a load fails
  // ---------------------------------------------------------------------------

  predicate NoReports(ws: seq<Write>) {
    forall i :: 0 <= i < |ws| ==> !ws[i].Report?
  }

  lemma ParsesExactly(ps: Parsers, ws: seq<Write>, specs: seq<Spec>)
    requires Among(ws, specs)
    ensures AllParse(ps, ws) <==>
            NoReports(ws) && forall spec, raw :: spec in specs && Writes(ws, spec, raw) ==> Parse(ps, spec.typ, raw) != None
  {
    hide Parse;
    if AllParse(ps, ws) {
      forall i | 0 <= i < |ws|
        ensures !ws[i].Report?
      {
        assert Problem(ps, ws[i]) == [];
      }
      forall spec, raw | Writes(ws, spec, raw)
        ensures Parse(ps, spec.typ, raw) != None
      {
        var i :| 0 <= i < |ws| && ws[i].Set? && ws[i].spec == spec && ws[i].raw == raw;
        assert Problem(ps, ws[i]) == [];
      }
    } else {
      var i :| 0 <= i < |ws| && Problem(ps, ws[i]) != [];
      if ws[i].Set? {
        assert Writes(ws, ws[i].spec, ws[i].raw);
      }
    }
  }

  /** Every file key and every non-empty flag is some binding's. */
  ghost predicate KeysKnown(s: Settings, specs: seq<Spec>, walk: Walk, layer: Layer) {
    match layer
    case File =>
      walk.fileErrs == [] && forall k :: k in walk.vals ==> exists i :: 0 <= i < |specs| && specs[i].fileKey == k
    case Flags =>
      forall name :: name in s.values && s.values[name] != "" ==>
        exists i :: 0 <= i < |specs| && ToLower(s.fold, specs[i].path) == ToLower(s.fold, name)
    case _ => true
  }

  lemma ReportsExactly(s: Settings, specs: seq<Spec>, walk: Walk, layer: Layer)
    requires WalkOf(s, walk)
    ensures NoReports(LayerWrites(s, specs, walk, layer)) <==> KeysKnown(s, specs, walk, layer)
  {
    hide FileWalk;
    match layer {
      case File => FileReports(specs, walk);
      case Flags => FlagReports(s, specs, walk.flagOrder);
      case _ =>
    }
  }

  lemma FileReports(specs: seq<Spec>, walk: Walk)
    requires Enumerates(walk.fileOrder, walk.vals.Keys)
    ensures NoReports(FileLayerWrites(specs, walk)) <==>
            walk.fileErrs == [] && forall k :: k in walk.vals ==> exists i :: 0 <= i < |specs| && specs[i].fileKey == k
  {
    hide LastWith, OwnsFileKey;
    var ws := FileLayerWrites(specs, walk);
    if walk.fileErrs != [] {
      assert ws[0].Report?;
    } else {
      OrderCovers(walk.fileOrder, walk.vals.Keys);
      forall k | k in walk.vals
        ensures LastWith(specs, k) == None <==> !exists i :: 0 <= i < |specs| && specs[i].fileKey == k
      {
        LastWithExactly(specs, k);
      }
      if NoReports(ws) {
        forall k | k in walk.vals
          ensures LastWith(specs, k) != None
        {
          var i :| 0 <= i < |walk.fileOrder| && walk.fileOrder[i] == k;
          assert !ws[i].Report?;
        }
      }
    }
  }

  lemma FlagReports(s: Settings, specs: seq<Spec>, order: seq<string>)
    requires Enumerates(order, s.values.Keys)
    ensures NoReports(FlagWrites(s.fold, specs, s.values, order)) <==>
            forall name :: name in s.values && s.values[name] != "" ==>
              exists i :: 0 <= i < |specs| && ToLower(s.fold, specs[i].path) == ToLower(s.fold, name)
  {
    hide SpecByPath, ToLower, Answers;
    var ws := FlagWrites(s.fold, specs, s.values, order);
    OrderCovers(order, s.values.Keys);
    forall name | name in s.values
      ensures SpecByPath(s.fold, specs, name) == None <==>
              !exists i :: 0 <= i < |specs| && ToLower(s.fold, specs[i].path) == ToLower(s.fold, name)
    {
      SpecByPathExactly(s.fold, specs, name);
    }
    if NoReports(ws) {
      forall name | name in s.values && s.values[name] != ""
        ensures SpecByPath(s.fold, specs, name) != None
      {
        var i :| 0 <= i < |order| && order[i] == name;
        assert !ws[i].Report?;
      }
    }
  }

  lemma OrderCovers(order: seq<string>, keys: set<string>)
    requires Enumerates(order, keys)
    ensures forall k :: k in keys ==> exists i :: 0 <= i < |order| && order[i] == k
    ensures forall i :: 0 <= i < |order| ==> order[i] in keys
  {
  }

  ghost predicate OffersParse(s: Settings, specs: seq<Spec>, walk: Walk, layer: Layer) {
    forall spec, raw :: spec in specs && Offers(s, specs, walk, layer, spec, raw) ==> Parse(s.parsers, spec.typ, raw) != None
  }

  lemma LayerSoundExactly(s: Settings, specs: seq<Spec>, walk: Walk, layer: Layer)
    requires WalkOf(s, walk)
    ensures AllParse(s.parsers, LayerWrites(s, specs, walk, layer)) <==>
            KeysKnown(s, specs, walk, layer) && OffersParse(s, specs, walk, layer)
  {
    hide AllParse, Writes, Offers, WalkOf, LayerWrites, Among, NoReports, KeysKnown, Parse;
    LayerAmong(s, specs, walk, layer);
    ParsesExactly(s.parsers, LayerWrites(s, specs, walk, layer), specs);
    ReportsExactly(s, specs, walk, layer);
    forall spec | spec in specs
      ensures forall raw :: Writes(LayerWrites(s, specs, walk, layer), spec, raw) <==> Offers(s, specs, walk, layer, spec, raw)
    {
      LayerWritesItsOffers(s, specs, walk, layer, spec);
    }
  }

  lemma {:induction false} RequiredExactly(specs: seq<Spec>, t: Target)
    ensures RequiredErrors(specs, t) == [] <==>
            forall i :: 0 <= i < |specs| && specs[i].required ==> Held(t, specs[i]) != Zero(specs[i].typ)
  {
    hide Held, Zero;
    if specs != [] {
      var n := |specs| - 1;
      RequiredExactly(specs[..n], t);
      assert forall i :: 0 <= i < n ==> specs[..n][i] == specs[i];
    }
  }

  ghost predicate AllSupported(fields: seq<Field>) {
    forall p :: LeafAt(fields, p) ==> Supported(At(fields, p).typ)
  }

  ghost predicate OffersSettable(s: Settings, specs: seq<Spec>, walk: Walk, layer: Layer) {
    forall spec, raw :: spec in specs && Offers(s, specs, walk, layer, spec, raw) ==> !Refuses(s.parsers, spec, raw)
  }

  /** No layer offers anything that cannot be set. */
  ghost predicate AllSettable(s: Settings, specs: seq<Spec>, walk: Walk) {
    forall layer :: OffersSettable(s, specs, walk, layer)
  }

  lemma BurstsOfWrites(ps: Parsers, ws: seq<Write>, specs: seq<Spec>)
    requires Among(ws, specs)
    ensures NoneBursts(ps, ws) <==> forall spec, raw :: spec in specs && Writes(ws, spec, raw) ==> !Refuses(ps, spec, raw)
  {
    hide Refuses;
    if NoneBursts(ps, ws) {
      forall spec, raw | Writes(ws, spec, raw)
        ensures !Refuses(ps, spec, raw)
      {
        var i :| 0 <= i < |ws| && ws[i].Set? && ws[i].spec == spec && ws[i].raw == raw;
        assert !Bursts(ps, ws[i]);
      }
    } else {
      var i :| 0 <= i < |ws| && Bursts(ps, ws[i]);
      assert Writes(ws, ws[i].spec, ws[i].raw);
    }
  }

  lemma LayerBurstsExactly(s: Settings, specs: seq<Spec>, walk: Walk, layer: Layer)
    requires WalkOf(s, walk)
    ensures NoneBursts(s.parsers, LayerWrites(s, specs, walk, layer)) <==> OffersSettable(s, specs, walk, layer)
  {
    hide NoneBursts, Writes, Offers, WalkOf, LayerWrites, Among, Refuses;
    LayerAmong(s, specs, walk, layer);
    BurstsOfWrites(s.parsers, LayerWrites(s, specs, walk, layer), specs);
    forall spec | spec in specs
      ensures forall raw :: Writes(LayerWrites(s, specs, walk, layer), spec, raw) <==> Offers(s, specs, walk, layer, spec, raw)
    {
      LayerWritesItsOffers(s, specs, walk, layer, spec);
    }
  }

  lemma LayersBurstExactly(s: Settings, specs: seq<Spec>, walk: Walk)
    requires WalkOf(s, walk)
    ensures NoneBursts(s.parsers, AllWrites(s, specs, walk)) <==> AllSettable(s, specs, walk)
  {
    hide NoneBursts, OffersSettable, WalkOf, AllWrites, DefaultWrites, FileLayerWrites, EnvWrites, FlagWrites;
    BurstsPanic(s, specs, walk);
    forall layer
      ensures NoneBursts(s.parsers, LayerWrites(s, specs, walk, layer)) <==> OffersSettable(s, specs, walk, layer)
    {
      LayerBurstsExactly(s, specs, walk, layer);
    }
    assert LayerWrites(s, specs, walk, Defaults) == DefaultWrites(specs);
    assert LayerWrites(s, specs, walk, File) == FileLayerWrites(specs, walk);
    assert LayerWrites(s, specs, walk, Env) == EnvWrites(s.lookup, specs);
    assert LayerWrites(s, specs, walk, Flags) == FlagWrites(s.fold, specs, s.values, walk.flagOrder);
  }

  /**
    A load panics exactly when the walk does, or when the type is fine and some layer offers a
    raw string for a list of a named string type, or one that parses for an unexported field.
  */
  lemma PanicsExactly(s: Settings, fields: seq<Field>, walk: Walk)
    requires WalkOf(s, walk)
    ensures LoadOutcome(s, fields, walk).Panicked? <==>
            !AllWalk(fields) || (AllSupported(fields) && !AllSettable(s, SpecsOf(Found(s.lower, fields)), walk))
  {
    hide Found, WalkOf, NoneBursts, AllWrites, AllSettable, AllSupported, Final, AllWalk;
    LayersBurstExactly(s, SpecsOf(Found(s.lower, fields)), walk);
    RefusedExactly(s.lower, fields);
  }

  /** Nothing is wrong with any layer, a required field or the configuration as a whole. */
  ghost predicate Sound(s: Settings, specs: seq<Spec>, walk: Walk) {
    && (forall layer :: KeysKnown(s, specs, walk, layer) && OffersParse(s, specs, walk, layer))
    && var t := AfterLayer(s, specs, walk, Flags).target;
      && (forall i :: 0 <= i < |specs| && specs[i].required ==> Held(t, specs[i]) != Zero(specs[i].typ))
      && (s.validate == None || s.validate.value(t) == None)
  }

  /**
    A load succeeds exactly when the walk does not panic, the type has no unsupported field,
    the file could be used, every file key and every non-empty flag names a binding, every raw
    string that any layer offers parses (also one that a higher layer hides) and can be set, no
    required field ends up zero, and the validation hook accepts.
  */
  lemma FailsExactly(s: Settings, fields: seq<Field>, walk: Walk)
    requires WalkOf(s, walk)
    ensures LoadOutcome(s, fields, walk).Loaded? <==>
            && AllWalk(fields)
            && AllSupported(fields)
            && AllSettable(s, SpecsOf(Found(s.lower, fields)), walk)
            && Sound(s, SpecsOf(Found(s.lower, fields)), walk)
  {
    hide Found, WalkOf, NoneBursts, AllWrites, AllSettable, AllSupported, Final, Sound;
    var specs := SpecsOf(Found(s.lower, fields));
    LayersBurstExactly(s, specs, walk);
    RefusedExactly(s.lower, fields);
    SoundExactly(s, specs, walk);
  }

  lemma SoundExactly(s: Settings, specs: seq<Spec>, walk: Walk)
    requires WalkOf(s, walk)
    ensures Final(s, specs, walk).errs == [] <==> Sound(s, specs, walk)
  {
    hide WalkOf, AllParse, AfterLayer, AllWrites, LayerWrites, KeysKnown, OffersParse;
    NoErrorsMeans(s, specs, walk);
    LayersParse(s, specs, walk);
    AfterAllLayers(s, specs, walk);
    forall layer
      ensures AllParse(s.parsers, LayerWrites(s, specs, walk, layer)) <==>
              KeysKnown(s, specs, walk, layer) && OffersParse(s, specs, walk, layer)
    {
      LayerSoundExactly(s, specs, walk, layer);
    }
    RequiredExactly(specs, AfterLayer(s, specs, walk, Flags).target);
  }

  /** The problems of the four layers, each in its own order, then the required fields', then validation's. */
  function AllProblems(s: Settings, specs: seq<Spec>, walk: Walk): seq<FieldError> {
    var t := AfterLayer(s, specs, walk, Flags).target;
    FlatMap(Problems(s.parsers), DefaultWrites(specs)) + FlatMap(Problems(s.parsers), FileLayerWrites(specs, walk))
    + FlatMap(Problems(s.parsers), EnvWrites(s.lookup, specs))
    + FlatMap(Problems(s.parsers), FlagWrites(s.fold, specs, s.values, walk.flagOrder))
    + RequiredErrors(specs, t) + ValidateErrors(s.validate, t)
  }

  lemma FinalErrors(s: Settings, specs: seq<Spec>, walk: Walk)
    ensures Final(s, specs, walk).errs == AllProblems(s, specs, walk)
  {
    hide FlatMap, DefaultWrites, FileLayerWrites, EnvWrites, FlagWrites, AfterLayer, RequiredErrors, ValidateErrors;
    var ps, ws := Problems(s.parsers), AllWrites(s, specs, walk);
    var a, b := DefaultWrites(specs), FileLayerWrites(specs, walk);
    var c, d := EnvWrites(s.lookup, specs), FlagWrites(s.fold, specs, s.values, walk.flagOrder);
    FlatMapConcat(ps, a, b);
    FlatMapConcat(ps, a + b, c);
    FlatMapConcat(ps, a + b + c, d);
    ErrorsOfWrites(s.parsers, START, ws);
    assert START.errs + FlatMap(ps, ws) == FlatMap(ps, ws);
    AfterAllLayers(s, specs, walk);
  }

  /** The field errors of a rejected load: those of the type alone if there are any, else all problems in order. */
  lemma RejectionListsTheLayers(s: Settings, fields: seq<Field>, walk: Walk)
    requires LoadOutcome(s, fields, walk).Rejected?
    ensures var items := Found(s.lower, fields);
      FieldErrors(LoadOutcome(s, fields, walk).err) ==
      if ErrorsOf(items) != [] then ErrorsOf(items) else AllProblems(s, SpecsOf(items), walk)
  {
    hide Found, Final, NoneBursts, AllWrites, AllProblems, FieldErrors, RejectionFrom;
    var items := Found(s.lower, fields);
    RejectionListsItsErrors(ErrorsOf(items));
    RejectionListsItsErrors(Final(s, SpecsOf(items), walk).errs);
    FinalErrors(s, SpecsOf(items), walk);
  }

  /** A binding without an environment key hears nothing from the environment. */
  lemma EmptyKeyIsSilent(s: Settings, fields: seq<Field>, walk: Walk, j: nat)
    requires j < |Found(s.lower, fields)| && Found(s.lower, fields)[j].Bound?
    requires LeafAt(fields, Found(s.lower, fields)[j].spec.index)
    requires TagName(At(fields, Found(s.lower, fields)[j].spec.index)) == ""
    requires UntaggedWay(fields, Found(s.lower, fields)[j].spec.index)
    ensures Silent(s, SpecsOf(Found(s.lower, fields)), walk, Env, Found(s.lower, fields)[j].spec)
  {
    hide Found;
    EnvKeyIsEmptyExactly(s.lower, fields, j);
  }

  lemma {:induction false} NoErrorsAmong(items: seq<Item>)
    ensures ErrorsOf(items) == [] <==> forall i :: 0 <= i < |items| ==> items[i].Bound?
  {
    if items != [] {
      NoErrorsAmong(items[..|items| - 1]);
    }
  }

  lemma RefusedExactly(lower: char -> char, fields: seq<Field>)
    ensures ErrorsOf(Found(lower, fields)) == [] <==> AllSupported(fields)
  {
    hide Found, Expected, Supported;
    var ps := WalkIsPartition(lower, fields);
    var items := Found(lower, fields);
    NoErrorsAmong(items);
    if ErrorsOf(items) == [] {
      forall p | LeafAt(fields, p)
        ensures Supported(At(fields, p).typ)
      {
        var j :| 0 <= j < |ps| && ps[j] == p;
        assert items[j].Bound?;
      }
    } else {
      var j :| 0 <= j < |items| && !items[j].Bound?;
      assert LeafAt(fields, ps[j]);
    }
  }
}
