/**
  A load does not depend on the order in which the decoded file, the flattened file and the
  flags are walked, as long as no two file keys meet in lower case and no two flag names
  differ only in case.
*/
module ConfigOrder {
  import opened Options
  import opened ConfigTypes
  import opened ConfigFields
  import opened ConfigParse
  import opened ConfigFile
  import opened ConfigErrors
  import opened ConfigLayers
  import opened ConfigLoader
  import opened ConfigPrecedence
  import opened Sorting
  import opened Permutations

  /** No two writes set the same field. */
  ghost predicate OnePerField(ws: seq<Write>) {
    forall i, j :: 0 <= i < j < |ws| && ws[i].Set? && ws[j].Set? ==> ws[i].spec.index != ws[j].spec.index
  }

  ghost predicate Gives(ps: Parsers, ws: seq<Write>, index: seq<nat>, v: Value) {
    exists w :: w in ws && w.Set? && w.spec.index == index && Parse(ps, w.spec.typ, w.raw) == Some(v)
  }

  lemma GivesNext(ps: Parsers, ws: seq<Write>, index: seq<nat>, v: Value)
    requires ws != []
    ensures var w := ws[|ws| - 1];
      Gives(ps, ws, index, v) <==>
      Gives(ps, ws[..|ws| - 1], index, v) || (w.Set? && w.spec.index == index && Parse(ps, w.spec.typ, w.raw) == Some(v))
  {
    hide Parse;
    var n := |ws| - 1;
    assert ws == ws[..n] + [ws[n]];
    if Gives(ps, ws[..n], index, v) {
      var w :| w in ws[..n] && w.Set? && w.spec.index == index && Parse(ps, w.spec.typ, w.raw) == Some(v);
      assert w in ws;
    }
  }

  /** With one write per field, the order of the writes does not show. */
  lemma {:induction false} TargetOfWrites(ps: Parsers, st: State, ws: seq<Write>, index: seq<nat>)
    requires OnePerField(ws)
    ensures var t := ApplyAll(ps, st, ws).target;
      && (forall v :: Gives(ps, ws, index, v) ==> index in t && t[index] == v)
      && ((forall v :: !Gives(ps, ws, index, v)) ==>
            (index in t <==> index in st.target) && (index in t ==> t[index] == st.target[index]))
  {
    hide Parse, Gives;
    if ws == [] {
      NothingGives(ps, index);
    } else {
      var n := |ws| - 1;
      TargetOfWrites(ps, st, ws[..n], index);
      forall v
        ensures Gives(ps, ws, index, v) <==>
                Gives(ps, ws[..n], index, v)
                || (ws[n].Set? && ws[n].spec.index == index && Parse(ps, ws[n].spec.typ, ws[n].raw) == Some(v))
      {
        GivesNext(ps, ws, index, v);
      }
      if ws[n].Set? && ws[n].spec.index == index {
        forall v
          ensures !Gives(ps, ws[..n], index, v)
        {
          LastIsTheOnlyOne(ps, ws, index, v);
        }
      }
    }
  }

  lemma NothingGives(ps: Parsers, index: seq<nat>)
    ensures forall v :: !Gives(ps, [], index, v)
  {
  }

  lemma LastIsTheOnlyOne(ps: Parsers, ws: seq<Write>, index: seq<nat>, v: Value)
    requires OnePerField(ws) && ws != []
    requires ws[|ws| - 1].Set? && ws[|ws| - 1].spec.index == index
    ensures !Gives(ps, ws[..|ws| - 1], index, v)
  {
    hide Parse;
  }

  /** Same target, same errors up to their order. */
  ghost predicate Alike(a: State, b: State) {
    a.target == b.target && multiset(a.errs) == multiset(b.errs)
  }

  lemma SameTargets(ps: Parsers, a: State, b: State, x: seq<Write>, y: seq<Write>)
    requires a.target == b.target && OnePerField(x) && OnePerField(y)
    requires multiset(x) == multiset(y)
    ensures ApplyAll(ps, a, x).target == ApplyAll(ps, b, y).target
  {
    hide Gives, OnePerField, ApplyAll;
    var t, t' := ApplyAll(ps, a, x).target, ApplyAll(ps, b, y).target;
    forall index
      ensures index in t <==> index in t'
      ensures index in t && index in t' ==> t[index] == t'[index]
    {
      TargetOfWrites(ps, a, x, index);
      TargetOfWrites(ps, b, y, index);
      forall v
        ensures Gives(ps, x, index, v) <==> Gives(ps, y, index, v)
      {
        SameGives(ps, x, y, index, v);
      }
    }
  }

  lemma SameGives(ps: Parsers, x: seq<Write>, y: seq<Write>, index: seq<nat>, v: Value)
    requires multiset(x) == multiset(y)
    ensures Gives(ps, x, index, v) <==> Gives(ps, y, index, v)
  {
    hide Parse;
    forall w
      ensures w in x <==> w in y
    {
      assert w in x <==> w in multiset(x);
      assert w in y <==> w in multiset(y);
    }
  }

  lemma SameEffects(ps: Parsers, a: State, b: State, x: seq<Write>, y: seq<Write>)
    requires Alike(a, b) && OnePerField(x) && OnePerField(y) && multiset(x) == multiset(y)
    ensures Alike(ApplyAll(ps, a, x), ApplyAll(ps, b, y))
  {
    SameTargets(ps, a, b, x, y);
    ErrorsOfWrites(ps, a, x);
    ErrorsOfWrites(ps, b, y);
    FlatMapPermutes(Problems(ps), x, y);
  }

  // ---------------------------------------------------------------------------
  // The layers
  // ---------------------------------------------------------------------------

  /** No two non-empty flags have names that differ only in case. */
  predicate FlagNamesApart(fold: char -> char, values: map<string, string>) {
    forall a, b :: a in values && b in values && values[a] != "" && values[b] != "" && EqualFold(fold, a, b) ==> a == b
  }

  lemma FileWritesOnce(specs: seq<Spec>, vals: map<string, string>, order: seq<string>)
    requires Apart(specs) && NoRepeats(order)
    ensures OnePerField(FileWrites(specs, vals, order))
  {
    hide LastWith;
    var ws := FileWrites(specs, vals, order);
    forall i, j | 0 <= i < j < |ws| && ws[i].Set? && ws[j].Set?
      ensures ws[i].spec.index != ws[j].spec.index
    {
      LastWithMeaning(specs, order[i]);
      LastWithMeaning(specs, order[j]);
      if ws[i].spec.index == ws[j].spec.index {
        IndexNamesSpec(specs, ws[i].spec, ws[j].spec);
      }
    }
  }

  lemma FoldsMeet(fold: char -> char, path: string, a: string, b: string)
    requires EqualFold(fold, path, a) && EqualFold(fold, path, b)
    ensures EqualFold(fold, a, b)
  {
    forall i | 0 <= i < |a|
      ensures fold(a[i]) == fold(b[i])
    {
      assert fold(path[i]) == fold(a[i]);
    }
  }

  lemma FlagWritesOnce(fold: char -> char, specs: seq<Spec>, values: map<string, string>, order: seq<string>)
    requires Apart(specs) && NoRepeats(order) && FlagNamesApart(fold, values)
    ensures OnePerField(FlagWrites(fold, specs, values, order))
  {
    hide SpecByPath;
    var ws := FlagWrites(fold, specs, values, order);
    forall i, j | 0 <= i < j < |ws| && ws[i].Set? && ws[j].Set?
      ensures ws[i].spec.index != ws[j].spec.index
    {
      SpecByPathMeaning(fold, specs, order[i]);
      SpecByPathMeaning(fold, specs, order[j]);
      if ws[i].spec.index == ws[j].spec.index {
        IndexNamesSpec(specs, ws[i].spec, ws[j].spec);
        FoldsMeet(fold, ws[i].spec.path, order[i], order[j]);
      }
    }
  }

  lemma SpecWritesOnce(s: Settings, specs: seq<Spec>, walk: Walk, layer: Layer)
    requires Apart(specs) && (layer == Defaults || layer == Env)
    ensures OnePerField(LayerWrites(s, specs, walk, layer))
  {
  }

  lemma ReportsSetNothing(errs: seq<FieldError>)
    ensures OnePerField(Reports(errs))
  {
  }

  lemma SameKeys(a: seq<string>, b: seq<string>, keys: set<string>)
    requires Enumerates(a, keys) && Enumerates(b, keys)
    ensures multiset(a) == multiset(b)
  {
    NoRepeatsPermute(a, b);
  }

  ghost predicate FileCollisionFree(s: Settings) {
    s.file.Decoded? ==> CollisionFree(s.lower, s.file.tree)
  }

  /** Both walks flatten the file to the same map, with the same errors. */
  lemma SameFile(s: Settings, x: Walk, y: Walk)
    requires FileWalk(s, x) && FileWalk(s, y) && FileCollisionFree(s)
    ensures x.vals == y.vals && multiset(x.fileErrs) == multiset(y.fileErrs)
    ensures x.fileErrs == [] <==> y.fileErrs == []
  {
    hide FlattenedTo, CollisionFree;
    if s.file.Decoded? {
      EntriesDoNotDependOnOrder(s.lower, s.file.tree, x.vals, x.fileErrs, y.vals, y.fileErrs);
      ErrorsDoNotDependOnOrder(s.lower, s.file.tree, x.vals, x.fileErrs, y.vals, y.fileErrs);
      assert |multiset(x.fileErrs)| == |x.fileErrs| && |multiset(y.fileErrs)| == |y.fileErrs|;
    }
  }

  lemma SameLayer(s: Settings, specs: seq<Spec>, x: Walk, y: Walk, layer: Layer)
    requires WalkOf(s, x) && WalkOf(s, y) && Apart(specs)
    requires FileCollisionFree(s) && FlagNamesApart(s.fold, s.values)
    ensures var a, b := LayerWrites(s, specs, x, layer), LayerWrites(s, specs, y, layer);
            OnePerField(a) && OnePerField(b) && multiset(a) == multiset(b)
  {
    hide FileWalk, Apart, OnePerField, FlagNamesApart, FileCollisionFree;
    var a, b := LayerWrites(s, specs, x, layer), LayerWrites(s, specs, y, layer);
    match layer {
      case Defaults => SpecWritesOnce(s, specs, x, layer);
      case Env => SpecWritesOnce(s, specs, x, layer);
      case Flags =>
        FlagWritesOnce(s.fold, specs, s.values, x.flagOrder);
        FlagWritesOnce(s.fold, specs, s.values, y.flagOrder);
        SameKeys(x.flagOrder, y.flagOrder, s.values.Keys);
        ImagesPermute(name => FlagWrite(s.fold, specs, s.values, name), x.flagOrder, a, y.flagOrder, b);
      case File =>
        SameFile(s, x, y);
        if x.fileErrs == [] {
          FileWritesOnce(specs, x.vals, x.fileOrder);
          FileWritesOnce(specs, x.vals, y.fileOrder);
          SameKeys(x.fileOrder, y.fileOrder, x.vals.Keys);
          ImagesPermute(k => FileWrite(specs, x.vals, k), x.fileOrder, a, y.fileOrder, b);
        } else {
          ReportsSetNothing(x.fileErrs);
          ReportsSetNothing(y.fileErrs);
          ImagesPermute(e => Report(e), x.fileErrs, a, y.fileErrs, b);
        }
    }
  }

  lemma {:induction false} SameAfterLayer(s: Settings, specs: seq<Spec>, x: Walk, y: Walk, layer: Layer)
    requires WalkOf(s, x) && WalkOf(s, y) && Apart(specs)
    requires FileCollisionFree(s) && FlagNamesApart(s.fold, s.values)
    ensures Alike(AfterLayer(s, specs, x, layer), AfterLayer(s, specs, y, layer))
    decreases Rank(layer)
  {
    hide WalkOf, Apart, OnePerField, FlagNamesApart, FileCollisionFree, LayerWrites;
    if layer != Defaults {
      SameAfterLayer(s, specs, x, y, LayerBelow(layer));
    }
    SameLayer(s, specs, x, y, layer);
    SameEffects(s.parsers, BeforeLayer(s, specs, x, layer), BeforeLayer(s, specs, y, layer),
                LayerWrites(s, specs, x, layer), LayerWrites(s, specs, y, layer));
  }

  /** The same configuration, or rejections that list the same field errors in some order. */
  ghost predicate SameOutcome(a: Outcome, b: Outcome) {
    match (a, b)
    case (Loaded(t), Loaded(t')) => t == t'
    case (Rejected(e), Rejected(e')) => multiset(FieldErrors(e)) == multiset(FieldErrors(e'))
    case (Panicked, Panicked) => true
    case _ => false
  }

  lemma SameBursts(ps: Parsers, x: seq<Write>, y: seq<Write>)
    requires multiset(x) == multiset(y) && NoneBursts(ps, x)
    ensures NoneBursts(ps, y)
  {
    hide Bursts;
    forall i | 0 <= i < |y|
      ensures !Bursts(ps, y[i])
    {
      assert y[i] in multiset(y);
      assert y[i] in x;
    }
  }

  /** A panic does not depend on the order either. */
  lemma SamePanics(s: Settings, specs: seq<Spec>, x: Walk, y: Walk)
    requires WalkOf(s, x) && WalkOf(s, y) && Apart(specs)
    requires FileCollisionFree(s) && FlagNamesApart(s.fold, s.values)
    requires NoneBursts(s.parsers, AllWrites(s, specs, x))
    ensures NoneBursts(s.parsers, AllWrites(s, specs, y))
  {
    hide WalkOf, Apart, FlagNamesApart, FileCollisionFree, NoneBursts, AllWrites, OnePerField;
    BurstsPanic(s, specs, x);
    BurstsPanic(s, specs, y);
    SameLayer(s, specs, x, y, File);
    SameLayer(s, specs, x, y, Flags);
    SameBursts(s.parsers, LayerWrites(s, specs, x, File), LayerWrites(s, specs, y, File));
    SameBursts(s.parsers, LayerWrites(s, specs, x, Flags), LayerWrites(s, specs, y, Flags));
  }

  lemma SameFinal(s: Settings, specs: seq<Spec>, x: Walk, y: Walk)
    requires WalkOf(s, x) && WalkOf(s, y) && Apart(specs)
    requires FileCollisionFree(s) && FlagNamesApart(s.fold, s.values)
    ensures Alike(Final(s, specs, x), Final(s, specs, y))
  {
    hide WalkOf, Apart, FlagNamesApart, FileCollisionFree, AllWrites, AfterLayer;
    SameAfterLayer(s, specs, x, y, Flags);
    AfterAllLayers(s, specs, x);
    AfterAllLayers(s, specs, y);
  }

  lemma SameForAnyWalk(s: Settings, fields: seq<Field>, x: Walk, y: Walk)
    requires WalkOf(s, x) && WalkOf(s, y)
    requires FileCollisionFree(s) && FlagNamesApart(s.fold, s.values)
    ensures SameOutcome(LoadOutcome(s, fields, x), LoadOutcome(s, fields, y))
  {
    hide WalkOf, Apart, FlagNamesApart, FileCollisionFree, AllWrites, NoneBursts, Final, Found, FieldErrors, RejectionFrom;
    var specs := SpecsOf(Found(s.lower, fields));
    SpecsAreApart(s.lower, fields);
    if NoneBursts(s.parsers, AllWrites(s, specs, x)) {
      SamePanics(s, specs, x, y);
    } else if NoneBursts(s.parsers, AllWrites(s, specs, y)) {
      SamePanics(s, specs, y, x);
    }
    SameFinal(s, specs, x, y);
    var a, b := Final(s, specs, x).errs, Final(s, specs, y).errs;
    assert |multiset(a)| == |a| && |multiset(b)| == |b|;
    RejectionListsItsErrors(a);
    RejectionListsItsErrors(b);
  }

  /** Two loads of the same settings come out the same, whatever orders they walk the maps in. */
  lemma LoadDoesNotDependOnOrder(s: Settings, fields: seq<Field>, a: Outcome, b: Outcome)
    requires MayReturn(s, fields, a) && MayReturn(s, fields, b)
    requires FileCollisionFree(s) && FlagNamesApart(s.fold, s.values)
    ensures SameOutcome(a, b)
  {
    hide WalkOf, FlagNamesApart, FileCollisionFree, Final, Found, FieldErrors, NoneBursts, AllWrites;
    var x :| (ReadsMaps(s, fields) ==> WalkOf(s, x)) && a == LoadOutcome(s, fields, x);
    var y :| (ReadsMaps(s, fields) ==> WalkOf(s, y)) && b == LoadOutcome(s, fields, y);
    var specs := SpecsOf(Found(s.lower, fields));
    BurstsPanic(s, specs, x);
    BurstsPanic(s, specs, y);
    if ReadsMaps(s, fields) {
      SameForAnyWalk(s, fields, x, y);
    }
  }
}
