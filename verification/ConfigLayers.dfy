/**
  The layers of a load as one list of writes: what each layer writes, what a list of
  writes does to the target, and what does not depend on the order of a layer.
*/
module ConfigLayers {
  import opened Options
  import opened ConfigTypes
  import opened ConfigFields
  import opened ConfigParse
  import opened ConfigFile
  import opened Sorting
  import opened Permutations

  // The fields written so far, by index path. All others still hold their zero value.
  type Target = map<seq<nat>, Value>

  datatype State = State(target: Target, errs: seq<FieldError>)

  // A layer sets a field from a raw string, reports a problem, or does nothing.
  datatype Write = Skip | Set(spec: Spec, raw: string, key: string) | Report(err: FieldError)

  datatype FileLayer = NoFile | Unusable(path: string, kind: Kind, cause: Error) | Decoded(tree: Node)

  datatype Settings = Settings(
    lower: char -> char,
    fold: char -> char,
    parsers: Parsers,
    file: FileLayer,
    lookup: Option<string -> Option<string>>,
    values: map<string, string>,
    validate: Option<Target -> Option<Error>>)

  ghost predicate ValidFile(f: FileLayer) {
    f.Decoded? ==> f.tree.Tree?
  }

  function Held(target: Target, spec: Spec): Value {
    if spec.index in target then target[spec.index] else Zero(spec.typ)
  }

  function ParseProblem(spec: Spec, key: string): FieldError {
    FieldError(spec.path, key, ParseFailed, Some(Wrapped(Some(Foreign("config.parse")))))
  }

  function Apply(ps: Parsers, st: State, w: Write): State {
    match w
    case Skip => st
    case Report(err) => st.(errs := st.errs + [err])
    case Set(spec, raw, key) =>
      match Parse(ps, spec.typ, raw)
      case Some(v) => st.(target := st.target[spec.index := v])
      case None => st.(errs := st.errs + [ParseProblem(spec, key)])
  }

  function ApplyAll(ps: Parsers, st: State, ws: seq<Write>): State {
    if ws == [] then st else Apply(ps, ApplyAll(ps, st, ws[..|ws| - 1]), ws[|ws| - 1])
  }

  /** Setting the field ends in a panic: no conversion to its type, or reflection may not set it. */
  predicate Refuses(ps: Parsers, spec: Spec, raw: string) {
    !Converts(spec.typ) || (!spec.settable && Parse(ps, spec.typ, raw) != None)
  }

  predicate Bursts(ps: Parsers, w: Write) {
    w.Set? && Refuses(ps, w.spec, w.raw)
  }

  predicate NoneBursts(ps: Parsers, ws: seq<Write>) {
    forall i :: 0 <= i < |ws| ==> !Bursts(ps, ws[i])
  }

  // ---------------------------------------------------------------------------
  // What each layer writes
  // ---------------------------------------------------------------------------

  function DefaultWrite(spec: Spec): Write {
    if spec.def == None then Skip else Set(spec, spec.def.value, spec.envKey)
  }

  function DefaultWrites(specs: seq<Spec>): (ws: seq<Write>)
    ensures |ws| == |specs| && forall i :: 0 <= i < |specs| ==> ws[i] == DefaultWrite(specs[i])
  {
    seq(|specs|, i requires 0 <= i < |specs| => DefaultWrite(specs[i]))
  }

  /** The last binding with this file key. */
  function LastWith(specs: seq<Spec>, key: string): Option<Spec> {
    if specs == [] then None
    else
      var n := |specs| - 1;
      if specs[n].fileKey == key then Some(specs[n]) else LastWith(specs[..n], key)
  }

  function FileWrite(specs: seq<Spec>, vals: map<string, string>, key: string): Write {
    match LastWith(specs, key)
    case None => Report(FieldError(FILE_TOKEN, key, FileDecode, Some(Foreign("config.unknown_file_key"))))
    case Some(spec) => if key in vals then Set(spec, vals[key], key) else Skip
  }

  function FileWrites(specs: seq<Spec>, vals: map<string, string>, order: seq<string>): (ws: seq<Write>)
    ensures |ws| == |order| && forall i :: 0 <= i < |order| ==> ws[i] == FileWrite(specs, vals, order[i])
  {
    seq(|order|, i requires 0 <= i < |order| => FileWrite(specs, vals, order[i]))
  }

  function Reports(errs: seq<FieldError>): (ws: seq<Write>)
    ensures |ws| == |errs| && forall i :: 0 <= i < |errs| ==> ws[i] == Report(errs[i])
  {
    seq(|errs|, i requires 0 <= i < |errs| => Report(errs[i]))
  }

  /** Unset and empty are the same to the environment. */
  function EnvWrite(lookup: Option<string -> Option<string>>, spec: Spec): Write {
    if spec.envKey == "" || lookup == None then Skip
    else match lookup.value(spec.envKey)
      case None => Skip
      case Some(raw) => if raw == "" then Skip else Set(spec, raw, spec.envKey)
  }

  function EnvWrites(lookup: Option<string -> Option<string>>, specs: seq<Spec>): (ws: seq<Write>)
    ensures |ws| == |specs| && forall i :: 0 <= i < |specs| ==> ws[i] == EnvWrite(lookup, specs[i])
  {
    seq(|specs|, i requires 0 <= i < |specs| => EnvWrite(lookup, specs[i]))
  }

  predicate EqualFold(fold: char -> char, a: string, b: string) {
    |a| == |b| && forall i :: 0 <= i < |a| ==> fold(a[i]) == fold(b[i])
  }

  /** The first binding with this name, whatever the case. */
  function SpecByPath(fold: char -> char, specs: seq<Spec>, name: string): Option<Spec> {
    if specs == [] then None
    else if EqualFold(fold, specs[0].path, name) then Some(specs[0])
    else SpecByPath(fold, specs[1..], name)
  }

  function FlagWrite(fold: char -> char, specs: seq<Spec>, values: map<string, string>, name: string): Write {
    if name !in values || values[name] == "" then Skip
    else match SpecByPath(fold, specs, name)
      case None => Report(FieldError(name, name, UnknownField, Some(Foreign("config.unknown_field"))))
      case Some(spec) => Set(spec, values[name], name)
  }

  function FlagWrites(fold: char -> char, specs: seq<Spec>, values: map<string, string>, order: seq<string>): (ws: seq<Write>)
    ensures |ws| == |order| && forall i :: 0 <= i < |order| ==> ws[i] == FlagWrite(fold, specs, values, order[i])
  {
    seq(|order|, i requires 0 <= i < |order| => FlagWrite(fold, specs, values, order[i]))
  }

  // How one load walked its maps: the flattened file, and the orders of the two map layers.
  datatype Walk = Walk(
    vals: map<string, string>, fileErrs: seq<FieldError>,
    fileOrder: seq<string>, flagOrder: seq<string>)

  ghost predicate Enumerates(order: seq<string>, keys: set<string>) {
    NoRepeats(order) && (forall k :: k in order <==> k in keys)
  }

  ghost predicate FileWalk(s: Settings, walk: Walk) {
    match s.file
    case NoFile => walk.vals == map[] && walk.fileErrs == []
    case Unusable(path, kind, cause) => walk.vals == map[] && walk.fileErrs == [FieldError(FILE_TOKEN, path, kind, Some(cause))]
    case Decoded(tree) => FlattenedTo(s.lower, tree, "", walk.vals, walk.fileErrs)
  }

  ghost predicate WalkOf(s: Settings, walk: Walk) {
    && FileWalk(s, walk)
    && Enumerates(walk.fileOrder, walk.vals.Keys)
    && Enumerates(walk.flagOrder, s.values.Keys)
  }

  /** A file with any problem of its own sets nothing. */
  function FileLayerWrites(specs: seq<Spec>, walk: Walk): seq<Write> {
    if walk.fileErrs != [] then Reports(walk.fileErrs) else FileWrites(specs, walk.vals, walk.fileOrder)
  }

  function AllWrites(s: Settings, specs: seq<Spec>, walk: Walk): seq<Write> {
    DefaultWrites(specs) + FileLayerWrites(specs, walk) + EnvWrites(s.lookup, specs)
    + FlagWrites(s.fold, specs, s.values, walk.flagOrder)
  }

  function RequiredErrors(specs: seq<Spec>, target: Target): seq<FieldError> {
    if specs == [] then []
    else
      var n := |specs| - 1;
      var spec := specs[n];
      RequiredErrors(specs[..n], target)
      + if spec.required && Held(target, spec) == Zero(spec.typ) then
          [FieldError(spec.path, spec.envKey, MissingRequired, Some(Foreign("config.required_unset")))]
        else []
  }

  function ValidateErrors(validate: Option<Target -> Option<Error>>, target: Target): seq<FieldError> {
    if validate == None then []
    else match validate.value(target)
      case None => []
      case Some(e) => [FieldError("(validate)", "validate", Validation, Some(e))]
  }

  const START := State(map[], [])

  /** The state after every layer, the required checks and the validation hook. */
  function Final(s: Settings, specs: seq<Spec>, walk: Walk): State {
    var st := ApplyAll(s.parsers, START, AllWrites(s, specs, walk));
    st.(errs := st.errs + RequiredErrors(specs, st.target) + ValidateErrors(s.validate, st.target))
  }
}
