/**
  The walk over the target struct in config/fields.go, which turns every tagged leaf
  into one binding with all its keys.
*/
module ConfigFields {
  import opened Options
  import opened ConfigTypes
  import opened Text

  datatype Spec = Spec(
    path: string, fileKey: string, envKey: string, def: Option<string>, required: bool,
    index: seq<nat>, typ: Type,
    settable: bool)  // reflection refuses to set unexported fields

  function JoinPath(prefix: string, name: string): string {
    if prefix == "" then name else prefix + "." + name
  }

  function ToLower(lower: char -> char, s: string): (r: string)
    ensures |r| == |s| && forall i :: 0 <= i < |s| ==> r[i] == lower(s[i])
  {
    seq(|s|, i requires 0 <= i < |s| => lower(s[i]))
  }

  /** The text before the first separator, and the text after it. */
  function Cut(s: string, sep: char): (string, string) {
    if s == "" then ("", "")
    else if s[0] == sep then ("", s[1..])
    else var (a, b) := Cut(s[1..], sep); ([s[0]] + a, b)
  }

  lemma {:induction false} CutIsSplit(s: string, sep: char)
    ensures Cut(s, sep).0 == Split(s, sep)[0]
    ensures if |Split(s, sep)| == 1 then Cut(s, sep).1 == "" else Split(Cut(s, sep).1, sep) == Split(s, sep)[1..]
  {
    if s != "" && s[0] != sep {
      CutIsSplit(s[1..], sep);
    }
  }

  predicate HasOption(opts: string, want: string) {
    var parts := Split(opts, ',');
    exists i :: 0 <= i < |parts| && Trim(IsSpace, parts[i]) == want
  }

  predicate Supported(t: Type) {
    !t.Time? && !t.Struct? && !t.Other?
  }

  // ---------------------------------------------------------------------------
  // The walk
  // ---------------------------------------------------------------------------

  /** An unexported embedded type still promotes its exported fields. */
  predicate Visible(f: Field) {
    f.exported || f.anonymous
  }

  function TagName(f: Field): string {
    if f.env == None then "" else Cut(f.env.value, ',').0
  }

  function NestedWalk(f: Field, envPrefix: string, pathPrefix: string): Option<(string, string)> {
    if f.anonymous && f.env == None then Some((envPrefix, pathPrefix))
    else if f.typ.Struct? && f.env != None then
      Some((envPrefix + TagName(f) + "_", JoinPath(pathPrefix, f.name)))
    else None
  }

  // What the walk finds at an index path: a binding, or a tagged leaf of an unsupported type.
  datatype Item = Bound(spec: Spec) | Refused(index: seq<nat>, err: FieldError)

  function IndexOf(it: Item): seq<nat> {
    if it.Bound? then it.spec.index else it.index
  }

  function ItemFor(lower: char -> char, f: Field, path: string, envKey: string, index: seq<nat>): Item {
    if Supported(f.typ) then
      Bound(Spec(path, ToLower(lower, path), envKey, f.def,
                 f.env != None && HasOption(Cut(f.env.value, ',').1, "required"), index, f.typ, f.exported))
    else Refused(index, FieldError(path, TagName(f), UnsupportedType, None))
  }

  function FieldItems(lower: char -> char, f: Field, envPrefix: string, pathPrefix: string, index: seq<nat>): seq<Item>
    decreases f, 0
  {
    if !Visible(f) then []
    else match NestedWalk(f, envPrefix, pathPrefix)
      case Some(pre) => if f.typ.Struct? then Items(lower, f.typ.fields, pre.0, pre.1, index, |f.typ.fields|) else []
      case None =>
        if f.typ.Struct? || f.env == None then []
        else [ItemFor(lower, f, JoinPath(pathPrefix, f.name), envPrefix + TagName(f), index)]
  }

  /** What the walk finds in the first k fields, in field order. */
  function Items(lower: char -> char, fields: seq<Field>, envPrefix: string, pathPrefix: string,
                 index: seq<nat>, k: nat): seq<Item>
    requires k <= |fields|
    decreases fields, k
  {
    if k == 0 then []
    else
      Items(lower, fields, envPrefix, pathPrefix, index, k - 1)
      + FieldItems(lower, fields[k - 1], envPrefix, pathPrefix, index + [k - 1])
  }

  function Found(lower: char -> char, fields: seq<Field>): seq<Item> {
    Items(lower, fields, "", "", [], |fields|)
  }

  function SpecsOf(items: seq<Item>): seq<Spec> {
    if items == [] then []
    else
      var n := |items| - 1;
      SpecsOf(items[..n]) + if items[n].Bound? then [items[n].spec] else []
  }

  function ErrorsOf(items: seq<Item>): seq<FieldError> {
    if items == [] then []
    else
      var n := |items| - 1;
      ErrorsOf(items[..n]) + if items[n].Refused? then [items[n].err] else []
  }

  /** Reflection panics on the fields of a type that has none. */
  predicate Walks(f: Field)
    decreases f
  {
    if !Visible(f) then true
    else if f.typ.Struct? then NestedWalk(f, "", "") != None ==> AllWalk(f.typ.fields)
    else f.anonymous && f.env == None ==> f.typ.Time?
  }

  predicate AllWalk(fields: seq<Field>)
    decreases fields
  {
    forall i :: 0 <= i < |fields| ==> Walks(fields[i])
  }

  lemma {:induction false} ProjectConcat(a: seq<Item>, b: seq<Item>)
    ensures SpecsOf(a + b) == SpecsOf(a) + SpecsOf(b)
    ensures ErrorsOf(a + b) == ErrorsOf(a) + ErrorsOf(b)
  {
    if b == [] {
      assert a + b == a;
    } else {
      var n := |b| - 1;
      ProjectConcat(a, b[..n]);
      assert (a + b)[..|a + b| - 1] == a + b[..n];
    }
  }

  /** Collects the bindings and the errors of a whole struct type; `ok` is false on a panic. */
  method CollectFields(lower: char -> char, fields: seq<Field>, envPrefix: string, pathPrefix: string, index: seq<nat>)
    returns (ok: bool, specs: seq<Spec>, errs: seq<FieldError>)
    ensures ok == AllWalk(fields)
    ensures ok ==> specs == SpecsOf(Items(lower, fields, envPrefix, pathPrefix, index, |fields|))
    ensures ok ==> errs == ErrorsOf(Items(lower, fields, envPrefix, pathPrefix, index, |fields|))
    decreases fields
  {
    hide HasOption, Cut, JoinPath, ToLower, Supported;
    ok, specs, errs := true, [], [];
    for i := 0 to |fields|
      invariant ok
      invariant forall j :: 0 <= j < i ==> Walks(fields[j])
      invariant specs == SpecsOf(Items(lower, fields, envPrefix, pathPrefix, index, i))
      invariant errs == ErrorsOf(Items(lower, fields, envPrefix, pathPrefix, index, i))
    {
      var field := fields[i];
      ghost var items := FieldItems(lower, field, envPrefix, pathPrefix, index + [i]);
      ProjectConcat(Items(lower, fields, envPrefix, pathPrefix, index, i), items);
      if !Visible(field) {
        continue;
      }
      match NestedWalk(field, envPrefix, pathPrefix) {
        case Some(pre) =>
          if field.typ.Struct? {
            var childOk, childSpecs, childErrs := CollectFields(lower, field.typ.fields, pre.0, pre.1, index + [i]);
            if !childOk {
              assert !Walks(fields[i]);
              return false, [], [];
            }
            specs, errs := specs + childSpecs, errs + childErrs;
          } else if !field.typ.Time? {
            assert !Walks(fields[i]);
            return false, [], [];
          }
        case None =>
          if !field.typ.Struct? && field.env != None {
            var path := JoinPath(pathPrefix, field.name);
            if !Supported(field.typ) {
              errs := errs + [FieldError(path, TagName(field), UnsupportedType, None)];
            } else {
              var (name, opts) := Cut(field.env.value, ',');
              var spec := Spec(path, "", envPrefix + name, field.def, HasOption(opts, "required"), index + [i],
                               field.typ, field.exported);
              spec := spec.(fileKey := ToLower(lower, spec.path));
              specs := specs + [spec];
            }
          }
      }
    }
  }

  // ---------------------------------------------------------------------------
  // Reading the type from the top, by index path
  // ---------------------------------------------------------------------------

  /** Fields the walk goes into. */
  predicate Walked(f: Field) {
    f.typ.Struct? && (f.anonymous || f.env != None)
  }

  /** Every field on the way is walked into, and the last one is visible. */
  predicate Reaches(fields: seq<Field>, p: seq<nat>)
    decreases |p|
  {
    && p != [] && p[0] < |fields| && (fields[p[0]].exported || fields[p[0]].anonymous)
    && (|p| > 1 ==> Walked(fields[p[0]]) && Reaches(fields[p[0]].typ.fields, p[1..]))
  }

  function At(fields: seq<Field>, p: seq<nat>): Field
    requires Reaches(fields, p)
    decreases |p|
  {
    if |p| == 1 then fields[p[0]] else At(fields[p[0]].typ.fields, p[1..])
  }

  /** The environment key: the tag prefixes on the way, each with an underscore, then the tag's name. */
  function EnvAt(fields: seq<Field>, p: seq<nat>): string
    requires Reaches(fields, p)
    decreases |p|
  {
    var f := fields[p[0]];
    if |p| == 1 then TagName(f)
    else (if f.env == None then "" else TagName(f) + "_") + EnvAt(f.typ.fields, p[1..])
  }

  /** The field names on the way, without the embedded structs whose fields are promoted. */
  function NamesAt(fields: seq<Field>, p: seq<nat>): seq<string>
    requires Reaches(fields, p)
    decreases |p|
  {
    var f := fields[p[0]];
    if |p| == 1 then [f.name]
    else (if f.env == None then [] else [f.name]) + NamesAt(f.typ.fields, p[1..])
  }

  predicate TaggedLeaf(f: Field) {
    f.env != None && !f.typ.Struct?
  }

  predicate LeafAt(fields: seq<Field>, p: seq<nat>) {
    Reaches(fields, p) && TaggedLeaf(At(fields, p))
  }

  function Under(prefix: string, names: seq<string>): string
    decreases |names|
  {
    if names == [] then prefix else Under(JoinPath(prefix, names[0]), names[1..])
  }

  /** What the walk must find at p when it starts with these prefixes. */
  function Expected(lower: char -> char, fields: seq<Field>, envPrefix: string, pathPrefix: string,
                    index: seq<nat>, p: seq<nat>): Item
    requires Reaches(fields, p)
  {
    ItemFor(lower, At(fields, p), Under(pathPrefix, NamesAt(fields, p)), envPrefix + EnvAt(fields, p), index + p)
  }

  /** Field order: the order of index paths. */
  predicate Before(p: seq<nat>, q: seq<nat>)
    decreases |p|
  {
    p != [] && q != [] && (p[0] < q[0] || (p[0] == q[0] && Before(p[1..], q[1..])))
  }

  /**
    The items are explained by the index paths ps: each item is what is expected at its path,
    the paths are in field order, and they are all the tagged leaves whose path starts in lo..hi.
  */
  ghost predicate Explained(lower: char -> char, fields: seq<Field>, envPrefix: string, pathPrefix: string,
                            index: seq<nat>, lo: nat, hi: nat, items: seq<Item>, ps: seq<seq<nat>>)
  {
    && |ps| == |items|
    && (forall j :: 0 <= j < |ps| ==>
          LeafAt(fields, ps[j]) && lo <= ps[j][0] < hi
          && items[j] == Expected(lower, fields, envPrefix, pathPrefix, index, ps[j]))
    && (forall i, j :: 0 <= i < j < |ps| ==> Before(ps[i], ps[j]))
    && (forall p :: LeafAt(fields, p) && lo <= p[0] < hi ==> p in ps)
  }

  lemma ExplainConcat(lower: char -> char, fields: seq<Field>, envPrefix: string, pathPrefix: string, index: seq<nat>,
                      k: nat, a: seq<Item>, ps: seq<seq<nat>>, b: seq<Item>, qs: seq<seq<nat>>)
    requires Explained(lower, fields, envPrefix, pathPrefix, index, 0, k, a, ps)
    requires Explained(lower, fields, envPrefix, pathPrefix, index, k, k + 1, b, qs)
    ensures Explained(lower, fields, envPrefix, pathPrefix, index, 0, k + 1, a + b, ps + qs)
  {
    hide Expected, At, TaggedLeaf;
  }

  /** One level down, each description says the same as one level up. */
  lemma StepInto(lower: char -> char, fields: seq<Field>, envPrefix: string, pathPrefix: string, index: seq<nat>,
                 k: nat, p: seq<nat>)
    requires k < |fields| && Visible(fields[k]) && Walked(fields[k])
    requires LeafAt(fields[k].typ.fields, p)
    ensures LeafAt(fields, [k] + p)
    ensures var pre := NestedWalk(fields[k], envPrefix, pathPrefix).value;
            Expected(lower, fields[k].typ.fields, pre.0, pre.1, index + [k], p)
            == Expected(lower, fields, envPrefix, pathPrefix, index, [k] + p)
  {
    hide ItemFor, JoinPath, TagName;
    var f, q := fields[k], [k] + p;
    var pre := NestedWalk(f, envPrefix, pathPrefix).value;
    assert q[1..] == p && q[0] == k && |q| > 1;
    assert index + q == index + [k] + p;
    assert At(fields, q) == At(f.typ.fields, p);
    assert pre.0 + EnvAt(f.typ.fields, p) == envPrefix + EnvAt(fields, q);
    assert Under(pre.1, NamesAt(f.typ.fields, p)) == Under(pathPrefix, NamesAt(fields, q)) by {
      if f.env != None {
        assert ([f.name] + NamesAt(f.typ.fields, p))[1..] == NamesAt(f.typ.fields, p);
      } else {
        assert NamesAt(fields, q) == NamesAt(f.typ.fields, p);
      }
    }
  }

  lemma BeforeUnder(k: nat, p: seq<nat>, q: seq<nat>)
    requires Before(p, q)
    ensures Before([k] + p, [k] + q)
  {
    assert ([k] + p)[1..] == p && ([k] + q)[1..] == q;
  }

  lemma LeafExpected(lower: char -> char, fields: seq<Field>, envPrefix: string, pathPrefix: string, index: seq<nat>, k: nat)
    requires k < |fields| && Visible(fields[k]) && TaggedLeaf(fields[k])
    ensures LeafAt(fields, [k])
    ensures FieldItems(lower, fields[k], envPrefix, pathPrefix, index + [k])
         == [Expected(lower, fields, envPrefix, pathPrefix, index, [k])]
  {
    hide ItemFor, JoinPath, TagName;
    assert Under(pathPrefix, [fields[k].name]) == JoinPath(pathPrefix, fields[k].name);
  }

  lemma LeafInside(fields: seq<Field>, p: seq<nat>)
    requires LeafAt(fields, p) && Walked(fields[p[0]])
    ensures LeafAt(fields[p[0]].typ.fields, p[1..]) && p == [p[0]] + p[1..]
  {
  }

  function Prefixed(k: nat, qs: seq<seq<nat>>): (ps: seq<seq<nat>>)
    ensures |ps| == |qs| && forall j :: 0 <= j < |qs| ==> ps[j] == [k] + qs[j]
  {
    seq(|qs|, j requires 0 <= j < |qs| => [k] + qs[j])
  }

  lemma PrefixedCovers(fields: seq<Field>, k: nat, qs: seq<seq<nat>>, p: seq<nat>)
    requires k < |fields| && Walked(fields[k])
    requires forall q :: LeafAt(fields[k].typ.fields, q) ==> q in qs
    requires LeafAt(fields, p) && p[0] == k
    ensures p in Prefixed(k, qs)
  {
    LeafInside(fields, p);
    var j :| 0 <= j < |qs| && qs[j] == p[1..];
    assert Prefixed(k, qs)[j] == p;
  }

  lemma ExplainWalked(lower: char -> char, fields: seq<Field>, envPrefix: string, pathPrefix: string, index: seq<nat>,
                      k: nat, items: seq<Item>, qs: seq<seq<nat>>)
    requires k < |fields| && Visible(fields[k]) && Walked(fields[k])
    requires var pre := NestedWalk(fields[k], envPrefix, pathPrefix).value;
             Explained(lower, fields[k].typ.fields, pre.0, pre.1, index + [k], 0, |fields[k].typ.fields|, items, qs)
    ensures Explained(lower, fields, envPrefix, pathPrefix, index, k, k + 1, items, Prefixed(k, qs))
  {
    hide Expected, Before, At, TaggedLeaf, NestedWalk;
    var ps := Prefixed(k, qs);
    forall j | 0 <= j < |qs|
      ensures LeafAt(fields, ps[j]) && items[j] == Expected(lower, fields, envPrefix, pathPrefix, index, ps[j])
    {
      StepInto(lower, fields, envPrefix, pathPrefix, index, k, qs[j]);
    }
    forall i, j | 0 <= i < j < |ps|
      ensures Before(ps[i], ps[j])
    {
      BeforeUnder(k, qs[i], qs[j]);
    }
    forall p | LeafAt(fields, p) && p[0] == k
      ensures p in ps
    {
      PrefixedCovers(fields, k, qs, p);
    }
  }

  lemma {:induction false} ExplainField(lower: char -> char, fields: seq<Field>, envPrefix: string, pathPrefix: string,
                                        index: seq<nat>, k: nat)
    returns (ps: seq<seq<nat>>)
    requires k < |fields|
    ensures Explained(lower, fields, envPrefix, pathPrefix, index, k, k + 1,
                      FieldItems(lower, fields[k], envPrefix, pathPrefix, index + [k]), ps)
    decreases fields, 0
  {
    hide Expected, ItemFor, Before;
    ps := [];
    var f := fields[k];
    if Visible(f) && Walked(f) {
      var pre := NestedWalk(f, envPrefix, pathPrefix).value;
      var qs := ExplainFields(lower, f.typ.fields, pre.0, pre.1, index + [k], |f.typ.fields|);
      ps := Prefixed(k, qs);
      ExplainWalked(lower, fields, envPrefix, pathPrefix, index, k,
                    FieldItems(lower, f, envPrefix, pathPrefix, index + [k]), qs);
    } else if Visible(f) && TaggedLeaf(f) {
      LeafExpected(lower, fields, envPrefix, pathPrefix, index, k);
      ps := [[k]];
      forall p | LeafAt(fields, p) && p[0] == k
        ensures p in ps
      {
        assert p == [k];
      }
    }
  }

  lemma {:induction false} ExplainFields(lower: char -> char, fields: seq<Field>, envPrefix: string, pathPrefix: string,
                                         index: seq<nat>, k: nat)
    returns (ps: seq<seq<nat>>)
    requires k <= |fields|
    ensures Explained(lower, fields, envPrefix, pathPrefix, index, 0, k,
                      Items(lower, fields, envPrefix, pathPrefix, index, k), ps)
    decreases fields, k + 1
  {
    if k == 0 {
      return [];
    }
    var a := ExplainFields(lower, fields, envPrefix, pathPrefix, index, k - 1);
    var b := ExplainField(lower, fields, envPrefix, pathPrefix, index, k - 1);
    ExplainConcat(lower, fields, envPrefix, pathPrefix, index, k - 1,
                  Items(lower, fields, envPrefix, pathPrefix, index, k - 1), a,
                  FieldItems(lower, fields[k - 1], envPrefix, pathPrefix, index + [k - 1]), b);
    return a + b;
  }

  // ---------------------------------------------------------------------------
  // What the walk means
  // ---------------------------------------------------------------------------

  /**
    The walk is a partition of the tagged leaves: with their index paths in field order, it
    yields one item for each and nothing else, a binding if the type is supported and an
    unsupported-type error if not, each with the keys the field's place in the type gives it.
  */
  lemma WalkIsPartition(lower: char -> char, fields: seq<Field>) returns (ps: seq<seq<nat>>)
    ensures var items := Found(lower, fields);
      && |ps| == |items|
      && (forall p :: LeafAt(fields, p) <==> p in ps)
      && (forall i, j :: 0 <= i < j < |ps| ==> Before(ps[i], ps[j]))
      && (forall j :: 0 <= j < |ps| ==>
            && LeafAt(fields, ps[j])
            && IndexOf(items[j]) == ps[j]
            && items[j].Bound? == Supported(At(fields, ps[j]).typ)
            && items[j] == Expected(lower, fields, "", "", [], ps[j]))
  {
    hide Expected, Before, FieldItems;
    ps := ExplainFields(lower, fields, "", "", [], |fields|);
    forall j | 0 <= j < |ps|
      ensures LeafAt(fields, ps[j])
      ensures IndexOf(Found(lower, fields)[j]) == ps[j]
      ensures Found(lower, fields)[j].Bound? == Supported(At(fields, ps[j]).typ)
    {
      ExpectedShape(lower, fields, ps[j]);
    }
  }

  lemma ExpectedShape(lower: char -> char, fields: seq<Field>, p: seq<nat>)
    requires LeafAt(fields, p)
    ensures var it := Expected(lower, fields, "", "", [], p);
      && IndexOf(it) == p
      && it.Bound? == Supported(At(fields, p).typ)
  {
    assert [] + p == p;
  }

  /** No index path of a leaf continues another: setting one field never touches a second one. */
  lemma {:induction false} LeavesAreApart(fields: seq<Field>, p: seq<nat>, q: seq<nat>)
    requires LeafAt(fields, p) && LeafAt(fields, q) && p <= q
    ensures p == q
    decreases |p|
  {
    if |p| > 1 {
      LeavesAreApart(fields[p[0]].typ.fields, p[1..], q[1..]);
      assert p == [p[0]] + p[1..] && q == [q[0]] + q[1..];
    } else {
      assert p == [q[0]];
    }
  }

  lemma {:induction false} BeforeIsStrict(p: seq<nat>)
    ensures !Before(p, p)
    decreases |p|
  {
    if p != [] {
      BeforeIsStrict(p[1..]);
    }
  }

  predicate Named(f: Field)
    decreases f
  {
    f.name != "" && (f.typ.Struct? ==> AllNamed(f.typ.fields))
  }

  /** Struct fields have names. */
  predicate AllNamed(fields: seq<Field>)
    decreases fields
  {
    forall i :: 0 <= i < |fields| ==> Named(fields[i])
  }

  lemma {:induction false} NamesAreNamed(fields: seq<Field>, p: seq<nat>)
    requires AllNamed(fields) && Reaches(fields, p)
    ensures NamesAt(fields, p) != [] && forall i :: 0 <= i < |NamesAt(fields, p)| ==> NamesAt(fields, p)[i] != ""
    decreases |p|
  {
    assert Named(fields[p[0]]);
    if |p| > 1 {
      NamesAreNamed(fields[p[0]].typ.fields, p[1..]);
    }
  }

  lemma {:induction false} UnderIsJoin(prefix: string, names: seq<string>)
    requires prefix != ""
    ensures Under(prefix, names) == Join([prefix] + names, ".")
    decreases |names|
  {
    if names != [] {
      var next := prefix + "." + names[0];
      UnderIsJoin(next, names[1..]);
      assert ([prefix] + names)[1..] == names && names == [names[0]] + names[1..];
      if |names| > 1 {
        assert ([next] + names[1..])[1..] == names[1..];
      }
    }
  }

  /**
    Every binding is addressed by the dotted names on its way, in lower case for the file,
    and by the tag prefixes on its way for the environment.
  */
  lemma KeysOfBinding(lower: char -> char, fields: seq<Field>, j: nat)
    requires AllNamed(fields) && j < |Found(lower, fields)| && Found(lower, fields)[j].Bound?
    ensures var spec := Found(lower, fields)[j].spec;
      && LeafAt(fields, spec.index)
      && spec.typ == At(fields, spec.index).typ && Supported(spec.typ)
      && spec.settable == At(fields, spec.index).exported
      && spec.path == Join(NamesAt(fields, spec.index), ".")
      && spec.fileKey == ToLower(lower, spec.path)
      && spec.envKey == EnvAt(fields, spec.index)
      && spec.def == At(fields, spec.index).def
  {
    hide HasOption, Cut, TagName, Found;
    var ps := WalkIsPartition(lower, fields);
    NamesAreNamed(fields, ps[j]);
    var names := NamesAt(fields, ps[j]);
    UnderIsJoin(names[0], names[1..]);
    assert [names[0]] + names[1..] == names;
  }

  /** What a tag says: its name is the part before the first comma, and any later part may say `required`. */
  predicate SaysRequired(tag: string) {
    var parts := Split(tag, ',');
    exists k :: 0 < k < |parts| && Trim(IsSpace, parts[k]) == "required"
  }

  lemma TagIsRead(f: Field)
    requires f.env != None
    ensures TagName(f) == Split(f.env.value, ',')[0]
    ensures HasOption(Cut(f.env.value, ',').1, "required") <==> SaysRequired(f.env.value)
  {
    hide Trim;
    var tag := f.env.value;
    var parts, opts := Split(tag, ','), Cut(tag, ',').1;
    CutIsSplit(tag, ',');
    if |parts| == 1 {
      assert Split(opts, ',') == [""];
      TrimOfEmpty();
    } else {
      var rest := Split(opts, ',');
      assert rest == parts[1..];
      assert forall k :: 0 <= k < |rest| ==> rest[k] == parts[k + 1];
      assert forall k :: 0 < k < |parts| ==> parts[k] == rest[k - 1];
    }
  }

  lemma TrimOfEmpty()
    ensures Trim(IsSpace, "") == ""
  {
  }

  /** A binding is required exactly when its tag says so after the name. */
  lemma RequiredExactlyWhenSaid(lower: char -> char, fields: seq<Field>, j: nat)
    requires j < |Found(lower, fields)| && Found(lower, fields)[j].Bound?
    ensures var spec := Found(lower, fields)[j].spec;
      && LeafAt(fields, spec.index)
      && (spec.required <==> SaysRequired(At(fields, spec.index).env.value))
  {
    hide Found, HasOption, Cut, SaysRequired;
    var ps := WalkIsPartition(lower, fields);
    TagIsRead(At(fields, ps[j]));
  }

  /** No struct on the way to p has a tag of its own. */
  predicate UntaggedWay(fields: seq<Field>, p: seq<nat>)
    requires Reaches(fields, p)
    decreases |p|
  {
    |p| > 1 ==> fields[p[0]].env == None && UntaggedWay(fields[p[0]].typ.fields, p[1..])
  }

  lemma {:induction false} EnvAtIsEmptyExactly(fields: seq<Field>, p: seq<nat>)
    requires Reaches(fields, p)
    ensures EnvAt(fields, p) == "" <==> TagName(At(fields, p)) == "" && UntaggedWay(fields, p)
    decreases |p|
  {
    if |p| > 1 {
      EnvAtIsEmptyExactly(fields[p[0]].typ.fields, p[1..]);
    }
  }

  /**
    A binding's environment key is empty exactly when its own tag has an empty name and no
    struct on its way is tagged.
  */
  lemma EnvKeyIsEmptyExactly(lower: char -> char, fields: seq<Field>, j: nat)
    requires j < |Found(lower, fields)| && Found(lower, fields)[j].Bound?
    ensures var spec := Found(lower, fields)[j].spec;
      && LeafAt(fields, spec.index)
      && (spec.envKey == "" <==> TagName(At(fields, spec.index)) == "" && UntaggedWay(fields, spec.index))
  {
    hide Found, TagName;
    var ps := WalkIsPartition(lower, fields);
    EnvAtIsEmptyExactly(fields, ps[j]);
  }

  /** One exported string field with the tag `env:",required"` is bound under the empty key. */
  lemma EmptyEnvKeyWitness(lower: char -> char)
    ensures var fields := [Field("Port", true, false, Some(",required"), None, Str)];
      && Found(lower, fields) == [ItemFor(lower, fields[0], "Port", "", [0])]
      && Found(lower, fields)[0].Bound? && Found(lower, fields)[0].spec.envKey == ""
  {
    hide HasOption;
    var fields := [Field("Port", true, false, Some(",required"), None, Str)];
    assert [] + [0] == [0];
    assert Cut(",required", ',') == ("", "required");
    assert "" + TagName(fields[0]) == "" && JoinPath("", "Port") == "Port";
    assert Items(lower, fields, "", "", [], 0) == [];
    assert FieldItems(lower, fields[0], "", "", [0]) == [ItemFor(lower, fields[0], "Port", "", [0])];
    assert Found(lower, fields) == [] + [ItemFor(lower, fields[0], "Port", "", [0])];
  }

  /** Distinct bindings have distinct index paths. */
  lemma BindingsAreApart(lower: char -> char, fields: seq<Field>, i: nat, j: nat)
    requires i < j < |Found(lower, fields)|
    ensures !(IndexOf(Found(lower, fields)[i]) <= IndexOf(Found(lower, fields)[j]))
    ensures !(IndexOf(Found(lower, fields)[j]) <= IndexOf(Found(lower, fields)[i]))
  {
    var ps := WalkIsPartition(lower, fields);
    BeforeIsStrict(ps[i]);
    if ps[i] <= ps[j] {
      LeavesAreApart(fields, ps[i], ps[j]);
    }
    if ps[j] <= ps[i] {
      LeavesAreApart(fields, ps[j], ps[i]);
    }
  }

  /** An untagged embedded field without fields of its own. */
  predicate PanicsAt(fields: seq<Field>, p: seq<nat>) {
    Reaches(fields, p)
    && var f := At(fields, p); f.anonymous && f.env == None && !f.typ.Struct? && !f.typ.Time?
  }

  lemma {:induction false} PanicStopsWalk(fields: seq<Field>, p: seq<nat>)
    requires PanicsAt(fields, p)
    ensures !AllWalk(fields)
    decreases |p|
  {
    var f := fields[p[0]];
    if |p| > 1 {
      PanicStopsWalk(f.typ.fields, p[1..]);
      assert NestedWalk(f, "", "") != None;
    }
    assert !Walks(f);
  }

  lemma {:induction false} PanicIsReached(fields: seq<Field>) returns (p: seq<nat>)
    requires !AllWalk(fields)
    ensures PanicsAt(fields, p)
    decreases fields
  {
    var i :| 0 <= i < |fields| && !Walks(fields[i]);
    if Walked(fields[i]) {
      p := PanicIsReached(fields[i].typ.fields);
      assert ([i] + p)[1..] == p;
      p := [i] + p;
    } else {
      p := [i];
    }
  }

  /** The walk panics exactly when it reaches an untagged embedded field that has no fields of its own. */
  lemma WalkPanicsExactly(fields: seq<Field>)
    ensures !AllWalk(fields) <==> exists p :: PanicsAt(fields, p)
  {
    if !AllWalk(fields) {
      var p := PanicIsReached(fields);
    }
    forall p | PanicsAt(fields, p)
      ensures !AllWalk(fields)
    {
      PanicStopsWalk(fields, p);
    }
  }

  /** The types a tag can bind; all others are refused. */
  lemma SupportedExactly(t: Type)
    ensures Supported(t) <==> t.Str? || t.Bool? || t.Int? || t.Uint? || t.Float? || t.Duration? || t.StrList?
  {
  }

  /** A refusal names the field's dotted path and the bare name in its tag. */
  lemma RefusalExactly(lower: char -> char, fields: seq<Field>, j: nat)
    requires AllNamed(fields) && j < |Found(lower, fields)| && Found(lower, fields)[j].Refused?
    ensures var it := Found(lower, fields)[j];
      && LeafAt(fields, it.index) && !Supported(At(fields, it.index).typ)
      && it.err == FieldError(Join(NamesAt(fields, it.index), "."), Split(At(fields, it.index).env.value, ',')[0], UnsupportedType, None)
  {
    hide HasOption, Cut, TagName, Found, Supported;
    var ps := WalkIsPartition(lower, fields);
    NamesAreNamed(fields, ps[j]);
    var names := NamesAt(fields, ps[j]);
    UnderIsJoin(names[0], names[1..]);
    assert [names[0]] + names[1..] == names;
    TagIsRead(At(fields, ps[j]));
  }
}
