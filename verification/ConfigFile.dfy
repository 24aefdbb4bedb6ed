/**
  A decoded configuration file to flat keys and raw strings, as config/file.go does it.
*/
module ConfigFile {
  import opened Options
  import opened ConfigTypes
  import opened ConfigFields
  import opened ConfigParse
  import opened Text
  import opened Sorting
  import opened Permutations

  // A decoded value. A real number is known by its shortest decimal form.
  datatype Node =
    | Word(s: string) | Flag(b: bool) | Number(n: int) | Real(decimal: string)
    | List(items: seq<Node>) | Null | Exotic | Tree(kids: map<string, Node>)

  datatype Rendering<T> = Raw(value: T) | Refusal(code: string)

  const NULL_VALUE := "config.null_file_value"
  const VALUE_TYPE := "config.file_value_type"

  /** The raw strings of the first k items, or why there are none. */
  function RenderItems(items: seq<Node>, k: nat): Rendering<seq<string>>
    requires k <= |items|
    decreases items, k
  {
    if k == 0 then Raw([])
    else match RenderItems(items, k - 1)
      case Refusal(code) => Refusal(code)
      case Raw(parts) => match Render(items[k - 1])
        case Refusal(code) => Refusal(code)
        case Raw(s) => Raw(parts + [s])
  }

  function Render(v: Node): Rendering<string>
    decreases v
  {
    match v
    case Word(s) => Raw(s)
    case Flag(b) => Raw(FormatBool(b))
    case Number(n) => Raw(FormatInt(n))
    case Real(d) => Raw(d)
    case List(items) =>
      (match RenderItems(items, |items|)
       case Refusal(code) => Refusal(code)
       case Raw(parts) => Raw(Join(parts, ",")))
    case Null => Refusal(NULL_VALUE)
    case Exotic => Refusal(VALUE_TYPE)
    case Tree(_) => Refusal(VALUE_TYPE)
  }

  method ValueToString(v: Node) returns (r: Rendering<string>)
    ensures r == Render(v)
    decreases v
  {
    match v {
      case Word(s) => return Raw(s);
      case Flag(b) => return Raw(FormatBool(b));
      case Number(n) => return Raw(FormatInt(n));
      case Real(d) => return Raw(d);
      case Null => return Refusal(NULL_VALUE);
      case Exotic => return Refusal(VALUE_TYPE);
      case Tree(_) => return Refusal(VALUE_TYPE);
      case List(items) =>
        var parts := [];
        for i := 0 to |items|
          invariant RenderItems(items, i) == Raw(parts)
        {
          var rendered := ValueToString(items[i]);
          if rendered.Refusal? {
            RefusalSpreads(items, i + 1);
            return Refusal(rendered.code);
          }
          parts := parts + [rendered.value];
        }
        return Raw(Join(parts, ","));
    }
  }

  lemma {:induction false} RefusalSpreads(items: seq<Node>, k: nat)
    requires k <= |items| && RenderItems(items, k).Refusal?
    ensures RenderItems(items, |items|) == RenderItems(items, k)
    decreases |items| - k
  {
    if k < |items| {
      RefusalSpreads(items, k + 1);
    }
  }

  /** Nothing below is null, exotic or a tree. */
  predicate Plain(v: Node)
    decreases v
  {
    match v
    case Null => false
    case Exotic => false
    case Tree(_) => false
    case List(items) => forall i :: 0 <= i < |items| ==> Plain(items[i])
    case _ => true
  }

  lemma {:induction false} ItemsRendered(items: seq<Node>, k: nat)
    requires k <= |items|
    ensures RenderItems(items, k).Raw? <==> forall i :: 0 <= i < k ==> Render(items[i]).Raw?
    ensures var r := RenderItems(items, k);
      r.Raw? ==> |r.value| == k && forall i :: 0 <= i < k ==> Render(items[i]) == Raw(r.value[i])
  {
    if k > 0 {
      ItemsRendered(items, k - 1);
    }
  }

  /** A file value has a raw string exactly when it is plain all the way down. */
  lemma {:induction false} RenderedExactlyWhenPlain(v: Node)
    ensures Render(v).Raw? <==> Plain(v)
    decreases v
  {
    if v.List? {
      ItemsRendered(v.items, |v.items|);
      forall i | 0 <= i < |v.items|
        ensures Render(v.items[i]).Raw? <==> Plain(v.items[i])
      {
        RenderedExactlyWhenPlain(v.items[i]);
      }
    }
  }

  /** The raw strings of the items of a plain list. */
  function ItemStrings(v: Node): seq<string>
    requires v.List? && RenderItems(v.items, |v.items|).Raw?
  {
    RenderItems(v.items, |v.items|).value
  }

  /** Text arrives as it is, and a real number as its decimal form is read. */
  lemma TextRoundTrip(ps: Parsers, v: Node, bits: nat)
    ensures v.Word? ==> Render(v).Raw? && Parse(ps, Str, Render(v).value) == Some(VStr(v.s))
    ensures v.Real? ==> Render(v).Raw?
    ensures v.Real? && ps.float(v.decimal, bits) == None ==> Parse(ps, Float(bits), Render(v).value) == None
    ensures v.Real? && ps.float(v.decimal, bits) != None ==>
              Parse(ps, Float(bits), Render(v).value) == Some(VFloat(ps.float(v.decimal, bits).value))
  {
  }

  /**
    From the file to a field: an integer arrives exactly when it fits the field, and a list
    arrives element by element, each one trimmed, exactly when it is not empty and no
    element's raw string holds a comma.
  */
  lemma FileRoundTrip(ps: Parsers, v: Node, bits: nat)
    requires Render(v).Raw?
    ensures v.Number? ==> Parse(ps, Int(bits), Render(v).value) == if FitsInt(v.n, bits) then Some(VInt(v.n)) else None
    ensures v.Number? ==> Parse(ps, Uint(bits), Render(v).value) == if FitsUint(v.n, bits) then Some(VUint(v.n)) else None
    ensures v.Flag? ==> Parse(ps, Bool, Render(v).value) == Some(VBool(v.b))
    ensures v.List? ==>
      (Parse(ps, StrList(false), Render(v).value) == Some(VList(TrimAll(ItemStrings(v))))
       <==> v.items != [] && CommaFree(ItemStrings(v)))
  {
    hide FormatInt, ParseInt, ParseUint, CommaFree, FitsInt, FitsUint, TrimAll;
    match v {
      case Number(n) => IntRoundTrip(n, bits);
      case List(items) =>
        ItemsRendered(items, |items|);
        ListRoundTripExactly(ItemStrings(v));
      case _ =>
    }
  }

  // ---------------------------------------------------------------------------
  // Flattening
  // ---------------------------------------------------------------------------

  predicate IsLeaf(t: Node, p: seq<string>)
    decreases |p|
  {
    if p == [] then !t.Tree? else t.Tree? && p[0] in t.kids && IsLeaf(t.kids[p[0]], p[1..])
  }

  function NodeAt(t: Node, p: seq<string>): Node
    requires IsLeaf(t, p)
    decreases |p|
  {
    if p == [] then t else NodeAt(t.kids[p[0]], p[1..])
  }

  /** The flat key of a path: its names in lower case, joined with dots. */
  function FlatKey(lower: char -> char, prefix: string, p: seq<string>): string
    decreases |p|
  {
    if p == [] then prefix else FlatKey(lower, JoinPath(prefix, ToLower(lower, p[0])), p[1..])
  }

  function LowerAll(lower: char -> char, names: seq<string>): (r: seq<string>)
    ensures |r| == |names| && forall i :: 0 <= i < |names| ==> r[i] == ToLower(lower, names[i])
  {
    seq(|names|, i requires 0 <= i < |names| => ToLower(lower, names[i]))
  }

  lemma {:induction false} FlatKeyIsUnder(lower: char -> char, prefix: string, p: seq<string>)
    ensures FlatKey(lower, prefix, p) == Under(prefix, LowerAll(lower, p))
    decreases |p|
  {
    if p != [] {
      FlatKeyIsUnder(lower, JoinPath(prefix, ToLower(lower, p[0])), p[1..]);
      assert LowerAll(lower, p)[1..] == LowerAll(lower, p[1..]);
    }
  }

  /** A leaf below a named key has for its key the lower-case names on its way, joined with dots. */
  lemma FlatKeyIsJoin(lower: char -> char, p: seq<string>)
    requires p != [] && p[0] != ""
    ensures FlatKey(lower, "", p) == Join(LowerAll(lower, p), ".")
  {
    FlatKeyIsUnder(lower, "", p);
    var names := LowerAll(lower, p);
    UnderIsJoin(names[0], names[1..]);
    assert [names[0]] + names[1..] == names;
  }

  const FILE_TOKEN := "(file)"

  function FileError(key: string, code: string): FieldError {
    FieldError(FILE_TOKEN, key, FileDecode, Some(Foreign(code)))
  }

  /** A leaf with a raw string, and a leaf without one. */
  predicate Good(t: Node, p: seq<string>) {
    IsLeaf(t, p) && Render(NodeAt(t, p)).Raw?
  }

  predicate Bad(t: Node, p: seq<string>) {
    IsLeaf(t, p) && Render(NodeAt(t, p)).Refusal?
  }

  function ErrorAt(lower: char -> char, t: Node, prefix: string, p: seq<string>): FieldError {
    FileError(FlatKey(lower, prefix, p), if Bad(t, p) then Render(NodeAt(t, p)).code else "")
  }

  // Who wrote each key, and which leaf each error is about.
  datatype Origin = Origin(who: map<string, seq<string>>, from: seq<seq<string>>)

  /** Every entry is some good leaf's, under its key, and every good leaf's key has an entry. */
  ghost predicate EntriesFrom(lower: char -> char, t: Node, prefix: string, done: set<string>,
                              out: map<string, string>, who: map<string, seq<string>>)
  {
    && out.Keys == who.Keys
    && (forall k :: k in who ==>
          var p := who[k];
          p != [] && p[0] in done && Good(t, p) && FlatKey(lower, prefix, p) == k && Render(NodeAt(t, p)).value == out[k])
    && (forall p :: p != [] && p[0] in done && Good(t, p) ==> FlatKey(lower, prefix, p) in out)
  }

  /** One error for each bad leaf. */
  ghost predicate ErrorsFrom(lower: char -> char, t: Node, prefix: string, done: set<string>,
                             errs: seq<FieldError>, from: seq<seq<string>>)
  {
    && |errs| == |from|
    && NoRepeats(from)
    && (forall i :: 0 <= i < |from| ==>
          from[i] != [] && from[i][0] in done && Bad(t, from[i]) && errs[i] == ErrorAt(lower, t, prefix, from[i]))
    && (forall p :: p != [] && p[0] in done && Bad(t, p) ==> p in from)
  }

  lemma MergeEntries(lower: char -> char, t: Node, prefix: string, done: set<string>, more: set<string>,
                     out: map<string, string>, who: map<string, seq<string>>,
                     out': map<string, string>, who': map<string, seq<string>>)
    requires EntriesFrom(lower, t, prefix, done, out, who)
    requires EntriesFrom(lower, t, prefix, more, out', who')
    ensures EntriesFrom(lower, t, prefix, done + more, out + out', who + who')
  {
    hide Good, FlatKey;
  }

  lemma MergeErrors(lower: char -> char, t: Node, prefix: string, done: set<string>, more: set<string>,
                    errs: seq<FieldError>, from: seq<seq<string>>, errs': seq<FieldError>, from': seq<seq<string>>)
    requires done !! more
    requires ErrorsFrom(lower, t, prefix, done, errs, from)
    requires ErrorsFrom(lower, t, prefix, more, errs', from')
    ensures ErrorsFrom(lower, t, prefix, done + more, errs + errs', from + from')
  {
    hide Bad, ErrorAt;
    forall i, j | 0 <= i < |from| && 0 <= j < |from'|
      ensures from[i] != from'[j]
    {
      assert from[i][0] in done && from'[j][0] in more;
    }
  }

  lemma Below(lower: char -> char, t: Node, prefix: string, key: string, p: seq<string>)
    requires t.Tree? && key in t.kids
    ensures var kid, full, q := t.kids[key], JoinPath(prefix, ToLower(lower, key)), [key] + p;
      && (Good(kid, p) <==> Good(t, q))
      && (Bad(kid, p) <==> Bad(t, q))
      && FlatKey(lower, full, p) == FlatKey(lower, prefix, q)
      && ErrorAt(lower, kid, full, p) == ErrorAt(lower, t, prefix, q)
      && (IsLeaf(kid, p) ==> NodeAt(kid, p) == NodeAt(t, q))
  {
    hide Render, JoinPath, ToLower;
    assert ([key] + p)[1..] == p;
  }

  function Lifted(key: string, who: map<string, seq<string>>): (r: map<string, seq<string>>)
    ensures r.Keys == who.Keys && forall k :: k in who ==> r[k] == [key] + who[k]
  {
    map k | k in who :: [key] + who[k]
  }

  function LiftedPaths(key: string, from: seq<seq<string>>): (r: seq<seq<string>>)
    ensures |r| == |from| && forall i :: 0 <= i < |from| ==> r[i] == [key] + from[i]
  {
    seq(|from|, i requires 0 <= i < |from| => [key] + from[i])
  }

  /** The entries and errors of a whole subtree, or of one leaf, seen from the tree that holds it. */
  ghost predicate WholeEntries(lower: char -> char, t: Node, prefix: string, out: map<string, string>,
                               who: map<string, seq<string>>)
  {
    && out.Keys == who.Keys
    && (forall k :: k in who ==>
          var p := who[k]; Good(t, p) && FlatKey(lower, prefix, p) == k && Render(NodeAt(t, p)).value == out[k])
    && (forall p :: Good(t, p) ==> FlatKey(lower, prefix, p) in out)
  }

  ghost predicate WholeErrors(lower: char -> char, t: Node, prefix: string, errs: seq<FieldError>, from: seq<seq<string>>) {
    && |errs| == |from|
    && NoRepeats(from)
    && (forall i :: 0 <= i < |from| ==> Bad(t, from[i]) && errs[i] == ErrorAt(lower, t, prefix, from[i]))
    && (forall p :: Bad(t, p) ==> p in from)
  }

  lemma LiftEntries(lower: char -> char, t: Node, prefix: string, key: string, out: map<string, string>,
                    who: map<string, seq<string>>)
    requires t.Tree? && key in t.kids
    requires WholeEntries(lower, t.kids[key], JoinPath(prefix, ToLower(lower, key)), out, who)
    ensures EntriesFrom(lower, t, prefix, {key}, out, Lifted(key, who))
  {
    var kid, full, lifted := t.kids[key], JoinPath(prefix, ToLower(lower, key)), Lifted(key, who);
    hide FlatKey, JoinPath, ToLower, IsLeaf, NodeAt, Render;
    forall k | k in who
      ensures var p := lifted[k];
        Good(t, p) && FlatKey(lower, prefix, p) == k && Render(NodeAt(t, p)).value == out[k]
    {
      Below(lower, t, prefix, key, who[k]);
    }
    forall p | p != [] && p[0] in {key} && Good(t, p)
      ensures FlatKey(lower, prefix, p) in out
    {
      assert p == [key] + p[1..];
      Below(lower, t, prefix, key, p[1..]);
    }
  }

  lemma LiftedApart(key: string, from: seq<seq<string>>)
    requires NoRepeats(from)
    ensures NoRepeats(LiftedPaths(key, from))
  {
    var lifted := LiftedPaths(key, from);
    forall i, j | 0 <= i < j < |lifted|
      ensures lifted[i] != lifted[j]
    {
      assert lifted[i][1..] == from[i] && lifted[j][1..] == from[j];
    }
  }

  lemma LiftedHas(key: string, from: seq<seq<string>>, p: seq<string>)
    requires p != [] && p[0] == key && p[1..] in from
    ensures p in LiftedPaths(key, from)
  {
    var i :| 0 <= i < |from| && from[i] == p[1..];
    assert LiftedPaths(key, from)[i] == p;
  }

  lemma LiftErrors(lower: char -> char, t: Node, prefix: string, key: string, errs: seq<FieldError>, from: seq<seq<string>>)
    requires t.Tree? && key in t.kids
    requires WholeErrors(lower, t.kids[key], JoinPath(prefix, ToLower(lower, key)), errs, from)
    ensures ErrorsFrom(lower, t, prefix, {key}, errs, LiftedPaths(key, from))
  {
    hide ErrorAt, Bad, JoinPath, ToLower, NoRepeats;
    var lifted := LiftedPaths(key, from);
    forall i | 0 <= i < |from|
      ensures Bad(t, lifted[i]) && errs[i] == ErrorAt(lower, t, prefix, lifted[i])
    {
      Below(lower, t, prefix, key, from[i]);
    }
    LiftedApart(key, from);
    forall p | p != [] && p[0] in {key} && Bad(t, p)
      ensures p in lifted
    {
      assert p == [key] + p[1..];
      Below(lower, t, prefix, key, p[1..]);
      LiftedHas(key, from, p);
    }
  }

  /** The whole tree is what all its keys give. */
  lemma AllKeysDone(lower: char -> char, t: Node, prefix: string, out: map<string, string>, who: map<string, seq<string>>,
                    errs: seq<FieldError>, from: seq<seq<string>>)
    requires t.Tree?
    requires EntriesFrom(lower, t, prefix, t.kids.Keys, out, who)
    requires ErrorsFrom(lower, t, prefix, t.kids.Keys, errs, from)
    ensures WholeEntries(lower, t, prefix, out, who)
    ensures WholeErrors(lower, t, prefix, errs, from)
  {
    hide FlatKey, NodeAt, Render;
  }

  /** The only leaf of a value that is not a tree is the value itself. */
  lemma OneLeaf(lower: char -> char, v: Node, key: string)
    requires !v.Tree?
    ensures Render(v).Raw? ==>
              WholeEntries(lower, v, key, map[key := Render(v).value], map[key := []]) && WholeErrors(lower, v, key, [], [])
    ensures Render(v).Refusal? ==>
              WholeEntries(lower, v, key, map[], map[]) && WholeErrors(lower, v, key, [FileError(key, Render(v).code)], [[]])
  {
    hide Render;
    assert forall p :: IsLeaf(v, p) <==> p == [];
    assert FlatKey(lower, key, []) == key;
  }

  /** What one more key adds to the entries and errors of the keys already done. */
  lemma AddKey(lower: char -> char, t: Node, prefix: string, done: set<string>, key: string,
               out: map<string, string>, errs: seq<FieldError>, o: Origin,
               out': map<string, string>, errs': seq<FieldError>, o': Origin)
    requires t.Tree? && key in t.kids && key !in done
    requires EntriesFrom(lower, t, prefix, done, out, o.who) && ErrorsFrom(lower, t, prefix, done, errs, o.from)
    requires WholeEntries(lower, t.kids[key], JoinPath(prefix, ToLower(lower, key)), out', o'.who)
    requires WholeErrors(lower, t.kids[key], JoinPath(prefix, ToLower(lower, key)), errs', o'.from)
    ensures EntriesFrom(lower, t, prefix, done + {key}, out + out', o.who + Lifted(key, o'.who))
    ensures ErrorsFrom(lower, t, prefix, done + {key}, errs + errs', o.from + LiftedPaths(key, o'.from))
  {
    hide EntriesFrom, ErrorsFrom, WholeEntries, WholeErrors, JoinPath, ToLower;
    LiftEntries(lower, t, prefix, key, out', o'.who);
    LiftErrors(lower, t, prefix, key, errs', o'.from);
    MergeEntries(lower, t, prefix, done, {key}, out, o.who, out', Lifted(key, o'.who));
    MergeErrors(lower, t, prefix, done, {key}, errs, o.from, errs', LiftedPaths(key, o'.from));
  }

  /** What flattening may return: which of several leaves under one key wins is left open. */
  ghost predicate FlattenedTo(lower: char -> char, t: Node, prefix: string, out: map<string, string>, errs: seq<FieldError>) {
    exists o: Origin :: WholeEntries(lower, t, prefix, out, o.who) && WholeErrors(lower, t, prefix, errs, o.from)
  }

  /** Walks the decoded tree in whatever order its maps are walked. */
  method Flatten(lower: char -> char, raw: Node, prefix: string) returns (out: map<string, string>, errs: seq<FieldError>)
    requires raw.Tree?
    ensures FlattenedTo(lower, raw, prefix, out, errs)
    decreases raw
  {
    hide WholeEntries, WholeErrors, FlatKey, Render, Good, Bad, JoinPath, ToLower, FileError;
    out, errs := map[], [];
    ghost var origin := Origin(map[], []);
    var left := raw.kids.Keys;
    while left != {}
      invariant left <= raw.kids.Keys
      invariant EntriesFrom(lower, raw, prefix, raw.kids.Keys - left, out, origin.who)
      invariant ErrorsFrom(lower, raw, prefix, raw.kids.Keys - left, errs, origin.from)
      decreases left
    {
      hide EntriesFrom, ErrorsFrom;
      var key :| key in left;
      var val := raw.kids[key];
      ghost var done := raw.kids.Keys - left;
      left := left - {key};
      var full := JoinPath(prefix, ToLower(lower, key));
      ghost var out0, errs0 := out, errs;
      ghost var out1: map<string, string>, errs1: seq<FieldError>, inner := map[], [], Origin(map[], []);
      if val.Tree? {
        var nested, nestedErrs := Flatten(lower, val, full);
        ghost var nestedOrigin: Origin :|
          WholeEntries(lower, val, full, nested, nestedOrigin.who) && WholeErrors(lower, val, full, nestedErrs, nestedOrigin.from);
        errs := errs + nestedErrs;
        out := out + nested;
        out1, errs1, inner := nested, nestedErrs, nestedOrigin;
        assert out == out0 + out1;
      } else {
        var rendered := ValueToString(val);
        OneLeaf(lower, val, full);
        if rendered.Refusal? {
          errs := errs + [FileError(full, rendered.code)];
          errs1, inner := [FileError(full, rendered.code)], Origin(map[], [[]]);
          assert out == out0 + out1;
        } else {
          out := out[full := rendered.value];
          out1, inner := map[full := rendered.value], Origin(map[full := []], []);
          assert out == out0 + out1 && errs == errs0 + errs1;
        }
      }
      AddKey(lower, raw, prefix, done, key, out0, errs0, origin, out1, errs1, inner);
      assert raw.kids.Keys - left == done + {key};
      origin := Origin(origin.who + Lifted(key, inner.who), origin.from + LiftedPaths(key, inner.from));
    }
    assert raw.kids.Keys - left == raw.kids.Keys;
    AllKeysDone(lower, raw, prefix, out, origin.who, errs, origin.from);
  }

  /** No two leaves meet under one key once names are in lower case. */
  ghost predicate CollisionFree(lower: char -> char, t: Node) {
    forall p, q :: Good(t, p) && Good(t, q) && FlatKey(lower, "", p) == FlatKey(lower, "", q) ==> p == q
  }

  /** Without collisions every leaf with a raw string keeps its own entry, and there are no other entries. */
  lemma OneEntryPerLeaf(lower: char -> char, t: Node, out: map<string, string>, errs: seq<FieldError>)
    requires FlattenedTo(lower, t, "", out, errs) && CollisionFree(lower, t)
    ensures forall p :: Good(t, p) ==> FlatKey(lower, "", p) in out && out[FlatKey(lower, "", p)] == Render(NodeAt(t, p)).value
    ensures forall k :: k in out ==> exists p :: Good(t, p) && FlatKey(lower, "", p) == k
  {
    hide FlatKey, Render, WholeErrors;
    var o: Origin :| WholeEntries(lower, t, "", out, o.who) && WholeErrors(lower, t, "", errs, o.from);
    forall p | Good(t, p)
      ensures FlatKey(lower, "", p) in out && out[FlatKey(lower, "", p)] == Render(NodeAt(t, p)).value
    {
      assert Good(t, o.who[FlatKey(lower, "", p)]);
    }
    forall k | k in out
      ensures exists p :: Good(t, p) && FlatKey(lower, "", p) == k
    {
      assert k in o.who && Good(t, o.who[k]);
    }
  }

  /** A file value without a raw string, and the refusal of the first such value in it. */
  predicate RefusedFor(v: Node, code: string)
    decreases v
  {
    match v
    case Null => code == "config.null_file_value"
    case Exotic => code == "config.file_value_type"
    case Tree(_) => code == "config.file_value_type"
    case List(items) =>
      exists i :: 0 <= i < |items| && RefusedFor(items[i], code) && forall j :: 0 <= j < i ==> Plain(items[j])
    case _ => false
  }

  lemma {:induction false} FirstRefusal(items: seq<Node>, k: nat) returns (i: nat)
    requires k <= |items| && RenderItems(items, k).Refusal?
    ensures i < k && Render(items[i]) == Refusal(RenderItems(items, k).code)
    ensures forall j :: 0 <= j < i ==> Render(items[j]).Raw?
  {
    if RenderItems(items, k - 1).Refusal? {
      i := FirstRefusal(items, k - 1);
    } else {
      i := k - 1;
      ItemsRendered(items, k - 1);
    }
  }

  lemma {:induction false} RefusalIsExplained(v: Node)
    requires Render(v).Refusal?
    ensures RefusedFor(v, Render(v).code)
    decreases v
  {
    if v.List? {
      var i := FirstRefusal(v.items, |v.items|);
      RefusalIsExplained(v.items[i]);
      forall j | 0 <= j < i
        ensures Plain(v.items[j])
      {
        RenderedExactlyWhenPlain(v.items[j]);
      }
    }
  }

  /** The error is about the leaf at p: its flat key, and the refusal of the first offending part. */
  ghost predicate IsAbout(lower: char -> char, t: Node, p: seq<string>, e: FieldError) {
    && IsLeaf(t, p)
    && exists code :: RefusedFor(NodeAt(t, p), code)
         && e == FieldError("(file)", FlatKey(lower, "", p), FileDecode, Some(Foreign(code)))
  }

  lemma ErrorAtIsAbout(lower: char -> char, t: Node, p: seq<string>)
    requires Bad(t, p)
    ensures IsAbout(lower, t, p, ErrorAt(lower, t, "", p))
  {
    hide FlatKey, RefusedFor, Render;
    RefusalIsExplained(NodeAt(t, p));
  }

  lemma BadLeafIsReported(lower: char -> char, t: Node, errs: seq<FieldError>, from: seq<seq<string>>, p: seq<string>)
    requires WholeErrors(lower, t, "", errs, from) && IsLeaf(t, p) && !Plain(NodeAt(t, p))
    ensures exists e :: e in errs && IsAbout(lower, t, p, e)
  {
    hide ErrorAt, Render, Plain, IsAbout, NoRepeats;
    RenderedExactlyWhenPlain(NodeAt(t, p));
    assert Bad(t, p);
    var i :| 0 <= i < |from| && from[i] == p;
    ErrorAtIsAbout(lower, t, p);
    assert errs[i] in errs;
  }

  lemma ErrorHasBadLeaf(lower: char -> char, t: Node, errs: seq<FieldError>, from: seq<seq<string>>, e: FieldError)
    requires WholeErrors(lower, t, "", errs, from) && e in errs
    ensures exists p :: IsAbout(lower, t, p, e)
  {
    hide ErrorAt, Bad, IsAbout, NoRepeats;
    var i :| 0 <= i < |errs| && errs[i] == e;
    ErrorAtIsAbout(lower, t, from[i]);
  }

  /**
    Every value without a raw string has its error, and every error is about such a value.
  */
  lemma BadLeavesAreReported(lower: char -> char, t: Node, out: map<string, string>, errs: seq<FieldError>)
    requires FlattenedTo(lower, t, "", out, errs)
    ensures forall p :: IsLeaf(t, p) && !Plain(NodeAt(t, p)) ==> exists e :: e in errs && IsAbout(lower, t, p, e)
    ensures forall e :: e in errs ==> exists p :: IsAbout(lower, t, p, e)
  {
    hide Plain, IsAbout, WholeEntries, WholeErrors;
    var o: Origin :| WholeEntries(lower, t, "", out, o.who) && WholeErrors(lower, t, "", errs, o.from);
    forall p | IsLeaf(t, p) && !Plain(NodeAt(t, p))
      ensures exists e :: e in errs && IsAbout(lower, t, p, e)
    {
      BadLeafIsReported(lower, t, errs, o.from, p);
    }
    forall e | e in errs
      ensures exists p :: IsAbout(lower, t, p, e)
    {
      ErrorHasBadLeaf(lower, t, errs, o.from, e);
    }
  }

  /** Walking a collision-free tree in two orders gives the same map. */
  lemma EntriesDoNotDependOnOrder(lower: char -> char, t: Node, a: map<string, string>, x: seq<FieldError>,
                                  b: map<string, string>, y: seq<FieldError>)
    requires FlattenedTo(lower, t, "", a, x) && FlattenedTo(lower, t, "", b, y) && CollisionFree(lower, t)
    ensures a == b
  {
    hide FlatKey, Render, Good, CollisionFree, FlattenedTo;
    OneEntryPerLeaf(lower, t, a, x);
    OneEntryPerLeaf(lower, t, b, y);
    forall k
      ensures k in a <==> k in b
      ensures k in a && k in b ==> a[k] == b[k]
    {
      if k in a {
        var p :| Good(t, p) && FlatKey(lower, "", p) == k;
      }
      if k in b {
        var p :| Good(t, p) && FlatKey(lower, "", p) == k;
      }
    }
  }

  /** Walking any tree in two orders gives the same errors, counted with repetitions. */
  lemma ErrorsDoNotDependOnOrder(lower: char -> char, t: Node, a: map<string, string>, x: seq<FieldError>,
                                 b: map<string, string>, y: seq<FieldError>)
    requires FlattenedTo(lower, t, "", a, x) && FlattenedTo(lower, t, "", b, y)
    ensures multiset(x) == multiset(y)
  {
    hide ErrorAt, Bad, WholeEntries;
    var o: Origin :| WholeEntries(lower, t, "", a, o.who) && WholeErrors(lower, t, "", x, o.from);
    var o': Origin :| WholeEntries(lower, t, "", b, o'.who) && WholeErrors(lower, t, "", y, o'.from);
    forall p
      ensures p in o.from <==> p in o'.from
    {
      assert p in o.from ==> Bad(t, p);
      assert p in o'.from ==> Bad(t, p);
    }
    NoRepeatsPermute(o.from, o'.from);
    ImagesPermute(p => ErrorAt(lower, t, "", p), o.from, x, o'.from, y);
  }

  const COLLIDING := Tree(map["A" := Word("1"), "a" := Word("2")])

  lemma CollidingLeaf(lower: char -> char, p: seq<string>)
    requires lower('A') == 'a' == lower('a')
    ensures IsLeaf(COLLIDING, p) <==> p == ["A"] || p == ["a"]
    ensures IsLeaf(COLLIDING, p) ==> NodeAt(COLLIDING, p) == COLLIDING.kids[p[0]] && FlatKey(lower, "", p) == "a"
  {
    assert ToLower(lower, "A") == "a" && ToLower(lower, "a") == "a";
    if p != [] && p[0] in COLLIDING.kids {
      assert p == [p[0]] + p[1..];
      assert IsLeaf(COLLIDING.kids[p[0]], p[1..]) <==> p[1..] == [];
    }
  }

  lemma EitherWins(lower: char -> char, key: string)
    requires lower('A') == 'a' == lower('a') && key in COLLIDING.kids
    ensures FlattenedTo(lower, COLLIDING, "", map["a" := COLLIDING.kids[key].s], [])
    ensures Good(COLLIDING, [key]) && FlatKey(lower, "", [key]) == "a"
  {
    hide IsLeaf, FlatKey, NodeAt;
    forall p
      ensures IsLeaf(COLLIDING, p) <==> p == ["A"] || p == ["a"]
      ensures IsLeaf(COLLIDING, p) ==> NodeAt(COLLIDING, p) == COLLIDING.kids[p[0]] && FlatKey(lower, "", p) == "a"
    {
      CollidingLeaf(lower, p);
    }
    var o := Origin(map["a" := [key]], []);
    assert WholeEntries(lower, COLLIDING, "", map["a" := COLLIDING.kids[key].s], o.who);
    assert WholeErrors(lower, COLLIDING, "", [], o.from);
  }

  /** Two keys that differ only in case leave the outcome to the walk's order: either value may win. */
  lemma CollisionLeavesAChoice(lower: char -> char)
    requires lower('A') == 'a' == lower('a')
    ensures FlattenedTo(lower, COLLIDING, "", map["a" := "1"], [])
    ensures FlattenedTo(lower, COLLIDING, "", map["a" := "2"], [])
    ensures !CollisionFree(lower, COLLIDING)
  {
    hide FlattenedTo, FlatKey, Good;
    EitherWins(lower, "A");
    EitherWins(lower, "a");
    assert ["A"][0] != ["a"][0] by {
      assert "A"[0] != "a"[0];
    }
  }
}
