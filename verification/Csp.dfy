/**
  The Content-Security-Policy printer of security/csp.go and the parse-edit-print
  function of security/csp_nonce.go, compared through an independent reading of the
  header: section 2.2.1 of Content Security Policy Level 3 ("parse a serialized CSP").
*/
module Csp {
  import opened Text
  import opened Sorting

  const SCRIPT_SRC := "script-src"
  const SELF := "'self'"
  const JSON_LD := "'application/ld+json'"

  datatype Environment = Development | Staging | Production | Unknown(name: string)

  datatype Config = Config(
    environment: Environment,
    nonce: string,
    styleInline: bool,
    connectSrc: seq<string>,
    imgSrc: seq<string>,
    jsonLd: bool)

  function NonceToken(nonce: string): string {
    "'nonce-" + nonce + "'"
  }

  // ---------------------------------------------------------------------------
  // Building
  // ---------------------------------------------------------------------------

  // One directive, as its name and its sources.
  datatype Directive = Directive(name: string, sources: seq<string>)

  function Render(d: Directive): string {
    d.name + " " + Join(d.sources, " ")
  }

  function RenderAll(ds: seq<Directive>): (r: seq<string>)
    ensures |r| == |ds| && forall i :: 0 <= i < |ds| ==> r[i] == Render(ds[i])
  {
    seq(|ds|, i requires 0 <= i < |ds| => Render(ds[i]))
  }

  function ScriptSources(cfg: Config): seq<string> {
    [SELF] + (if cfg.nonce != "" then [NonceToken(cfg.nonce)] else []) + (if cfg.jsonLd then [JSON_LD] else [])
  }

  function StyleSources(cfg: Config): seq<string> {
    [SELF] + if cfg.styleInline then ["'unsafe-inline'"] else []
  }

  function ConnectSources(cfg: Config): seq<string> {
    [SELF] + (if cfg.environment == Development || cfg.environment == Staging then ["ws:", "wss:"] else [])
    + cfg.connectSrc
  }

  function ImgSources(cfg: Config): seq<string> {
    [SELF, "data:"] + cfg.imgSrc
  }

  /** The policy meant by a configuration, by directive name. */
  function Meant(cfg: Config): seq<Directive> {
    [ Directive("base-uri", [SELF]),
      Directive("connect-src", ConnectSources(cfg)),
      Directive("default-src", [SELF]),
      Directive("form-action", [SELF]),
      Directive("frame-ancestors", ["'none'"]),
      Directive("img-src", ImgSources(cfg)),
      Directive("object-src", ["'none'"]),
      Directive(SCRIPT_SRC, ScriptSources(cfg)),
      Directive("style-src", StyleSources(cfg)) ]
  }

  /** The directives in the order the builder appends them. */
  function Emitted(cfg: Config): seq<string> {
    [ "default-src " + SELF, "base-uri " + SELF, "form-action " + SELF,
      "frame-ancestors 'none'", "object-src 'none'",
      "script-src " + Join(ScriptSources(cfg), " "),
      "style-src " + Join(StyleSources(cfg), " "),
      "connect-src " + Join(ConnectSources(cfg), " "),
      "img-src " + Join(ImgSources(cfg), " ") ]
  }

  /** The header is the meant policy, one directive after the other in name order. */
  method BuildCSP(cfg: Config) returns (csp: string)
    ensures csp == Join(RenderAll(Meant(cfg)), "; ")
    ensures SourcesShaped(cfg) && AsciiConfig(cfg) ==> Grants(Policy(csp), cfg)
  {
    hide SourcesShaped, AsciiConfig, Grants, Policy;
    var directives := ["default-src " + SELF, "base-uri " + SELF, "form-action " + SELF,
                       "frame-ancestors 'none'", "object-src 'none'"];

    var scriptSrc := [SELF];
    if cfg.nonce != "" {
      scriptSrc := scriptSrc + [NonceToken(cfg.nonce)];
    }
    if cfg.jsonLd {
      scriptSrc := scriptSrc + [JSON_LD];
    }
    directives := directives + ["script-src " + Join(scriptSrc, " ")];

    var styleSrc := [SELF];
    if cfg.styleInline {
      styleSrc := styleSrc + ["'unsafe-inline'"];
    }
    directives := directives + ["style-src " + Join(styleSrc, " ")];

    var connectSrc := [SELF];
    match cfg.environment {
      case Development => connectSrc := connectSrc + ["ws:", "wss:"];
      case Staging => connectSrc := connectSrc + ["ws:", "wss:"];
      case Production =>
      case Unknown(_) =>
    }
    connectSrc := connectSrc + cfg.connectSrc;
    directives := directives + ["connect-src " + Join(connectSrc, " ")];

    var imgSrc := [SELF, "data:"];
    imgSrc := imgSrc + cfg.imgSrc;
    directives := directives + ["img-src " + Join(imgSrc, " ")];

    assert scriptSrc == ScriptSources(cfg);
    assert styleSrc == StyleSources(cfg);
    assert connectSrc == ConnectSources(cfg);
    assert directives == Emitted(cfg);
    directives := Sort(Less, directives);
    SortedByName(cfg);
    csp := Join(directives, "; ");
    if SourcesShaped(cfg) && AsciiConfig(cfg) {
      BuiltPolicyGrants(cfg);
    }
  }

  /** Two characters decide between any two of the nine directives. */
  lemma LessByTwo(a: string, b: string)
    requires |a| >= 2 && |b| >= 2 && (a[0] < b[0] || (a[0] == b[0] && a[1] < b[1]))
    ensures Less(a, b)
  {
  }

  function TwoChars(name: string): (char, char)
    requires |name| >= 2
  {
    (name[0], name[1])
  }

  /** Whatever the sources, the rendered policy is in ascending order. */
  lemma MeantAscending(cfg: Config)
    ensures Ascending(Less, RenderAll(Meant(cfg)))
  {
    var ds, rs := Meant(cfg), RenderAll(Meant(cfg));
    forall i | 0 <= i < 9
      ensures |ds[i].name| >= 2 && |rs[i]| >= 2 && rs[i][0] == ds[i].name[0] && rs[i][1] == ds[i].name[1]
    {
    }
    forall i, j | 0 <= i < j < 9
      ensures Less(rs[i], rs[j])
    {
      LessByTwo(rs[i], rs[j]);
    }
  }

  lemma SortedByName(cfg: Config)
    ensures Sort(Less, Emitted(cfg)) == RenderAll(Meant(cfg))
  {
    hide Less, Join, Sort, ScriptSources, StyleSources, ConnectSources, ImgSources, StrictOrder, Ascending;
    var es, rs, p := Emitted(cfg), RenderAll(Meant(cfg)), [2, 0, 3, 4, 6, 7, 8, 1, 5];
    LessIsStrictOrder();
    MeantAscending(cfg);
    EmittedAt(cfg);
    SortUndoes(Less, rs, es, p);
  }

  lemma EmittedAt(cfg: Config)
    ensures var es, rs := Emitted(cfg), RenderAll(Meant(cfg));
      && es[0] == rs[2] && es[1] == rs[0] && es[2] == rs[3] && es[3] == rs[4] && es[4] == rs[6]
      && es[5] == rs[7] && es[6] == rs[8] && es[7] == rs[1] && es[8] == rs[5]
  {
    hide Join, ScriptSources, StyleSources, ConnectSources, ImgSources;
    JoinOne(SELF);
    JoinOne("'none'");
    assert "default-src" + " " == "default-src ";
    assert "base-uri" + " " == "base-uri ";
    assert "form-action" + " " == "form-action ";
    assert "frame-ancestors" + " " + "'none'" == "frame-ancestors 'none'";
    assert "object-src" + " " + "'none'" == "object-src 'none'";
    assert SCRIPT_SRC + " " == "script-src ";
    assert "style-src" + " " == "style-src ";
    assert "connect-src" + " " == "connect-src ";
    assert "img-src" + " " == "img-src ";
  }

  lemma JoinOne(s: string)
    ensures Join([s], " ") == s
  {
  }

  // ---------------------------------------------------------------------------
  // Reading a header
  // ---------------------------------------------------------------------------

  /** White space as the standard counts it. */
  predicate AsciiSpace(c: char) {
    c in {'\t', '\n', '\U{0C}', '\r', ' '}
  }

  function Trimmed(space: char -> bool, pieces: seq<string>): seq<string> {
    if pieces == [] then []
    else
      var piece := Trim(space, pieces[0]);
      (if piece == "" then [] else [piece]) + Trimmed(space, pieces[1..])
  }

  /** The non-blank pieces between semicolons. */
  function Directives(space: char -> bool, csp: string): seq<string> {
    Trimmed(space, Split(csp, ';'))
  }

  /** What a list of directives can be printed from and read back as. */
  predicate Clean(space: char -> bool, ds: seq<string>) {
    forall i :: 0 <= i < |ds| ==> Solid(space, ds[i]) && Free(ds[i], ';')
  }

  lemma {:induction false} TrimmedConcat(space: char -> bool, a: seq<string>, b: seq<string>)
    ensures Trimmed(space, a + b) == Trimmed(space, a) + Trimmed(space, b)
  {
    if a == [] {
      assert a + b == b;
    } else {
      assert (a + b)[1..] == a[1..] + b;
      TrimmedConcat(space, a[1..], b);
    }
  }

  lemma DirectivesConcat(space: char -> bool, a: string, b: string)
    ensures Directives(space, a + ";" + b) == Directives(space, a) + Directives(space, b)
  {
    SplitConcat(a, b, ';');
    TrimmedConcat(space, Split(a, ';'), Split(b, ';'));
  }

  lemma DirectivesAfterSpace(space: char -> bool, s: string)
    requires space(' ')
    ensures Directives(space, " " + s) == Directives(space, s)
  {
    var pieces := Split(s, ';');
    assert (" " + s)[1..] == s;
    assert (" " + pieces[0])[1..] == pieces[0];
    assert TrimLeft(space, " " + pieces[0]) == TrimLeft(space, pieces[0]);
  }

  lemma DirectivesOfOne(space: char -> bool, d: string)
    requires Solid(space, d) && Free(d, ';')
    ensures Directives(space, d) == [d]
  {
    SplitFree(d, ';');
    SolidIsTrimmed(space, d);
    assert Trimmed(space, [d]) == [Trim(space, d)] + Trimmed(space, [d][1..]);
  }

  /** Printing clean directives and reading them back gives the same directives. */
  lemma {:induction false} DirectivesOfJoin(space: char -> bool, ds: seq<string>)
    requires Clean(space, ds) && space(' ')
    ensures Directives(space, Join(ds, "; ")) == ds
  {
    if |ds| == 1 {
      DirectivesOfOne(space, ds[0]);
    } else if ds != [] {
      var rest := Join(ds[1..], "; ");
      assert ds[0] + "; " + rest == ds[0] + ";" + (" " + rest);
      DirectivesConcat(space, ds[0], " " + rest);
      DirectivesOfOne(space, ds[0]);
      DirectivesAfterSpace(space, rest);
      DirectivesOfJoin(space, ds[1..]);
    }
  }

  lemma {:induction false} TrimmedIsClean(space: char -> bool, pieces: seq<string>)
    requires forall i :: 0 <= i < |pieces| ==> Free(pieces[i], ';')
    ensures Clean(space, Trimmed(space, pieces))
  {
    if pieces != [] {
      TrimMeaning(space, pieces[0], ';');
      TrimmedIsClean(space, pieces[1..]);
    }
  }

  lemma DirectivesAreClean(space: char -> bool, csp: string)
    ensures Clean(space, Directives(space, csp))
  {
    SplitPiecesFree(csp, ';');
    TrimmedIsClean(space, Split(csp, ';'));
  }

  // ---------------------------------------------------------------------------
  // Adding a nonce
  // ---------------------------------------------------------------------------

  predicate IsScriptSrc(d: string) {
    var parts := Fields(IsSpace, d);
    parts != [] && parts[0] == SCRIPT_SRC
  }

  /** The index of the first script-src directive, or the number of directives. */
  function FirstScriptSrc(ds: seq<string>): (i: nat)
    ensures i <= |ds|
    ensures i < |ds| ==> IsScriptSrc(ds[i])
    ensures forall j :: 0 <= j < i ==> !IsScriptSrc(ds[j])
  {
    if ds == [] || IsScriptSrc(ds[0]) then 0 else 1 + FirstScriptSrc(ds[1..])
  }

  /** A directive with the token among its sources. */
  function WithSource(d: string, token: string): string {
    var parts := Fields(IsSpace, d);
    if token in parts then d else Join(parts + [token], " ")
  }

  function Edited(ds: seq<string>, token: string): seq<string> {
    var i := FirstScriptSrc(ds);
    if i < |ds| then ds[i := WithSource(ds[i], token)] else ds
  }

  function WithNonce(csp: string, nonce: string): string {
    Join(Edited(Directives(IsSpace, csp), NonceToken(nonce)), "; ")
  }

  method AddNonceToScriptSrc(csp: string, nonce: string) returns (out: string)
    ensures out == WithNonce(csp, nonce)
  {
    hide Fields, Trim, Join, IsSpace, FirstScriptSrc, Split;
    var raw := Split(csp, ';');
    var directives := [];
    for i := 0 to |raw|
      invariant directives == Trimmed(IsSpace, raw[..i])
    {
      TrimmedConcat(IsSpace, raw[..i], [raw[i]]);
      assert raw[..i + 1] == raw[..i] + [raw[i]];
      var trimmed := Trim(IsSpace, raw[i]);
      if trimmed != "" {
        directives := directives + [trimmed];
      }
    }
    assert raw[..|raw|] == raw;
    assert directives == Directives(IsSpace, csp);

    for i := 0 to |directives|
      invariant forall j :: 0 <= j < i ==> !IsScriptSrc(directives[j])
    {
      var parts := Fields(IsSpace, directives[i]);
      if |parts| == 0 || parts[0] != SCRIPT_SRC {
        continue;
      }
      FirstIs(directives, i);
      var nonceToken := "'nonce-" + nonce + "'";
      if nonceToken in parts {
        assert directives[i := directives[i]] == directives;
        return Join(directives, "; ");
      }
      parts := parts + [nonceToken];
      directives := directives[i := Join(parts, " ")];
      return Join(directives, "; ");
    }
    return Join(directives, "; ");
  }

  lemma {:induction false} FirstIs(ds: seq<string>, i: nat)
    requires i < |ds| && IsScriptSrc(ds[i]) && forall j :: 0 <= j < i ==> !IsScriptSrc(ds[j])
    ensures FirstScriptSrc(ds) == i
  {
  }

  /** Nonces that print as one token; every base64 text is one. */
  predicate NonceShaped(nonce: string) {
    forall i :: 0 <= i < |nonce| ==> !IsSpace(nonce[i]) && nonce[i] != ';'
  }

  lemma NonceIsToken(nonce: string)
    requires NonceShaped(nonce)
    ensures Token(IsSpace, NonceToken(nonce))
  {
  }

  lemma WithSourceFields(d: string, token: string)
    requires Solid(IsSpace, d) && Free(d, ';') && Token(IsSpace, token)
    ensures Solid(IsSpace, WithSource(d, token)) && Free(WithSource(d, token), ';')
    ensures var parts := Fields(IsSpace, d);
      Fields(IsSpace, WithSource(d, token)) == parts + if token in parts then [] else [token]
  {
    hide IsSpace, Solid, Token, Fields, Join;
    var parts := Fields(IsSpace, d);
    FieldsAreTokens(IsSpace, d);
    SpaceIsSpace();
    if token !in parts {
      assert Tokens(IsSpace, parts + [token]);
      FieldsOfJoin(IsSpace, parts + [token]);
      JoinOfTokens(IsSpace, parts + [token]);
    } else {
      assert parts + [] == parts;
    }
  }

  lemma SpaceIsSpace()
    ensures IsSpace(' ') && AsciiSpace(' ')
    ensures forall c :: AsciiSpace(c) ==> IsSpace(c)
  {
  }

  lemma EditedIsClean(ds: seq<string>, nonce: string)
    requires Clean(IsSpace, ds) && NonceShaped(nonce)
    ensures Clean(IsSpace, Edited(ds, NonceToken(nonce)))
    ensures var i := FirstScriptSrc(ds);
      i < |ds| ==>
        var parts := Fields(IsSpace, ds[i]);
        Fields(IsSpace, WithSource(ds[i], NonceToken(nonce))) ==
          parts + if NonceToken(nonce) in parts then [] else [NonceToken(nonce)]
  {
    hide IsSpace, Solid, Token, Fields, Join, WithSource, NonceToken, FirstScriptSrc, IsScriptSrc, NonceShaped;
    var i := FirstScriptSrc(ds);
    NonceIsToken(nonce);
    if i < |ds| {
      WithSourceFields(ds[i], NonceToken(nonce));
    }
  }

  /**
    For every header text: adding a nonce leaves every directive but the first script-src
    as it was, and that one gains the nonce token at its end unless it has it already.
  */
  lemma OnlyFirstScriptSrcChanges(csp: string, nonce: string)
    requires NonceShaped(nonce)
    ensures var ds, ds', i := Directives(IsSpace, csp), Directives(IsSpace, WithNonce(csp, nonce)), FirstScriptSrc(Directives(IsSpace, csp));
      && |ds'| == |ds|
      && FirstScriptSrc(ds') == i
      && (forall j :: 0 <= j < |ds| && j != i ==> ds'[j] == ds[j])
      && (i < |ds| ==>
            Fields(IsSpace, ds'[i]) ==
              Fields(IsSpace, ds[i])
              + if NonceToken(nonce) in Fields(IsSpace, ds[i]) then [] else [NonceToken(nonce)])
  {
    var ds := Directives(IsSpace, csp);
    var ds' := Edited(ds, NonceToken(nonce));
    var i := FirstScriptSrc(ds);
    DirectivesAreClean(IsSpace, csp);
    EditedIsClean(ds, nonce);
    DirectivesOfJoin(IsSpace, ds');
    if i < |ds| {
      FirstIs(ds', i);
    }
  }

  /** Adding the same nonce again changes nothing, whatever the header text. */
  lemma AddingIsIdempotent(csp: string, nonce: string)
    requires NonceShaped(nonce)
    ensures WithNonce(WithNonce(csp, nonce), nonce) == WithNonce(csp, nonce)
  {
    var ds, token := Directives(IsSpace, csp), NonceToken(nonce);
    var ds' := Edited(ds, token);
    DirectivesAreClean(IsSpace, csp);
    EditedIsClean(ds, nonce);
    DirectivesOfJoin(IsSpace, ds');
    OnlyFirstScriptSrcChanges(csp, nonce);
    var i := FirstScriptSrc(ds);
    if i < |ds| {
      assert token in Fields(IsSpace, ds'[i]);
      assert ds'[i := ds'[i]] == ds';
    }
  }

  // What a nonce that does not print as one token leads to.

  lemma {:induction false} FieldsOfTokensAndRest(ts: seq<string>, rest: string)
    requires Tokens(IsSpace, ts) && ts != []
    ensures Fields(IsSpace, Join(ts, " ") + " " + rest) == ts + Fields(IsSpace, rest)
  {
    hide IsSpace, Token;
    SpaceIsSpace();
    if |ts| == 1 {
      FieldsOfTokenAndRest(IsSpace, ts[0], rest);
    } else {
      var tail := Join(ts[1..], " ") + " " + rest;
      assert Join(ts, " ") + " " + rest == ts[0] + " " + tail;
      FieldsOfTokenAndRest(IsSpace, ts[0], tail);
      FieldsOfTokensAndRest(ts[1..], rest);
      assert ts == [ts[0]] + ts[1..];
    }
  }

  lemma {:induction false} JoinSnoc(ts: seq<string>, t: string)
    requires ts != []
    ensures Join(ts + [t], " ") == Join(ts, " ") + " " + t
  {
    if |ts| > 1 {
      assert (ts + [t])[1..] == ts[1..] + [t];
      JoinSnoc(ts[1..], t);
    } else {
      assert (ts + [t])[1..] == [t];
    }
  }

  lemma {:induction false} FirstSemicolon(s: string) returns (a: string, b: string)
    requires !Free(s, ';')
    ensures s == a + ";" + b && Free(a, ';')
  {
    if s[0] == ';' {
      a, b := "", s[1..];
    } else {
      assert forall i :: 0 < i < |s| ==> s[i] == s[1..][i - 1];
      a, b := FirstSemicolon(s[1..]);
      a := [s[0]] + a;
      assert s == [s[0]] + s[1..];
    }
  }

  predicate EndsSolid(s: string) {
    s != "" && !IsSpace(s[|s| - 1]) && s[|s| - 1] != ';'
  }

  lemma {:induction false} TrimLeftKeepsEnd(s: string)
    requires EndsSolid(s)
    ensures TrimLeft(IsSpace, s) != "" && TrimRight(IsSpace, TrimLeft(IsSpace, s)) != ""
  {
    if IsSpace(s[0]) {
      TrimLeftKeepsEnd(s[1..]);
    }
  }

  lemma {:induction false} EndsSolidHasDirective(s: string)
    requires EndsSolid(s)
    ensures Directives(IsSpace, s) != []
    decreases |s|
  {
    if Free(s, ';') {
      SplitFree(s, ';');
      TrimLeftKeepsEnd(s);
    } else {
      var a, b := FirstSemicolon(s);
      assert b != "" && b[|b| - 1] == s[|s| - 1];
      EndsSolidHasDirective(b);
      DirectivesConcat(IsSpace, a, b);
    }
  }

  /** A solid start: the header's first directive starts with the same tokens. */
  lemma FirstDirectiveOf(ts: seq<string>, token: string)
    requires Tokens(IsSpace, ts) && ts != [] && Solid(IsSpace, token) && token[0] != ';'
    requires token[|token| - 1] != ';'
    ensures var es := Directives(IsSpace, Join(ts + [token], " "));
      && es != []
      && (!Free(token, ';') ==> |es| >= 2)
      && Fields(IsSpace, es[0]) != [] && ts <= Fields(IsSpace, es[0])
      && (Free(token, ';') ==> es == [Join(ts + [token], " ")] && |Fields(IsSpace, es[0])| > |ts|)
  {
    hide IsSpace, Token, Fields;
    SpaceIsSpace();
    JoinSnoc(ts, token);
    JoinOfTokens(IsSpace, ts);
    var p := Join(ts, " ");
    if Free(token, ';') {
      DirectivesOfOne(IsSpace, p + " " + token);
      FieldsOfTokensAndRest(ts, token);
      SolidHasField(token);
    } else {
      var a, b := FirstSemicolon(token);
      assert p + " " + token == (p + " " + a) + ";" + b;
      DirectivesConcat(IsSpace, p + " " + a, b);
      assert b != "" && b[|b| - 1] == token[|token| - 1];
      EndsSolidHasDirective(b);
      assert a != "" && a[0] == token[0];
      TrimmedStart(ts, a);
    }
  }

  lemma SolidHasField(s: string)
    requires Solid(IsSpace, s)
    ensures Fields(IsSpace, s) != []
  {
  }

  lemma {:induction false} FieldsOfSpaces(tail: string)
    requires forall i :: 0 <= i < |tail| ==> IsSpace(tail[i])
    ensures Fields(IsSpace, tail) == []
  {
    hide IsSpace;
    if tail != "" {
      FieldsOfSpaces(tail[1..]);
    }
  }

  lemma {:induction false} FieldsIgnoreTail(s: string, tail: string)
    requires forall i :: 0 <= i < |tail| ==> IsSpace(tail[i])
    ensures Fields(IsSpace, s + tail) == Fields(IsSpace, s)
    decreases |s|
  {
    hide IsSpace;
    if s == "" {
      assert s + tail == tail;
      FieldsOfSpaces(tail);
    } else if IsSpace(s[0]) {
      assert (s + tail)[1..] == s[1..] + tail;
      FieldsIgnoreTail(s[1..], tail);
    } else {
      var n := WordLength(IsSpace, s);
      var rest := s[n..] + tail;
      assert s + tail == s[..n] + rest;
      WordLengthOfToken(IsSpace, s[..n], rest);
      assert (s + tail)[..n] == s[..n] && (s + tail)[n..] == rest;
      FieldsIgnoreTail(s[n..], tail);
    }
  }

  lemma TrimmedStart(ts: seq<string>, a: string)
    requires Tokens(IsSpace, ts) && ts != [] && Free(a, ';')
    ensures var es := Directives(IsSpace, Join(ts, " ") + " " + a);
      es != [] && ts <= Fields(IsSpace, es[0])
  {
    hide IsSpace, Token, Fields;
    var s := Join(ts, " ") + " " + a;
    SpaceIsSpace();
    JoinOfTokens(IsSpace, ts);
    SplitFree(s, ';');
    assert TrimLeft(IsSpace, s) == s;
    var tail := TrimRightCuts(IsSpace, s);
    FieldsIgnoreTail(TrimRight(IsSpace, s), tail);
    FieldsOfTokensAndRest(ts, a);
    assert Fields(IsSpace, Trim(IsSpace, s)) == ts + Fields(IsSpace, a);
    NoFields();
    assert Trim(IsSpace, s) != "";
    assert Trimmed(IsSpace, [s]) == [Trim(IsSpace, s)] + Trimmed(IsSpace, [s][1..]);
  }

  lemma NoFields()
    ensures Fields(IsSpace, "") == []
  {
  }

  lemma DirectivesOfCons(d: string, rest: seq<string>)
    ensures Directives(IsSpace, Join([d] + rest, "; ")) == Directives(IsSpace, d) + Directives(IsSpace, Join(rest, "; "))
  {
    hide IsSpace, Split, Trimmed;
    SpaceIsSpace();
    if rest == [] {
      assert [d] + rest == [d];
      NoDirectives();
    } else {
      assert ([d] + rest)[1..] == rest;
      assert d + "; " + Join(rest, "; ") == d + ";" + (" " + Join(rest, "; "));
      DirectivesConcat(IsSpace, d, " " + Join(rest, "; "));
      DirectivesAfterSpace(IsSpace, Join(rest, "; "));
    }
  }

  lemma NoDirectives()
    ensures Directives(IsSpace, "") == []
  {
    assert Split("", ';') == [""];
    assert Trim(IsSpace, "") == "";
    assert Trimmed(IsSpace, [""]) == Trimmed(IsSpace, [""][1..]);
  }

  lemma {:induction false} DirectivesOfMixed(a: seq<string>, d: string, b: seq<string>)
    requires Clean(IsSpace, a) && Clean(IsSpace, b)
    ensures Directives(IsSpace, Join(a + [d] + b, "; ")) == a + Directives(IsSpace, d) + b
  {
    hide IsSpace, Solid, Join, Directives;
    SpaceIsSpace();
    if a == [] {
      assert a + [d] + b == [d] + b;
      DirectivesOfJoin(IsSpace, b);
      DirectivesOfCons(d, b);
    } else {
      assert a + [d] + b == [a[0]] + (a[1..] + [d] + b);
      DirectivesOfOne(IsSpace, a[0]);
      DirectivesOfCons(a[0], a[1..] + [d] + b);
      DirectivesOfMixed(a[1..], d, b);
      assert a == [a[0]] + a[1..];
    }
  }

  lemma NonceTokenSolid(nonce: string)
    ensures var token := NonceToken(nonce);
      && Solid(IsSpace, token) && token[0] != ';' && token[|token| - 1] != ';'
      && (Token(IsSpace, token) ==> NonceShaped(nonce))
  {
    var token := NonceToken(nonce);
    assert forall i :: 0 <= i < |nonce| ==> nonce[i] == token[i + 7];
    assert token[0] == '\'' && token[|token| - 1] == '\'';
  }

  lemma CleanParts(a: seq<string>, d: string, b: seq<string>)
    requires Clean(IsSpace, a + [d] + b)
    ensures Clean(IsSpace, a) && Free(d, ';') && Clean(IsSpace, b)
  {
    hide IsSpace, Solid;
    var ds := a + [d] + b;
    assert forall j :: 0 <= j < |a| ==> a[j] == ds[j];
    assert ds[|a|] == d;
    assert forall j :: 0 <= j < |b| ==> b[j] == ds[|a| + 1 + j];
  }

  /** What one call leaves when the token cannot be among the directive's sources. */
  lemma OneEdit(a: seq<string>, d: string, b: seq<string>, nonce: string)
    requires Clean(IsSpace, a + [d] + b) && IsScriptSrc(d) && !NonceShaped(nonce)
    requires forall j :: 0 <= j < |a| ==> !IsScriptSrc(a[j])
    ensures var d' := WithSource(d, NonceToken(nonce));
      var es := Directives(IsSpace, d');
      && Edited(a + [d] + b, NonceToken(nonce)) == a + [d'] + b
      && Directives(IsSpace, Join(a + [d'] + b, "; ")) == a + es + b
      && es != [] && Clean(IsSpace, es) && IsScriptSrc(es[0])
      && (es == [d'] ==> |Fields(IsSpace, d')| > |Fields(IsSpace, d)|)
      && (|es| == 1 ==> es == [d'])
  {
    hide IsSpace, NonceShaped, NonceToken, Token, Solid, Fields, Join, Directives, FirstScriptSrc, Clean;
    var ds, token := a + [d] + b, NonceToken(nonce);
    FirstIs(ds, |a|);
    NonceTokenSolid(nonce);
    CleanParts(a, d, b);
    FieldsAreTokens(IsSpace, d);
    var d' := WithSource(d, token);
    FirstDirectiveOf(Fields(IsSpace, d), token);
    assert ds[|a| := d'] == a + [d'] + b;
    DirectivesOfMixed(a, d', b);
    DirectivesAreClean(IsSpace, d');
  }

  /** A nonce with white space or a semicolon inside is appended once more on every call. */
  lemma MisshapenNonceIsAddedAgain(csp: string, nonce: string)
    requires !NonceShaped(nonce)
    requires FirstScriptSrc(Directives(IsSpace, csp)) < |Directives(IsSpace, csp)|
    ensures WithNonce(WithNonce(csp, nonce), nonce) != WithNonce(csp, nonce)
  {
    hide IsSpace, NonceShaped, NonceToken, Token, Solid, Fields, Join, Directives, Clean, Edited, IsScriptSrc, WithSource;
    var ds, token := Directives(IsSpace, csp), NonceToken(nonce);
    var i := FirstScriptSrc(ds);
    var a, d, b := ds[..i], ds[i], ds[i + 1..];
    assert ds == a + [d] + b;
    DirectivesAreClean(IsSpace, csp);
    OneEdit(a, d, b, nonce);
    var es := Directives(IsSpace, WithSource(d, token));
    var b1 := es[1..] + b;
    assert a + es + b == a + [es[0]] + b1;
    DirectivesAreClean(IsSpace, WithNonce(csp, nonce));
    OneEdit(a, es[0], b1, nonce);
    var es2 := Directives(IsSpace, WithSource(es[0], token));
    LongerOrOther(a, es, es2, b);
  }

  lemma LongerOrOther(a: seq<string>, es: seq<string>, es2: seq<string>, b: seq<string>)
    requires es != [] && es2 != [] && (|es2| == 1 ==> es2[0] != es[0])
    ensures a + es + b != a + es2 + (es[1..] + b)
  {
    assert (a + es + b)[|a|] == es[0];
    assert (a + es2 + (es[1..] + b))[|a|] == es2[0];
  }

  /** Repeating the call changes nothing exactly when there is nothing to edit or the nonce prints as one token. */
  lemma IdempotentExactly(csp: string, nonce: string)
    ensures WithNonce(WithNonce(csp, nonce), nonce) == WithNonce(csp, nonce)
            <==> NonceShaped(nonce) || FirstScriptSrc(Directives(IsSpace, csp)) == |Directives(IsSpace, csp)|
  {
    if NonceShaped(nonce) {
      AddingIsIdempotent(csp, nonce);
    } else if FirstScriptSrc(Directives(IsSpace, csp)) < |Directives(IsSpace, csp)| {
      MisshapenNonceIsAddedAgain(csp, nonce);
    } else {
      hide IsSpace;
      SpaceIsSpace();
      DirectivesAreClean(IsSpace, csp);
      DirectivesOfJoin(IsSpace, Directives(IsSpace, csp));
    }
  }

  // ---------------------------------------------------------------------------
  // Builder and editor agree
  // ---------------------------------------------------------------------------

  function LowerAscii(s: string): string {
    seq(|s|, i requires 0 <= i < |s| => if 'A' <= s[i] <= 'Z' then s[i] + ('a' - 'A') else s[i])
  }

  predicate Ascii(s: string) {
    forall i :: 0 <= i < |s| ==> s[i] < '\U{80}'
  }

  predicate AllAscii(ts: seq<string>) {
    forall i :: 0 <= i < |ts| ==> Ascii(ts[i])
  }

  /**
    The standard's directive set: a directive that is not ASCII is ignored, and so is a later
    directive of a name already seen.
  */
  function DirectiveSet(ds: seq<string>): map<string, set<string>> {
    if ds == [] then map[]
    else
      var init := DirectiveSet(ds[..|ds| - 1]);
      var parts := Fields(AsciiSpace, ds[|ds| - 1]);
      if parts == [] || !Ascii(ds[|ds| - 1]) || LowerAscii(parts[0]) in init then init
      else init[LowerAscii(parts[0]) := set t | t in parts[1..]]
  }

  function Policy(csp: string): map<string, set<string>> {
    DirectiveSet(Directives(AsciiSpace, csp))
  }

  ghost predicate SourcesShaped(cfg: Config) {
    NonceShaped(cfg.nonce) && Tokens(IsSpace, cfg.connectSrc) && Tokens(IsSpace, cfg.imgSrc)
  }

  /** Directives that can be read back: token-shaped parts and distinct lower-case names. */
  ghost predicate Shaped(space: char -> bool, ds: seq<Directive>) {
    && (forall i :: 0 <= i < |ds| ==> Token(space, ds[i].name) && Tokens(space, ds[i].sources))
    && (forall i :: 0 <= i < |ds| ==> LowerAscii(ds[i].name) == ds[i].name && ds[i].sources != [])
    && (forall i, j :: 0 <= i < j < |ds| ==> ds[i].name != ds[j].name)
  }

  /** A directive the standard keeps: its name and its sources are ASCII. */
  predicate Legible(d: Directive) {
    Ascii(d.name) && AllAscii(d.sources)
  }

  lemma {:induction false} AsciiJoin(ts: seq<string>)
    ensures Ascii(Join(ts, " ")) <==> AllAscii(ts)
  {
    if |ts| > 1 {
      AsciiJoin(ts[1..]);
      var rest := Join(ts[1..], " ");
      AsciiConcat(ts[0], " " + rest);
      AsciiConcat(" ", rest);
      assert ts[0] + " " + rest == ts[0] + (" " + rest);
      assert ts == [ts[0]] + ts[1..];
    }
  }

  lemma AsciiConcat(a: string, b: string)
    ensures Ascii(a + b) <==> Ascii(a) && Ascii(b)
  {
    if Ascii(a + b) {
      assert forall i :: 0 <= i < |a| ==> a[i] == (a + b)[i];
      assert forall i :: 0 <= i < |b| ==> b[i] == (a + b)[|a| + i];
    }
  }

  lemma LegibleRendered(d: Directive)
    ensures Ascii(Render(d)) <==> Legible(d)
  {
    hide Ascii;
    AsciiConcat(d.name + " ", Join(d.sources, " "));
    AsciiConcat(d.name, " ");
    AsciiJoin(d.sources);
    SpaceIsAscii();
  }

  lemma SpaceIsAscii()
    ensures Ascii(" ")
  {
  }

  /** What the standard reads from a list of directives: those it keeps, each with its sources. */
  ghost predicate Reads(m: map<string, set<string>>, ds: seq<Directive>) {
    && (forall name :: name in m <==> exists i :: 0 <= i < |ds| && ds[i].name == name && Legible(ds[i]))
    && (forall i :: 0 <= i < |ds| && Legible(ds[i]) ==> ds[i].name in m && m[ds[i].name] == set t | t in ds[i].sources)
  }

  lemma {:induction false} SetOfRendered(ds: seq<Directive>)
    requires Shaped(AsciiSpace, ds)
    ensures Reads(DirectiveSet(RenderAll(ds)), ds)
  {
    hide Fields, Join, Render, LowerAscii, Tokens, Ascii, Legible;
    if ds != [] {
      var init, last := ds[..|ds| - 1], ds[|ds| - 1];
      SetOfRendered(init);
      assert RenderAll(ds)[..|ds| - 1] == RenderAll(init);
      SpaceIsSpace();
      FieldsOfRendered(AsciiSpace, last);
      LegibleRendered(last);
      assert ([last.name] + last.sources)[1..] == last.sources;
      ReadsNext(DirectiveSet(RenderAll(init)), ds);
    }
  }

  lemma ReadsNext(m: map<string, set<string>>, ds: seq<Directive>)
    requires ds != [] && Reads(m, ds[..|ds| - 1])
    requires forall i, j :: 0 <= i < j < |ds| ==> ds[i].name != ds[j].name
    ensures var d := ds[|ds| - 1];
      d.name !in m && Reads(if Legible(d) then m[d.name := set t | t in d.sources] else m, ds)
  {
    hide Legible;
    var init, d := ds[..|ds| - 1], ds[|ds| - 1];
    assert forall i :: 0 <= i < |init| ==> init[i] == ds[i];
    var after := if Legible(d) then m[d.name := set t | t in d.sources] else m;
    forall name
      ensures name in after <==> exists i :: 0 <= i < |ds| && ds[i].name == name && Legible(ds[i])
    {
      if name in m {
        var i :| 0 <= i < |init| && init[i].name == name && Legible(init[i]);
        assert ds[i].name == name && Legible(ds[i]);
      }
      if i :| 0 <= i < |ds| && ds[i].name == name && Legible(ds[i]) {
        assert i < |init| ==> init[i].name == name && Legible(init[i]);
      }
    }
  }

  lemma FieldsOfRendered(space: char -> bool, d: Directive)
    requires Token(space, d.name) && Tokens(space, d.sources) && d.sources != [] && space(' ')
    ensures Fields(space, Render(d)) == [d.name] + d.sources
    ensures Render(d) == Join([d.name] + d.sources, " ")
    ensures Solid(space, Render(d)) && Free(Render(d), ';')
  {
    FieldsOfTokenAndRest(space, d.name, Join(d.sources, " "));
    FieldsOfJoin(space, d.sources);
    JoinOfTokens(space, [d.name] + d.sources);
    assert ([d.name] + d.sources)[1..] == d.sources;
  }

  lemma DirectivesOfRendered(space: char -> bool, ds: seq<Directive>)
    requires Shaped(space, ds) && space(' ')
    ensures Directives(space, Join(RenderAll(ds), "; ")) == RenderAll(ds)
  {
    forall i | 0 <= i < |ds|
      ensures Solid(space, RenderAll(ds)[i]) && Free(RenderAll(ds)[i], ';')
    {
      FieldsOfRendered(space, ds[i]);
    }
    DirectivesOfJoin(space, RenderAll(ds));
  }

  /** The standard reads a printed list of directives as those of them that are ASCII. */
  lemma PolicyOfRendered(ds: seq<Directive>)
    requires Shaped(AsciiSpace, ds)
    ensures Reads(Policy(Join(RenderAll(ds), "; ")), ds)
  {
    hide Reads;
    SpaceIsSpace();
    DirectivesOfRendered(AsciiSpace, ds);
    SetOfRendered(ds);
  }

  lemma ShapedForAscii(ds: seq<Directive>)
    requires Shaped(IsSpace, ds)
    ensures Shaped(AsciiSpace, ds)
  {
    SpaceIsSpace();
  }

  /** Lower-case letters and hyphens only. */
  predicate PlainName(s: string) {
    s != "" && forall i :: 0 <= i < |s| ==> 'a' <= s[i] <= 'z' || s[i] == '-'
  }

  lemma PlainNameIsShaped(s: string)
    requires PlainName(s)
    ensures Token(IsSpace, s) && LowerAscii(s) == s
  {
  }

  lemma NamesArePlain()
    ensures PlainName("base-uri") && PlainName("connect-src") && PlainName("default-src")
    ensures PlainName("form-action") && PlainName("frame-ancestors") && PlainName("img-src")
    ensures PlainName("object-src") && PlainName(SCRIPT_SRC) && PlainName("style-src")
  {
  }

  lemma NamesAreShaped(cfg: Config, i: nat)
    requires i < 9
    ensures Token(IsSpace, Meant(cfg)[i].name) && LowerAscii(Meant(cfg)[i].name) == Meant(cfg)[i].name
  {
    hide PlainName, Token, LowerAscii;
    NamesArePlain();
    PlainNameIsShaped(Meant(cfg)[i].name);
  }

  lemma NamesDiffer(cfg: Config, i: nat, j: nat)
    requires i < j < 9
    ensures Meant(cfg)[i].name != Meant(cfg)[j].name
  {
    var a, b := Meant(cfg)[i].name, Meant(cfg)[j].name;
    assert |a| >= 2 && |b| >= 2;
    assert TwoChars(a) != TwoChars(b);
  }

  /** Visible ASCII without semicolons. */
  predicate Visible(s: string) {
    s != "" && forall i :: 0 <= i < |s| ==> '!' <= s[i] <= '~' && s[i] != ';'
  }

  lemma VisibleIsToken(s: string)
    requires Visible(s)
    ensures Token(IsSpace, s)
  {
  }

  lemma KeywordsAreVisible()
    ensures Visible(SELF) && Visible(JSON_LD) && Visible("'none'") && Visible("data:")
    ensures Visible("'unsafe-inline'") && Visible("ws:") && Visible("wss:")
  {
  }

  lemma KeywordsAreTokens()
    ensures Token(IsSpace, SELF) && Token(IsSpace, JSON_LD) && Token(IsSpace, "'none'") && Token(IsSpace, "data:")
    ensures Token(IsSpace, "'unsafe-inline'") && Token(IsSpace, "ws:") && Token(IsSpace, "wss:")
  {
    hide Token, Visible;
    KeywordsAreVisible();
    VisibleIsToken(SELF);
    VisibleIsToken(JSON_LD);
    VisibleIsToken("'none'");
    VisibleIsToken("data:");
    VisibleIsToken("'unsafe-inline'");
    VisibleIsToken("ws:");
    VisibleIsToken("wss:");
  }

  lemma SourcesAreTokens(cfg: Config, i: nat)
    requires SourcesShaped(cfg) && i < 9
    ensures Tokens(IsSpace, Meant(cfg)[i].sources) && Meant(cfg)[i].sources != []
  {
    hide Token, NonceShaped, NonceToken;
    KeywordsAreTokens();
    NonceIsToken(cfg.nonce);
  }

  lemma MeantIsShaped(cfg: Config)
    requires SourcesShaped(cfg)
    ensures Shaped(IsSpace, Meant(cfg))
  {
    hide LowerAscii, Meant, Tokens, Token;
    MeantHasNine(cfg);
    forall i | 0 <= i < 9
      ensures Token(IsSpace, Meant(cfg)[i].name) && Tokens(IsSpace, Meant(cfg)[i].sources)
      ensures LowerAscii(Meant(cfg)[i].name) == Meant(cfg)[i].name && Meant(cfg)[i].sources != []
    {
      NamesAreShaped(cfg, i);
      SourcesAreTokens(cfg, i);
    }
    forall i, j | 0 <= i < j < 9
      ensures Meant(cfg)[i].name != Meant(cfg)[j].name
    {
      NamesDiffer(cfg, i, j);
    }
  }

  lemma MeantHasNine(cfg: Config)
    ensures |Meant(cfg)| == 9
  {
  }

  /** The map has exactly the given directives. */
  ghost predicate IsMapOf(m: map<string, set<string>>, ds: seq<Directive>) {
    && (forall name :: name in m <==> exists i :: 0 <= i < |ds| && ds[i].name == name)
    && (forall i :: 0 <= i < |ds| ==> ds[i].name in m && m[ds[i].name] == set t | t in ds[i].sources)
  }

  /** What a configuration may contribute to a source list is ASCII. */
  predicate AsciiConfig(cfg: Config) {
    Ascii(cfg.nonce) && AllAscii(cfg.connectSrc) && AllAscii(cfg.imgSrc)
  }

  lemma KeywordsAreAscii()
    ensures Ascii(SELF) && Ascii(JSON_LD) && Ascii("'none'") && Ascii("data:")
    ensures Ascii("'unsafe-inline'") && Ascii("ws:") && Ascii("wss:")
  {
    hide Visible;
    KeywordsAreVisible();
    VisibleIsAscii(SELF);
    VisibleIsAscii(JSON_LD);
    VisibleIsAscii("'none'");
    VisibleIsAscii("data:");
    VisibleIsAscii("'unsafe-inline'");
    VisibleIsAscii("ws:");
    VisibleIsAscii("wss:");
  }

  lemma VisibleIsAscii(s: string)
    requires Visible(s)
    ensures Ascii(s)
  {
  }

  lemma PlainNameIsAscii(s: string)
    requires PlainName(s)
    ensures Ascii(s)
  {
  }

  lemma NonceTokenAscii(nonce: string)
    ensures Ascii(NonceToken(nonce)) <==> Ascii(nonce)
  {
    AsciiConcat("'nonce-" + nonce, "'");
    AsciiConcat("'nonce-", nonce);
  }

  lemma NamesAreAscii(cfg: Config, i: nat)
    requires i < 9
    ensures Ascii(Meant(cfg)[i].name)
  {
    hide PlainName, Ascii;
    NamesArePlain();
    PlainNameIsAscii(Meant(cfg)[i].name);
  }

  /** Which of the nine directives can be read. */
  lemma MeantLegible(cfg: Config)
    ensures (forall i :: 0 <= i < 9 ==> Legible(Meant(cfg)[i])) <==> AsciiConfig(cfg)
  {
    hide Ascii, NonceToken;
    KeywordsAreAscii();
    NonceTokenAscii(cfg.nonce);
    EmptyIsAscii();
    forall i | 0 <= i < 9
      ensures Ascii(Meant(cfg)[i].name)
    {
      NamesAreAscii(cfg, i);
    }
    AllAsciiConcat([SELF] + (if cfg.environment == Development || cfg.environment == Staging then ["ws:", "wss:"] else []), cfg.connectSrc);
    AllAsciiConcat([SELF, "data:"], cfg.imgSrc);
    assert Legible(Meant(cfg)[1]) <==> AllAscii(cfg.connectSrc);
    assert Legible(Meant(cfg)[5]) <==> AllAscii(cfg.imgSrc);
    assert cfg.nonce != "" ==> ScriptSources(cfg)[1] == NonceToken(cfg.nonce);
    assert Legible(Meant(cfg)[7]) <==> Ascii(cfg.nonce);
  }

  lemma EmptyIsAscii()
    ensures Ascii("")
  {
  }

  lemma AllAsciiConcat(a: seq<string>, b: seq<string>)
    ensures AllAscii(a + b) <==> AllAscii(a) && AllAscii(b)
  {
    hide Ascii;
    if AllAscii(a + b) {
      assert forall i :: 0 <= i < |a| ==> a[i] == (a + b)[i];
      assert forall i :: 0 <= i < |b| ==> b[i] == (a + b)[|a| + i];
    }
  }

  /**
    The printed policy, read by the standard, has exactly the nine meant directives, each with
    exactly its sources, if and only if the nonce and all configured sources are ASCII: the
    standard drops a directive that is not.
  */
  lemma BuiltPolicyIsMeant(cfg: Config)
    requires SourcesShaped(cfg)
    ensures IsMapOf(Policy(Join(RenderAll(Meant(cfg)), "; ")), Meant(cfg)) <==> AsciiConfig(cfg)
  {
    hide Policy, Shaped, Meant, Legible, AsciiConfig;
    MeantHasNine(cfg);
    MeantIsShaped(cfg);
    ShapedForAscii(Meant(cfg));
    PolicyOfRendered(Meant(cfg));
    MeantLegible(cfg);
    ReadsAll(Policy(Join(RenderAll(Meant(cfg)), "; ")), Meant(cfg));
  }

  lemma ReadsAll(m: map<string, set<string>>, ds: seq<Directive>)
    requires Reads(m, ds) && forall i, j :: 0 <= i < j < |ds| ==> ds[i].name != ds[j].name
    ensures IsMapOf(m, ds) <==> forall i :: 0 <= i < |ds| ==> Legible(ds[i])
  {
    hide Legible;
    if IsMapOf(m, ds) {
      forall i | 0 <= i < |ds|
        ensures Legible(ds[i])
      {
        assert ds[i].name in m;
        var k :| 0 <= k < |ds| && ds[k].name == ds[i].name && Legible(ds[k]);
        assert k == i;
      }
    }
  }

  /** What a configuration grants, directive by directive. */
  ghost predicate Grants(m: map<string, set<string>>, cfg: Config) {
    && m.Keys == {"base-uri", "connect-src", "default-src", "form-action", "frame-ancestors", "img-src", "object-src",
                  "script-src", "style-src"}
    && m["base-uri"] == m["default-src"] == m["form-action"] == {"'self'"}
    && m["frame-ancestors"] == m["object-src"] == {"'none'"}
    && m["script-src"] == {"'self'"} + (if cfg.nonce == "" then {} else {"'nonce-" + cfg.nonce + "'"})
                          + (if cfg.jsonLd then {"'application/ld+json'"} else {})
    && m["style-src"] == {"'self'"} + (if cfg.styleInline then {"'unsafe-inline'"} else {})
    && m["connect-src"] == {"'self'"} + (if cfg.environment.Development? || cfg.environment.Staging? then {"ws:", "wss:"} else {})
                           + (set t | t in cfg.connectSrc)
    && m["img-src"] == {"'self'", "data:"} + (set t | t in cfg.imgSrc)
  }

  lemma ScriptSet(cfg: Config)
    ensures (set t | t in ScriptSources(cfg)) ==
            {"'self'"} + (if cfg.nonce == "" then {} else {"'nonce-" + cfg.nonce + "'"})
            + (if cfg.jsonLd then {"'application/ld+json'"} else {})
  {
  }

  lemma StyleSet(cfg: Config)
    ensures (set t | t in StyleSources(cfg)) == {"'self'"} + (if cfg.styleInline then {"'unsafe-inline'"} else {})
  {
  }

  lemma ConnectSet(cfg: Config)
    ensures (set t | t in ConnectSources(cfg)) ==
            {"'self'"} + (if cfg.environment.Development? || cfg.environment.Staging? then {"ws:", "wss:"} else {})
            + (set t | t in cfg.connectSrc)
  {
  }

  lemma ImgSet(cfg: Config)
    ensures (set t | t in ImgSources(cfg)) == {"'self'", "data:"} + (set t | t in cfg.imgSrc)
  {
  }

  lemma MeantNames(cfg: Config)
    ensures var ds := Meant(cfg);
      && |ds| == 9
      && ds[0] == Directive("base-uri", ["'self'"]) && ds[1] == Directive("connect-src", ConnectSources(cfg))
      && ds[2] == Directive("default-src", ["'self'"]) && ds[3] == Directive("form-action", ["'self'"])
      && ds[4] == Directive("frame-ancestors", ["'none'"]) && ds[5] == Directive("img-src", ImgSources(cfg))
      && ds[6] == Directive("object-src", ["'none'"]) && ds[7] == Directive("script-src", ScriptSources(cfg))
      && ds[8] == Directive("style-src", StyleSources(cfg))
  {
  }

  /** A map of these nine directives, whatever its source lists. */
  lemma NineEntries(m: map<string, set<string>>, ds: seq<Directive>)
    requires IsMapOf(m, ds) && |ds| == 9
    ensures m.Keys == {ds[0].name, ds[1].name, ds[2].name, ds[3].name, ds[4].name, ds[5].name, ds[6].name, ds[7].name, ds[8].name}
  {
    forall name | name in m
      ensures name in {ds[0].name, ds[1].name, ds[2].name, ds[3].name, ds[4].name, ds[5].name, ds[6].name, ds[7].name, ds[8].name}
    {
      var i :| 0 <= i < |ds| && ds[i].name == name;
    }
  }

  lemma OneSource(s: string)
    ensures (set t | t in [s]) == {s}
  {
  }

  /** The policy that the standard reads from the printed text, source by source. */
  lemma BuiltPolicyGrants(cfg: Config)
    requires SourcesShaped(cfg) && AsciiConfig(cfg)
    ensures Grants(Policy(Join(RenderAll(Meant(cfg)), "; ")), cfg)
  {
    hide Policy, Meant, SourcesShaped, AsciiConfig, ScriptSources, StyleSources, ConnectSources, ImgSources, Join;
    var m, ds := Policy(Join(RenderAll(Meant(cfg)), "; ")), Meant(cfg);
    BuiltPolicyIsMeant(cfg);
    MeantNames(cfg);
    NineEntries(m, ds);
    OneSource("'self'");
    OneSource("'none'");
    ScriptSet(cfg);
    StyleSet(cfg);
    ConnectSet(cfg);
    ImgSet(cfg);
    assert forall i :: 0 <= i < 9 ==> ds[i].name in m && m[ds[i].name] == set t | t in ds[i].sources;
  }

  predicate IsNonce(t: string) {
    |t| >= 7 && t[..7] == "'nonce-"
  }

  predicate Misplaced(name: string, t: string) {
    || (IsNonce(t) && name != "script-src")
    || (t == "'unsafe-inline'" && name != "style-src")
  }

  /**
    What each switch does, in every policy the builder prints: inline styles, web sockets,
    JSON-LD and the nonce are granted exactly when asked for, and where they belong; anything
    else of the kind comes from the caller's own source lists.
  */
  lemma SwitchesGrantExactly(m: map<string, set<string>>, cfg: Config)
    requires Grants(m, cfg)
    ensures "'unsafe-inline'" in m["style-src"] <==> cfg.styleInline
    ensures "ws:" in m["connect-src"] <==> cfg.environment.Development? || cfg.environment.Staging? || "ws:" in cfg.connectSrc
    ensures "wss:" in m["connect-src"] <==> cfg.environment.Development? || cfg.environment.Staging? || "wss:" in cfg.connectSrc
    ensures "'application/ld+json'" in m["script-src"] <==> cfg.jsonLd
    ensures forall t :: IsNonce(t) ==> (t in m["script-src"] <==> cfg.nonce != "" && t == "'nonce-" + cfg.nonce + "'")
    ensures forall name, t :: name in m && t in m[name] && Misplaced(name, t) ==>
              (name == "connect-src" && t in cfg.connectSrc) || (name == "img-src" && t in cfg.imgSrc)
  {
    hide IsNonce;
    Keywords();
    forall t | IsNonce(t)
      ensures t != "'self'" && t != "'none'" && t != "'application/ld+json'" && t != "'unsafe-inline'"
      ensures t != "ws:" && t != "wss:" && t != "data:"
    {
      NonceIsNoKeyword(t);
    }
    OwnNonce(cfg.nonce);
  }

  lemma OwnNonce(nonce: string)
    ensures IsNonce("'nonce-" + nonce + "'")
  {
    var t := "'nonce-" + nonce + "'";
    assert t[..7] == "'nonce-";
  }

  lemma NonceIsNoKeyword(t: string)
    requires IsNonce(t)
    ensures t != "'self'" && t != "'none'" && t != "'application/ld+json'" && t != "'unsafe-inline'"
    ensures t != "ws:" && t != "wss:" && t != "data:"
  {
    Keywords();
    assert t[1] == t[..7][1] == 'n' && t[2] == t[..7][2] == 'o' && t[3] == t[..7][3] == 'n' && t[4] == t[..7][4] == 'c';
  }

  lemma Keywords()
    ensures "'self'"[1] == 's' && "'none'"[4] == 'e' && "'application/ld+json'"[1] == 'a' && "'unsafe-inline'"[1] == 'u'
    ensures |"ws:"| == 3 && |"wss:"| == 4 && |"data:"| == 5 && "'self'"[5] == '\''
  {
  }

  /** The meant policy with the nonce appended to its script sources. */
  function Amended(cfg: Config, nonce: string): seq<Directive> {
    Meant(cfg)[7 := Directive(SCRIPT_SRC, ScriptSources(cfg) + [NonceToken(nonce)])]
  }

  lemma EditingAmends(cfg: Config, nonce: string)
    requires cfg.nonce == "" && SourcesShaped(cfg) && NonceShaped(nonce)
    ensures WithNonce(Join(RenderAll(Meant(cfg)), "; "), nonce) == Join(RenderAll(Amended(cfg, nonce)), "; ")
    ensures Shaped(IsSpace, Amended(cfg, nonce))
  {
    hide LowerAscii, IsSpace, Less, NonceShaped, NonceToken, Fields, Join, Directives, Solid, FirstScriptSrc, ScriptSources;
    var ds, rs, token := Meant(cfg), RenderAll(Meant(cfg)), NonceToken(nonce);
    MeantIsShaped(cfg);
    SpaceIsSpace();
    NonceIsToken(nonce);
    DirectivesOfRendered(IsSpace, ds);
    forall i | 0 <= i < 9
      ensures Fields(IsSpace, rs[i]) == [ds[i].name] + ds[i].sources
    {
      FieldsOfRendered(IsSpace, ds[i]);
    }
    FirstIs(rs, 7);
    var sources := ScriptSources(cfg);
    NonceIsNew(cfg, nonce);
    var d' := Directive(SCRIPT_SRC, sources + [token]);
    FieldsOfRendered(IsSpace, d');
    assert [SCRIPT_SRC] + sources + [token] == [SCRIPT_SRC] + (sources + [token]);
    assert Edited(rs, token) == RenderAll(Amended(cfg, nonce));
  }

  lemma NonceIsNew(cfg: Config, nonce: string)
    requires cfg.nonce == ""
    ensures NonceToken(nonce) !in [SCRIPT_SRC] + ScriptSources(cfg)
  {
    var token := NonceToken(nonce);
    assert token[0] == '\'' && token[1] == 'n';
    assert SELF[1] == 's' && JSON_LD[1] == 'a' && SCRIPT_SRC[1] == 'c';
  }

  /**
    The editor agrees with the builder: adding a nonce to a policy built without one means
    the same policy as building with it, and gives the same text exactly when the JSON-LD
    source is off (the builder puts the nonce before that source, the editor after it).
  */
  lemma EditorAgreesWithBuilder(cfg: Config, nonce: string)
    requires cfg.nonce == "" && nonce != "" && SourcesShaped(cfg) && NonceShaped(nonce)
    ensures var built := Join(RenderAll(Meant(cfg)), "; ");
      var target := Join(RenderAll(Meant(cfg.(nonce := nonce))), "; ");
      && Policy(WithNonce(built, nonce)) == Policy(target)
      && (WithNonce(built, nonce) == target <==> !cfg.jsonLd)
  {
    var a, b := Amended(cfg, nonce), Meant(cfg.(nonce := nonce));
    EditingAmends(cfg, nonce);
    MeantIsShaped(cfg.(nonce := nonce));
    AmendedMeansSame(cfg, nonce);
    SamePolicy(a, b);
    SameText(cfg, nonce);
  }

  lemma AmendedMeansSame(cfg: Config, nonce: string)
    requires cfg.nonce == "" && nonce != ""
    ensures var a, b := Amended(cfg, nonce), Meant(cfg.(nonce := nonce));
      && |a| == |b| == 9
      && forall i :: 0 <= i < 9 ==>
           a[i].name == b[i].name && (set t | t in a[i].sources) == (set t | t in b[i].sources)
  {
  }

  /** Whether a directive can be read depends on its name and the set of its sources alone. */
  lemma SameLegible(a: Directive, b: Directive)
    requires a.name == b.name && (set t | t in a.sources) == (set t | t in b.sources) && Legible(a)
    ensures Legible(b)
  {
    hide Ascii;
    var mine, theirs := set t | t in a.sources, set t | t in b.sources;
    forall i | 0 <= i < |b.sources|
      ensures Ascii(b.sources[i])
    {
      assert b.sources[i] in theirs && b.sources[i] in mine;
    }
  }

  lemma SamePolicy(a: seq<Directive>, b: seq<Directive>)
    requires Shaped(IsSpace, a) && Shaped(IsSpace, b) && |a| == |b|
    requires forall i :: 0 <= i < |a| ==>
               a[i].name == b[i].name && (set t | t in a[i].sources) == (set t | t in b[i].sources)
    ensures Policy(Join(RenderAll(a), "; ")) == Policy(Join(RenderAll(b), "; "))
  {
    hide Policy, Shaped, Legible;
    ShapedForAscii(a);
    ShapedForAscii(b);
    PolicyOfRendered(a);
    PolicyOfRendered(b);
    forall i | 0 <= i < |a|
      ensures Legible(a[i]) <==> Legible(b[i])
    {
      if Legible(a[i]) {
        SameLegible(a[i], b[i]);
      } else if Legible(b[i]) {
        SameLegible(b[i], a[i]);
      }
    }
    SameReading(Policy(Join(RenderAll(a), "; ")), Policy(Join(RenderAll(b), "; ")), a, b);
  }

  lemma SameReading(m: map<string, set<string>>, n: map<string, set<string>>, a: seq<Directive>, b: seq<Directive>)
    requires Reads(m, a) && Reads(n, b) && |a| == |b|
    requires forall i :: 0 <= i < |a| ==>
               a[i].name == b[i].name && (set t | t in a[i].sources) == (set t | t in b[i].sources)
    requires forall i :: 0 <= i < |a| ==> (Legible(a[i]) <==> Legible(b[i]))
    ensures m == n
  {
    hide Legible;
    forall name
      ensures name in m <==> name in n
      ensures name in m ==> m[name] == n[name]
    {
      if name in m {
        var i :| 0 <= i < |a| && a[i].name == name && Legible(a[i]);
        assert b[i].name == name && Legible(b[i]);
      }
      if name in n {
        var i :| 0 <= i < |b| && b[i].name == name && Legible(b[i]);
        assert a[i].name == name && Legible(a[i]);
      }
    }
  }

  lemma SameText(cfg: Config, nonce: string)
    requires cfg.nonce == "" && nonce != ""
    requires Shaped(IsSpace, Amended(cfg, nonce)) && Shaped(IsSpace, Meant(cfg.(nonce := nonce)))
    ensures Join(RenderAll(Amended(cfg, nonce)), "; ") == Join(RenderAll(Meant(cfg.(nonce := nonce))), "; ")
            <==> !cfg.jsonLd
  {
    var a, b := Amended(cfg, nonce), Meant(cfg.(nonce := nonce));
    hide LowerAscii, IsSpace, Less, NonceShaped, Fields, Directives, Join;
    if cfg.jsonLd {
      SpaceIsSpace();
      DirectivesOfRendered(IsSpace, a);
      DirectivesOfRendered(IsSpace, b);
      FieldsOfRendered(IsSpace, a[7]);
      FieldsOfRendered(IsSpace, b[7]);
      assert ([SCRIPT_SRC] + a[7].sources)[2] == JSON_LD;
      assert ([SCRIPT_SRC] + b[7].sources)[2] == NonceToken(nonce);
      assert JSON_LD[1] != NonceToken(nonce)[1];
    } else {
      assert a[7].sources == b[7].sources;
      assert a == b;
    }
  }
}
