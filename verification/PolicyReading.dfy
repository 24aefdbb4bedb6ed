/**
  What adding a nonce means to a reader that follows section 2.2.1 of Content Security
  Policy Level 3, for any serialized policy: the reader skips directives that are not ASCII,
  takes directive names in any case and keeps the first directive of a name; the editor looks
  for the lower-case spelling.
*/
module PolicyReading {
  import opened Text
  import opened Csp

  /** All white space in the text is ASCII, so the editor and the standard see the same. */
  predicate AsciiSpaced(s: string) {
    forall i :: 0 <= i < |s| && IsSpace(s[i]) ==> AsciiSpace(s[i])
  }

  // ---------------------------------------------------------------------------
  // The two notions of white space agree on such texts
  // ---------------------------------------------------------------------------

  lemma {:induction false} SameTrimLeft(s: string)
    requires AsciiSpaced(s)
    ensures TrimLeft(IsSpace, s) == TrimLeft(AsciiSpace, s) && AsciiSpaced(TrimLeft(IsSpace, s))
  {
    hide IsSpace, AsciiSpace;
    SpaceIsSpace();
    if s != "" && IsSpace(s[0]) {
      SameTrimLeft(s[1..]);
    }
  }

  lemma {:induction false} SameTrimRight(s: string)
    requires AsciiSpaced(s)
    ensures TrimRight(IsSpace, s) == TrimRight(AsciiSpace, s) && AsciiSpaced(TrimRight(IsSpace, s))
  {
    hide IsSpace, AsciiSpace;
    SpaceIsSpace();
    if s != "" && IsSpace(s[|s| - 1]) {
      SameTrimRight(s[..|s| - 1]);
    }
  }

  lemma {:induction false} SameTrimmed(pieces: seq<string>)
    requires forall i :: 0 <= i < |pieces| ==> AsciiSpaced(pieces[i])
    ensures Trimmed(IsSpace, pieces) == Trimmed(AsciiSpace, pieces)
    ensures forall i :: 0 <= i < |Trimmed(IsSpace, pieces)| ==> AsciiSpaced(Trimmed(IsSpace, pieces)[i])
  {
    hide AsciiSpaced, IsSpace, AsciiSpace;
    if pieces != [] {
      SameTrimLeft(pieces[0]);
      SameTrimRight(TrimLeft(IsSpace, pieces[0]));
      SameTrimmed(pieces[1..]);
    }
  }

  lemma {:induction false} SplitAsciiSpaced(s: string, sep: char)
    requires AsciiSpaced(s)
    ensures forall i :: 0 <= i < |Split(s, sep)| ==> AsciiSpaced(Split(s, sep)[i])
  {
    hide IsSpace, AsciiSpace;
    if s != "" {
      SplitAsciiSpaced(s[1..], sep);
    }
  }

  lemma SameDirectives(csp: string)
    requires AsciiSpaced(csp)
    ensures Directives(IsSpace, csp) == Directives(AsciiSpace, csp)
    ensures forall i :: 0 <= i < |Directives(IsSpace, csp)| ==> AsciiSpaced(Directives(IsSpace, csp)[i])
  {
    SplitAsciiSpaced(csp, ';');
    SameTrimmed(Split(csp, ';'));
  }

  lemma {:induction false} SameWordLength(s: string)
    requires AsciiSpaced(s)
    ensures WordLength(IsSpace, s) == WordLength(AsciiSpace, s)
  {
    hide IsSpace, AsciiSpace;
    SpaceIsSpace();
    if s != "" && !IsSpace(s[0]) {
      SameWordLength(s[1..]);
    }
  }

  lemma {:induction false} SameFields(s: string)
    requires AsciiSpaced(s)
    ensures Fields(IsSpace, s) == Fields(AsciiSpace, s)
    decreases |s|
  {
    hide IsSpace, AsciiSpace;
    SpaceIsSpace();
    if s != "" {
      if IsSpace(s[0]) {
        SameFields(s[1..]);
      } else {
        SameWordLength(s);
        SameFields(s[WordLength(IsSpace, s)..]);
      }
    }
  }

  // ---------------------------------------------------------------------------
  // The directive set keeps the first directive of each name
  // ---------------------------------------------------------------------------

  /** The standard keeps this directive under this name, if none before it has the name. */
  predicate HasName(d: string, name: string) {
    var parts := Fields(AsciiSpace, d);
    parts != [] && Ascii(d) && LowerAscii(parts[0]) == name
  }

  function SourcesOf(d: string): set<string> {
    var parts := Fields(AsciiSpace, d);
    if parts == [] then {} else set t | t in parts[1..]
  }

  function FirstNamed(ds: seq<string>, name: string): (i: nat)
    ensures i <= |ds|
    ensures i < |ds| ==> HasName(ds[i], name)
    ensures forall j :: 0 <= j < i ==> !HasName(ds[j], name)
  {
    if ds == [] || HasName(ds[0], name) then 0 else 1 + FirstNamed(ds[1..], name)
  }

  lemma {:induction false} FirstNamedIs(ds: seq<string>, name: string, i: nat)
    requires i <= |ds| && (i < |ds| ==> HasName(ds[i], name)) && forall j :: 0 <= j < i ==> !HasName(ds[j], name)
    ensures FirstNamed(ds, name) == i
  {
    hide HasName;
  }

  lemma {:induction false} SetKeepsFirst(ds: seq<string>, name: string)
    ensures var m, i := DirectiveSet(ds), FirstNamed(ds, name);
      && (name in m <==> i < |ds|)
      && (name in m ==> m[name] == SourcesOf(ds[i]))
  {
    hide Fields, LowerAscii, FirstNamed, Ascii;
    if ds != [] {
      var n := |ds| - 1;
      var k := FirstNamed(ds[..n], name);
      SetKeepsFirst(ds[..n], name);
      FirstOfPrefix(ds, name);
      var parts := Fields(AsciiSpace, ds[n]);
      if parts != [] {
        SetKeepsFirst(ds[..n], LowerAscii(parts[0]));
      }
    }
  }

  lemma FirstOfPrefix(ds: seq<string>, name: string)
    requires ds != []
    ensures var n := |ds| - 1; var k := FirstNamed(ds[..n], name);
      FirstNamed(ds, name) == if k < n then k else if HasName(ds[n], name) then n else |ds|
  {
    hide HasName, FirstNamed;
    var n := |ds| - 1;
    var k := FirstNamed(ds[..n], name);
    assert forall j :: 0 <= j < n ==> ds[..n][j] == ds[j];
    FirstNamedIs(ds, name, if k < n then k else if HasName(ds[n], name) then n else |ds|);
  }

  // ---------------------------------------------------------------------------
  // What the edit means
  // ---------------------------------------------------------------------------

  /** What a caller wants: the token among the script sources, if there is a script-src at all. */
  function WithToken(m: map<string, set<string>>, token: string): map<string, set<string>> {
    if SCRIPT_SRC in m then m[SCRIPT_SRC := m[SCRIPT_SRC] + {token}] else m
  }

  lemma ScriptSrcIsLower()
    ensures LowerAscii(SCRIPT_SRC) == SCRIPT_SRC
  {
    NamesArePlain();
    PlainNameIsShaped(SCRIPT_SRC);
  }

  lemma ExactIsNamed(d: string)
    requires AsciiSpaced(d) && IsScriptSrc(d) && Ascii(d)
    ensures HasName(d, SCRIPT_SRC)
  {
    hide Fields, LowerAscii, Ascii;
    SameFields(d);
    ScriptSrcIsLower();
  }

  /** The second directive is the first one with the token added: same name, one more source. */
  ghost predicate Amends(d: string, e: string, token: string) {
    && (forall name :: HasName(e, name) <==> HasName(d, name))
    && SourcesOf(e) == SourcesOf(d) + {token}
  }

  /** The characters of a text are its white space and those of its fields. */
  lemma {:induction false} AsciiFields(s: string)
    requires AsciiSpaced(s)
    ensures Ascii(s) <==> AllAscii(Fields(IsSpace, s))
    decreases |s|
  {
    hide IsSpace;
    if s != "" {
      if IsSpace(s[0]) {
        assert AsciiSpace(s[0]);
        AsciiSpaceIsAscii(s[0]);
        AsciiFields(s[1..]);
        assert s == [s[0]] + s[1..];
        AsciiConcat([s[0]], s[1..]);
        assert Ascii([s[0]]);
      } else {
        var n := WordLength(IsSpace, s);
        AsciiFields(s[n..]);
        assert s == s[..n] + s[n..];
        AsciiConcat(s[..n], s[n..]);
        AllAsciiConcat([s[..n]], Fields(IsSpace, s[n..]));
        AllAsciiOne(s[..n]);
      }
    }
  }

  lemma AllAsciiOne(s: string)
    ensures AllAscii([s]) <==> Ascii(s)
  {
    assert [s][0] == s;
  }

  lemma AsciiSpaceIsAscii(c: char)
    ensures AsciiSpace(c) ==> c < '\U{80}'
  {
  }

  /** The edited directive is ASCII exactly when it was and the nonce is. */
  lemma EditedAscii(d: string, nonce: string)
    requires AsciiSpaced(d)
    ensures Ascii(WithSource(d, NonceToken(nonce))) <==> Ascii(d) && Ascii(nonce)
  {
    hide IsSpace, Fields, Join, Ascii, NonceToken;
    var parts, token := Fields(IsSpace, d), NonceToken(nonce);
    AsciiFields(d);
    NonceTokenAscii(nonce);
    if token in parts {
      var k :| 0 <= k < |parts| && parts[k] == token;
      assert AllAscii(parts) ==> Ascii(parts[k]);
    } else {
      AsciiJoin(parts + [token]);
      AllAsciiConcat(parts, [token]);
      AllAsciiOne(token);
    }
  }

  /** A directive with an ASCII token added has the same name, and the token among its sources. */
  lemma AddedToken(d: string, nonce: string)
    requires AsciiSpaced(d) && Solid(IsSpace, d) && Free(d, ';') && IsScriptSrc(d) && NonceShaped(nonce)
    requires Ascii(d) && Ascii(nonce)
    ensures Amends(d, WithSource(d, NonceToken(nonce)), NonceToken(nonce))
  {
    hide IsSpace, AsciiSpace, Fields, Join, LowerAscii, NonceShaped, NonceToken, Token, Ascii;
    var token := NonceToken(nonce);
    NonceIsToken(nonce);
    SameFields(d);
    EditedAscii(d, nonce);
    var parts := Fields(IsSpace, d);
    NonceIsNoName(nonce);
    if token in parts {
      assert token in parts[1..];
    } else {
      FieldsAreTokens(IsSpace, d);
      TokensForAscii(parts + [token]);
      SpaceIsSpace();
      FieldsOfJoin(AsciiSpace, parts + [token]);
      assert (parts + [token])[1..] == parts[1..] + [token];
    }
  }

  lemma NonceIsNoName(nonce: string)
    ensures NonceToken(nonce) != SCRIPT_SRC
  {
    assert NonceToken(nonce)[0] == '\'';
  }

  lemma TokensForAscii(ts: seq<string>)
    requires Tokens(IsSpace, ts)
    ensures Tokens(AsciiSpace, ts)
  {
    SpaceIsSpace();
  }

  lemma CleanForAscii(ds: seq<string>)
    requires Clean(IsSpace, ds)
    ensures Clean(AsciiSpace, ds)
  {
    SpaceIsSpace();
  }

  /** The standard's directives of the edited text are the edited directives. */
  lemma ReadEdited(csp: string, nonce: string)
    requires AsciiSpaced(csp) && NonceShaped(nonce)
    ensures Policy(csp) == DirectiveSet(Directives(IsSpace, csp))
    ensures Policy(WithNonce(csp, nonce)) == DirectiveSet(Edited(Directives(IsSpace, csp), NonceToken(nonce)))
  {
    hide IsSpace, AsciiSpace, Directives, DirectiveSet, Clean, Edited, NonceToken, NonceShaped;
    var ds := Directives(IsSpace, csp);
    SameDirectives(csp);
    DirectivesAreClean(IsSpace, csp);
    EditedIsClean(ds, nonce);
    CleanForAscii(Edited(ds, NonceToken(nonce)));
    SpaceIsSpace();
    DirectivesOfJoin(AsciiSpace, Edited(ds, NonceToken(nonce)));
  }

  /** Replacing one directive by an amended one moves no first directive. */
  lemma FirstsStay(ds: seq<string>, i: nat, e: string, token: string, name: string)
    requires i < |ds| && Amends(ds[i], e, token)
    ensures FirstNamed(ds[i := e], name) == FirstNamed(ds, name)
  {
    hide HasName, FirstNamed, SourcesOf;
    FirstNamedIs(ds[i := e], name, FirstNamed(ds, name));
  }

  /** What the reader sees of one amended directive. */
  lemma SetOfReplaced(ds: seq<string>, i: nat, e: string, token: string)
    requires i < |ds| && HasName(ds[i], SCRIPT_SRC) && Amends(ds[i], e, token)
    ensures DirectiveSet(ds[i := e]) ==
            if FirstNamed(ds, SCRIPT_SRC) == i then WithToken(DirectiveSet(ds), token) else DirectiveSet(ds)
  {
    hide HasName, FirstNamed, DirectiveSet, SourcesOf;
    var amended := ds[i := e];
    var m, n := DirectiveSet(ds), DirectiveSet(amended);
    forall name
      ensures name in m <==> name in n
      ensures name in m ==>
        n[name] == if name == SCRIPT_SRC && FirstNamed(ds, SCRIPT_SRC) == i then m[name] + {token} else m[name]
    {
      FirstsStay(ds, i, e, token, name);
      SetKeepsFirst(ds, name);
      SetKeepsFirst(amended, name);
      if FirstNamed(ds, name) == i {
        OneName(ds[i], name, SCRIPT_SRC);
      }
    }
    SetKeepsFirst(ds, SCRIPT_SRC);
  }

  lemma OneName(d: string, a: string, b: string)
    requires HasName(d, a) && HasName(d, b)
    ensures a == b
  {
  }

  function Without(ds: seq<string>, i: nat): seq<string>
    requires i < |ds|
  {
    ds[..i] + ds[i + 1..]
  }

  /** A directive that is not ASCII might as well not be there. */
  lemma {:induction false} IllegibleIsSkipped(ds: seq<string>, i: nat)
    requires i < |ds| && !Ascii(ds[i])
    ensures DirectiveSet(ds) == DirectiveSet(Without(ds, i))
  {
    hide Ascii, Fields, LowerAscii;
    var n := |ds| - 1;
    if i < n {
      var rest := Without(ds, i);
      IllegibleIsSkipped(ds[..n], i);
      assert rest[..|rest| - 1] == Without(ds[..n], i) && rest[|rest| - 1] == ds[n];
    } else {
      assert Without(ds, i) == ds[..n];
    }
  }

  /** To the reader, an edit that leaves the directive outside ASCII takes it out of the policy. */
  lemma SetOfSpoiled(ds: seq<string>, i: nat, e: string)
    requires i < |ds| && !Ascii(e)
    ensures DirectiveSet(ds[i := e]) == DirectiveSet(Without(ds, i))
  {
    hide Ascii, DirectiveSet;
    IllegibleIsSkipped(ds[i := e], i);
    assert Without(ds[i := e], i) == Without(ds, i);
  }

  /** What the reader sees of a policy after the editor is done, e being the directive edited, if any. */
  function ReadAfter(ds: seq<string>, e: nat, nonce: string): map<string, set<string>>
    requires e <= |ds|
  {
    if e == |ds| then DirectiveSet(ds)
    else if !Ascii(nonce) then DirectiveSet(Without(ds, e))
    else if FirstNamed(ds, SCRIPT_SRC) == e then WithToken(DirectiveSet(ds), NonceToken(nonce))
    else DirectiveSet(ds)
  }

  /**
    For every serialized policy whose white space is ASCII and every nonce that prints as one
    token: with a nonce outside ASCII the reader loses the edited directive; with an ASCII one
    it gains the token exactly in the script-src it keeps, if that is the one edited.
  */
  lemma EditAsRead(csp: string, nonce: string)
    requires AsciiSpaced(csp) && NonceShaped(nonce)
    ensures var ds := Directives(IsSpace, csp);
      Policy(csp) == DirectiveSet(ds) && Policy(WithNonce(csp, nonce)) == ReadAfter(ds, FirstScriptSrc(ds), nonce)
  {
    hide IsSpace, AsciiSpace, AsciiSpaced, Directives, DirectiveSet, NonceToken, NonceShaped, IsScriptSrc, HasName, Ascii;
    hide SourcesOf, FirstNamed, FirstScriptSrc, WithSource, Policy, WithNonce, Solid, Amends, WithToken, Without;
    var ds, token := Directives(IsSpace, csp), NonceToken(nonce);
    var e := FirstScriptSrc(ds);
    ReadEdited(csp, nonce);
    SameDirectives(csp);
    if e < |ds| {
      var edited := WithSource(ds[e], token);
      DirectivesAreClean(IsSpace, csp);
      EditedAscii(ds[e], nonce);
      if !Ascii(edited) {
        SetOfSpoiled(ds, e, edited);
      }
      if Ascii(ds[e]) {
        ExactIsNamed(ds[e]);
        if Ascii(nonce) {
          AddedToken(ds[e], nonce);
          SetOfReplaced(ds, e, edited, token);
        }
      } else {
        IllegibleIsSkipped(ds, e);
        IllegibleIsNotNamed(ds, e);
      }
    }
  }

  lemma IllegibleIsNotNamed(ds: seq<string>, i: nat)
    requires i < |ds| && !Ascii(ds[i])
    ensures FirstNamed(ds, SCRIPT_SRC) != i
  {
    hide Ascii;
  }

  lemma {:induction false} FieldsOfAscii(space: char -> bool, s: string)
    requires Ascii(s)
    ensures AllAscii(Fields(space, s))
    decreases |s|
  {
    if s != "" {
      if space(s[0]) {
        FieldsOfAscii(space, s[1..]);
      } else {
        FieldsOfAscii(space, s[WordLength(space, s)..]);
      }
    }
  }

  /** What the reader keeps is ASCII, so a token that is not never gets there. */
  lemma NoForeignToken(ds: seq<string>, token: string)
    requires !Ascii(token) && SCRIPT_SRC in DirectiveSet(ds)
    ensures token !in DirectiveSet(ds)[SCRIPT_SRC]
  {
    hide Ascii, Fields, LowerAscii, DirectiveSet;
    SetKeepsFirst(ds, SCRIPT_SRC);
    var d := ds[FirstNamed(ds, SCRIPT_SRC)];
    FieldsOfAscii(AsciiSpace, d);
  }

  /**
    The edit adds the token to the script sources that the reader sees, and changes nothing
    else there, exactly when the first ASCII directive named script-src in any case is the one
    the editor edits and the nonce is ASCII, or it has the token already, or there is none.
  */
  lemma NonceReachesReaderExactly(csp: string, nonce: string)
    requires AsciiSpaced(csp) && NonceShaped(nonce)
    ensures var ds, token := Directives(IsSpace, csp), NonceToken(nonce);
      var j, e := FirstNamed(ds, SCRIPT_SRC), FirstScriptSrc(ds);
      Policy(WithNonce(csp, nonce)) == WithToken(Policy(csp), token)
      <==> j == |ds| || (j == e && Ascii(nonce)) || token in SourcesOf(ds[j])
  {
    hide IsSpace, AsciiSpace, AsciiSpaced, Directives, DirectiveSet, NonceToken, NonceShaped, IsScriptSrc, HasName, Ascii;
    hide SourcesOf, FirstNamed, FirstScriptSrc, Policy, WithNonce, Without;
    var ds, token := Directives(IsSpace, csp), NonceToken(nonce);
    var j, e, m := FirstNamed(ds, SCRIPT_SRC), FirstScriptSrc(ds), DirectiveSet(ds);
    EditAsRead(csp, nonce);
    SetKeepsFirst(ds, SCRIPT_SRC);
    NonceTokenAscii(nonce);
    if j < |ds| && token in SourcesOf(ds[j]) {
      assert m[SCRIPT_SRC] + {token} == m[SCRIPT_SRC];
      assert WithToken(m, token) == m;
    }
    if !Ascii(nonce) {
      if e < |ds| && j == |ds| && Ascii(ds[e]) {
        SameDirectives(csp);
        ExactIsNamed(ds[e]);
      }
      ForeignNonce(ds, e, nonce);
    } else if j < |ds| && j != e && token !in SourcesOf(ds[j]) {
      assert WithToken(m, token)[SCRIPT_SRC] != m[SCRIPT_SRC];
    }
  }

  /** With a nonce outside ASCII the reader never sees the token. */
  lemma ForeignNonce(ds: seq<string>, e: nat, nonce: string)
    requires e <= |ds| && !Ascii(nonce)
    requires e < |ds| && FirstNamed(ds, SCRIPT_SRC) == |ds| ==> !Ascii(ds[e])
    ensures var m, after, j := DirectiveSet(ds), ReadAfter(ds, e, nonce), FirstNamed(ds, SCRIPT_SRC);
      && (j < |ds| ==> NonceToken(nonce) !in SourcesOf(ds[j]))
      && (after == WithToken(m, NonceToken(nonce)) <==> j == |ds|)
  {
    hide DirectiveSet, NonceToken, HasName, Ascii, SourcesOf, FirstNamed, Without;
    var after, j, token := ReadAfter(ds, e, nonce), FirstNamed(ds, SCRIPT_SRC), NonceToken(nonce);
    NonceTokenAscii(nonce);
    SetKeepsFirst(ds, SCRIPT_SRC);
    if j < |ds| {
      NoForeignToken(ds, token);
      if SCRIPT_SRC in after {
        NoForeignToken(if e == |ds| then ds else Without(ds, e), token);
      }
    } else if e < |ds| {
      IllegibleIsSkipped(ds, e);
    }
  }

  // ---------------------------------------------------------------------------
  // Three policies
  // ---------------------------------------------------------------------------

  /** A directive of a name and one source. */
  function Pair(name: string, source: string): string {
    Join([name, source], " ")
  }

  lemma PairRead(name: string, source: string)
    requires Token(IsSpace, name) && Token(IsSpace, source)
    ensures var d := Pair(name, source);
      && Solid(IsSpace, d) && Free(d, ';') && AsciiSpaced(d)
      && (IsScriptSrc(d) <==> name == SCRIPT_SRC)
      && (Ascii(d) <==> Ascii(name) && Ascii(source))
      && (forall n :: HasName(d, n) <==> Ascii(d) && LowerAscii(name) == n)
      && SourcesOf(d) == {source}
  {
    hide IsSpace, AsciiSpace, Fields, LowerAscii, Solid, Ascii, Join, Token;
    var parts, d := [name, source], Pair(name, source);
    assert Tokens(IsSpace, parts);
    TokensForAscii(parts);
    SpaceIsSpace();
    FieldsOfJoin(IsSpace, parts);
    FieldsOfJoin(AsciiSpace, parts);
    JoinOfTokens(IsSpace, parts);
    AsciiJoin(parts);
    PairSpaced(name, source);
    assert parts[1..] == [source];
    assert AllAscii(parts) <==> Ascii(name) && Ascii(source) by {
      assert parts[0] == name && parts[1] == source;
    }
  }

  lemma PairSpaced(name: string, source: string)
    requires Token(IsSpace, name) && Token(IsSpace, source)
    ensures AsciiSpaced(Pair(name, source))
  {
    hide IsSpace, AsciiSpace;
    SpaceIsSpace();
    assert [name, source][1..] == [source];
    JoinOne(source);
    assert Pair(name, source) == name + " " + source;
  }

  const MIXED_CASE := "Script-Src"
  const E_ACUTE := "\U{E9}"

  lemma PartsAreTokens()
    ensures Token(IsSpace, MIXED_CASE) && Token(IsSpace, SCRIPT_SRC) && Token(IsSpace, SELF) && Token(IsSpace, E_ACUTE)
    ensures Ascii(MIXED_CASE) && Ascii(SCRIPT_SRC) && Ascii(SELF) && !Ascii(E_ACUTE)
    ensures LowerAscii(MIXED_CASE) == SCRIPT_SRC && MIXED_CASE != SCRIPT_SRC
  {
    assert Visible(MIXED_CASE);
    VisibleIsToken(MIXED_CASE);
    NamesArePlain();
    PlainNameIsShaped(SCRIPT_SRC);
    PlainNameIsAscii(SCRIPT_SRC);
    KeywordsAreTokens();
    KeywordsAreAscii();
    assert E_ACUTE[0] == '\U{E9}';
    assert MIXED_CASE[0] == 'S' && SCRIPT_SRC[0] == 's';
  }

  lemma SelfIsNoNonce(nonce: string)
    ensures NonceToken(nonce) != SELF
  {
    assert NonceToken(nonce)[1] == 'n' && SELF[1] == 's';
  }

  /** The policy `Script-Src 'self'`: the reader has its script-src, and no nonce ever gets there. */
  lemma MixedCaseMissesNonce(nonce: string)
    requires NonceShaped(nonce)
    ensures var csp := Pair(MIXED_CASE, SELF);
      && SCRIPT_SRC in Policy(csp) && Policy(csp)[SCRIPT_SRC] == {SELF}
      && Policy(WithNonce(csp, nonce)) != WithToken(Policy(csp), NonceToken(nonce))
  {
    hide IsSpace, NonceToken, Directives, DirectiveSet, IsScriptSrc, HasName, SourcesOf, WithNonce, NonceShaped, Pair, WithToken;
    hide Token, Solid, Ascii, LowerAscii;
    var csp := Pair(MIXED_CASE, SELF);
    PartsAreTokens();
    PairRead(MIXED_CASE, SELF);
    DirectivesOfOne(IsSpace, csp);
    SelfIsNoNonce(nonce);
    FirstNamedIs([csp], SCRIPT_SRC, 0);
    SetKeepsFirst([csp], SCRIPT_SRC);
    ReadEdited(csp, nonce);
    NonceReachesReaderExactly(csp, nonce);
  }

  /**
    The policy `script-src \u00e9; script-src 'self'`: the reader drops the first directive and
    keeps the second, the editor amends the first.
  */
  lemma ForeignDirectiveTakesNonce(nonce: string)
    requires NonceShaped(nonce) && Ascii(nonce)
    ensures var csp := Join([Pair(SCRIPT_SRC, E_ACUTE), Pair(SCRIPT_SRC, SELF)], "; ");
      && SCRIPT_SRC in Policy(csp) && Policy(csp)[SCRIPT_SRC] == {SELF}
      && Policy(WithNonce(csp, nonce)) == Policy(csp)
  {
    hide IsSpace, NonceToken, Directives, DirectiveSet, IsScriptSrc, HasName, SourcesOf, WithNonce, NonceShaped, Pair, WithToken;
    hide Token, Solid, Ascii, LowerAscii, Join, AsciiSpaced, Policy, FirstNamed, FirstScriptSrc;
    var ds := [Pair(SCRIPT_SRC, E_ACUTE), Pair(SCRIPT_SRC, SELF)];
    var csp := Join(ds, "; ");
    PartsAreTokens();
    ScriptSrcIsLower();
    PairRead(SCRIPT_SRC, E_ACUTE);
    PairRead(SCRIPT_SRC, SELF);
    SpaceIsSpace();
    DirectivesOfJoin(IsSpace, ds);
    JoinedIsSpaced(ds[0], ds[1]);
    FirstIs(ds, 0);
    FirstNamedIs(ds, SCRIPT_SRC, 1);
    SetKeepsFirst(ds, SCRIPT_SRC);
    EditAsRead(csp, nonce);
  }

  lemma JoinedIsSpaced(a: string, b: string)
    requires AsciiSpaced(a) && AsciiSpaced(b)
    ensures AsciiSpaced(Join([a, b], "; "))
  {
    hide IsSpace, AsciiSpace;
    SpaceIsSpace();
    assert [a, b][1..] == [b];
    assert Join([a, b], "; ") == a + "; " + b;
    assert !IsSpace(';') by {
      SemicolonIsNoSpace();
    }
  }

  lemma SemicolonIsNoSpace()
    ensures !IsSpace(';')
  {
  }

  /** The policy `script-src 'self'` and a nonce outside ASCII: the reader is left without script-src. */
  lemma ForeignNonceDropsDirective(nonce: string)
    requires NonceShaped(nonce) && !Ascii(nonce)
    ensures var csp := Pair(SCRIPT_SRC, SELF);
      && SCRIPT_SRC in Policy(csp) && Policy(csp)[SCRIPT_SRC] == {SELF}
      && SCRIPT_SRC !in Policy(WithNonce(csp, nonce))
  {
    hide IsSpace, NonceToken, Directives, IsScriptSrc, HasName, SourcesOf, WithNonce, NonceShaped, Pair, WithToken;
    hide Token, Solid, Ascii, LowerAscii, FirstScriptSrc;
    var csp := Pair(SCRIPT_SRC, SELF);
    PartsAreTokens();
    ScriptSrcIsLower();
    PairRead(SCRIPT_SRC, SELF);
    DirectivesOfOne(IsSpace, csp);
    FirstIs([csp], 0);
    FirstNamedIs([csp], SCRIPT_SRC, 0);
    SetKeepsFirst([csp], SCRIPT_SRC);
    EditAsRead(csp, nonce);
    assert Without([csp], 0) == [];
  }
}
