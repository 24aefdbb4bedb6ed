/**
  The string operations the modelled code calls: splitting, joining, trimming, white
  space and the order of strings.
*/
module Text {
  import opened Sorting

  /** White space as Go's unicode.IsSpace counts it. */
  predicate IsSpace(c: char) {
    || c in {'\t', '\n', '\U{0B}', '\U{0C}', '\r', ' ', '\U{85}', '\U{A0}', '\U{1680}'}
    || '\U{2000}' <= c <= '\U{200A}'
    || c in {'\U{2028}', '\U{2029}', '\U{202F}', '\U{205F}', '\U{3000}'}
  }

  function Split(s: string, sep: char): (parts: seq<string>)
    ensures parts != []
  {
    if s == "" then [""]
    else
      var rest := Split(s[1..], sep);
      if s[0] == sep then [""] + rest else [[s[0]] + rest[0]] + rest[1..]
  }

  function Join(parts: seq<string>, sep: string): string {
    if parts == [] then ""
    else if |parts| == 1 then parts[0]
    else parts[0] + sep + Join(parts[1..], sep)
  }

  function TrimLeft(space: char -> bool, s: string): string {
    if s != "" && space(s[0]) then TrimLeft(space, s[1..]) else s
  }

  function TrimRight(space: char -> bool, s: string): string {
    if s != "" && space(s[|s| - 1]) then TrimRight(space, s[..|s| - 1]) else s
  }

  function Trim(space: char -> bool, s: string): string {
    TrimRight(space, TrimLeft(space, s))
  }

  /** The length of the run of non-space characters at the start of s. */
  function WordLength(space: char -> bool, s: string): (n: nat)
    ensures n <= |s|
    ensures forall i :: 0 <= i < n ==> !space(s[i])
    ensures n < |s| ==> space(s[n])
  {
    if s == "" || space(s[0]) then 0 else 1 + WordLength(space, s[1..])
  }

  /** The maximal runs of non-space characters. */
  function Fields(space: char -> bool, s: string): seq<string>
    decreases |s|
  {
    if s == "" then []
    else if space(s[0]) then Fields(space, s[1..])
    else
      var n := WordLength(space, s);
      [s[..n]] + Fields(space, s[n..])
  }

  /** A piece that survives printing and splitting: not empty, free of space and of `;`. */
  predicate Token(space: char -> bool, s: string) {
    s != "" && forall i :: 0 <= i < |s| ==> !space(s[i]) && s[i] != ';'
  }

  predicate Tokens(space: char -> bool, ts: seq<string>) {
    forall i :: 0 <= i < |ts| ==> Token(space, ts[i])
  }

  predicate Free(s: string, c: char) {
    forall i :: 0 <= i < |s| ==> s[i] != c
  }

  /** Byte order of UTF-8 text, which is code point order. */
  predicate Less(a: string, b: string) {
    if b == "" then false
    else if a == "" then true
    else a[0] < b[0] || (a[0] == b[0] && Less(a[1..], b[1..]))
  }

  lemma {:induction false} LessIrreflexive(a: string)
    ensures !Less(a, a)
  {
    if a != "" {
      LessIrreflexive(a[1..]);
    }
  }

  lemma {:induction false} LessTransitive(a: string, b: string, c: string)
    requires Less(a, b) && Less(b, c)
    ensures Less(a, c)
  {
    if a != "" && a[0] == b[0] == c[0] {
      LessTransitive(a[1..], b[1..], c[1..]);
    }
  }

  lemma {:induction false} LessTotal(a: string, b: string)
    ensures a == b || Less(a, b) || Less(b, a)
  {
    if a != "" && b != "" && a[0] == b[0] {
      LessTotal(a[1..], b[1..]);
      assert a == [a[0]] + a[1..] && b == [b[0]] + b[1..];
    }
  }

  lemma LessIsStrictOrder()
    ensures StrictOrder(Less)
  {
    forall a, b, c
      ensures !Less(a, a)
      ensures Less(a, b) && Less(b, c) ==> Less(a, c)
      ensures a == b || Less(a, b) || Less(b, a)
    {
      LessIrreflexive(a);
      if Less(a, b) && Less(b, c) {
        LessTransitive(a, b, c);
      }
      LessTotal(a, b);
    }
  }

  lemma {:induction false} SplitConcat(a: string, b: string, sep: char)
    ensures Split(a + [sep] + b, sep) == Split(a, sep) + Split(b, sep)
  {
    if a == "" {
      assert ([sep] + b)[1..] == b;
      assert a + [sep] + b == [sep] + b;
    } else {
      assert (a + [sep] + b)[1..] == a[1..] + [sep] + b;
      SplitConcat(a[1..], b, sep);
    }
  }

  lemma {:induction false} SplitFree(s: string, sep: char)
    requires Free(s, sep)
    ensures Split(s, sep) == [s]
  {
    if s != "" {
      SplitFree(s[1..], sep);
      assert s == [s[0]] + s[1..];
    }
  }

  lemma {:induction false} SplitPiecesFree(s: string, sep: char)
    ensures forall i :: 0 <= i < |Split(s, sep)| ==> Free(Split(s, sep)[i], sep)
  {
    if s != "" {
      SplitPiecesFree(s[1..], sep);
    }
  }

  // ---------------------------------------------------------------------------
  // Trimming
  // ---------------------------------------------------------------------------

  /** Not empty, and no white space at either end. */
  predicate Solid(space: char -> bool, s: string) {
    s != "" && !space(s[0]) && !space(s[|s| - 1])
  }

  lemma SolidIsTrimmed(space: char -> bool, s: string)
    requires Solid(space, s)
    ensures Trim(space, s) == s
  {
  }

  lemma {:induction false} TrimLeftMeaning(space: char -> bool, s: string, c: char)
    ensures var t := TrimLeft(space, s);
      && (t != "" ==> !space(t[0]))
      && (Free(s, c) ==> Free(t, c))
  {
    if s != "" && space(s[0]) {
      TrimLeftMeaning(space, s[1..], c);
    }
  }

  lemma {:induction false} TrimRightMeaning(space: char -> bool, s: string, c: char)
    ensures var t := TrimRight(space, s);
      && t <= s
      && (t != "" ==> !space(t[|t| - 1]))
      && (Free(s, c) ==> Free(t, c))
  {
    if s != "" && space(s[|s| - 1]) {
      TrimRightMeaning(space, s[..|s| - 1], c);
    }
  }

  lemma TrimMeaning(space: char -> bool, s: string, c: char)
    ensures var t := Trim(space, s);
      && (t != "" ==> Solid(space, t))
      && (Free(s, c) ==> Free(t, c))
  {
    TrimLeftMeaning(space, s, c);
    TrimRightMeaning(space, TrimLeft(space, s), c);
  }

  predicate AllSpace(space: char -> bool, s: string) {
    forall i :: 0 <= i < |s| ==> space(s[i])
  }

  lemma {:induction false} TrimLeftCuts(space: char -> bool, s: string) returns (head: string)
    ensures s == head + TrimLeft(space, s) && AllSpace(space, head)
  {
    head := "";
    if s != "" && space(s[0]) {
      head := TrimLeftCuts(space, s[1..]);
      head := [s[0]] + head;
      assert s == [s[0]] + s[1..];
    }
  }

  lemma {:induction false} TrimRightCuts(space: char -> bool, s: string) returns (tail: string)
    ensures s == TrimRight(space, s) + tail && AllSpace(space, tail)
  {
    tail := "";
    if s != "" && space(s[|s| - 1]) {
      var n := |s| - 1;
      tail := TrimRightCuts(space, s[..n]);
      tail := tail + [s[n]];
      assert s == s[..n] + [s[n]];
    }
  }

  /** Trimming cuts white space off both ends and nothing else. */
  lemma TrimCuts(space: char -> bool, s: string) returns (head: string, tail: string)
    ensures s == head + Trim(space, s) + tail && AllSpace(space, head) && AllSpace(space, tail)
  {
    head := TrimLeftCuts(space, s);
    tail := TrimRightCuts(space, TrimLeft(space, s));
    assert head + (Trim(space, s) + tail) == head + Trim(space, s) + tail;
  }

  // ---------------------------------------------------------------------------
  // Fields
  // ---------------------------------------------------------------------------

  lemma {:induction false} WordLengthOfToken(space: char -> bool, t: string, rest: string)
    requires forall i :: 0 <= i < |t| ==> !space(t[i])
    requires rest != "" ==> space(rest[0])
    ensures WordLength(space, t + rest) == |t|
  {
    if t != "" {
      assert (t + rest)[1..] == t[1..] + rest;
      WordLengthOfToken(space, t[1..], rest);
    } else {
      assert t + rest == rest;
    }
  }

  lemma FieldsOfTokenAndRest(space: char -> bool, t: string, rest: string)
    requires Token(space, t) && space(' ')
    ensures Fields(space, t + " " + rest) == [t] + Fields(space, rest)
  {
    var tail := " " + rest;
    assert t + " " + rest == t + tail;
    WordLengthOfToken(space, t, tail);
    assert (t + tail)[..|t|] == t && (t + tail)[|t|..] == tail;
    assert tail[1..] == rest;
  }

  lemma FieldsOfToken(space: char -> bool, t: string)
    requires Token(space, t)
    ensures Fields(space, t) == [t]
  {
    assert t + "" == t;
    WordLengthOfToken(space, t, "");
  }

  /** Printing tokens with single spaces and reading them back gives the same tokens. */
  lemma {:induction false} FieldsOfJoin(space: char -> bool, ts: seq<string>)
    requires Tokens(space, ts) && space(' ')
    ensures Fields(space, Join(ts, " ")) == ts
  {
    if |ts| == 1 {
      FieldsOfToken(space, ts[0]);
    } else if ts != [] {
      FieldsOfTokenAndRest(space, ts[0], Join(ts[1..], " "));
      FieldsOfJoin(space, ts[1..]);
    }
  }

  lemma {:induction false} FieldsAreTokens(space: char -> bool, s: string)
    requires Free(s, ';')
    ensures Tokens(space, Fields(space, s))
    decreases |s|
  {
    if s != "" {
      if space(s[0]) {
        FieldsAreTokens(space, s[1..]);
      } else {
        FieldsAreTokens(space, s[WordLength(space, s)..]);
      }
    }
  }

  lemma {:induction false} JoinOfTokens(space: char -> bool, ts: seq<string>)
    requires Tokens(space, ts) && ts != []
    ensures Solid(space, Join(ts, " ")) && Free(Join(ts, " "), ';')
  {
    if |ts| > 1 {
      JoinOfTokens(space, ts[1..]);
    }
  }
}
