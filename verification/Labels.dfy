/**
  Label values in the metrics exposition: what metrics.go writes between the quotes, and
  what a reader of the Prometheus text exposition format gets back.
*/
module Labels {
  import opened Options

  function ReplaceAll(s: string, c: char, to: string): string {
    if s == "" then "" else (if s[0] == c then to else [s[0]]) + ReplaceAll(s[1..], c, to)
  }

  /** Three successive replacements: backslash, quote, line feed. */
  function EscapeLabelValue(v: string): string {
    ReplaceAll(ReplaceAll(ReplaceAll(v, '\\', "\\\\"), '\"', "\\\""), '\n', "\\n")
  }

  function EscapeChar(c: char): string {
    if c == '\\' then "\\\\" else if c == '\"' then "\\\"" else if c == '\n' then "\\n" else [c]
  }

  /** One pass over the characters. */
  function EscapeOnce(v: string): string {
    if v == "" then "" else EscapeChar(v[0]) + EscapeOnce(v[1..])
  }

  predicate Special(c: char) {
    c == '\\' || c == '\"' || c == '\n'
  }

  /**
    How the format reads a quoted label value: up to the first quote that no backslash
    escapes; None when there is none, or when a raw line feed or an escape that the format
    does not define comes first.
  */
  function ReadLabel(s: string): Option<(string, string)>
    decreases |s|
  {
    if s == "" || s[0] == '\n' then None
    else if s[0] == '\"' then Some(("", s[1..]))
    else if s[0] != '\\' then Prepend(s[0], ReadLabel(s[1..]))
    else if |s| == 1 || !(s[1] in {'\\', '\"', 'n'}) then None
    else Prepend(if s[1] == 'n' then '\n' else s[1], ReadLabel(s[2..]))
  }

  function Prepend(c: char, r: Option<(string, string)>): Option<(string, string)> {
    if r == None then None else Some(([c] + r.value.0, r.value.1))
  }

  lemma {:induction false} ReplaceConcat(a: string, b: string, c: char, to: string)
    ensures ReplaceAll(a + b, c, to) == ReplaceAll(a, c, to) + ReplaceAll(b, c, to)
  {
    if a == "" {
      assert a + b == b;
    } else {
      assert (a + b)[1..] == a[1..] + b;
      ReplaceConcat(a[1..], b, c, to);
    }
  }

  lemma ReplaceOne(x: char, c: char, to: string)
    ensures ReplaceAll([x], c, to) == if x == c then to else [x]
  {
    assert [x][1..] == "";
    assert to + "" == to;
  }

  lemma ReplaceTwo(x: char, y: char, c: char, to: string)
    requires x != c && y != c
    ensures ReplaceAll([x, y], c, to) == [x, y]
  {
    assert [x, y] == [x] + [y];
    ReplaceConcat([x], [y], c, to);
    ReplaceOne(x, c, to);
    ReplaceOne(y, c, to);
  }

  lemma EscapeOfOne(c: char)
    ensures EscapeLabelValue([c]) == EscapeChar(c)
  {
    hide ReplaceAll;
    ReplaceOne(c, '\\', "\\\\");
    ReplaceOne(c, '\"', "\\\"");
    ReplaceOne(c, '\n', "\\n");
    ReplaceTwo('\\', '\\', '\"', "\\\"");
    ReplaceTwo('\\', '\\', '\n', "\\n");
    ReplaceTwo('\\', '\"', '\n', "\\n");
    assert "\\\\" == ['\\', '\\'] && "\\\"" == ['\\', '\"'];
  }

  /** The order of the three replacements is right: together they escape each character once. */
  lemma {:induction false} EscapeIsOnePass(v: string)
    ensures EscapeLabelValue(v) == EscapeOnce(v)
  {
    if v != "" {
      EscapeIsOnePass(v[1..]);
      EscapeOfOne(v[0]);
      assert v == [v[0]] + v[1..];
      var a, b := ReplaceAll([v[0]], '\\', "\\\\"), ReplaceAll(v[1..], '\\', "\\\\");
      ReplaceConcat([v[0]], v[1..], '\\', "\\\\");
      var a2, b2 := ReplaceAll(a, '\"', "\\\""), ReplaceAll(b, '\"', "\\\"");
      ReplaceConcat(a, b, '\"', "\\\"");
      ReplaceConcat(a2, b2, '\n', "\\n");
    }
  }

  lemma ReadEscaped(c: char, tail: string)
    ensures ReadLabel(EscapeChar(c) + tail) == Prepend(c, ReadLabel(tail))
  {
    var s := EscapeChar(c) + tail;
    assert s[|EscapeChar(c)|..] == tail;
  }

  lemma {:induction false} OnePassReads(v: string, rest: string)
    ensures ReadLabel(EscapeOnce(v) + "\"" + rest) == Some((v, rest))
  {
    hide EscapeChar;
    if v == "" {
      assert EscapeOnce(v) + "\"" + rest == "\"" + rest;
      assert ("\"" + rest)[1..] == rest;
    } else {
      var tail := EscapeOnce(v[1..]) + "\"" + rest;
      OnePassReads(v[1..], rest);
      assert EscapeOnce(v) + "\"" + rest == EscapeChar(v[0]) + tail;
      ReadEscaped(v[0], tail);
      assert v == [v[0]] + v[1..];
    }
  }

  /** A value written by the histogram reads back as itself, wherever the closing quote leads. */
  lemma EscapedLabelReadsBack(v: string, rest: string)
    ensures ReadLabel(EscapeLabelValue(v) + "\"" + rest) == Some((v, rest))
  {
    EscapeIsOnePass(v);
    OnePassReads(v, rest);
  }

  // ---------------------------------------------------------------------------
  // The build info and the response totals put `%q` on top of the escaping
  // ---------------------------------------------------------------------------

  /** What Go calls printable, of which only the ASCII part matters here: space to tilde. */
  ghost predicate GoPrintable(printable: char -> bool) {
    forall c :: c < '\U{80}' ==> (printable(c) <==> ' ' <= c <= '~')
  }

  function HexDigit(n: nat): char
    requires n < 16
  {
    if n < 10 then '0' + n as char else 'a' + (n - 10) as char
  }

  /** The number in `width` hexadecimal digits, the leading ones cut off. */
  function Hex(n: nat, width: nat): string {
    if width == 0 then "" else Hex(n / 16, width - 1) + [HexDigit(n % 16)]
  }

  /** What follows the backslash when `%q` writes a character that is not printable. */
  function Letters(c: char): string {
    if c == '\U{07}' then "a" else if c == '\U{08}' then "b" else if c == '\U{0C}' then "f" else if c == '\n' then "n"
    else if c == '\r' then "r" else if c == '\t' then "t" else if c == '\U{0B}' then "v"
    else if c < ' ' || c == '\U{7F}' then "x" + Hex(c as int, 2)
    else if c < '\U{10000}' then "u" + Hex(c as int, 4)
    else "U" + Hex(c as int, 8)
  }

  function QuoteChar(printable: char -> bool, c: char): string {
    if c == '\\' || c == '\"' then ['\\', c]
    else if printable(c) then [c]
    else "\\" + Letters(c)
  }

  /** What `%q` puts between its quotes. */
  function Quoted(printable: char -> bool, s: string): string {
    if s == "" then "" else QuoteChar(printable, s[0]) + Quoted(printable, s[1..])
  }

  /** The characters that `%q` writes in a way the format defines. */
  predicate Shown(printable: char -> bool, c: char) {
    c == '\n' || printable(c)
  }

  predicate AllShown(printable: char -> bool, s: string) {
    forall i :: 0 <= i < |s| ==> Shown(printable, s[i])
  }

  lemma ReadQuoted(printable: char -> bool, c: char, tail: string)
    requires GoPrintable(printable)
    ensures ReadLabel(QuoteChar(printable, c) + tail) ==
            if Shown(printable, c) then Prepend(c, ReadLabel(tail)) else None
  {
    var q := QuoteChar(printable, c);
    if c == '\n' {
      assert q == ['\\', 'n'];
    }
    assert (q + tail)[|q|..] == tail;
    if !Shown(printable, c) {
      assert q == ['\\'] + Letters(c) && (q + tail)[1] == Letters(c)[0];
    }
  }

  lemma {:induction false} QuotedReadsBack(printable: char -> bool, s: string, rest: string)
    requires GoPrintable(printable)
    ensures ReadLabel(Quoted(printable, s) + "\"" + rest) == if AllShown(printable, s) then Some((s, rest)) else None
  {
    hide QuoteChar, ReadLabel, Shown, GoPrintable;
    if s == "" {
      assert Quoted(printable, s) + "\"" + rest == "\"" + rest;
      ReadEnd(rest);
    } else {
      var tail := Quoted(printable, s[1..]) + "\"" + rest;
      QuotedReadsBack(printable, s[1..], rest);
      assert Quoted(printable, s) + "\"" + rest == QuoteChar(printable, s[0]) + tail;
      ReadQuoted(printable, s[0], tail);
      assert s == [s[0]] + s[1..];
      assert AllShown(printable, s) <==> Shown(printable, s[0]) && AllShown(printable, s[1..]);
    }
  }

  lemma ReadEnd(rest: string)
    ensures ReadLabel("\"" + rest) == Some(("", rest))
  {
    assert ("\"" + rest)[1..] == rest;
  }

  predicate AllPlain(v: string) {
    forall i :: 0 <= i < |v| ==> !Special(v[i])
  }

  /** Escaping never shortens, and leaves a text as it is exactly when nothing in it is special. */
  lemma {:induction false} EscapeFixes(v: string)
    ensures |EscapeOnce(v)| >= |v|
    ensures EscapeOnce(v) == v <==> AllPlain(v)
  {
    if v != "" {
      EscapeFixes(v[1..]);
      assert v == [v[0]] + v[1..];
      assert AllPlain(v) <==> !Special(v[0]) && AllPlain(v[1..]);
      if EscapeOnce(v) == v {
        assert |EscapeChar(v[0])| == 1;
        assert EscapeOnce(v)[1..] == EscapeOnce(v[1..]);
      }
    }
  }

  lemma {:induction false} EscapeShows(printable: char -> bool, v: string)
    requires GoPrintable(printable)
    ensures AllShown(printable, EscapeOnce(v)) <==> AllShown(printable, v)
  {
    if v != "" {
      EscapeShows(printable, v[1..]);
      EscapeCharShows(printable, v[0]);
      ShownConcat(printable, EscapeChar(v[0]), EscapeOnce(v[1..]));
      ShownConcat(printable, [v[0]], v[1..]);
      assert v == [v[0]] + v[1..];
    }
  }

  lemma EscapeCharShows(printable: char -> bool, c: char)
    requires GoPrintable(printable)
    ensures AllShown(printable, EscapeChar(c)) <==> AllShown(printable, [c])
  {
    assert printable('\\') && printable('\"') && printable('n');
    assert [c][0] == c;
  }

  lemma ShownConcat(printable: char -> bool, a: string, b: string)
    ensures AllShown(printable, a + b) <==> AllShown(printable, a) && AllShown(printable, b)
  {
    if AllShown(printable, a + b) {
      assert forall i :: 0 <= i < |a| ==> (a + b)[i] == a[i];
      assert forall i :: 0 <= i < |b| ==> (a + b)[|a| + i] == b[i];
    }
  }

  /**
    The twice-escaped label of the build info and the response totals can be read exactly when
    every character of the label is a line feed or printable, and then it reads as the escaped
    label. So it reads back as the label itself exactly when every character is printable and
    none is a backslash, a quote or a line feed.
  */
  lemma DoublyEscapedLabelReadsBack(printable: char -> bool, v: string, rest: string)
    requires GoPrintable(printable)
    ensures var read := ReadLabel(Quoted(printable, EscapeLabelValue(v)) + "\"" + rest);
      && (read != None <==> forall i :: 0 <= i < |v| ==> v[i] == '\n' || printable(v[i]))
      && (read != None ==> read == Some((EscapeLabelValue(v), rest)))
      && (read == Some((v, rest)) <==> forall i :: 0 <= i < |v| ==> printable(v[i]) && !Special(v[i]))
  {
    hide ReadLabel, Quoted, GoPrintable, EscapeLabelValue;
    EscapeIsOnePass(v);
    QuotedReadsBack(printable, EscapeLabelValue(v), rest);
    EscapeShows(printable, v);
    EscapeFixes(v);
    assert AllShown(printable, v) && AllPlain(v) <==> forall i :: 0 <= i < |v| ==> printable(v[i]) && !Special(v[i]) by {
      assert forall i :: 0 <= i < |v| && !Special(v[i]) ==> (Shown(printable, v[i]) <==> printable(v[i]));
    }
  }
}
