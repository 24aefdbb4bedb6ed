/**
  Raw strings to typed values, as config/parse.go does it, and the printers of
  config/file.go that feed it.
*/
module ConfigParse {
  import opened Options
  import opened ConfigTypes
  import opened Text

  // Library parsers whose inner workings do not matter here.
  datatype Parsers = Parsers(duration: string -> Option<int>, float: (string, nat) -> Option<nat>)

  // ---------------------------------------------------------------------------
  // Integers
  // ---------------------------------------------------------------------------

  predicate Digits(s: string) {
    forall i :: 0 <= i < |s| ==> '0' <= s[i] <= '9'
  }

  function DigitsValue(s: string): nat
    requires Digits(s)
  {
    if s == "" then 0 else 10 * DigitsValue(s[..|s| - 1]) + (s[|s| - 1] as int - '0' as int)
  }

  /** Two to the power of n. */
  function Pow2(n: nat): nat {
    if n == 0 then 1 else 2 * Pow2(n - 1)
  }

  predicate FitsInt(n: int, bits: nat) {
    bits > 0 && var limit: int := Pow2(bits - 1); -limit <= n < limit
  }

  predicate FitsUint(n: int, bits: nat) {
    0 <= n < Pow2(bits)
  }

  /** Decimal digits only: no sign, no underscore. */
  function ParseUint(s: string, bits: nat): Option<nat> {
    if s == "" || !Digits(s) || !FitsUint(DigitsValue(s), bits) then None else Some(DigitsValue(s))
  }

  function ParseInt(s: string, bits: nat): Option<int> {
    if s == "" then None
    else
      var signed := s[0] == '+' || s[0] == '-';
      var digits := if signed then s[1..] else s;
      if digits == "" || !Digits(digits) then None
      else
        var magnitude: int := DigitsValue(digits);
        var n := if s[0] == '-' then -magnitude else magnitude;
        if FitsInt(n, bits) then Some(n) else None
  }

  function Digit(d: nat): (c: char)
    requires d < 10
    ensures '0' <= c <= '9' && c as int == '0' as int + d
  {
    '0' + d as char
  }

  function FormatNat(n: nat): string {
    (if n < 10 then "" else FormatNat(n / 10)) + [Digit(n % 10)]
  }

  function FormatInt(n: int): string {
    if n < 0 then "-" + FormatNat(-n) else FormatNat(n)
  }

  lemma {:induction false} FormatNatReadsBack(n: nat)
    ensures var s := FormatNat(n); s != "" && Digits(s) && DigitsValue(s) == n
  {
    hide Digit;
    var s := FormatNat(n);
    if n >= 10 {
      FormatNatReadsBack(n / 10);
    }
    var init := if n < 10 then "" else FormatNat(n / 10);
    assert s == init + [Digit(n % 10)] && s[..|s| - 1] == init;
  }

  lemma SignedReadsBack(s: string, bits: nat)
    requires s != "" && Digits(s)
    ensures var n: int := DigitsValue(s);
      && ParseInt(s, bits) == (if FitsInt(n, bits) then Some(n) else None)
      && ParseInt("-" + s, bits) == (if FitsInt(-n, bits) then Some(-n) else None)
      && ParseUint("-" + s, bits) == None
  {
    hide DigitsValue, FitsInt, FitsUint;
    assert '0' <= s[0] <= '9';
    assert ("-" + s)[1..] == s && ("-" + s)[0] == '-';
  }

  /** An integer comes back from its decimal form exactly when it fits the field, and is refused otherwise. */
  lemma IntRoundTrip(n: int, bits: nat)
    ensures ParseInt(FormatInt(n), bits) == if FitsInt(n, bits) then Some(n) else None
    ensures ParseUint(FormatInt(n), bits) == if FitsUint(n, bits) then Some(n) else None
  {
    hide DigitsValue, Digits, FormatNat, ParseInt;
    var m := if n < 0 then -n else n;
    FormatNatReadsBack(m);
    SignedReadsBack(FormatNat(m), bits);
  }

  lemma {:induction false} LeadingZero(s: string)
    requires Digits(s)
    ensures Digits("0" + s) && DigitsValue("0" + s) == DigitsValue(s)
  {
    var t := "0" + s;
    if s != "" {
      var init := s[..|s| - 1];
      LeadingZero(init);
      assert t[..|t| - 1] == "0" + init;
    } else {
      assert t[..0] == "";
    }
  }

  lemma SevenFiftyFive()
    ensures Digits("755") && DigitsValue("755") == 755
  {
    var t := "755";
    assert t[..2] == "75" && t[..2][..1] == "7" && t[..2][..1][..0] == "";
    assert DigitsValue("7") == 7;
    assert DigitsValue("75") == 75;
  }

  /**
    A leading zero changes nothing: `0755` reads as seven hundred and fifty-five. (The comment
    on the parser's base promises that such a value fails.)
  */
  lemma OctalLookingIsDecimal(s: string, bits: nat)
    requires s != "" && Digits(s)
    ensures ParseInt("0" + s, bits) == ParseInt(s, bits)
    ensures ParseUint("0" + s, bits) == ParseUint(s, bits)
    ensures ParseInt("0755", 16) == Some(755)
  {
    hide DigitsValue, FitsInt, FitsUint;
    LeadingZero(s);
    assert '0' <= s[0] <= '9';
    SevenFiftyFive();
    LeadingZero("755");
    assert "0755" == "0" + "755";
    Widths(755);
  }

  lemma {:induction false} Pow2Adds(m: nat, n: nat)
    ensures Pow2(m + n) == Pow2(m) * Pow2(n)
  {
    if m > 0 {
      Pow2Adds(m - 1, n);
      assert Pow2(m + n) == 2 * Pow2(m - 1 + n);
    }
  }

  lemma Powers()
    ensures Pow2(7) == 128 && Pow2(8) == 256 && Pow2(15) == 32768 && Pow2(16) == 65536
    ensures Pow2(31) == 2147483648 && Pow2(32) == 4294967296
    ensures Pow2(63) == 9223372036854775808 && Pow2(64) == 18446744073709551616
  {
    assert Pow2(7) == 128;
    Pow2Adds(7, 8);
    Pow2Adds(8, 8);
    Pow2Adds(15, 16);
    Pow2Adds(16, 16);
    Pow2Adds(31, 32);
    Pow2Adds(32, 32);
  }

  /** What fits the four widths, signed and unsigned. */
  lemma Widths(n: int)
    ensures FitsInt(n, 8) <==> -128 <= n <= 127
    ensures FitsInt(n, 16) <==> -32768 <= n <= 32767
    ensures FitsInt(n, 32) <==> -2147483648 <= n <= 2147483647
    ensures FitsInt(n, 64) <==> -9223372036854775808 <= n <= 9223372036854775807
    ensures FitsUint(n, 8) <==> 0 <= n <= 255
    ensures FitsUint(n, 16) <==> 0 <= n <= 65535
    ensures FitsUint(n, 32) <==> 0 <= n <= 4294967295
    ensures FitsUint(n, 64) <==> 0 <= n <= 18446744073709551615
  {
    hide Pow2;
    Powers();
  }

  /** A plus sign changes nothing for a signed field and is refused for an unsigned one. */
  lemma PlusSign(s: string, bits: nat)
    requires s != "" && Digits(s)
    ensures ParseInt("+" + s, bits) == ParseInt(s, bits) && ParseUint("+" + s, bits) == None
  {
    hide DigitsValue, FitsInt, FitsUint;
    assert '0' <= s[0] <= '9';
    assert ("+" + s)[1..] == s && ("+" + s)[0] == '+';
  }

  // ---------------------------------------------------------------------------
  // Booleans and lists
  // ---------------------------------------------------------------------------

  function ParseBool(s: string): Option<bool> {
    if s in {"1", "t", "T", "true", "TRUE", "True"} then Some(true)
    else if s in {"0", "f", "F", "false", "FALSE", "False"} then Some(false)
    else None
  }

  /** Twelve words and no others. */
  lemma BoolWords(s: string)
    ensures ParseBool(s) == Some(true) <==>
            s == "1" || s == "t" || s == "T" || s == "true" || s == "TRUE" || s == "True"
    ensures ParseBool(s) == Some(false) <==>
            s == "0" || s == "f" || s == "F" || s == "false" || s == "FALSE" || s == "False"
  {
    assert "1"[0] != "0"[0];
    if s in {"1", "t", "T", "true", "TRUE", "True"} {
      assert s[0] in {'1', 't', 'T'};
    }
  }

  function FormatBool(b: bool): string {
    if b then "true" else "false"
  }

  function TrimAll(parts: seq<string>): (r: seq<string>)
    ensures |r| == |parts| && forall i :: 0 <= i < |parts| ==> r[i] == Trim(IsSpace, parts[i])
  {
    seq(|parts|, i requires 0 <= i < |parts| => Trim(IsSpace, parts[i]))
  }

  /** A list value: split at commas, each part trimmed in place. */
  method ParseList(raw: string) returns (items: seq<string>)
    ensures items == TrimAll(Split(raw, ','))
  {
    var split := Split(raw, ',');
    var parts := new string[|split|](i requires 0 <= i < |split| => split[i]);
    for index := 0 to parts.Length
      invariant forall j :: 0 <= j < index ==> parts[j] == Trim(IsSpace, split[j])
      invariant forall j :: index <= j < parts.Length ==> parts[j] == split[j]
    {
      parts[index] := Trim(IsSpace, parts[index]);
    }
    items := parts[..];
  }

  predicate CommaFree(parts: seq<string>) {
    forall i :: 0 <= i < |parts| ==> Free(parts[i], ',')
  }

  lemma {:induction false} SplitOfJoin(parts: seq<string>)
    requires parts != [] && CommaFree(parts)
    ensures Split(Join(parts, ","), ',') == parts
  {
    SplitFree(parts[0], ',');
    if |parts| > 1 {
      SplitConcat(parts[0], Join(parts[1..], ","), ',');
      SplitOfJoin(parts[1..]);
      assert parts == [parts[0]] + parts[1..];
    }
  }

  lemma {:induction false} SplitLength(s: string)
    ensures |Split(s, ',')| == 1 <==> Free(s, ',')
  {
    if s != "" {
      SplitLength(s[1..]);
      assert Free(s, ',') <==> s[0] != ',' && Free(s[1..], ',') by {
        assert s == [s[0]] + s[1..];
      }
    }
  }

  lemma {:induction false} SplitOfJoinLength(parts: seq<string>)
    requires parts != []
    ensures |Split(Join(parts, ","), ',')| >= |parts|
    ensures |Split(Join(parts, ","), ',')| == |parts| <==> CommaFree(parts)
  {
    SplitLength(parts[0]);
    if |parts| > 1 {
      SplitConcat(parts[0], Join(parts[1..], ","), ',');
      SplitOfJoinLength(parts[1..]);
      assert CommaFree(parts) <==> Free(parts[0], ',') && CommaFree(parts[1..]) by {
        assert parts == [parts[0]] + parts[1..];
      }
    }
  }

  /**
    A list joined with commas comes back, each element trimmed, exactly when it is not empty
    and no element holds a comma. The empty list comes back as one empty element.
  */
  lemma ListRoundTripExactly(parts: seq<string>)
    ensures TrimAll(Split(Join(parts, ","), ',')) == TrimAll(parts) <==> parts != [] && CommaFree(parts)
    ensures parts == [] ==> TrimAll(Split(Join(parts, ","), ',')) == [""]
  {
    if parts != [] {
      SplitOfJoinLength(parts);
      if CommaFree(parts) {
        SplitOfJoin(parts);
      }
    }
  }

  // ---------------------------------------------------------------------------
  // One field
  // ---------------------------------------------------------------------------

  function Parse(ps: Parsers, t: Type, raw: string): Option<Value> {
    match t
    case Str => Some(VStr(raw))
    case Bool => (match ParseBool(raw) case Some(b) => Some(VBool(b)) case None => None)
    case Int(bits) => (match ParseInt(raw, bits) case Some(n) => Some(VInt(n)) case None => None)
    case Uint(bits) => (match ParseUint(raw, bits) case Some(n) => Some(VUint(n)) case None => None)
    case Float(bits) => (match ps.float(raw, bits) case Some(x) => Some(VFloat(x)) case None => None)
    case Duration => (match ps.duration(raw) case Some(ns) => Some(VDuration(ns)) case None => None)
    case StrList(_) => Some(VList(TrimAll(Split(raw, ','))))
    case _ => None
  }

  /** Reflection has no conversion from a list of strings to one of a named string type. */
  predicate Converts(t: Type) {
    !(t.StrList? && t.named)
  }

  /** The single parser every layer goes through; `ok` is false on a panic. */
  method ParseValue(ps: Parsers, t: Type, raw: string) returns (ok: bool, v: Option<Value>)
    ensures ok == Converts(t)
    ensures ok ==> v == Parse(ps, t, raw)
  {
    if t.Duration? {
      var parsed := ps.duration(raw);
      return true, if parsed == None then None else Some(VDuration(parsed.value));
    }
    if t.StrList? {
      var items := ParseList(raw);
      return !t.named, Some(VList(items));
    }
    return true, Parse(ps, t, raw);
  }

  /** What a required field may not be written as: these parse to its zero value. A list has no such form. */
  lemma ZeroForms(ps: Parsers, raw: string, bits: nat)
    requires bits > 0
    ensures Parse(ps, Str, raw) == Some(Zero(Str)) <==> raw == ""
    ensures Parse(ps, Bool, raw) == Some(Zero(Bool)) <==> ParseBool(raw) == Some(false)
    ensures Parse(ps, Int(bits), raw) == Some(Zero(Int(bits))) <==> ParseInt(raw, bits) == Some(0)
    ensures Parse(ps, Uint(bits), raw) == Some(Zero(Uint(bits))) <==> ParseUint(raw, bits) == Some(0)
    ensures Parse(ps, Float(bits), raw) == Some(Zero(Float(bits))) <==> ps.float(raw, bits) == Some(0)
    ensures Parse(ps, Duration, raw) == Some(Zero(Duration)) <==> ps.duration(raw) == Some(0)
    ensures Parse(ps, StrList(false), raw) != Some(Zero(StrList(false)))
  {
  }

  /** Durations and floats are what the libraries say. */
  lemma LibraryParsers(ps: Parsers, raw: string, bits: nat)
    ensures Parse(ps, Duration, raw) == None <==> ps.duration(raw) == None
    ensures Parse(ps, Float(bits), raw) == None <==> ps.float(raw, bits) == None
    ensures ps.duration(raw) != None ==> Parse(ps, Duration, raw) == Some(VDuration(ps.duration(raw).value))
    ensures ps.float(raw, bits) != None ==> Parse(ps, Float(bits), raw) == Some(VFloat(ps.float(raw, bits).value))
  {
  }
}
