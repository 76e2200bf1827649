/**
 * The version as an entity tag, printed and read back (apps/tickets/views.py; sections 8.8.3 and 13.1.1 of
 * RFC 9110, except that the code accepts the weak form and a bare number as well).
 */
module IfMatch {
  import opened Wrappers
  import opened Records
  import opened Text
  import opened Workflow

  predicate IsDigit(c: char) { '0' <= c <= '9' }

  function DigitOf(d: nat): char
    requires d < 10
  {
    (('0' as int) + d) as char
  }

  function ValueOf(c: char): nat
    requires IsDigit(c)
  {
    (c as int) - ('0' as int)
  }

  /** `str(n)` */
  function Decimal(n: nat): string {
    if n < 10 then [DigitOf(n)] else Decimal(n / 10) + [DigitOf(n % 10)]
  }

  function ParseDigits(s: string): Option<nat> {
    if s == "" || !IsDigit(s[|s| - 1]) then None
    else if |s| == 1 then Some(ValueOf(s[0]))
    else
      var init := ParseDigits(s[..|s| - 1]);
      if init == None then None else Some(10 * init.value + ValueOf(s[|s| - 1]))
  }

  /** `int(s)` on ASCII digits with an optional sign and surrounding blanks; None where it raises. */
  function ParseInt(s: string): Option<int> {
    var t := Strip(s);
    if t != "" && (t[0] == '-' || t[0] == '+')
    then
      var digits := ParseDigits(t[1..]);
      if digits == None then None
      else
        var n: int := digits.value;
        Some(if t[0] == '-' then -n else n)
    else
      var digits := ParseDigits(t);
      if digits == None then None else Some(digits.value)
  }

  /** The printed entity tag. */
  function ETag(version: nat): string { "\"" + Decimal(version) + "\"" }

  /** What is left of a header after blanks, the weakness prefix and quotes. */
  function Token(raw: string): string {
    var value := Strip(raw);
    Trim(Strip(if "W/" <= value || "w/" <= value then value[2..] else value), IsQuote)
  }

  // ---- what is a number

  lemma {:induction false} ParseDigitsIff(s: string)
    ensures ParseDigits(s).Some? <==> s != "" && All(s, IsDigit)
  {
    if |s| > 1 {
      ParseDigitsIff(s[..|s| - 1]);
      assert s == s[..|s| - 1] + [s[|s| - 1]];
    }
  }

  /** Digits, with one sign before them or none, and blanks around them. */
  predicate IsNumeral(s: string) {
    var t := Strip(s);
    var digits := if t != "" && t[0] in "+-" then t[1..] else t;
    digits != "" && All(digits, IsDigit)
  }

  lemma ParseIntIff(s: string)
    ensures ParseInt(s).Some? <==> IsNumeral(s)
  {
    var t := Strip(s);
    ParseDigitsIff(t);
    if t != "" { ParseDigitsIff(t[1..]); }
  }

  // ---- the round trip

  lemma {:induction false} DecimalIsDigits(n: nat)
    ensures Decimal(n) != "" && All(Decimal(n), IsDigit)
  {
    if n >= 10 {
      DecimalIsDigits(n / 10);
    }
  }

  lemma {:induction false} DigitsRoundTrip(n: nat)
    ensures ParseDigits(Decimal(n)) == Some(n)
  {
    if n >= 10 {
      DigitsRoundTrip(n / 10);
      DecimalIsDigits(n / 10);
      assert Decimal(n)[..|Decimal(n)| - 1] == Decimal(n / 10);
    }
  }

  lemma DigitsAreTight(s: string)
    requires All(s, IsDigit)
    ensures Tight(s, IsSpace) && Tight(s, IsQuote)
  {
  }

  lemma IntRoundTrip(n: nat)
    ensures ParseInt(Decimal(n)) == Some(n)
  {
    DecimalIsDigits(n);
    DigitsAreTight(Decimal(n));
    TrimIsIdempotent(Decimal(n), IsSpace);
    DigitsRoundTrip(n);
    assert IsDigit(Decimal(n)[0]);
  }

  /** A sign counts: what is read back is the number with that sign. */
  lemma SignedNumbersParse(n: nat)
    ensures var m: int := n; ParseInt("-" + Decimal(n)) == Some(-m)
    ensures ParseInt("+" + Decimal(n)) == Some(n)
  {
    DecimalIsDigits(n);
    SignedIsTight("-", Decimal(n));
    SignedIsTight("+", Decimal(n));
    DigitsRoundTrip(n);
  }

  lemma SignedIsTight(sign: string, digits: string)
    requires (sign == "-" || sign == "+") && digits != "" && All(digits, IsDigit)
    ensures Strip(sign + digits) == sign + digits && (sign + digits)[1..] == digits
  {
    TrimIsIdempotent(sign + digits, IsSpace);
  }

  /** The printed tag is an entity tag: digits between two quotes, and nothing else. */
  lemma ETagIsQuotedDigits(n: nat)
    ensures var tag := ETag(n);
      |tag| >= 3 && tag[0] == '"' && tag[|tag| - 1] == '"' && All(tag[1..|tag| - 1], IsDigit)
  {
    DecimalIsDigits(n);
    assert ETag(n)[1..|ETag(n)| - 1] == Decimal(n);
  }

  /** The spellings a client may echo a version in: quoted or bare, weak or not, with blanks after the prefix. */
  datatype Spelling = Strong(quoted: bool) | Weak(quoted: bool, lowerCase: bool, gap: string)

  predicate Spaced(how: Spelling) { how.Weak? ==> All(how.gap, IsSpace) }

  function Spell(n: nat, how: Spelling): string {
    var body := if how.quoted then ETag(n) else Decimal(n);
    if how.Weak? then (if how.lowerCase then "w/" else "W/") + (how.gap + body) else body
  }

  lemma TrimQuotes(s: string)
    requires All(s, IsDigit) && s != ""
    ensures Trim("\"" + s + "\"", IsQuote) == s && Trim(s, IsQuote) == s
    ensures Tight("\"" + s + "\"", IsSpace)
  {
    DigitsAreTight(s);
    TrimRemovesPadding("\"", s, "\"", IsQuote);
    TrimIsIdempotent(s, IsQuote);
  }

  /** The tag or the number in a spelling is tight, and without quotes it is the number. */
  lemma BodyIsTight(n: nat, quoted: bool)
    ensures var body := if quoted then ETag(n) else Decimal(n);
      body != "" && Tight(body, IsSpace) && Trim(body, IsQuote) == Decimal(n) && body[0] != 'W' && body[0] != 'w'
  {
    DecimalIsDigits(n);
    DigitsAreTight(Decimal(n));
    TrimQuotes(Decimal(n));
    assert IsDigit(Decimal(n)[0]);
  }

  lemma TokenOfTight(s: string, body: string, gap: string)
    requires All(gap, IsSpace) && body != "" && Tight(body, IsSpace)
    requires s == "W/" + (gap + body) || s == "w/" + (gap + body) || (s == body && body[0] != 'W' && body[0] != 'w')
    ensures Token(s) == Trim(body, IsQuote) && Tight(s, IsSpace)
  {
    TrimIsIdempotent(s, IsSpace);
    TrimIsIdempotent(body, IsSpace);
    TrimRemovesPadding(gap, body, "", IsSpace);
    assert gap + body + "" == gap + body;
    if s != body {
      assert s[2..] == gap + body;
      assert !IsSpace(s[0]) && s[|s| - 1] == body[|body| - 1];
    }
  }

  lemma TokenOfSpelling(n: nat, how: Spelling, before: string, after: string)
    requires Spaced(how) && All(before, IsSpace) && All(after, IsSpace)
    ensures Token(before + Spell(n, how) + after) == Decimal(n)
  {
    var s, body := Spell(n, how), if how.quoted then ETag(n) else Decimal(n);
    BodyIsTight(n, how.quoted);
    TokenOfTight(s, body, if how.Weak? then how.gap else "");
    TrimRemovesPadding(before, s, after, IsSpace);
    TrimIsIdempotent(s, IsSpace);
  }

  /** For every version, however it is spelled and padded, what is parsed is the version that was printed. */
  lemma ETagRoundTrip(n: nat, how: Spelling, before: string, after: string)
    requires Spaced(how) && All(before, IsSpace) && All(after, IsSpace)
    ensures ParseInt(Token(before + Spell(n, how) + after)) == Some(n)
  {
    TokenOfSpelling(n, how, before, after);
    IntRoundTrip(n);
  }

  /** A header that echoes version `n`, in any spelling, with blanks around it. */
  ghost predicate Echoes(header: string, n: nat) {
    exists how, before, after | Spaced(how) && All(before, IsSpace) && All(after, IsSpace) ::
      header == before + Spell(n, how) + after
  }

  /** No header text asks for nothing, an echoed version is that version, and what is no number is refused. */
  method ParseIfMatch(raw: Option<string>) returns (r: Answer<Option<int>>)
    ensures r == Ok(None) <==> raw == None || raw.value == ""
    ensures r.Err? <==> raw.Some? && raw.value != "" && !IsNumeral(Token(raw.value))
    ensures raw.Some? ==> forall n: nat | Echoes(raw.value, n) :: r == Ok(Some(n))
    ensures raw.Some? && raw.value != "" ==>
      r == (match ParseInt(Token(raw.value)) case Some(n) => Ok(Some(n)) case None => Err(InvalidHeader))
  {
    if raw == None || raw.value == "" {
      return Ok(None);
    }
    var value := Strip(raw.value);
    if "W/" <= value || "w/" <= value {
      value := value[2..];
    }
    value := Trim(Strip(value), IsQuote);
    var parsed := ParseInt(value);
    ParseIntIff(value);
    r := if parsed.Some? then Ok(Some(parsed.value)) else Err(InvalidHeader);
    forall n: nat | Echoes(raw.value, n)
      ensures parsed == Some(n)
    {
      EchoParses(raw.value, n);
    }
  }

  lemma EchoParses(header: string, n: nat)
    requires Echoes(header, n)
    ensures ParseInt(Token(header)) == Some(n)
  {
    var how, before, after :| Spaced(how) && All(before, IsSpace) && All(after, IsSpace)
      && header == before + Spell(n, how) + after;
    ETagRoundTrip(n, how, before, after);
  }

  /** Two versions never share a spelling, so an echoed tag names one version only. */
  lemma SpellingsIdentify(m: nat, n: nat, how: Spelling, how': Spelling)
    requires Spaced(how) && Spaced(how') && Spell(m, how) == Spell(n, how')
    ensures m == n
  {
    ETagRoundTrip(m, how, "", "");
    ETagRoundTrip(n, how', "", "");
    assert "" + Spell(m, how) + "" == Spell(m, how);
    assert "" + Spell(n, how') + "" == Spell(n, how');
  }

  /** Echoing a row's own tag passes the version guard, and any other version's tag is a conflict on an open ticket. */
  lemma EchoedTagPassesTheGuard(row: Row, op: Op, read: nat, how: Spelling)
    requires Spaced(how) && op.expected == ParseInt(Token(Spell(read, how)))
    requires Refusal(row, op.(expected := None)) == None
    ensures Refusal(row, op) == if read == row.version then None else Some(VersionConflict(read, row.version))
  {
    ETagRoundTrip(read, how, "", "");
    assert "" + Spell(read, how) + "" == Spell(read, how);
  }
}
