/**
 * The trace record that `_generate_trace` builds and its canonical text form,
 * the string that is signed and stored (`json.dumps(data, sort_keys=True)`).
 *
 * The keys are written in sorted order `act, aid, lib, nonce, pay, res, t`
 * with json.dumps' default separators `", "` and `": "`. Strings are quoted
 * with `"` and `\` escaped; `lib` is `null` when there is no liability link;
 * the timestamp is a decimal number. A parser is given beside the printer,
 * and the two are proved inverse in both directions, so the canonical form
 * is injective: two different records never serialise to the same string.
 */
module Records {
  import opened Wrappers

  /** The seven fields of a trace record, in sorted key order. */
  datatype Record = Record(
    act: string,           // action name
    aid: string,           // agent id
    lib: Option<string>,   // liability link, `null` when None
    nonce: string,         // anti-replay nonce
    pay: string,           // payload, stored verbatim
    res: string,           // hex digest of the result
    t: nat                 // wall-clock timestamp
  )

  // ---------------------------------------------------------------- printing

  function EscapeChar(c: char): string
  {
    if c == '"' then ['\\', '"']
    else if c == '\\' then ['\\', '\\']
    else [c]
  }

  function Escape(s: string): string
  {
    if s == [] then [] else EscapeChar(s[0]) + Escape(s[1..])
  }

  /** A JSON string literal. */
  function Quote(s: string): string
  {
    ['"'] + Escape(s) + ['"']
  }

  /** A JSON string literal, or `null` for None. */
  function QuoteOrNull(o: Option<string>): string
  {
    match o
    case None => "null"
    case Some(s) => Quote(s)
  }

  predicate IsDigit(c: char)
  {
    '0' <= c <= '9'
  }

  function DigitChar(d: nat): char
    requires d < 10
  {
    (d + '0' as int) as char
  }

  function DigitValue(c: char): nat
    requires IsDigit(c)
  {
    c as int - '0' as int
  }

  /** Decimal digits of `n`, without leading zeros. */
  function Digits(n: nat): string
  {
    if n < 10 then [DigitChar(n)] else Digits(n / 10) + [DigitChar(n % 10)]
  }

  const ActKey := "{\"act\": "
  const AidKey := ", \"aid\": "
  const LibKey := ", \"lib\": "
  const NonceKey := ", \"nonce\": "
  const PayKey := ", \"pay\": "
  const ResKey := ", \"res\": "
  const TimeKey := ", \"t\": "

  /**
   * The canonical form of a record: the exact string that is signed and
   * stored. It parses back to the record, so no two records share it.
   */
  function Canonical(r: Record): (s: string)
    ensures Parse(s) == Some(r)
  {
    var s6 := TimeKey + Digits(r.t) + "}";
    var s5 := ResKey + Quote(r.res) + s6;
    var s4 := PayKey + Quote(r.pay) + s5;
    var s3 := NonceKey + Quote(r.nonce) + s4;
    var s2 := LibKey + QuoteOrNull(r.lib) + s3;
    var s1 := AidKey + Quote(r.aid) + s2;
    ParseFieldQuote(ActKey, r.act, s1);
    ParseFieldQuote(AidKey, r.aid, s2);
    ParseFieldOrNullQuote(LibKey, r.lib, s3);
    ParseFieldQuote(NonceKey, r.nonce, s4);
    ParseFieldQuote(PayKey, r.pay, s5);
    ParseFieldQuote(ResKey, r.res, s6);
    ParseTimeDigits(r.t);
    ActKey + Quote(r.act) + s1
  }

  // ----------------------------------------------------------------- parsing

  /**
   * Reads the body of a string literal up to its closing quote: the decoded
   * text and what follows the closing quote.
   */
  function Unescape(s: string): Option<(string, string)>
    decreases |s|
  {
    if s == [] then None
    else if s[0] == '"' then Some(([], s[1..]))
    else if s[0] == '\\' then
      if |s| < 2 || (s[1] != '"' && s[1] != '\\') then None
      else match Unescape(s[2..])
        case None => None
        case Some(p) => Some(([s[1]] + p.0, p.1))
    else match Unescape(s[1..])
      case None => None
      case Some(p) => Some(([s[0]] + p.0, p.1))
  }

  /** Reads the key text `key`, then a string literal. */
  function ParseField(key: string, s: string): Option<(string, string)>
  {
    if key <= s && |s| > |key| && s[|key|] == '"' then Unescape(s[|key| + 1..]) else None
  }

  /** Reads the key text `key`, then `null` or a string literal. */
  function ParseFieldOrNull(key: string, s: string): Option<(Option<string>, string)>
  {
    if key + "null" <= s then Some((None, s[|key| + 4..]))
    else match ParseField(key, s)
      case None => None
      case Some(p) => Some((Some(p.0), p.1))
  }

  function DigitsValue(s: string): nat
    requires forall i | 0 <= i < |s| :: IsDigit(s[i])
  {
    if s == [] then 0 else DigitsValue(s[..|s| - 1]) * 10 + DigitValue(s[|s| - 1])
  }

  /** A decimal number with no leading zero (other than `0` itself). */
  function ParseNat(s: string): Option<nat>
  {
    if s == [] || (|s| > 1 && s[0] == '0') || exists i | 0 <= i < |s| :: !IsDigit(s[i]) then None
    else Some(DigitsValue(s))
  }

  /** Reads `, "t": <digits>}` up to the end of the text. */
  function ParseTime(s: string): Option<nat>
  {
    if TimeKey <= s && |s| > |TimeKey| && s[|s| - 1] == '}' then ParseNat(s[|TimeKey|..|s| - 1]) else None
  }

  /** Reads a canonical record back from its text; None when the text is not one. */
  function Parse(s: string): Option<Record>
  {
    match ParseField(ActKey, s)
    case None => None
    case Some(p1) =>
    match ParseField(AidKey, p1.1)
    case None => None
    case Some(p2) =>
    match ParseFieldOrNull(LibKey, p2.1)
    case None => None
    case Some(p3) =>
    match ParseField(NonceKey, p3.1)
    case None => None
    case Some(p4) =>
    match ParseField(PayKey, p4.1)
    case None => None
    case Some(p5) =>
    match ParseField(ResKey, p5.1)
    case None => None
    case Some(p6) =>
    match ParseTime(p6.1)
    case None => None
    case Some(t) => Some(Record(p1.0, p2.0, p3.0, p4.0, p5.0, p6.0, t))
  }

  // ------------------------------------------------------- printer then parser

  lemma {:induction false} UnescapeEscape(x: string, rest: string)
    ensures Unescape(Escape(x) + ['"'] + rest) == Some((x, rest))
    decreases |x|
  {
    if x == [] {
      assert Escape(x) + ['"'] + rest == ['"'] + rest;
    } else {
      var s := Escape(x) + ['"'] + rest;
      assert s == EscapeChar(x[0]) + (Escape(x[1..]) + ['"'] + rest);
      UnescapeEscape(x[1..], rest);
      if x[0] == '"' || x[0] == '\\' {
        assert s[2..] == Escape(x[1..]) + ['"'] + rest;
      } else {
        assert s[1..] == Escape(x[1..]) + ['"'] + rest;
      }
      assert [x[0]] + x[1..] == x;
    }
  }

  lemma ParseFieldQuote(key: string, x: string, rest: string)
    ensures ParseField(key, key + Quote(x) + rest) == Some((x, rest))
  {
    var s := key + Quote(x) + rest;
    assert key <= s;
    assert s[|key|] == '"';
    assert s[|key| + 1..] == Escape(x) + ['"'] + rest;
    UnescapeEscape(x, rest);
  }

  lemma ParseFieldOrNullQuote(key: string, o: Option<string>, rest: string)
    ensures ParseFieldOrNull(key, key + QuoteOrNull(o) + rest) == Some((o, rest))
  {
    var s := key + QuoteOrNull(o) + rest;
    match o
    case None =>
      assert key + "null" <= s;
      assert s[|key| + 4..] == rest;
    case Some(x) =>
      assert s[|key|] == '"';
      assert !(key + "null" <= s);
      ParseFieldQuote(key, x, rest);
  }

  lemma {:induction false} DigitsAreDigits(n: nat)
    ensures |Digits(n)| > 0
    ensures forall i | 0 <= i < |Digits(n)| :: IsDigit(Digits(n)[i])
    ensures |Digits(n)| > 1 ==> Digits(n)[0] != '0'
    ensures DigitsValue(Digits(n)) == n
  {
    if n >= 10 {
      DigitsAreDigits(n / 10);
      var d := Digits(n);
      assert d[..|d| - 1] == Digits(n / 10);
      assert d[0] == Digits(n / 10)[0];
    }
  }

  lemma ParseNatDigits(n: nat)
    ensures ParseNat(Digits(n)) == Some(n)
  {
    DigitsAreDigits(n);
  }

  lemma ParseTimeDigits(n: nat)
    ensures ParseTime(TimeKey + Digits(n) + "}") == Some(n)
  {
    var s := TimeKey + Digits(n) + "}";
    assert TimeKey <= s;
    assert s[|TimeKey|..|s| - 1] == Digits(n);
    ParseNatDigits(n);
  }

  // ------------------------------------------------------- parser then printer

  lemma {:induction false} EscapeUnescape(s: string, x: string, rest: string)
    requires Unescape(s) == Some((x, rest))
    ensures s == Escape(x) + ['"'] + rest
    decreases |s|
  {
    if s[0] == '"' {
      assert x == [];
    } else if s[0] == '\\' {
      var p := Unescape(s[2..]).value;
      EscapeUnescape(s[2..], p.0, p.1);
      assert x == [s[1]] + p.0;
      assert x[1..] == p.0;
    } else {
      var p := Unescape(s[1..]).value;
      EscapeUnescape(s[1..], p.0, p.1);
      assert x == [s[0]] + p.0;
      assert x[1..] == p.0;
    }
  }

  lemma QuoteParseField(key: string, s: string, x: string, rest: string)
    requires ParseField(key, s) == Some((x, rest))
    ensures s == key + Quote(x) + rest
  {
    EscapeUnescape(s[|key| + 1..], x, rest);
    assert s == s[..|key|] + [s[|key|]] + s[|key| + 1..];
  }

  lemma QuoteOrNullParseField(key: string, s: string, o: Option<string>, rest: string)
    requires ParseFieldOrNull(key, s) == Some((o, rest))
    ensures s == key + QuoteOrNull(o) + rest
  {
    if key + "null" <= s {
      assert s == (key + "null") + s[|key| + 4..];
    } else {
      QuoteParseField(key, s, o.value, rest);
    }
  }

  lemma {:induction false} DigitsOfValue(s: string)
    requires s != [] && (|s| > 1 ==> s[0] != '0')
    requires forall i | 0 <= i < |s| :: IsDigit(s[i])
    ensures Digits(DigitsValue(s)) == s
    ensures |s| > 1 ==> DigitsValue(s) >= 10
    decreases |s|
  {
    if |s| > 1 {
      var init := s[..|s| - 1];
      DigitsOfValue(init);
      assert |init| == 1 ==> DigitsValue(init) > 0 by {
        if |init| == 1 {
          assert init == [init[0]];
          assert DigitsValue(init) == DigitsValue(init[..0]) * 10 + DigitValue(init[0]);
        }
      }
      var n := DigitsValue(s);
      assert n / 10 == DigitsValue(init);
      assert n % 10 == DigitValue(s[|s| - 1]);
      assert s == init + [s[|s| - 1]];
    } else {
      assert s == [s[0]];
      assert s[..0] == [];
    }
  }

  lemma DigitsParseTime(s: string, n: nat)
    requires ParseTime(s) == Some(n)
    ensures s == TimeKey + Digits(n) + "}"
  {
    var body := s[|TimeKey|..|s| - 1];
    DigitsOfValue(body);
    assert s == s[..|TimeKey|] + body + [s[|s| - 1]];
  }

  /** Whatever the parser accepts is exactly the canonical form of what it returns. */
  lemma CanonicalParse(s: string, r: Record)
    requires Parse(s) == Some(r)
    ensures Canonical(r) == s
  {
    var p1 := ParseField(ActKey, s).value;
    var p2 := ParseField(AidKey, p1.1).value;
    var p3 := ParseFieldOrNull(LibKey, p2.1).value;
    var p4 := ParseField(NonceKey, p3.1).value;
    var p5 := ParseField(PayKey, p4.1).value;
    var p6 := ParseField(ResKey, p5.1).value;
    QuoteParseField(ActKey, s, p1.0, p1.1);
    QuoteParseField(AidKey, p1.1, p2.0, p2.1);
    QuoteOrNullParseField(LibKey, p2.1, p3.0, p3.1);
    QuoteParseField(NonceKey, p3.1, p4.0, p4.1);
    QuoteParseField(PayKey, p4.1, p5.0, p5.1);
    QuoteParseField(ResKey, p5.1, p6.0, p6.1);
    DigitsParseTime(p6.1, r.t);
  }

  /** Corollary of `Canonical`'s contract: different records are signed as different strings. */
  lemma CanonicalInjective(r1: Record, r2: Record)
    ensures Canonical(r1) == Canonical(r2) <==> r1 == r2
  {
  }
}
