/**
 Canonical JSON text, as produced by `json.dumps` with sorted keys, compact separators
 and unescaped non-ASCII characters, together with a reader for that text.

 A Python dict is a sequence of entries in insertion order with distinct keys.  Text is a
 sequence of Unicode scalar values; the UTF-8 encoding that follows is injective on it.
 */
module Json {
  import opened Prelude

  /** `Float` holds the shortest decimal text of a finite float; its formatting is not modelled. */
  datatype Value =
    | Null
    | Bool(b: bool)
    | Int(n: int)
    | Float(lexeme: string)
    | Str(s: string)
    | Arr(items: seq<Value>)
    | Obj(fields: seq<Field>)

  type Field = (string, Value)

  // ---------------------------------------------------------------- well-formed values

  predicate NumberChar(c: char) {
    '0' <= c <= '9' || c == '-' || c == '+' || c == '.' || c == 'e' || c == 'E'
  }

  predicate FloatMark(c: char) {
    c == '.' || c == 'e' || c == 'E'
  }

  predicate FloatLexeme(s: string) {
    && (forall i | 0 <= i < |s| :: NumberChar(s[i]))
    && (exists i | 0 <= i < |s| :: FloatMark(s[i]))
  }

  ghost predicate DistinctKeys(fields: seq<Field>) {
    forall i, j | 0 <= i < j < |fields| :: fields[i].0 != fields[j].0
  }

  /** Values Python can hold: dict keys are distinct and floats have a finite text. */
  ghost predicate WellFormed(v: Value) {
    match v
    case Float(lexeme) => FloatLexeme(lexeme)
    case Arr(items) => forall i | 0 <= i < |items| :: WellFormed(items[i])
    case Obj(fields) => DistinctKeys(fields) && forall i | 0 <= i < |fields| :: WellFormed(fields[i].1)
    case _ => true
  }

  /** Dict keys are distinct at every depth; floats may be anything. */
  ghost predicate Proper(v: Value) {
    match v
    case Arr(items) => forall i | 0 <= i < |items| :: Proper(items[i])
    case Obj(fields) => DistinctKeys(fields) && forall i | 0 <= i < |fields| :: Proper(fields[i].1)
    case _ => true
  }

  lemma {:induction false} WellFormedProper(v: Value)
    requires WellFormed(v)
    ensures Proper(v)
    decreases v
  {
    match v
    case Arr(items) =>
      forall i | 0 <= i < |items| ensures Proper(items[i]) {
        WellFormedProper(items[i]);
      }
    case Obj(fields) =>
      forall i | 0 <= i < |fields| ensures Proper(fields[i].1) {
        WellFormedProper(fields[i].1);
      }
    case _ =>
  }

  // ---------------------------------------------------------------- key order and sorting

  /** Strict code-point order on keys, the order `sort_keys` uses. */
  predicate KeyLess(a: string, b: string) {
    if |b| == 0 then false
    else if |a| == 0 then true
    else if a[0] == b[0] then KeyLess(a[1..], b[1..])
    else a[0] < b[0]
  }

  lemma {:induction false} KeyLessTotal(a: string, b: string)
    ensures a != b ==> KeyLess(a, b) || KeyLess(b, a)
    ensures !(KeyLess(a, b) && KeyLess(b, a))
    ensures !KeyLess(a, a)
  {
    if |a| > 0 && |b| > 0 && a[0] == b[0] {
      KeyLessTotal(a[1..], b[1..]);
      assert a[1..] == b[1..] ==> a == [a[0]] + a[1..] == b;
    }
    if |a| > 0 {
      KeyLessTotal(a[1..], a[1..]);
    }
  }

  lemma {:induction false} KeyLessTransitive(a: string, b: string, c: string)
    requires KeyLess(a, b) && KeyLess(b, c)
    ensures KeyLess(a, c)
  {
    if |a| > 0 && a[0] == b[0] == c[0] {
      KeyLessTransitive(a[1..], b[1..], c[1..]);
    }
  }

  function Insert(f: Field, s: seq<Field>): seq<Field> {
    if s == [] || KeyLess(f.0, s[0].0) then [f] + s else [s[0]] + Insert(f, s[1..])
  }

  function SortFields(s: seq<Field>): seq<Field> {
    if s == [] then [] else Insert(s[0], SortFields(s[1..]))
  }

  ghost predicate Ascending(s: seq<Field>) {
    forall i, j | 0 <= i < j < |s| :: KeyLess(s[i].0, s[j].0)
  }

  lemma {:induction false} InsertKeeps(f: Field, s: seq<Field>)
    ensures multiset(Insert(f, s)) == multiset(s) + multiset{f}
    ensures Ascending(s) && (forall i | 0 <= i < |s| :: s[i].0 != f.0) ==> Ascending(Insert(f, s))
    decreases |s|
  {
    if s == [] || KeyLess(f.0, s[0].0) {
      forall i | 0 < i < |s| && Ascending(s) ensures KeyLess(f.0, s[i].0) {
        KeyLessTransitive(f.0, s[0].0, s[i].0);
      }
    } else {
      InsertKeeps(f, s[1..]);
      assert s == [s[0]] + s[1..];
      var r := Insert(f, s[1..]);
      if Ascending(s) && (forall i | 0 <= i < |s| :: s[i].0 != f.0) {
        KeyLessTotal(f.0, s[0].0);
        forall k | 0 <= k < |r| ensures KeyLess(s[0].0, r[k].0) {
          assert r[k] in multiset(r);
          assert r[k] == f || r[k] in s[1..];
        }
      }
    }
  }

  lemma {:induction false} SortFieldsSorts(s: seq<Field>)
    ensures multiset(SortFields(s)) == multiset(s)
    ensures |SortFields(s)| == |s|
    ensures DistinctKeys(s) ==> Ascending(SortFields(s))
    decreases |s|
  {
    if s != [] {
      var r := SortFields(s[1..]);
      SortFieldsSorts(s[1..]);
      assert s == [s[0]] + s[1..];
      InsertKeeps(s[0], r);
      if DistinctKeys(s) {
        forall i | 0 <= i < |r| ensures r[i].0 != s[0].0 {
          assert r[i] in multiset(r);
          assert r[i] in s[1..];
        }
      }
      assert |multiset(SortFields(s))| == |multiset(s)|;
    }
  }

  /** A strictly ascending list is determined by its elements. */
  lemma {:induction false} AscendingUnique(a: seq<Field>, b: seq<Field>)
    requires Ascending(a) && Ascending(b)
    requires |a| == |b| && forall f :: f in a <==> f in b
    ensures a == b
    decreases |a|
  {
    if a != [] {
      assert a[0] in b;
      assert b[0] in a;
      KeyLessTotal(a[0].0, b[0].0);
      assert a[0] == b[0];
      forall f ensures f in a[1..] <==> f in b[1..] {
        TailElements(a, f);
        TailElements(b, f);
      }
      AscendingUnique(a[1..], b[1..]);
      assert a == [a[0]] + a[1..] && b == [b[0]] + b[1..];
    }
  }

  lemma TailElements(a: seq<Field>, f: Field)
    requires Ascending(a) && a != []
    ensures f in a[1..] <==> f in a && f != a[0]
  {
    if f in a[1..] {
      var i :| 0 <= i < |a[1..]| && a[1..][i] == f;
      assert a[i + 1] == f;
      KeyLessTotal(a[0].0, f.0);
    }
  }

  // ---------------------------------------------------------------- canonical form and text

  /** The value with every dict, at every depth, listed by ascending key. */
  function Canon(v: Value): Value {
    match v
    case Arr(items) => Arr(seq(|items|, i requires 0 <= i < |items| => Canon(items[i])))
    case Obj(fields) => Obj(SortFields(CanonFields(fields)))
    case _ => v
  }

  function CanonField(f: Field): Field {
    (f.0, Canon(f.1))
  }

  function CanonFields(fields: seq<Field>): seq<Field> {
    seq(|fields|, i requires 0 <= i < |fields| => CanonField(fields[i]))
  }

  function Digits(n: nat): (r: string)
    ensures |r| > 0 && forall i | 0 <= i < |r| :: '0' <= r[i] <= '9'
  {
    if n < 10 then ['0' + (n as char)] else Digits(n / 10) + ['0' + ((n % 10) as char)]
  }

  function Decimal(n: int): string {
    if n < 0 then "-" + Digits(-n) else Digits(n)
  }

  function HexDigit(n: nat): char
    requires n < 16
  {
    if n < 10 then '0' + (n as char) else 'a' + ((n - 10) as char)
  }

  /** JSON escapes: the short forms of RFC 8259 section 7, and \u00XX for other control characters. */
  function Escape(c: char): string {
    if c == '"' then "\\\""
    else if c == '\\' then "\\\\"
    else if c == '\n' then "\\n"
    else if c == '\r' then "\\r"
    else if c == '\t' then "\\t"
    else if c as int == 8 then "\\b"
    else if c as int == 12 then "\\f"
    else if c as int < 32 then "\\u00" + [HexDigit(c as int / 16), HexDigit(c as int % 16)]
    else [c]
  }

  /** The escapes by code point: seven short forms, \u00XX for the other controls, and nothing else is changed. */
  lemma EscapesAre(c: char)
    ensures c as int == 0x22 ==> Escape(c) == "\\\""
    ensures c as int == 0x5C ==> Escape(c) == "\\\\"
    ensures c as int == 0x08 ==> Escape(c) == "\\b"
    ensures c as int == 0x09 ==> Escape(c) == "\\t"
    ensures c as int == 0x0A ==> Escape(c) == "\\n"
    ensures c as int == 0x0C ==> Escape(c) == "\\f"
    ensures c as int == 0x0D ==> Escape(c) == "\\r"
    ensures (c as int) < 0x20 && c as int !in {0x08, 0x09, 0x0A, 0x0C, 0x0D} ==>
              && |Escape(c)| == 6 && Escape(c)[..4] == "\\u00"
              && HexValue(Escape(c)[4]).Some? && HexValue(Escape(c)[5]).Some?
              && 16 * HexValue(Escape(c)[4]).value + HexValue(Escape(c)[5]).value == c as int
    ensures c as int >= 0x20 && c as int !in {0x22, 0x5C} ==> Escape(c) == [c]
  {
  }

  function EscapeAll(s: string): string {
    if s == "" then "" else Escape(s[0]) + EscapeAll(s[1..])
  }

  function Quote(s: string): string {
    "\"" + EscapeAll(s) + "\""
  }

  /** Compact text of a value, dict entries in the order given. */
  function Write(v: Value): string
    decreases v, 0
  {
    match v
    case Null => "null"
    case Bool(b) => if b then "true" else "false"
    case Int(n) => Decimal(n)
    case Float(lexeme) => lexeme
    case Str(s) => Quote(s)
    case Arr(items) => "[" + WriteItems(items) + "]"
    case Obj(fields) => "{" + WriteFields(fields) + "}"
  }

  function WriteItems(items: seq<Value>): string
    decreases items, 0
  {
    if |items| == 0 then ""
    else if |items| == 1 then Write(items[0])
    else Write(items[0]) + "," + WriteItems(items[1..])
  }

  function WriteField(f: Field): string
    decreases f, 1
  {
    Quote(f.0) + ":" + Write(f.1)
  }

  function WriteFields(fields: seq<Field>): string
    decreases fields, 2
  {
    if |fields| == 0 then ""
    else if |fields| == 1 then WriteField(fields[0])
    else WriteField(fields[0]) + "," + WriteFields(fields[1..])
  }

  /** `canonical_json_bytes`, before UTF-8 encoding. */
  function Text(v: Value): string {
    Write(Canon(v))
  }

  // ---------------------------------------------------------------- reader

  function DigitsValue(s: string): Option<nat>
    requires |s| > 0
  {
    var last := s[|s| - 1];
    if !('0' <= last <= '9') then None
    else
      var d := (last - '0') as nat;
      if |s| == 1 then Some(d)
      else match DigitsValue(s[..|s| - 1]) {
        case None => None
        case Some(m) => Some(10 * m + d)
      }
  }

  function NumberLength(s: string): (n: nat)
    ensures n <= |s|
  {
    if s == "" || !NumberChar(s[0]) then 0 else 1 + NumberLength(s[1..])
  }

  function ReadNumber(s: string): (r: Option<(Value, string)>)
    ensures r.Some? ==> |r.value.1| < |s|
  {
    var n := NumberLength(s);
    if n == 0 then None
    else
      var token := s[..n];
      if exists i | 0 <= i < |token| :: FloatMark(token[i]) then Some((Float(token), s[n..]))
      else if token[0] == '-' then
        if n == 1 then None
        else match DigitsValue(token[1..]) {
          case None => None
          case Some(m) => Some((Int(0 - m as int), s[n..]))
        }
      else match DigitsValue(token) {
        case None => None
        case Some(m) => Some((Int(m), s[n..]))
      }
  }

  function HexValue(c: char): Option<nat> {
    if '0' <= c <= '9' then Some((c - '0') as nat)
    else if 'a' <= c <= 'f' then Some((c - 'a') as nat + 10)
    else None
  }

  /** One possibly escaped character of a string body, and what follows it. */
  function ReadChar(s: string): (r: Option<(char, string)>)
    ensures r.Some? ==> |r.value.1| < |s|
  {
    if s == "" || s[0] == '"' then None
    else if s[0] != '\\' then Some((s[0], s[1..]))
    else if |s| < 2 then None
    else if s[1] == '"' then Some(('"', s[2..]))
    else if s[1] == '\\' then Some(('\\', s[2..]))
    else if s[1] == 'n' then Some(('\n', s[2..]))
    else if s[1] == 'r' then Some(('\r', s[2..]))
    else if s[1] == 't' then Some(('\t', s[2..]))
    else if s[1] == 'b' then Some((8 as char, s[2..]))
    else if s[1] == 'f' then Some((12 as char, s[2..]))
    else if s[1] != 'u' || |s| < 6 || s[2] != '0' || s[3] != '0' then None
    else match (HexValue(s[4]), HexValue(s[5])) {
      case (Some(hi), Some(lo)) => Some(((16 * hi + lo) as char, s[6..]))
      case _ => None
    }
  }

  /** The rest of a string literal, after its opening quote. */
  function ReadString(s: string): (r: Option<(string, string)>)
    ensures r.Some? ==> |r.value.1| < |s|
    decreases |s|
  {
    if s != "" && s[0] == '"' then Some(("", s[1..]))
    else match ReadChar(s) {
      case None => None
      case Some((c, rest)) => match ReadString(rest) {
        case None => None
        case Some((tail, rest')) => Some(([c] + tail, rest'))
      }
    }
  }

  predicate Starts(s: string, prefix: string) {
    prefix <= s
  }

  function Read(s: string): (r: Option<(Value, string)>)
    ensures r.Some? ==> |r.value.1| < |s|
    decreases |s|, 0
  {
    if s == "" then None
    else if s[0] == '"' then match ReadString(s[1..]) {
      case None => None
      case Some((text, rest)) => Some((Str(text), rest))
    }
    else if s[0] == '[' then
      if Starts(s[1..], "]") then Some((Arr([]), s[2..]))
      else match ReadItems(s[1..]) {
        case None => None
        case Some((items, rest)) => Some((Arr(items), rest))
      }
    else if s[0] == '{' then
      if Starts(s[1..], "}") then Some((Obj([]), s[2..]))
      else match ReadFields(s[1..]) {
        case None => None
        case Some((fields, rest)) => Some((Obj(fields), rest))
      }
    else if Starts(s, "null") then Some((Null, s[4..]))
    else if Starts(s, "true") then Some((Bool(true), s[4..]))
    else if Starts(s, "false") then Some((Bool(false), s[5..]))
    else ReadNumber(s)
  }

  /** One or more items, up to and including the closing bracket. */
  function ReadItems(s: string): (r: Option<(seq<Value>, string)>)
    ensures r.Some? ==> |r.value.1| < |s|
    decreases |s|, 1
  {
    match Read(s)
    case None => None
    case Some((v, rest)) =>
      if Starts(rest, "]") then Some(([v], rest[1..]))
      else if Starts(rest, ",") then match ReadItems(rest[1..]) {
        case None => None
        case Some((items, rest')) => Some(([v] + items, rest'))
      }
      else None
  }

  function ReadField(s: string): (r: Option<(Field, string)>)
    ensures r.Some? ==> |r.value.1| < |s|
    decreases |s|, 1
  {
    if !Starts(s, "\"") then None
    else match ReadString(s[1..]) {
      case None => None
      case Some((key, rest)) =>
        if !Starts(rest, ":") then None
        else match Read(rest[1..]) {
          case None => None
          case Some((v, rest')) => Some(((key, v), rest'))
        }
    }
  }

  function ReadFields(s: string): (r: Option<(seq<Field>, string)>)
    ensures r.Some? ==> |r.value.1| < |s|
    decreases |s|, 2
  {
    match ReadField(s)
    case None => None
    case Some((f, rest)) =>
      if Starts(rest, "}") then Some(([f], rest[1..]))
      else if Starts(rest, ",") then match ReadFields(rest[1..]) {
        case None => None
        case Some((fields, rest')) => Some(([f] + fields, rest'))
      }
      else None
  }

  // ---------------------------------------------------------------- reading back what was written

  lemma {:induction false} DigitsReadBack(n: nat)
    ensures DigitsValue(Digits(n)) == Some(n)
  {
    if n >= 10 {
      DigitsReadBack(n / 10);
      var s := Digits(n);
      assert s[..|s| - 1] == Digits(n / 10);
    }
  }

  /** A number token ends where the next character cannot continue it. */
  lemma {:induction false} NumberTokenEnds(token: string, rest: string)
    requires forall i | 0 <= i < |token| :: NumberChar(token[i])
    requires rest == "" || !NumberChar(rest[0])
    ensures NumberLength(token + rest) == |token|
    decreases |token|
  {
    if token == "" {
      assert token + rest == rest;
    } else {
      assert (token + rest)[1..] == token[1..] + rest;
      NumberTokenEnds(token[1..], rest);
    }
  }

  lemma DecimalToken(n: int)
    ensures var token := Decimal(n);
            && (forall i | 0 <= i < |token| :: NumberChar(token[i]) && !FloatMark(token[i]))
            && (n >= 0 ==> token == Digits(n))
            && (n < 0 ==> token[0] == '-' && token[1..] == Digits(-n))
  {
    hide Digits;
  }

  lemma ReadDecimal(n: int, rest: string)
    requires rest == "" || !NumberChar(rest[0])
    ensures ReadNumber(Decimal(n) + rest) == Some((Int(n), rest))
  {
    var token := Decimal(n);
    DecimalToken(n);
    DigitsReadBack(if n < 0 then -n else n);
    hide Digits, DigitsValue, Decimal, NumberLength;
    NumberTokenEnds(token, rest);
    assert (token + rest)[..|token|] == token;
    assert (token + rest)[|token|..] == rest;
    hide NumberChar;
  }

  lemma ReadFloat(lexeme: string, rest: string)
    requires FloatLexeme(lexeme)
    requires rest == "" || !NumberChar(rest[0])
    ensures ReadNumber(lexeme + rest) == Some((Float(lexeme), rest))
  {
    NumberTokenEnds(lexeme, rest);
    assert (lexeme + rest)[..|lexeme|] == lexeme;
    assert (lexeme + rest)[|lexeme|..] == rest;
  }

  lemma ReadEscape(c: char, rest: string)
    ensures ReadChar(Escape(c) + rest) == Some((c, rest))
    ensures Escape(c)[0] != '"'
  {
    var e := Escape(c);
    assert (e + rest)[|e|..] == rest;
    assert forall i | 0 <= i < |e| :: (e + rest)[i] == e[i];
    if |e| == 6 {
      var k := c as int;
      assert HexValue(HexDigit(k / 16)) == Some(k / 16);
      assert HexValue(HexDigit(k % 16)) == Some(k % 16);
    }
  }

  lemma {:induction false} ReadQuoted(s: string, rest: string)
    ensures ReadString(EscapeAll(s) + "\"" + rest) == Some((s, rest))
    decreases |s|
  {
    if s == "" {
      assert EscapeAll(s) + "\"" + rest == "\"" + rest;
    } else {
      var tail := EscapeAll(s[1..]) + "\"" + rest;
      assert EscapeAll(s) + "\"" + rest == Escape(s[0]) + tail;
      ReadQuoted(s[1..], rest);
      QuotedStep(s[0], tail, s[1..], rest);
      assert s == [s[0]] + s[1..];
    }
  }

  lemma QuotedStep(c: char, tail: string, s: string, rest: string)
    requires ReadString(tail) == Some((s, rest))
    ensures ReadString(Escape(c) + tail) == Some(([c] + s, rest))
  {
    ReadEscape(c, tail);
    hide Escape, ReadChar;
  }

  predicate Delimited(rest: string) {
    rest == "" || !NumberChar(rest[0])
  }

  /** No written value is mistaken for another kind by its first characters. */
  lemma WrittenStart(v: Value)
    requires WellFormed(v)
    ensures |Write(v)| > 0 && Write(v)[0] != ']'
  {
  }

  lemma ReadLiteral(v: Value, rest: string)
    requires v.Null? || v.Bool?
    ensures Read(Write(v) + rest) == Some((v, rest))
  {
    var s := Write(v) + rest;
    assert s[|Write(v)|..] == rest;
    if v.Null? {
      assert s[0] == 'n';
    } else if v.b {
      assert s[0] == 't';
    } else {
      assert s[0] == 'f';
    }
  }

  lemma ReadEmpty(v: Value, rest: string)
    requires v == Arr([]) || v == Obj([])
    ensures Read(Write(v) + rest) == Some((v, rest))
  {
    var s := Write(v) + rest;
    assert Write(v) == (if v.Arr? then "[]" else "{}");
    assert s[1..][0] == (if v.Arr? then ']' else '}') && s[2..] == rest;
  }

  lemma ReadNumeral(v: Value, rest: string)
    requires WellFormed(v) && (v.Int? || v.Float?) && Delimited(rest)
    ensures Read(Write(v) + rest) == Some((v, rest))
  {
    var s := Write(v) + rest;
    assert |Write(v)| > 0 && s[0] == Write(v)[0];
    if v.Int? {
      ReadDecimal(v.n, rest);
    } else {
      ReadFloat(v.lexeme, rest);
    }
    assert NumberChar(s[0]);
  }

  lemma ReadLiteralString(s: string, text: string, rest: string)
    requires s != "" && s[0] == '"' && ReadString(s[1..]) == Some((text, rest))
    ensures Read(s) == Some((Str(text), rest))
  {
  }

  lemma ReadArray(s: string, items: seq<Value>, rest: string)
    requires |s| > 1 && s[0] == '[' && s[1] != ']' && ReadItems(s[1..]) == Some((items, rest))
    ensures Read(s) == Some((Arr(items), rest))
  {
    assert s[1..][0] == s[1];
  }

  lemma ReadObject(s: string, fields: seq<Field>, rest: string)
    requires |s| > 1 && s[0] == '{' && s[1] != '}' && ReadFields(s[1..]) == Some((fields, rest))
    ensures Read(s) == Some((Obj(fields), rest))
  {
    assert s[1..][0] == s[1];
  }

  lemma ArrayFromItems(items: seq<Value>, rest: string)
    requires items != [] && WellFormed(Arr(items))
    requires ReadItems(WriteItems(items) + "]" + rest) == Some((items, rest))
    ensures Read(Write(Arr(items)) + rest) == Some((Arr(items), rest))
  {
    var s := Write(Arr(items)) + rest;
    assert s[1..] == WriteItems(items) + "]" + rest;
    ItemsStart(items);
    ReadArray(s, items, rest);
  }

  lemma ObjectFromFields(fields: seq<Field>, rest: string)
    requires fields != []
    requires ReadFields(WriteFields(fields) + "}" + rest) == Some((fields, rest))
    ensures Read(Write(Obj(fields)) + rest) == Some((Obj(fields), rest))
  {
    var s := Write(Obj(fields)) + rest;
    assert s[1..] == WriteFields(fields) + "}" + rest;
    FieldsStart(fields);
    ReadObject(s, fields, rest);
  }

  lemma ReadWrittenString(text: string, rest: string)
    ensures Read(Write(Str(text)) + rest) == Some((Str(text), rest))
  {
    var s := Write(Str(text)) + rest;
    assert s[1..] == EscapeAll(text) + "\"" + rest;
    ReadQuoted(text, rest);
    ReadLiteralString(s, text, rest);
  }

  /** The reader undoes the writer on every well-formed value, whatever delimiter follows it. */
  lemma {:induction false} ReadWritten(v: Value, rest: string)
    requires WellFormed(v) && Delimited(rest)
    ensures Read(Write(v) + rest) == Some((v, rest))
    decreases v, 0
  {
    match v
    case Str(text) => ReadWrittenString(text, rest);
    case Arr(items) =>
      if items == [] {
        ReadEmpty(v, rest);
      } else {
        ReadWrittenItems(items, rest);
        ArrayFromItems(items, rest);
      }
    case Obj(fields) =>
      if fields == [] {
        ReadEmpty(v, rest);
      } else {
        ReadWrittenFields(fields, rest);
        ObjectFromFields(fields, rest);
      }
    case Int(_) => ReadNumeral(v, rest);
    case Float(_) => ReadNumeral(v, rest);
    case _ => ReadLiteral(v, rest);
  }

  lemma ItemsStart(items: seq<Value>)
    requires items != [] && forall i | 0 <= i < |items| :: WellFormed(items[i])
    ensures |WriteItems(items)| > 0 && WriteItems(items)[0] != ']'
  {
    WrittenStart(items[0]);
  }

  lemma FieldsStart(fields: seq<Field>)
    requires fields != []
    ensures |WriteFields(fields)| > 0 && WriteFields(fields)[0] == '"'
  {
    assert WriteField(fields[0])[0] == '"';
  }

  lemma LastItem(s: string, v: Value, rest: string)
    requires Read(s) == Some((v, rest)) && Starts(rest, "]")
    ensures ReadItems(s) == Some(([v], rest[1..]))
  {
  }

  lemma NextItem(s: string, v: Value, tail: string, items: seq<Value>, rest: string)
    requires Read(s) == Some((v, tail)) && Starts(tail, ",")
    requires ReadItems(tail[1..]) == Some((items, rest))
    ensures ReadItems(s) == Some(([v] + items, rest))
  {
    assert tail[0] == ',';
  }

  lemma {:induction false} ReadWrittenItems(items: seq<Value>, rest: string)
    requires items != [] && forall i | 0 <= i < |items| :: WellFormed(items[i])
    ensures ReadItems(WriteItems(items) + "]" + rest) == Some((items, rest))
    decreases items, 0
  {
    var s := WriteItems(items) + "]" + rest;
    if |items| == 1 {
      assert s == Write(items[0]) + ("]" + rest);
      ReadWritten(items[0], "]" + rest);
      LastItem(s, items[0], "]" + rest);
      assert items == [items[0]];
    } else {
      var tail := WriteItems(items[1..]) + "]" + rest;
      assert s == Write(items[0]) + ("," + tail);
      ReadWritten(items[0], "," + tail);
      ReadWrittenItems(items[1..], rest);
      NextItem(s, items[0], "," + tail, items[1..], rest);
      assert items == [items[0]] + items[1..];
    }
  }

  lemma {:induction false} ReadWrittenField(f: Field, rest: string)
    requires WellFormed(f.1) && Delimited(rest)
    ensures ReadField(WriteField(f) + rest) == Some((f, rest))
    decreases f, 1
  {
    var s := WriteField(f) + rest;
    var value := Write(f.1) + rest;
    var body := EscapeAll(f.0);
    assert s == "\"" + body + "\"" + ":" + Write(f.1) + rest;
    Regroup(body, "\"", ":", Write(f.1), rest);
    assert s[1..] == body + "\"" + (":" + value);
    ReadQuoted(f.0, ":" + value);
    ReadWritten(f.1, rest);
    EntryRead(s, f.0, ":" + value, f.1, rest);
  }

  lemma Regroup(a: string, b: string, c: string, d: string, e: string)
    ensures "\"" + a + b + c + d + e == "\"" + (a + b + (c + (d + e)))
  {
  }

  lemma EntryRead(s: string, key: string, tail: string, v: Value, rest: string)
    requires Starts(s, "\"") && ReadString(s[1..]) == Some((key, tail))
    requires Starts(tail, ":") && Read(tail[1..]) == Some((v, rest))
    ensures ReadField(s) == Some(((key, v), rest))
  {
  }

  lemma LastField(s: string, f: Field, rest: string)
    requires ReadField(s) == Some((f, rest)) && Starts(rest, "}")
    ensures ReadFields(s) == Some(([f], rest[1..]))
  {
  }

  lemma NextField(s: string, f: Field, tail: string, fields: seq<Field>, rest: string)
    requires ReadField(s) == Some((f, tail)) && Starts(tail, ",")
    requires ReadFields(tail[1..]) == Some((fields, rest))
    ensures ReadFields(s) == Some(([f] + fields, rest))
  {
    assert tail[0] == ',';
  }

  lemma {:induction false} ReadWrittenFields(fields: seq<Field>, rest: string)
    requires fields != [] && forall i | 0 <= i < |fields| :: WellFormed(fields[i].1)
    ensures ReadFields(WriteFields(fields) + "}" + rest) == Some((fields, rest))
    decreases fields, 2
  {
    var s := WriteFields(fields) + "}" + rest;
    if |fields| == 1 {
      assert s == WriteField(fields[0]) + ("}" + rest);
      ReadWrittenField(fields[0], "}" + rest);
      LastField(s, fields[0], "}" + rest);
      assert fields == [fields[0]];
    } else {
      var tail := WriteFields(fields[1..]) + "}" + rest;
      assert s == WriteField(fields[0]) + ("," + tail);
      ReadWrittenField(fields[0], "," + tail);
      ReadWrittenFields(fields[1..], rest);
      NextField(s, fields[0], "," + tail, fields[1..], rest);
      assert fields == [fields[0]] + fields[1..];
    }
  }

  // ---------------------------------------------------------------- what the text commits to

  /** Python's `==` on JSON data of equal types: dicts compare by key, whatever their order. */
  ghost predicate SameData(v: Value, w: Value)
    decreases v
  {
    match (v, w)
    case (Arr(a), Arr(b)) => |a| == |b| && forall i | 0 <= i < |a| :: SameData(a[i], b[i])
    case (Obj(f), Obj(g)) =>
      && |f| == |g|
      && (forall i | 0 <= i < |f| :: EntryIn(f[i], g))
      && (forall j | 0 <= j < |g| :: EntryOf(f, g[j]))
    case _ => v == w
  }

  ghost predicate EntryIn(x: Field, g: seq<Field>)
    decreases x, 1
  {
    exists j | 0 <= j < |g| :: SameEntry(x, g[j])
  }

  ghost predicate EntryOf(f: seq<Field>, y: Field)
    decreases f
  {
    exists i | 0 <= i < |f| :: SameEntry(f[i], y)
  }

  ghost predicate SameEntry(f: Field, g: Field)
    decreases f, 0
  {
    f.0 == g.0 && SameData(f.1, g.1)
  }

  lemma CanonFieldsAt(fields: seq<Field>)
    ensures |CanonFields(fields)| == |fields|
    ensures forall i | 0 <= i < |fields| :: CanonFields(fields)[i] == (fields[i].0, Canon(fields[i].1))
  {
    forall i | 0 <= i < |fields| ensures CanonFields(fields)[i] == (fields[i].0, Canon(fields[i].1)) {
      assert CanonFields(fields)[i] == CanonField(fields[i]);
    }
  }

  lemma CanonFieldsDistinct(fields: seq<Field>)
    requires DistinctKeys(fields)
    ensures DistinctKeys(CanonFields(fields))
  {
    CanonFieldsAt(fields);
  }

  lemma {:induction false} CanonWellFormed(v: Value)
    requires WellFormed(v)
    ensures WellFormed(Canon(v))
  {
    match v
    case Arr(items) =>
      forall i | 0 <= i < |items| ensures WellFormed(Canon(items[i])) {
        CanonWellFormed(items[i]);
      }
    case Obj(fields) =>
      var c := CanonFields(fields);
      var r := SortFields(c);
      CanonFieldsAt(fields);
      CanonFieldsDistinct(fields);
      SortFieldsSorts(c);
      forall i, j | 0 <= i < j < |r| ensures r[i].0 != r[j].0 {
        KeyLessTotal(r[i].0, r[j].0);
      }
      forall i | 0 <= i < |r| ensures WellFormed(r[i].1) {
        assert r[i] in multiset(r);
        var k :| 0 <= k < |c| && c[k] == r[i];
        CanonWellFormed(fields[k].1);
      }
    case _ =>
  }

  lemma CanonDecidesItems(a: seq<Value>, b: seq<Value>)
    requires |a| == |b| ==> forall i | 0 <= i < |a| :: SameData(a[i], b[i]) <==> Canon(a[i]) == Canon(b[i])
    ensures SameData(Arr(a), Arr(b)) <==> Canon(Arr(a)) == Canon(Arr(b))
  {
    var ca, cb := Canon(Arr(a)).items, Canon(Arr(b)).items;
    assert |ca| == |a| && |cb| == |b|;
    assert forall i | 0 <= i < |a| :: ca[i] == Canon(a[i]);
    assert forall i | 0 <= i < |b| :: cb[i] == Canon(b[i]);
    if SameData(Arr(a), Arr(b)) {
      assert ca == cb;
    }
  }

  ghost predicate Covers(a: seq<Field>, b: seq<Field>) {
    forall i | 0 <= i < |b| :: b[i] in a
  }

  lemma SortDecidesElements(cf: seq<Field>, cg: seq<Field>)
    requires DistinctKeys(cf) && DistinctKeys(cg)
    ensures |cf| == |cg| && Covers(cf, cg) && Covers(cg, cf) <==> SortFields(cf) == SortFields(cg)
  {
    SortFieldsSorts(cf);
    SortFieldsSorts(cg);
    forall x ensures (x in cf <==> x in SortFields(cf)) && (x in cg <==> x in SortFields(cg)) {
      assert x in cf <==> x in multiset(SortFields(cf));
      assert x in cg <==> x in multiset(SortFields(cg));
    }
    if |cf| == |cg| && Covers(cf, cg) && Covers(cg, cf) {
      AscendingUnique(SortFields(cf), SortFields(cg));
    }
  }

  ghost predicate EntriesAgree(f: seq<Field>, g: seq<Field>, cf: seq<Field>, cg: seq<Field>) {
    && |cf| == |f| && |cg| == |g|
    && forall i, j | 0 <= i < |f| && 0 <= j < |g| :: SameEntry(f[i], g[j]) <==> cf[i] == cg[j]
  }

  lemma EntryInIff(f: seq<Field>, g: seq<Field>, cf: seq<Field>, cg: seq<Field>, i: nat)
    requires EntriesAgree(f, g, cf, cg) && i < |f|
    ensures EntryIn(f[i], g) <==> cf[i] in cg
  {
    if cf[i] in cg {
      var j :| 0 <= j < |cg| && cg[j] == cf[i];
      assert SameEntry(f[i], g[j]);
    }
  }

  lemma EntryOfIff(f: seq<Field>, g: seq<Field>, cf: seq<Field>, cg: seq<Field>, j: nat)
    requires EntriesAgree(f, g, cf, cg) && j < |g|
    ensures EntryOf(f, g[j]) <==> cg[j] in cf
  {
    if cg[j] in cf {
      var i :| 0 <= i < |cf| && cf[i] == cg[j];
      assert SameEntry(f[i], g[j]);
    }
  }

  lemma ObjectsMatch(f: seq<Field>, g: seq<Field>, cf: seq<Field>, cg: seq<Field>)
    requires EntriesAgree(f, g, cf, cg)
    ensures SameData(Obj(f), Obj(g)) <==> |cf| == |cg| && Covers(cf, cg) && Covers(cg, cf)
  {
    forall i | 0 <= i < |f| ensures EntryIn(f[i], g) <==> cf[i] in cg {
      EntryInIff(f, g, cf, cg, i);
    }
    forall j | 0 <= j < |g| ensures EntryOf(f, g[j]) <==> cg[j] in cf {
      EntryOfIff(f, g, cf, cg, j);
    }
  }

  /** Two values are the same data exactly when their canonical forms coincide. */
  lemma {:induction false} CanonDecidesSameData(v: Value, w: Value)
    requires Proper(v) && Proper(w)
    ensures SameData(v, w) <==> Canon(v) == Canon(w)
    decreases v
  {
    match (v, w)
    case (Arr(a), Arr(b)) =>
      if |a| == |b| {
        forall i | 0 <= i < |a| ensures SameData(a[i], b[i]) <==> Canon(a[i]) == Canon(b[i]) {
          CanonDecidesSameData(a[i], b[i]);
        }
      }
      CanonDecidesItems(a, b);
    case (Obj(f), Obj(g)) =>
      var cf, cg := CanonFields(f), CanonFields(g);
      CanonFieldsAt(f);
      CanonFieldsAt(g);
      CanonFieldsDistinct(f);
      CanonFieldsDistinct(g);
      forall i, j | 0 <= i < |f| && 0 <= j < |g| ensures SameEntry(f[i], g[j]) <==> cf[i] == cg[j] {
        CanonDecidesSameData(f[i].1, g[j].1);
      }
      ObjectsMatch(f, g, cf, cg);
      SortDecidesElements(cf, cg);
    case _ =>
  }

  /** The reader recovers the canonical form, hence the data, from the canonical text. */
  lemma ReadText(v: Value)
    requires WellFormed(v)
    ensures Read(Text(v)) == Some((Canon(v), ""))
  {
    CanonWellFormed(v);
    ReadWritten(Canon(v), "");
    assert Text(v) + "" == Text(v);
  }

  /** Canonical text is equal exactly for equal data: it forgets insertion order and nothing else. */
  lemma TextDecidesSameData(v: Value, w: Value)
    requires WellFormed(v) && WellFormed(w)
    ensures Text(v) == Text(w) <==> SameData(v, w)
  {
    ReadText(v);
    ReadText(w);
    WellFormedProper(v);
    WellFormedProper(w);
    CanonDecidesSameData(v, w);
  }

  /** A text followed by a fixed-length link can be split again. */
  lemma ChainedTextUnambiguous(v: Value, link: string, w: Value, link': string)
    requires WellFormed(v) && WellFormed(w) && |link| == |link'|
    requires Text(v) + link == Text(w) + link'
    ensures SameData(v, w) && link == link'
  {
    var s, s' := Text(v) + link, Text(w) + link';
    assert s[|s| - |link|..] == link && s'[|s'| - |link'|..] == link';
    assert s[..|s| - |link|] == Text(v) && s'[..|s'| - |link'|] == Text(w);
    TextDecidesSameData(v, w);
  }
}
