/**
 * JSON texts as concrete syntax trees (RFC 8259, sections 2 to 7): a text is well formed when it is the
 * text of a valid tree. Bytes are chars; bytes above 0x7F occur only inside strings.
 */
module Json {
  import opened Prelude

  datatype Item =
    | Plain(c: char)
    | Escape(c: char)
    | Unicode(h: string)

  datatype Exponent = Exponent(upper: bool, sign: string, digits: string)

  datatype Value =
    | Str(items: seq<Item>)
    | Word(text: string)
    | Num(minus: bool, whole: string, frac: string, exp: Option<Exponent>)
    | Arr(lead: string, elems: Elems)
    | Obj(lead: string, members: Members)

  datatype Elems = NoElem | Elem(before: string, value: Value, after: string, rest: Elems)

  datatype Members =
    | NoMember
    | Member(before: string, key: seq<Item>, gap: string, colon: string, value: Value, after: string, rest: Members)

  // ----- text

  function ItemText(x: Item): string {
    match x
    case Plain(c) => [c]
    case Escape(c) => ['\\', c]
    case Unicode(h) => ['\\', 'u'] + h
  }

  function ItemsText(xs: seq<Item>): string {
    if xs == [] then "" else ItemText(xs[0]) + ItemsText(xs[1..])
  }

  function StrText(xs: seq<Item>): string {
    ['"'] + ItemsText(xs) + ['"']
  }

  function NumText(minus: bool, whole: string, frac: string, exp: Option<Exponent>): string {
    (if minus then "-" else "") + whole + (if frac == "" then "" else "." + frac) +
    (match exp case None => "" case Some(e) => (if e.upper then "E" else "e") + e.sign + e.digits)
  }

  function Text(v: Value): string {
    match v
    case Str(items) => StrText(items)
    case Word(text) => text
    case Num(minus, whole, frac, exp) => NumText(minus, whole, frac, exp)
    case Arr(lead, elems) => "[" + (if elems.NoElem? then lead else ElemsText(elems)) + "]"
    case Obj(lead, members) => "{" + (if members.NoMember? then lead else MembersText(members)) + "}"
  }

  function ElemsText(es: Elems): string {
    match es
    case NoElem => ""
    case Elem(before, value, after, rest) =>
      before + Text(value) + after + (if rest.NoElem? then "" else "," + ElemsText(rest))
  }

  function MembersText(ms: Members): string {
    match ms
    case NoMember => ""
    case Member(before, key, gap, colon, value, after, rest) =>
      before + StrText(key) + gap + ":" + colon + Text(value) + after +
      (if rest.NoMember? then "" else "," + MembersText(rest))
  }

  // ----- validity

  predicate IsWs(c: char) {
    c == ' ' || c == '\t' || c == '\n' || c == '\r'
  }

  predicate AllWs(s: string) {
    forall i :: 0 <= i < |s| ==> IsWs(s[i])
  }

  predicate IsDigit(c: char) {
    '0' <= c <= '9'
  }

  predicate Digits(s: string) {
    s != "" && forall i :: 0 <= i < |s| ==> IsDigit(s[i])
  }

  predicate IsHex(c: char) {
    IsDigit(c) || 'a' <= c <= 'f' || 'A' <= c <= 'F'
  }

  predicate ValidItem(x: Item) {
    match x
    case Plain(c) => c >= ' ' && c != '"' && c != '\\'
    case Escape(c) => c == '"' || c == '\\' || c == '/' || c == 'b' || c == 'f' || c == 'n' || c == 'r' || c == 't'
    case Unicode(h) => |h| == 4 && forall i :: 0 <= i < 4 ==> IsHex(h[i])
  }

  predicate ValidItems(xs: seq<Item>) {
    forall i :: 0 <= i < |xs| ==> ValidItem(xs[i])
  }

  predicate ValidNum(whole: string, frac: string, exp: Option<Exponent>) {
    && Digits(whole) && (whole[0] == '0' ==> |whole| == 1)
    && (frac == "" || Digits(frac))
    && (exp.Some? ==> exp.value.sign in {"", "+", "-"} && Digits(exp.value.digits))
  }

  predicate Valid(v: Value) {
    match v
    case Str(items) => ValidItems(items)
    case Word(text) => text == "true" || text == "false" || text == "null"
    case Num(_, whole, frac, exp) => ValidNum(whole, frac, exp)
    case Arr(lead, elems) => AllWs(lead) && ValidElems(elems)
    case Obj(lead, members) => AllWs(lead) && ValidMembers(members)
  }

  predicate ValidElems(es: Elems) {
    es.Elem? ==> AllWs(es.before) && Valid(es.value) && AllWs(es.after) && ValidElems(es.rest)
  }

  predicate ValidMembers(ms: Members) {
    ms.Member? ==>
      && AllWs(ms.before) && ValidItems(ms.key) && AllWs(ms.gap) && AllWs(ms.colon)
      && Valid(ms.value) && AllWs(ms.after) && ValidMembers(ms.rest)
  }

  // ----- meaning of strings

  function HexValue(c: char): nat {
    if IsDigit(c) then c as nat - '0' as nat
    else if 'a' <= c <= 'f' then c as nat - 'a' as nat + 10
    else if 'A' <= c <= 'F' then c as nat - 'A' as nat + 10
    else 0
  }

  function Hex4(h: string): nat
    requires |h| == 4
  {
    4096 * HexValue(h[0]) + 256 * HexValue(h[1]) + 16 * HexValue(h[2]) + HexValue(h[3])
  }

  function EscapeValue(c: char): nat {
    match c
    case 'b' => 8
    case 'f' => 12
    case 'n' => 10
    case 'r' => 13
    case 't' => 9
    case _ => c as nat
  }

  /**
   * What an item decodes to. Bytes of a multi-byte character and halves of a surrogate pair stay
   * separate; none of them is ASCII, so comparing with an ASCII name is exact.
   */
  function ItemValue(x: Item): nat {
    match x
    case Plain(c) => c as nat
    case Escape(c) => EscapeValue(c)
    case Unicode(h) => if |h| == 4 then Hex4(h) else 0
  }

  function Decoded(xs: seq<Item>): seq<nat> {
    seq(|xs|, i requires 0 <= i < |xs| => ItemValue(xs[i]))
  }

  function Codes(s: string): seq<nat> {
    seq(|s|, i requires 0 <= i < |s| => s[i] as nat)
  }

  // ----- encoding a name

  function HexChar(d: nat): char
    requires d < 16
  {
    if d < 10 then '0' + d as char else 'a' + (d - 10) as char
  }

  /** How the encoder writes one byte: short escapes, \u00XX for other controls and for < > &, else itself. */
  function QuoteChar(c: char): Item {
    if c == '"' || c == '\\' then Escape(c)
    else if c == '\n' then Escape('n')
    else if c == '\r' then Escape('r')
    else if c == '\t' then Escape('t')
    else if c as nat == 8 then Escape('b')
    else if c as nat == 12 then Escape('f')
    else if c < ' ' || c == '<' || c == '>' || c == '&' then
      Unicode(['0', '0', HexChar(c as nat / 16), HexChar(c as nat % 16)])
    else Plain(c)
  }

  function Quote(s: string): seq<Item> {
    seq(|s|, i requires 0 <= i < |s| => QuoteChar(s[i]))
  }

  lemma HexRoundTrip(d: nat)
    requires d < 16
    ensures HexValue(HexChar(d)) == d && IsHex(HexChar(d))
  {
  }

  lemma Hex4OfSmall(n: nat)
    requires n < 256
    ensures var h := ['0', '0', HexChar(n / 16), HexChar(n % 16)]; Hex4(h) == n && ValidItem(Unicode(h))
  {
    HexRoundTrip(n / 16);
    HexRoundTrip(n % 16);
  }

  lemma QuoteCharRoundTrip(c: char)
    ensures ValidItem(QuoteChar(c)) && ItemValue(QuoteChar(c)) == c as nat
  {
    if c as nat < 256 { Hex4OfSmall(c as nat); }
  }

  /** The encoded name is a valid JSON string that decodes to the name. */
  lemma QuoteRoundTrip(s: string)
    ensures ValidItems(Quote(s)) && Decoded(Quote(s)) == Codes(s)
  {
    forall i | 0 <= i < |s| ensures ValidItem(Quote(s)[i]) && ItemValue(Quote(s)[i]) == s[i] as nat {
      QuoteCharRoundTrip(s[i]);
    }
  }
}
