/**
 `json.dumps(payload, sort_keys=True, separators=(",", ":"))` over real strings.

 A Python dict is a list of members in insertion order with distinct keys. The printer sorts the
 members of every object and escapes everything outside printable ASCII, so the text falls under
 the string grammar of section 7 of RFC 8259.
 */
module CanonicalJson {
  import opened Sorting

  /** A JSON value; a float carries the text `float.__repr__` prints for it. */
  datatype Json =
    | Null
    | Bool(b: bool)
    | Int(n: int)
    | Float(text: string)
    | Str(s: string)
    | Arr(items: seq<Json>)
    | Obj(members: seq<Member>)

  datatype Member = Member(key: string, value: Json)

  // ---------------------------------------------------------------------------------------------
  // Well-formed values
  // ---------------------------------------------------------------------------------------------

  predicate NumberChar(c: char) {
    '0' <= c <= '9' || c in "+-.eENaInfity"
  }

  /** What a printed float can look like: number characters, and a mark that no integer has. */
  predicate FloatText(t: string) {
    && t != ""
    && ('0' <= t[0] <= '9' || t[0] in "-NI")
    && (forall i :: 0 <= i < |t| ==> NumberChar(t[i]))
    && (exists i :: 0 <= i < |t| && t[i] in ".eENI")
  }

  ghost predicate DistinctKeys(ms: seq<Member>) {
    forall i, j :: 0 <= i < j < |ms| ==> ms[i].key != ms[j].key
  }

  /** Objects have distinct keys, as Python dicts do. */
  ghost predicate WellFormed(j: Json) {
    match j
    case Float(t) => FloatText(t)
    case Arr(items) => forall i :: 0 <= i < |items| ==> WellFormed(items[i])
    case Obj(ms) => DistinctKeys(ms) && forall i :: 0 <= i < |ms| ==> WellFormed(ms[i].value)
    case _ => true
  }

  /** A payload: a dict in insertion order. */
  type Dict = ms: seq<Member> | WellFormed(Obj(ms)) ghost witness []

  // ---------------------------------------------------------------------------------------------
  // Key order: Python compares strings by code point, position by position
  // ---------------------------------------------------------------------------------------------

  predicate StringLe(a: string, b: string) {
    a == "" || (b != "" && (a[0] < b[0] || (a[0] == b[0] && StringLe(a[1..], b[1..]))))
  }

  predicate KeyLe(a: Member, b: Member) {
    StringLe(a.key, b.key)
  }

  lemma {:induction false} StringLeTotal(a: string, b: string)
    ensures StringLe(a, b) || StringLe(b, a)
    ensures StringLe(a, b) && StringLe(b, a) ==> a == b
  {
    if a != "" && b != "" {
      StringLeTotal(a[1..], b[1..]);
      assert a == [a[0]] + a[1..] && b == [b[0]] + b[1..];
    }
  }

  lemma {:induction false} StringLeTransitive(a: string, b: string, c: string)
    requires StringLe(a, b) && StringLe(b, c)
    ensures StringLe(a, c)
  {
    if a != "" && b != "" && c != "" && a[0] == b[0] && b[0] == c[0] {
      StringLeTransitive(a[1..], b[1..], c[1..]);
    }
  }

  lemma KeyOrder()
    ensures TotalPreorder(KeyLe)
  {
    forall x: Member, y: Member
      ensures KeyLe(x, y) || KeyLe(y, x)
    {
      StringLeTotal(x.key, y.key);
    }
    forall x: Member, y: Member, z: Member | KeyLe(x, y) && KeyLe(y, z)
      ensures KeyLe(x, z)
    {
      StringLeTransitive(x.key, y.key, z.key);
    }
  }

  function SortMembers(ms: seq<Member>): (r: seq<Member>)
    ensures SortedBy(r, KeyLe) && multiset(r) == multiset(ms) && |r| == |ms|
  {
    KeyOrder();
    Sort(ms, KeyLe)
  }

  /** The value with the members of every object, at every depth, in key order. */
  function Canon(j: Json): (r: Json)
    decreases j, 1
  {
    match j
    case Arr(items) => Arr(seq(|items|, i requires 0 <= i < |items| => Canon(items[i])))
    case Obj(ms) => Obj(SortMembers(CanonMembers(ms)))
    case _ => j
  }

  function CanonMembers(ms: seq<Member>): (r: seq<Member>)
    decreases ms, 0
    ensures |r| == |ms|
    ensures forall i :: 0 <= i < |ms| ==> r[i] == Member(ms[i].key, Canon(ms[i].value))
  {
    seq(|ms|, i requires 0 <= i < |ms| => Member(ms[i].key, Canon(ms[i].value)))
  }

  // ---------------------------------------------------------------------------------------------
  // The printer
  // ---------------------------------------------------------------------------------------------

  function HexDigit(d: nat): char
    requires d < 16
  {
    "0123456789abcdef"[d]
  }

  /** The last `k` hexadecimal digits of a number. */
  function HexText(n: nat, k: nat): (r: string)
    ensures |r| == k
    decreases n, k
  {
    if k == 0 then "" else HexText(n / 16, k - 1) + [HexDigit(n % 16)]
  }

  function Hex4(n: nat): (r: string)
    requires n < 0x10000
    ensures |r| == 4
  {
    HexText(n, 4)
  }

  lemma Div256(n: nat)
    ensures n / 256 == n / 16 / 16
  {
  }

  lemma Div4096(n: nat)
    ensures n / 4096 == n / 256 / 16
  {
  }

  lemma Hex4Digits(n: nat)
    requires n < 0x10000
    ensures Hex4(n) == [HexDigit(n / 4096), HexDigit(n / 256 % 16), HexDigit(n / 16 % 16), HexDigit(n % 16)]
  {
    Div256(n);
    Div4096(n);
    assert n / 4096 < 16;
    assert HexText(n / 4096, 1) == HexText(n / 4096 / 16, 0) + [HexDigit(n / 4096 % 16)];
    assert HexText(n / 256, 2) == HexText(n / 4096, 1) + [HexDigit(n / 256 % 16)];
    assert HexText(n / 16, 3) == HexText(n / 256, 2) + [HexDigit(n / 16 % 16)];
    assert HexText(n, 4) == HexText(n / 16, 3) + [HexDigit(n % 16)];
  }

  function EscapeChar(c: char): string {
    if c == '\"' then "\\\""
    else if c == '\\' then "\\\\"
    else if c == '\n' then "\\n"
    else if c == '\r' then "\\r"
    else if c == '\t' then "\\t"
    else if c == '\U{000C}' then "\\f"
    else if c == '\U{0008}' then "\\b"
    else if ' ' <= c <= '~' then [c]
    else UnicodeEscape(c)
  }

  /** One `\uXXXX` unit, or a surrogate pair of them. */
  function UnicodeEscape(c: char): string {
    if c as int < 0x10000 then "\\u" + Hex4(c as int)
    else
      var v := c as int - 0x10000;
      "\\u" + Hex4(0xd800 + v / 0x400) + "\\u" + Hex4(0xdc00 + v % 0x400)
  }

  function Escape(s: string): string {
    if s == "" then "" else EscapeChar(s[0]) + Escape(s[1..])
  }

  function Quote(s: string): string {
    "\"" + Escape(s) + "\""
  }

  function Digits(n: nat): string {
    if n < 10 then ["0123456789"[n]] else Digits(n / 10) + ["0123456789"[n % 10]]
  }

  function IntText(n: int): string {
    if n < 0 then "-" + Digits(-n) else Digits(n)
  }

  /** Compact text of a value, members in the order given. */
  function Render(j: Json): string
    decreases j, 1
  {
    match j
    case Null => "null"
    case Bool(b) => if b then "true" else "false"
    case Int(n) => IntText(n)
    case Float(t) => t
    case Str(s) => Quote(s)
    case Arr(items) => if items == [] then "[]" else "[" + Render(items[0]) + RenderItems(items[1..])
    case Obj(ms) =>
      if ms == [] then "{}"
      else "{" + Quote(ms[0].key) + ":" + Render(ms[0].value) + RenderMembers(ms[1..])
  }

  /** The remaining items of an array, each after a comma, and the closing bracket. */
  function RenderItems(items: seq<Json>): string
    decreases items, 0
  {
    if items == [] then "]" else "," + Render(items[0]) + RenderItems(items[1..])
  }

  /** The remaining members of an object, each after a comma, and the closing brace. */
  function RenderMembers(ms: seq<Member>): string
    decreases ms, 0
  {
    if ms == [] then "}"
    else "," + Quote(ms[0].key) + ":" + Render(ms[0].value) + RenderMembers(ms[1..])
  }

  /** The payload text that the audit log stores and hashes. */
  function Dumps(payload: seq<Member>): string {
    Render(Canon(Obj(payload)))
  }
}
