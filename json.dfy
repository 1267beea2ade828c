/**
 * The JSON text the browser keeps in local storage and sends in request bodies:
 * `JSON.stringify` of a value and `JSON.parse` of a text, for values whose
 * numbers are integers. `Parse` refuses every text that is not JSON (where
 * `JSON.parse` throws), and reads back every text `Stringify` writes.
 */
module Json {

  import opened Basics
  import opened Text

  /** A JSON value. An object keeps its members in text order. */
  datatype Json =
    | Null
    | Bool(b: bool)
    | Num(n: int)
    | Str(s: string)
    | Arr(items: seq<Json>)
    | Obj(members: seq<Member>)

  datatype Member = Member(key: string, value: Json)

  // ---------------------------------------------------------------- writing

  /** The lower-case hexadecimal digit of 0 <= d < 16. */
  function HexChar(d: int): (c: char)
    requires 0 <= d < 16
    ensures IsHex(c) && HexValue(c) == d
  {
    if d < 10 then (d + '0' as int) as char else (d - 10 + 'a' as int) as char
  }

  /** How `JSON.stringify` writes one character of a string. */
  function EscapeChar(c: char): (e: string)
    ensures |e| >= 1 && e[0] != '"'
    ensures e[0] == '\\' || e == [c]
    ensures e == [c] ==> ' ' <= c && c != '"' && c != '\\'
  {
    if c == '"' then "\\\""
    else if c == '\\' then "\\\\"
    else if c == '\U{0008}' then "\\b"
    else if c == '\U{000C}' then "\\f"
    else if c == '\n' then "\\n"
    else if c == '\r' then "\\r"
    else if c == '\t' then "\\t"
    else if c < ' ' then "\\u00" + [HexChar(c as int / 16), HexChar(c as int % 16)]
    else [c]
  }

  /** The escaped characters of `s`, followed by `rest`. */
  function EscapeTo(s: string, rest: string): (t: string)
    ensures |t| >= |rest|
  {
    if s == [] then rest else EscapeChar(s[0]) + EscapeTo(s[1..], rest)
  }

  /**
   * The text `JSON.stringify` writes for `j` (no whitespace; items and members
   * separated by commas), followed by `rest`.
   */
  function WriteTo(j: Json, rest: string): (t: string)
    ensures |t| > |rest| && ValueStart(t[0])
  {
    match j
    case Null => "null" + rest
    case Bool(b) => (if b then "true" else "false") + rest
    case Num(n) => IntToString(n) + rest
    case Str(s) => "\"" + EscapeTo(s, "\"" + rest)
    case Arr(items) => "[" + (if items == [] then "]" + rest else WriteItemsTo(items, "]" + rest))
    case Obj(members) => "{" + (if members == [] then "}" + rest else WriteMembersTo(members, "}" + rest))
  }

  /** The non-empty `items`, comma-separated, followed by `rest`. */
  function WriteItemsTo(items: seq<Json>, rest: string): (t: string)
    requires items != []
    ensures |t| > |rest| && ValueStart(t[0])
  {
    WriteTo(items[0], if |items| == 1 then rest else "," + WriteItemsTo(items[1..], rest))
  }

  /** One member as `"key":value`, followed by `rest`. */
  function WriteMemberTo(m: Member, rest: string): (t: string)
    ensures |t| > |rest| && t[0] == '"'
  {
    "\"" + EscapeTo(m.key, "\"" + (":" + WriteTo(m.value, rest)))
  }

  /** The non-empty `members`, comma-separated, followed by `rest`. */
  function WriteMembersTo(members: seq<Member>, rest: string): (t: string)
    requires members != []
    ensures |t| > |rest| && t[0] == '"'
  {
    WriteMemberTo(members[0], if |members| == 1 then rest else "," + WriteMembersTo(members[1..], rest))
  }

  /** `JSON.stringify`. */
  function Stringify(j: Json): string
  {
    WriteTo(j, [])
  }

  // ---------------------------------------------------------------- reading

  /** The four whitespace characters JSON allows between tokens. */
  predicate IsJsonSpace(c: char)
  {
    c == ' ' || c == '\t' || c == '\n' || c == '\r'
  }

  /** A character a value's text can start with. */
  predicate ValueStart(c: char)
  {
    c == 'n' || c == 't' || c == 'f' || c == '"' || c == '[' || c == '{' || c == '-' || ('0' <= c <= '9')
  }

  predicate IsDigit(c: char)
  {
    '0' <= c <= '9'
  }

  predicate IsHex(c: char)
  {
    IsDigit(c) || ('a' <= c <= 'f') || ('A' <= c <= 'F')
  }

  function HexValue(c: char): (v: int)
    requires IsHex(c)
    ensures 0 <= v < 16
  {
    if IsDigit(c) then c as int - '0' as int
    else if 'a' <= c <= 'f' then c as int - 'a' as int + 10
    else c as int - 'A' as int + 10
  }

  /** The input without its leading whitespace. */
  function SkipSpace(s: string): (r: string)
    ensures |r| <= |s|
    ensures r == [] || !IsJsonSpace(r[0])
    ensures s == [] || !IsJsonSpace(s[0]) ==> r == s
  {
    if s != [] && IsJsonSpace(s[0]) then SkipSpace(s[1..]) else s
  }

  /** The number of leading decimal digits. */
  function DigitRun(s: string): (k: nat)
    ensures k <= |s|
    ensures forall i :: 0 <= i < k ==> IsDigit(s[i])
    ensures k < |s| ==> !IsDigit(s[k])
  {
    if s != [] && IsDigit(s[0]) then 1 + DigitRun(s[1..]) else 0
  }

  /** The value of a string of decimal digits. */
  function DigitsValue(d: string): (v: nat)
    requires forall i :: 0 <= i < |d| ==> IsDigit(d[i])
  {
    if d == [] then 0
    else
      assert IsDigit(d[|d| - 1]);
      DigitsValue(d[..|d| - 1]) * 10 + (d[|d| - 1] as int - '0' as int)
  }

  /** The character after a backslash in a string literal, and what follows it. */
  function Unescape(s: string): (r: Option<(char, string)>)
    ensures r.Some? ==> |r.value.1| < |s|
  {
    if s == [] then None
    else if s[0] == '"' then Some(('"', s[1..]))
    else if s[0] == '\\' then Some(('\\', s[1..]))
    else if s[0] == '/' then Some(('/', s[1..]))
    else if s[0] == 'b' then Some(('\U{0008}', s[1..]))
    else if s[0] == 'f' then Some(('\U{000C}', s[1..]))
    else if s[0] == 'n' then Some(('\n', s[1..]))
    else if s[0] == 'r' then Some(('\r', s[1..]))
    else if s[0] == 't' then Some(('\t', s[1..]))
    else if s[0] == 'u' && |s| >= 5 && IsHex(s[1]) && IsHex(s[2]) && IsHex(s[3]) && IsHex(s[4]) then
      var code := ((HexValue(s[1]) * 16 + HexValue(s[2])) * 16 + HexValue(s[3])) * 16 + HexValue(s[4]);
      if 0xD800 <= code < 0xE000 then None else Some((code as char, s[5..]))
    else None
  }

  /** The contents of a string literal whose opening quote is already read, and the rest after its closing quote. */
  function ParseString(s: string): (r: Option<(string, string)>)
    ensures r.Some? ==> |r.value.1| < |s|
  {
    if s == [] then None
    else if s[0] == '"' then Some(([], s[1..]))
    else if s[0] == '\\' then
      match Unescape(s[1..])
      case None => None
      case Some((c, after)) =>
        match ParseString(after)
        case None => None
        case Some((str, rest)) => Some(([c] + str, rest))
    else if s[0] < ' ' then None
    else
      match ParseString(s[1..])
      case None => None
      case Some((str, rest)) => Some(([s[0]] + str, rest))
  }

  /** The digits of a non-negative integer; a fraction or an exponent is refused, and so is a leading zero. */
  function ParseDigits(u: string): (r: Option<(nat, string)>)
    ensures r.Some? ==> |r.value.1| < |u|
  {
    var k := DigitRun(u);
    if k == 0 || (k > 1 && u[0] == '0') then None
    else if k < |u| && (u[k] == '.' || u[k] == 'e' || u[k] == 'E') then None
    else Some((DigitsValue(u[..k]), u[k..]))
  }

  /** An integer, with an optional leading minus sign. */
  function ParseNumber(s: string): (r: Option<(Json, string)>)
    ensures r.Some? ==> |r.value.1| < |s|
  {
    var negative := s != [] && s[0] == '-';
    match ParseDigits(if negative then s[1..] else s)
    case None => None
    case Some((m, rest)) =>
      var v: int := m;
      Some((Num(if negative then -v else v), rest))
  }

  /** A literal word such as `null`. */
  function ParseWord(s: string, word: string, j: Json): (r: Option<(Json, string)>)
    requires |word| >= 1
    ensures r.Some? ==> |r.value.1| < |s|
  {
    if StartsWith(s, word) then Some((j, s[|word|..])) else None
  }

  /** One value after optional whitespace, and the text after it. */
  function ParseValue(s: string): (r: Option<(Json, string)>)
    ensures r.Some? ==> |r.value.1| < |s|
    decreases |s|, 0
  {
    var t := SkipSpace(s);
    if t == [] then None
    else if t[0] == 'n' then ParseWord(t, "null", Null)
    else if t[0] == 't' then ParseWord(t, "true", Bool(true))
    else if t[0] == 'f' then ParseWord(t, "false", Bool(false))
    else if t[0] == '"' then
      match ParseString(t[1..])
      case None => None
      case Some((str, rest)) => Some((Str(str), rest))
    else if t[0] == '[' then ParseArray(t[1..])
    else if t[0] == '{' then ParseObject(t[1..])
    else ParseNumber(t)
  }

  /** An array whose `[` is already read. */
  function ParseArray(s: string): (r: Option<(Json, string)>)
    ensures r.Some? ==> |r.value.1| < |s|
    decreases |s|, 2
  {
    var t := SkipSpace(s);
    if t != [] && t[0] == ']' then Some((Arr([]), t[1..]))
    else
      match ParseItems(t)
      case None => None
      case Some((items, rest)) => Some((Arr(items), rest))
  }

  /** One or more comma-separated values and the closing `]`. */
  function ParseItems(s: string): (r: Option<(seq<Json>, string)>)
    ensures r.Some? ==> |r.value.1| < |s|
    decreases |s|, 1
  {
    match ParseValue(s)
    case None => None
    case Some((v, after)) =>
      var t := SkipSpace(after);
      if t == [] then None
      else if t[0] == ']' then Some(([v], t[1..]))
      else if t[0] == ',' then
        match ParseItems(t[1..])
        case None => None
        case Some((vs, rest)) => Some(([v] + vs, rest))
      else None
  }

  /** An object whose `{` is already read. */
  function ParseObject(s: string): (r: Option<(Json, string)>)
    ensures r.Some? ==> |r.value.1| < |s|
    decreases |s|, 3
  {
    var t := SkipSpace(s);
    if t != [] && t[0] == '}' then Some((Obj([]), t[1..]))
    else
      match ParseMembers(t)
      case None => None
      case Some((members, rest)) => Some((Obj(members), rest))
  }

  /** One `"key": value` member. */
  function ParseMember(s: string): (r: Option<(Member, string)>)
    ensures r.Some? ==> |r.value.1| < |s|
    decreases |s|, 1
  {
    if s == [] || s[0] != '"' then None
    else
      match ParseString(s[1..])
      case None => None
      case Some((key, afterKey)) =>
        var t := SkipSpace(afterKey);
        if t == [] || t[0] != ':' then None
        else
          match ParseValue(t[1..])
          case None => None
          case Some((v, after)) => Some((Member(key, v), after))
  }

  /** One or more comma-separated members and the closing `}`. */
  function ParseMembers(s: string): (r: Option<(seq<Member>, string)>)
    ensures r.Some? ==> |r.value.1| < |s|
    decreases |s|, 2
  {
    match ParseMember(s)
    case None => None
    case Some((m, after)) =>
      var u := SkipSpace(after);
      if u == [] then None
      else if u[0] == '}' then Some(([m], u[1..]))
      else if u[0] == ',' then
        match ParseMembers(SkipSpace(u[1..]))
        case None => None
        case Some((ms, rest)) => Some(([m] + ms, rest))
      else None
  }

  /** `JSON.parse`: one value, surrounded by nothing but whitespace; `None` where it throws. */
  function Parse(s: string): Option<Json>
  {
    match ParseValue(s)
    case None => None
    case Some((j, rest)) => if SkipSpace(rest) == [] then Some(j) else None
  }

  // ---------------------------------------------------------------- round trip

  /** What may follow a value inside the text `WriteTo` writes. */
  predicate Delimited(rest: string)
  {
    rest == [] || rest[0] == ',' || rest[0] == ']' || rest[0] == '}'
  }

  /** The digits of a number read back as that number. */
  lemma {:induction false} DigitsValueOfNat(n: nat)
    ensures forall i :: 0 <= i < |NatToString(n)| ==> IsDigit(NatToString(n)[i])
    ensures DigitsValue(NatToString(n)) == n
  {
    var d := NatToString(n);
    if n >= 10 {
      DigitsValueOfNat(n / 10);
      assert d[..|d| - 1] == NatToString(n / 10);
    }
  }

  /** A run of digits followed by a non-digit is read to its end. */
  lemma {:induction false} DigitRunOf(d: string, rest: string)
    requires forall i :: 0 <= i < |d| ==> IsDigit(d[i])
    requires rest == [] || !IsDigit(rest[0])
    ensures DigitRun(d + rest) == |d|
  {
    if d != [] {
      assert (d + rest)[1..] == d[1..] + rest;
      DigitRunOf(d[1..], rest);
    }
  }

  lemma NatRoundTrip(m: nat, rest: string)
    requires Delimited(rest)
    ensures ParseDigits(NatToString(m) + rest) == Some((m, rest))
  {
    var d := NatToString(m);
    DigitsValueOfNat(m);
    DigitRunOf(d, rest);
    assert (d + rest)[..|d|] == d;
    assert (d + rest)[|d|..] == rest;
  }

  lemma NegativeRoundTrip(n: int, rest: string)
    requires n < 0 && Delimited(rest)
    ensures ParseNumber("-" + (NatToString(-n) + rest)) == Some((Num(n), rest))
  {
    var u := NatToString(-n) + rest;
    var s := "-" + u;
    assert s[0] == '-' && s[1..] == u;
    NatRoundTrip(-n, rest);
    var m: int := -n;
    assert ParseDigits(s[1..]) == Some((m, rest));
  }

  lemma NonNegativeRoundTrip(m: nat, rest: string)
    requires Delimited(rest)
    ensures ParseNumber(NatToString(m) + rest) == Some((Num(m), rest))
  {
    var s := NatToString(m) + rest;
    assert s[0] == NatToString(m)[0];
    NatRoundTrip(m, rest);
  }

  lemma NumberRoundTrip(n: int, rest: string)
    requires Delimited(rest)
    ensures ParseNumber(IntToString(n) + rest) == Some((Num(n), rest))
  {
    if n < 0 {
      assert IntToString(n) + rest == "-" + (NatToString(-n) + rest);
      NegativeRoundTrip(n, rest);
    } else {
      NonNegativeRoundTrip(n, rest);
    }
  }

  /** Every escape `EscapeChar` writes is read back as its character. */
  lemma UnescapeRoundTrip(c: char, rest: string)
    requires EscapeChar(c)[0] == '\\'
    ensures Unescape(EscapeChar(c)[1..] + rest) == Some((c, rest))
  {
    if c < ' ' && c != '\U{0008}' && c != '\U{000C}' && c != '\n' && c != '\r' && c != '\t' {
      var e := EscapeChar(c)[1..] + rest;
      assert e[0] == 'u' && e[1] == '0' && e[2] == '0';
      assert e[3] == HexChar(c as int / 16) && e[4] == HexChar(c as int % 16);
      assert e[5..] == rest;
    }
  }

  /** The text of a string literal's contents, read one written character at a time. */
  function Prepend(c: char, r: Option<(string, string)>): Option<(string, string)>
  {
    match r
    case None => None
    case Some((str, rest)) => Some(([c] + str, rest))
  }

  lemma ParseStringStep(c: char, tail: string)
    ensures ParseString(EscapeChar(c) + tail) == Prepend(c, ParseString(tail))
  {
    var e := EscapeChar(c);
    if e[0] == '\\' {
      UnescapeRoundTrip(c, tail);
      assert (e + tail)[1..] == e[1..] + tail;
    } else {
      assert (e + tail)[1..] == tail;
    }
  }

  lemma {:induction false} StringRoundTrip(s: string, rest: string)
    ensures ParseString(EscapeTo(s, "\"" + rest)) == Some((s, rest))
  {
    if s != [] {
      var tail := EscapeTo(s[1..], "\"" + rest);
      StringRoundTrip(s[1..], rest);
      ParseStringStep(s[0], tail);
      assert [s[0]] + s[1..] == s;
    }
  }

  lemma {:induction false} ValueRoundTrip(j: Json, rest: string)
    requires Delimited(rest)
    ensures ParseValue(WriteTo(j, rest)) == Some((j, rest))
    decreases j, 0
  {
    var s := WriteTo(j, rest);
    assert SkipSpace(s) == s;
    match j
    case Null =>
      assert s[4..] == rest;
    case Bool(b) =>
      if b { assert s[4..] == rest; } else { assert s[5..] == rest; }
    case Num(n) =>
      NumberRoundTrip(n, rest);
    case Str(str) =>
      StringRoundTrip(str, rest);
      assert s[1..] == EscapeTo(str, "\"" + rest);
    case Arr(items) =>
      ArrayRoundTrip(items, rest);
      assert s[1..] == if items == [] then "]" + rest else WriteItemsTo(items, "]" + rest);
    case Obj(members) =>
      ObjectRoundTrip(members, rest);
      assert s[1..] == if members == [] then "}" + rest else WriteMembersTo(members, "}" + rest);
  }

  lemma {:induction false} ArrayRoundTrip(items: seq<Json>, rest: string)
    ensures ParseArray(if items == [] then "]" + rest else WriteItemsTo(items, "]" + rest)) == Some((Arr(items), rest))
    decreases items, 2
  {
    if items == [] {
      assert SkipSpace("]" + rest) == "]" + rest;
      assert ("]" + rest)[1..] == rest;
    } else {
      ItemsRoundTrip(items, rest);
      var t := WriteItemsTo(items, "]" + rest);
      assert SkipSpace(t) == t;
    }
  }

  lemma {:induction false} ObjectRoundTrip(members: seq<Member>, rest: string)
    ensures ParseObject(if members == [] then "}" + rest else WriteMembersTo(members, "}" + rest)) == Some((Obj(members), rest))
    decreases members, 2
  {
    if members == [] {
      assert SkipSpace("}" + rest) == "}" + rest;
      assert ("}" + rest)[1..] == rest;
    } else {
      MembersRoundTrip(members, rest);
      var t := WriteMembersTo(members, "}" + rest);
      assert SkipSpace(t) == t;
    }
  }

  lemma {:induction false} ItemsRoundTrip(items: seq<Json>, rest: string)
    requires items != []
    ensures ParseItems(WriteItemsTo(items, "]" + rest)) == Some((items, rest))
    decreases items, 1
  {
    var after := if |items| == 1 then "]" + rest else "," + WriteItemsTo(items[1..], "]" + rest);
    assert WriteItemsTo(items, "]" + rest) == WriteTo(items[0], after);
    ValueRoundTrip(items[0], after);
    assert SkipSpace(after) == after;
    if |items| == 1 {
      assert after[1..] == rest;
      assert [items[0]] == items;
    } else {
      assert after[1..] == WriteItemsTo(items[1..], "]" + rest);
      ItemsRoundTrip(items[1..], rest);
      assert [items[0]] + items[1..] == items;
    }
  }

  lemma {:induction false} MemberRoundTrip(m: Member, rest: string)
    requires Delimited(rest)
    ensures ParseMember(WriteMemberTo(m, rest)) == Some((m, rest))
    decreases m, 0
  {
    var colon := ":" + WriteTo(m.value, rest);
    var s := WriteMemberTo(m, rest);
    assert s[1..] == EscapeTo(m.key, "\"" + colon);
    StringRoundTrip(m.key, colon);
    assert SkipSpace(colon) == colon;
    assert colon[1..] == WriteTo(m.value, rest);
    ValueRoundTrip(m.value, rest);
  }

  lemma {:induction false} MembersRoundTrip(members: seq<Member>, rest: string)
    requires members != []
    ensures ParseMembers(WriteMembersTo(members, "}" + rest)) == Some((members, rest))
    decreases members, 1
  {
    var after := if |members| == 1 then "}" + rest else "," + WriteMembersTo(members[1..], "}" + rest);
    assert WriteMembersTo(members, "}" + rest) == WriteMemberTo(members[0], after);
    MemberRoundTrip(members[0], after);
    assert SkipSpace(after) == after;
    if |members| == 1 {
      assert after[1..] == rest;
      assert [members[0]] == members;
    } else {
      var tail := WriteMembersTo(members[1..], "}" + rest);
      assert after[1..] == tail;
      assert SkipSpace(tail) == tail;
      MembersRoundTrip(members[1..], rest);
      assert [members[0]] + members[1..] == members;
    }
  }

  /** `JSON.parse(JSON.stringify(v))` gives back `v`. */
  lemma ParseStringify(j: Json)
    ensures Parse(Stringify(j)) == Some(j)
  {
    ValueRoundTrip(j, []);
  }

  // ---------------------------------------------------------------- property access

  /**
   * `v[key]` on a parsed value: the value of the LAST member with that key (a
   * later duplicate overrides an earlier one), `None` (`undefined`) when there is
   * none or `v` is not an object.
   */
  function Get(v: Json, key: string): (r: Option<Json>)
    ensures r.Some? ==> v.Obj? && exists i :: 0 <= i < |v.members| && v.members[i] == Member(key, r.value)
    ensures r.None? <==> !v.Obj? || forall i :: 0 <= i < |v.members| ==> v.members[i].key != key
  {
    if v.Obj? then LastValue(v.members, key) else None
  }

  function LastValue(members: seq<Member>, key: string): (r: Option<Json>)
    ensures r.Some? ==> exists i :: 0 <= i < |members| && members[i] == Member(key, r.value)
                                    && forall j :: i < j < |members| ==> members[j].key != key
    ensures r.None? <==> forall i :: 0 <= i < |members| ==> members[i].key != key
  {
    if members == [] then None
    else
      var last := members[|members| - 1];
      if last.key == key then Some(last.value)
      else
        var r := LastValue(members[..|members| - 1], key);
        assert forall i :: 0 <= i < |members| - 1 ==> members[..|members| - 1][i] == members[i];
        r
  }

  /** A parsed value in a boolean position: `null`, `false`, `0` and `""` are false. */
  predicate TruthyValue(v: Json)
  {
    match v
    case Null => false
    case Bool(b) => b
    case Num(n) => n != 0
    case Str(s) => s != []
    case Arr(_) => true
    case Obj(_) => true
  }
}
