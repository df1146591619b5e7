/** Raw JSON objects as text (section 4 of RFC 8259): a list of members, each a raw string key
    and a raw value, and the scanner that finds them again. */
module JsonText {

  datatype Member = Member(key: string, value: string)

  /** JSON whitespace. */
  predicate IsWs(c: char) { c in {' ', '\t', '\n', '\r'} }

  /** Space, tab, line feed and carriage return (section 2 of RFC 8259). */
  lemma WsCodes(c: char)
    ensures IsWs(c) <==> c as int in {0x20, 0x09, 0x0A, 0x0D}
  {
  }

  predicate AllWs(s: string) { forall i :: 0 <= i < |s| ==> IsWs(s[i]) }

  function SkipWs(s: string): (t: string)
    ensures |t| <= |s|
  {
    if s != "" && IsWs(s[0]) then SkipWs(s[1..]) else s
  }

  function DropTrailingWs(s: string): string {
    if s != "" && IsWs(s[|s| - 1]) then DropTrailingWs(s[..|s| - 1]) else s
  }

  // Scanning

  // Position in the text of a value: nesting depth, inside a string, after a backslash in one
  datatype Scan = Scan(depth: nat, inString: bool, escaped: bool)

  const START := Scan(0, false, false)

  /** A comma or closing bracket at this point ends the value. */
  predicate Stops(st: Scan, c: char) {
    st.depth == 0 && !st.inString && c in {',', '}', ']'}
  }

  function Step(st: Scan, c: char): Scan
    requires !Stops(st, c)
  {
    if st.inString then
      if st.escaped then st.(escaped := false)
      else if c == '\\' then st.(escaped := true)
      else if c == '"' then st.(inString := false)
      else st
    else if c == '"' then st.(inString := true)
    else if c == '{' || c == '[' then st.(depth := st.depth + 1)
    else if (c == '}' || c == ']') && st.depth > 0 then st.(depth := st.depth - 1)
    else st
  }

  /** How many characters of `s` belong to the value being scanned. */
  function ValueLength(s: string, st: Scan): (n: nat)
    ensures n <= |s|
  {
    if s == "" || Stops(st, s[0]) then 0 else 1 + ValueLength(s[1..], Step(st, s[0]))
  }

  /** Scanning the whole text never stops and ends in the given position. */
  predicate ScansTo(s: string, st: Scan, end: Scan) {
    if s == "" then st == end else !Stops(st, s[0]) && ScansTo(s[1..], Step(st, s[0]), end)
  }

  /** Length up to and including the closing quote of a string whose opening quote has been
      read, or 0 when there is none. */
  function StringLength(s: string, escaped: bool): (n: nat)
    ensures n <= |s|
  {
    if s == "" then 0
    else if !escaped && s[0] == '"' then 1
    else
      var n := StringLength(s[1..], !escaped && s[0] == '\\');
      if n == 0 then 0 else n + 1
  }

  /** A raw string: it closes where it ends. */
  predicate IsKey(k: string) {
    |k| >= 2 && k[0] == '"' && StringLength(k[1..], false) == |k| - 1
  }

  /** A raw value: brackets and quotes are closed, nothing ends it early, no outer whitespace.
      Every JSON value text is one. */
  predicate IsValue(v: string) {
    v != "" && !IsWs(v[0]) && !IsWs(v[|v| - 1]) && ScansTo(v, START, START)
  }

  predicate IsMember(m: Member) { IsKey(m.key) && IsValue(m.value) }

  // Parsing

  datatype Parsed = Members(members: seq<Member>) | NotAnObject

  function Prepend(m: Member, p: Parsed): Parsed {
    if p.Members? then Members([m] + p.members) else p
  }

  /** The members of the text after the opening brace or a comma. */
  function ParseMembers(s: string): Parsed
    decreases |s|
  {
    var t := SkipWs(s);
    if t == "" || t[0] != '"' then NotAnObject
    else
      var n := StringLength(t[1..], false) + 1;
      var u := SkipWs(t[n..]);
      if n == 1 || u == "" || u[0] != ':' then NotAnObject
      else
        var v := SkipWs(u[1..]);
        var length := ValueLength(v, START);
        var m := Member(t[..n], DropTrailingWs(v[..length]));
        if length == |v| then NotAnObject
        else if v[length] == ',' then Prepend(m, ParseMembers(v[length + 1..]))
        else if v[length] == '}' && SkipWs(v[length + 1..]) == "" then Members([m])
        else NotAnObject
  }

  // The first member of such a text, with what follows its value
  datatype Front = Front(member: Member, rest: string) | NoMember

  function ReadMember(s: string): (r: Front)
    ensures r.Front? ==> 0 < |r.rest| < |s|
  {
    var t := SkipWs(s);
    if t == "" || t[0] != '"' then NoMember
    else
      var n := StringLength(t[1..], false) + 1;
      var u := SkipWs(t[n..]);
      if n == 1 || u == "" || u[0] != ':' then NoMember
      else
        var v := SkipWs(u[1..]);
        var length := ValueLength(v, START);
        if length == |v| then NoMember else Front(Member(t[..n], DropTrailingWs(v[..length])), v[length..])
  }

  /** The members are the first one and those behind the comma after it. */
  lemma ParseByMember(s: string)
    ensures var f := ReadMember(s);
      ParseMembers(s) == if f.NoMember? then NotAnObject
        else if f.rest[0] == ',' then Prepend(f.member, ParseMembers(f.rest[1..]))
        else if f.rest[0] == '}' && SkipWs(f.rest[1..]) == "" then Members([f.member])
        else NotAnObject
  {
    hide SkipWs, StringLength, ValueLength, DropTrailingWs;
  }

  function ParseObject(s: string): Parsed {
    var t := SkipWs(s);
    if t == "" || t[0] != '{' then NotAnObject
    else
      var u := SkipWs(t[1..]);
      if u != "" && u[0] == '}' && SkipWs(u[1..]) == "" then Members([]) else ParseMembers(t[1..])
  }

  // Printing

  function PrintMembers(ms: seq<Member>): string {
    if ms == [] then ""
    else if |ms| == 1 then ms[0].key + ":" + ms[0].value
    else ms[0].key + ":" + ms[0].value + "," + PrintMembers(ms[1..])
  }

  /** The compact text of an object. */
  function Print(ms: seq<Member>): string { "{" + PrintMembers(ms) + "}" }

  // A member with the whitespace before the key, around the colon and after the value
  datatype Spaced = Spaced(beforeKey: string, key: string, beforeColon: string, afterColon: string, value: string,
      after: string)

  predicate IsSpaced(m: Spaced) {
    && AllWs(m.beforeKey) && AllWs(m.beforeColon) && AllWs(m.afterColon) && AllWs(m.after)
    && IsKey(m.key) && IsValue(m.value)
  }

  function SpacedText(m: Spaced): string {
    m.beforeKey + m.key + m.beforeColon + ":" + m.afterColon + m.value + m.after
  }

  function PrintSpaced(ms: seq<Spaced>): string
    requires ms != []
  {
    if |ms| == 1 then SpacedText(ms[0]) else SpacedText(ms[0]) + "," + PrintSpaced(ms[1..])
  }

  function Content(ms: seq<Spaced>): (r: seq<Member>)
    ensures |r| == |ms|
  {
    if ms == [] then [] else [Member(ms[0].key, ms[0].value)] + Content(ms[1..])
  }

  // Scanning finds what was printed

  lemma {:induction false} SkipsWs(ws: string, rest: string)
    requires AllWs(ws) && (rest == "" || !IsWs(rest[0]))
    ensures SkipWs(ws + rest) == rest
  {
    if ws == "" {
      assert ws + rest == rest;
    } else {
      assert (ws + rest)[1..] == ws[1..] + rest;
      SkipsWs(ws[1..], rest);
    }
  }

  lemma {:induction false} DropsTrailingWs(v: string, ws: string)
    requires AllWs(ws) && v != "" && !IsWs(v[|v| - 1])
    ensures DropTrailingWs(v + ws) == v
  {
    if ws == "" {
      assert v + ws == v;
    } else {
      assert (v + ws)[..|v + ws| - 1] == v + ws[..|ws| - 1];
      DropsTrailingWs(v, ws[..|ws| - 1]);
    }
  }

  lemma {:induction false} FindsStringEnd(s: string, escaped: bool, rest: string)
    requires s != "" && StringLength(s, escaped) == |s|
    ensures StringLength(s + rest, escaped) == |s|
  {
    assert (s + rest)[1..] == s[1..] + rest;
    if !(!escaped && s[0] == '"') {
      FindsStringEnd(s[1..], !escaped && s[0] == '\\', rest);
    }
  }

  lemma {:induction false} FindsValueEnd(v: string, st: Scan, end: Scan, rest: string)
    requires ScansTo(v, st, end) && end.depth == 0 && !end.inString
    ensures ValueLength(v + rest, st) == |v| + ValueLength(rest, end)
  {
    if v == "" {
      assert v + rest == rest;
    } else {
      assert (v + rest)[1..] == v[1..] + rest;
      FindsValueEnd(v[1..], Step(st, v[0]), end, rest);
    }
  }

  lemma {:induction false} WsIsScanned(ws: string)
    requires AllWs(ws)
    ensures ScansTo(ws, START, START)
  {
    if ws != "" {
      WsIsScanned(ws[1..]);
    }
  }

  /** One printed member is found again, up to the comma or brace after it. */
  lemma ReadsMember(m: Spaced, rest: string)
    requires IsSpaced(m) && rest != "" && (rest[0] == ',' || rest[0] == '}')
    ensures ReadMember(SpacedText(m) + rest) == Front(Member(m.key, m.value), rest)
  {
    hide SkipWs, ValueLength, StringLength, DropTrailingWs, ScansTo;
    var tail := m.value + (m.after + rest);
    var u := ":" + (m.afterColon + tail);
    var t := m.key + (m.beforeColon + u);
    SpacedParts(m, rest);
    SkipsWs(m.beforeKey, t);
    KeyFound(m.key, m.beforeColon + u);
    assert t[|m.key|..] == m.beforeColon + u;
    SkipsWs(m.beforeColon, u);
    assert u[1..] == m.afterColon + tail;
    SkipsWs(m.afterColon, tail);
    ValueFound(m.value, m.after, rest);
    TailParts(m.value, m.after, rest);
    DropsTrailingWs(m.value, m.after);
  }

  lemma ParsesMember(m: Spaced, rest: string)
    requires IsSpaced(m) && rest != "" && (rest[0] == ',' || rest[0] == '}')
    ensures ParseMembers(SpacedText(m) + rest)
      == var member := Member(m.key, m.value);
         if rest[0] == ',' then Prepend(member, ParseMembers(rest[1..]))
         else if SkipWs(rest[1..]) == "" then Members([member]) else NotAnObject
  {
    hide ParseMembers, SkipWs, ReadMember;
    ReadsMember(m, rest);
    ParseByMember(SpacedText(m) + rest);
  }

  lemma SpacedParts(m: Spaced, rest: string)
    ensures SpacedText(m) + rest ==
        m.beforeKey + (m.key + (m.beforeColon + (":" + (m.afterColon + (m.value + (m.after + rest))))))
  {
  }

  lemma TailParts(value: string, ws: string, rest: string)
    requires rest != ""
    ensures var tail, n := value + (ws + rest), |value| + |ws|;
      tail[..n] == value + ws && tail[n..] == rest
  {
  }

  lemma KeyFound(key: string, rest: string)
    requires IsKey(key)
    ensures var t := key + rest; t[0] == '"' && StringLength(t[1..], false) + 1 == |key| && t[..|key|] == key
  {
    FindsStringEnd(key[1..], false, rest);
    assert (key + rest)[1..] == key[1..] + rest;
  }

  lemma {:induction false} ValueFound(value: string, ws: string, rest: string)
    requires IsValue(value) && AllWs(ws) && rest != "" && (rest[0] == ',' || rest[0] == '}')
    ensures ValueLength(value + (ws + rest), START) == |value| + |ws|
  {
    FindsValueEnd(value, START, START, ws + rest);
    WsIsScanned(ws);
    FindsValueEnd(ws, START, START, rest);
  }

  lemma {:induction false} ParsesMembers(ms: seq<Spaced>, after: string)
    requires ms != [] && (forall i :: 0 <= i < |ms| ==> IsSpaced(ms[i])) && AllWs(after)
    ensures ParseMembers(PrintSpaced(ms) + ("}" + after)) == Members(Content(ms))
  {
    hide ParseMembers, SpacedText, IsSpaced;
    var end := "}" + after;
    if |ms| == 1 {
      ParsesMember(ms[0], end);
      assert end[1..] == after && after + "" == after;
      SkipsWs(after, "");
      assert Content(ms[1..]) == [];
    } else {
      var rest := "," + (PrintSpaced(ms[1..]) + end);
      assert PrintSpaced(ms) + end == SpacedText(ms[0]) + rest;
      assert rest[1..] == PrintSpaced(ms[1..]) + end;
      ParsesMember(ms[0], rest);
      ParsesMembers(ms[1..], after);
    }
  }

  /** An object with whitespace around it and its members, or inside it when it has none. */
  function SpacedObject(before: string, ms: seq<Spaced>, inner: string, after: string): string {
    before + ("{" + ((if ms == [] then inner else PrintSpaced(ms)) + ("}" + after)))
  }

  /** Whatever whitespace an object is written with, parsing finds its members in order,
      duplicates included. */
  lemma ParseSpaced(before: string, ms: seq<Spaced>, inner: string, after: string)
    requires (forall i :: 0 <= i < |ms| ==> IsSpaced(ms[i])) && AllWs(before) && AllWs(inner) && AllWs(after)
    ensures ParseObject(SpacedObject(before, ms, inner, after)) == Members(Content(ms))
  {
    hide ParseMembers, PrintSpaced, SkipWs;
    var body := (if ms == [] then inner else PrintSpaced(ms)) + ("}" + after);
    SkipsWs(before, "{" + body);
    assert ("{" + body)[1..] == body;
    if ms == [] {
      SkipsWs(inner, "}" + after);
      assert ("}" + after)[1..] == after && after + "" == after;
      SkipsWs(after, "");
    } else {
      assert IsSpaced(ms[0]);
      StartsWithKey(ms, "}" + after);
      ParsesMembers(ms, after);
    }
  }

  lemma StartsWithKey(ms: seq<Spaced>, rest: string)
    requires ms != [] && IsSpaced(ms[0])
    ensures var u := SkipWs(PrintSpaced(ms) + rest); u != "" && u[0] == '"'
  {
    hide SkipWs, StringLength, ScansTo;
    var m := ms[0];
    var more := if |ms| == 1 then rest else "," + (PrintSpaced(ms[1..]) + rest);
    assert PrintSpaced(ms) + rest == SpacedText(m) + more;
    SpacedParts(m, more);
    SkipsWs(m.beforeKey, m.key + (m.beforeColon + (":" + (m.afterColon + (m.value + (m.after + more))))));
  }

  function Compact(ms: seq<Member>): (r: seq<Spaced>)
    ensures |r| == |ms| && forall i :: 0 <= i < |ms| ==> r[i] == Spaced("", ms[i].key, "", "", ms[i].value, "")
  {
    if ms == [] then [] else [Spaced("", ms[0].key, "", "", ms[0].value, "")] + Compact(ms[1..])
  }

  lemma {:induction false} CompactText(ms: seq<Member>)
    requires ms != []
    ensures PrintSpaced(Compact(ms)) == PrintMembers(ms) && Content(Compact(ms)) == ms
  {
    assert SpacedText(Compact(ms)[0]) == ms[0].key + ":" + ms[0].value;
    if |ms| > 1 {
      CompactText(ms[1..]);
      assert Compact(ms)[1..] == Compact(ms[1..]);
    } else {
      assert Content(Compact(ms)[1..]) == [];
    }
  }

  lemma CompactGood(ms: seq<Member>)
    requires forall i :: 0 <= i < |ms| ==> IsMember(ms[i])
    ensures forall i :: 0 <= i < |ms| ==> IsSpaced(Compact(ms)[i])
  {
    hide IsKey, IsValue, Compact;
  }

  lemma ParseEmpty()
    ensures ParseObject(Print([])) == Members([])
  {
    assert Print([]) == "{}" && "{}"[1..] == "}" && "}"[1..] == "";
    assert SkipWs("{}") == "{}" && SkipWs("}") == "}" && SkipWs("") == "";
  }

  /** Parsing undoes printing. */
  lemma ParsePrint(ms: seq<Member>)
    requires forall m :: m in ms ==> IsMember(m)
    ensures ParseObject(Print(ms)) == Members(ms)
  {
    if ms == [] {
      ParseEmpty();
    } else {
      assert forall i :: 0 <= i < |ms| ==> IsMember(ms[i]);
      CompactGood(ms);
      hide ParseObject, PrintSpaced, PrintMembers, IsKey, IsValue, Compact, IsSpaced;
      CompactText(ms);
      ParseSpaced("", Compact(ms), "", "");
      assert "" + ("{" + (PrintSpaced(Compact(ms)) + ("}" + ""))) == Print(ms);
    }
  }

  // Every JSON value is a raw value

  // Strings are kept raw; Padded puts whitespace around an element or member value
  datatype Json =
    | Literal(text: string)
    | Number(minus: bool, digits: string, fraction: string, exponent: string)
    | Str(raw: string)
    | Array(items: seq<Json>)
    | Object(members: seq<JsonMember>)
    | Padded(before: string, value: Json, after: string)

  datatype JsonMember = JsonMember(key: string, value: Json)

  predicate IsPlain(c: char) {
    !IsWs(c) && c !in {'"', '\\', '{', '}', '[', ']', ',', ':'}
  }

  predicate Digits(s: string) { s != "" && forall i :: 0 <= i < |s| ==> '0' <= s[i] <= '9' }

  predicate IsFraction(s: string) { s == "" || (s[0] == '.' && Digits(s[1..])) }

  predicate IsExponent(s: string) {
    s == "" || (s[0] in {'e', 'E'} && (Digits(s[1..]) || (|s| > 1 && s[1] in {'+', '-'} && Digits(s[2..]))))
  }

  predicate IsHex(c: char) { '0' <= c <= '9' || 'a' <= c <= 'f' || 'A' <= c <= 'F' }

  /** The rest of a string after its opening quote: no control characters, known escapes only. */
  predicate StringRest(s: string)
    decreases |s|
  {
    if s == "" then false
    else if s[0] == '"' then |s| == 1
    else if s[0] == '\\' then
      if |s| >= 2 && s[1] in {'"', '\\', '/', 'b', 'f', 'n', 'r', 't'} then StringRest(s[2..])
      else |s| >= 6 && s[1] == 'u' && (forall i :: 2 <= i < 6 ==> IsHex(s[i])) && StringRest(s[6..])
    else s[0] >= ' ' && StringRest(s[1..])
  }

  /** A string of section 7 of RFC 8259. */
  predicate IsString(k: string) { |k| >= 2 && k[0] == '"' && StringRest(k[1..]) }

  predicate WellFormed(j: Json) {
    match j
    case Literal(text) => text in {"true", "false", "null"}
    case Number(_, digits, fraction, exponent) =>
      Digits(digits) && (|digits| == 1 || digits[0] != '0') && IsFraction(fraction) && IsExponent(exponent)
    case Str(raw) => IsString(raw)
    case Array(items) => forall i :: 0 <= i < |items| ==> WellFormed(items[i])
    case Object(members) => forall i :: 0 <= i < |members| ==> IsString(members[i].key) && WellFormed(members[i].value)
    case Padded(before, value, after) => AllWs(before) && AllWs(after) && WellFormed(value)
  }

  function TextOf(j: Json): string
    decreases j, 1
  {
    match j
    case Literal(text) => text
    case Number(minus, digits, fraction, exponent) => (if minus then "-" else "") + digits + fraction + exponent
    case Str(raw) => raw
    case Array(items) => "[" + ItemsText(items) + "]"
    case Object(members) => "{" + MembersText(members) + "}"
    case Padded(before, value, after) => before + TextOf(value) + after
  }

  /** The text of a JSON value, without whitespace around it. */
  ghost predicate IsJson(v: string) {
    exists j :: WellFormed(j) && !j.Padded? && v == TextOf(j)
  }

  function ItemsText(items: seq<Json>): string
    decreases items, 0
  {
    if items == [] then ""
    else TextOf(items[0]) + (if |items| == 1 then "" else ",") + ItemsText(items[1..])
  }

  function MembersText(members: seq<JsonMember>): string
    decreases members, 0
  {
    if members == [] then ""
    else
      members[0].key + ":" + TextOf(members[0].value) + (if |members| == 1 then "" else ",") + MembersText(members[1..])
  }

  lemma {:induction false} ScansOn(a: string, b: string, st: Scan, mid: Scan, end: Scan)
    requires ScansTo(a, st, mid) && ScansTo(b, mid, end)
    ensures ScansTo(a + b, st, end)
  {
    if a == "" {
      assert a + b == b;
    } else {
      assert (a + b)[1..] == a[1..] + b;
      ScansOn(a[1..], b, Step(st, a[0]), mid, end);
    }
  }

  lemma ScansChar(c: char, st: Scan)
    requires !Stops(st, c)
    ensures ScansTo([c], st, Step(st, c))
  {
    assert [c][1..] == "";
  }

  lemma {:induction false} QuietScans(s: string, st: Scan)
    requires !st.inString && !st.escaped
    requires forall i :: 0 <= i < |s| ==> IsPlain(s[i]) || IsWs(s[i])
    ensures ScansTo(s, st, st)
  {
    if s != "" {
      QuietScans(s[1..], st);
    }
  }

  lemma {:induction false} StringScans(s: string, depth: nat, escaped: bool)
    requires s != "" && StringLength(s, escaped) == |s|
    ensures ScansTo(s, Scan(depth, true, escaped), Scan(depth, false, false))
  {
    if !escaped && s[0] == '"' {
      assert s[1..] == "";
    } else {
      StringScans(s[1..], depth, !escaped && s[0] == '\\');
    }
  }

  lemma KeyScans(k: string, st: Scan)
    requires IsKey(k) && !st.inString && !st.escaped
    ensures ScansTo(k, st, st)
  {
    StringScans(k[1..], st.depth, false);
  }

  lemma {:induction false} StringRestCloses(s: string)
    requires StringRest(s)
    ensures StringLength(s, false) == |s|
    decreases |s|
  {
    if s[0] == '"' {
    } else if s[0] == '\\' {
      assert s[1..][1..] == s[2..];
      if s[1] in {'"', '\\', '/', 'b', 'f', 'n', 'r', 't'} {
        StringRestCloses(s[2..]);
      } else {
        StringRestCloses(s[6..]);
        HexPasses(s[2..]);
      }
    } else {
      StringRestCloses(s[1..]);
    }
  }

  lemma HexPasses(s: string)
    requires |s| >= 4 && forall i :: 0 <= i < 4 ==> IsHex(s[i])
    requires s[4..] != "" && StringLength(s[4..], false) == |s[4..]|
    ensures StringLength(s, false) == |s|
  {
    assert s[3..][1..] == s[4..] && s[2..][1..] == s[3..] && s[1..][1..] == s[2..];
    assert StringLength(s[3..], false) == |s[3..]|;
    assert StringLength(s[2..], false) == |s[2..]|;
    assert StringLength(s[1..], false) == |s[1..]|;
  }

  lemma StringIsKey(k: string)
    requires IsString(k)
    ensures IsKey(k)
  {
    StringRestCloses(k[1..]);
  }

  predicate AllPlain(s: string) { forall i :: 0 <= i < |s| ==> IsPlain(s[i]) }

  lemma DigitsArePlain(s: string)
    requires Digits(s)
    ensures AllPlain(s)
  {
  }

  lemma PlainBehind(c: char, rest: string)
    requires IsPlain(c) && AllPlain(rest)
    ensures AllPlain([c] + rest)
  {
    hide IsPlain;
  }

  lemma FractionIsPlain(s: string)
    requires IsFraction(s)
    ensures AllPlain(s)
  {
    if s != "" {
      DigitsArePlain(s[1..]);
      PlainBehind(s[0], s[1..]);
      assert s == [s[0]] + s[1..];
    }
  }

  lemma ExponentIsPlain(s: string)
    requires IsExponent(s)
    ensures AllPlain(s)
  {
    if s != "" {
      hide AllPlain;
      if Digits(s[1..]) {
        DigitsArePlain(s[1..]);
      } else {
        DigitsArePlain(s[2..]);
        PlainBehind(s[1], s[2..]);
        assert s[1..] == [s[1]] + s[2..];
      }
      PlainBehind(s[0], s[1..]);
      assert s == [s[0]] + s[1..];
    }
  }

  lemma PlainTogether(a: string, b: string)
    requires AllPlain(a) && AllPlain(b)
    ensures AllPlain(a + b)
  {
    hide IsPlain;
  }

  lemma PlainText(j: Json)
    requires WellFormed(j) && (j.Literal? || j.Number?)
    ensures TextOf(j) != "" && AllPlain(TextOf(j))
  {
    if j.Number? {
      DigitsArePlain(j.digits);
      FractionIsPlain(j.fraction);
      ExponentIsPlain(j.exponent);
      var sign := if j.minus then "-" else "";
      assert AllPlain(sign);
      hide AllPlain, IsFraction, IsExponent;
      PlainTogether(sign, j.digits);
      PlainTogether(sign + j.digits, j.fraction);
      PlainTogether(sign + j.digits + j.fraction, j.exponent);
    }
  }

  /** At every nesting depth a value's text is scanned through and leaves the scan where it was. */
  lemma {:induction false} JsonScans(j: Json, st: Scan)
    requires WellFormed(j) && !st.inString && !st.escaped
    ensures ScansTo(TextOf(j), st, st)
    decreases j, 1
  {
    hide Step, Stops, ScansTo, StringLength;
    match j
    case Literal(_) =>
      PlainText(j);
      QuietScans(TextOf(j), st);
    case Number(_, _, _, _) =>
      PlainText(j);
      QuietScans(TextOf(j), st);
    case Str(raw) =>
      StringIsKey(raw);
      KeyScans(raw, st);
    case Array(items) =>
      ItemsScan(items, st.(depth := st.depth + 1));
      Bracketed('[', ItemsText(items), ']', st);
    case Object(members) =>
      MembersScan(members, st.(depth := st.depth + 1));
      Bracketed('{', MembersText(members), '}', st);
    case Padded(before, value, after) =>
      QuietScans(before, st);
      JsonScans(value, st);
      QuietScans(after, st);
      ScansOn(before, TextOf(value), st, st, st);
      ScansOn(before + TextOf(value), after, st, st, st);
  }

  lemma Bracketed(open: char, inner: string, close: char, st: Scan)
    requires (open == '[' && close == ']') || (open == '{' && close == '}')
    requires !st.inString && !st.escaped
    requires ScansTo(inner, st.(depth := st.depth + 1), st.(depth := st.depth + 1))
    ensures ScansTo([open] + inner + [close], st, st)
  {
    var deep := st.(depth := st.depth + 1);
    assert !Stops(st, open) && Step(st, open) == deep && !Stops(deep, close) && Step(deep, close) == st;
    hide ScansTo, Step, Stops;
    ScansChar(open, st);
    ScansOn([open], inner, st, deep, deep);
    ScansChar(close, deep);
    ScansOn([open] + inner, [close], st, deep, st);
  }

  lemma {:induction false} ItemsScan(items: seq<Json>, st: Scan)
    requires st.depth > 0 && !st.inString && !st.escaped && forall i :: 0 <= i < |items| ==> WellFormed(items[i])
    ensures ScansTo(ItemsText(items), st, st)
    decreases items, 0
  {
    if items != [] {
      JsonScans(items[0], st);
      ItemsScan(items[1..], st);
      Listed(TextOf(items[0]), |items| == 1, ItemsText(items[1..]), st);
    }
  }

  lemma {:induction false} MembersScan(members: seq<JsonMember>, st: Scan)
    requires st.depth > 0 && !st.inString && !st.escaped
    requires forall i :: 0 <= i < |members| ==> IsString(members[i].key) && WellFormed(members[i].value)
    ensures ScansTo(MembersText(members), st, st)
    decreases members, 0
  {
    if members != [] {
      var k, v := members[0].key, TextOf(members[0].value);
      StringIsKey(k);
      KeyScans(k, st);
      ScansChar(':', st);
      ScansOn(k, ":", st, st, st);
      JsonScans(members[0].value, st);
      ScansOn(k + ":", v, st, st, st);
      MembersScan(members[1..], st);
      Listed(k + ":" + v, |members| == 1, MembersText(members[1..]), st);
    }
  }

  lemma Listed(first: string, alone: bool, rest: string, st: Scan)
    requires st.depth > 0 && !st.inString && !st.escaped && ScansTo(first, st, st) && ScansTo(rest, st, st)
    ensures ScansTo(first + (if alone then "" else ",") + rest, st, st)
  {
    assert !Stops(st, ',') && Step(st, ',') == st;
    hide ScansTo, Step, Stops;
    ScansChar(',', st);
    ScansOn(first, ",", st, st, st);
    ScansOn(first + ",", rest, st, st, st);
    ScansOn(first, rest, st, st, st);
    assert first + "" == first;
  }

  /** The text of a JSON value, nested and spaced in any way, is a raw value for the scanner. */
  lemma JsonIsValue(j: Json)
    requires WellFormed(j) && !j.Padded?
    ensures IsValue(TextOf(j))
  {
    JsonScans(j, START);
    if j.Literal? || j.Number? {
      PlainText(j);
    }
    if j.Str? {
      StringIsKey(j.raw);
      KeyEnds(j.raw[1..], false);
    }
  }

  lemma {:induction false} KeyEnds(s: string, escaped: bool)
    requires s != "" && StringLength(s, escaped) == |s|
    ensures s[|s| - 1] == '"'
  {
    if escaped || s[0] != '"' {
      KeyEnds(s[1..], !escaped && s[0] == '\\');
    }
  }
}
