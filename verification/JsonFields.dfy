/** Unknown members of a JSON object: kept as one raw object, looked up by name, and merged back
    (internal/core/json_fields.go). */
module JsonFields {
  import opened Text
  import opened Sorting
  import opened SortedKeys
  import opened JsonText

  // How json.Marshal writes a key, how a raw key reads back, and which texts are valid JSON
  datatype Keys = Keys(quote: string -> string, name: string -> string, valid: string -> bool)

  ghost predicate LawfulKeys(q: Keys) {
    forall k {:trigger q.quote(k)} :: IsKey(q.quote(k)) && q.name(q.quote(k)) == k
  }

  datatype Merged = Merged(body: string) | MergeError

  datatype Extracted = Extracted(raw: string) | NotObject

  const MAX_INT := 0x7FFF_FFFF_FFFF_FFFF

  // Splitting

  /** The members whose names are not among the known fields, in order. */
  function Unknown(q: Keys, ms: seq<Member>, known: set<string>): seq<Member> {
    if ms == [] then []
    else (if q.name(ms[0].key) in known then [] else [ms[0]]) + Unknown(q, ms[1..], known)
  }

  /** The raw unknown fields of a body: "" when there are none. */
  function Extract(q: Keys, data: string, known: set<string>): Extracted {
    var d := Trim(data);
    var p := ParseObject(d);
    if !q.valid(d) || p.NotAnObject? then NotObject
    else
      var unknown := Unknown(q, p.members, known);
      Extracted(if unknown == [] then "" else Print(unknown))
  }

  lemma {:induction false} UnknownMore(q: Keys, ms: seq<Member>, m: Member, known: set<string>)
    ensures Unknown(q, ms + [m], known) == Unknown(q, ms, known) + (if q.name(m.key) in known then [] else [m])
  {
    if ms == [] {
      assert ms + [m] == [m] && [m][1..] == [];
    } else {
      assert (ms + [m])[1..] == ms[1..] + [m];
      UnknownMore(q, ms[1..], m, known);
    }
  }

  lemma {:induction false} PrintMore(ms: seq<Member>, m: Member)
    ensures PrintMembers(ms + [m]) == PrintMembers(ms) + (if ms == [] then "" else ",") + (m.key + ":" + m.value)
  {
    if ms != [] {
      assert (ms + [m])[1..] == ms[1..] + [m];
      if |ms| > 1 {
        PrintMore(ms[1..], m);
      } else {
        assert ms + [m] == [ms[0], m] && [ms[0], m][1..] == [m];
      }
    } else {
      assert ms + [m] == [m];
    }
  }

  lemma Appended(x: string, comma: string, key: string, value: string)
    ensures "{" + x + comma + key + ":" + value == "{" + (x + comma + (key + ":" + value))
    ensures "{" + x + key + ":" + value == "{" + (x + "" + (key + ":" + value))
  {
  }

  lemma NoBraceNoObject(data: string)
    ensures var d := Trim(data); d == "" || d[0] != '{' ==> ParseObject(d).NotAnObject?
  {
    TrimIsTrimmed(data);
  }

  lemma NothingUnknown(q: Keys, ms: seq<Member>, known: set<string>)
    ensures Unknown(q, ms[..0], known) == [] && PrintMembers([]) == ""
  {
  }

  method ExtractUnknownJsonFields(q: Keys, data: string, known: set<string>) returns (r: Extracted)
    ensures r == Extract(q, data, known)
  {
    var d := Trim(data);
    NoBraceNoObject(data);
    if |d| == 0 || d[0] != '{' {
      return NotObject;
    }
    hide Trim, ParseObject, Unknown, PrintMembers;
    if !q.valid(d) {
      return NotObject;
    }
    var root := ParseObject(d);
    if root.NotAnObject? {
      return NotObject;
    }
    var ms := root.members;
    var buf := "{";
    var wrote := false;
    NothingUnknown(q, ms, known);
    for i := 0 to |ms|
      invariant wrote == (Unknown(q, ms[..i], known) != [])
      invariant buf == "{" + PrintMembers(Unknown(q, ms[..i], known))
    {
      assert ms[..i + 1] == ms[..i] + [ms[i]];
      UnknownMore(q, ms[..i], ms[i], known);
      PrintMore(Unknown(q, ms[..i], known), ms[i]);
      Appended(PrintMembers(Unknown(q, ms[..i], known)), ",", ms[i].key, ms[i].value);
      if q.name(ms[i].key) in known {
        assert Unknown(q, ms[..i], known) + [] == Unknown(q, ms[..i], known);
      }
      if q.name(ms[i].key) in known {
        continue;
      }
      if wrote {
        buf := buf + ",";
      }
      buf := buf + ms[i].key;
      buf := buf + ":";
      buf := buf + ms[i].value;
      wrote := true;
    }
    assert ms[..|ms|] == ms;
    if !wrote {
      return Extracted("");
    }
    return Extracted(buf + "}");
  }

  // Merging

  function Merge(baseBody: string, extraBody: string): Merged {
    var base, extra := Trim(baseBody), Trim(extraBody);
    if extra == "" || extra == "{}" then Merged(base)
    else if base == "" || base[0] != '{' || base[|base| - 1] != '}' then MergeError
    else if extra[0] != '{' || extra[|extra| - 1] != '}' then MergeError
    else if base == "{}" then Merged(extra)
    else if |base| > MAX_INT - (|extra| - 1) then MergeError
    else Merged(base[..|base| - 1] + "," + extra[1..])
  }

  ghost predicate InBrackets(s: string) { |s| >= 1 && s[0] == '{' && s[|s| - 1] == '}' }

  /** A merge fails exactly when there are extra members and either body is not in brackets, or
      the result would be longer than an int; otherwise it is the one non-empty body, or both
      joined by a comma within one pair of brackets. */
  lemma MergeOutcome(baseBody: string, extraBody: string)
    ensures var base, extra, r := Trim(baseBody), Trim(extraBody), Merge(baseBody, extraBody);
      && (r.MergeError? <==>
            && extra != "" && extra != "{}"
            && !(InBrackets(base) && InBrackets(extra)
                 && (base == "{}" || |base| + |extra| - 1 <= 9_223_372_036_854_775_807)))
      && (r.Merged? && (extra == "" || extra == "{}") ==> r.body == base)
      && (r.Merged? && extra != "" && extra != "{}" && base == "{}" ==> r.body == extra)
      && (r.Merged? && extra != "" && extra != "{}" && base != "{}" ==>
            r.body == base[..|base| - 1] + "," + extra[1..])
  {
    hide Trim;
  }

  lemma PrintIsTrimmed(ms: seq<Member>)
    ensures Trim(Print(ms)) == Print(ms)
  {
    TrimFixed(Print(ms));
  }

  lemma {:induction false} PrintAppend(a: seq<Member>, b: seq<Member>)
    requires a != [] && b != []
    ensures PrintMembers(a + b) == PrintMembers(a) + "," + PrintMembers(b)
  {
    assert (a + b)[1..] == a[1..] + b;
    if |a| > 1 {
      PrintAppend(a[1..], b);
    } else {
      assert a[1..] + b == b;
    }
  }

  lemma MembersPrinted(ms: seq<Member>)
    requires ms != [] && IsMember(ms[0])
    ensures PrintMembers(ms) != ""
  {
  }

  lemma MergeBoth(x: string, y: string)
    requires x != "" && y != "" && |x| + |y| + 4 <= MAX_INT
    ensures Merge("{" + x + "}", "{" + y + "}") == Merged("{" + (x + "," + y) + "}")
  {
    var b, e := "{" + x + "}", "{" + y + "}";
    TrimFixed(b);
    TrimFixed(e);
    hide Trim;
    assert |b| == |x| + 2 && |e| == |y| + 2;
    assert b[..|b| - 1] == "{" + x && e[1..] == y + "}";
    assert "{" + x + "," + (y + "}") == "{" + (x + "," + y) + "}";
  }

  /** Merging two printed objects prints the concatenation of their member lists. */
  lemma MergePrints(base: seq<Member>, extra: seq<Member>)
    requires forall m :: m in base || m in extra ==> IsMember(m)
    requires |Print(base)| + |Print(extra)| <= MAX_INT
    ensures Merge(Print(base), Print(extra)) == Merged(Print(base + extra))
  {
    if base != [] && extra != [] {
      MembersPrinted(base);
      MembersPrinted(extra);
      PrintAppend(base, extra);
      hide PrintMembers, Merge, IsMember;
      MergeBoth(PrintMembers(base), PrintMembers(extra));
    } else {
      MergeOne(base, extra);
    }
  }

  lemma MergeOne(base: seq<Member>, extra: seq<Member>)
    requires base == [] || extra == []
    ensures Merge(Print(base), Print(extra)) == Merged(Print(base + extra))
  {
    PrintIsTrimmed(base);
    PrintIsTrimmed(extra);
    assert Print([]) == "{}";
    hide Trim, PrintMembers;
    assert base + extra == if extra == [] then base else extra;
  }

  // Splitting and merging undo each other

  lemma {:induction false} UnknownAppend(q: Keys, a: seq<Member>, b: seq<Member>, known: set<string>)
    ensures Unknown(q, a + b, known) == Unknown(q, a, known) + Unknown(q, b, known)
  {
    if a == [] {
      assert a + b == b;
    } else {
      assert (a + b)[1..] == a[1..] + b;
      UnknownAppend(q, a[1..], b, known);
    }
  }

  lemma {:induction false} UnknownNone(q: Keys, ms: seq<Member>, known: set<string>)
    requires forall m :: m in ms ==> q.name(m.key) in known
    ensures Unknown(q, ms, known) == []
  {
    if ms != [] {
      UnknownNone(q, ms[1..], known);
    }
  }

  lemma {:induction false} UnknownAll(q: Keys, ms: seq<Member>, known: set<string>)
    requires forall m :: m in ms ==> q.name(m.key) !in known
    ensures Unknown(q, ms, known) == ms
  {
    if ms != [] {
      UnknownAll(q, ms[1..], known);
    }
  }

  /** Extracting from the merge gives the extra members back, in order and with duplicates. */
  lemma ExtractAfterMerge(q: Keys, base: seq<Member>, extra: seq<Member>, known: set<string>)
    requires forall m :: m in base || m in extra ==> IsMember(m)
    requires forall m :: m in base ==> q.name(m.key) in known
    requires forall m :: m in extra ==> q.name(m.key) !in known
    requires |Print(base)| + |Print(extra)| <= MAX_INT
    ensures var merged := Merge(Print(base), Print(extra));
      && merged.Merged?
      && Extract(q, merged.body, known)
         == if q.valid(merged.body) then Extracted(if extra == [] then "" else Print(extra)) else NotObject
  {
    PrintIsTrimmed(base + extra);
    hide ParseObject, Print, Merge, Unknown, IsMember, Trim;
    MergePrints(base, extra);
    ParsePrint(base + extra);
    UnknownAppend(q, base, extra, known);
    UnknownNone(q, base, known);
    UnknownAll(q, extra, known);
    assert [] + extra == extra;
  }

  /** The members with a known name, in order. */
  function Known(q: Keys, ms: seq<Member>, known: set<string>): seq<Member> {
    if ms == [] then []
    else (if q.name(ms[0].key) in known then [ms[0]] else []) + Known(q, ms[1..], known)
  }

  lemma {:induction false} SplitKeepsMembers(q: Keys, ms: seq<Member>, known: set<string>)
    ensures multiset(Known(q, ms, known)) + multiset(Unknown(q, ms, known)) == multiset(ms)
    ensures forall m :: m in Known(q, ms, known) || m in Unknown(q, ms, known) ==> m in ms
  {
    if ms != [] {
      SplitKeepsMembers(q, ms[1..], known);
      assert ms == [ms[0]] + ms[1..];
    }
  }

  /** Nothing is lost on the way through: whatever way a body is spaced, writing its known
      members and merging the extracted rest gives an object with the same members. */
  lemma RoundTripKeepsMembers(q: Keys, before: string, ms: seq<Spaced>, inner: string, after: string,
      known: set<string>)
    requires (forall i :: 0 <= i < |ms| ==> IsSpaced(ms[i])) && AllWs(inner) && AllSpace(before) && AllSpace(after)
    requires |Print(Known(q, Content(ms), known))| + |Print(Unknown(q, Content(ms), known))| <= MAX_INT
    ensures var extracted := Extract(q, before + SpacedObject("", ms, inner, "") + after, known);
      && (extracted.Extracted? <==> q.valid(SpacedObject("", ms, inner, "")))
      && (extracted.Extracted? ==>
            var merged := Merge(Print(Known(q, Content(ms), known)), extracted.raw);
            && merged.Merged?
            && var p := ParseObject(merged.body); p.Members? && multiset(p.members) == multiset(Content(ms)))
  {
    hide SpacedObject, PrintSpaced, ParseObject, Trim, Print, Merge, IsSpaced, IsMember, Known, Unknown;
    BodyTrimmed(before, ms, inner, after);
    ParseSpaced("", ms, inner, "");
    var members := Content(ms);
    var k, u := Known(q, members, known), Unknown(q, members, known);
    SplitKeepsMembers(q, members, known);
    ContentMembers(ms);
    if u == [] {
      MergeNothing(k);
      assert k + u == k;
    } else {
      MergePrints(k, u);
    }
    ParsePrint(k + u);
    assert multiset(k + u) == multiset(members);
  }

  /** However the known fields are encoded again, merging in what was extracted from a body
      gives an object with them and then the body's unknown members, in order; extracting from
      that gives the same again. */
  lemma ReencodedKeepsUnknown(q: Keys, before: string, ms: seq<Spaced>, inner: string, after: string,
                              known: set<string>, base: seq<Member>)
    requires (forall i :: 0 <= i < |ms| ==> IsSpaced(ms[i])) && AllWs(inner) && AllSpace(before) && AllSpace(after)
    requires q.valid(SpacedObject("", ms, inner, ""))
    requires forall m :: m in base ==> IsMember(m) && q.name(m.key) in known
    requires |Print(base)| + |Print(Unknown(q, Content(ms), known))| <= MAX_INT
    ensures var extracted := Extract(q, before + SpacedObject("", ms, inner, "") + after, known);
      && extracted.Extracted?
      && var merged := Merge(Print(base), extracted.raw);
      && merged.Merged?
      && ParseObject(merged.body) == Members(base + Unknown(q, Content(ms), known))
      && (q.valid(merged.body) ==> Extract(q, merged.body, known) == extracted)
  {
    hide SpacedObject, PrintSpaced, ParseObject, Trim, Print, Merge, IsSpaced, IsMember, Unknown;
    BodyTrimmed(before, ms, inner, after);
    ParseSpaced("", ms, inner, "");
    var u := Unknown(q, Content(ms), known);
    ContentMembers(ms);
    UnknownAreUnknown(q, Content(ms), known);
    if u == [] {
      MergeNothing(base);
      MergeOne(base, u);
      assert base + u == base;
    } else {
      MergePrints(base, u);
    }
    ParsePrint(base + u);
    ExtractAfterMerge(q, base, u, known);
  }

  lemma {:induction false} UnknownAreUnknown(q: Keys, ms: seq<Member>, known: set<string>)
    ensures forall m :: m in Unknown(q, ms, known) ==> m in ms && q.name(m.key) !in known
  {
    if ms != [] {
      UnknownAreUnknown(q, ms[1..], known);
    }
  }

  /** An object without the whitespace around it. */
  lemma BodyTrimmed(before: string, ms: seq<Spaced>, inner: string, after: string)
    requires AllSpace(before) && AllSpace(after)
    ensures Trim(before + SpacedObject("", ms, inner, "") + after) == SpacedObject("", ms, inner, "")
  {
    var s := SpacedObject("", ms, inner, "");
    assert s[0] == '{' && s[|s| - 1] == '}';
    hide SpacedObject;
    TrimStrips(before, s, after);
  }

  lemma MergeNothing(base: seq<Member>)
    ensures Merge(Print(base), "") == Merged(Print(base))
  {
    PrintIsTrimmed(base);
    TrimFixed("");
  }

  lemma {:induction false} ContentMembers(ms: seq<Spaced>)
    requires forall i :: 0 <= i < |ms| ==> IsSpaced(ms[i])
    ensures forall m :: m in Content(ms) ==> IsMember(m)
  {
    if ms != [] {
      ContentMembers(ms[1..]);
    }
  }

  // Objects from a map, and lookups

  function RawValue(v: string): string { if v == "" then "null" else v }

  function MapMembers(q: Keys, fields: map<string, string>, keys: seq<string>): (ms: seq<Member>)
    requires forall k :: k in keys ==> k in fields
    ensures |ms| == |keys|
    ensures forall i :: 0 <= i < |keys| ==> ms[i] == Member(q.quote(keys[i]), RawValue(fields[keys[i]]))
  {
    if keys == [] then []
    else
      var n := |keys| - 1;
      assert forall k :: k in keys[..n] ==> k in keys;
      MapMembers(q, fields, keys[..n]) + [Member(q.quote(keys[n]), RawValue(fields[keys[n]]))]
  }

  /** `raw` is the map's object with its keys in ascending order. */
  ghost predicate IsMapText(q: Keys, fields: map<string, string>, raw: string) {
    if fields == map[] then raw == ""
    else exists keys: seq<string> :: AreSortedKeys(keys, fields) && raw == Print(MapMembers(q, fields, keys))
  }

  /** The map's object up to its closing brace, as far as these keys. */
  function OpenMap(q: Keys, fields: map<string, string>, keys: seq<string>): string
    requires forall k :: k in keys ==> k in fields
  {
    "{" + PrintMembers(MapMembers(q, fields, keys))
  }

  /** One key more appends its member to the text. */
  lemma MapStep(q: Keys, fields: map<string, string>, keys: seq<string>, i: nat)
    requires i < |keys| && forall k :: k in keys ==> k in fields
    ensures OpenMap(q, fields, keys[..i + 1])
      == (if i > 0 then OpenMap(q, fields, keys[..i]) + "," else OpenMap(q, fields, keys[..i]))
         + q.quote(keys[i]) + ":" + RawValue(fields[keys[i]])
  {
    hide PrintMembers;
    var key, value := q.quote(keys[i]), RawValue(fields[keys[i]]);
    assert keys[..i + 1][..i] == keys[..i];
    PrintMore(MapMembers(q, fields, keys[..i]), Member(key, value));
    Appended(PrintMembers(MapMembers(q, fields, keys[..i])), ",", key, value);
  }

  method UnknownJsonFieldsFromMap(q: Keys, fields: map<string, string>) returns (raw: string)
    ensures IsMapText(q, fields, raw)
  {
    if |fields| == 0 {
      return "";
    }
    assert fields != map[];
    var keys := Collect(fields);
    var buf := "{";
    assert forall k :: k in keys ==> k in fields;
    NoMembersYet(q, fields, keys);
    hide OpenMap, MapMembers, RawValue, AreSortedKeys, IsMapText;
    for i := 0 to |keys|
      invariant buf == OpenMap(q, fields, keys[..i])
    {
      MapStep(q, fields, keys, i);
      if i > 0 {
        buf := buf + ",";
      }
      buf := buf + q.quote(keys[i]);
      buf := buf + ":";
      buf := buf + RawValue(fields[keys[i]]);
    }
    assert keys[..|keys|] == keys;
    ClosedMap(q, fields, keys);
    return buf + "}";
  }

  lemma NoMembersYet(q: Keys, fields: map<string, string>, keys: seq<string>)
    ensures OpenMap(q, fields, keys[..0]) == "{"
  {
  }

  lemma ClosedMap(q: Keys, fields: map<string, string>, keys: seq<string>)
    requires fields != map[] && AreSortedKeys(keys, fields)
    ensures IsMapText(q, fields, OpenMap(q, fields, keys) + "}")
  {
    hide PrintMembers, SortedBy, MapMembers;
    assert OpenMap(q, fields, keys) + "}" == Print(MapMembers(q, fields, keys));
  }

  /** The value of the first member with a name. */
  function FirstNamed(q: Keys, ms: seq<Member>, key: string): Option<string> {
    if ms == [] then None
    else if q.name(ms[0].key) == key then Some(ms[0].value)
    else FirstNamed(q, ms[1..], key)
  }

  /** The value of the first member with a name, read no further than that member. */
  function LookupMembers(q: Keys, s: string, key: string): Option<string>
    decreases |s|
  {
    var f := ReadMember(s);
    if f.NoMember? then None
    else if q.name(f.member.key) == key then Some(f.member.value)
    else if f.rest[0] == ',' then LookupMembers(q, f.rest[1..], key)
    else None
  }

  function LookupRaw(q: Keys, raw: string, key: string): Option<string> {
    var t := SkipWs(raw);
    if t == "" || t[0] != '{' then None else LookupMembers(q, t[1..], key)
  }

  method Lookup(q: Keys, raw: string, key: string) returns (value: Option<string>)
    ensures value == LookupRaw(q, raw, key)
  {
    hide SkipWs, ReadMember;
    var t := SkipWs(raw);
    if t == "" || t[0] != '{' {
      return None;
    }
    var s := t[1..];
    while true
      invariant LookupRaw(q, raw, key) == LookupMembers(q, s, key)
      decreases |s|
    {
      var f := ReadMember(s);
      if f.NoMember? {
        return None;
      }
      if q.name(f.member.key) == key {
        return Some(f.member.value);
      }
      if f.rest[0] != ',' {
        return None;
      }
      s := f.rest[1..];
    }
  }

  lemma {:induction false} LookupInParsed(q: Keys, s: string, key: string)
    requires ParseMembers(s).Members?
    ensures LookupMembers(q, s, key) == FirstNamed(q, ParseMembers(s).members, key)
    decreases |s|
  {
    hide ParseMembers, ReadMember, SkipWs;
    ParseByMember(s);
    var f := ReadMember(s);
    if f.rest[0] == ',' {
      LookupInParsed(q, f.rest[1..], key);
      var rest := ParseMembers(f.rest[1..]).members;
      assert ([f.member] + rest)[1..] == rest;
    } else {
      assert [f.member][1..] == [];
    }
  }

  /** In an object a lookup finds the first of its members with the name. */
  lemma LookupFindsFirst(q: Keys, raw: string, key: string)
    requires ParseObject(raw).Members?
    ensures LookupRaw(q, raw, key) == FirstNamed(q, ParseObject(raw).members, key)
  {
    hide ParseMembers, ReadMember;
    var t := SkipWs(raw);
    var u := SkipWs(t[1..]);
    if u != "" && u[0] == '}' && SkipWs(u[1..]) == "" {
      NoMemberIn(t[1..]);
    } else {
      LookupInParsed(q, t[1..], key);
    }
  }

  lemma NoMemberIn(s: string)
    requires SkipWs(s) != "" && SkipWs(s)[0] == '}'
    ensures ReadMember(s) == NoMember
  {
  }

  /** A lookup stops at the member it looks for: whatever follows, valid or not, goes unread. */
  lemma LookupReadsPrefix(q: Keys, m: Spaced, rest: string)
    requires IsSpaced(m)
    ensures LookupRaw(q, "{" + (SpacedText(m) + ("," + rest)), q.name(m.key)) == Some(m.value)
  {
    hide ReadMember, SpacedText, IsSpaced;
    ReadsMember(m, "," + rest);
    SkipsWs("", "{" + (SpacedText(m) + ("," + rest)));
    assert "" + ("{" + (SpacedText(m) + ("," + rest))) == "{" + (SpacedText(m) + ("," + rest));
    assert ("{" + (SpacedText(m) + ("," + rest)))[1..] == SpacedText(m) + ("," + rest);
  }

  lemma {:induction false} FindsNamed(q: Keys, fields: map<string, string>, keys: seq<string>, ms: seq<Member>,
      key: string)
    requires LawfulKeys(q) && |ms| == |keys| && forall i :: 0 <= i < |keys| ==>
      keys[i] in fields && ms[i] == Member(q.quote(keys[i]), Stripped(RawValue(fields[keys[i]])))
    ensures FirstNamed(q, ms, key) == if key in keys then Some(Stripped(RawValue(fields[key]))) else None
  {
    if ms != [] {
      hide Stripped;
      assert q.name(q.quote(keys[0])) == keys[0];
      assert keys == [keys[0]] + keys[1..];
      FindsNamed(q, fields, keys[1..], ms[1..], key);
    }
  }

  /** A value without the whitespace around it. */
  function Stripped(v: string): string { DropTrailingWs(SkipWs(v)) }

  predicate OuterWs(v: string) { v != "" && (IsWs(v[0]) || IsWs(v[|v| - 1])) }

  lemma {:induction false} SkippedIsWs(s: string)
    ensures |SkipWs(s)| <= |s|
    ensures var k := |s| - |SkipWs(s)|; SkipWs(s) == s[k..] && forall i :: 0 <= i < k ==> IsWs(s[i])
    ensures SkipWs(s) != "" ==> !IsWs(SkipWs(s)[0])
  {
    if s != "" && IsWs(s[0]) {
      var t := s[1..];
      SkippedIsWs(t);
      var k := |t| - |SkipWs(t)|;
      assert t[k..] == s[k + 1..];
      assert forall i :: 0 < i < k + 1 ==> s[i] == t[i - 1];
    }
  }

  lemma {:induction false} DroppedIsWs(s: string)
    ensures DropTrailingWs(s) <= s && AllWs(s[|DropTrailingWs(s)|..])
    ensures DropTrailingWs(s) != "" ==> !IsWs(DropTrailingWs(s)[|DropTrailingWs(s)| - 1])
  {
    if s != "" && IsWs(s[|s| - 1]) {
      var t := s[..|s| - 1];
      DroppedIsWs(t);
      assert s == t + [s[|s| - 1]];
      assert s[|DropTrailingWs(t)|..] == t[|DropTrailingWs(t)|..] + [s[|s| - 1]];
    }
  }

  /** Stripping leaves exactly the values without outer whitespace as they are. */
  lemma StrippedFixed(v: string)
    requires v != ""
    ensures Stripped(v) == v <==> !OuterWs(v)
  {
    SkippedIsWs(v[1..]);
    DroppedIsWs(SkipWs(v));
    DroppedIsWs(v[..|v| - 1]);
    if IsWs(v[0]) {
      assert |Stripped(v)| <= |SkipWs(v)| < |v|;
    } else if IsWs(v[|v| - 1]) {
      assert |Stripped(v)| == |DropTrailingWs(v[..|v| - 1])| < |v|;
    }
  }

  function Lead(v: string): string { v[..|v| - |SkipWs(v)|] }

  function Trail(v: string): string {
    var t := SkipWs(v);
    if |DropTrailingWs(t)| > |t| then "" else t[|DropTrailingWs(t)|..]
  }

  lemma ValueParts(v: string)
    ensures AllWs(Lead(v)) && AllWs(Trail(v)) && v == Lead(v) + (Stripped(v) + Trail(v))
  {
    var t := SkipWs(v);
    SkippedIsWs(v);
    DroppedIsWs(t);
    hide SkipWs, DropTrailingWs, IsWs;
    assert Stripped(v) + Trail(v) == t;
    assert v == Lead(v) + t;
  }

  function WithSpaces(m: Member): Spaced {
    Spaced("", m.key, "", Lead(m.value), Stripped(m.value), Trail(m.value))
  }

  /** A member whose value has whitespace around it is a spaced member. */
  lemma SpacesSeen(m: Member)
    requires IsKey(m.key) && IsValue(Stripped(m.value))
    ensures var w := WithSpaces(m);
      IsSpaced(w) && w.key == m.key && w.value == Stripped(m.value) && SpacedText(w) == m.key + ":" + m.value
  {
    hide IsKey, IsValue, Lead, Stripped, Trail, IsWs;
    ValueParts(m.value);
    SpacedAround(m.key, Lead(m.value), Stripped(m.value), Trail(m.value));
  }

  lemma SpacedAround(key: string, a: string, v: string, b: string)
    ensures SpacedText(Spaced("", key, "", a, v, b)) == key + ":" + (a + (v + b))
  {
  }

  function AllWithSpaces(ms: seq<Member>): (r: seq<Spaced>)
    ensures |r| == |ms| && forall i :: 0 <= i < |ms| ==> r[i] == WithSpaces(ms[i])
  {
    if ms == [] then [] else [WithSpaces(ms[0])] + AllWithSpaces(ms[1..])
  }

  lemma {:induction false} SpacesPrint(ms: seq<Member>)
    requires ms != [] && forall m :: m in ms ==> IsKey(m.key) && IsValue(Stripped(m.value))
    ensures PrintSpaced(AllWithSpaces(ms)) == PrintMembers(ms)
    ensures forall i :: 0 <= i < |ms| ==> Content(AllWithSpaces(ms))[i] == Member(ms[i].key, Stripped(ms[i].value))
  {
    hide IsKey, IsValue, WithSpaces, Stripped, SpacedText;
    SpacesSeen(ms[0]);
    if |ms| > 1 {
      SpacesPrint(ms[1..]);
      assert AllWithSpaces(ms)[1..] == AllWithSpaces(ms[1..]);
    }
  }

  /** Such an object reads as its members with their values stripped. */
  lemma ParseStripped(ms: seq<Member>) returns (read: seq<Member>)
    requires ms != [] && forall m :: m in ms ==> IsKey(m.key) && IsValue(Stripped(m.value))
    ensures ParseObject(Print(ms)) == Members(read) && |read| == |ms|
    ensures forall i :: 0 <= i < |ms| ==> read[i] == Member(ms[i].key, Stripped(ms[i].value))
  {
    hide IsKey, IsValue, WithSpaces, Stripped, SpacedText, PrintMembers, PrintSpaced, ParseObject, Content;
    SpacesPrint(ms);
    var spaced := AllWithSpaces(ms);
    forall i | 0 <= i < |spaced| ensures IsSpaced(spaced[i]) {
      assert ms[i] in ms;
      SpacesSeen(ms[i]);
    }
    ParseSpaced("", spaced, "", "");
    assert SpacedObject("", spaced, "", "") == Print(ms);
    read := Content(spaced);
  }

  lemma MapMembersGood(q: Keys, fields: map<string, string>, keys: seq<string>)
    requires LawfulKeys(q) && forall k :: k in keys ==> k in fields
    requires forall k :: k in fields ==> fields[k] == "" || IsJson(Stripped(fields[k]))
    ensures forall m :: m in MapMembers(q, fields, keys) ==> IsKey(m.key) && IsValue(Stripped(m.value))
  {
    NullIsStripped();
    hide IsValue, IsKey, MapMembers, IsJson, Stripped;
    NullIsJson();
    var ms := MapMembers(q, fields, keys);
    forall m | m in ms ensures IsKey(m.key) && IsValue(Stripped(m.value)) {
      var i :| 0 <= i < |ms| && ms[i] == m;
      assert keys[i] in fields;
      assert IsKey(q.quote(keys[i]));
      JsonTextIsValue(Stripped(m.value));
    }
  }

  lemma LookupInMembers(q: Keys, fields: map<string, string>, keys: seq<string>, key: string)
    requires LawfulKeys(q) && keys != [] && forall k :: k in keys ==> k in fields
    requires forall k :: k in fields ==> fields[k] == "" || IsJson(Stripped(fields[k]))
    ensures LookupRaw(q, Print(MapMembers(q, fields, keys)), key)
      == if key in keys then Some(Stripped(RawValue(fields[key]))) else None
  {
    hide ParseObject, Print, IsJson, IsKey, IsValue, LawfulKeys, FirstNamed, MapMembers, LookupRaw, Stripped;
    MapMembersGood(q, fields, keys);
    var read := ParseStripped(MapMembers(q, fields, keys));
    LookupFindsFirst(q, Print(MapMembers(q, fields, keys)), key);
    FindsNamed(q, fields, keys, read, key);
  }

  /** Looking a key up in the object of a map of JSON values gives the map's value for it without
      whitespace around it, `null` for an empty one, and nothing for any other key: the very
      value of the map exactly when that has no outer whitespace. */
  lemma LookupOfMap(q: Keys, fields: map<string, string>, raw: string, key: string)
    requires LawfulKeys(q) && IsMapText(q, fields, raw)
    requires forall k :: k in fields ==> fields[k] == "" || IsJson(Stripped(fields[k]))
    ensures LookupRaw(q, raw, key) == if key in fields then Some(Stripped(RawValue(fields[key]))) else None
    ensures key in fields && fields[key] != "" ==>
        (LookupRaw(q, raw, key) == Some(fields[key]) <==> !OuterWs(fields[key]))
    ensures key in fields && fields[key] == "" ==> LookupRaw(q, raw, key) == Some("null")
  {
    if key in fields && fields[key] != "" {
      StrippedFixed(fields[key]);
    }
    NullIsStripped();
    hide Stripped, OuterWs, LawfulKeys, IsJson, IsMapText;
    if fields == map[] {
      LookupInNothing(q, raw, fields, key);
    } else {
      LookupInMap(q, fields, raw, key);
    }
  }

  lemma LookupInNothing(q: Keys, raw: string, fields: map<string, string>, key: string)
    requires fields == map[] && IsMapText(q, fields, raw)
    ensures LookupRaw(q, raw, key) == None
  {
    assert SkipWs("") == "";
  }

  lemma LookupInMap(q: Keys, fields: map<string, string>, raw: string, key: string)
    requires LawfulKeys(q) && IsMapText(q, fields, raw) && fields != map[]
    requires forall k :: k in fields ==> fields[k] == "" || IsJson(Stripped(fields[k]))
    ensures LookupRaw(q, raw, key) == if key in fields then Some(Stripped(RawValue(fields[key]))) else None
  {
    hide Print, IsJson, SortedBy, MapMembers, LawfulKeys, LookupRaw, Stripped, RawValue;
    var keys: seq<string> :| AreSortedKeys(keys, fields) && raw == Print(MapMembers(q, fields, keys));
    var k :| k in fields;
    assert k in keys;
    LookupInMembers(q, fields, keys, key);
  }

  lemma NullIsStripped()
    ensures Stripped("null") == "null"
  {
    StrippedFixed("null");
  }

  lemma NullIsJson()
    ensures IsJson("null")
  {
    assert TextOf(Literal("null")) == "null";
  }

  lemma JsonTextIsValue(v: string)
    requires IsJson(v)
    ensures IsValue(v)
  {
    hide WellFormed, TextOf, IsValue;
    var j :| WellFormed(j) && !j.Padded? && v == TextOf(j);
    JsonIsValue(j);
  }
}
