/** Rewriting batch items, inline and line by line in a JSONL file
    (internal/core/batch_preparation.go).  Text stands for the file's decoded characters. */
module BatchRewrite {
  import opened Text

  datatype Item = Item(customId: string, method_: string, url: string, body: string, extra: string)

  datatype Handling = Handled | NotHandled | Unsupported

  // What the surrounding code supplies: JSON, known operations and the rewrite callback
  datatype Tools = Tools(
    decode: string -> Option<Item>,
    encode: Item -> Option<string>,
    handle: Item -> Handling,
    rewrite: Item -> Option<string>,
    sameJson: (string, string) -> bool,
    endpoint: string -> string,             // of an item's URL, "" when there is none
    compact: string -> string,      // raw JSON as encoded: no spare whitespace, <, > and & escaped, null for none
    aliases: string -> Aliases)     // of an item's extra members

  // What decoding, which ignores the case of names, reads from extra members such as `Body` in
  // place of an item's own fields; Unreadable when one of them has the wrong type
  datatype Aliases =
    | Aliases(customId: Option<string>, method_: Option<string>, url: Option<string>, body: Option<string>)
    | Unreadable

  datatype LineError = NotAnItem | BadItem | RewriteFailed | EncodeFailed

  datatype LineResult = Kept | Rewritten(text: string) | Bad(error: LineError)

  type Hints = map<string, string>

  datatype Rewrite = Rewrite(content: string, hints: Hints, changed: bool) | Failed(lineNo: nat, error: LineError)

  // Lines

  /** The lines of the data, each with its newline; only the last may lack one. */
  function SplitLines(data: string): seq<string> {
    if data == "" then []
    else if data[0] == '\n' then ["\n"] + SplitLines(data[1..])
    else
      var rest := SplitLines(data[1..]);
      if rest == [] then [[data[0]]] else [[data[0]] + rest[0]] + rest[1..]
  }

  function Concat(lines: seq<string>): string {
    if lines == [] then "" else lines[0] + Concat(lines[1..])
  }

  predicate HasNewline(raw: string) { raw != "" && raw[|raw| - 1] == '\n' }

  /** The line without its newline and a carriage return before it. */
  function LineText(raw: string): string {
    var line := if HasNewline(raw) then raw[..|raw| - 1] else raw;
    if line != "" && line[|line| - 1] == '\r' then line[..|line| - 1] else line
  }

  function RewriteLine(t: Tools, raw: string): LineResult {
    var line := LineText(raw);
    if Trim(line) == "" then Kept
    else
      match t.decode(line)
      case None => Bad(NotAnItem)
      case Some(item) =>
        match t.handle(item)
        case Unsupported => Bad(BadItem)
        case NotHandled => Kept
        case Handled =>
          match t.rewrite(item)
          case None => Bad(RewriteFailed)
          case Some(body) =>
            if t.sameJson(item.body, body) then Kept
            else
              match t.encode(item.(body := body))
              case None => Bad(EncodeFailed)
              case Some(encoded) => Rewritten(encoded + if HasNewline(raw) then "\n" else "")
  }

  function OutLine(t: Tools, raw: string): string {
    var r := RewriteLine(t, raw);
    if r.Rewritten? then r.text else raw
  }

  function OutLines(t: Tools, lines: seq<string>): (out: seq<string>)
    ensures |out| == |lines| && forall i :: 0 <= i < |lines| ==> out[i] == OutLine(t, lines[i])
  {
    if lines == [] then [] else OutLines(t, lines[..|lines| - 1]) + [OutLine(t, lines[|lines| - 1])]
  }

  function AddHint(t: Tools, hints: Hints, item: Item): Hints {
    if Trim(item.customId) == "" || t.endpoint(item.url) == "" then hints
    else hints[item.customId := t.endpoint(item.url)]
  }

  function LineHint(t: Tools, hints: Hints, raw: string): Hints {
    var line := LineText(raw);
    if Trim(line) == "" || t.decode(line).None? then hints else AddHint(t, hints, t.decode(line).value)
  }

  function LineHints(t: Tools, lines: seq<string>): Hints {
    if lines == [] then map[] else LineHint(t, LineHints(t, lines[..|lines| - 1]), lines[|lines| - 1])
  }

  /** The item asks for a hint under this id. */
  predicate Asks(t: Tools, item: Item, id: string) {
    item.customId == id && Trim(id) != "" && t.endpoint(item.url) != ""
  }

  /** So does the item of this line. */
  predicate LineAsks(t: Tools, raw: string, id: string) {
    var line := LineText(raw);
    Trim(line) != "" && t.decode(line).Some? && Asks(t, t.decode(line).value, id)
  }

  /** The hints of all lines stay: an id that some line asks for has the endpoint of the last
      such line. */
  lemma {:induction false} LastLineHints(t: Tools, lines: seq<string>, i: nat, id: string)
    requires i < |lines| && LineAsks(t, lines[i], id)
    requires forall j :: i < j < |lines| ==> !LineAsks(t, lines[j], id)
    ensures id in LineHints(t, lines)
    ensures LineHints(t, lines)[id] == t.endpoint(t.decode(LineText(lines[i])).value.url)
  {
    hide LineAsks, LineHint, LineText;
    var n := |lines| - 1;
    LineHintIs(t, LineHints(t, lines[..n]), lines[n], id);
    if i < n {
      LastLineHints(t, lines[..n], i, id);
    }
  }

  /** And no id has a hint that no line asks for. */
  lemma {:induction false} OnlyAskedHints(t: Tools, lines: seq<string>, id: string)
    requires id in LineHints(t, lines)
    ensures exists i :: 0 <= i < |lines| && LineAsks(t, lines[i], id)
  {
    hide LineAsks, LineHint, LineText;
    if lines != [] {
      var n := |lines| - 1;
      LineHintIs(t, LineHints(t, lines[..n]), lines[n], id);
      if !LineAsks(t, lines[n], id) {
        OnlyAskedHints(t, lines[..n], id);
        var i :| 0 <= i < n && LineAsks(t, lines[..n][i], id);
        assert LineAsks(t, lines[i], id);
      }
    }
  }

  lemma LineHintIs(t: Tools, hints: Hints, raw: string, id: string)
    ensures var after := LineHint(t, hints, raw);
      && (id in after <==> id in hints || LineAsks(t, raw, id))
      && (LineAsks(t, raw, id) ==> after[id] == t.endpoint(t.decode(LineText(raw)).value.url))
      && (id in hints && !LineAsks(t, raw, id) ==> after[id] == hints[id])
  {
    hide Trim, LineText;
  }

  /** The first line that cannot be rewritten, or -1. */
  function FirstBad(t: Tools, lines: seq<string>): (i: int)
    ensures -1 <= i < |lines|
    ensures i >= 0 ==> RewriteLine(t, lines[i]).Bad?
    ensures forall j :: 0 <= j < (if i == -1 then |lines| else i) ==> !RewriteLine(t, lines[j]).Bad?
  {
    if lines == [] then -1
    else
      assert forall j :: 0 <= j < |lines| - 1 ==> lines[..|lines| - 1][j] == lines[j];
      var i := FirstBad(t, lines[..|lines| - 1]);
      if i >= 0 then i else if RewriteLine(t, lines[|lines| - 1]).Bad? then |lines| - 1 else -1
  }

  predicate Changes(t: Tools, lines: seq<string>) {
    exists i :: 0 <= i < |lines| && RewriteLine(t, lines[i]).Rewritten?
  }

  /** What rewriting a file amounts to. */
  function RewriteContent(t: Tools, data: string): Rewrite {
    var lines := SplitLines(data);
    var bad := FirstBad(t, lines);
    if bad >= 0 then Failed(bad + 1, RewriteLine(t, lines[bad]).error)
    else Rewrite(Concat(OutLines(t, lines)), LineHints(t, lines), Changes(t, lines))
  }

  // A line and a file in plain terms

  /** A line's text comes without its terminator: a newline, a carriage return, or both. */
  lemma LineForms(line: string)
    requires line == "" || line[|line| - 1] !in {'\r', '\n'}
    ensures LineText(line) == LineText(line + "\n") == LineText(line + "\r\n") == LineText(line + "\r") == line
  {
    assert (line + "\r\n")[..|line| + 1] == line + "\r";
    assert (line + "\r")[..|line|] == line;
  }

  /** Blank lines and items of other providers stay; a line that is no item, has no usable
      endpoint, or cannot be rewritten or encoded is refused for that; a body that changes as JSON
      is replaced and encoded with the rest of the item, before the newline if there was one. */
  lemma LineOutcome(t: Tools, raw: string, item: Item, body: string, out: string)
    ensures var line, r := LineText(raw), RewriteLine(t, raw);
      if Trim(line) == "" then r == Kept
      else
        && (t.decode(line) == None ==> r == Bad(NotAnItem))
        && (t.decode(line) == Some(item) && t.handle(item) == Unsupported ==> r == Bad(BadItem))
        && (t.decode(line) == Some(item) && t.handle(item) == NotHandled ==> r == Kept)
        && (t.decode(line) == Some(item) && t.handle(item) == Handled ==>
              && (t.rewrite(item) == None ==> r == Bad(RewriteFailed))
              && (t.rewrite(item) == Some(body) ==> RewrittenAs(t, raw, item, body, out, r)))
  {
    hide Trim, LineText;
  }

  ghost predicate RewrittenAs(t: Tools, raw: string, item: Item, body: string, out: string, r: LineResult) {
    var changed := Item(item.customId, item.method_, item.url, body, item.extra);
    && (t.sameJson(item.body, body) ==> r == Kept)
    && (!t.sameJson(item.body, body) && t.encode(changed) == None ==> r == Bad(EncodeFailed))
    && (!t.sameJson(item.body, body) && t.encode(changed) == Some(out) ==>
          r == Rewritten(if raw != "" && raw[|raw| - 1] == '\n' then out + "\n" else out))
  }

  /** Line `n`, counted from 1, is the first that fails. */
  ghost predicate FailsFirst(t: Tools, lines: seq<string>, n: nat) {
    && 1 <= n <= |lines| && RewriteLine(t, lines[n - 1]).Bad?
    && forall i :: 0 <= i < n - 1 ==> !RewriteLine(t, lines[i]).Bad?
  }

  /** A file is refused for its first failing line, named by its number; otherwise its lines stay
      in place and in number, each as it was or rewritten, and the flag tells whether one was. */
  lemma FileOutcome(t: Tools, data: string, n: nat)
    ensures var lines, r := SplitLines(data), RewriteContent(t, data);
      && Concat(lines) == data
      && (FailsFirst(t, lines, n) ==> r == Failed(n, RewriteLine(t, lines[n - 1]).error))
      && ((forall line :: line in lines ==> !RewriteLine(t, line).Bad?) ==> r.Rewrite?)
      && (r.Rewrite? ==>
            && (r.changed <==> exists line :: line in lines && RewriteLine(t, line).Rewritten?)
            && r.hints == LineHints(t, lines)
            && exists out: seq<string> :: Concat(out) == r.content && |out| == |lines|
                 && forall i :: 0 <= i < |lines| ==>
                   match RewriteLine(t, lines[i])
                   case Kept => out[i] == lines[i]
                   case Rewritten(text) => out[i] == text
                   case Bad(_) => false)
  {
    hide RewriteLine;
    SplitAndConcat(data);
    var lines := SplitLines(data);
    var bad := FirstBad(t, lines);
    hide FirstBad, SplitLines;
    if FailsFirst(t, lines, n) {
      assert bad == n - 1;
    }
    if bad == -1 {
      assert |OutLines(t, lines)| == |lines|;
      assert forall i :: 0 <= i < |lines| ==> lines[i] in lines;
    } else {
      assert lines[bad] in lines;
    }
  }

  lemma {:induction false} ConcatMore(lines: seq<string>, line: string)
    ensures Concat(lines + [line]) == Concat(lines) + line
  {
    if lines != [] {
      assert (lines + [line])[1..] == lines[1..] + [line];
      ConcatMore(lines[1..], line);
    }
  }

  lemma {:induction false} SplitAndConcat(data: string)
    ensures Concat(SplitLines(data)) == data
    ensures forall line :: line in SplitLines(data) ==> line != ""
  {
    if data != "" {
      SplitAndConcat(data[1..]);
      assert data == [data[0]] + data[1..];
      var rest := SplitLines(data[1..]);
      if data[0] == '\n' {
        assert SplitLines(data)[1..] == rest;
      } else if rest != [] {
        assert SplitLines(data)[1..] == rest[1..];
        assert rest == [rest[0]] + rest[1..];
        assert forall line :: line in rest[1..] ==> line in rest;
      }
    }
  }

  /** One round of the line loop: the outcome for the line and the hints recorded so far. */
  method ProcessLine(t: Tools, rawLine: string, hints: Hints) returns (r: LineResult, recorded: Hints)
    ensures r == RewriteLine(t, rawLine) && recorded == LineHint(t, hints, rawLine)
  {
    hide Trim;
    var hasNewline := HasNewline(rawLine);
    var line := if hasNewline then rawLine[..|rawLine| - 1] else rawLine;
    if |line| > 0 && line[|line| - 1] == '\r' {
      line := line[..|line| - 1];
    }
    if Trim(line) == "" {
      return Kept, hints;
    }
    var item := t.decode(line);
    if item.None? {
      return Bad(NotAnItem), hints;
    }
    recorded := AddHint(t, hints, item.value);
    var handling := t.handle(item.value);
    if handling.Unsupported? {
      return Bad(BadItem), recorded;
    }
    if handling.NotHandled? {
      return Kept, recorded;
    }
    var body := t.rewrite(item.value);
    if body.None? {
      return Bad(RewriteFailed), recorded;
    }
    if t.sameJson(item.value.body, body.value) {
      return Kept, recorded;
    }
    var encoded := t.encode(item.value.(body := body.value));
    if encoded.None? {
      return Bad(EncodeFailed), recorded;
    }
    return Rewritten(encoded.value + if hasNewline then "\n" else ""), recorded;
  }

  method RewriteBatchJsonlContent(t: Tools, data: string) returns (r: Rewrite)
    ensures r == RewriteContent(t, data)
  {
    if |data| == 0 {
      return Rewrite(data, map[], false);
    }
    var lines := SplitLines(data);
    var hints: Hints := map[];
    var out := "";
    var changed := false;
    assert lines[..0] == [];
    assert FirstBad(t, lines[..0]) == -1 && Concat(OutLines(t, lines[..0])) == "";
    assert LineHints(t, lines[..0]) == map[] && !Changes(t, lines[..0]);
    hide FirstBad, Concat, OutLines, LineHints, Changes, SplitLines, RewriteLine, LineHint;
    for i := 0 to |lines|
      invariant FirstBad(t, lines[..i]) == -1
      invariant out == Concat(OutLines(t, lines[..i]))
      invariant hints == LineHints(t, lines[..i])
      invariant changed == Changes(t, lines[..i])
    {
      NextLine(t, lines, i);
      ConcatMore(OutLines(t, lines[..i]), OutLine(t, lines[i]));
      var outcome;
      outcome, hints := ProcessLine(t, lines[i], hints);
      if outcome.Bad? {
        return Failed(i + 1, outcome.error);
      }
      if outcome.Kept? {
        out := out + lines[i];
        continue;
      }
      out := out + outcome.text;
      changed := true;
    }
    assert lines[..|lines|] == lines;
    return Rewrite(out, hints, changed);
  }

  lemma NextOutput(t: Tools, lines: seq<string>, i: nat)
    requires i < |lines|
    ensures OutLines(t, lines[..i + 1]) == OutLines(t, lines[..i]) + [OutLine(t, lines[i])]
    ensures LineHints(t, lines[..i + 1]) == LineHint(t, LineHints(t, lines[..i]), lines[i])
  {
    hide OutLine, LineHint;
    assert lines[..i + 1][..i] == lines[..i];
  }

  lemma NextChange(t: Tools, lines: seq<string>, i: nat)
    requires i < |lines|
    ensures Changes(t, lines[..i + 1]) <==> Changes(t, lines[..i]) || RewriteLine(t, lines[i]).Rewritten?
  {
    hide RewriteLine;
    var before, after := lines[..i], lines[..i + 1];
    assert after[i] == lines[i] && forall j :: 0 <= j < i ==> after[j] == before[j];
    if Changes(t, before) {
      var j :| 0 <= j < i && RewriteLine(t, before[j]).Rewritten?;
      assert RewriteLine(t, after[j]).Rewritten?;
    }
  }

  lemma NextBad(t: Tools, lines: seq<string>, i: nat)
    requires i < |lines| && FirstBad(t, lines[..i]) == -1
    ensures FirstBad(t, lines[..i + 1]) == if RewriteLine(t, lines[i]).Bad? then i else -1
    ensures RewriteLine(t, lines[i]).Bad? ==> FirstBad(t, lines) == i
  {
    var before, after := lines[..i], lines[..i + 1];
    assert forall j :: 0 <= j < i ==> lines[j] == before[j] == after[j];
    assert after[i] == lines[i];
    hide RewriteLine;
    assert forall j :: 0 <= j < i ==> !RewriteLine(t, before[j]).Bad?;
  }

  /** How one more line extends what has been done so far. */
  lemma NextLine(t: Tools, lines: seq<string>, i: nat)
    requires i < |lines|
    ensures var before, after := lines[..i], lines[..i + 1];
      && OutLines(t, after) == OutLines(t, before) + [OutLine(t, lines[i])]
      && LineHints(t, after) == LineHint(t, LineHints(t, before), lines[i])
      && (Changes(t, after) <==> Changes(t, before) || RewriteLine(t, lines[i]).Rewritten?)
      && (FirstBad(t, before) == -1 ==> FirstBad(t, after) == if RewriteLine(t, lines[i]).Bad? then i else -1)
    ensures FirstBad(t, lines[..i]) == -1 && RewriteLine(t, lines[i]).Bad? ==> FirstBad(t, lines) == i
  {
    hide RewriteLine, OutLines, LineHints, Changes, FirstBad;
    NextOutput(t, lines, i);
    NextChange(t, lines, i);
    if FirstBad(t, lines[..i]) == -1 {
      NextBad(t, lines, i);
    }
  }

  // What the caller relies on

  predicate OneLine(s: string) {
    Trim(s) != "" && '\n' !in s && s[|s| - 1] != '\r'
  }

  /** JSON encoding writes one non-blank line. */
  ghost predicate EncodesOneLine(t: Tools) {
    forall item {:trigger t.encode(item)} :: t.encode(item).Some? ==> OneLine(t.encode(item).value)
  }

  function CompactExtra(t: Tools, extra: string): string {
    if Trim(extra) == "" || Trim(extra) == "{}" then "" else t.compact(extra)
  }

  function Or(alias: Option<string>, own: string): string { if alias.Some? then alias.value else own }

  /** What decoding makes of an encoded item: raw values are compacted, and extra members, which
      are written behind the item's own fields, are read in place of those they are taken for. */
  function ReadBack(t: Tools, item: Item): Option<Item> {
    match t.aliases(item.extra)
    case Unreadable => None
    case Aliases(customId, method_, url, body) =>
      Some(Item(Or(customId, item.customId), Or(method_, item.method_), Or(url, item.url),
                t.compact(Or(body, item.body)), CompactExtra(t, item.extra)))
  }

  /** Encoding an item whose extra members were extracted from a line, and decoding it again. */
  ghost predicate RoundTrips(t: Tools) {
    forall line: string, item: Item {:trigger t.decode(line), t.encode(item)} ::
      t.decode(line).Some? && item.extra == t.decode(line).value.extra && t.encode(item).Some? ==>
        t.decode(t.encode(item).value) == ReadBack(t, item)
  }

  /** The item itself, with its raw values compacted. */
  function Compacted(t: Tools, item: Item): Item {
    item.(body := t.compact(item.body), extra := CompactExtra(t, item.extra))
  }

  /** No extra member is read in place of the item's own fields with another value. */
  predicate Unshadowed(t: Tools, item: Item) {
    var a := t.aliases(item.extra);
    && a.Aliases?
    && (a.customId.None? || a.customId.value == item.customId)
    && (a.method_.None? || a.method_.value == item.method_)
    && (a.url.None? || a.url.value == item.url)
    && (a.body.None? || t.compact(a.body.value) == t.compact(item.body))
  }

  /** The rewrite passes the item over or gives it the body it has. */
  predicate LeavesAlone(t: Tools, item: Item) {
    || t.handle(item).NotHandled?
    || (t.handle(item).Handled? && t.rewrite(item).Some? && t.sameJson(item.body, t.rewrite(item).value))
  }

  /** Rewriting an item that has been rewritten already, and compacted, leaves its body as it is. */
  ghost predicate IdempotentRewrite(t: Tools) {
    forall item {:trigger t.rewrite(item)} ::
      t.handle(item).Handled? && t.rewrite(item).Some? && !t.sameJson(item.body, t.rewrite(item).value) ==>
        LeavesAlone(t, Compacted(t, item.(body := t.rewrite(item).value)))
  }

  /** Without a change the content comes back character for character. */
  lemma UnchangedIsIdentical(t: Tools, data: string)
    ensures var r := RewriteContent(t, data); r.Rewrite? && !r.changed ==> r.content == data
  {
    var lines := SplitLines(data);
    SplitAndConcat(data);
    if FirstBad(t, lines) == -1 && !Changes(t, lines) {
      assert OutLines(t, lines) == lines;
    }
  }

  predicate IsLine(line: string, last: bool) {
    line != "" && (forall i :: 0 <= i < |line| - 1 ==> line[i] != '\n') && (!last ==> HasNewline(line))
  }

  /** The lines of a file: each ends with its only newline, but the last may have none. */
  ghost predicate AreLines(lines: seq<string>) {
    forall i :: 0 <= i < |lines| ==> IsLine(lines[i], i == |lines| - 1)
  }

  lemma {:induction false} SplitGivesLines(data: string)
    ensures AreLines(SplitLines(data))
  {
    if data != "" {
      SplitGivesLines(data[1..]);
      var rest := SplitLines(data[1..]);
      if data[0] != '\n' && rest != [] {
        assert IsLine(rest[0], |rest| == 1);
        assert IsLine([data[0]] + rest[0], |rest| == 1);
      }
    }
  }

  lemma {:induction false} SplitOneLine(line: string, more: string)
    requires IsLine(line, more == "")
    ensures SplitLines(line + more) == [line] + SplitLines(more)
  {
    var data := line + more;
    if line == "\n" {
      assert data[1..] == more;
    } else if |line| == 1 {
      assert more == "" && data == line && data[1..] == "";
      assert SplitLines(data[1..]) == [] && SplitLines(data) == [[data[0]]] && [data[0]] == line;
    } else {
      assert data[1..] == line[1..] + more;
      assert IsLine(line[1..], more == "");
      SplitOneLine(line[1..], more);
      assert [line[0]] + line[1..] == line;
    }
  }

  /** Lines that are put together come apart the same way. */
  lemma {:induction false} SplitConcat(lines: seq<string>)
    requires AreLines(lines)
    ensures SplitLines(Concat(lines)) == lines
  {
    if lines != [] {
      var rest := lines[1..];
      forall i | 0 <= i < |rest| ensures IsLine(rest[i], i == |rest| - 1) {
        assert IsLine(lines[i + 1], i + 1 == |lines| - 1);
      }
      SplitConcat(rest);
      if rest != [] {
        assert IsLine(lines[1], |lines| == 2);
        assert Concat(rest) != "";
      }
      SplitOneLine(lines[0], Concat(rest));
    }
  }

  lemma OutLineIsLine(t: Tools, raw: string, last: bool)
    requires EncodesOneLine(t) && IsLine(raw, last)
    ensures IsLine(OutLine(t, raw), last)
    ensures HasNewline(OutLine(t, raw)) == HasNewline(raw)
  {
    if RewriteLine(t, raw).Rewritten? {
      var item := t.decode(LineText(raw)).value;
      var after := item.(body := t.rewrite(item).value);
      assert OneLine(t.encode(after).value);
    }
  }

  /** Line i of the output comes from line i of the input. */
  lemma LinesAligned(t: Tools, data: string)
    requires EncodesOneLine(t) && RewriteContent(t, data).Rewrite?
    ensures SplitLines(RewriteContent(t, data).content) == OutLines(t, SplitLines(data))
  {
    var lines := SplitLines(data);
    SplitGivesLines(data);
    var out := OutLines(t, lines);
    forall i | 0 <= i < |out| ensures IsLine(out[i], i == |out| - 1) {
      assert IsLine(lines[i], i == |lines| - 1);
      OutLineIsLine(t, lines[i], i == |lines| - 1);
    }
    SplitConcat(out);
  }

  /** The item a rewritten line is meant to hold. */
  function RewrittenItem(t: Tools, raw: string): Item
    requires RewriteLine(t, raw).Rewritten?
  {
    var item := t.decode(LineText(raw)).value;
    item.(body := t.rewrite(item).value)
  }

  /** A line stays as it was unless its item is handled and gets another body.  Then it decodes
      to the same item with that body, raw values compacted, exactly when no extra member is
      read in place of the item's own fields with another value. */
  lemma LineMeaning(t: Tools, raw: string)
    requires EncodesOneLine(t) && RoundTrips(t) && !RewriteLine(t, raw).Bad?
    ensures OutLine(t, raw) == raw || RewriteLine(t, raw).Rewritten?
    ensures RewriteLine(t, raw).Rewritten? ==>
      var item := t.decode(LineText(raw));
      && item.Some? && t.handle(item.value).Handled? && t.rewrite(item.value).Some?
      && !t.sameJson(item.value.body, t.rewrite(item.value).value)
      && var after := item.value.(body := t.rewrite(item.value).value);
      && (t.decode(LineText(OutLine(t, raw))) == Some(Compacted(t, after)) <==> Unshadowed(t, after))
  {
    if RewriteLine(t, raw).Rewritten? {
      RewrittenText(t, raw);
      hide LineText, Trim, OutLine, OneLine, CompactExtra;
    }
  }

  lemma RewrittenText(t: Tools, raw: string)
    requires EncodesOneLine(t) && RewriteLine(t, raw).Rewritten?
    ensures Some(LineText(OutLine(t, raw))) == t.encode(RewrittenItem(t, raw))
    ensures Trim(LineText(OutLine(t, raw))) != ""
    ensures RoundTrips(t) ==> t.decode(LineText(OutLine(t, raw))) == ReadBack(t, RewrittenItem(t, raw))
  {
    hide Trim;
    var encoded := t.encode(RewrittenItem(t, raw)).value;
    assert OneLine(encoded);
    assert encoded != "" by {
      TrimOfEmpty();
    }
    var out := OutLine(t, raw);
    if HasNewline(raw) {
      assert out == encoded + "\n" && out[..|out| - 1] == encoded;
    } else {
      assert out == encoded + "" == encoded && out[|out| - 1] in encoded;
    }
    assert LineText(out) == encoded;
    hide LineText, OutLine, OneLine, ReadBack, EncodesOneLine;
    assert t.decode(LineText(raw)).Some?;
  }

  lemma TrimOfEmpty()
    ensures Trim("") == ""
  {
  }

  /** What a line ends in, behind its text: nothing, a newline, a carriage return or both. */
  function Terminator(raw: string): string { raw[|LineText(raw)|..] }

  predicate EndsInReturn(raw: string) {
    var line := if HasNewline(raw) then raw[..|raw| - 1] else raw;
    line != "" && line[|line| - 1] == '\r'
  }

  /** A line keeps its terminator exactly when it is not rewritten or has no carriage return in
      it: a rewritten line comes out with at most a newline. */
  lemma CarriageReturnDropped(t: Tools, raw: string)
    requires EncodesOneLine(t)
    ensures Terminator(OutLine(t, raw)) == Terminator(raw) <==> !RewriteLine(t, raw).Rewritten? || !EndsInReturn(raw)
    ensures RewriteLine(t, raw).Rewritten? ==> Terminator(OutLine(t, raw)) == if HasNewline(raw) then "\n" else ""
  {
    if RewriteLine(t, raw).Rewritten? {
      RewrittenText(t, raw);
      var text := LineText(OutLine(t, raw));
      assert OutLine(t, raw) == text + if HasNewline(raw) then "\n" else "";
      assert '\r' in Terminator(raw) <==> EndsInReturn(raw);
    }
  }

  /** What the second look at a rewritten line reads is an item that the rewrite leaves alone. */
  predicate Settles(t: Tools, raw: string) {
    RewriteLine(t, raw).Rewritten? ==>
      var again := ReadBack(t, RewrittenItem(t, raw));
      again.Some? && LeavesAlone(t, again.value)
  }

  lemma SecondLook(t: Tools, raw: string)
    requires EncodesOneLine(t) && RoundTrips(t) && !RewriteLine(t, raw).Bad?
    ensures RewriteLine(t, OutLine(t, raw)) == Kept <==> Settles(t, raw)
  {
    if RewriteLine(t, raw).Rewritten? {
      RewrittenText(t, raw);
      hide LineText, Trim, OutLine, EncodesOneLine, RoundTrips, ReadBack, RewrittenItem;
    }
  }

  /** A second pass over the output succeeds and changes nothing exactly when every rewritten
      line settles. */
  lemma SecondPassExactly(t: Tools, data: string)
    requires EncodesOneLine(t) && RoundTrips(t) && RewriteContent(t, data).Rewrite?
    ensures var second := RewriteContent(t, RewriteContent(t, data).content);
      second.Rewrite? && !second.changed <==> forall line :: line in SplitLines(data) ==> Settles(t, line)
  {
    hide EncodesOneLine, RoundTrips, RewriteLine, SplitLines, OutLine, LineText, Settles;
    var lines := SplitLines(data);
    LinesAligned(t, data);
    var out := OutLines(t, lines);
    forall i | 0 <= i < |lines| ensures RewriteLine(t, out[i]) == Kept <==> Settles(t, lines[i]) {
      SecondLook(t, lines[i]);
    }
    AllKept(t, out);
    if forall i :: 0 <= i < |out| ==> RewriteLine(t, out[i]) == Kept {
      assert forall line :: line in lines ==> Settles(t, line);
    } else {
      var i :| 0 <= i < |out| && RewriteLine(t, out[i]) != Kept;
      assert lines[i] in lines;
    }
  }

  lemma AllKept(t: Tools, lines: seq<string>)
    ensures FirstBad(t, lines) == -1 && !Changes(t, lines)
      <==> forall i :: 0 <= i < |lines| ==> RewriteLine(t, lines[i]) == Kept
  {
    hide RewriteLine;
    if FirstBad(t, lines) == -1 && !Changes(t, lines) {
      forall i | 0 <= i < |lines| ensures RewriteLine(t, lines[i]) == Kept {
        assert !RewriteLine(t, lines[i]).Bad? && !RewriteLine(t, lines[i]).Rewritten?;
      }
    }
  }

  /** No line that is rewritten carries extra members that are read in place of its own. */
  ghost predicate NoShadows(t: Tools, lines: seq<string>) {
    forall i :: 0 <= i < |lines| && RewriteLine(t, lines[i]).Rewritten? ==> Unshadowed(t, RewrittenItem(t, lines[i]))
  }

  /** A line without shadows settles, and the second look at it records the same hint. */
  lemma UnshadowedSettles(t: Tools, raw: string, hints: Hints)
    requires EncodesOneLine(t) && RoundTrips(t) && IdempotentRewrite(t)
    requires RewriteLine(t, raw).Rewritten? ==> Unshadowed(t, RewrittenItem(t, raw))
    ensures Settles(t, raw) && LineHint(t, hints, OutLine(t, raw)) == LineHint(t, hints, raw)
  {
    if RewriteLine(t, raw).Rewritten? {
      RewrittenText(t, raw);
      hide LineText, Trim, OutLine, OneLine, CompactExtra;
      var item := t.decode(LineText(raw)).value;
      assert t.rewrite(item).Some?;
      assert ReadBack(t, RewrittenItem(t, raw)) == Some(Compacted(t, RewrittenItem(t, raw)));
    }
  }

  lemma {:induction false} SecondHints(t: Tools, lines: seq<string>)
    requires EncodesOneLine(t) && RoundTrips(t) && IdempotentRewrite(t) && NoShadows(t, lines)
    ensures LineHints(t, OutLines(t, lines)) == LineHints(t, lines)
  {
    if lines != [] {
      hide EncodesOneLine, RoundTrips, IdempotentRewrite, RewriteLine, LineHint, OutLine, Settles, RewrittenItem,
          Unshadowed;
      var front := lines[..|lines| - 1];
      SecondHints(t, front);
      UnshadowedSettles(t, lines[|lines| - 1], LineHints(t, front));
      assert OutLines(t, lines)[..|lines| - 1] == OutLines(t, front);
    }
  }

  /** So an idempotent rewrite is idempotent on files without shadows: a second pass over the
      output succeeds, changes nothing and records the same hints. */
  lemma SecondPassChangesNothing(t: Tools, data: string)
    requires EncodesOneLine(t) && RoundTrips(t) && IdempotentRewrite(t)
    requires RewriteContent(t, data).Rewrite? && NoShadows(t, SplitLines(data))
    ensures var first := RewriteContent(t, data);
      RewriteContent(t, first.content) == Rewrite(first.content, first.hints, false)
  {
    hide EncodesOneLine, RoundTrips, IdempotentRewrite, RewriteLine, SplitLines, OutLine, Settles, RewrittenItem,
        Unshadowed;
    var lines := SplitLines(data);
    var first := RewriteContent(t, data);
    LinesAligned(t, data);
    forall line | line in lines ensures Settles(t, line) {
      var i :| 0 <= i < |lines| && lines[i] == line;
      UnshadowedSettles(t, line, map[]);
    }
    SecondPassExactly(t, data);
    SecondHints(t, lines);
    UnchangedIsIdentical(t, first.content);
  }

  // The failing inputs

  /** What the surrounding code answers for a line that it rewrites. */
  ghost predicate Answers(t: Tools, line: string, item: Item, body: string, out: string) {
    && t.decode(line) == Some(item) && t.handle(item).Handled? && t.rewrite(item) == Some(body)
    && !t.sameJson(item.body, body) && t.encode(item.(body := body)) == Some(out)
  }

  lemma AnswersRewrite(t: Tools, line: string, item: Item, body: string, out: string)
    requires OneLine(line) && Answers(t, line, item, body, out)
    ensures forall end :: end in {"", "\n", "\r", "\r\n"} ==>
      && LineText(line + end) == line
      && RewriteLine(t, line + end) == Rewritten(out + if end == "\n" || end == "\r\n" then "\n" else "")
      && RewrittenItem(t, line + end) == item.(body := body)
  {
    forall end | end in {"", "\n", "\r", "\r\n"}
      ensures LineText(line + end) == line && HasNewline(line + end) == (end == "\n" || end == "\r\n")
    {
      TrimOfEmpty();
      hide Trim;
      assert (line + "\n")[..|line|] == line && (line + "\r")[..|line|] == line && line + "" == line;
      assert (line + "\r\n")[..|line| + 1] == line + "\r";
    }
    hide LineText, Trim;
  }

  lemma TwoLines(t: Tools, a: string, b: string, c: string, d: string)
    requires IsLine(a, false) && IsLine(b, true) && RewriteLine(t, a) == Rewritten(c) &&
        RewriteLine(t, b) == Rewritten(d)
    ensures var r := RewriteContent(t, a + b); r.Rewrite? && r.content == c + d && r.changed
  {
    SplitOneLine(a, b);
    SplitOneLine(b, "");
    assert b + "" == b && [b] + [] == [b] && [a] + [b] == [a, b];
    var lines := [a, b];
    hide RewriteLine, SplitLines, IsLine;
    assert lines[..0] == [] && lines[..1] == [a] && lines[..2] == lines;
    NextOutput(t, lines, 0);
    NextOutput(t, lines, 1);
    assert OutLines(t, lines) == [c, d];
    assert Concat([c, d]) == c + d by {
      assert [c, d][1..] == [d] && [d][1..] == [];
      assert Concat([]) == "" && Concat([d]) == d + "" == d;
    }
    assert RewriteLine(t, lines[0]).Rewritten?;
    assert FirstBad(t, lines) == -1;
  }

  const BATCH_LINE := "{\"url\":\"/u\",\"body\":{\"model\":\"a\"}}"

  /** A rewritten CRLF line and a rewritten last line that ends in a carriage return both lose it. */
  lemma CarriageReturnExamples(t: Tools, item: Item, body: string, out: string)
    requires Answers(t, BATCH_LINE, item, body, out)
    ensures var r := RewriteContent(t, (BATCH_LINE + "\r\n") + (BATCH_LINE + "\r"));
      r.Rewrite? && r.content == (out + "\n") + out && r.changed
  {
    hide *;
    BatchLineIsOneLine();
    ReturnsAreLost(t, BATCH_LINE, item, body, out);
  }

  lemma ReturnsAreLost(t: Tools, line: string, item: Item, body: string, out: string)
    requires OneLine(line) && Answers(t, line, item, body, out)
    ensures var r := RewriteContent(t, (line + "\r\n") + (line + "\r"));
      r.Rewrite? && r.content == (out + "\n") + out && r.changed
  {
    AnswersRewrite(t, line, item, body, out);
    hide RewriteLine, RewriteContent, Answers, Trim, LineText;
    assert out + "" == out;
    TwoLines(t, line + "\r\n", line + "\r", out + "\n", out);
  }

  lemma OneLineText(s: string)
    requires s != "" && Trimmed(s) && forall i :: 0 <= i < |s| ==> s[i] != '\n'
    ensures OneLine(s)
  {
    TrimFixed(s);
    hide Trim;
  }

  lemma NoNewline(a: string, b: string)
    requires a != "" && !IsSpace(a[0]) && b != "" && !IsSpace(b[|b| - 1]) && '\n' !in a && '\n' !in b
    ensures OneLine(a + b)
  {
    OneLineText(a + b);
  }

  lemma BatchLineIsOneLine()
    ensures OneLine(BATCH_LINE)
  {
    hide OneLine;
    OneLineText(BATCH_LINE);
  }

  lemma IdLineIsOneLine()
    ensures OneLine(ID_LINE)
  {
    hide OneLine;
    NoNewline("{\"Custom_ID\":\"b\",\"custom_id\":\"a\"", ",\"url\":\"/u\",\"body\":{\"model\":\"a\"}}");
  }

  lemma BodyLineIsOneLine()
    ensures OneLine(BODY_LINE)
  {
    hide OneLine;
    OneLineText(BODY_LINE);
  }

  const ID_LINE := "{\"Custom_ID\":\"b\",\"custom_id\":\"a\"" + ",\"url\":\"/u\",\"body\":{\"model\":\"a\"}}"

  const ID_EXTRA := "{\"Custom_ID\":\"b\"}"

  const MODEL_A := "{\"model\":\"a\"}"

  /** A rewritten line with an extra `Custom_ID` reads with that id instead of its own, and its
      hint is recorded under it. */
  lemma AliasedIdReplacesIt(t: Tools, body: string, out: string)
    requires EncodesOneLine(t) && RoundTrips(t)
    requires Answers(t, ID_LINE, Item("a", "", "/u", MODEL_A, ID_EXTRA), body, out)
    requires t.aliases(ID_EXTRA) == Aliases(Some("b"), None, None, None) && t.endpoint("/u") != ""
    ensures var after := OutLine(t, ID_LINE + "\n");
      && t.decode(LineText(after)) == Some(Item("b", "", "/u", t.compact(body), CompactExtra(t, ID_EXTRA)))
      && LineHint(t, map[], ID_LINE + "\n") == map["a" := t.endpoint("/u")]
      && LineHint(t, map[], after) == map["b" := t.endpoint("/u")]
  {
    assert Trim("a") == "a" && Trim("b") == "b" by {
      TrimFixed("a");
      TrimFixed("b");
    }
    hide *;
    IdLineIsOneLine();
    AliasedId(t, ID_LINE, Item("a", "", "/u", MODEL_A, ID_EXTRA), "b", body, out);
  }

  lemma AliasedId(t: Tools, line: string, item: Item, id: string, body: string, out: string)
    requires EncodesOneLine(t) && RoundTrips(t) && OneLine(line) && Answers(t, line, item, body, out)
    requires t.aliases(item.extra) == Aliases(Some(id), None, None, None)
    requires Trim(item.customId) != "" && Trim(id) != "" && t.endpoint(item.url) != ""
    ensures var after := OutLine(t, line + "\n");
      && t.decode(LineText(after)) ==
          Some(item.(customId := id, body := t.compact(body), extra := CompactExtra(t, item.extra)))
      && LineHint(t, map[], line + "\n") == map[item.customId := t.endpoint(item.url)]
      && LineHint(t, map[], after) == map[id := t.endpoint(item.url)]
  {
    ReadsAsAliased(t, line, item, body, out);
    hide Trim, LineText, OutLine, CompactExtra, RewriteLine, OneLine, EncodesOneLine, RoundTrips;
  }

  lemma ReadsAsAliased(t: Tools, line: string, item: Item, body: string, out: string)
    requires EncodesOneLine(t) && RoundTrips(t) && OneLine(line) && Answers(t, line, item, body, out)
    ensures Trim(line) != "" && LineText(line + "\n") == line && RewriteLine(t, line + "\n") == Rewritten(out + "\n")
    ensures var after := OutLine(t, line + "\n");
      Trim(LineText(after)) != "" && t.decode(LineText(after)) == ReadBack(t, item.(body := body))
  {
    AnswersRewrite(t, line, item, body, out);
    hide RewriteLine, Trim, LineText, Answers, ReadBack;
    assert RewriteLine(t, line + "\n").Rewritten?;
    RewrittenText(t, line + "\n");
  }

  const BODY_LINE := "{\"url\":\"/u\",\"Body\":{\"model\":\"a\"}}"

  const BODY_EXTRA := "{\"Body\":{\"model\":\"a\"}}"

  /** A line whose body is called `Body` is read with its old body after the rewrite as before
      it, so every pass writes the same line again and counts it as changed. */
  lemma ShadowedBodyNeverSettles(t: Tools, body: string, out: string)
    requires EncodesOneLine(t) && RoundTrips(t)
    requires Answers(t, BODY_LINE, Item("", "", "/u", MODEL_A, BODY_EXTRA), body, out)
    requires t.aliases(BODY_EXTRA) == Aliases(None, None, None, Some(MODEL_A))
    requires t.compact(MODEL_A) == MODEL_A && t.compact(BODY_EXTRA) == BODY_EXTRA
    ensures RewriteLine(t, BODY_LINE + "\n") == Rewritten(out + "\n")
    ensures RewriteLine(t, out + "\n") == Rewritten(out + "\n") && !Settles(t, BODY_LINE + "\n")
  {
    assert CompactExtra(t, BODY_EXTRA) == BODY_EXTRA by {
      TrimFixed(BODY_EXTRA);
    }
    hide *;
    BodyLineIsOneLine();
    ShadowedBody(t, BODY_LINE, Item("", "", "/u", MODEL_A, BODY_EXTRA), body, out);
  }

  lemma ShadowedBody(t: Tools, line: string, item: Item, body: string, out: string)
    requires EncodesOneLine(t) && RoundTrips(t) && OneLine(line) && Answers(t, line, item, body, out)
    requires t.aliases(item.extra) == Aliases(None, None, None, Some(item.body))
    requires t.compact(item.body) == item.body && CompactExtra(t, item.extra) == item.extra
    ensures RewriteLine(t, line + "\n") == Rewritten(out + "\n")
    ensures RewriteLine(t, out + "\n") == Rewritten(out + "\n") && !Settles(t, line + "\n")
  {
    ReadsAsAliased(t, line, item, body, out);
    AnswersRewrite(t, line, item, body, out);
    assert OutLine(t, line + "\n") == out + "\n";
    hide Trim, LineText, CompactExtra, OneLine, EncodesOneLine, RoundTrips;
    assert t.decode(LineText(out + "\n")) == Some(item);
    assert HasNewline(out + "\n");
    SecondLook(t, line + "\n");
  }

  // The examples can happen: tools that follow the laws and answer in this way for one line

  function Read(item: Item, body: string, a: Aliases): Item
    requires a.Aliases?
  {
    Item(Or(a.customId, item.customId), Or(a.method_, item.method_), Or(a.url, item.url), Or(a.body, body),
         if Trim(item.extra) == "" || Trim(item.extra) == "{}" then "" else item.extra)
  }

  function ToolsFor(item: Item, a: Aliases): Tools
    requires a.Aliases?
  {
    Tools(
      line => Some(if line == "x" then Read(item, "2", a) else item),
      (i: Item) => if i == item.(body := "2") then Some("x") else None,
      (i: Item) => Handled,
      (i: Item) => Some("2"),
      (b, c) => b == c, url => url, raw => raw, extra => a)
  }

  lemma ExamplesHappen(line: string, item: Item, a: Aliases)
    requires line != "x" && item.body != "2" && a.Aliases?
    ensures var t := ToolsFor(item, a);
      && EncodesOneLine(t) && RoundTrips(t) && IdempotentRewrite(t)
      && Answers(t, line, item, "2", "x") && t.aliases(item.extra) == a && forall raw :: t.compact(raw) == raw
  {
    assert OneLine("x") by {
      TrimFixed("x");
    }
    hide Trim, OneLine;
  }

  // Inline items

  datatype Inline = InlineDone(hints: Hints) | InlineFailed(index: nat, error: LineError)

  function RewriteItem(t: Tools, item: Item): Option<Item> {
    match t.handle(item)
    case Unsupported => None
    case NotHandled => Some(item)
    case Handled => if t.rewrite(item).None? then None else Some(item.(body := t.rewrite(item).value))
  }

  function ItemHints(t: Tools, items: seq<Item>): Hints {
    if items == [] then map[] else AddHint(t, ItemHints(t, items[..|items| - 1]), items[|items| - 1])
  }

  /** The same for inline items. */
  lemma {:induction false} LastItemHints(t: Tools, items: seq<Item>, i: nat, id: string)
    requires i < |items| && Asks(t, items[i], id)
    requires forall j :: i < j < |items| ==> !Asks(t, items[j], id)
    ensures id in ItemHints(t, items) && ItemHints(t, items)[id] == t.endpoint(items[i].url)
  {
    hide Trim;
    if i < |items| - 1 {
      LastItemHints(t, items[..|items| - 1], i, id);
    }
  }

  lemma {:induction false} OnlyAskedItemHints(t: Tools, items: seq<Item>, id: string)
    requires id in ItemHints(t, items)
    ensures exists i :: 0 <= i < |items| && Asks(t, items[i], id)
  {
    hide Trim;
    if items != [] {
      var n := |items| - 1;
      if Asks(t, items[n], id) {
      } else {
        OnlyAskedItemHints(t, items[..n], id);
        var i :| 0 <= i < n && Asks(t, items[..n][i], id);
        assert Asks(t, items[i], id);
      }
    }
  }

  /** An inline item of another provider stays, one without a usable endpoint or rewrite fails, and
      of any other only the body is replaced. */
  lemma ItemOutcome(t: Tools, item: Item, body: string)
    ensures var r := RewriteItem(t, item);
      && (t.handle(item) == Unsupported ==> r == None)
      && (t.handle(item) == NotHandled ==> r == Some(item))
      && (t.handle(item) == Handled && t.rewrite(item) == None ==> r == None)
      && (t.handle(item) == Handled && t.rewrite(item) == Some(body) ==>
            r == Some(Item(item.customId, item.method_, item.url, body, item.extra)))
  {
  }

  /** Rewrites the bodies in place.  On success every handled item has its rewritten body and
      nothing else differs; on failure the items from the failing one on are untouched. */
  method RewriteInlineBatchItems(t: Tools, items: array<Item>) returns (r: Inline)
    modifies items
    ensures r.InlineDone? ==>
      && r.hints == ItemHints(t, old(items[..]))
      && forall i :: 0 <= i < items.Length ==> RewriteItem(t, old(items[i])) == Some(items[i])
    ensures r.InlineFailed? ==>
      && r.index < items.Length && RewriteItem(t, old(items[r.index])) == None
      && r.error == (if t.handle(old(items[r.index])) == Unsupported then BadItem else RewriteFailed)
      && (forall i :: 0 <= i < r.index ==> RewriteItem(t, old(items[i])) == Some(items[i]))
      && (forall i :: r.index <= i < items.Length ==> items[i] == old(items[i]))
  {
    var hints: Hints := map[];
    ghost var before := items[..];
    assert before[..0] == [];
    for i := 0 to items.Length
      invariant before == old(items[..])
      invariant hints == ItemHints(t, before[..i])
      invariant forall j :: 0 <= j < i ==> RewriteItem(t, before[j]) == Some(items[j])
      invariant forall j :: i <= j < items.Length ==> items[j] == before[j]
    {
      var item := items[i];
      assert before[..i + 1][..i] == before[..i];
      hints := AddHint(t, hints, item);
      var handling := t.handle(item);
      if handling.Unsupported? {
        return InlineFailed(i, BadItem);
      }
      if handling.NotHandled? {
        continue;
      }
      var body := t.rewrite(item);
      if body.None? {
        return InlineFailed(i, RewriteFailed);
      }
      items[i] := item.(body := body.value);
    }
    assert before[..items.Length] == before;
    return InlineDone(hints);
  }
}
