/** Bounded captures of response bodies and streamed content
    (internal/auditlog/middleware.go, internal/auditlog/stream_observer.go). */
module Capture {

  newtype Byte = b: int | 0 <= b < 256

  const MAX_BODY_CAPTURE := 1024 * 1024
  const MAX_CONTENT_CAPTURE := 1024 * 1024

  function Concat(writes: seq<seq<Byte>>): seq<Byte> {
    if writes == [] then [] else Concat(writes[..|writes| - 1]) + writes[|writes| - 1]
  }

  function First(s: seq<Byte>, n: nat): seq<Byte> {
    if |s| <= n then s else s[..n]
  }

  lemma {:induction false} ConcatGrows(writes: seq<seq<Byte>>, k: nat)
    requires k <= |writes|
    ensures |Concat(writes[..k])| <= |Concat(writes)|
  {
    if k < |writes| {
      var front := writes[..|writes| - 1];
      ConcatGrows(front, k);
      assert front[..k] == writes[..k];
    } else {
      assert writes[..k] == writes;
    }
  }

  // Response bodies

  datatype Body = Body(bytes: seq<Byte>, truncated: bool)

  function AfterWrite(c: Body, b: seq<Byte>): Body {
    if c.truncated then c
    else if |c.bytes| >= MAX_BODY_CAPTURE then c.(truncated := true)
    else if |b| <= MAX_BODY_CAPTURE - |c.bytes| then c.(bytes := c.bytes + b)
    else Body(c.bytes + b[..MAX_BODY_CAPTURE - |c.bytes|], true)
  }

  function AfterWrites(writes: seq<seq<Byte>>): Body {
    if writes == [] then Body([], false) else AfterWrite(AfterWrites(writes[..|writes| - 1]), writes[|writes| - 1])
  }

  class ResponseBodyCapture {
    var body: seq<Byte>
    var truncated: bool
    var sent: seq<Byte>  // what the wrapped response writer was given

    constructor ()
      ensures body == [] && !truncated && sent == []
    {
      body, truncated, sent := [], false, [];
    }

    method Write(b: seq<Byte>, capturing: bool)
      modifies this
      ensures Body(body, truncated)
        == if capturing then AfterWrite(Body(old(body), old(truncated)), b) else Body(old(body), old(truncated))
      ensures sent == old(sent) + b
    {
      if capturing && !truncated {
        var remaining := MAX_BODY_CAPTURE - |body|;
        if remaining > 0 {
          if |b| <= remaining {
            body := body + b;
          } else {
            body := body + b[..remaining];
            truncated := true;
          }
        } else {
          truncated := true;
        }
      }
      sent := sent + b;
    }
  }

  /** The capture holds the first bytes of everything written, and the flag says exactly
      whether something is missing, except that a write of nothing at the limit also sets it. */
  lemma {:induction false} BodyIsPrefix(writes: seq<seq<Byte>>)
    ensures AfterWrites(writes).bytes == First(Concat(writes), MAX_BODY_CAPTURE)
    ensures |Concat(writes)| > MAX_BODY_CAPTURE ==> AfterWrites(writes).truncated
    ensures AfterWrites(writes).truncated <==> |Concat(writes)| > MAX_BODY_CAPTURE || WrittenAtLimit(writes)
  {
    if writes != [] {
      var front := writes[..|writes| - 1];
      BodyIsPrefix(front);
      LimitStep(writes);
      if WrittenAtLimit(front) {
        var k :| 0 <= k < |front| && |Concat(front[..k])| == MAX_BODY_CAPTURE;
        ConcatGrows(front, k);
      }
    }
  }

  /** Some write, possibly an empty one, comes when the total is exactly at the limit. */
  ghost predicate WrittenAtLimit(writes: seq<seq<Byte>>) {
    exists k :: 0 <= k < |writes| && |Concat(writes[..k])| == MAX_BODY_CAPTURE
  }

  lemma LimitStep(writes: seq<seq<Byte>>)
    requires writes != []
    ensures WrittenAtLimit(writes) <==>
      WrittenAtLimit(writes[..|writes| - 1]) || |Concat(writes[..|writes| - 1])| == MAX_BODY_CAPTURE
  {
    var n := |writes| - 1;
    var front := writes[..n];
    assert forall k :: 0 <= k <= n ==> front[..k] == writes[..k];
    if WrittenAtLimit(front) {
      var k :| 0 <= k < n && |Concat(front[..k])| == MAX_BODY_CAPTURE;
      assert |Concat(writes[..k])| == MAX_BODY_CAPTURE;
    }
    if WrittenAtLimit(writes) {
      var k :| 0 <= k < |writes| && |Concat(writes[..k])| == MAX_BODY_CAPTURE;
      assert |Concat(front[..k])| == MAX_BODY_CAPTURE;
    }
  }

  /** Writing nothing to a full capture sets the flag although nothing is missing. */
  lemma EmptyWriteSetsFlag(c: Body)
    requires |c.bytes| == MAX_BODY_CAPTURE && !c.truncated
    ensures AfterWrite(c, []) == Body(c.bytes, true)
  {
  }

  // Streamed content

  datatype Content = Content(bytes: seq<Byte>, length: nat, truncated: bool)

  function AfterAppend(c: Content, s: seq<Byte>): Content {
    if c.truncated || c.length >= MAX_CONTENT_CAPTURE then c
    else
      var kept := First(s, MAX_CONTENT_CAPTURE - c.length);
      Content(c.bytes + kept, c.length + |kept|, |s| > MAX_CONTENT_CAPTURE - c.length)
  }

  function AfterAppends(deltas: seq<seq<Byte>>): Content {
    if deltas == [] then Content([], 0, false)
    else AfterAppend(AfterAppends(deltas[..|deltas| - 1]), deltas[|deltas| - 1])
  }

  class StreamResponseBuilder {
    var content: seq<Byte>
    var contentLen: nat
    var truncated: bool

    constructor ()
      ensures content == [] && contentLen == 0 && !truncated
    {
      content, contentLen, truncated := [], 0, false;
    }

    method AppendStreamContent(delta: seq<Byte>)
      modifies this
      ensures Content(content, contentLen, truncated) ==
          AfterAppend(old(Content(content, contentLen, truncated)), delta)
    {
      if truncated || contentLen >= MAX_CONTENT_CAPTURE {
        return;
      }
      var kept := delta;
      var remaining := MAX_CONTENT_CAPTURE - contentLen;
      if |kept| > remaining {
        kept := kept[..remaining];
        truncated := true;
      }
      content := content + kept;
      contentLen := contentLen + |kept|;
    }
  }

  /** Some delta ends exactly at the limit. */
  ghost predicate StopsAtLimit(deltas: seq<seq<Byte>>) {
    exists k :: 0 <= k <= |deltas| && |Concat(deltas[..k])| == MAX_CONTENT_CAPTURE
  }

  /** The builder holds the first bytes of the stream.  The flag implies that something is
      missing, and says so exactly unless some delta ended right at the limit. */
  lemma {:induction false} ContentIsPrefix(deltas: seq<seq<Byte>>)
    ensures var c := AfterAppends(deltas);
      c.bytes == First(Concat(deltas), MAX_CONTENT_CAPTURE) && c.length == |c.bytes|
    ensures AfterAppends(deltas).truncated <==> |Concat(deltas)| > MAX_CONTENT_CAPTURE && !StopsAtLimit(deltas)
  {
    if deltas != [] {
      var front := deltas[..|deltas| - 1];
      ContentIsPrefix(front);
      StopStep(deltas);
      if StopsAtLimit(front) {
        var k :| 0 <= k <= |front| && |Concat(front[..k])| == MAX_CONTENT_CAPTURE;
        ConcatGrows(front, k);
      } else {
        assert |Concat(front[..|front|])| != MAX_CONTENT_CAPTURE && front[..|front|] == front;
      }
    }
  }

  lemma StopStep(deltas: seq<seq<Byte>>)
    requires deltas != []
    ensures StopsAtLimit(deltas) <==> StopsAtLimit(deltas[..|deltas| - 1]) || |Concat(deltas)| == MAX_CONTENT_CAPTURE
  {
    var n := |deltas| - 1;
    var front := deltas[..n];
    assert forall k :: 0 <= k <= n ==> front[..k] == deltas[..k];
    assert deltas[..n + 1] == deltas;
    if StopsAtLimit(front) {
      var k :| 0 <= k <= n && |Concat(front[..k])| == MAX_CONTENT_CAPTURE;
      assert |Concat(deltas[..k])| == MAX_CONTENT_CAPTURE;
    }
    if |Concat(deltas)| == MAX_CONTENT_CAPTURE {
      assert |Concat(deltas[..n + 1])| == MAX_CONTENT_CAPTURE;
    }
    if StopsAtLimit(deltas) {
      var k :| 0 <= k <= |deltas| && |Concat(deltas[..k])| == MAX_CONTENT_CAPTURE;
      if k <= n {
        assert |Concat(front[..k])| == MAX_CONTENT_CAPTURE;
      }
    }
  }

  /** Once a delta has ended right at the limit, no later content sets the flag. */
  lemma LateContentGoesUnnoticed(c: Content, s: seq<Byte>)
    requires c.length == MAX_CONTENT_CAPTURE && !c.truncated
    ensures AfterAppend(c, s) == c
  {
  }

  /** In numbers: a response of at most one mebibyte is kept whole, of a longer one exactly its
      first mebibyte. */
  lemma KeepsOneMebibyte(writes: seq<seq<Byte>>)
    ensures var all := Concat(writes);
      if |all| <= 1_048_576 then AfterWrites(writes).bytes == all && AfterAppends(writes).bytes == all
      else AfterWrites(writes).bytes == AfterAppends(writes).bytes == all[..1_048_576]
  {
    BodyIsPrefix(writes);
    ContentIsPrefix(writes);
  }
}
