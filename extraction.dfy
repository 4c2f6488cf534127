/** The reply handling of `get_order_data` in kojima-farm-app/app.py: cut the JSON out of
    the model's reply (possibly wrapped in a Markdown ```json fence), strip it, parse it,
    and turn every failure into `None`. */
module OrderExtraction {
  import opened Text

  /** One order line as the model is asked to return it (the `spec` field is not read
      by the label code and is not kept). */
  datatype Entry = Entry(store: string, item: string, boxes: int, remainder: int)

  const JsonFence: string := "```json"
  const Fence: string := "```"

  /** The text after the first ```json marker up to Python's `split` boundaries, or the
      whole text when there is no marker: `text.split("```json")[1].split("```")[0]`. */
  function FencedBody(text: string): string
  {
    match Find(text, JsonFence)
    case None => text
    case Some(_) => Split(Split(text, JsonFence)[1], Fence)[0]
  }

  /** The string handed to `json.loads`. */
  function Payload(text: string): string
  {
    Strip(FencedBody(text))
  }

  /** `get_order_data` after the model call. `response` is `None` when reading
      `response.text` fails; `parse` stands for `json.loads`, `None` meaning it raised.
      Everything inside the `try` is total here, so no exception can escape it. */
  function GetOrderData(response: Option<string>, parse: string -> Option<seq<Entry>>): (r: Option<seq<Entry>>)
    ensures response.None? ==> r.None?
    ensures r.Some? ==> response.Some? && r == parse(Payload(response.value))
  {
    match response
    case None => None
    case Some(text) => parse(Payload(text))
  }

  /** The text up to the first fence, or all of it: `s.split("```")[0]`. */
  function UpToFence(s: string): (r: string)
    ensures r == Split(s, Fence)[0]
  {
    match Find(s, Fence)
    case None => s
    case Some(k) => s[..k]
  }

  /** A fence is three backticks. */
  lemma FenceChars(s: string, p: int)
    ensures OccursAt(s, Fence, p) <==> 0 <= p && p + 3 <= |s| && s[p] == '`' && s[p + 1] == '`' && s[p + 2] == '`'
  {
    if 0 <= p && p + 3 <= |s| {
      var w := s[p..p + 3];
      assert w[0] == s[p] && w[1] == s[p + 1] && w[2] == s[p + 2];
      if s[p] == '`' && s[p + 1] == '`' && s[p + 2] == '`' {
        assert w == Fence;
      }
    }
  }

  /** A ```json marker is a fence followed by the letter j. */
  lemma MarkerChars(s: string, e: int)
    requires OccursAt(s, JsonFence, e)
    ensures OccursAt(s, Fence, e)
    ensures s[e + 3] == 'j' && s[e + 4] == 's' && s[e + 5] == 'o' && s[e + 6] == 'n'
  {
    var w := s[e..e + 7];
    assert w[0] == s[e] && w[1] == s[e + 1] && w[2] == s[e + 2] && w[3] == s[e + 3];
    assert w[4] == s[e + 4] && w[5] == s[e + 5] && w[6] == s[e + 6];
    FenceChars(s, e);
  }

  /** The first fence of a prefix of `s`. */
  lemma UpToFenceOfPrefix(s: string, n: nat, p: nat)
    requires n <= |s| && Find(s, Fence) == Some(p)
    ensures UpToFence(s[..n]) == if p + 3 <= n then s[..p] else s[..n]
  {
    forall j ensures OccursAt(s[..n], Fence, j) <==> OccursAt(s, Fence, j) && j + 3 <= n {
      OccursInPrefix(s, Fence, n, j);
    }
    if p + 3 <= n {
      FindIsFirst(s[..n], Fence, p);
    } else {
      assert Find(s[..n], Fence).None?;
    }
  }

  /** Where the next marker can sit relative to the first fence `p` of the same text. */
  lemma NextMarker(rest: string, p: nat, e: nat)
    requires Find(rest, Fence) == Some(p) && Find(rest, JsonFence) == Some(e)
    ensures OccursAt(rest, JsonFence, p + 1) ==> e == p + 1
    ensures OccursAt(rest, JsonFence, p + 2) ==> e == p + 2
    ensures !OccursAt(rest, JsonFence, p + 1) && !OccursAt(rest, JsonFence, p + 2) ==> e == p || e >= p + 3
  {
    MarkerChars(rest, e);
    if OccursAt(rest, JsonFence, p + 1) {
      MarkerChars(rest, p + 1);
      FenceChars(rest, p + 1);
      if e == p { MarkerChars(rest, p); }
    }
    if OccursAt(rest, JsonFence, p + 2) {
      MarkerChars(rest, p + 2);
      FenceChars(rest, p + 2);
      if e == p { MarkerChars(rest, p); }
      if e == p + 1 { MarkerChars(rest, p + 1); }
    }
  }

  /** Without a marker the payload is the whole reply, stripped and otherwise unchanged. */
  lemma UnfencedPayload(text: string)
    requires Find(text, JsonFence).None?
    ensures Payload(text) == Strip(text)
  {
  }

  /** Where the cut ends in `rest`, the text after the first ```json marker, stated
      directly: at the first fence of `rest`, or at its end when there is none. The one
      exception is a fence followed one or two characters later by another ```json marker
      ("````json"): Python's first split stops at that marker, so the cut keeps the one or
      two backticks before it. */
  function Cut(rest: string): string
  {
    match Find(rest, Fence)
    case None => rest
    case Some(p) =>
      if OccursAt(rest, JsonFence, p + 1) then rest[..p + 1]
      else if OccursAt(rest, JsonFence, p + 2) then rest[..p + 2]
      else rest[..p]
  }

  /** With the first marker at `i`, the two splits of `get_order_data` cut out exactly
      `Cut` of what follows the marker. */
  lemma FencedPayload(text: string, i: nat)
    requires Find(text, JsonFence) == Some(i)
    ensures FencedBody(text) == Cut(text[i + |JsonFence|..])
  {
    var rest := text[i + |JsonFence|..];
    SplitSecond(text, JsonFence, i);
    match Find(rest, JsonFence)
    case None => NoMarkerCut(rest);
    case Some(e) => MarkerCut(rest, e);
  }

  lemma NoMarkerCut(rest: string)
    requires Find(rest, JsonFence).None?
    ensures UpToFence(rest) == Cut(rest)
  {
  }

  lemma MarkerCut(rest: string, e: nat)
    requires Find(rest, JsonFence) == Some(e)
    ensures UpToFence(rest[..e]) == Cut(rest)
  {
    MarkerChars(rest, e);
    var p := Find(rest, Fence).value;
    NextMarker(rest, p, e);
    UpToFenceOfPrefix(rest, e, p);
  }

  /** The preamble's marker-free text and the marker after it: the first marker is that one. */
  lemma FirstMarkerAfter(pre: string, tail: string)
    requires Find(pre, JsonFence).None?
    ensures Find(pre + JsonFence + tail, JsonFence) == Some(|pre|)
  {
    var text := pre + JsonFence + tail;
    var n := |pre|;
    assert text[n..n + 7] == JsonFence;
    assert text[n] == '`' && text[n + 1] == '`' && text[n + 2] == '`';
    forall j | 0 <= j < n ensures !OccursAt(text, JsonFence, j) {
      if OccursAt(text, JsonFence, j) {
        if j + 7 <= n {
          assert text[..n] == pre;
          OccursInPrefix(text, JsonFence, n, j);
          assert false;
        } else {
          MarkerChars(text, j);
          assert false;
        }
      }
    }
    FindIsFirst(text, JsonFence, n);
  }

  /** After a backtick-free body, the closing fence is the first one, and the trailer
      (not starting with a backtick) puts no marker right behind it. */
  lemma ClosingFence(body: string, post: string)
    requires forall k :: 0 <= k < |body| ==> body[k] != '`'
    requires post == [] || post[0] != '`'
    ensures var rest := body + Fence + post;
      && Find(rest, Fence) == Some(|body|)
      && !OccursAt(rest, JsonFence, |body| + 1) && !OccursAt(rest, JsonFence, |body| + 2)
  {
    var rest := body + Fence + post;
    var b := |body|;
    assert rest[b] == '`' && rest[b + 1] == '`' && rest[b + 2] == '`';
    assert |post| > 0 ==> rest[b + 3] == post[0];
    FenceChars(rest, b);
    forall j | 0 <= j < b ensures !OccursAt(rest, Fence, j) {
      assert rest[j] == body[j];
      FenceChars(rest, j);
    }
    FindIsFirst(rest, Fence, b);
    if OccursAt(rest, JsonFence, b + 1) {
      MarkerChars(rest, b + 1);
      FenceChars(rest, b + 1);
    }
    if OccursAt(rest, JsonFence, b + 2) {
      MarkerChars(rest, b + 2);
      FenceChars(rest, b + 2);
    }
  }

  /** Fencing a reply body and extracting it gives back the stripped body, for any body
      free of backticks, any preamble without a ```json marker and any trailer that does
      not start with a backtick. */
  lemma FenceRoundTrip(pre: string, body: string, post: string)
    requires Find(pre, JsonFence).None?
    requires forall k :: 0 <= k < |body| ==> body[k] != '`'
    requires post == [] || post[0] != '`'
    ensures Payload(pre + JsonFence + body + Fence + post) == Strip(body)
  {
    var rest := body + Fence + post;
    var text := pre + JsonFence + rest;
    assert pre + JsonFence + body + Fence + post == text;
    FirstMarkerAfter(pre, rest);
    assert text[|pre| + |JsonFence|..] == rest;
    ClosingFence(body, post);
    FencedPayload(text, |pre|);
    assert rest[..|body|] == body;
    assert FencedBody(text) == body;
  }

  /** End to end: a fenced reply yields exactly what the parser makes of its stripped body. */
  lemma GetOrderDataFenced(pre: string, body: string, post: string, parse: string -> Option<seq<Entry>>)
    requires Find(pre, JsonFence).None?
    requires forall k :: 0 <= k < |body| ==> body[k] != '`'
    requires post == [] || post[0] != '`'
    ensures GetOrderData(Some(pre + JsonFence + body + Fence + post), parse) == parse(Strip(body))
  {
    FenceRoundTrip(pre, body, post);
  }

  /** The backtick corner case: when the closing fence is glued to a following ```json
      marker ("````json"), the payload keeps one backtick. For instance the reply
      "```json[1]````json" hands "[1]`" to the parser, not "[1]". */
  lemma StraddledFenceKeepsBacktick(pre: string, body: string, tail: string)
    requires Find(pre, JsonFence).None?
    requires forall k :: 0 <= k < |body| ==> body[k] != '`'
    ensures Payload(pre + JsonFence + body + "`" + JsonFence + tail) == Strip(body + "`")
  {
    var rest := body + "`" + JsonFence + tail;
    var text := pre + JsonFence + rest;
    assert pre + JsonFence + body + "`" + JsonFence + tail == text;
    FirstMarkerAfter(pre, rest);
    assert text[|pre| + |JsonFence|..] == rest;
    StraddledRest(body, tail);
    FencedPayload(text, |pre|);
    assert rest[..|body| + 1] == body + "`";
    assert FencedBody(text) == body + "`";
  }

  /** After a backtick-free body, "````json" puts the first fence right after the body
      and a marker one character later. */
  lemma StraddledRest(body: string, tail: string)
    requires forall k :: 0 <= k < |body| ==> body[k] != '`'
    ensures var rest := body + "`" + JsonFence + tail;
      Find(rest, Fence) == Some(|body|) && OccursAt(rest, JsonFence, |body| + 1)
  {
    var rest := body + "`" + JsonFence + tail;
    var b := |body|;
    assert rest[b + 1..b + 8] == JsonFence;
    assert rest[b] == '`' && rest[b + 1] == '`' && rest[b + 2] == '`';
    FenceChars(rest, b);
    forall j | 0 <= j < b ensures !OccursAt(rest, Fence, j) {
      assert rest[j] == body[j];
      FenceChars(rest, j);
    }
    FindIsFirst(rest, Fence, b);
  }
}
