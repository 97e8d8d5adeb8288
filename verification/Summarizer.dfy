/**
 Summarising a history that does not fit one request. The rendered history is consumed in
 consecutive fragments, cut on character boundaries; each request carries the summary of the
 earlier fragments and must fit the input budget. At most thirty-two calls are made, and a
 run that cannot consume everything returns no summary at all.
 */
module Summarizer {
  import opened Options

  type Byte = b: int | 0 <= b < 256
  type Bytes = seq<Byte>

  const MAX_CHUNKS: nat := 32
  const OVERHEAD: nat := 64
  /** Lengths of the fixed parts of the system prompt. */
  const FRESH_LEN: nat := 66
  const ANCHORED_LEN: nat := 190
  const FRAGMENT_NOTE_LEN: nat := 237

  // ------------------------------------------------------------ text and its size

  /** UTF-8: a character starts at any byte that is not a continuation byte. */
  predicate Boundary(text: Bytes, i: nat) {
    i == 0 || i == |text| || (i < |text| && !(0x80 <= text[i] < 0xC0))
  }

  /** Bytes a byte takes once escaped in JSON. */
  function Width(b: Byte): nat {
    if b == 0x22 || b == 0x5C || b == 8 || b == 9 || b == 10 || b == 12 || b == 13 then 2
    else if b < 0x20 then 6
    else 1
  }

  function Escaped(text: Bytes): nat {
    if text == [] then 0 else Escaped(text[..|text| - 1]) + Width(text[|text| - 1])
  }

  lemma {:induction false} EscapedGrows(text: Bytes, i: nat, j: nat)
    requires i <= j <= |text|
    ensures Escaped(text[..i]) <= Escaped(text[..j])
    ensures j <= Escaped(text[..j])
    decreases j
  {
    if j > 0 {
      assert text[..j][..j - 1] == text[..j - 1];
      if i < j { EscapedGrows(text, i, j - 1); } else { EscapedGrows(text, j - 1, j - 1); }
    }
  }

  /** A request's estimate, from the length of its system prompt, the message envelope and the text. */
  function Tokens(system: nat, envelope: nat, text: Bytes): nat {
    system / 4 + (envelope + Escaped(text)) / 4 + OVERHEAD
  }

  lemma TokensGrow(system: nat, envelope: nat, text: Bytes, i: nat, j: nat)
    requires i <= j <= |text|
    ensures Tokens(system, envelope, text[..i]) <= Tokens(system, envelope, text[..j])
  {
    EscapedGrows(text, i, j);
  }

  // ------------------------------------------------------------ the longest prefix that fits

  /** The last boundary at or before `i`. */
  function Floor(text: Bytes, i: nat): (r: nat)
    requires i <= |text|
    ensures r <= i && Boundary(text, r)
    ensures forall e :: r < e <= i ==> !Boundary(text, e)
  {
    if Boundary(text, i) then i else Floor(text, i - 1)
  }

  method FloorBoundary(text: Bytes, i: nat) returns (r: nat)
    requires i <= |text|
    ensures r == Floor(text, i)
  {
    r := i;
    while !Boundary(text, r)
      invariant r <= i && Floor(text, r) == Floor(text, i)
      decreases r
    {
      r := r - 1;
    }
  }

  predicate Fits(system: nat, envelope: nat, text: Bytes, budget: nat) {
    Tokens(system, envelope, text) <= budget
  }

  /** Everything up to `i`, on a boundary, fits. */
  predicate FitsAt(system: nat, envelope: nat, text: Bytes, budget: nat, i: nat)
    requires i <= |text|
  {
    Fits(system, envelope, text[..Floor(text, i)], budget)
  }

  lemma {:induction false} FloorGrows(text: Bytes, i: nat, j: nat)
    requires i <= j <= |text|
    ensures Floor(text, i) <= Floor(text, j)
    decreases j
  {
    if i < j && !Boundary(text, j) { FloorGrows(text, i, j - 1); }
  }

  lemma FitsLess(system: nat, envelope: nat, text: Bytes, budget: nat, i: nat, j: nat)
    requires i <= j <= |text| && FitsAt(system, envelope, text, budget, j)
    ensures FitsAt(system, envelope, text, budget, i)
  {
    FloorGrows(text, i, j);
    TokensGrow(system, envelope, text, Floor(text, i), Floor(text, j));
  }

  /** The binary search: the longest prefix on a boundary that fits, or nothing. */
  method FittingPrefix(system: nat, envelope: nat, text: Bytes, budget: nat) returns (end: nat)
    ensures end <= |text| && Boundary(text, end)
    ensures end > 0 ==> Fits(system, envelope, text[..end], budget)
    ensures forall e :: end < e <= |text| && Boundary(text, e) ==> !Fits(system, envelope, text[..e], budget)
  {
    assert text[..|text|] == text;
    if Fits(system, envelope, text, budget) { return |text|; }
    var low, high := 0, |text|;
    while low < high
      invariant 0 <= low <= high <= |text|
      invariant low > 0 ==> FitsAt(system, envelope, text, budget, low)
      invariant high < |text| ==> !FitsAt(system, envelope, text, budget, high + 1)
    {
      var middle := low + (high - low + 1) / 2;
      var cut := FloorBoundary(text, middle);
      if Fits(system, envelope, text[..cut], budget) { low := middle; } else { high := middle - 1; }
    }
    end := FloorBoundary(text, low);
    forall e | end < e <= |text| && Boundary(text, e) ensures !Fits(system, envelope, text[..e], budget) {
      assert Floor(text, e) == e;
      assert e > low;
      if FitsAt(system, envelope, text, budget, e) {
        if high < |text| { FitsLess(system, envelope, text, budget, high + 1, e); }
      }
    }
  }

  // ------------------------------------------------------------ the pipeline

  /** What a summary call returns. */
  datatype Answer = Summary(text: Bytes) | Blank | Failure

  /**
   The length of a system prompt: fresh or anchored in a summary, with the template and the
   caller's guidance (`rest`).
   */
  function SystemLen(anchor: Option<Bytes>, rest: nat, fragment: bool): nat {
    (if anchor.Some? then ANCHORED_LEN + |anchor.value| else FRESH_LEN) + rest
    + (if fragment then FRAGMENT_NOTE_LEN else 0)
  }

  /** A request that was sent: the anchor it carried, its system prompt's length and its fragment. */
  datatype Request = Request(anchor: Option<Bytes>, system: nat, fragment: Bytes)

  function Consumed(calls: seq<Request>): Bytes {
    if calls == [] then [] else Consumed(calls[..|calls| - 1]) + calls[|calls| - 1].fragment
  }

  /** Every call fits, carries some of the history, and is anchored in the answer to the one before. */
  ghost predicate Sound(calls: seq<Request>, answers: seq<Answer>, previous: Option<Bytes>, rest: nat, envelope: nat,
      budget: nat)
  {
    forall i :: 0 <= i < |calls| ==>
      && calls[i].fragment != []
      && Fits(calls[i].system, envelope, calls[i].fragment, budget)
      && calls[i].system >= SystemLen(calls[i].anchor, rest, false)
      && calls[i].anchor == (if i == 0 then previous
                             else if i - 1 < |answers| && answers[i - 1].Summary? then Some(answers[i - 1].text)
                               else None)
  }

  /** Why a run gives no summary. */
  datatype Refusal = TooLong | NoRoom | CallFailed | TooManyCalls
  datatype Outcome = Done(summary: Bytes) | Refused(why: Refusal)

  /** Room for history in a request that carries no anchor. */
  function Capacity(rest: nat, envelope: nat, budget: nat): int {
    budget - Tokens(SystemLen(None, rest, false), envelope, [])
  }

  function Ceil(a: nat, b: nat): nat
    requires b > 0
  {
    (a + b - 1) / b
  }

  /** The fewest fragments a history could take, whatever the anchors and the escaping. */
  function Optimistic(length: nat, rest: nat, envelope: nat, budget: nat): nat
    requires Capacity(rest, envelope, budget) > 0
  {
    Ceil(length, 4 * Capacity(rest, envelope, budget) + 3)
  }

  // ------------------------------------------------------------ what the sizes are the sizes of

  function HexDigit(d: nat): (r: Byte)
    requires d < 16
  {
    if d < 10 then 0x30 + d else 0x61 + d - 10
  }

  function HexValue(b: Byte): nat {
    if 0x30 <= b <= 0x39 then b - 0x30 else if 0x61 <= b <= 0x66 then b - 0x61 + 10 else 0
  }

  /** A byte as JSON writes it inside a string. */
  function Json(b: Byte): Bytes {
    if b == 0x22 || b == 0x5C then [0x5C, b]
    else if b == 8 then [0x5C, 0x62]
    else if b == 9 then [0x5C, 0x74]
    else if b == 10 then [0x5C, 0x6E]
    else if b == 12 then [0x5C, 0x66]
    else if b == 13 then [0x5C, 0x72]
    else if b < 0x20 then [0x5C, 0x75, 0x30, 0x30, HexDigit(b / 16), HexDigit(b % 16)]
    else [b]
  }

  function JsonText(text: Bytes): Bytes {
    if text == [] then [] else JsonText(text[..|text| - 1]) + Json(text[|text| - 1])
  }

  /** Reading one byte back, with the length of what was read; nothing for what JSON does not allow. */
  function ReadByte(json: Bytes): Option<(Byte, nat)> {
    if json == [] || json[0] == 0x22 || json[0] < 0x20 then None
    else if json[0] != 0x5C then Some((json[0], 1))
    else if |json| < 2 then None
    else if json[1] == 0x22 || json[1] == 0x5C then Some((json[1], 2))
    else if json[1] == 0x62 then Some((8, 2))
    else if json[1] == 0x74 then Some((9, 2))
    else if json[1] == 0x6E then Some((10, 2))
    else if json[1] == 0x66 then Some((12, 2))
    else if json[1] == 0x72 then Some((13, 2))
    else if json[1] == 0x75 && |json| >= 6 && HexValue(json[4]) < 8 then
      Some((16 * HexValue(json[4]) + HexValue(json[5]), 6))
    else None
  }

  function ReadText(json: Bytes): Option<Bytes> {
    if json == [] then Some([])
    else
      var first := ReadByte(json);
      if first.None? || first.value.1 > |json| then None
      else
        var rest := ReadText(json[first.value.1..]);
        if rest.None? then None else Some([first.value.0] + rest.value)
  }

  lemma ReadsBack(b: Byte, rest: Bytes)
    ensures ReadByte(Json(b) + rest) == Some((b, |Json(b)|)) && (Json(b) + rest)[|Json(b)|..] == rest
  {
    var json := Json(b) + rest;
    if b < 0x20 && |Json(b)| == 6 {
      assert json[4] == HexDigit(b / 16) && json[5] == HexDigit(b % 16);
      assert HexValue(HexDigit(b / 16)) == b / 16 && HexValue(HexDigit(b % 16)) == b % 16;
    }
  }

  lemma Grouped(a: Bytes, b: Bytes, c: Bytes)
    ensures (a + b) + c == a + (b + c)
  {
  }

  lemma {:induction false} JsonSplits(text: Bytes)
    requires text != []
    ensures JsonText(text) == Json(text[0]) + JsonText(text[1..])
  {
    if |text| == 1 {
      assert text[..0] == [] && text[1..] == [];
    } else {
      var init, last := text[..|text| - 1], text[|text| - 1];
      JsonSplits(init);
      assert text[1..][..|text| - 2] == init[1..];
      Grouped(Json(text[0]), JsonText(init[1..]), Json(last));
    }
  }

  /** The text as it is sent can be read back. */
  lemma {:induction false} JsonRoundTrip(text: Bytes)
    ensures ReadText(JsonText(text)) == Some(text)
    decreases |text|
  {
    if text != [] {
      JsonSplits(text);
      ReadsBack(text[0], JsonText(text[1..]));
      JsonRoundTrip(text[1..]);
      assert text == [text[0]] + text[1..];
    }
  }

  /** The escaped size is the length of the text as JSON writes it. */
  lemma {:induction false} EscapedExactly(text: Bytes)
    ensures Escaped(text) == |JsonText(text)|
  {
    if text != [] { EscapedExactly(text[..|text| - 1]); }
  }

  /** A request fits by its bytes: the system prompt, and the message as JSON, four to a token, and sixty-four more. */
  lemma FitsExactly(anchor: Option<Bytes>, rest: nat, fragment: bool, envelope: nat, text: Bytes, budget: nat)
    ensures Fits(SystemLen(anchor, rest, fragment), envelope, text, budget) <==>
      var prompt := (if anchor.Some? then 190 + |anchor.value| else 66) + rest + (if fragment then 237 else 0);
      prompt / 4 + (envelope + |JsonText(text)|) / 4 + 64 <= budget
    ensures Capacity(rest, envelope, budget) == budget - (66 + rest) / 4 - envelope / 4 - 64
  {
    EscapedExactly(text);
    assert Escaped([]) == 0;
  }

  // ------------------------------------------------------------ characters

  type Scalar = c: int | 0 <= c < 0x110000

  /** A byte that goes on with a character. */
  function More(part: nat): (r: Byte)
    ensures 0x80 <= r < 0xC0
  {
    0x80 + part % 64
  }

  /** A character in UTF-8. */
  function Utf8(c: Scalar): Bytes {
    if c < 0x80 then [c]
    else if c < 0x800 then [0xC0 + c / 64, More(c)]
    else if c < 0x10000 then [0xE0 + c / 4096, More(c / 64), More(c)]
    else [0xF0 + c / 262144, More(c / 4096), More(c / 64), More(c)]
  }

  function Utf8Text(cs: seq<Scalar>): Bytes {
    if cs == [] then [] else Utf8Text(cs[..|cs| - 1]) + Utf8(cs[|cs| - 1])
  }

  /** The place `i` is between two characters, or at an end. */
  ghost predicate Between(cs: seq<Scalar>, i: nat) {
    exists k :: 0 <= k <= |cs| && i == |Utf8Text(cs[..k])|
  }

  lemma Utf8Starts(c: Scalar)
    ensures |Utf8(c)| > 0 && !(0x80 <= Utf8(c)[0] < 0xC0)
    ensures forall j :: 0 < j < |Utf8(c)| ==> 0x80 <= Utf8(c)[j] < 0xC0
  {
  }

  /** A place before the last character is between two exactly if it is without that character. */
  lemma BetweenInit(cs: seq<Scalar>, i: nat)
    requires cs != [] && i < |Utf8Text(cs[..|cs| - 1])|
    ensures Between(cs, i) <==> Between(cs[..|cs| - 1], i)
  {
    var init := cs[..|cs| - 1];
    assert cs[..|cs|] == cs;
    if k :| 0 <= k <= |init| && i == |Utf8Text(init[..k])| { assert cs[..k] == init[..k]; }
    if k :| 0 <= k <= |cs| && i == |Utf8Text(cs[..k])| { assert k < |cs| && cs[..k] == init[..k]; }
  }

  /** Within the last character only its start is. */
  lemma BetweenLast(cs: seq<Scalar>, i: nat)
    requires cs != [] && |Utf8Text(cs[..|cs| - 1])| <= i < |Utf8Text(cs)|
    ensures Between(cs, i) <==> i == |Utf8Text(cs[..|cs| - 1])|
  {
    assert cs[..|cs|] == cs;
    if k :| 0 <= k <= |cs| && i == |Utf8Text(cs[..k])| {
      if k < |cs| { TextGrows(cs, k, |cs| - 1); }
    }
  }

  /** The places a text may be cut are exactly those between its characters. */
  lemma {:induction false} BoundaryExactly(cs: seq<Scalar>, i: nat)
    requires i <= |Utf8Text(cs)|
    ensures Boundary(Utf8Text(cs), i) <==> Between(cs, i)
  {
    var text := Utf8Text(cs);
    assert cs[..|cs|] == cs && cs[..0] == [];
    if i == |text| {
      assert i == |Utf8Text(cs[..|cs|])|;
    } else {
      var front := Utf8Text(cs[..|cs| - 1]);
      if i < |front| {
        BoundaryExactly(cs[..|cs| - 1], i);
        BetweenInit(cs, i);
        assert text[i] == front[i];
      } else {
        BetweenLast(cs, i);
        Utf8Starts(cs[|cs| - 1]);
        assert text[i] == Utf8(cs[|cs| - 1])[i - |front|];
        if i == 0 { assert |front| == 0; }
      }
    }
  }

  lemma {:induction false} TextGrows(cs: seq<Scalar>, k: nat, n: nat)
    requires k <= n <= |cs|
    ensures |Utf8Text(cs[..k])| <= |Utf8Text(cs[..n])|
    decreases n
  {
    if k < n {
      TextGrows(cs, k, n - 1);
      assert cs[..n][..n - 1] == cs[..n - 1];
    }
  }

  lemma ConsumedMore(calls: seq<Request>, r: Request)
    ensures Consumed(calls + [r]) == Consumed(calls) + r.fragment
  {
    assert (calls + [r])[..|calls|] == calls;
  }

  /** Cuts within the rest of a text are cuts within the text. */
  lemma BoundaryWithin(prompt: Bytes, done: nat, end: nat)
    requires done <= |prompt| && end <= |prompt| - done && Boundary(prompt, done) && Boundary(prompt[done..], end)
    ensures Boundary(prompt, done + end)
  {
  }

  /** What a call's answer leaves for the next one to be anchored in. */
  function AnchorAfter(calls: seq<Request>, answers: seq<Answer>, previous: Option<Bytes>): Option<Bytes> {
    if calls == [] then previous
    else if |calls| - 1 < |answers| && answers[|calls| - 1].Summary? then Some(answers[|calls| - 1].text)
    else None
  }

  ghost predicate Consuming(prompt: Bytes, done: nat, calls: seq<Request>) {
    done <= |prompt| && Consumed(calls) == prompt[..done] && Boundary(prompt, done)
  }

  lemma ConsumeOne(prompt: Bytes, done: nat, calls: seq<Request>, end: nat, r: Request)
    requires Consuming(prompt, done, calls) && end <= |prompt| - done && Boundary(prompt[done..], end)
    requires r.fragment == prompt[done..][..end]
    ensures Consuming(prompt, done + end, calls + [r])
  {
    ConsumedMore(calls, r);
    BoundaryWithin(prompt, done, end);
    assert prompt[..done] + prompt[done..][..end] == prompt[..done + end];
  }

  lemma SoundMore(calls: seq<Request>, answers: seq<Answer>, previous: Option<Bytes>, rest: nat, envelope: nat,
      budget: nat, r: Request)
    requires Sound(calls, answers, previous, rest, envelope, budget)
    requires r.fragment != [] && Fits(r.system, envelope, r.fragment, budget)
    requires r.system >= SystemLen(r.anchor, rest, false) && r.anchor == AnchorAfter(calls, answers, previous)
    ensures Sound(calls + [r], answers, previous, rest, envelope, budget)
  {
  }

  /** No piece of what remains fits beside the anchor. */
  ghost predicate NothingFits(remaining: Bytes, anchor: Option<Bytes>, rest: nat, envelope: nat, budget: nat) {
    forall e :: 0 < e <= |remaining| && Boundary(remaining, e) ==>
      !Fits(SystemLen(anchor, rest, true), envelope, remaining[..e], budget)
  }

  /** What the calls have come to: each sound, and the history consumed up to `done`. */
  ghost predicate Underway(
    prompt: Bytes, done: nat, calls: seq<Request>, answers: seq<Answer>, previous: Option<Bytes>,
    rest: nat, envelope: nat, budget: nat)
  {
    Consuming(prompt, done, calls) && Sound(calls, answers, previous, rest, envelope, budget)
  }

  /** A request that was found for what remains. */
  ghost predicate Found(
    remaining: Bytes, anchor: Option<Bytes>, rest: nat, envelope: nat, budget: nat, r: Request)
  {
    && r.fragment != [] && |r.fragment| <= |remaining| && r.fragment == remaining[..|r.fragment|]
    && Boundary(remaining, |r.fragment|) && r.anchor == anchor && r.system >= SystemLen(anchor, rest, false)
    && Fits(r.system, envelope, r.fragment, budget)
  }

  lemma TakeOne(
    prompt: Bytes, done: nat, calls: seq<Request>, answers: seq<Answer>, previous: Option<Bytes>,
    rest: nat, envelope: nat, budget: nat, r: Request)
    requires Underway(prompt, done, calls, answers, previous, rest, envelope, budget)
    requires Found(prompt[done..], AnchorAfter(calls, answers, previous), rest, envelope, budget, r)
    ensures Underway(prompt, done + |r.fragment|, calls + [r], answers, previous, rest, envelope, budget)
  {
    ConsumeOne(prompt, done, calls, |r.fragment|, r);
    SoundMore(calls, answers, previous, rest, envelope, budget, r);
  }

  /** One request: the longest piece of what remains that fits beside the anchor; none when nothing fits. */
  method NextRequest(remaining: Bytes, anchor: Option<Bytes>, first: bool, rest: nat, envelope: nat, budget: nat)
    returns (r: Option<Request>)
    ensures r.None? ==> NothingFits(remaining, anchor, rest, envelope, budget)
    ensures r.Some? ==> Found(remaining, anchor, rest, envelope, budget, r.value)
  {
    var fragment := !first || !Fits(SystemLen(anchor, rest, false), envelope, remaining, budget);
    var system := SystemLen(anchor, rest, fragment);
    var end := FittingPrefix(system, envelope, remaining, budget);
    if end == 0 {
      WholeFits(remaining, anchor, rest, envelope, budget, fragment);
      return None;
    }
    return Some(Request(anchor, system, remaining[..end]));
  }

  /** Without the note about fragments the whole text fits, so something is found. */
  lemma WholeFits(remaining: Bytes, anchor: Option<Bytes>, rest: nat, envelope: nat, budget: nat, fragment: bool)
    requires !fragment ==> Fits(SystemLen(anchor, rest, false), envelope, remaining, budget)
    requires forall e :: 0 < e <= |remaining| && Boundary(remaining, e) ==>
      !Fits(SystemLen(anchor, rest, fragment), envelope, remaining[..e], budget)
    ensures !fragment ==> remaining == []
  {
    assert remaining[..|remaining|] == remaining;
    assert Boundary(remaining, |remaining|);
  }

  lemma NothingYet(
    prompt: Bytes, answers: seq<Answer>, previous: Option<Bytes>, rest: nat, envelope: nat, budget: nat)
    ensures Underway(prompt, 0, [], answers, previous, rest, envelope, budget)
  {
  }

  lemma AllConsumed(prompt: Bytes, calls: seq<Request>)
    requires Consuming(prompt, |prompt|, calls)
    ensures Consumed(calls) == prompt
  {
    assert prompt[..|prompt|] == prompt;
  }

  /** What a run promises of its refusals. */
  ghost predicate RefusedRightly(
    why: Refusal, prompt: Bytes, done: nat, calls: seq<Request>, answers: seq<Answer>, previous: Option<Bytes>,
    rest: nat, envelope: nat, budget: nat)
    requires done <= |prompt|
  {
    match why
    case TooManyCalls => |calls| == 32 && done < |prompt|
    case CallFailed => |calls| > 0 && (|answers| < |calls| || !answers[|calls| - 1].Summary?)
    case NoRoom =>
      |calls| < 32 &&
      NothingFits(prompt[done..], AnchorAfter(calls, answers, previous), rest, envelope, budget)
    case TooLong =>
      calls == [] &&
      (Capacity(rest, envelope, budget) <= 0 || Optimistic(|prompt|, rest, envelope, budget) > 32)
  }

  /** What a run that stops has come to. */
  ghost predicate Ends(
    outcome: Outcome, prompt: Bytes, done: nat, calls: seq<Request>, answers: seq<Answer>, previous: Option<Bytes>,
    rest: nat, envelope: nat, budget: nat)
    requires done <= |prompt|
  {
    match outcome
    case Done(summary) =>
      0 < |calls| <= |answers| && Consumed(calls) == prompt && answers[|calls| - 1] == Summary(summary)
    case Refused(why) => RefusedRightly(why, prompt, done, calls, answers, previous, rest, envelope, budget)
  }

  /** One more call; `stop` if the run ends with it. */
  method CallOnce(
    prompt: Bytes, done: nat, calls: seq<Request>, previous: Option<Bytes>, rest: nat, envelope: nat, budget: nat,
    answers: seq<Answer>)
    returns (stop: Option<Outcome>, more: seq<Request>, next: nat)
    requires Underway(prompt, done, calls, answers, previous, rest, envelope, budget) && |calls| < 32
    ensures Underway(prompt, next, more, answers, previous, rest, envelope, budget) && |more| <= |calls| + 1
    ensures stop.None? ==> |more| == |calls| + 1 <= |answers| && next < |prompt|
    ensures stop.Some? ==> Ends(stop.value, prompt, next, more, answers, previous, rest, envelope, budget)
  {
    var r := NextRequest(prompt[done..], AnchorAfter(calls, answers, previous), calls == [], rest, envelope, budget);
    if r.None? { return Some(Refused(NoRoom)), calls, done; }
    TakeOne(prompt, done, calls, answers, previous, rest, envelope, budget, r.value);
    more, next := calls + [r.value], done + |r.value.fragment|;
    if |more| > |answers| || !answers[|more| - 1].Summary? { return Some(Refused(CallFailed)), more, next; }
    if next < |prompt| { return None, more, next; }
    AllConsumed(prompt, more);
    return Some(Done(answers[|more| - 1].text)), more, next;
  }

  /**
   The pipeline. A summary is returned only when the calls consumed the whole history, byte
   for byte and in order; each call fits the budget, is cut between characters, and carries
   the summary of what came before. There are at most thirty-two of them. A run that stops for
   want of room stops where no piece of what remains fits beside the last summary.
   */
  method Summarize(prompt: Bytes, previous: Option<Bytes>, rest: nat, envelope: nat, budget: nat, answers: seq<Answer>)
    returns (outcome: Outcome, calls: seq<Request>, done: nat)
    ensures |calls| <= 32 && Underway(prompt, done, calls, answers, previous, rest, envelope, budget)
    ensures Ends(outcome, prompt, done, calls, answers, previous, rest, envelope, budget)
  {
    calls, done := [], 0;
    NothingYet(prompt, answers, previous, rest, envelope, budget);
    if Capacity(rest, envelope, budget) <= 0 || Optimistic(|prompt|, rest, envelope, budget) > MAX_CHUNKS {
      return Refused(TooLong), calls, done;
    }
    while |calls| < MAX_CHUNKS
      invariant |calls| <= MAX_CHUNKS && (calls != [] ==> done < |prompt|)
      invariant Underway(prompt, done, calls, answers, previous, rest, envelope, budget)
    {
      var stop, more, next := CallOnce(prompt, done, calls, previous, rest, envelope, budget, answers);
      calls, done := more, next;
      if stop.Some? { return stop.value, calls, done; }
    }
    return Refused(TooManyCalls), calls, done;
  }

  // ------------------------------------------------------------ refusing early is right

  /** A fragment that fits is no longer than the optimistic bound allows. */
  lemma FragmentBound(r: Request, rest: nat, envelope: nat, budget: nat)
    requires Fits(r.system, envelope, r.fragment, budget) && r.system >= SystemLen(r.anchor, rest, false)
    ensures |r.fragment| <= 4 * Capacity(rest, envelope, budget) + 3
  {
    assert r.fragment[..|r.fragment|] == r.fragment;
    EscapedGrows(r.fragment, |r.fragment|, |r.fragment|);
  }

  lemma OneMore(k: nat, m: int)
    ensures (k + 1) * m == k * m + m
  {
  }

  lemma {:induction false} TotalBound(calls: seq<Request>, answers: seq<Answer>, previous: Option<Bytes>, rest: nat,
      envelope: nat, budget: nat)
    requires Sound(calls, answers, previous, rest, envelope, budget)
    ensures |Consumed(calls)| <= |calls| * (4 * Capacity(rest, envelope, budget) + 3)
  {
    if calls != [] {
      var init, last := calls[..|calls| - 1], calls[|calls| - 1];
      TotalBound(init, answers, previous, rest, envelope, budget);
      FragmentBound(last, rest, envelope, budget);
      OneMore(|init|, 4 * Capacity(rest, envelope, budget) + 3);
    }
  }

  lemma MulMono(a: nat, b: nat, d: nat)
    requires a <= b
    ensures a * d <= b * d
  {
  }

  lemma DivLess(x: nat, b: nat, k: nat)
    requires b > 0 && x < (k + 1) * b
    ensures x / b <= k
  {
    var c := x / b;
    MulMono(if c > k then k + 1 else c, c, b);
  }

  lemma CeilBound(a: nat, b: nat, k: nat)
    requires b > 0 && a <= k * b
    ensures Ceil(a, b) <= k
  {
    assert (k + 1) * b == k * b + b;
    DivLess(a + b - 1, b, k);
  }

  /**
   A history refused before the first call could not have been summarised: no sound sequence
   of at most thirty-two calls consumes it. A rendered history is longer than the ninety-six
   bytes that thirty-two calls could carry with no capacity at all.
   */
  lemma EarlyRefusalIsRight(
    prompt: Bytes, calls: seq<Request>, answers: seq<Answer>, previous: Option<Bytes>, rest: nat, envelope: nat,
      budget: nat)
    requires Sound(calls, answers, previous, rest, envelope, budget) && Consumed(calls) == prompt &&
      |calls| <= MAX_CHUNKS
    requires |prompt| > 3 * MAX_CHUNKS
    ensures Capacity(rest, envelope, budget) > 0 && Optimistic(|prompt|, rest, envelope, budget) <= MAX_CHUNKS
  {
    TotalBound(calls, answers, previous, rest, envelope, budget);
    var m := 4 * Capacity(rest, envelope, budget) + 3;
    SmallFactor(|calls|, m, |prompt|);
    CeilBound(|prompt|, m, |calls|);
  }

  lemma SmallFactor(k: nat, m: int, n: nat)
    requires k <= MAX_CHUNKS && n <= k * m && n > 3 * MAX_CHUNKS
    ensures m > 3
  {
    var small := if m <= 3 then m else 3;
    assert k * small <= k * 3;
  }
}
