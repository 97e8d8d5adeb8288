/**
 Fitting a request into a window with the texts the worker writes: a function result carries one
 text, its estimate is a quarter of its serialised bytes, and the emergency pass writes the
 worker's reference over it.
 */
module ContextWorker {
  import opened Options
  import opened ContextAssembly
  import R = ResultReference

  /**
   What the worker knows of the messages, by what no pass rewrites: which are function results,
   their ids, the bytes of the message around the text, what is written when there is no text,
   and for each text the bytes of the whole message and its hash. What it computes for other
   messages, and what the other passes write, is arbitrary.
   */
  datatype Worker = Worker(
    whole: int -> bool, call: int -> string, name: int -> string, envelope: int -> nat, details: int -> string,
    bytes: (int, string) -> nat, sha: (int, string) -> string,
    other: Message -> nat, weight: (Message, nat) -> nat, inline: (seq<Message>, Place, string) -> string,
    cap: (seq<Message>, nat) -> string, prune: (seq<Message>, nat) -> string)

  function FactsOf(w: Worker, link: int, text: string): R.Facts {
    R.Facts(w.call(link), w.name(link), w.bytes(link, text), R.Estimate(w.envelope(link), text), w.sha(link, text))
  }

  /** The reference to a result. */
  function Referred(w: Worker, format: R.Format, link: int, text: string): string {
    R.Reference(format, FactsOf(w, link, text), if text == "" then w.details(link) else text)
  }

  function SizeOf(w: Worker, m: Message): nat {
    if w.whole(m.link) then R.Estimate(w.envelope(m.link), m.content) else w.other(m)
  }

  /** Text carries no images, so media normalisation leaves it alone. */
  function TextsOf(w: Worker, format: R.Format): Texts {
    Texts(
      (m: Message) => SizeOf(w, m),
      (messages: seq<Message>, i: nat) => if i < |messages| then messages[i].content else "",
      w.cap, w.prune, w.weight,
      (start: seq<Message>, p: Place, text: string) =>
        if p.message < |start| && w.whole(start[p.message].link)
        then Referred(w, format, start[p.message].link, text) else w.inline(start, p, text))
  }

  const Size32: nat := 0x1_0000_0000

  /** Hashes are 64 hexadecimal digits, a message's bytes fit a counter, and ids and envelopes are under 4 GiB. */
  ghost predicate Sane(w: Worker, format: R.Format, link: int) {
    && w.whole(link)
    && w.envelope(link) + format.base(w.call(link), w.name(link)) <= Size32
    && forall text :: R.Plain(w.sha(link, text)) && |w.sha(link, text)| == 64 && w.bytes(link, text) <= Max
  }

  // ------------------------------------------------------------ a result of control characters

  const ESC: char := '\U{1B}'

  function Repeat(n: nat): string {
    if n == 0 then "" else Repeat(n - 1) + [ESC]
  }

  lemma {:induction false} RepeatIs(n: nat, k: nat)
    requires k <= n
    ensures |Repeat(n)| == n && Repeat(n)[..k] == Repeat(k)
  {
    if n > 0 {
      RepeatIs(n - 1, if k < n then k else n - 1);
      if k == n { assert Repeat(n)[..n] == Repeat(n); }
    }
  }

  lemma {:induction false} RepeatTwice(n: nat)
    ensures R.Twice(Repeat(n)) == 7 * n
  {
    if n > 0 {
      RepeatTwice(n - 1);
      RepeatIs(n - 1, 0);
      assert Repeat(n)[..|Repeat(n)| - 1] == Repeat(n - 1);
    }
  }

  lemma {:induction false} RepeatSize(n: nat)
    ensures R.Size(Repeat(n)) == 6 * n
  {
    if n > 0 {
      RepeatSize(n - 1);
      R.SizeJoin(Repeat(n - 1), [ESC]);
      EscSize();
    } else {
      assert R.Escaped("") == "" && R.Length("") == 0;
    }
  }

  lemma EscSize()
    ensures R.Size([ESC]) == 6
  {
    R.One(ESC);
    var e := R.Escape(ESC);
    assert e == "\\u00" + ['1', 'b'];
    assert R.Plain(e[1..]);
    PlainBytes(e[1..]);
    R.One('\\');
    R.LengthJoin(['\\'], e[1..]);
    assert e == ['\\'] + e[1..];
  }

  lemma {:induction false} PlainBytes(s: string)
    requires R.Plain(s)
    ensures R.Length(s) == |s|
  {
    if s != "" { PlainBytes(s[..|s| - 1]); }
  }

  lemma RepeatPreview(n: nat)
    requires n > R.PREVIEW
    ensures R.Twice(R.Preview(Repeat(n))) == 7 * R.PREVIEW + 3
  {
    RepeatIs(n, R.PREVIEW);
    RepeatTwice(R.PREVIEW);
    R.MarkWidth();
    R.TwiceJoin(Repeat(R.PREVIEW), R.MARK);
  }

  lemma BytesFew(n: nat)
    requires n <= Max
    ensures |R.Digits(n)| <= 20
  {
    FiveMore(0);
    FiveMore(5);
    FiveMore(10);
    FiveMore(15);
    assert R.Ten(0) == 1 && R.Ten(20) == 100000000000000000000;
    R.DigitsMost(n, 20);
  }

  lemma FiveMore(k: nat)
    ensures R.Ten(k + 5) == 100000 * R.Ten(k)
  {
    assert R.Ten(k + 5) == 10 * R.Ten(k + 4) == 100 * R.Ten(k + 3);
    assert R.Ten(k + 3) == 10 * R.Ten(k + 2) == 100 * R.Ten(k + 1);
  }

  // ------------------------------------------------------------ a request that slips through

  /** A long enough text is larger than its reference. */
  lemma OnceSmaller(format: R.Format, envelope: nat, f: R.Facts, g: R.Facts, text: string, n: nat)
    requires R.Proper(format) && R.Again(f, g) && |f.sha| == 64 && |R.Digits(f.bytes)| <= 20
    requires n == envelope + format.base(f.call, f.name) + 2000 && R.Size(text) == 6 * n
    requires f.tokens == R.Estimate(envelope, text) && R.Twice(R.Preview(text)) == 7 * R.PREVIEW + 3
    ensures R.Estimate(envelope, R.Reference(format, f, text)) < R.Estimate(envelope, text) <= 2 * n
  {
    R.ReferenceSizes(format, envelope, f, g, text);
    R.DigitsFew(f.tokens);
  }

  /** And its reference than the reference to that. */
  lemma AgainSmaller(format: R.Format, envelope: nat, f: R.Facts, g: R.Facts, text: string)
    requires R.Proper(format) && R.Again(f, g) && R.Twice(R.Preview(text)) == 7 * R.PREVIEW + 3
    requires |R.Digits(g.bytes)| <= 20 && g.tokens <= f.tokens
    ensures 2 <= R.Estimate(envelope, R.Reference(format, g, R.Reference(format, f, text))) <
      R.Estimate(envelope, R.Reference(format, f, text))
  {
    R.DigitsPlain(f.bytes);
    R.DigitsGrow(g.tokens, f.tokens);
    R.WideShrinks(format, envelope, f, g, text);
    R.ReferenceSizes(format, envelope, f, g, text);
  }

  /** The estimates of the result, of its reference and of the reference to that. */
  lemma SizesFrom(w: Worker, format: R.Format, link: int, n: nat, f: R.Facts, g: R.Facts)
    requires R.Proper(format) && Sane(w, format, link)
    requires n == w.envelope(link) + format.base(w.call(link), w.name(link)) + 2000
    requires f == FactsOf(w, link, Repeat(n)) && g == FactsOf(w, link, R.Reference(format, f, Repeat(n)))
    ensures var once := R.Reference(format, f, Repeat(n));
      2 <= R.Estimate(w.envelope(link), R.Reference(format, g, once)) < R.Estimate(w.envelope(link), once) <
        R.Estimate(w.envelope(link), Repeat(n)) <= 4 * Size32
  {
    RepeatSize(n);
    RepeatPreview(n);
    BytesFew(f.bytes);
    BytesFew(g.bytes);
    OnceSmaller(format, w.envelope(link), f, g, Repeat(n), n);
    AgainSmaller(format, w.envelope(link), f, g, Repeat(n));
  }

  lemma OnceSome(format: R.Format, f: R.Facts, text: string)
    requires R.Proper(format)
    ensures R.Reference(format, f, text) != ""
  {
    assert R.ProperFor(format, f);
  }

  function ResultOf(link: int, text: string): Message {
    Message(false, link, 1, text)
  }

  /** The pass writes the reference over a result that is larger. */
  lemma OneReferred(w: Worker, format: R.Format, link: int, text: string, to: string, need: nat)
    requires w.whole(link) && need > 0 && text != "" && to == R.Reference(format, FactsOf(w, link, text), text)
    requires R.Estimate(w.envelope(link), to) < R.Estimate(w.envelope(link), text)
    ensures Reduced(TextsOf(w, format), [ResultOf(link, text)], need) == [ResultOf(link, to)]
  {
    CutIs(w, format, link, text);
    OneReduced(TextsOf(w, format), ResultOf(link, text), ResultOf(link, to), need);
  }

  lemma CutIs(w: Worker, format: R.Format, link: int, text: string)
    requires w.whole(link) && text != ""
    ensures var m := ResultOf(link, text);
      Cut(TextsOf(w, format), [m], Place(0, 0), m) ==
      ResultOf(link, R.Reference(format, FactsOf(w, link, text), text))
  {
    var m := ResultOf(link, text);
    assert [m][0] == m;
    assert TextsOf(w, format).reference([m], Place(0, 0), text) == Referred(w, format, link, text);
  }

  // ------------------------------------------------------------ one message that can be reduced twice

  /** A message, what it is reduced to, and what that is reduced to. */
  ghost predicate Twofold(texts: Texts, a: Message, b: Message, c: Message) {
    && !a.custom && a.results == 1
    && texts.media([a], 0) == a.content
    && 2 <= texts.size(c) < texts.size(b) < texts.size(a) && 4 * texts.size(a) < Max
    && (forall need: nat :: need > 0 ==> Reduced(texts, [a], need) == [b])
    && Reduced(texts, [b], 1) == [c]
  }

  /** Alone, in a window one token short of what it is reduced to in the end. */
  function OneRequest(texts: Texts, a: Message, c: Message): Request
    requires texts.size(c) > 0
  {
    Request([a], texts.size(c) - 1, 0, 0, 0, false, false, false, false)
  }

  /** Counted at four times its estimate. */
  function FirstAnswers(texts: Texts, a: Message): Answers {
    Answers(Some(4 * texts.size(a)), (round: nat) => None, None)
  }

  lemma OneCapped(texts: Texts, a: Message, b: Message, c: Message)
    requires Twofold(texts, a, b, c)
    ensures Capped(texts, OneRequest(texts, a, c)) == Draft([a], 0)
    ensures Count(texts, OneRequest(texts, a, c), Draft([a], 0)) == texts.size(a)
  {
    var request := OneRequest(texts, a, c);
    assert Shown([a]) == [a] by { assert [a][..0] == []; }
    assert View(texts, request) == [a];
    OneMessage(texts, request, a, 0);
  }

  lemma ScaledLess(usable: nat, part: nat)
    requires usable > 0 && part > 0
    ensures Scaled(usable, part, 4 * part) < usable
  {
    var whole, q := 4 * part, Scaled(usable, part, 4 * part);
    var product := usable * part;
    assert product > 0 && usable * whole == 4 * product;
    assert q * whole <= product;
    if q >= usable { Times(q, usable, whole); }
  }

  lemma OneGate(texts: Texts, a: Message, b: Message, c: Message)
    requires Twofold(texts, a, b, c)
    ensures FirstGate(texts, OneRequest(texts, a, c), FirstAnswers(texts, a)) < OneRequest(texts, a, c).usable
  {
    OneCapped(texts, a, b, c);
    ScaledLess(OneRequest(texts, a, c).usable, texts.size(a));
  }

  lemma OneRelieved(texts: Texts, a: Message, b: Message, c: Message, gate: nat)
    requires Twofold(texts, a, b, c) && gate < texts.size(a)
    ensures Relieved(texts, OneRequest(texts, a, c), FirstAnswers(texts, a), gate) == Draft([b], 0)
  {
    var request, answers := OneRequest(texts, a, c), FirstAnswers(texts, a);
    OneCapped(texts, a, b, c);
    assert Pruned(texts, request, gate) == Draft([a], 0);
    assert Head(texts, request, answers, gate) == 0;
    assert Compacted(texts, request, answers, gate) == Draft([a], 0);
  }

  /** It goes out above the window once the provider counts it one token over and then does not answer. */
  lemma TwofoldSlips(texts: Texts, a: Message, b: Message, c: Message)
    requires Twofold(texts, a, b, c)
    ensures var request := OneRequest(texts, a, c);
      request.overhead <= request.usable + 1 &&
      Above(texts, request, WithCounts(FirstAnswers(texts, a), OneTooMany(request)))
  {
    var request, answers := OneRequest(texts, a, c), FirstAnswers(texts, a);
    var gate := FirstGate(texts, request, answers);
    OneGate(texts, a, b, c);
    OneCapped(texts, a, b, c);
    OneRelieved(texts, a, b, c, gate);
    OneMessage(texts, request, b, 0);
    OneMessage(texts, request, c, 0);
    OneBulk(texts, b);
    CanSlip(texts, request, answers);
  }

  lemma OneBulk(texts: Texts, m: Message)
    ensures Bulk(texts, [m]) == texts.size(m)
  {
    assert Sizes(texts, [m]) == [texts.size(m)];
    var sizes := [texts.size(m)];
    assert sizes[..0] == [] && Sum([]) == 0 && Sum(sizes) == Sum(sizes[..0]) + texts.size(m);
  }

  // ------------------------------------------------------------ the request that slips through

  lemma WorkerTwofold(w: Worker, format: R.Format, link: int) returns (a: Message, b: Message, c: Message)
    requires R.Proper(format) && Sane(w, format, link)
    ensures Twofold(TextsOf(w, format), a, b, c)
  {
    var n := w.envelope(link) + format.base(w.call(link), w.name(link)) + 2000;
    var text := Repeat(n);
    var f := FactsOf(w, link, text);
    var once := R.Reference(format, f, text);
    var g := FactsOf(w, link, once);
    var again := R.Reference(format, g, once);
    RepeatIs(n, 0);
    OnceSome(format, f, text);
    SizesFrom(w, format, link, n, f, g);
    a, b, c := ResultOf(link, text), ResultOf(link, once), ResultOf(link, again);
    forall need: nat | need > 0 ensures Reduced(TextsOf(w, format), [a], need) == [b] {
      OneReferred(w, format, link, text, once, need);
    }
    OneReferred(w, format, link, once, again, 1);
  }

  /**
   With the texts the worker writes, whatever the ids, times and hashes: a result of control
   characters alone in a small window, counted at four times its estimate, is reduced to its
   reference; the provider counts that one token over the window and then does not answer; and
   the request goes out above the window.
   */
  lemma AcceptedAboveWindow(w: Worker, link: int) returns (request: Request, answers: Answers)
    requires Sane(w, R.WorkerFormat(), link)
    ensures Above(TextsOf(w, R.WorkerFormat()), request, answers)
  {
    R.WorkerFormatProper();
    var texts := TextsOf(w, R.WorkerFormat());
    var a, b, c := WorkerTwofold(w, R.WorkerFormat(), link);
    TwofoldSlips(texts, a, b, c);
    request := OneRequest(texts, a, c);
    answers := WithCounts(FirstAnswers(texts, a), OneTooMany(request));
  }
}
