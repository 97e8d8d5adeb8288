/**
 The text the emergency pass writes over a function result: a line of JSON with the first 160
 characters of the result as a preview. The text is counted as it is serialised once more, so
 the preview is escaped twice, and a reference to a reference can be smaller than the first.
 */
module ResultReference {
  import Summarizer

  const PREVIEW: nat := 160

  // ------------------------------------------------------------ escaping and counting

  /** Bytes of a character in UTF-8. */
  function Bytes(c: char): nat {
    if c < '\U{80}' then 1 else if c < '\U{800}' then 2 else if c < '\U{10000}' then 3 else 4
  }

  function Hex(n: nat): char
    requires n < 16
  {
    if n < 10 then '0' + n as char else 'a' + (n - 10) as char
  }

  /** A character as JSON writes it inside a string. */
  function Escape(c: char): string {
    if c == '"' then "\\\"" else if c == '\\' then "\\\\"
    else if c == '\U{8}' then "\\b" else if c == '\t' then "\\t" else if c == '\n' then "\\n"
    else if c == '\U{C}' then "\\f" else if c == '\r' then "\\r"
    else if c < ' ' then "\\u00" + [Hex(c as int / 16), Hex(c as int % 16)]
    else [c]
  }

  function Escaped(s: string): string {
    if s == "" then "" else Escaped(s[..|s| - 1]) + Escape(s[|s| - 1])
  }

  function Length(s: string): nat {
    if s == "" then 0 else Length(s[..|s| - 1]) + Bytes(s[|s| - 1])
  }

  /** What a character takes inside a JSON string inside a JSON string. */
  function Width(c: char): nat {
    if c == '"' || c == '\\' then 4
    else if c == '\U{8}' || c == '\t' || c == '\n' || c == '\U{C}' || c == '\r' then 3
    else if c < ' ' then 7
    else Bytes(c)
  }

  /** And a text. */
  function Twice(s: string): nat {
    if s == "" then 0 else Twice(s[..|s| - 1]) + Width(s[|s| - 1])
  }

  lemma Associates(a: string, b: string, c: string)
    ensures (a + b) + c == a + (b + c)
  {
  }

  lemma EscapedLast(s: string, c: char)
    ensures Escaped(s + [c]) == Escaped(s) + Escape(c)
  {
    assert (s + [c])[..|s|] == s;
  }

  lemma {:induction false} EscapedJoin(a: string, b: string)
    ensures Escaped(a + b) == Escaped(a) + Escaped(b)
  {
    if b == "" {
      assert a + b == a;
    } else {
      var front, c := b[..|b| - 1], b[|b| - 1];
      assert b == front + [c];
      EscapedJoin(a, front);
      EscapedLast(a + front, c);
      EscapedLast(front, c);
      Associates(a, front, [c]);
      Associates(Escaped(a), Escaped(front), Escape(c));
    }
  }

  lemma {:induction false} LengthJoin(a: string, b: string)
    ensures Length(a + b) == Length(a) + Length(b)
  {
    if b == "" {
      assert a + b == a;
    } else {
      LengthJoin(a, b[..|b| - 1]);
      assert (a + b)[..|a + b| - 1] == a + b[..|b| - 1];
    }
  }

  lemma {:induction false} TwiceJoin(a: string, b: string)
    ensures Twice(a + b) == Twice(a) + Twice(b)
  {
    if b == "" {
      assert a + b == a;
    } else {
      TwiceJoin(a, b[..|b| - 1]);
      assert (a + b)[..|a + b| - 1] == a + b[..|b| - 1];
    }
  }

  lemma One(c: char)
    ensures Escaped([c]) == Escape(c) && Length([c]) == Bytes(c)
  {
    assert [c][..0] == "" && Escaped("") == "" && Length("") == 0;
    assert Escaped([c]) == Escaped([c][..0]) + Escape(c);
  }

  /** Two characters that JSON writes as themselves. */
  lemma Kept(c: char)
    requires ' ' <= c && c != '"' && c != '\\'
    ensures Escaped([c]) == [c] && Length(Escaped([c])) == Bytes(c)
  {
    One(c);
  }

  lemma Slash(c: char)
    requires c == '"' || c == '\\'
    ensures Length(Escaped([c])) == 2
  {
    One(c);
    One('\\');
    LengthJoin(['\\'], [c]);
    assert Escape(c) == ['\\'] + [c];
  }

  /** A backslash and a character, escaped. */
  lemma AfterSlash(c: char)
    requires ' ' <= c < '\U{80}'
    ensures Length(Escaped(['\\', c])) == if c == '"' || c == '\\' then 4 else 3
  {
    Slash('\\');
    if c == '"' || c == '\\' { Slash(c); } else { Kept(c); }
    EscapedJoin(['\\'], [c]);
    LengthJoin(Escaped(['\\']), Escaped([c]));
    assert ['\\'] + [c] == ['\\', c];
  }

  lemma ControlWidth(h: char, l: char)
    requires '0' <= h <= 'f' && h != '\\' && '0' <= l <= 'f' && l != '\\'
    ensures Length(Escaped("\\u00" + [h, l])) == 7
  {
    AfterSlash('u');
    Kept('0');
    Kept(h);
    Kept(l);
    assert "\\u00" + [h, l] == ['\\', 'u'] + (['0'] + (['0'] + ([h] + [l])));
    EscapedJoin([h], [l]);
    EscapedJoin(['0'], [h] + [l]);
    EscapedJoin(['0'], ['0'] + ([h] + [l]));
    EscapedJoin(['\\', 'u'], ['0'] + (['0'] + ([h] + [l])));
    LengthJoin(Escaped([h]), Escaped([l]));
    LengthJoin(Escaped(['0']), Escaped([h] + [l]));
    LengthJoin(Escaped(['0']), Escaped(['0'] + ([h] + [l])));
    LengthJoin(Escaped(['\\', 'u']), Escaped(['0'] + (['0'] + ([h] + [l]))));
  }

  lemma WidthIs(c: char)
    ensures Length(Escaped(Escape(c))) == Width(c)
  {
    if c == '"' || c == '\\' {
      AfterSlash(c);
      assert Escape(c) == ['\\', c];
    } else if c == '\U{8}' {
      AfterSlash('b');
    } else if c == '\t' {
      AfterSlash('t');
    } else if c == '\n' {
      AfterSlash('n');
    } else if c == '\U{C}' {
      AfterSlash('f');
    } else if c == '\r' {
      AfterSlash('r');
    } else if c < ' ' {
      ControlWidth(Hex(c as int / 16), Hex(c as int % 16));
    } else {
      Kept(c);
    }
  }

  /** Escaping a text twice and counting its bytes comes to these widths. */
  lemma {:induction false} TwiceIs(s: string)
    ensures Length(Escaped(Escaped(s))) == Twice(s)
  {
    if s == "" {
      assert Escaped("") == "" && Length("") == 0;
    } else {
      var front, c := s[..|s| - 1], s[|s| - 1];
      TwiceIs(front);
      WidthIs(c);
      EscapedJoin(Escaped(front), Escape(c));
      LengthJoin(Escaped(Escaped(front)), Escaped(Escape(c)));
    }
  }

  // ------------------------------------------------------------ how much escaping adds

  /** No control characters: nothing that JSON escapes to more than two characters. */
  predicate Clean(s: string) {
    forall i :: 0 <= i < |s| ==> s[i] >= ' '
  }

  lemma CleanJoin(a: string, b: string)
    requires Clean(a) && Clean(b)
    ensures Clean(a + b)
  {
  }

  lemma EscapeClean(c: char)
    ensures Clean(Escape(c)) && |Escape(c)| >= 1
  {
  }

  lemma {:induction false} EscapedClean(s: string)
    ensures Clean(Escaped(s)) && |Escaped(s)| >= |s|
  {
    if s != "" {
      EscapedClean(s[..|s| - 1]);
      EscapeClean(s[|s| - 1]);
      CleanJoin(Escaped(s[..|s| - 1]), Escape(s[|s| - 1]));
    }
  }

  lemma {:induction false} TwiceLeast(s: string)
    ensures Twice(s) >= |s|
  {
    if s != "" { TwiceLeast(s[..|s| - 1]); }
  }

  lemma {:induction false} TwiceMost(s: string)
    requires Clean(s)
    ensures Twice(s) <= 4 * |s|
  {
    if s != "" { TwiceMost(s[..|s| - 1]); }
  }

  // ------------------------------------------------------------ a line with a preview in it

  const MARK: string := "\U{2026}"

  /** The first characters of a text. */
  function Preview(text: string): string {
    if |text| <= PREVIEW then text else text[..PREVIEW] + MARK
  }

  function Line(front: string, back: string, text: string): string {
    front + Escaped(Preview(text)) + back
  }

  /** What a text takes inside a JSON string. */
  function Size(s: string): nat {
    Length(Escaped(s))
  }

  /** The estimate of a message that carries the text, the rest of it being `envelope` bytes. */
  function Estimate(envelope: nat, text: string): nat {
    (envelope + Size(text)) / 4
  }

  lemma SizeJoin(a: string, b: string)
    ensures Size(a + b) == Size(a) + Size(b)
  {
    EscapedJoin(a, b);
    LengthJoin(Escaped(a), Escaped(b));
  }

  /** A line's size, from the widths of its preview. */
  lemma LineSize(front: string, back: string, text: string)
    ensures Size(Line(front, back, text)) == Size(front) + Size(back) + Twice(Preview(text))
  {
    SizeJoin(front + Escaped(Preview(text)), back);
    SizeJoin(front, Escaped(Preview(text)));
    TwiceIs(Preview(text));
  }

  lemma MarkWidth()
    ensures Twice(MARK) == 3 && |MARK| == 1
  {
    assert MARK[..0] == "" && Twice("") == 0;
  }

  /** The preview of a line that is long before it comes to its own preview does not depend on it. */
  lemma AgainPreview(front: string, back: string, text: string)
    requires |front| > PREVIEW
    ensures Preview(Line(front, back, text)) == front[..PREVIEW] + MARK
    ensures Twice(Preview(Line(front, back, text))) == Twice(front[..PREVIEW]) + 3
  {
    assert Line(front, back, text)[..PREVIEW] == front[..PREVIEW];
    MarkWidth();
    TwiceJoin(front[..PREVIEW], MARK);
  }

  /** A line about a line, against the first: all that differs is the rest of the two and their previews. */
  lemma AgainExactly(envelope: nat, front: string, back: string, front': string, back': string, text: string)
    requires |front| > PREVIEW
    ensures
      var first := envelope + Size(front) + Size(back) + Twice(Preview(text));
      var again := envelope + Size(front') + Size(back') + Twice(front[..PREVIEW]) + 3;
      Estimate(envelope, Line(front, back, text)) == first / 4 &&
      Estimate(envelope, Line(front', back', Line(front, back, text))) == again / 4
  {
    LineSize(front, back, text);
    LineSize(front', back', Line(front, back, text));
    AgainPreview(front, back, text);
  }

  lemma AgainSized(
    envelope: nat, front: string, back: string, front': string, back': string, text: string,
    rest: nat, sizes: nat, sizes': nat)
    requires |front| > PREVIEW
    requires Size(front) + Size(back) == rest + sizes && Size(front') + Size(back') == rest + sizes'
    ensures Estimate(envelope, Line(front, back, text)) == (envelope + rest + sizes + Twice(Preview(text))) / 4
    ensures Estimate(envelope, Line(front', back', Line(front, back, text))) ==
      (envelope + rest + sizes' + Twice(front[..PREVIEW]) + 3) / 4
  {
    AgainExactly(envelope, front, back, front', back', text);
  }

  // ------------------------------------------------------------ references

  function Digits(n: nat): string {
    if n < 10 then ['0' + n as char] else Digits(n / 10) + ['0' + (n % 10) as char]
  }

  /** What is known of a result beside its text: its ids, its size before, and its hash. */
  datatype Facts = Facts(call: string, name: string, bytes: nat, tokens: nat, sha: string)

  /** The sizes of a result, as they are written. */
  function Sizes(f: Facts): nat {
    |Digits(f.bytes)| + |Digits(f.tokens)|
  }

  /** How references are written: before the preview, behind it, and what that takes beside sizes and hash. */
  datatype Format = Format(front: Facts -> string, back: Facts -> string, base: (string, string) -> nat)

  /** The text written over a result. */
  function Reference(format: Format, f: Facts, text: string): string {
    Line(format.front(f), format.back(f), text)
  }

  /**
   A line that is longer than a preview before it comes to its own, whose first characters take
   so much escaped twice, and whose length varies with sizes and hash only.
   */
  ghost predicate ProperFor(format: Format, f: Facts) {
    var front := format.front(f);
    && |front| > PREVIEW && PREVIEW + 9 <= Twice(front[..PREVIEW]) <= 4 * PREVIEW
    && (Plain(f.sha) ==> Size(front) + Size(format.back(f)) == format.base(f.call, f.name) + Sizes(f) + |f.sha|)
  }

  ghost predicate Proper(format: Format) {
    forall f :: ProperFor(format, f)
  }

  /** The facts of the reference itself: the same ids, other sizes and another hash. */
  predicate Again(f: Facts, g: Facts) {
    g.call == f.call && g.name == f.name && Plain(f.sha) && Plain(g.sha) && |g.sha| == |f.sha|
  }

  /**
   The estimates of a reference and of a reference to it: all that differs is how the sizes and
   the previews are written.
   */
  lemma ReferenceSizes(format: Format, envelope: nat, f: Facts, g: Facts, text: string)
    requires Proper(format) && Again(f, g)
    ensures |format.front(f)| > PREVIEW
    ensures var rest := format.base(f.call, f.name) + |f.sha|;
      var again := Twice(format.front(f)[..PREVIEW]) + 3;
      PREVIEW + 12 <= again <= 4 * PREVIEW + 3 &&
      Estimate(envelope, Reference(format, f, text)) == (envelope + rest + Sizes(f) + Twice(Preview(text))) / 4 &&
      Estimate(envelope, Reference(format, g, Reference(format, f, text))) == (envelope + rest + Sizes(g) + again) / 4
  {
    assert ProperFor(format, f) && ProperFor(format, g);
    AgainSized(envelope, format.front(f), format.back(f), format.front(g), format.back(g), text,
      format.base(f.call, f.name) + |f.sha|, Sizes(f), Sizes(g));
  }

  /** A result whose preview is wide, such as one of control characters, shrinks again whatever its ids are. */
  lemma WideShrinks(format: Format, envelope: nat, f: Facts, g: Facts, text: string)
    requires Proper(format) && Again(f, g) && Twice(Preview(text)) + Sizes(f) >= 4 * PREVIEW + 7 + Sizes(g)
    ensures Estimate(envelope, Reference(format, g, Reference(format, f, text))) <
      Estimate(envelope, Reference(format, f, text))
  {
    ReferenceSizes(format, envelope, f, g, text);
  }

  /** A plain one does not, unless its sizes are written nine digits longer. */
  lemma PlainStays(format: Format, envelope: nat, f: Facts, g: Facts, text: string)
    requires Proper(format) && Again(f, g) && Plain(text) && Sizes(f) <= Sizes(g) + 9
    ensures Estimate(envelope, Reference(format, g, Reference(format, f, text))) >=
      Estimate(envelope, Reference(format, f, text))
  {
    ReferenceSizes(format, envelope, f, g, text);
    PlainPreview(text);
  }

  lemma PlainPreview(text: string)
    requires Plain(text)
    ensures Twice(Preview(text)) <= PREVIEW + 3
  {
    var first := if |text| <= PREVIEW then text else text[..PREVIEW];
    PlainLength(first);
    MarkWidth();
    TwiceJoin(first, MARK);
  }

  // ------------------------------------------------------------ the worker's line

  const OPENING := "[function result" + " reduced for context" + " budget] "
  const KIND := "function_result_reference"
  const CALL := "{\"function_call_id\":\""
  const NAME := "\",\"function_id\":\""
  const SORT := "\",\"kind\":\""
  const BYTES := "\",\"original_bytes\":"
  const HINT := "The original result remains in the session transcript; retrieve it by function_call_id."
  /** The line up to the sizes, and up to the preview, and what follows it. */
  function Lead(call: string, name: string): string {
    OPENING + CALL + Escaped(call) + NAME + Escaped(name) + SORT + KIND + BYTES
  }

  const TOKENS := ",\"original_estimated" + "_tokens\":"
  const BEFORE := ",\"preview\":\""
  const BEHIND := "\",\"retrieval_hint\":\"" + HINT + "\",\"sha256\":\""
  const CLOSING := "\"}"

  function Front(f: Facts): string {
    Lead(f.call, f.name) + Digits(f.bytes) + TOKENS + Digits(f.tokens) + BEFORE
  }

  function Back(f: Facts): string {
    BEHIND + f.sha + CLOSING
  }

  // ------------------------------------------------------------ what the sizes and the hash take

  /** Characters that JSON writes as themselves, in one byte. */
  predicate Plain(s: string) {
    forall i :: 0 <= i < |s| ==> ' ' <= s[i] < '\U{80}' && s[i] != '"' && s[i] != '\\'
  }

  lemma {:induction false} PlainLength(s: string)
    requires Plain(s)
    ensures Length(Escaped(s)) == |s| && Twice(s) == |s|
  {
    if s == "" {
      assert Escaped("") == "" && Length("") == 0;
    } else {
      var front, c := s[..|s| - 1], s[|s| - 1];
      PlainLength(front);
      Kept(c);
      One(c);
      LengthJoin(Escaped(front), Escape(c));
    }
  }

  lemma {:induction false} DigitsPlain(n: nat)
    ensures Plain(Digits(n)) && |Digits(n)| >= 1
  {
    if n >= 10 { DigitsPlain(n / 10); }
  }

  function Ten(k: nat): nat {
    if k == 0 then 1 else 10 * Ten(k - 1)
  }

  lemma {:induction false} DigitsMost(n: nat, k: nat)
    requires k > 0 && n < Ten(k)
    ensures |Digits(n)| <= k
  {
    if n >= 10 {
      DigitsMost(n / 10, k - 1);
    }
  }

  lemma {:induction false} DigitsGrow(a: nat, b: nat)
    requires a <= b
    ensures |Digits(a)| <= |Digits(b)|
  {
    if a >= 10 {
      DigitsGrow(a / 10, b / 10);
    } else if b >= 10 {
      DigitsPlain(b / 10);
    }
  }

  lemma {:induction false} DigitsFew(n: nat)
    ensures |Digits(n)| <= 1 + n / 10
  {
    if n >= 10 { DigitsFew(n / 10); }
  }

  /** What a reference takes beside its preview, its sizes and its hash. */
  function Base(lead: string): nat {
    Size(lead) + Size(TOKENS) + Size(BEFORE) + Size(BEHIND) + Size(CLOSING)
  }

  lemma SizeFive(a: string, b: string, c: string, d: string, e: string)
    ensures Size(a + b + c + d + e) == Size(a) + Size(b) + Size(c) + Size(d) + Size(e)
  {
    SizeJoin(a + b + c + d, e);
    SizeJoin(a + b + c, d);
    SizeJoin(a + b, c);
    SizeJoin(a, b);
  }

  lemma SizeThree(a: string, b: string, c: string)
    ensures Size(a + b + c) == Size(a) + Size(b) + Size(c)
  {
    SizeJoin(a + b, c);
    SizeJoin(a, b);
  }

  /** Two references to results of the same ids differ by their sizes and their previews only. */
  lemma FixedIs(f: Facts)
    requires Plain(f.sha)
    ensures Size(Front(f)) + Size(Back(f)) == Base(Lead(f.call, f.name)) + Sizes(f) + |f.sha|
  {
    DigitsPlain(f.bytes);
    DigitsPlain(f.tokens);
    PlainLength(Digits(f.bytes));
    PlainLength(Digits(f.tokens));
    PlainLength(f.sha);
    SizeFive(Lead(f.call, f.name), Digits(f.bytes), TOKENS, Digits(f.tokens), BEFORE);
    SizeThree(BEHIND, f.sha, CLOSING);
  }

  // ------------------------------------------------------------ the preview of a reference

  lemma OpeningClean()
    ensures Clean(OPENING) && |OPENING| == 45
  {
    assert Clean("[function result");
    assert Clean(" reduced for context");
    assert Clean(" budget] ");
  }

  lemma CallClean()
    ensures Clean(CALL) && |CALL| == 21
  {
  }

  lemma NameClean()
    ensures Clean(NAME) && |NAME| == 17
  {
  }

  lemma SortClean()
    ensures Clean(SORT) && |SORT| == 10
  {
  }

  lemma KindClean()
    ensures Clean(KIND) && |KIND| == 25
  {
  }

  lemma BytesClean()
    ensures Clean(BYTES) && |BYTES| == 19
  {
  }

  lemma TokensClean()
    ensures Clean(TOKENS) && |TOKENS| == 29
  {
    assert Clean(",\"original_estimated");
    assert Clean("_tokens\":");
  }

  lemma CleanFour(a: string, b: string, c: string, d: string)
    requires Clean(a) && Clean(b) && Clean(c) && Clean(d)
    ensures Clean(a + b + c + d) && |a + b + c + d| == |a| + |b| + |c| + |d|
  {
    CleanJoin(a, b);
    CleanJoin(a + b, c);
    CleanJoin(a + b + c, d);
  }

  lemma LeadClean(f: Facts)
    ensures Clean(Lead(f.call, f.name)) && |Lead(f.call, f.name)| >= 137
  {
    OpeningClean();
    CallClean();
    NameClean();
    SortClean();
    KindClean();
    BytesClean();
    EscapedClean(f.call);
    EscapedClean(f.name);
    CleanFour(OPENING, CALL, Escaped(f.call), NAME);
    CleanFour(OPENING + CALL + Escaped(f.call) + NAME, Escaped(f.name), SORT, KIND);
    CleanJoin(OPENING + CALL + Escaped(f.call) + NAME + Escaped(f.name) + SORT + KIND, BYTES);
  }

  /** The line is longer than a preview before it comes to the result's own, and holds nothing that is escaped wide. */
  lemma FrontClean(f: Facts)
    ensures |Front(f)| > PREVIEW && Clean(Front(f)[..PREVIEW])
  {
    LeadClean(f);
    DigitsPlain(f.bytes);
    DigitsPlain(f.tokens);
    TokensClean();
    var long := Lead(f.call, f.name) + Digits(f.bytes) + TOKENS;
    CleanFour(Lead(f.call, f.name), Digits(f.bytes), TOKENS, "");
    assert long + "" == long;
    assert Front(f)[..PREVIEW] == long[..PREVIEW];
  }

  lemma CallWidth()
    ensures Twice(CALL) >= |CALL| + 9
  {
    var name := "function_call_id";
    assert CALL == "{" + "\"" + name + "\"" + ":" + "\"";
    TwiceLeast("{");
    TwiceLeast(name);
    TwiceLeast(":");
    assert Twice("\"") == 4 by { assert "\""[..0] == "" && Twice("") == 0; }
    TwiceJoin("{" + "\"" + name + "\"" + ":", "\"");
    TwiceJoin("{" + "\"" + name + "\"", ":");
    TwiceJoin("{" + "\"" + name, "\"");
    TwiceJoin("{" + "\"", name);
    TwiceJoin("{", "\"");
  }

  lemma HeadWidth()
    ensures |OPENING + CALL| == 66 && Twice(OPENING + CALL) >= 75
  {
    OpeningClean();
    CallClean();
    TwiceLeast(OPENING);
    CallWidth();
    TwiceJoin(OPENING, CALL);
  }

  lemma StartWidth(head: string, front: string)
    requires head <= front && |head| == 66 && Twice(head) >= 75 && |front| > PREVIEW
    ensures Twice(front[..PREVIEW]) >= PREVIEW + 9
  {
    var rest := front[66..PREVIEW];
    assert front[..PREVIEW] == head + rest;
    TwiceLeast(rest);
    TwiceJoin(head, rest);
  }

  /** The first characters of a reference take between this much and that: its quotation marks are escaped twice. */
  lemma FrontWidth(f: Facts)
    ensures |Front(f)| > PREVIEW && PREVIEW + 9 <= Twice(Front(f)[..PREVIEW]) <= 4 * PREVIEW
  {
    FrontClean(f);
    HeadFirst(f);
    HeadWidth();
    StartWidth(OPENING + CALL, Front(f));
    TwiceMost(Front(f)[..PREVIEW]);
  }

  lemma Begins(a: string, b: string, c: string)
    requires a <= b
    ensures a <= b + c
  {
  }

  lemma HeadFirst(f: Facts)
    ensures |Front(f)| > PREVIEW && |OPENING + CALL| == 66 && OPENING + CALL <= Front(f)
  {
    OpeningClean();
    CallClean();
    FrontClean(f);
    HeadLead(OPENING + CALL, Escaped(f.call), NAME, Escaped(f.name), SORT);
    var four := OPENING + CALL + Escaped(f.call) + NAME + Escaped(f.name) + SORT;
    Begins(OPENING + CALL, four, KIND);
    Begins(OPENING + CALL, four + KIND, BYTES);
    Begins(OPENING + CALL, Lead(f.call, f.name), Digits(f.bytes));
    Begins(OPENING + CALL, Lead(f.call, f.name) + Digits(f.bytes), TOKENS);
    Begins(OPENING + CALL, Lead(f.call, f.name) + Digits(f.bytes) + TOKENS, Digits(f.tokens));
    Begins(OPENING + CALL, Lead(f.call, f.name) + Digits(f.bytes) + TOKENS + Digits(f.tokens), BEFORE);
  }

  lemma HeadLead(head: string, a: string, b: string, c: string, d: string)
    ensures head <= head + a + b + c + d
  {
    Begins(head, head, a);
    Begins(head, head + a, b);
    Begins(head, head + a + b, c);
    Begins(head, head + a + b + c, d);
  }

  // ------------------------------------------------------------ the worker's format

  function WorkerFormat(): Format {
    Format((f: Facts) => Front(f), (f: Facts) => Back(f), (call: string, name: string) => Base(Lead(call, name)))
  }

  /** It is such a format. */
  lemma WorkerFormatProper()
    ensures Proper(WorkerFormat())
  {
    forall f ensures ProperFor(WorkerFormat(), f) {
      FrontWidth(f);
      if Plain(f.sha) { FixedIs(f); }
    }
  }

  // ------------------------------------------------------------ what is written, exactly

  /** A character takes as many bytes as its UTF-8 form. */
  lemma BytesExactly(c: char)
    ensures Bytes(c) == |Summarizer.Utf8(c as int)|
  {
  }

  /** A character is escaped as JSON escapes its byte, and as itself beyond ASCII. */
  lemma EscapeExactly(c: char, i: nat)
    ensures c < '\U{80}' ==> |Escape(c)| == |Summarizer.Json(c as int)|
    ensures c < '\U{80}' && i < |Escape(c)| ==> Escape(c)[i] as int == Summarizer.Json(c as int)[i]
    ensures c >= '\U{80}' ==> Escape(c) == [c]
  {
    if c < ' ' {
      HexExactly(c as int / 16);
      HexExactly(c as int % 16);
    }
  }

  lemma HexExactly(n: nat)
    requires n < 16
    ensures Hex(n) as int == Summarizer.HexDigit(n)
  {
  }

  /** A preview is the whole text up to a hundred and sixty characters, and else the first of them and the mark. */
  lemma PreviewExactly(text: string)
    ensures |text| <= 160 ==> Preview(text) == text
    ensures |text| > 160 ==>
      |Preview(text)| == 161 && Preview(text)[..160] == text[..160] && Preview(text)[160] == '\U{2026}'
  {
  }

  /** The number a text of digits reads as. */
  function NumberOf(s: string): nat
    requires forall i :: 0 <= i < |s| ==> '0' <= s[i] <= '9'
  {
    if s == "" then 0 else 10 * NumberOf(s[..|s| - 1]) + (s[|s| - 1] as int - '0' as int)
  }

  /** Numbers read back as they were written, and have no leading zero. */
  lemma {:induction false} DigitsExactly(n: nat)
    ensures forall i :: 0 <= i < |Digits(n)| ==> '0' <= Digits(n)[i] <= '9'
    ensures NumberOf(Digits(n)) == n && |Digits(n)| > 0 && (n > 0 ==> Digits(n)[0] != '0')
  {
    if n >= 10 {
      DigitsExactly(n / 10);
      assert Digits(n)[..|Digits(n)| - 1] == Digits(n / 10);
    } else {
      assert Digits(n)[..0] == "" && NumberOf("") == 0;
    }
  }
}
