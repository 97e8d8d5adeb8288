/**
 Relaying a provider's stream to the caller, with retries. One attempt reads provider frames
 and forwards them in order until a terminal frame, the end of the stream, silence, an abort or
 a caller that is gone. An attempt that failed before anything but pings was forwarded may
 be retried. When no provider frame ends the stream, the router makes up the terminal frame
 and puts the partial content in it.
 */
module ChatRelay {
  import opened Options

  datatype Frame =
    | Ping | Start | Content(text: string) | Usage
    | Done(text: string) | Error(retryable: bool, text: string)
  {
    predicate Terminal() { Done? || Error? }
  }

  /** A message that does not parse is `None`. */
  datatype Read = Msg(frame: Option<Frame>) | Eof | Timeout

  /** What one read returns, and whether the turn is found aborted right after it. */
  datatype Event = Event(read: Read, aborted: bool)

  // ------------------------------------------------------------ one attempt

  datatype Ending =
    | ProviderDone
    | ProviderError(frame: Frame, forwarded: bool, sent: bool)
    | NoTerminal(idle: bool, partial: string, forwarded: bool)
    | Aborted(partial: string)
    | CallerGone

  /** `room`: how many more frames the caller accepts before it is gone. */
  datatype Relayed = Relayed(out: seq<Frame>, room: nat, ending: Ending)

  /** The content in a sequence of frames. */
  function Text(out: seq<Frame>): string {
    if out == [] then ""
    else Text(out[..|out| - 1]) + (if out[|out| - 1].Content? then out[|out| - 1].text else "")
  }

  /** A frame other than a ping has been forwarded. */
  predicate Forwarded(out: seq<Frame>) {
    exists i :: 0 <= i < |out| && !out[i].Ping?
  }

  /** An attempt that has forwarded `out` and goes on reading. */
  function RelayFrom(events: seq<Event>, out: seq<Frame>, room: nat): Relayed
    decreases |events|
  {
    if events == [] then Relayed(out, room, NoTerminal(false, Text(out), Forwarded(out)))
    else
      var e := events[0];
      if e.aborted then Relayed(out, room, Aborted(Text(out)))
      else
        match e.read
        case Eof => Relayed(out, room, NoTerminal(false, Text(out), Forwarded(out)))
        case Timeout => Relayed(out, room, NoTerminal(true, Text(out), Forwarded(out)))
        case Msg(None) => RelayFrom(events[1..], out, room)
        case Msg(Some(f)) =>
          if f.Error? && !Forwarded(out) then Relayed(out, room, ProviderError(f, false, false))
          else if room == 0 then Relayed(out, room, CallerGone)
          else if f.Done? then Relayed(out + [f], room - 1, ProviderDone)
          else if f.Error? then Relayed(out + [f], room - 1, ProviderError(f, true, true))
          else RelayFrom(events[1..], out + [f], room - 1)
  }

  ghost predicate NoneTerminal(out: seq<Frame>) {
    forall i :: 0 <= i < |out| ==> !out[i].Terminal()
  }

  /** What an attempt hands on, by how it ended. */
  ghost predicate Shape(r: Relayed) {
    match r.ending
    case ProviderDone => |r.out| > 0 && r.out[|r.out| - 1].Done? && NoneTerminal(r.out[..|r.out| - 1])
    case ProviderError(f, forwarded, sent) =>
      && f.Error? && forwarded == sent
      && (sent ==> |r.out| > 0 && r.out[|r.out| - 1] == f && NoneTerminal(r.out[..|r.out| - 1]))
      && (!sent ==> NoneTerminal(r.out) && !Forwarded(r.out))
    case NoTerminal(_, partial, forwarded) =>
      NoneTerminal(r.out) && partial == Text(r.out) && forwarded == Forwarded(r.out)
    case Aborted(partial) => NoneTerminal(r.out) && partial == Text(r.out)
    case CallerGone => NoneTerminal(r.out) && r.room == 0
  }

  lemma {:induction false} RelayShape(events: seq<Event>, out: seq<Frame>, room: nat)
    requires NoneTerminal(out)
    ensures Shape(RelayFrom(events, out, room))
    ensures out <= RelayFrom(events, out, room).out
    decreases |events|
  {
    if events != [] && !events[0].aborted && events[0].read.Msg? {
      var m := events[0].read.frame;
      if m.None? {
        RelayShape(events[1..], out, room);
      } else {
        var f := m.value;
        assert (out + [f])[..|out|] == out;
        if !f.Terminal() && room > 0 { RelayShape(events[1..], out + [f], room - 1); }
      }
    }
  }

  /** The readable frames, in order. */
  function Frames(events: seq<Event>): seq<Frame> {
    if events == [] then []
    else Frames(events[..|events| - 1])
         + (if events[|events| - 1].read.Msg? && events[|events| - 1].read.frame.Some?
            then [events[|events| - 1].read.frame.value] else [])
  }

  /** Nothing is invented, dropped or reordered: what is forwarded are the frames of a prefix of the stream. */
  lemma {:induction false} ForwardsPrefix(events: seq<Event>, k: nat, out: seq<Frame>, room: nat) returns (n: nat)
    requires k <= |events| && out == Frames(events[..k])
    ensures k <= n <= |events| && RelayFrom(events[k..], out, room).out == Frames(events[..n])
    decreases |events| - k
  {
    n := k;
    if k < |events| {
      var e := events[k];
      assert events[k..][0] == e && events[k..][1..] == events[k + 1..];
      assert events[..k + 1][..k] == events[..k];
      if !e.aborted && e.read.Msg? {
        if e.read.frame.None? {
          n := ForwardsPrefix(events, k + 1, out, room);
        } else {
          var f := e.read.frame.value;
          if !(f.Error? && !Forwarded(out)) && room > 0 {
            if f.Terminal() { n := k + 1; }
            else { n := ForwardsPrefix(events, k + 1, out + [f], room - 1); }
          }
        }
      }
    }
  }

  /** The relay loop. */
  method RelayFrames(events: seq<Event>, room: nat) returns (r: Relayed)
    ensures r == RelayFrom(events, [], room)
  {
    var out, left, forwarded, partial := [], room, false, "";
    var i := 0;
    while i < |events|
      invariant 0 <= i <= |events|
      invariant forwarded == Forwarded(out) && partial == Text(out)
      invariant RelayFrom(events[i..], out, left) == RelayFrom(events, [], room)
    {
      var e := events[i];
      assert events[i..][0] == e && events[i..][1..] == events[i + 1..];
      if e.aborted { return Relayed(out, left, Aborted(partial)); }
      match e.read
      case Eof => return Relayed(out, left, NoTerminal(false, partial, forwarded));
      case Timeout => return Relayed(out, left, NoTerminal(true, partial, forwarded));
      case Msg(None) => i := i + 1;
      case Msg(Some(f)) =>
        if f.Error? && !forwarded { return Relayed(out, left, ProviderError(f, false, false)); }
        if left == 0 { return Relayed(out, left, CallerGone); }
        ghost var before := out;
        out, left := out + [f], left - 1;
        assert out[..|before|] == before;
        if f.Done? { return Relayed(out, left, ProviderDone); }
        if f.Error? { return Relayed(out, left, ProviderError(f, true, true)); }
        StillForwarded(before, f);
        if !f.Ping? { forwarded := true; }
        if f.Content? { partial := partial + f.text; }
        else { assert partial + "" == partial; }
        i := i + 1;
    }
    assert events[i..] == [];
    return Relayed(out, left, NoTerminal(false, partial, forwarded));
  }

  lemma StillForwarded(out: seq<Frame>, f: Frame)
    ensures Forwarded(out + [f]) <==> Forwarded(out) || !f.Ping?
  {
    var next := out + [f];
    assert next[|out|] == f;
    if i :| 0 <= i < |out| && !out[i].Ping? { assert next[i] == out[i]; }
  }

  // ------------------------------------------------------------ the whole turn

  /** How a dispatch that never streamed failed: for good or for now, for want of the provider, or otherwise. */
  datatype DispatchError = Final(retryable: bool) | NotFound | Other

  datatype Admission = Admitted | Saturated | NoChannel

  /** What one attempt of a turn meets. */
  datatype Try = Try(
    abortedBefore: bool, admission: Admission, events: seq<Event>,
    failed: Option<DispatchError>, abortedAfter: bool, abortedInBackoff: bool)

  /** A frame the caller received, and the attempt it is from (0: made up by the router). */
  datatype Sent = Sent(frame: Frame, attempt: nat)

  datatype Turn = Turn(out: seq<Sent>, gone: bool, dispatches: nat)

  function Tag(out: seq<Frame>, attempt: nat): (r: seq<Sent>)
    ensures |r| == |out| && forall i :: 0 <= i < |r| ==> r[i] == Sent(out[i], attempt)
  {
    if out == [] then [] else Tag(out[..|out| - 1], attempt) + [Sent(out[|out| - 1], attempt)]
  }

  /** The last frame of a turn, if the caller still takes it. */
  function Finish(out: seq<Sent>, room: nat, last: Sent, dispatches: nat): Turn {
    if room == 0 then Turn(out, true, dispatches) else Turn(out + [last], false, dispatches)
  }

  /** The attempts a turn may make: the caller can only lower the configured number of retries. */
  function Attempts(configured: nat, requested: Option<nat>): nat {
    1 + (if requested.Some? && requested.value < configured then requested.value else configured)
  }

  predicate RetriesError(t: Try, k: nat, max: nat, e: Ending) {
    e.ProviderError? && !e.forwarded && e.frame.Error? && e.frame.retryable && k + 1 < max && !t.abortedAfter
  }

  predicate RetriesSilence(t: Try, k: nat, max: nat, e: Ending) {
    e.NoTerminal? && !e.forwarded && !e.idle && k + 1 < max && !t.abortedAfter
  }

  /** A turn from attempt `k` on: `out` was sent before, and `partial` is the last partial seen. */
  function TurnFrom(tries: seq<Try>, k: nat, out: seq<Sent>, room: nat, partial: string): Turn
    requires k <= |tries|
    decreases |tries| - k, 1
  {
    if k == |tries| || tries[k].abortedBefore then Finish(out, room, Sent(Done(partial), 0), k)
    else if !tries[k].admission.Admitted? then Finish(out, room, Sent(Error(true, partial), 0), k)
    else
      var r := RelayFrom(tries[k].events, [], room);
      Settle(tries, k, r.ending, out + Tag(r.out, k + 1), r.room, partial)
  }

  /** What follows from the ending of attempt `k`, once its frames are sent. */
  function Settle(tries: seq<Try>, k: nat, ending: Ending, sent: seq<Sent>, room: nat, partial: string): Turn
    requires k < |tries|
    decreases |tries| - k, 0
  {
    var t := tries[k];
    match ending
    case ProviderDone => Turn(sent, false, k + 1)
    case CallerGone => Turn(sent, true, k + 1)
    case Aborted(p) => Finish(sent, room, Sent(Done(p), 0), k + 1)
    case ProviderError(f, forwarded, delivered) =>
      if RetriesError(t, k, |tries|, ending) then
        if t.abortedInBackoff then Finish(sent, room, Sent(Done(partial), 0), k + 1)
        else TurnFrom(tries, k + 1, sent, room, partial)
      else if delivered then Turn(sent, false, k + 1)
      else Finish(sent, room, Sent(f, k + 1), k + 1)
    case NoTerminal(idle, p, forwarded) =>
      if !forwarded && t.failed.Some? && !t.failed.value.Other? then
        Finish(sent, room, Sent(Error(t.failed != Some(Final(false)), p), 0), k + 1)
      else if RetriesSilence(t, k, |tries|, ending) then
        if t.abortedInBackoff then Finish(sent, room, Sent(Done(p), 0), k + 1)
        else TurnFrom(tries, k + 1, sent, room, p)
      else Finish(sent, room, Sent(Error(true, p), 0), k + 1)
  }

  // ------------------------------------------------------------ what every turn promises

  ghost predicate OnlyPings(out: seq<Sent>) {
    forall i :: 0 <= i < |out| ==> out[i].frame.Ping?
  }

  ghost predicate NoneEnds(out: seq<Sent>) {
    forall i :: 0 <= i < |out| ==> !out[i].frame.Terminal()
  }

  /** Frames other than pings come from the one attempt, or from the router. */
  ghost predicate FromOne(out: seq<Sent>, attempt: nat) {
    forall i :: 0 <= i < |out| && !out[i].frame.Ping? ==> out[i].attempt == attempt || out[i].attempt == 0
  }

  /** The content the caller received. */
  function TextOf(out: seq<Sent>): string {
    if out == [] then ""
    else TextOf(out[..|out| - 1]) + (if out[|out| - 1].frame.Content? then out[|out| - 1].frame.text else "")
  }

  lemma {:induction false} TextAfterPings(pings: seq<Sent>, out: seq<Frame>, attempt: nat)
    requires OnlyPings(pings)
    ensures TextOf(pings + Tag(out, attempt)) == Text(out)
    decreases |pings| + |out|
  {
    if out != [] {
      var init := out[..|out| - 1];
      TextAfterPings(pings, init, attempt);
      var all := pings + Tag(out, attempt);
      assert all[..|all| - 1] == pings + Tag(init, attempt);
    } else if pings != [] {
      TextAfterPings(pings[..|pings| - 1], [], attempt);
      assert pings[..|pings| - 1] + Tag([], attempt) == pings[..|pings| - 1];
      assert pings + Tag(out, attempt) == pings;
    }
  }

  /** A finished turn. */
  ghost predicate Good(t: Turn, attempt: nat) {
    && FromOne(t.out, attempt)
    && (t.gone ==> NoneEnds(t.out))
    && (!t.gone ==>
          && |t.out| > 0 && t.out[|t.out| - 1].frame.Terminal() && NoneEnds(t.out[..|t.out| - 1])
          && (t.out[|t.out| - 1].attempt == 0 ==> t.out[|t.out| - 1].frame.text == TextOf(t.out[..|t.out| - 1])))
  }

  lemma FinishGood(out: seq<Sent>, room: nat, last: Sent, n: nat, attempt: nat)
    requires FromOne(out, attempt) && NoneEnds(out) && last.frame.Terminal()
    requires last.attempt == 0 || last.attempt == attempt
    requires last.attempt == 0 ==> last.frame.text == TextOf(out)
    ensures Good(Finish(out, room, last, n), attempt)
  {
    assert (out + [last])[..|out|] == out;
  }

  lemma SentShape(out: seq<Sent>, r: Relayed, attempt: nat)
    requires OnlyPings(out) && Shape(r)
    ensures var sent := out + Tag(r.out, attempt);
      && FromOne(sent, attempt)
      && TextOf(sent) == Text(r.out)
      && (!(r.ending.ProviderDone? || (r.ending.ProviderError? && r.ending.sent)) ==> NoneEnds(sent))
      && (r.ending.ProviderDone? || (r.ending.ProviderError? && r.ending.sent) ==>
            |sent| > 0 && sent[|sent| - 1] == Sent(r.out[|r.out| - 1], attempt) && NoneEnds(sent[..|sent| - 1]))
      && (!Forwarded(r.out) ==> OnlyPings(sent))
  {
    TextAfterPings(out, r.out, attempt);
    var sent := out + Tag(r.out, attempt);
    forall i | 0 <= i < |sent| ensures i >= |out| ==> sent[i] == Sent(r.out[i - |out|], attempt) {
    }
  }

  lemma {:induction false} PingsSayNothing(out: seq<Sent>)
    requires OnlyPings(out)
    ensures TextOf(out) == ""
  {
    if out != [] { PingsSayNothing(out[..|out| - 1]); }
  }

  lemma {:induction false} SilentText(out: seq<Frame>)
    requires !Forwarded(out)
    ensures Text(out) == ""
  {
    if out != [] { SilentText(out[..|out| - 1]); }
  }

  /** A turn that has sent only pings so far ends well. */
  lemma {:induction false} TurnGood(tries: seq<Try>, k: nat, out: seq<Sent>, room: nat) returns (attempt: nat)
    requires k <= |tries| && OnlyPings(out)
    ensures Good(TurnFrom(tries, k, out, room, ""), attempt)
    ensures TurnFrom(tries, k, out, room, "").dispatches <= |tries|
    decreases |tries| - k, 1
  {
    attempt := k + 1;
    PingsSayNothing(out);
    if k == |tries| || tries[k].abortedBefore {
      FinishGood(out, room, Sent(Done(""), 0), k, attempt);
    } else if !tries[k].admission.Admitted? {
      FinishGood(out, room, Sent(Error(true, ""), 0), k, attempt);
    } else {
      RelayShape(tries[k].events, [], room);
      var r := RelayFrom(tries[k].events, [], room);
      SentShape(out, r, k + 1);
      if !Forwarded(r.out) { SilentText(r.out); }
      attempt := SettleGood(tries, k, r, out + Tag(r.out, k + 1));
    }
  }

  /** What is known of an attempt's frames once they are sent. */
  ghost predicate SentSo(r: Relayed, sent: seq<Sent>, attempt: nat) {
    && Shape(r) && FromOne(sent, attempt) && TextOf(sent) == Text(r.out)
    && (!Forwarded(r.out) ==> OnlyPings(sent) && Text(r.out) == "")
    && if r.ending.ProviderDone? || (r.ending.ProviderError? && r.ending.sent)
       then |sent| > 0 && sent[|sent| - 1] == Sent(r.out[|r.out| - 1], attempt) && NoneEnds(sent[..|sent| - 1])
       else NoneEnds(sent)
  }

  lemma {:induction false} SettleGood(tries: seq<Try>, k: nat, r: Relayed, sent: seq<Sent>) returns (attempt: nat)
    requires k < |tries| && SentSo(r, sent, k + 1)
    ensures Good(Settle(tries, k, r.ending, sent, r.room, ""), attempt)
    ensures Settle(tries, k, r.ending, sent, r.room, "").dispatches <= |tries|
    decreases |tries| - k, 0
  {
    attempt := k + 1;
    if r.ending.Aborted? {
      FinishGood(sent, r.room, Sent(Done(r.ending.partial), 0), k + 1, attempt);
    } else if (RetriesError(tries[k], k, |tries|, r.ending) || RetriesSilence(tries[k], k, |tries|, r.ending))
              && !tries[k].abortedInBackoff &&
                !(r.ending.NoTerminal? && tries[k].failed.Some? && !tries[k].failed.value.Other?) {
      attempt := TurnGood(tries, k + 1, sent, r.room);
    } else if r.ending.ProviderError? {
      ErrorGood(tries, k, r, sent);
    } else if r.ending.NoTerminal? {
      SilenceGood(tries, k, r, sent);
    }
  }

  /** An error frame that ends the turn. */
  lemma ErrorGood(tries: seq<Try>, k: nat, r: Relayed, sent: seq<Sent>)
    requires k < |tries| && SentSo(r, sent, k + 1) && r.ending.ProviderError?
    requires RetriesError(tries[k], k, |tries|, r.ending) ==> tries[k].abortedInBackoff
    ensures Good(Settle(tries, k, r.ending, sent, r.room, ""), k + 1)
    ensures Settle(tries, k, r.ending, sent, r.room, "").dispatches <= |tries|
  {
    if RetriesError(tries[k], k, |tries|, r.ending) {
      FinishGood(sent, r.room, Sent(Done(""), 0), k + 1, k + 1);
    } else if !r.ending.sent {
      FinishGood(sent, r.room, Sent(r.ending.frame, k + 1), k + 1, k + 1);
    }
  }

  /** A stream without a terminal frame that ends the turn. */
  lemma SilenceGood(tries: seq<Try>, k: nat, r: Relayed, sent: seq<Sent>)
    requires k < |tries| && SentSo(r, sent, k + 1) && r.ending.NoTerminal?
    requires RetriesSilence(tries[k], k, |tries|, r.ending) ==>
      tries[k].abortedInBackoff || (tries[k].failed.Some? && !tries[k].failed.value.Other?)
    ensures Good(Settle(tries, k, r.ending, sent, r.room, ""), k + 1)
    ensures Settle(tries, k, r.ending, sent, r.room, "").dispatches <= |tries|
  {
    FinishGood(sent, r.room, Sent(Error(true, r.ending.partial), 0), k + 1, k + 1);
    FinishGood(sent, r.room, Sent(Error(false, r.ending.partial), 0), k + 1, k + 1);
    FinishGood(sent, r.room, Sent(Done(r.ending.partial), 0), k + 1, k + 1);
  }

  /** A turn with the retries the configuration and the caller allow. */
  function Chat(configured: nat, requested: Option<nat>, tries: seq<Try>, room: nat): Turn
    requires |tries| == Attempts(configured, requested)
  {
    TurnFrom(tries, 0, [], room, "")
  }

  /**
   Every stream ends with exactly one terminal frame, the last one, unless the caller is gone,
   in which case it saw none. Frames other than pings come from one attempt. A terminal frame
   made up by the router carries exactly the content the caller received. No more dispatches
   are made than one plus the smaller of the configured and the requested retries.
   */
  lemma OneTerminal(configured: nat, requested: Option<nat>, tries: seq<Try>, room: nat)
    requires |tries| == Attempts(configured, requested)
    ensures var t := Chat(configured, requested, tries, room);
      && (exists attempt :: Good(t, attempt))
      && t.dispatches <= 1 + configured
      && (requested.Some? ==> t.dispatches <= 1 + requested.value)
  {
    var attempt := TurnGood(tries, 0, [], room);
    assert Good(Chat(configured, requested, tries, room), attempt);
  }

  // ------------------------------------------------------------ frames of two attempts

  /** The room the caller has left before attempt `k`, every attempt before it having been made. */
  function RoomBefore(tries: seq<Try>, k: nat, room: nat): nat
    requires k <= |tries|
  {
    if k == 0 then room else RelayFrom(tries[k - 1].events, [], RoomBefore(tries, k - 1, room)).room
  }

  /** What attempt `k` relays, if it is made. */
  function Attempt(tries: seq<Try>, k: nat, room: nat): Relayed
    requires k < |tries|
  {
    RelayFrom(tries[k].events, [], RoomBefore(tries, k, room))
  }

  /** Another attempt follows one with this ending. */
  predicate Retried(tries: seq<Try>, k: nat, e: Ending)
    requires k < |tries|
  {
    var t := tries[k];
    !t.abortedInBackoff &&
    (RetriesError(t, k, |tries|, e) ||
     (RetriesSilence(t, k, |tries|, e) && !(t.failed.Some? && !t.failed.value.Other?)))
  }

  predicate Starts(t: Try) {
    !t.abortedBefore && t.admission.Admitted?
  }

  predicate RetriedAt(tries: seq<Try>, k: nat, room: nat)
    requires k < |tries|
  {
    Starts(tries[k]) && Retried(tries, k, Attempt(tries, k, room).ending)
  }

  /** Every attempt before `k` is made and retried. */
  predicate RetriedUpTo(tries: seq<Try>, k: nat, room: nat)
    requires k <= |tries|
  {
    forall i :: 0 <= i < k ==> RetriedAt(tries, i, room)
  }

  /** An error that was held back and is sent in the end, the attempt not being retried. */
  predicate HeldBack(tries: seq<Try>, k: nat, r: Relayed)
    requires k < |tries|
  {
    r.ending.ProviderError? && !r.ending.sent && r.room > 0 && !RetriesError(tries[k], k, |tries|, r.ending)
  }

  /** Attempt `k` is made and sends the caller a frame of its provider. */
  predicate SendsFrame(tries: seq<Try>, k: nat, room: nat) {
    k < |tries| && RetriedUpTo(tries, k, room) && Starts(tries[k]) &&
    (Attempt(tries, k, room).out != [] || HeldBack(tries, k, Attempt(tries, k, room)))
  }

  /** A frame of this attempt is among those sent. */
  predicate Has(out: seq<Sent>, attempt: nat) {
    out != [] && (out[|out| - 1].attempt == attempt || Has(out[..|out| - 1], attempt))
  }

  lemma {:induction false} HasMore(out: seq<Sent>, more: seq<Sent>, attempt: nat)
    ensures Has(out + more, attempt) <==> Has(out, attempt) || Has(more, attempt)
  {
    if more == [] {
      assert out + more == out;
    } else {
      HasMore(out, more[..|more| - 1], attempt);
      assert (out + more)[..|out| + |more| - 1] == out + more[..|more| - 1];
    }
  }

  lemma FinishHas(out: seq<Sent>, room: nat, last: Sent, n: nat, attempt: nat)
    ensures Has(Finish(out, room, last, n).out, attempt) <==> Has(out, attempt) || (room > 0 && last.attempt == attempt)
  {
    assert (out + [last])[..|out|] == out;
  }

  lemma {:induction false} TagHas(out: seq<Frame>, n: nat, attempt: nat)
    ensures Has(Tag(out, n), attempt) <==> out != [] && n == attempt
  {
    if out != [] {
      TagHas(out[..|out| - 1], n, attempt);
      assert Tag(out, n)[..|out| - 1] == Tag(out[..|out| - 1], n);
    }
  }

  /** Whether an attempt's frames are among those a turn sends from attempt `k` on. */
  lemma {:induction false} TurnHas(
    tries: seq<Try>, k: nat, out: seq<Sent>, room: nat, partial: string, m: nat)
    requires k <= |tries| && RetriedUpTo(tries, k, room)
    ensures Has(TurnFrom(tries, k, out, RoomBefore(tries, k, room), partial).out, m + 1) <==>
      Has(out, m + 1) || (k <= m && SendsFrame(tries, m, room))
    decreases |tries| - k, 1
  {
    var left := RoomBefore(tries, k, room);
    if k == |tries| || tries[k].abortedBefore {
      FinishHas(out, left, Sent(Done(partial), 0), k, m + 1);
      NotStarted(tries, k, room, m);
    } else if !tries[k].admission.Admitted? {
      FinishHas(out, left, Sent(Error(true, partial), 0), k, m + 1);
      NotStarted(tries, k, room, m);
    } else {
      var r := Attempt(tries, k, room);
      HasMore(out, Tag(r.out, k + 1), m + 1);
      TagHas(r.out, k + 1, m + 1);
      SettleHas(tries, k, out + Tag(r.out, k + 1), room, partial, m);
    }
  }

  lemma {:induction false} SettleHas(
    tries: seq<Try>, k: nat, sent: seq<Sent>, room: nat, partial: string, m: nat)
    requires k < |tries| && RetriedUpTo(tries, k, room) && Starts(tries[k])
    ensures var r := Attempt(tries, k, room);
      Has(Settle(tries, k, r.ending, sent, r.room, partial).out, m + 1) <==>
      Has(sent, m + 1) || (k == m && HeldBack(tries, k, r)) || (k < m && SendsFrame(tries, m, room))
    decreases |tries| - k, 0
  {
    var r := Attempt(tries, k, room);
    if Retried(tries, k, r.ending) {
      var next := if r.ending.NoTerminal? then r.ending.partial else partial;
      RetriedGoesOn(tries, k, r, sent, partial);
      OneMoreRetried(tries, k, room);
      TurnHas(tries, k + 1, sent, room, next, m);
    } else {
      StopsHas(tries, k, r, sent, partial, m);
      NothingAfter(tries, k, room, m);
    }
  }

  lemma OneMoreRetried(tries: seq<Try>, k: nat, room: nat)
    requires k < |tries| && RetriedUpTo(tries, k, room) && Starts(tries[k])
    requires Retried(tries, k, Attempt(tries, k, room).ending)
    ensures RetriedUpTo(tries, k + 1, room) == true
    ensures RoomBefore(tries, k + 1, room) == Attempt(tries, k, room).room
  {
  }

  lemma NotStarted(tries: seq<Try>, k: nat, room: nat, m: nat)
    requires k < |tries| ==> !Starts(tries[k])
    ensures !(k <= m && SendsFrame(tries, m, room))
  {
    assert k < |tries| ==> !RetriedAt(tries, k, room);
  }

  /** An attempt that is not retried is the last. */
  lemma NothingAfter(tries: seq<Try>, k: nat, room: nat, m: nat)
    requires k < |tries| && !Retried(tries, k, Attempt(tries, k, room).ending)
    ensures !(k < m && SendsFrame(tries, m, room))
  {
    assert !RetriedAt(tries, k, room);
  }

  lemma RetriedGoesOn(tries: seq<Try>, k: nat, r: Relayed, sent: seq<Sent>, partial: string)
    requires k < |tries| && Retried(tries, k, r.ending)
    ensures k + 1 < |tries| && !HeldBack(tries, k, r)
    ensures Settle(tries, k, r.ending, sent, r.room, partial) ==
      TurnFrom(tries, k + 1, sent, r.room, if r.ending.NoTerminal? then r.ending.partial else partial)
  {
  }

  /** An attempt that is not retried adds its held-back error, if there is one, and nothing follows. */
  lemma StopsHas(tries: seq<Try>, k: nat, r: Relayed, sent: seq<Sent>, partial: string, m: nat)
    requires k < |tries| && !Retried(tries, k, r.ending)
    ensures Has(Settle(tries, k, r.ending, sent, r.room, partial).out, m + 1) <==>
      Has(sent, m + 1) || (k == m && HeldBack(tries, k, r))
  {
    if r.ending.Aborted? {
      FinishHas(sent, r.room, Sent(Done(r.ending.partial), 0), k + 1, m + 1);
    } else if r.ending.ProviderError? {
      ErrorStopsHas(tries, k, r, sent, partial, m);
    } else if r.ending.NoTerminal? {
      SilenceStopsHas(tries, k, r, sent, partial, m);
    }
  }

  lemma SilenceStopsHas(tries: seq<Try>, k: nat, r: Relayed, sent: seq<Sent>, partial: string, m: nat)
    requires k < |tries| && !Retried(tries, k, r.ending) && r.ending.NoTerminal?
    ensures Has(Settle(tries, k, r.ending, sent, r.room, partial).out, m + 1) <==> Has(sent, m + 1)
  {
    var turn := Settle(tries, k, r.ending, sent, r.room, partial);
    if turn.out != sent {
      assert turn.out == sent + [turn.out[|sent|]] && turn.out[|sent|].attempt == 0;
      FinishHas(sent, r.room, turn.out[|sent|], k + 1, m + 1);
    }
  }

  lemma ErrorStopsHas(tries: seq<Try>, k: nat, r: Relayed, sent: seq<Sent>, partial: string, m: nat)
    requires k < |tries| && !Retried(tries, k, r.ending) && r.ending.ProviderError?
    ensures Has(Settle(tries, k, r.ending, sent, r.room, partial).out, m + 1) <==>
      Has(sent, m + 1) || (k == m && HeldBack(tries, k, r))
  {
    if RetriesError(tries[k], k, |tries|, r.ending) {
      FinishHas(sent, r.room, Sent(Done(partial), 0), k + 1, m + 1);
    } else {
      FinishHas(sent, r.room, Sent(r.ending.frame, k + 1), k + 1, m + 1);
    }
  }

  /** The caller sees frames of two provider attempts. */
  ghost predicate OfTwoAttempts(out: seq<Sent>) {
    exists p: nat, q: nat :: 0 < p < q && Has(out, p) && Has(out, q)
  }

  /** Attempts that are made and retried have forwarded nothing but pings. */
  lemma RetriedPings(tries: seq<Try>, k: nat, room: nat)
    requires k < |tries| && Retried(tries, k, Attempt(tries, k, room).ending)
    ensures forall f :: f in Attempt(tries, k, room).out ==> f.Ping?
    ensures !HeldBack(tries, k, Attempt(tries, k, room))
  {
    RelayShape(tries[k].events, [], RoomBefore(tries, k, room));
  }

  /**
   The caller sees frames of two attempts exactly if an attempt that is retried forwarded a ping
   and a later attempt sends a frame, be it the error that was held back.
   */
  lemma TwoAttemptsExactly(configured: nat, requested: Option<nat>, tries: seq<Try>, room: nat)
    requires |tries| == Attempts(configured, requested)
    ensures OfTwoAttempts(Chat(configured, requested, tries, room).out) <==>
      exists a, b :: 0 <= a < b < |tries| && Ping in Attempt(tries, a, room).out && SendsFrame(tries, b, room)
  {
    var out := Chat(configured, requested, tries, room).out;
    if OfTwoAttempts(out) {
      var p: nat, q: nat :| 0 < p < q && Has(out, p) && Has(out, q);
      ChatHas(configured, requested, tries, room, p - 1);
      ChatHas(configured, requested, tries, room, q - 1);
      EarlierPings(tries, p - 1, q - 1, room);
    }
    if a, b :| 0 <= a < b < |tries| && Ping in Attempt(tries, a, room).out && SendsFrame(tries, b, room) {
      assert RetriedAt(tries, a, room) && RetriedUpTo(tries, a, room);
      ChatHas(configured, requested, tries, room, a);
      ChatHas(configured, requested, tries, room, b);
    }
  }

  lemma ChatHas(configured: nat, requested: Option<nat>, tries: seq<Try>, room: nat, m: nat)
    requires |tries| == Attempts(configured, requested)
    ensures Has(Chat(configured, requested, tries, room).out, m + 1) <==> SendsFrame(tries, m, room)
  {
    TurnHas(tries, 0, [], room, "", m);
  }

  lemma EarlierPings(tries: seq<Try>, a: nat, b: nat, room: nat)
    requires a < b && SendsFrame(tries, a, room) && SendsFrame(tries, b, room)
    ensures Ping in Attempt(tries, a, room).out
  {
    var r := Attempt(tries, a, room);
    assert RetriedAt(tries, a, room);
    RetriedPings(tries, a, room);
    assert r.out != [] && r.out[0] in r.out;
  }

  /** Pings are the exception: those of an attempt that is then retried reach the caller too. */
  lemma PingsOfTwoAttempts(text: string) returns (tries: seq<Try>)
    ensures |tries| == 2
    ensures Chat(1, None, tries, 3).out == [Sent(Ping, 1), Sent(Content(text), 2), Sent(Done(text), 2)]
  {
    var first := Try(false, Admitted, [Event(Msg(Some(Ping)), false), Event(Eof, false)], None, false, false);
    var second := Try(false, Admitted, [Event(Msg(Some(Content(text))), false), Event(Msg(Some(Done(text))), false)],
      None, false, false);
    tries := [first, second];
    assert first.events[1..] == [Event(Eof, false)];
    assert RelayFrom(first.events, [], 3) == Relayed([Ping], 2, NoTerminal(false, Text([Ping]), Forwarded([Ping]))) by {
      assert [] + [Ping] == [Ping];
    }
    assert !Forwarded([Ping]);
    assert Text([Ping]) == "";
    assert Tag([Ping], 1) == [Sent(Ping, 1)];
    assert second.events[1..] == [Event(Msg(Some(Done(text))), false)];
    var out := [Content(text), Done(text)];
    assert RelayFrom(second.events, [], 2) == Relayed(out, 0, ProviderDone) by {
      assert [] + [Content(text)] == [Content(text)] && [Content(text)] + [Done(text)] == out;
    }
    assert Tag(out, 2) == [Sent(Content(text), 2), Sent(Done(text), 2)];
    assert TurnFrom(tries, 1, [Sent(Ping, 1)], 2, "") == Turn([Sent(Ping, 1)] + Tag(out, 2), false, 2);
    assert [] + Tag([Ping], 1) == [Sent(Ping, 1)];
    var silent := NoTerminal(false, "", false);
    assert TurnFrom(tries, 0, [], 3, "") == Settle(tries, 0, silent, [Sent(Ping, 1)], 2, "");
    assert RetriesSilence(first, 0, 2, silent);
  }

  // ------------------------------------------------------------ how an attempt ends, by the events it reads

  /** The attempt stops at this event, `passed` frames having been forwarded. */
  predicate StopsAt(e: Event, passed: nat, room: nat) {
    e.aborted || !e.read.Msg? || (e.read.frame.Some? && (e.read.frame.value.Terminal() || passed == room))
  }

  /** The first event at which the attempt stops. */
  ghost predicate FirstStop(events: seq<Event>, n: nat, room: nat) {
    && n <= |events|
    && (forall i :: 0 <= i < n ==> !StopsAt(events[i], |Frames(events[..i])|, room))
    && (n < |events| ==> StopsAt(events[n], |Frames(events[..n])|, room))
  }

  ghost predicate JustPings(out: seq<Frame>) {
    forall i :: 0 <= i < |out| ==> out[i].Ping?
  }

  /** What the attempt hands on, by the event it stops at. */
  ghost predicate EndsAt(events: seq<Event>, n: nat, room: nat, r: Relayed)
    requires n <= |events|
  {
    var passed := Frames(events[..n]);
    var own := n < |events| && !events[n].aborted && events[n].read.Msg? && events[n].read.frame.Some?;
    && |r.out| <= room && r.room == room - |r.out|
    && (!own ==> r.out == passed)
    && (r.ending.Aborted? <==> n < |events| && events[n].aborted)
    && (r.ending.Aborted? ==> r.ending.partial == Text(passed))
    && (r.ending.NoTerminal? <==> n == |events| || (!events[n].aborted && !events[n].read.Msg?))
    && (r.ending.NoTerminal? ==>
          && r.ending.partial == Text(passed) && (r.ending.forwarded <==> !JustPings(passed))
          && (r.ending.idle <==> n < |events| && events[n].read.Timeout?))
    && (own ==> EndsWith(passed, events[n].read.frame.value, room, r))
  }

  /** An error before anything but pings is held back; any other frame needs room; the terminal frame is the last. */
  ghost predicate EndsWith(passed: seq<Frame>, f: Frame, room: nat, r: Relayed) {
    if f.Error? && JustPings(passed) then r.out == passed && r.ending == ProviderError(f, false, false)
    else if |passed| == room then r.out == passed && r.ending == CallerGone
    else r.out == passed + [f] && r.ending == if f.Done? then ProviderDone else ProviderError(f, true, true)
  }

  lemma ForwardedIs(out: seq<Frame>)
    ensures Forwarded(out) <==> !JustPings(out)
  {
  }

  /** An attempt that stops at a frame of the provider. */
  lemma StopsWith(events: seq<Event>, passed: seq<Frame>, room: nat)
    requires |passed| <= room && events != [] && StopsAt(events[0], |passed|, room)
    requires !events[0].aborted && events[0].read.Msg?
    ensures var r := RelayFrom(events, passed, room - |passed|);
      EndsWith(passed, events[0].read.frame.value, room, r) && |r.out| <= room && r.room == room - |r.out|
  {
    ForwardedIs(passed);
  }

  lemma WithIsOwn(passed: seq<Frame>, f: Frame, room: nat, r: Relayed)
    requires EndsWith(passed, f, room, r)
    ensures !r.ending.Aborted? && !r.ending.NoTerminal?
  {
  }

  /** An attempt that stops at its next event. */
  lemma RelayStops(events: seq<Event>, k: nat, room: nat)
    requires k <= |events| && |Frames(events[..k])| <= room
    requires k < |events| ==> StopsAt(events[k], |Frames(events[..k])|, room)
    ensures var passed := Frames(events[..k]);
      EndsAt(events, k, room, RelayFrom(events[k..], passed, room - |passed|))
  {
    var passed := Frames(events[..k]);
    var r := RelayFrom(events[k..], passed, room - |passed|);
    if k < |events| && !events[k].aborted && events[k].read.Msg? {
      assert events[k..][0] == events[k];
      StopsWith(events[k..], passed, room);
      WithIsOwn(passed, events[k].read.frame.value, room, r);
    } else {
      ForwardedIs(passed);
      if k < |events| { assert events[k..][0] == events[k]; }
    }
  }

  lemma {:induction false} RelayEnds(events: seq<Event>, k: nat, room: nat) returns (n: nat)
    requires k <= |events| && |Frames(events[..k])| <= room
    requires forall i :: 0 <= i < k ==> !StopsAt(events[i], |Frames(events[..i])|, room)
    ensures FirstStop(events, n, room)
    ensures var passed := Frames(events[..k]);
      EndsAt(events, n, room, RelayFrom(events[k..], passed, room - |passed|))
    decreases |events| - k
  {
    n := k;
    if k == |events| || StopsAt(events[k], |Frames(events[..k])|, room) {
      RelayStops(events, k, room);
    } else {
      RelayPasses(events, k, room);
      n := RelayEnds(events, k + 1, room);
    }
  }

  lemma RelayPasses(events: seq<Event>, k: nat, room: nat)
    requires k < |events| && |Frames(events[..k])| <= room
    requires !StopsAt(events[k], |Frames(events[..k])|, room)
    ensures var passed, next := Frames(events[..k]), Frames(events[..k + 1]);
      && |next| <= room
      && RelayFrom(events[k..], passed, room - |passed|) == RelayFrom(events[k + 1..], next, room - |next|)
  {
    assert events[k..][0] == events[k] && events[k..][1..] == events[k + 1..];
    assert events[..k + 1][..k] == events[..k];
    if events[k].read.frame.None? { assert Frames(events[..k]) + [] == Frames(events[..k]); }
  }

  /** One attempt, exactly: it stops at the first event that ends it, and that event says how. */
  lemma AttemptEnds(events: seq<Event>, room: nat) returns (n: nat)
    ensures FirstStop(events, n, room) && EndsAt(events, n, room, RelayFrom(events, [], room))
  {
    assert events[..0] == [] && events[0..] == events;
    n := RelayEnds(events, 0, room);
  }

  // ------------------------------------------------------------ how a turn ends, by the attempt it ends in

  /** Another attempt is due: only pings were forwarded, the failure may pass, and attempts are left. */
  ghost predicate TriesAgain(t: Try, r: Relayed, last: bool) {
    && !last && !t.abortedAfter && JustPings(r.out)
    && if r.ending.ProviderError? then r.ending.frame.Error? && r.ending.frame.retryable
       else r.ending.NoTerminal? && !r.ending.idle && (t.failed.None? || t.failed == Some(Other))
  }

  ghost predicate GoesOn(tries: seq<Try>, k: nat, room: nat)
    requires k < |tries|
  {
    var t := tries[k];
    && !t.abortedBefore && t.admission == Admitted && !t.abortedInBackoff
    && TriesAgain(t, Attempt(tries, k, room), k + 1 == |tries|)
  }

  /** The turn was aborted before the attempt, while it streamed, or while the turn waited to try again. */
  ghost predicate AbortedIn(t: Try, r: Relayed, last: bool) {
    t.abortedBefore
    || (t.admission == Admitted && (r.ending.Aborted? || (t.abortedInBackoff && TriesAgain(t, r, last))))
  }

  /** The attempt got no stream, or one that ended without a terminal frame. */
  ghost predicate BrokeOff(t: Try, r: Relayed) {
    t.admission != Admitted || r.ending.NoTerminal?
  }

  /** A dispatch the engine refused for good is reported as such; every other break may be tried again. */
  predicate RefusedForGood(t: Try, r: Relayed) {
    t.admission == Admitted && t.failed == Some(Final(false)) && r.ending.NoTerminal? && !r.ending.forwarded
  }

  /** The frames of the attempts before `k`. */
  function SentBefore(tries: seq<Try>, k: nat, room: nat): seq<Sent>
    requires k <= |tries|
  {
    if k == 0 then [] else SentBefore(tries, k - 1, room) + Tag(Attempt(tries, k - 1, room).out, k)
  }

  /** What the caller has before the router adds anything to attempt `k`. */
  function Relays(tries: seq<Try>, k: nat, room: nat): seq<Sent>
    requires k < |tries|
  {
    if Starts(tries[k]) then SentBefore(tries, k + 1, room) else SentBefore(tries, k, room)
  }

  function RoomLeft(tries: seq<Try>, k: nat, room: nat): nat
    requires k < |tries|
  {
    if Starts(tries[k]) then RoomBefore(tries, k + 1, room) else RoomBefore(tries, k, room)
  }

  /** The turn ends in attempt `k`, with this outcome. */
  ghost predicate EndsIn(tries: seq<Try>, k: nat, room: nat, turn: Turn)
    requires k < |tries|
  {
    var t, r := tries[k], Attempt(tries, k, room);
    var aborted := AbortedIn(t, r, k + 1 == |tries|);
    var relayed := Relays(tries, k, room);
    var delivered := Starts(t) && (r.ending.ProviderDone? || (r.ending.ProviderError? && r.ending.sent));
    && turn.dispatches == (if Starts(t) then k + 1 else k)
    && (turn.gone <==> !delivered && ((Starts(t) && r.ending.CallerGone?) || RoomLeft(tries, k, room) == 0))
    && (turn.gone || delivered ==> turn.out == relayed)
    && (!turn.gone && !delivered ==>
          && |turn.out| == |relayed| + 1 && turn.out[..|relayed|] == relayed
          && Closes(t, k, r, aborted, turn.out[|relayed|]))
  }

  /** The frame that closes a stream the provider did not close. */
  ghost predicate Closes(t: Try, k: nat, r: Relayed, aborted: bool, last: Sent) {
    && (last.attempt == 0 && last.frame.Done? <==> aborted)
    && (last.attempt == 0 && last.frame.Error? <==> !aborted && BrokeOff(t, r))
    && (last.attempt == 0 && last.frame.Error? ==> last.frame.retryable == !RefusedForGood(t, r))
    && (!aborted && !BrokeOff(t, r) ==> r.ending.ProviderError? && last == Sent(r.ending.frame, k + 1))
  }

  /** The retries the loop makes are those that are due. */
  lemma DueIs(tries: seq<Try>, k: nat, room: nat)
    requires k < |tries| && Starts(tries[k])
    ensures var t, r := tries[k], Attempt(tries, k, room);
      TriesAgain(t, r, k + 1 == |tries|) <==>
        || RetriesError(t, k, |tries|, r.ending)
        || (RetriesSilence(t, k, |tries|, r.ending) && !(t.failed.Some? && !t.failed.value.Other?))
  {
    var r := Attempt(tries, k, room);
    RelayShape(tries[k].events, [], RoomBefore(tries, k, room));
    ForwardedIs(r.out);
    if r.ending.ProviderError? && r.ending.sent {
      assert !r.out[|r.out| - 1].Ping?;
    }
  }

  lemma StopsEnd(tries: seq<Try>, k: nat, room: nat)
    requires k < |tries| && !GoesOn(tries, k, room)
    ensures EndsIn(tries, k, room, TurnFrom(tries, k, SentBefore(tries, k, room), RoomBefore(tries, k, room), ""))
  {
    var out := SentBefore(tries, k, room);
    if Starts(tries[k]) {
      var r := Attempt(tries, k, room);
      RelayShape(tries[k].events, [], RoomBefore(tries, k, room));
      DueIs(tries, k, room);
      SettleEnds(tries, k, room, out + Tag(r.out, k + 1));
    }
  }

  lemma SettleEnds(tries: seq<Try>, k: nat, room: nat, sent: seq<Sent>)
    requires k < |tries| && Starts(tries[k]) && !GoesOn(tries, k, room) && sent == Relays(tries, k, room)
    requires Shape(Attempt(tries, k, room))
    requires var t, r := tries[k], Attempt(tries, k, room);
      TriesAgain(t, r, k + 1 == |tries|) <==>
        || RetriesError(t, k, |tries|, r.ending)
        || (RetriesSilence(t, k, |tries|, r.ending) && !(t.failed.Some? && !t.failed.value.Other?))
    ensures var r := Attempt(tries, k, room); EndsIn(tries, k, room, Settle(tries, k, r.ending, sent, r.room, ""))
  {
  }

  /** A retried attempt leaves the turn as it would be with one attempt fewer to go. */
  lemma GoesOnStep(tries: seq<Try>, k: nat, room: nat)
    requires k < |tries| && GoesOn(tries, k, room)
    ensures k + 1 < |tries|
    ensures TurnFrom(tries, k, SentBefore(tries, k, room), RoomBefore(tries, k, room), "") ==
      TurnFrom(tries, k + 1, SentBefore(tries, k + 1, room), RoomBefore(tries, k + 1, room), "")
  {
    DueIs(tries, k, room);
    var r := Attempt(tries, k, room);
    RelayShape(tries[k].events, [], RoomBefore(tries, k, room));
    ForwardedIs(r.out);
    SilentText(r.out);
    RetriedGoesOn(tries, k, r, SentBefore(tries, k + 1, room), "");
  }

  lemma {:induction false} TurnEndsFrom(tries: seq<Try>, k: nat, room: nat) returns (end: nat)
    requires k < |tries| && (forall i :: 0 <= i < k ==> GoesOn(tries, i, room))
    ensures end < |tries| && !GoesOn(tries, end, room) && (forall i :: 0 <= i < end ==> GoesOn(tries, i, room))
    ensures EndsIn(tries, end, room,
      TurnFrom(tries, k, SentBefore(tries, k, room), RoomBefore(tries, k, room), ""))
    decreases |tries| - k
  {
    if GoesOn(tries, k, room) {
      GoesOnStep(tries, k, room);
      end := TurnEndsFrom(tries, k + 1, room);
    } else {
      end := k;
      StopsEnd(tries, k, room);
    }
  }

  /**
   A whole turn, on what its attempts met. Every attempt that is due again is followed by another, and
   the turn ends in the first that is not: the caller has all that was relayed, then, unless the
   provider closed the stream or the caller is gone, one more frame. That frame is a Done
   of the router exactly if the turn was aborted, an Error of the router exactly if the
   stream broke off otherwise, and the provider's own error in the remaining case.
   */
  lemma TurnEnds(configured: nat, requested: Option<nat>, tries: seq<Try>, room: nat) returns (end: nat)
    requires |tries| == Attempts(configured, requested)
    ensures end < |tries| && !GoesOn(tries, end, room) && (forall i :: 0 <= i < end ==> GoesOn(tries, i, room))
    ensures EndsIn(tries, end, room, Chat(configured, requested, tries, room))
  {
    end := TurnEndsFrom(tries, 0, room);
  }

  /** The attempt loop. */
  method RunTurn(configured: nat, requested: Option<nat>, tries: seq<Try>, room: nat) returns (turn: Turn)
    requires |tries| == Attempts(configured, requested)
    ensures turn == Chat(configured, requested, tries, room)
  {
    var out: seq<Sent>, left, partial := [], room, "";
    var k := 0;
    while k < |tries|
      invariant 0 <= k <= |tries|
      invariant TurnFrom(tries, k, out, left, partial) == Chat(configured, requested, tries, room)
    {
      var t := tries[k];
      if t.abortedBefore { break; }
      if !t.admission.Admitted? { return Finish(out, left, Sent(Error(true, partial), 0), k); }
      var r := RelayFrames(t.events, left);
      ghost var whole := TurnFrom(tries, k, out, left, partial);
      ghost var was := partial;
      out, left, k := out + Tag(r.out, k + 1), r.room, k + 1;
      assert whole == Settle(tries, k - 1, r.ending, out, left, was);
      match r.ending {
      case ProviderDone => return Turn(out, false, k);
      case CallerGone => return Turn(out, true, k);
      case Aborted(p) => return Finish(out, left, Sent(Done(p), 0), k);
      case ProviderError(f, forwarded, sent) =>
        if !(!forwarded && f.Error? && f.retryable && k < |tries| && !t.abortedAfter) {
          if sent { return Turn(out, false, k); }
          return Finish(out, left, Sent(f, k), k);
        }
      case NoTerminal(idle, p, forwarded) =>
        partial := p;
        if !forwarded && t.failed.Some? && !t.failed.value.Other? {
          return Finish(out, left, Sent(Error(t.failed != Some(Final(false)), p), 0), k);
        }
        if forwarded || idle || k == |tries| || t.abortedAfter { return Finish(out, left, Sent(Error(true, p), 0), k); }
      }
      if t.abortedInBackoff { return Finish(out, left, Sent(Done(partial), 0), k); }
    }
    return Finish(out, left, Sent(Done(partial), 0), k);
  }
}
