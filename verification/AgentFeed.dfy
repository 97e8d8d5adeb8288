/**
 The consumer side of an agent event feed: per stream `(session, source, epoch)`
 a reorder buffer that restores the order of `seqNo`, drops duplicates, holds at
 most `MAX_PENDING_PER_STREAM` frames and gives up on a gap after
 `REORDER_WINDOW_MS`.

 `Offer` and `Flush` say what one delivery or one timer tick does to a stream;
 the class `Sequencer` carries them out in place over all streams. The theorems
 are about `Run`: any sequence of deliveries and ticks, in any order, with any
 loss, duplication and delay.
 */
module AgentFeed {
  import opened Options

  const REORDER_WINDOW_MS: nat := 250
  const MAX_PENDING_PER_STREAM: nat := 256

  datatype StreamKey = StreamKey(session: string, source: string, epoch: string)

  datatype Frame = Frame(key: StreamKey, seqNo: nat, event: string)

  datatype Stream = Stream(next: Option<nat>, pending: map<nat, Frame>, waitingSince: Option<nat>) {
    /** The least sequence number this stream still accepts. */
    function Expected(): nat {
      if next.Some? then next.value else 0
    }
  }

  const FRESH := Stream(None, map[], None)

  // ------------------------------------------------------------ one stream

  /** Pops `next`, `next + 1`, … for as long as they are buffered. */
  function Drain(next: nat, pending: map<nat, Frame>): (nat, map<nat, Frame>, seq<Frame>)
    decreases |pending|
  {
    if next in pending then
      var (n, left, out) := Drain(next + 1, pending - {next});
      (n, left, [pending[next]] + out)
    else
      (next, pending, [])
  }

  lemma HasLeast(s: set<nat>)
    requires s != {}
    ensures exists k :: k in s && forall j :: j in s ==> k <= j
  {
    var x :| x in s;
    LeastBelow(s, x);
  }

  lemma {:induction false} LeastBelow(s: set<nat>, x: nat)
    requires x in s
    ensures exists k :: k in s && forall j :: j in s ==> k <= j
    decreases x
  {
    if y :| y in s && y < x { LeastBelow(s, y); }
  }

  function Least(s: set<nat>): (k: nat)
    requires s != {}
    ensures k in s && forall j :: j in s ==> k <= j
  {
    HasLeast(s);
    var k :| k in s && forall j :: j in s ==> k <= j; k
  }

  /** The buffered frames, lowest sequence number first. */
  function Ascending(pending: map<nat, Frame>): (out: seq<Frame>)
    ensures |out| == |pending|
    decreases |pending|
  {
    if pending == map[] then []
    else
      var k := Least(pending.Keys);
      [pending[k]] + Ascending(pending - {k})
  }

  /** Gives up on the gap: everything buffered leaves in order. */
  function ReleaseAll(s: Stream): (Stream, seq<Frame>) {
    if s.pending == map[] then (s.(waitingSince := None), [])
    else
      var out := Ascending(s.pending);
      (Stream(Some(out[|out| - 1].seqNo + 1), map[], None), out)
  }

  function SettleWait(s: Stream, now: nat): Stream {
    if s.pending == map[] then s.(waitingSince := None)
    else if s.waitingSince.None? then s.(waitingSince := Some(now))
    else s
  }

  /** One delivery: the stream afterwards and the frames now ready. */
  function Offer(s: Stream, f: Frame, now: nat): (Stream, seq<Frame>) {
    if s.next.Some? && f.seqNo < s.next.value then (s, [])
    else if f.seqNo in s.pending then (s, [])
    else if f.seqNo == s.Expected() then
      var (n, left, out) := Drain(f.seqNo + 1, s.pending);
      (SettleWait(s.(next := Some(n), pending := left), now), [f] + out)
    else
      var held := s.(pending := s.pending[f.seqNo := f]);
      if |held.pending| > MAX_PENDING_PER_STREAM then
        var (r, out) := ReleaseAll(held); (SettleWait(r, now), out)
      else (SettleWait(held, now), [])
  }

  predicate Due(s: Stream, now: nat) {
    s.waitingSince.Some? && now >= s.waitingSince.value + REORDER_WINDOW_MS
  }

  /** One timer tick, or a forced release. */
  function Flush(s: Stream, now: nat, force: bool): (Stream, seq<Frame>) {
    if force || Due(s, now) then ReleaseAll(s) else (s, [])
  }

  // ------------------------------------------------------------ every run

  datatype Input = Offered(frame: Frame, now: nat) | Ticked(now: nat, force: bool)

  function Step(s: Stream, i: Input): (Stream, seq<Frame>) {
    match i
    case Offered(f, now) => Offer(s, f, now)
    case Ticked(now, force) => Flush(s, now, force)
  }

  /** The stream and everything it released after `inputs`. */
  function Run(inputs: seq<Input>): (Stream, seq<Frame>) {
    if inputs == [] then (FRESH, [])
    else
      var (s, out) := Run(inputs[..|inputs| - 1]);
      var (s2, more) := Step(s, inputs[|inputs| - 1]);
      (s2, out + more)
  }

  predicate InOrder(out: seq<Frame>) {
    forall i, j :: 0 <= i < j < |out| ==> out[i].seqNo < out[j].seqNo
  }

  /** What holds of a stream and all it released so far. */
  ghost predicate Inv(s: Stream, out: seq<Frame>) {
    && Ordered(s, out)
    && |s.pending| <= MAX_PENDING_PER_STREAM
    && (s.waitingSince.Some? <==> s.pending != map[])
  }

  ghost predicate Numbered(pending: map<nat, Frame>, above: nat) {
    forall k :: k in pending ==> pending[k].seqNo == k && above <= k
  }

  /** `Drain` stops at the first number that is not buffered and keeps the rest. */
  lemma {:induction false} DrainKeeps(next: nat, pending: map<nat, Frame>)
    requires Numbered(pending, next)
    ensures var (n, left, out) := Drain(next, pending);
      && next <= n && n !in pending && |left| <= |pending|
      && (forall k :: k in left <==> k in pending && n <= k)
      && (forall k :: k in left ==> left[k] == pending[k])
    decreases |pending|
  {
    if next in pending {
      DrainKeeps(next + 1, pending - {next});
    }
  }

  /** `Drain` hands over the contiguous run from `next`. */
  lemma {:induction false} DrainRun(next: nat, pending: map<nat, Frame>)
    requires Numbered(pending, next)
    ensures var (n, left, out) := Drain(next, pending);
      && n == next + |out|
      && (forall i :: 0 <= i < |out| ==>
            out[i].seqNo == next + i && out[i].seqNo in pending && pending[out[i].seqNo] == out[i])
    decreases |pending|
  {
    if next in pending {
      DrainRun(next + 1, pending - {next});
    }
  }

  /** `Ascending` lists only buffered frames. */
  lemma {:induction false} AscendingFrom(pending: map<nat, Frame>)
    requires Numbered(pending, 0)
    ensures forall f :: f in Ascending(pending) ==> f.seqNo in pending && pending[f.seqNo] == f
    decreases |pending|
  {
    if pending != map[] {
      AscendingFrom(pending - {Least(pending.Keys)});
    }
  }

  /** `Ascending` lists every buffered frame. */
  lemma {:induction false} AscendingAll(pending: map<nat, Frame>, k: nat)
    requires k in pending
    ensures pending[k] in Ascending(pending)
    decreases |pending|
  {
    var least := Least(pending.Keys);
    if k != least {
      AscendingAll(pending - {least}, k);
    }
  }

  /** `Ascending` lists them in order. */
  lemma {:induction false} AscendingInOrder(pending: map<nat, Frame>)
    requires Numbered(pending, 0)
    ensures InOrder(Ascending(pending))
    decreases |pending|
  {
    if pending != map[] {
      var k := Least(pending.Keys);
      var fewer := pending - {k};
      AscendingInOrder(fewer);
      AscendingFrom(fewer);
      var rest := Ascending(fewer);
      forall i, j | 0 <= i < j < |rest| + 1
        ensures ([pending[k]] + rest)[i].seqNo < ([pending[k]] + rest)[j].seqNo
      {
        assert rest[j - 1] in rest;
      }
    }
  }

  /** Appending frames at or above `bound`, in order, to frames below it. */
  lemma AppendInOrder(out: seq<Frame>, more: seq<Frame>, bound: nat, bound2: nat)
    requires InOrder(out) && InOrder(more)
    requires forall i :: 0 <= i < |out| ==> out[i].seqNo < bound
    requires forall i :: 0 <= i < |more| ==> bound <= more[i].seqNo < bound2
    requires bound <= bound2
    ensures InOrder(out + more)
    ensures forall i :: 0 <= i < |out + more| ==> (out + more)[i].seqNo < bound2
  {
  }

  /** What holds while a frame is being placed: `Inv` without the two settled fields. */
  ghost predicate Ordered(s: Stream, out: seq<Frame>) {
    && Numbered(s.pending, s.Expected() + 1)
    && InOrder(out)
    && (forall i :: 0 <= i < |out| ==> out[i].seqNo < s.Expected())
  }

  lemma ReleaseAllKeeps(s: Stream, out: seq<Frame>)
    requires Ordered(s, out)
    ensures var (r, more) := ReleaseAll(s);
      && Ordered(r, out + more) && r.pending == map[] && r.waitingSince == None
      && s.Expected() <= r.Expected()
      && forall k :: k in s.pending ==> k < r.Expected()
  {
    var (r, more) := ReleaseAll(s);
    if s.pending == map[] {
      assert out + more == out;
    } else {
      AscendingInOrder(s.pending);
      AscendingFrom(s.pending);
      var last := more[|more| - 1];
      forall k | k in s.pending ensures k <= last.seqNo {
        AscendingAll(s.pending, k);
      }
      assert last in more;
      forall i | 0 <= i < |more| ensures s.Expected() <= more[i].seqNo < r.Expected() {
        assert more[i] in more;
      }
      AppendInOrder(out, more, s.Expected(), r.Expected());
    }
  }

  lemma ReadyKeeps(s: Stream, out: seq<Frame>, f: Frame)
    requires Ordered(s, out) && f.seqNo == s.Expected()
    ensures var (n, left, more) := Drain(f.seqNo + 1, s.pending);
      && Ordered(s.(next := Some(n), pending := left), out + ([f] + more))
      && s.Expected() < n && |left| <= |s.pending|
  {
    DrainKeeps(f.seqNo + 1, s.pending);
    DrainRun(f.seqNo + 1, s.pending);
    var (n, left, more) := Drain(f.seqNo + 1, s.pending);
    AppendInOrder(out, [f] + more, s.Expected(), n);
  }

  lemma OfferKeeps(s: Stream, out: seq<Frame>, f: Frame, now: nat)
    requires Inv(s, out)
    ensures var (s2, more) := Offer(s, f, now); Inv(s2, out + more) && s.Expected() <= s2.Expected()
  {
    var (s2, more) := Offer(s, f, now);
    if (s.next.Some? && f.seqNo < s.next.value) || f.seqNo in s.pending {
      assert out + more == out;
    } else if f.seqNo == s.Expected() {
      ReadyKeeps(s, out, f);
    } else {
      var held := s.(pending := s.pending[f.seqNo := f]);
      if |held.pending| > MAX_PENDING_PER_STREAM {
        ReleaseAllKeeps(held, out);
      } else {
        assert out + more == out;
      }
    }
  }

  /**
   Every run: the released frames are strictly increasing in `seqNo` (so none is
   released twice), and the buffer never exceeds its bound.
   */
  lemma {:induction false} RunKeepsOrder(inputs: seq<Input>)
    ensures Inv(Run(inputs).0, Run(inputs).1)
  {
    if inputs != [] {
      var init := inputs[..|inputs| - 1];
      RunKeepsOrder(init);
      var (s, out) := Run(init);
      match inputs[|inputs| - 1]
      case Offered(f, now) => OfferKeeps(s, out, f, now);
      case Ticked(now, force) =>
        if force || Due(s, now) { ReleaseAllKeeps(s, out); } else { assert out + [] == out; }
    }
  }

  // ------------------------------------------------------------ nothing invented

  predicate Holds(pending: map<nat, Frame>, f: Frame) {
    f.seqNo in pending && pending[f.seqNo] == f
  }

  // ------------------------------------------------------------ when a gap is given up

  /** The stream hands over frames without the one it waits for. */
  predicate PassesOver(s: Stream, more: seq<Frame>) {
    more != [] && more[0].seqNo != s.Expected()
  }

  /** The stream has waited for 250 milliseconds or more. */
  predicate LongSince(s: Stream, now: nat) {
    s.waitingSince.Some? && s.waitingSince.value + 250 <= now
  }

  lemma ReleasesAll(s: Stream, out: seq<Frame>)
    requires Ordered(s, out) && s.pending != map[]
    ensures var (r, more) := ReleaseAll(s);
      && more != [] && s.Expected() < more[0].seqNo && r.pending == map[] && |more| == |s.pending|
      && r.next == Some(more[|more| - 1].seqNo + 1)
      && forall k :: k in s.pending ==> s.pending[k] in more
  {
    var more := Ascending(s.pending);
    AscendingFrom(s.pending);
    assert more[0] in more;
    forall k | k in s.pending ensures s.pending[k] in more { AscendingAll(s.pending, k); }
  }

  /**
   After any run, a gap is passed over exactly by a forced tick, by a tick 250 milliseconds or more
   after the stream began to wait, or by a frame beyond the gap when 256 are held; then all that
   is held goes out at once. A tick does nothing else, and a frame that is the one waited for
   brings those that follow it.
   */
  lemma GivesUpExactly(inputs: seq<Input>, i: Input)
    ensures var s := Run(inputs).0;
      var (s2, more) := Step(s, i);
      match i
      case Ticked(now, force) =>
        && (PassesOver(s, more) <==> s.pending != map[] && (force || LongSince(s, now)))
        && (PassesOver(s, more) ==> s2.pending == map[] && forall k :: k in s.pending ==> s.pending[k] in more)
        && (!PassesOver(s, more) ==> more == [] && s2 == s)
      case Offered(f, now) =>
        && (PassesOver(s, more) <==> f.seqNo > s.Expected() && f.seqNo !in s.pending && |s.pending| == 256)
        && (PassesOver(s, more) ==>
              s2.pending == map[] && f in more && forall k :: k in s.pending ==> s.pending[k] in more)
        && (f.seqNo == s.Expected() ==> more != [] && more[0] == f)
        && (f.seqNo != s.Expected() && !PassesOver(s, more) ==> more == [] && s2.next == s.next)
        && (f.seqNo > s.Expected() && !PassesOver(s, more) ==> f.seqNo in s2.pending)
  {
    RunKeepsOrder(inputs);
    var (s, out) := Run(inputs);
    match i
    case Ticked(now, force) => TickGivesUp(s, out, now, force);
    case Offered(f, now) => OfferGivesUp(s, out, f, now);
  }

  lemma TickGivesUp(s: Stream, out: seq<Frame>, now: nat, force: bool)
    requires Inv(s, out)
    ensures var (s2, more) := Flush(s, now, force);
      && (PassesOver(s, more) <==> s.pending != map[] && (force || LongSince(s, now)))
      && (PassesOver(s, more) ==> s2.pending == map[] && forall k :: k in s.pending ==> s.pending[k] in more)
      && (!PassesOver(s, more) ==> more == [] && s2 == s)
  {
    if s.pending != map[] { ReleasesAll(s, out); }
  }

  lemma OfferGivesUp(s: Stream, out: seq<Frame>, f: Frame, now: nat)
    requires Inv(s, out)
    ensures var (s2, more) := Offer(s, f, now);
      && (PassesOver(s, more) <==> f.seqNo > s.Expected() && f.seqNo !in s.pending && |s.pending| == 256)
      && (PassesOver(s, more) ==>
            s2.pending == map[] && f in more && forall k :: k in s.pending ==> s.pending[k] in more)
      && (f.seqNo == s.Expected() ==> more != [] && more[0] == f)
      && (f.seqNo != s.Expected() && !PassesOver(s, more) ==> more == [] && s2.next == s.next)
      && (f.seqNo > s.Expected() && !PassesOver(s, more) ==> f.seqNo in s2.pending)
  {
    if f.seqNo > s.Expected() && f.seqNo !in s.pending {
      var held := s.(pending := s.pending[f.seqNo := f]);
      assert held.pending.Keys == s.pending.Keys + {f.seqNo};
      assert |held.pending| == |s.pending| + 1;
      ReleasesAll(held, out);
      assert held.pending[f.seqNo] == f;
      forall k | k in s.pending ensures k in held.pending && held.pending[k] == s.pending[k] { }
    }
  }

  /** Every frame released or buffered was delivered, as it was delivered. */
  lemma {:induction false} ReleasedWasOffered(inputs: seq<Input>, f: Frame)
    requires f in Run(inputs).1 || Holds(Run(inputs).0.pending, f)
    ensures exists i :: 0 <= i < |inputs| && inputs[i].Offered? && inputs[i].frame == f
  {
    var init := inputs[..|inputs| - 1];
    var (s, out) := Run(init);
    RunKeepsOrder(init);
    var last := inputs[|inputs| - 1];
    if f !in out { StepSources(s, out, last, f); }
    if f in out || Holds(s.pending, f) {
      ReleasedWasOffered(init, f);
      var i :| 0 <= i < |init| && init[i].Offered? && init[i].frame == f;
      assert inputs[i] == init[i];
    } else {
      assert inputs[|inputs| - 1].frame == f;
    }
  }

  lemma StepSources(s: Stream, out: seq<Frame>, i: Input, f: Frame)
    requires Inv(s, out)
    requires var (s2, more) := Step(s, i); f in more || Holds(s2.pending, f)
    ensures Holds(s.pending, f) || (i.Offered? && i.frame == f)
  {
    match i
    case Ticked(now, force) => AscendingFrom(s.pending);
    case Offered(g, now) => OfferSources(s, out, g, now, f);
  }

  lemma OfferSources(s: Stream, out: seq<Frame>, g: Frame, now: nat, f: Frame)
    requires Inv(s, out)
    requires var (s2, more) := Offer(s, g, now); f in more || Holds(s2.pending, f)
    ensures Holds(s.pending, f) || g == f
  {
    if (s.next.Some? && g.seqNo < s.next.value) || g.seqNo in s.pending {
    } else if g.seqNo == s.Expected() {
      ReadySources(s, g, now, f);
    } else {
      HeldSources(s, g, now, f);
    }
  }

  lemma ReadySources(s: Stream, g: Frame, now: nat, f: Frame)
    requires Numbered(s.pending, s.Expected() + 1) && g.seqNo == s.Expected()
    requires var (s2, more) := Offer(s, g, now); f in more || Holds(s2.pending, f)
    ensures Holds(s.pending, f) || g == f
  {
    OfferReady(s, g, now);
    DrainKeeps(g.seqNo + 1, s.pending);
    if f in Drain(g.seqNo + 1, s.pending).2 { DrainSources(g.seqNo + 1, s.pending, f); }
  }

  lemma OfferReady(s: Stream, g: Frame, now: nat)
    requires g.seqNo == s.Expected() && g.seqNo !in s.pending
    ensures Offer(s, g, now).1 == [g] + Drain(g.seqNo + 1, s.pending).2
    ensures Offer(s, g, now).0.pending == Drain(g.seqNo + 1, s.pending).1
  {
  }

  lemma HeldSources(s: Stream, g: Frame, now: nat, f: Frame)
    requires Numbered(s.pending, s.Expected() + 1) && g.seqNo > s.Expected() && g.seqNo !in s.pending
    requires var (s2, more) := Offer(s, g, now); f in more || Holds(s2.pending, f)
    ensures Holds(s.pending, f) || g == f
  {
    AscendingFrom(s.pending[g.seqNo := g]);
  }

  lemma DrainSources(next: nat, pending: map<nat, Frame>, f: Frame)
    requires Numbered(pending, next) && f in Drain(next, pending).2
    ensures Holds(pending, f)
  {
    DrainRun(next, pending);
    var out := Drain(next, pending).2;
    var i :| 0 <= i < |out| && out[i] == f;
    assert out[i].seqNo in pending && pending[out[i].seqNo] == out[i];
  }

  // ------------------------------------------------------------ exactly the sent sequence

  ghost function Numbers(inputs: seq<Input>): set<nat> {
    set i | 0 <= i < |inputs| && inputs[i].Offered? :: inputs[i].frame.seqNo
  }

  /** The least number from `n` on that is not in `s`. */
  function MissingFrom(s: set<nat>, n: nat): (m: nat)
    ensures n <= m && m !in s && forall k :: n <= k < m ==> k in s
    decreases |s|
  {
    if n in s then
      var m := MissingFrom(s - {n}, n + 1);
      assert forall k :: n + 1 <= k < m ==> k in s by {
        forall k | n + 1 <= k < m ensures k in s { assert k in s - {n}; }
      }
      m
    else n
  }

  /** The least number not delivered yet. */
  function Missing(s: set<nat>): nat { MissingFrom(s, 0) }

  /** The numbers delivered past a gap. */
  function Beyond(s: set<nat>): set<nat> { set k | k in s && Missing(s) < k }

  /** When the gap now open was opened: the first input since which some number is past a gap. */
  ghost function GapSince(inputs: seq<Input>): Option<nat> {
    if inputs == [] || Beyond(Numbers(inputs)) == {} then None
    else
      var before := GapSince(inputs[..|inputs| - 1]);
      if before.Some? then before else Some(inputs[|inputs| - 1].now)
  }

  /**
   What a sender and a network have to keep to, said of the deliveries alone: never
   more than `MAX_PENDING_PER_STREAM` numbers past a gap, and no tick while a gap is
   open that is forced or comes `REORDER_WINDOW_MS` or more after it opened.
   */
  ghost predicate InWindow(inputs: seq<Input>) {
    inputs == [] ||
    var init, last := inputs[..|inputs| - 1], inputs[|inputs| - 1];
    && InWindow(init)
    && match last {
         case Offered(_, _) => |Beyond(Numbers(inputs))| <= MAX_PENDING_PER_STREAM
         case Ticked(now, force) =>
           GapSince(init).None? || (!force && now < GapSince(init).value + REORDER_WINDOW_MS)
       }
  }

  /** Deliveries carry frames of `sent`: lost, repeated and reordered, not altered. */
  ghost predicate Faithful(inputs: seq<Input>, sent: seq<Frame>) {
    && (forall k :: 0 <= k < |sent| ==> sent[k].seqNo == k)
    && forall i :: 0 <= i < |inputs| && inputs[i].Offered? ==>
         inputs[i].frame.seqNo < |sent| && sent[inputs[i].frame.seqNo] == inputs[i].frame
  }

  lemma MissingIs(s: set<nat>, m: nat)
    requires m !in s && forall k :: 0 <= k < m ==> k in s
    ensures Missing(s) == m
  {
    assert Missing(s) < m ==> Missing(s) in s;
    assert m < Missing(s) ==> m in s;
  }

  lemma NumbersSnoc(inputs: seq<Input>)
    requires inputs != []
    ensures var last := inputs[|inputs| - 1];
      Numbers(inputs) == Numbers(inputs[..|inputs| - 1]) + (if last.Offered? then {last.frame.seqNo} else {})
  {
    var init := inputs[..|inputs| - 1];
    var last := inputs[|inputs| - 1];
    forall k | k in Numbers(init) ensures k in Numbers(inputs) {
      var i :| 0 <= i < |init| && init[i].Offered? && init[i].frame.seqNo == k;
      assert inputs[i] == init[i];
    }
    forall k | k in Numbers(inputs) ensures k in Numbers(init) || (last.Offered? && k == last.frame.seqNo) {
      var i :| 0 <= i < |inputs| && inputs[i].Offered? && inputs[i].frame.seqNo == k;
      if i < |init| { assert inputs[i] == init[i]; }
    }
  }

  lemma FaithfulInit(inputs: seq<Input>, sent: seq<Frame>)
    requires inputs != [] && Faithful(inputs, sent)
    ensures Faithful(inputs[..|inputs| - 1], sent)
  {
    var init := inputs[..|inputs| - 1];
    forall i | 0 <= i < |init| ensures init[i] == inputs[i] {}
  }

  /** The stream is where the deliveries say: nothing skipped, nothing held back. */
  ghost predicate Tracks(s: Stream, out: seq<Frame>, numbers: set<nat>, sent: seq<Frame>) {
    && s.Expected() == Missing(numbers) <= |sent|
    && s.pending.Keys == Beyond(numbers)
    && out == sent[..Missing(numbers)]
    && (forall k :: k in s.pending ==> k < |sent| && s.pending[k] == sent[k])
  }

  lemma GapFilled(s: Stream, out: seq<Frame>, numbers: set<nat>, sent: seq<Frame>, f: Frame, now: nat)
    requires Inv(s, out) && Tracks(s, out, numbers, sent)
    requires f.seqNo == Missing(numbers) < |sent| && sent[f.seqNo] == f
    requires forall k :: 0 <= k < |sent| ==> sent[k].seqNo == k
    ensures var (s2, more) := Offer(s, f, now); Tracks(s2, out + more, numbers + {f.seqNo}, sent)
    ensures Beyond(numbers + {f.seqNo}) <= Beyond(numbers)
  {
    var (n, left, run) := Drain(f.seqNo + 1, s.pending);
    DrainKeeps(f.seqNo + 1, s.pending);
    DrainRun(f.seqNo + 1, s.pending);
    NextGap(numbers, s.pending, f.seqNo, n, left, run);
    GapFilledOutput(out, f, run, sent);
  }

  /** Filling the gap at `m` moves it to where the run of buffered frames ends. */
  lemma NextGap(numbers: set<nat>, pending: map<nat, Frame>, m: nat, n: nat, left: map<nat, Frame>, run: seq<Frame>)
    requires m == Missing(numbers) && pending.Keys == Beyond(numbers)
    requires n == m + 1 + |run| && n !in pending
    requires forall i :: 0 <= i < |run| ==> run[i].seqNo == m + 1 + i && run[i].seqNo in pending
    requires forall k :: k in left <==> k in pending && n <= k
    ensures Missing(numbers + {m}) == n && left.Keys == Beyond(numbers + {m}) <= Beyond(numbers)
  {
    var all := numbers + {m};
    forall k | 0 <= k < n ensures k in all {
      if k > m { assert run[k - m - 1].seqNo == k; }
    }
    MissingIs(all, n);
  }

  lemma GapFilledOutput(out: seq<Frame>, f: Frame, run: seq<Frame>, sent: seq<Frame>)
    requires f.seqNo < |sent| && sent[f.seqNo] == f && out == sent[..f.seqNo]
    requires forall i :: 0 <= i < |run| ==>
      run[i].seqNo == f.seqNo + 1 + i && run[i].seqNo < |sent| && run[i] == sent[run[i].seqNo]
    ensures f.seqNo + 1 + |run| <= |sent|
    ensures out + ([f] + run) == sent[..f.seqNo + 1 + |run|]
  {
    if run != [] { assert run[|run| - 1].seqNo < |sent|; }
  }

  lemma PastGap(numbers: set<nat>, x: nat)
    requires x !in numbers && Missing(numbers) < x
    ensures Missing(numbers + {x}) == Missing(numbers)
    ensures Beyond(numbers + {x}) == Beyond(numbers) + {x}
  {
    MissingIs(numbers + {x}, Missing(numbers));
  }

  lemma OfferTracks(s: Stream, out: seq<Frame>, numbers: set<nat>, sent: seq<Frame>, f: Frame, now: nat)
    requires Inv(s, out) && Tracks(s, out, numbers, sent)
    requires forall k :: 0 <= k < |sent| ==> sent[k].seqNo == k
    requires f.seqNo < |sent| && sent[f.seqNo] == f
    requires |Beyond(numbers + {f.seqNo})| <= MAX_PENDING_PER_STREAM
    ensures var (s2, more) := Offer(s, f, now); Tracks(s2, out + more, numbers + {f.seqNo}, sent)
  {
    assert out + [] == out;
    if f.seqNo == Missing(numbers) {
      GapFilled(s, out, numbers, sent, f, now);
    } else if f.seqNo in numbers {
      RepeatIgnored(s, out, numbers, sent, f, now);
    } else {
      HeldTracks(s, out, numbers, sent, f, now);
    }
  }

  /** A number delivered before is below the gap or buffered past it. */
  lemma RepeatIgnored(s: Stream, out: seq<Frame>, numbers: set<nat>, sent: seq<Frame>, f: Frame, now: nat)
    requires Tracks(s, out, numbers, sent) && f.seqNo in numbers
    ensures Offer(s, f, now) == (s, []) && numbers + {f.seqNo} == numbers
  {
    assert f.seqNo < Missing(numbers) || f.seqNo in Beyond(numbers);
  }

  lemma HeldTracks(s: Stream, out: seq<Frame>, numbers: set<nat>, sent: seq<Frame>, f: Frame, now: nat)
    requires Tracks(s, out, numbers, sent) && f.seqNo !in numbers && f.seqNo != Missing(numbers)
    requires f.seqNo < |sent| && sent[f.seqNo] == f
    requires |Beyond(numbers + {f.seqNo})| <= MAX_PENDING_PER_STREAM
    ensures var (s2, more) := Offer(s, f, now); more == [] && Tracks(s2, out, numbers + {f.seqNo}, sent)
  {
    PastGap(numbers, f.seqNo);
    var held := s.pending[f.seqNo := f];
    assert held.Keys == Beyond(numbers + {f.seqNo});
    assert |held| == |held.Keys|;
  }

  /** A gap the stream gave up on: frame `m` was passed over. */
  ghost predicate Skipped(s: Stream, out: seq<Frame>, m: nat) {
    m < s.Expected() && forall i :: 0 <= i < |out| ==> out[i].seqNo != m
  }

  lemma ReleasedAbove(s: Stream, out: seq<Frame>, i: Input)
    requires Inv(s, out)
    ensures var (s2, more) := Step(s, i);
      && s.Expected() <= s2.Expected()
      && forall j :: 0 <= j < |more| ==> s.Expected() <= more[j].seqNo
  {
    match i
    case Ticked(now, force) =>
      ReleaseAllKeeps(s, out);
      AscendingAbove(s.pending, s.Expected());
    case Offered(f, now) =>
      OfferKeeps(s, out, f, now);
      OfferedAbove(s, f, now);
  }

  lemma OfferedAbove(s: Stream, f: Frame, now: nat)
    requires Numbered(s.pending, s.Expected() + 1)
    ensures var (s2, more) := Offer(s, f, now); forall j :: 0 <= j < |more| ==> s.Expected() <= more[j].seqNo
  {
    if f.seqNo == s.Expected() {
      DrainRun(f.seqNo + 1, s.pending);
    } else if s.Expected() < f.seqNo {
      AscendingAbove(s.pending[f.seqNo := f], s.Expected());
    }
  }

  lemma AscendingAbove(pending: map<nat, Frame>, bound: nat)
    requires Numbered(pending, bound)
    ensures forall j :: 0 <= j < |Ascending(pending)| ==> bound <= Ascending(pending)[j].seqNo
  {
    AscendingFrom(pending);
    forall j | 0 <= j < |Ascending(pending)| ensures bound <= Ascending(pending)[j].seqNo {
      assert Ascending(pending)[j] in Ascending(pending);
    }
  }

  lemma StepKeepsSkipped(s: Stream, out: seq<Frame>, i: Input, m: nat)
    requires Inv(s, out) && Skipped(s, out, m)
    ensures var (s2, more) := Step(s, i); Skipped(s2, out + more, m)
  {
    ReleasedAbove(s, out, i);
  }

  /** Giving up on an open gap passes over its missing frame. */
  lemma GivingUpSkips(s: Stream, out: seq<Frame>, m: nat)
    requires Ordered(s, out) && s.pending != map[] && m == s.Expected()
    ensures var (r, more) := ReleaseAll(s); Skipped(r, out + more, m)
  {
    ReleaseAllKeeps(s, out);
    AscendingAbove(s.pending, m + 1);
    var k := Least(s.pending.Keys);
    assert k in s.pending;
  }

  lemma OverflowSkips(s: Stream, out: seq<Frame>, numbers: set<nat>, sent: seq<Frame>, f: Frame, now: nat)
    requires Inv(s, out) && Tracks(s, out, numbers, sent)
    requires forall k :: 0 <= k < |sent| ==> sent[k].seqNo == k
    requires f.seqNo < |sent| && sent[f.seqNo] == f
    requires |Beyond(numbers + {f.seqNo})| > MAX_PENDING_PER_STREAM
    ensures var (s2, more) := Offer(s, f, now); Skipped(s2, out + more, Missing(numbers))
    ensures Missing(numbers) < |sent|
  {
    assert |Beyond(numbers)| == |s.pending.Keys| == |s.pending|;
    assert f.seqNo in numbers ==> numbers + {f.seqNo} == numbers;
    if f.seqNo == Missing(numbers) {
      GapFilled(s, out, numbers, sent, f, now);
      Fewer(Beyond(numbers + {f.seqNo}), Beyond(numbers));
    } else {
      PastGap(numbers, f.seqNo);
      var held := s.(pending := s.pending[f.seqNo := f]);
      assert held.pending.Keys == Beyond(numbers + {f.seqNo});
      GivingUpSkips(held, out, Missing(numbers));
    }
  }

  lemma Fewer(a: set<nat>, b: set<nat>)
    requires a <= b
    ensures |a| <= |b|
  {
    assert b == a + (b - a);
  }

  lemma {:induction false} InWindowTracks(inputs: seq<Input>, sent: seq<Frame>)
    requires Faithful(inputs, sent) && InWindow(inputs)
    ensures Tracks(Run(inputs).0, Run(inputs).1, Numbers(inputs), sent)
    ensures Run(inputs).0.waitingSince == GapSince(inputs)
  {
    if inputs == [] {
      MissingIs(Numbers(inputs), 0);
    } else {
      var init := inputs[..|inputs| - 1];
      FaithfulInit(inputs, sent);
      InWindowTracks(init, sent);
      RunKeepsOrder(init);
      RunKeepsOrder(inputs);
      NumbersSnoc(inputs);
      if inputs[|inputs| - 1].Offered? { OfferedInWindow(inputs, sent); } else { TickedInWindow(inputs, sent); }
    }
  }

  lemma OfferedInWindow(inputs: seq<Input>, sent: seq<Frame>)
    requires inputs != [] && inputs[|inputs| - 1].Offered? && Faithful(inputs, sent) && InWindow(inputs)
    requires var init := inputs[..|inputs| - 1];
      && Inv(Run(init).0, Run(init).1) && Inv(Run(inputs).0, Run(inputs).1)
      && Tracks(Run(init).0, Run(init).1, Numbers(init), sent) && Run(init).0.waitingSince == GapSince(init)
      && Numbers(inputs) == Numbers(init) + {inputs[|inputs| - 1].frame.seqNo}
    ensures Tracks(Run(inputs).0, Run(inputs).1, Numbers(inputs), sent)
    ensures Run(inputs).0.waitingSince == GapSince(inputs)
  {
    var init, last := inputs[..|inputs| - 1], inputs[|inputs| - 1];
    var (s, out) := Run(init);
    OfferTracks(s, out, Numbers(init), sent, last.frame, last.now);
    WaitFollows(s, out, last.frame, last.now);
  }

  lemma TickedInWindow(inputs: seq<Input>, sent: seq<Frame>)
    requires inputs != [] && inputs[|inputs| - 1].Ticked? && InWindow(inputs)
    requires var init := inputs[..|inputs| - 1];
      && Inv(Run(init).0, Run(init).1)
      && Tracks(Run(init).0, Run(init).1, Numbers(init), sent) && Run(init).0.waitingSince == GapSince(init)
      && Numbers(inputs) == Numbers(init)
    ensures Tracks(Run(inputs).0, Run(inputs).1, Numbers(inputs), sent)
    ensures Run(inputs).0.waitingSince == GapSince(inputs)
  {
    var init, last := inputs[..|inputs| - 1], inputs[|inputs| - 1];
    var (s, out) := Run(init);
    TickIdle(s, out, last.now, last.force, GapSince(init));
    assert out + [] == out;
  }

  lemma TickIdle(s: Stream, out: seq<Frame>, now: nat, force: bool, since: Option<nat>)
    requires Inv(s, out) && s.waitingSince == since
    requires since.None? || (!force && now < since.value + REORDER_WINDOW_MS)
    ensures Flush(s, now, force) == (s, [])
  {
  }

  /** The wait clock starts when the buffer fills and stops when it empties. */
  lemma WaitFollows(s: Stream, out: seq<Frame>, f: Frame, now: nat)
    requires Inv(s, out)
    ensures var s2 := Offer(s, f, now).0;
      s2.pending != map[] ==> s2.waitingSince == if s.waitingSince.Some? then s.waitingSince else Some(now)
  {
    ReleaseAllKeeps(s, out);
  }

  lemma {:induction false} OutOfWindowSkips(inputs: seq<Input>, sent: seq<Frame>) returns (m: nat)
    requires Faithful(inputs, sent) && !InWindow(inputs)
    ensures m < |sent| && Skipped(Run(inputs).0, Run(inputs).1, m)
  {
    var init, last := inputs[..|inputs| - 1], inputs[|inputs| - 1];
    FaithfulInit(inputs, sent);
    RunKeepsOrder(init);
    var (s, out) := Run(init);
    if !InWindow(init) {
      m := OutOfWindowSkips(init, sent);
      StepKeepsSkipped(s, out, last, m);
    } else {
      InWindowTracks(init, sent);
      NumbersSnoc(inputs);
      m := Missing(Numbers(init));
      if last.Offered? { OverflowSkips(s, out, Numbers(init), sent, last.frame, last.now); }
      else { LateTickSkips(s, out, Numbers(init), sent, last.now, last.force); }
    }
  }

  lemma LateTickSkips(s: Stream, out: seq<Frame>, numbers: set<nat>, sent: seq<Frame>, now: nat, force: bool)
    requires Inv(s, out) && Tracks(s, out, numbers, sent)
    requires s.waitingSince.Some? && (force || now >= s.waitingSince.value + REORDER_WINDOW_MS)
    ensures var (s2, more) := Flush(s, now, force); Skipped(s2, out + more, Missing(numbers))
    ensures Missing(numbers) < |sent|
  {
    GivingUpSkips(s, out, Missing(numbers));
    var k := Least(s.pending.Keys);
    assert k in s.pending;
  }

  /**
   The consumer sees exactly the sent sequence, for every order of delivery with any
   repeats, if and only if the deliveries stayed in the window.
   */
  lemma ExactlySent(inputs: seq<Input>, sent: seq<Frame>)
    requires Faithful(inputs, sent)
    requires forall k :: 0 <= k < |sent| ==> k in Numbers(inputs)
    ensures Run(inputs).1 == sent <==> InWindow(inputs)
  {
    if InWindow(inputs) {
      InWindowTracks(inputs, sent);
      var m := Missing(Numbers(inputs));
      assert m < |sent| ==> m in Numbers(inputs);
    } else {
      var m := OutOfWindowSkips(inputs, sent);
      assert sent[m].seqNo == m;
    }
  }

  // ------------------------------------------------------------ all streams, in place

  /** `out` is what a drain has handed over so far, `(next, pending)` what it has still to do. */
  ghost predicate Draining(spec: (nat, map<nat, Frame>, seq<Frame>), next: nat, pending: map<nat, Frame>,
      out: seq<Frame>)
  {
    var rest := Drain(next, pending);
    spec.0 == rest.0 && spec.1 == rest.1 && spec.2 == out + rest.2
  }

  lemma DrainOne(spec: (nat, map<nat, Frame>, seq<Frame>), next: nat, pending: map<nat, Frame>, out: seq<Frame>)
    requires Draining(spec, next, pending, out) && next in pending
    ensures Draining(spec, next + 1, pending - {next}, out + [pending[next]])
  {
    MoveOne(out, pending[next], Drain(next + 1, pending - {next}).2);
  }

  lemma MoveOne(out: seq<Frame>, f: Frame, rest: seq<Frame>)
    ensures out + ([f] + rest) == (out + [f]) + rest
  {
  }

  method DrainContiguous(start: nat, buffered: map<nat, Frame>)
    returns (next: nat, pending: map<nat, Frame>, out: seq<Frame>)
    ensures (next, pending, out) == Drain(start, buffered)
  {
    next, pending, out := start, buffered, [];
    ghost var spec := Drain(start, buffered);
    while next in pending
      invariant Draining(spec, next, pending, out)
      decreases |pending|
    {
      DrainOne(spec, next, pending, out);
      out := out + [pending[next]];
      pending := pending - {next};
      next := next + 1;
    }
    assert out + [] == out;
  }

  lemma AscendingOne(all: seq<Frame>, pending: map<nat, Frame>, out: seq<Frame>)
    requires pending != map[] && all == out + Ascending(pending)
    ensures var k := Least(pending.Keys); all == (out + [pending[k]]) + Ascending(pending - {k})
  {
    var k := Least(pending.Keys);
    MoveOne(out, pending[k], Ascending(pending - {k}));
  }

  method PopAscending(buffered: map<nat, Frame>) returns (out: seq<Frame>)
    ensures out == Ascending(buffered)
  {
    var pending := buffered;
    out := [];
    ghost var all := Ascending(buffered);
    assert all == out + all;
    while pending != map[]
      invariant all == out + Ascending(pending)
      decreases |pending|
    {
      var k := Least(pending.Keys);
      AscendingOne(all, pending, out);
      out := out + [pending[k]];
      pending := pending - {k};
    }
    assert out + [] == out;
  }

  method ReleasePending(s: Stream) returns (r: Stream, out: seq<Frame>)
    ensures (r, out) == ReleaseAll(s)
  {
    out := PopAscending(s.pending);
    var next := if out == [] then s.next else Some(out[|out| - 1].seqNo + 1);
    r := Stream(next, map[], None);
  }

  method FlushStream(s: Stream, now: nat, force: bool, ghost owner: StreamKey) returns (r: Stream, out: seq<Frame>)
    requires forall n :: n in s.pending ==> s.pending[n].key == owner
    ensures r == Flush(s, now, force).0 && out == Flush(s, now, force).1
    ensures forall i :: 0 <= i < |out| ==> out[i].key == owner
    ensures r.pending == map[] || r == s
  {
    r, out := s, [];
    if force || Due(s, now) {
      r, out := ReleasePending(s);
      OwnFrames(s.pending, owner);
    }
  }

  /** The frames of `out` that belong to stream `k`, in order. */
  function Project(out: seq<Frame>, k: StreamKey): seq<Frame> {
    if out == [] then []
    else Project(out[..|out| - 1], k) + (if out[|out| - 1].key == k then [out[|out| - 1]] else [])
  }

  lemma Regroup(a: seq<Frame>, init: seq<Frame>, last: Frame, b: seq<Frame>)
    requires b == init + [last]
    ensures (a + init) + [last] == a + b
    ensures a + [] == a
  {
  }

  lemma ProjectMore(out: seq<Frame>, f: Frame, k: StreamKey)
    ensures Project(out + [f], k) == Project(out, k) + (if f.key == k then [f] else [])
  {
    assert (out + [f])[..|out|] == out;
  }

  lemma {:induction false} ProjectAppend(a: seq<Frame>, b: seq<Frame>, owner: StreamKey, k: StreamKey)
    requires forall i :: 0 <= i < |b| ==> b[i].key == owner
    ensures Project(a + b, k) == Project(a, k) + (if k == owner then b else [])
    decreases |b|
  {
    if b == [] {
      assert a + b == a;
    } else {
      var init := b[..|b| - 1];
      var last := b[|b| - 1];
      ProjectAppend(a, init, owner, k);
      Regroup(a, init, last, b);
      ProjectMore(a + init, last, k);
      Regroup(Project(a, k), init, last, b);
    }
  }

  lemma ProjectAppendAll(a: seq<Frame>, b: seq<Frame>, owner: StreamKey)
    requires forall i :: 0 <= i < |b| ==> b[i].key == owner
    ensures Project(a + b, owner) == Project(a, owner) + b
    ensures forall k :: k != owner ==> Project(a + b, k) == Project(a, k)
  {
    ProjectAppend(a, b, owner, owner);
    forall k | k != owner ensures Project(a + b, k) == Project(a, k) {
      ProjectAppend(a, b, owner, k);
    }
  }

  /** What a tick of `session` makes of stream `k`, and what it releases for it. */
  function TickOf(streams: map<StreamKey, Stream>, k: StreamKey, session: string, now: nat, force: bool)
    : (Stream, seq<Frame>)
  {
    if k !in streams then (FRESH, [])
    else if k.session == session then Flush(streams[k], now, force)
    else (streams[k], [])
  }

  /** `out` holds, stream by stream, what the tick releases for every stream not in `todo`. */
  ghost predicate Released(out: seq<Frame>, streams: map<StreamKey, Stream>, todo: set<StreamKey>,
                           session: string, now: nat, force: bool)
  {
    forall k :: Project(out, k) == if k in todo then [] else TickOf(streams, k, session, now, force).1
  }

  lemma ReleasedOne(out: seq<Frame>, more: seq<Frame>, streams: map<StreamKey, Stream>, todo: set<StreamKey>,
                    k: StreamKey, session: string, now: nat, force: bool)
    requires Released(out, streams, todo, session, now, force) && k in todo
    requires more == TickOf(streams, k, session, now, force).1
    requires forall i :: 0 <= i < |more| ==> more[i].key == k
    ensures Released(out + more, streams, todo - {k}, session, now, force)
  {
    ProjectAppendAll(out, more, k);
    assert [] + more == more;
  }

  /** Every stream buffers only its own frames. */
  ghost predicate Own(streams: map<StreamKey, Stream>) {
    forall k, n :: k in streams && n in streams[k].pending ==> streams[k].pending[n].key == k
  }

  /** A tick under way: the streams in `todo` are still to be flushed. */
  ghost predicate Ticking(before: map<StreamKey, Stream>, streams: map<StreamKey, Stream>, todo: set<StreamKey>,
                          session: string, now: nat, force: bool)
  {
    && Own(streams) && todo <= streams.Keys == before.Keys
    && (forall k :: k in todo ==> k.session == session && streams[k] == before[k])
    && (forall k :: k in streams && k !in todo ==> streams[k] == TickOf(before, k, session, now, force).0)
  }

  lemma TickOne(before: map<StreamKey, Stream>, streams: map<StreamKey, Stream>, todo: set<StreamKey>, k: StreamKey,
                r: Stream, session: string, now: nat, force: bool)
    requires Ticking(before, streams, todo, session, now, force) && k in todo
    requires r == Flush(streams[k], now, force).0 && (r.pending == map[] || r == streams[k])
    ensures Ticking(before, streams[k := r], todo - {k}, session, now, force)
  {
  }

  class Sequencer {
    var streams: map<StreamKey, Stream>

    ghost predicate Valid()
      reads this
    {
      Own(streams)
    }

    constructor ()
      ensures Valid() && streams == map[]
    {
      streams := map[];
    }

    method OfferFrame(f: Frame, now: nat) returns (out: seq<Frame>)
      requires Valid()
      modifies this
      ensures Valid()
      ensures var before := if f.key in old(streams) then old(streams)[f.key] else FRESH;
        && streams == old(streams)[f.key := Offer(before, f, now).0]
        && out == Offer(before, f, now).1
    {
      var s := if f.key in streams then streams[f.key] else FRESH;
      out := [];
      if s.next.Some? && f.seqNo < s.next.value {
      } else if f.seqNo in s.pending {
      } else if f.seqNo == s.Expected() {
        var next, pending, run := DrainContiguous(f.seqNo + 1, s.pending);
        OnlyBuffered(f.seqNo + 1, s.pending);
        out := [f] + run;
        s := SettleWait(s.(next := Some(next), pending := pending), now);
      } else {
        s := s.(pending := s.pending[f.seqNo := f]);
        if |s.pending| > MAX_PENDING_PER_STREAM {
          s, out := ReleasePending(s);
        }
        s := SettleWait(s, now);
      }
      streams := streams[f.key := s];
    }

    /** Ticks every stream of one session; the other sessions are not touched. */
    method FlushSession(session: string, now: nat, force: bool) returns (out: seq<Frame>)
      requires Valid()
      modifies this
      ensures Valid() && streams.Keys == old(streams).Keys
      ensures forall k :: k in streams ==> streams[k] == TickOf(old(streams), k, session, now, force).0
      ensures forall k :: Project(out, k) == TickOf(old(streams), k, session, now, force).1
    {
      out := [];
      var todo := set k | k in streams && k.session == session;
      ghost var before := streams;
      while todo != {}
        invariant Ticking(before, streams, todo, session, now, force)
        invariant Released(out, before, todo, session, now, force)
        decreases todo
      {
        var k :| k in todo;
        var r, more := FlushStream(streams[k], now, force, k);
        ReleasedOne(out, more, before, todo, k, session, now, force);
        TickOne(before, streams, todo, k, r, session, now, force);
        todo := todo - {k};
        streams := streams[k := r];
        out := out + more;
      }
    }
  }

  lemma {:induction false} OnlyBuffered(next: nat, pending: map<nat, Frame>)
    ensures var left := Drain(next, pending).1; forall k :: k in left ==> k in pending && left[k] == pending[k]
    decreases |pending|
  {
    if next in pending { OnlyBuffered(next + 1, pending - {next}); }
  }

  lemma {:induction false} OwnFrames(pending: map<nat, Frame>, owner: StreamKey)
    requires forall n :: n in pending ==> pending[n].key == owner
    ensures forall i :: 0 <= i < |pending| ==> Ascending(pending)[i].key == owner
    decreases |pending|
  {
    if pending != map[] { OwnFrames(pending - {Least(pending.Keys)}, owner); }
  }
}
