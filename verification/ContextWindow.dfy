/** Request fitting and the agent turn (src/policy/core.py:213-417, 466-718). Densities and budgets are real
    numbers, token counts naturals. */
module ContextWindow {
  import opened EnvSteps

  datatype ToolCall = ToolCall(name: string, arguments: string)

  datatype Message = Message(role: string, content: string, toolCalls: seq<ToolCall>)

  /** Characters, or the model's own tokenizer. */
  datatype Counter = Chars | Tokenizer(count: string -> nat)

  const CHARS_PER_TOKEN := 4
  const TEMPLATE_PER_MESSAGE_TOKENS := 16
  const TEMPLATE_FIXED_TOKENS := 128
  const MAX_CALIBRATION := 4.0
  const CALIBRATION_MARGIN := 1.05
  const BLIND_RETRIM_STEP := 1.3
  const RETRIM_BUDGET := 3

  function TextSize(c: Counter, t: string): nat {
    if c.Chars? then |t| else c.count(t)
  }

  function CallsSize(c: Counter, calls: seq<ToolCall>): nat {
    if calls == [] then 0
    else TextSize(c, calls[0].arguments) + TextSize(c, calls[0].name) + CallsSize(c, calls[1..])
  }

  function EstimateMessage(c: Counter, m: Message): nat {
    var size := TextSize(c, m.content) + CallsSize(c, m.toolCalls);
    if c.Chars? then size / CHARS_PER_TOKEN + 8 else size + TEMPLATE_PER_MESSAGE_TOKENS
  }

  /** Everything of a message that is counted. */
  function TextsOf(m: Message): seq<string> { [m.content] + CallTexts(m.toolCalls) }

  function CallTexts(calls: seq<ToolCall>): seq<string> {
    if calls == [] then [] else [calls[0].arguments, calls[0].name] + CallTexts(calls[1..])
  }

  function Joined(texts: seq<string>): string {
    if texts == [] then "" else texts[0] + Joined(texts[1..])
  }

  function Counts(count: string -> nat, texts: seq<string>): nat {
    if texts == [] then 0 else count(texts[0]) + Counts(count, texts[1..])
  }

  lemma {:induction false} CallsCounted(calls: seq<ToolCall>, count: string -> nat)
    ensures CallsSize(Chars, calls) == |Joined(CallTexts(calls))|
    ensures CallsSize(Tokenizer(count), calls) == Counts(count, CallTexts(calls))
  {
    if calls != [] {
      CallsCounted(calls[1..], count);
      var texts, rest := CallTexts(calls), CallTexts(calls[1..]);
      assert texts[1..] == [calls[0].name] + rest && texts[1..][1..] == rest;
      assert Joined(texts) == calls[0].arguments + (calls[0].name + Joined(rest));
    }
  }

  /** No text of a message is left out: in characters the estimate is eight tokens and a quarter of them, rounded
      down; with a tokenizer, the tokens of each text and sixteen. */
  lemma EveryTextCounts(m: Message, count: string -> nat)
    ensures var e, n := EstimateMessage(Chars, m), |Joined(TextsOf(m))|;
      e >= 8 && 4 * (e - 8) <= n < 4 * (e - 8) + 4
    ensures EstimateMessage(Tokenizer(count), m) == Counts(count, TextsOf(m)) + 16
  {
    CallsCounted(m.toolCalls, count);
    assert TextsOf(m)[1..] == CallTexts(m.toolCalls);
  }

  /** An estimate grows by the message's own part, wherever it is put; the tools are counted once. */
  lemma EstimateParts(c: Counter, toolsJson: string, xs: seq<Message>, m: Message, ys: seq<Message>)
    ensures EstimateRequest(c, toolsJson, xs + [m] + ys) == EstimateRequest(c, toolsJson, xs + ys) + EstimateMessage(c, m)
    ensures EstimateRequest(c, toolsJson, []) == if c.Chars? then |toolsJson| / 4 else c.count(toolsJson) + 128
  {
    EstimateAppends(c, xs + [m], ys);
    EstimateAppends(c, xs, [m]);
    EstimateAppends(c, xs, ys);
    assert [m][1..] == [];
  }

  function EstimateMessages(c: Counter, ms: seq<Message>): nat {
    if ms == [] then 0 else EstimateMessage(c, ms[0]) + EstimateMessages(c, ms[1..])
  }

  function ToolTokens(c: Counter, toolsJson: string): nat {
    if c.Chars? then |toolsJson| / CHARS_PER_TOKEN else c.count(toolsJson) + TEMPLATE_FIXED_TOKENS
  }

  function EstimateRequest(c: Counter, toolsJson: string, ms: seq<Message>): nat {
    EstimateMessages(c, ms) + ToolTokens(c, toolsJson)
  }

  lemma {:induction false} EstimateAppends(c: Counter, xs: seq<Message>, ys: seq<Message>)
    ensures EstimateMessages(c, xs + ys) == EstimateMessages(c, xs) + EstimateMessages(c, ys)
  {
    if xs == [] {
      assert xs + ys == ys;
    } else {
      assert (xs + ys)[1..] == xs[1..] + ys;
      EstimateAppends(c, xs[1..], ys);
    }
  }

  function Flatten(groups: seq<seq<Message>>): seq<Message> {
    if groups == [] then [] else groups[0] + Flatten(groups[1..])
  }

  /** The messages of all groups, in order. */
  lemma {:induction false} FlattenJoins(xs: seq<seq<Message>>, ys: seq<seq<Message>>, g: seq<Message>)
    ensures Flatten(xs + [g] + ys) == Flatten(xs) + g + Flatten(ys) && Flatten([]) == []
  {
    if xs == [] {
      assert ([] + [g] + ys)[1..] == ys && [] + [g] + ys == [g] + ys;
    } else {
      assert (xs + [g] + ys)[1..] == xs[1..] + [g] + ys;
      FlattenJoins(xs[1..], ys, g);
    }
  }

  function GroupTokens(c: Counter, groups: seq<seq<Message>>): nat {
    if groups == [] then 0 else EstimateMessages(c, groups[0]) + GroupTokens(c, groups[1..])
  }

  lemma {:induction false} FlattenTokens(c: Counter, groups: seq<seq<Message>>)
    ensures EstimateMessages(c, Flatten(groups)) == GroupTokens(c, groups)
  {
    if groups != [] {
      EstimateAppends(c, groups[0], Flatten(groups[1..]));
      FlattenTokens(c, groups[1..]);
    }
  }

  // ------------------------------------------------------------ where trimming stops

  /** Whether the groups from `start` on fit `room` tokens. */
  predicate SuffixFits(c: Counter, groups: seq<seq<Message>>, start: nat, room: real)
    requires start <= |groups|
  {
    GroupTokens(c, groups[start..]) as real <= room
  }

  /** The first start from which the groups fit, or the floor. */
  function FitStart(c: Counter, groups: seq<seq<Message>>, floor: int, room: real, start: nat): nat
    requires floor <= |groups| && start <= |groups|
    decreases floor - start
  {
    if start < floor && !SuffixFits(c, groups, start, room) then FitStart(c, groups, floor, room, start + 1) else start
  }

  /** `FitStart` keeps the longest suffix that fits, or everything from the floor on. */
  lemma {:induction false} FitStartIsLongest(c: Counter, groups: seq<seq<Message>>, floor: int, room: real, start: nat)
    requires floor <= |groups| && start <= |groups|
    ensures var s := FitStart(c, groups, floor, room, start);
      && start <= s <= |groups| && (s == start || s <= floor)
      && (s < floor ==> SuffixFits(c, groups, s, room))
      && forall k :: start <= k < s ==> !SuffixFits(c, groups, k, room)
    decreases floor - start
  {
    if start < floor && !SuffixFits(c, groups, start, room) {
      FitStartIsLongest(c, groups, floor, room, start + 1);
    }
  }

  lemma {:induction false} LessRoomDropsMore(
    c: Counter, groups: seq<seq<Message>>, floor: int, room: real, room': real, start: nat)
    requires floor <= |groups| && start <= |groups| && room' <= room
    ensures FitStart(c, groups, floor, room, start) <= FitStart(c, groups, floor, room', start)
    decreases floor - start
  {
    if start < floor && !SuffixFits(c, groups, start, room') {
      if SuffixFits(c, groups, start, room) {
        FitStartIsLongest(c, groups, floor, room', start);
      } else {
        LessRoomDropsMore(c, groups, floor, room, room', start + 1);
      }
    }
  }

  lemma {:induction false} NegativeRoomStopsAtFloor(
    c: Counter, groups: seq<seq<Message>>, floor: int, room: real, start: nat)
    requires floor <= |groups| && start <= |groups| && room < 0.0
    ensures FitStart(c, groups, floor, room, start) == if start < floor then floor else start
    decreases floor - start
  {
    if start < floor { NegativeRoomStopsAtFloor(c, groups, floor, room, start + 1); }
  }

  function Max(x: real, y: real): real { if x >= y then x else y }
  function Min(x: real, y: real): real { if x <= y then x else y }

  /** Tokens left for step groups under a calibration. */
  function Room(cap: int, calibration: real, headTokens: nat): real {
    cap as real / Max(calibration, 1.0) - headTokens as real
  }

  lemma QuotientShrinks(x: real, a: real, b: real)
    requires x >= 0.0 && 0.0 < a <= b
    ensures x / b <= x / a
  {
    var q, r := x / a, x / b;
    Cancel(0.0, q, a);
    MulMonotone(q, a, b);
    Cancel(r, q, b);
  }

  lemma Cancel(x: real, y: real, b: real)
    requires b > 0.0 && x * b <= y * b
    ensures x <= y
  {
    if x > y { MulGrows(y, x, b); }
  }

  lemma MulGrows(q: real, r: real, b: real)
    requires q < r && b > 0.0
    ensures q * b < r * b
  {
    assert (r - q) * b > 0.0;
  }

  lemma MulMonotone(q: real, a: real, b: real)
    requires q >= 0.0 && a <= b
    ensures q * a <= q * b
  {
    assert q * (b - a) >= 0.0;
  }

  /** Whatever the sign of the budget, a higher calibration never drops fewer groups. (A negative budget
      grows with the calibration, but nothing ever fits it.) */
  lemma HigherCalibrationDropsMore(c: Counter, groups: seq<seq<Message>>, floor: int, cap: int, headTokens: nat,
                                   low: real, high: real)
    requires floor <= |groups| && low <= high
    ensures FitStart(c, groups, floor, Room(cap, low, headTokens), 0)
         <= FitStart(c, groups, floor, Room(cap, high, headTokens), 0)
  {
    var a, b := Max(low, 1.0), Max(high, 1.0);
    if cap >= 0 {
      QuotientShrinks(cap as real, a, b);
      LessRoomDropsMore(c, groups, floor, Room(cap, low, headTokens), Room(cap, high, headTokens), 0);
    } else {
      NegativeQuotient(cap as real, a);
      NegativeQuotient(cap as real, b);
      NegativeRoomStopsAtFloor(c, groups, floor, Room(cap, low, headTokens), 0);
      NegativeRoomStopsAtFloor(c, groups, floor, Room(cap, high, headTokens), 0);
    }
  }

  lemma NegativeQuotient(x: real, a: real)
    requires x < 0.0 && a > 0.0
    ensures x / a < 0.0
  {
    var q := x / a;
    if q >= 0.0 { MulMonotone(q, 0.0, a); }
  }

  // ------------------------------------------------------------ the window

  class Window {
    const maxContextLength: int
    const maxCompletionTokens: int
    const toolsJson: string
    const counter: Counter
    const note: nat -> Message
    var calibration: real

    constructor (maxContextLength: int, maxCompletionTokens: int, toolsJson: string, counter: Counter, note: nat -> Message)
      ensures calibration == 1.0 && Valid()
      ensures this.maxContextLength == maxContextLength && this.maxCompletionTokens == maxCompletionTokens
      ensures this.toolsJson == toolsJson && this.counter == counter && this.note == note
    {
      this.maxContextLength, this.maxCompletionTokens := maxContextLength, maxCompletionTokens;
      this.toolsJson, this.counter, this.note, calibration := toolsJson, counter, note, 1.0;
    }

    predicate Valid()
      reads this
    {
      1.0 <= calibration <= MAX_CALIBRATION
    }

    function Cap(): int { maxContextLength - maxCompletionTokens }

    function HeadTokens(head: seq<Message>, turn: seq<Message>): nat {
      EstimateRequest(counter, toolsJson, head) + EstimateMessages(counter, turn)
    }

    /** How many leading groups a fit drops under a calibration. */
    function DroppedAt(cal: real, head: seq<Message>, groups: seq<seq<Message>>, floor: int, turn: seq<Message>): nat
      requires floor <= |groups|
    {
      FitStart(counter, groups, floor, Room(Cap(), cal, HeadTokens(head, turn)), 0)
    }

    function Fitted(head: seq<Message>, groups: seq<seq<Message>>, dropped: nat): seq<Message>
      requires dropped <= |groups|
    {
      head + (if dropped == 0 then [] else [note(dropped)]) + Flatten(groups[dropped..])
    }

    /** The request sent under a calibration: the fitted base and the turn's own messages. */
    function RequestAt(cal: real, head: seq<Message>, groups: seq<seq<Message>>, floor: int, turn: seq<Message>): seq<Message>
      requires floor <= |groups|
    {
      var dropped := DroppedAt(cal, head, groups, floor, turn);
      (if dropped <= |groups| then Fitted(head, groups, dropped) else head) + turn
    }

    /** What is sent without the first `k` groups, at this calibration, leaves room for the completion. (The note that
        stands for them is not counted.) */
    predicate FitsWithout(cal: real, head: seq<Message>, groups: seq<seq<Message>>, turn: seq<Message>, k: nat)
      requires k <= |groups|
    {
      var tokens := EstimateRequest(counter, toolsJson, head) + EstimateMessages(counter, turn + Flatten(groups[k..]));
      tokens as real <= (maxContextLength - maxCompletionTokens) as real / if cal < 1.0 then 1.0 else cal
    }

    ghost predicate KeepsLongest(
      cal: real, head: seq<Message>, groups: seq<seq<Message>>, floor: int, turn: seq<Message>, dropped: nat)
      requires dropped <= |groups|
    {
      && (forall k :: 0 <= k < dropped ==> !FitsWithout(cal, head, groups, turn, k))
      && (dropped < floor ==> FitsWithout(cal, head, groups, turn, dropped))
      && (dropped == 0 || dropped <= floor)
    }

    lemma FitsIfInRoom(cal: real, head: seq<Message>, groups: seq<seq<Message>>, turn: seq<Message>, k: nat)
      requires k <= |groups|
      ensures FitsWithout(cal, head, groups, turn, k) <==> SuffixFits(counter, groups, k, Room(Cap(), cal, HeadTokens(head, turn)))
    {
      FlattenTokens(counter, groups[k..]);
      EstimateAppends(counter, turn, Flatten(groups[k..]));
    }

    lemma LongestIsKept(cal: real, head: seq<Message>, groups: seq<seq<Message>>, floor: int, turn: seq<Message>)
      requires floor <= |groups|
      ensures var dropped := DroppedAt(cal, head, groups, floor, turn);
        dropped <= |groups| && KeepsLongest(cal, head, groups, floor, turn, dropped)
    {
      hide FitsWithout, SuffixFits, Room;
      var room := Room(Cap(), cal, HeadTokens(head, turn));
      FitStartIsLongest(counter, groups, floor, room, 0);
      forall k: nat | k <= |groups|
        ensures FitsWithout(cal, head, groups, turn, k) <==> SuffixFits(counter, groups, k, room)
      {
        FitsIfInRoom(cal, head, groups, turn, k);
      }
    }

    /** `fit`. The longest suffix of the groups that fits beside the head and the turn's own messages, but never
        less than what the floor protects. */
    method Fit(head: seq<Message>, groups: seq<seq<Message>>, floor: int, turn: seq<Message>)
      returns (messages: seq<Message>, dropped: nat)
      requires floor <= |groups|
      ensures dropped == DroppedAt(calibration, head, groups, floor, turn) && dropped <= |groups|
      ensures messages == head + (if dropped == 0 then [] else [note(dropped)]) + Flatten(groups[dropped..])
      ensures KeepsLongest(calibration, head, groups, floor, turn, dropped)
    {
      LongestIsKept(calibration, head, groups, floor, turn);
      var room := Cap() as real / Max(calibration, 1.0) - HeadTokens(head, turn) as real;
      var stepTokens := GroupTokens(counter, groups);
      dropped := 0;
      assert groups[0..] == groups;
      while stepTokens as real > room && dropped < floor
        invariant dropped <= |groups| && stepTokens == GroupTokens(counter, groups[dropped..])
        invariant FitStart(counter, groups, floor, room, 0) == FitStart(counter, groups, floor, room, dropped)
      {
        assert groups[dropped..][0] == groups[dropped] && groups[dropped..][1..] == groups[dropped + 1..];
        stepTokens := stepTokens - EstimateMessages(counter, groups[dropped]);
        dropped := dropped + 1;
      }
      var kept := Flatten(groups[dropped..]);
      if dropped == 0 { return head + kept, 0; }
      messages := head + [note(dropped)] + kept;
    }

    /** `calibrate_from_usage`: follows the server's real usage, also downwards. */
    method CalibrateFromUsage(promptTokens: Option<nat>, request: seq<Message>)
      requires Valid() && EstimateRequest(counter, toolsJson, request) > 0
      modifies this`calibration
      ensures Valid()
      ensures calibration == if promptTokens == None then old(calibration) else
        Min(MAX_CALIBRATION, Max(1.0, promptTokens.value as real / EstimateRequest(counter, toolsJson, request) as real))
    {
      if promptTokens == None { return; }
      var density := promptTokens.value as real / EstimateRequest(counter, toolsJson, request) as real;
      calibration := Min(MAX_CALIBRATION, Max(1.0, density));
    }

    function Estimate(request: seq<Message>): nat { EstimateRequest(counter, toolsJson, request) }

    /** The calibration aimed at after an overflow: the reported density with its margin, or a blind step. */
    function Target(cal: real, inputTokens: Option<nat>, request: seq<Message>): real
      requires Estimate(request) > 0
    {
      if inputTokens.Some? then inputTokens.value as real / Estimate(request) as real * CALIBRATION_MARGIN
      else cal * BLIND_RETRIM_STEP
    }

    function Tightened(cal: real, inputTokens: Option<nat>, request: seq<Message>): real
      requires Estimate(request) > 0
    {
      Min(MAX_CALIBRATION, Max(cal, Target(cal, inputTokens, request)))
    }

    /** `shrink_for_overflow`: strictly tightens, or reports that it cannot. */
    method ShrinkForOverflow(inputTokens: Option<nat>, request: seq<Message>) returns (shrunk: bool)
      requires Valid() && Estimate(request) > 0
      modifies this`calibration
      ensures Valid()
      ensures shrunk <==> calibration > old(calibration)
      ensures calibration == Tightened(old(calibration), inputTokens, request)
      ensures var aim := if inputTokens == None then 1.3 * old(calibration)
                         else 1.05 * (inputTokens.value as real / EstimateRequest(counter, toolsJson, request) as real);
        && (shrunk ==> calibration == aim <= 4.0 || calibration == 4.0 <= aim)
        && (!shrunk ==> old(calibration) == 4.0 || old(calibration) >= aim)
    {
      var target;
      if inputTokens.Some? {
        target := inputTokens.value as real / Estimate(request) as real * CALIBRATION_MARGIN;
      } else {
        target := calibration * BLIND_RETRIM_STEP;
      }
      var tightened := Min(MAX_CALIBRATION, Max(calibration, target));
      if tightened <= calibration { return false; }
      calibration := tightened;
      shrunk := true;
    }
  }

  // ------------------------------------------------------------ one overflow is enough

  /** The server takes a request whose charge leaves room for the completion. */
  predicate Accepts(d: real, estimate: nat, cap: int) {
    d * estimate as real <= cap as real
  }

  lemma Divides(x: real, d: real, e: real)
    requires e > 0.0 && x == d * e
    ensures x / e == d
  {
    var q := x / e;
    Cancel(q, d, e);
    Cancel(d, q, e);
  }

  /** A server that charges exactly `d` tokens per estimated token and says so: one overflow sets the
      calibration to `d` with its margin, or leaves it where it was when it was already there. */
  lemma OverflowRevealsDensity(w: Window, d: real, reported: nat, cal: real, request: seq<Message>)
    requires w.Estimate(request) > 0 && CALIBRATION_MARGIN * d <= MAX_CALIBRATION
    requires reported as real == d * w.Estimate(request) as real
    ensures w.Target(cal, Some(reported), request) == CALIBRATION_MARGIN * d
    ensures w.Tightened(cal, Some(reported), request) > cal ==>
      w.Tightened(cal, Some(reported), request) == CALIBRATION_MARGIN * d
  {
    Divides(reported as real, d, w.Estimate(request) as real);
  }

  /** What the next fitted request costs in estimated tokens: head, turn, note and kept groups. */
  lemma FittedEstimate(w: Window, head: seq<Message>, groups: seq<seq<Message>>, turn: seq<Message>, dropped: nat)
    requires dropped <= |groups|
    ensures EstimateRequest(w.counter, w.toolsJson, w.Fitted(head, groups, dropped) + turn)
         == w.HeadTokens(head, turn) + GroupTokens(w.counter, groups[dropped..])
            + (if dropped == 0 then 0 else EstimateMessage(w.counter, w.note(dropped)))
  {
    var c := w.counter;
    var middle := if dropped == 0 then [] else [w.note(dropped)];
    EstimateAppends(c, w.Fitted(head, groups, dropped), turn);
    EstimateAppends(c, head + middle, Flatten(groups[dropped..]));
    EstimateAppends(c, head, middle);
    FlattenTokens(c, groups[dropped..]);
    if dropped > 0 { assert [w.note(dropped)][1..] == []; }
  }

  predicate AtFloor(w: Window, cal: real, head: seq<Message>, groups: seq<seq<Message>>, floor: int, turn: seq<Message>)
    requires floor <= |groups|
  {
    w.DroppedAt(cal, head, groups, floor, turn) >= floor
  }

  /** The omitted-steps note, which the fit does not budget for, costs more than the margin leaves over. */
  predicate NoteTooBig(w: Window, cal: real, head: seq<Message>, groups: seq<seq<Message>>, floor: int, turn: seq<Message>)
    requires floor <= |groups| && cal > 0.0
  {
    var dropped := w.DroppedAt(cal, head, groups, floor, turn);
    dropped > 0 && EstimateMessage(w.counter, w.note(dropped)) as real > 0.05 * (w.Cap() as real / cal)
  }

  /** A request fitted at the server's density with its margin, or at any tighter calibration, is accepted,
      unless trimming stopped at the floor or the note is too big. */
  lemma OneOverflowIsEnough(
    w: Window, d: real, cal: real, head: seq<Message>, groups: seq<seq<Message>>, floor: int, turn: seq<Message>)
    requires floor <= |groups| && d >= 0.0 && cal >= 1.0 && cal >= CALIBRATION_MARGIN * d
    ensures
      || Accepts(d, w.Estimate(w.RequestAt(cal, head, groups, floor, turn)), w.Cap())
      || AtFloor(w, cal, head, groups, floor, turn)
      || NoteTooBig(w, cal, head, groups, floor, turn)
  {
    FitStartIsLongest(w.counter, groups, floor, Room(w.Cap(), cal, w.HeadTokens(head, turn)), 0);
    var dropped := w.DroppedAt(cal, head, groups, floor, turn);
    FittedEstimate(w, head, groups, turn, dropped);
    var noteTokens := if dropped == 0 then 0 else EstimateMessage(w.counter, w.note(dropped));
    var base := w.HeadTokens(head, turn) + GroupTokens(w.counter, groups[dropped..]);
    if dropped < floor && !NoteTooBig(w, cal, head, groups, floor, turn) {
      assert base as real <= w.Cap() as real / cal;
      WithinMargin(d, cal, base, noteTokens, w.Cap());
    }
  }

  lemma WithinMargin(d: real, cal: real, base: nat, extra: nat, cap: int)
    requires d >= 0.0 && cal >= 1.0 && cal >= CALIBRATION_MARGIN * d
    requires base as real <= cap as real / cal
    requires extra == 0 || extra as real <= 0.05 * (cap as real / cal)
    ensures Accepts(d, base + extra, cap)
  {
    var q := cap as real / cal;
    assert q * cal == cap as real;
    assert (base + extra) as real <= CALIBRATION_MARGIN * q;
    MulMonotone(d, (base + extra) as real, CALIBRATION_MARGIN * q);
    MulMonotone(q, CALIBRATION_MARGIN * d, cal);
    assert d * (CALIBRATION_MARGIN * q) == q * (CALIBRATION_MARGIN * d);
  }
}
