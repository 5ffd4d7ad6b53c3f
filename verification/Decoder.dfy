/** The phase machine that reads an archive (backup/decoder.go). `Step` is one
    call of Next on the value of the decoder; the class updates its fields the
    way the source does and is tied to `Step`. */
module Decoder {
  import opened Text
  import opened Archive

  datatype Phase = PhaseState | PhaseConsumers | PhaseMessages | PhaseDone

  datatype DecodeError =
    | NotV2Backup
    | EndsEarly
    | NotStateFirst(found: string)
    | BadState
    | NegativeConsumers
    | NotAConsumer(found: string)
    | BadConsumer(name: string)
    | ZeroSequence
    | OutOfOrder(seqno: uint64)

  /** What Next returns: an item, an error, or io.EOF after the end. */
  datatype Outcome = Got(item: Item) | Failed(err: DecodeError) | Eof

  datatype Kind = NoEntry | KindState | KindConsumer | KindMessage | KindEnd
  datatype EntryRef = EntryRef(ordinal: nat, kind: Kind, name: string, seqno: uint64)

  datatype DecState = DecState(rest: seq<Entry>, phase: Phase, consumersLeft: int, lastSeq: uint64,
                               ordinal: nat, last: EntryRef, err: Option<DecodeError>)

  function Init(a: seq<Entry>): DecState {
    DecState(a, PhaseState, 0, 0, 0, EntryRef(0, NoEntry, "", 0), None)
  }

  function Advance(d: DecState, kind: Kind, name: string, seqno: uint64): DecState {
    d.(ordinal := d.ordinal + 1, last := EntryRef(d.ordinal + 1, kind, name, seqno))
  }

  function Fail(d: DecState, e: DecodeError): (DecState, Outcome) {
    (d.(err := Some(e)), Failed(e))
  }

  function StepState(codec: Codec, d: DecState, e: Entry): (DecState, Outcome) {
    if e.name != STATE_ENTRY then Fail(d, NotStateFirst(e.name))
    else if !e.Intact() || codec.parseState(e.body).None? then Fail(d, BadState)
    else
      var st := codec.parseState(e.body).value;
      if st.consumers < 0 then Fail(d, NegativeConsumers)
      else
        var next := d.(consumersLeft := st.consumers, lastSeq := Below(st.firstSeq),
                       phase := if st.consumers == 0 then PhaseMessages else PhaseConsumers);
        (Advance(next, KindState, STATE_ENTRY, 0), Got(StateItem(e.ts, st)))
  }

  function StepConsumer(codec: Codec, d: DecState, e: Entry): (DecState, Outcome) {
    match CutPrefix(e.name, CONSUMER_PREFIX)
    case None => Fail(d, NotAConsumer(e.name))
    case Some(name) =>
      if !e.Intact() || !codec.GoodConsumer(e.body) then Fail(d, BadConsumer(name))
      else
        var next := d.(consumersLeft := d.consumersLeft - 1,
                       phase := if d.consumersLeft == 1 then PhaseMessages else d.phase);
        (Advance(next, KindConsumer, name, 0), Got(ConsumerItem(Consumer(name, e.ts, e.body))))
  }

  function StepMessage(d: DecState, e: Entry): (DecState, Outcome) {
    if IsSentinel(e) then (Advance(d.(phase := PhaseDone), KindEnd, "", 0), Got(EndItem))
    else if e.seqno == 0 then Fail(d, ZeroSequence)
    else if e.seqno <= d.lastSeq then Fail(d, OutOfOrder(e.seqno))
    else (Advance(d.(lastSeq := e.seqno), KindMessage, e.name, e.seqno), Got(MessageItem(MessageOf(e))))
  }

  /** One call of Next. The reader moves past an entry before it is judged. */
  function Step(codec: Codec, d: DecState): (DecState, Outcome) {
    if d.err.Some? then (d, Failed(d.err.value))
    else if d.phase == PhaseDone then (d, Eof)
    else if d.rest == [] then Fail(d, if d.phase == PhaseState then NotV2Backup else EndsEarly)
    else
      var d' := d.(rest := d.rest[1..]);
      match d.phase
      case PhaseState => StepState(codec, d', d.rest[0])
      case PhaseConsumers => StepConsumer(codec, d', d.rest[0])
      case _ => StepMessage(d', d.rest[0])
  }

  class Decoder {
    const codec: Codec
    var rest: seq<Entry>
    var state: Option<StreamState>
    var phase: Phase
    var consumersLeft: int
    var lastSeq: uint64
    var ordinal: nat
    var last: EntryRef
    var err: Option<DecodeError>

    ghost function Value(): DecState
      reads this
    {
      DecState(rest, phase, consumersLeft, lastSeq, ordinal, last, err)
    }

    constructor (codec: Codec, a: seq<Entry>)
      ensures Value() == Init(a) && this.codec == codec
    {
      this.codec, rest, state, phase := codec, a, None, PhaseState;
      consumersLeft, lastSeq, ordinal := 0, 0, 0;
      last, err := EntryRef(0, NoEntry, "", 0), None;
    }

    method LastGood() returns (r: EntryRef)
      ensures r == Value().last
    {
      r := last;
    }

    method Next() returns (r: Outcome)
      modifies this
      ensures (Value(), r) == Step(codec, old(Value()))
    {
      if err.Some? {
        return Failed(err.value);
      }
      if phase == PhaseDone {
        return Eof;
      }
      r := NextEntry();
      if r.Failed? {
        err := Some(r.err);
      }
    }

    /** The unexported next: reads one entry, without the sticky error. */
    method NextEntry() returns (r: Outcome)
      requires err.None? && phase != PhaseDone
      modifies this
      ensures err == old(err) && !r.Eof?
      ensures r.Got? ==> (Value(), r) == Step(codec, old(Value()))
      ensures r.Failed? ==> (Value().(err := Some(r.err)), r) == Step(codec, old(Value()))
    {
      if rest == [] {
        return Failed(if phase == PhaseState then NotV2Backup else EndsEarly);
      }
      var hdr := rest[0];
      rest := rest[1..];
      if phase == PhaseState {
        r := DecodeState(hdr);
      } else if phase == PhaseConsumers {
        r := DecodeConsumer(hdr);
      } else {
        r := DecodeMessage(hdr);
      }
    }

    method DecodeState(hdr: Entry) returns (r: Outcome)
      requires err.None?
      modifies this
      ensures err == old(err) && !r.Eof?
      ensures r.Got? ==> (Value(), r) == StepState(codec, old(Value()), hdr)
      ensures r.Failed? ==> (Value().(err := Some(r.err)), r) == StepState(codec, old(Value()), hdr)
    {
      if hdr.name != STATE_ENTRY {
        return Failed(NotStateFirst(hdr.name));
      }
      if !hdr.Intact() {
        return Failed(BadState);
      }
      var parsed := codec.parseState(hdr.body);
      if parsed.None? {
        return Failed(BadState);
      }
      var st := parsed.value;
      if st.consumers < 0 {
        return Failed(NegativeConsumers);
      }
      state := Some(st);
      consumersLeft := st.consumers;
      lastSeq := (st.firstSeq - 1) % TWO64;
      phase := PhaseConsumers;
      if consumersLeft == 0 {
        phase := PhaseMessages;
      }
      MoveOn(KindState, STATE_ENTRY, 0);
      r := Got(StateItem(hdr.ts, st));
    }

    method DecodeConsumer(hdr: Entry) returns (r: Outcome)
      requires err.None?
      modifies this
      ensures err == old(err) && !r.Eof?
      ensures r.Got? ==> (Value(), r) == StepConsumer(codec, old(Value()), hdr)
      ensures r.Failed? ==> (Value().(err := Some(r.err)), r) == StepConsumer(codec, old(Value()), hdr)
    {
      var cut := CutPrefix(hdr.name, CONSUMER_PREFIX);
      if cut.None? {
        return Failed(NotAConsumer(hdr.name));
      }
      var name := cut.value;
      if !hdr.Intact() {
        return Failed(BadConsumer(name));
      }
      var doc := codec.parseConsumer(hdr.body);
      if doc.NotJson? || !doc.hasConfig || !doc.hasState {
        return Failed(BadConsumer(name));
      }
      consumersLeft := consumersLeft - 1;
      if consumersLeft == 0 {
        phase := PhaseMessages;
      }
      MoveOn(KindConsumer, name, 0);
      r := Got(ConsumerItem(Consumer(name, hdr.ts, hdr.body)));
    }

    method DecodeMessage(hdr: Entry) returns (r: Outcome)
      requires err.None?
      modifies this
      ensures err == old(err) && !r.Eof?
      ensures r.Got? ==> (Value(), r) == StepMessage(old(Value()), hdr)
      ensures r.Failed? ==> (Value().(err := Some(r.err)), r) == StepMessage(old(Value()), hdr)
    {
      if hdr.seqno == 0 {
        if hdr.ts == 0 && hdr.hdrSize == 0 && hdr.payloadSize == 0 {
          phase := PhaseDone;
          MoveOn(KindEnd, "", 0);
          return Got(EndItem);
        }
        return Failed(ZeroSequence);
      }
      if hdr.seqno <= lastSeq {
        return Failed(OutOfOrder(hdr.seqno));
      }
      lastSeq := hdr.seqno;
      MoveOn(KindMessage, hdr.name, hdr.seqno);
      r := Got(MessageItem(Message(hdr.name, hdr.seqno, hdr.ts, hdr.hdrSize, hdr.payloadSize, hdr.body)));
    }

    /** advance */
    method MoveOn(kind: Kind, name: string, seqno: uint64)
      modifies this`ordinal, this`last
      ensures Value() == Advance(old(Value()), kind, name, seqno)
    {
      ordinal := ordinal + 1;
      last := EntryRef(ordinal, kind, name, seqno);
    }
  }

  /* ---------- Reading to the end ---------- */

  datatype Drained = Complete(items: seq<Item>) | Broken(err: DecodeError)

  /** Calls Next until it returns End or an error. */
  function Drain(codec: Codec, d: DecState): (r: Drained)
    requires d.phase != PhaseDone
    decreases |d.rest|
  {
    var (d', out) := Step(codec, d);
    match out
    case Failed(e) => Broken(e)
    case Got(item) =>
      if item.EndItem? then Complete([item])
      else
        match Drain(codec, d')
        case Complete(items) => Complete([item] + items)
        case Broken(e) => Broken(e)
  }

  /** Reading `a` with a new decoder. */
  function Decode(codec: Codec, a: seq<Entry>): Drained {
    Drain(codec, Init(a))
  }

  /** Puts items already returned in front. */
  function Prepend(items: seq<Item>, r: Drained): Drained {
    match r
    case Complete(more) => Complete(items + more)
    case Broken(e) => Broken(e)
  }

  /** A loop that has collected `items` may continue from the next state. */
  lemma DrainStep(codec: Codec, d: DecState, items: seq<Item>)
    requires d.phase != PhaseDone
    ensures var (d', out) := Step(codec, d);
            match out {
              case Got(item) =>
                if item.EndItem? then Prepend(items, Drain(codec, d)) == Complete(items + [item])
                else d'.phase != PhaseDone && |d'.rest| < |d.rest| &&
                     Prepend(items, Drain(codec, d)) == Prepend(items + [item], Drain(codec, d'))
              case Failed(e) => Prepend(items, Drain(codec, d)) == Broken(e)
              case Eof => false
            }
  {
    var (d', out) := Step(codec, d);
    if out.Got? && !out.item.EndItem? && Drain(codec, d').Complete? {
      var more := Drain(codec, d').items;
      assert items + ([out.item] + more) == (items + [out.item]) + more;
    }
  }

  /** The items returned before the first error, or up to End. */
  function ItemsRead(codec: Codec, d: DecState): seq<Item>
    requires d.phase != PhaseDone
    decreases |d.rest|
  {
    var (d', out) := Step(codec, d);
    match out
    case Failed(_) => []
    case Got(item) => if item.EndItem? then [item] else [item] + ItemsRead(codec, d')
  }

  /** Of a complete backup they are all its items. */
  lemma {:induction false} ItemsReadComplete(codec: Codec, d: DecState)
    requires d.phase != PhaseDone && Drain(codec, d).Complete?
    ensures ItemsRead(codec, d) == Drain(codec, d).items
    decreases |d.rest|
  {
    var (d', out) := Step(codec, d);
    if out.Got? && !out.item.EndItem? {
      ItemsReadComplete(codec, d');
    }
  }

  lemma ItemsReadStep(codec: Codec, d: DecState, items: seq<Item>)
    requires d.phase != PhaseDone
    ensures var (d', out) := Step(codec, d);
            && (!out.Got? ==> items + ItemsRead(codec, d) == items)
            && (out == Got(EndItem) ==> items + ItemsRead(codec, d) == items + [EndItem])
            && (out.Got? && !out.item.EndItem? ==> d'.phase != PhaseDone && items + ItemsRead(codec, d) == items + [out.item] + ItemsRead(codec, d'))
  {
  }

  /** The state comes first and only then; End finishes the run. */
  lemma StepShape(codec: Codec, d: DecState)
    ensures var (d', out) := Step(codec, d);
            out.Got? ==>
              && (out.item.StateItem? <==> d.phase == PhaseState)
              && d'.phase != PhaseState && (out.item.EndItem? <==> d'.phase == PhaseDone)
  {
  }

  /* ---------- Acceptance: if and only if ---------- */

  /** The state of a decoder that is reading consumers or messages. */
  function Mid(rest: seq<Entry>, left: nat, lo: uint64, ordinal: nat, last: EntryRef): DecState {
    DecState(rest, if left == 0 then PhaseMessages else PhaseConsumers, left, lo, ordinal, last, None)
  }

  /** The message section of the format: ascending messages above `lo`, then a sentinel. */
  ghost predicate Tail(rest: seq<Entry>, lo: uint64, ms: seq<Message>) {
    && |ms| < |rest|
    && (forall i :: 0 <= i < |ms| ==> ms[i] == MessageOf(rest[i]))
    && Ascending(lo, ms)
    && IsSentinel(rest[|ms|])
  }

  lemma {:induction false} TailDrains(codec: Codec, rest: seq<Entry>, lo: uint64, ord: nat, last: EntryRef, ms: seq<Message>)
    requires Tail(rest, lo, ms)
    ensures Drain(codec, Mid(rest, 0, lo, ord, last)) == Complete(MessageItems(ms) + [EndItem])
    decreases |ms|
  {
    if ms != [] {
      var e := rest[0];
      TailDrains(codec, rest[1..], e.seqno, ord + 1, EntryRef(ord + 1, KindMessage, e.name, e.seqno), ms[1..]);
      assert MessageItems(ms) + [EndItem] == [MessageItem(ms[0])] + (MessageItems(ms[1..]) + [EndItem]);
    }
  }

  lemma {:induction false} DrainsTail(codec: Codec, rest: seq<Entry>, lo: uint64, ord: nat, last: EntryRef)
      returns (ms: seq<Message>)
    requires Drain(codec, Mid(rest, 0, lo, ord, last)).Complete?
    ensures Tail(rest, lo, ms)
    decreases |rest|
  {
    var e := rest[0];
    if IsSentinel(e) {
      ms := [];
    } else {
      var more := DrainsTail(codec, rest[1..], e.seqno, ord + 1, EntryRef(ord + 1, KindMessage, e.name, e.seqno));
      ms := [MessageOf(e)] + more;
    }
  }

  /** Consumers still to come, then the message section. */
  ghost predicate Body(codec: Codec, rest: seq<Entry>, lo: uint64, cs: seq<Consumer>, ms: seq<Message>) {
    && |cs| <= |rest|
    && (forall i :: 0 <= i < |cs| ==> IsConsumer(codec, rest[i], cs[i]))
    && Tail(rest[|cs|..], lo, ms)
  }

  lemma {:induction false} BodyDrains(codec: Codec, rest: seq<Entry>, lo: uint64, ord: nat, last: EntryRef,
                                      cs: seq<Consumer>, ms: seq<Message>)
    requires Body(codec, rest, lo, cs, ms)
    ensures Drain(codec, Mid(rest, |cs|, lo, ord, last)) == Complete(ConsumerItems(cs) + MessageItems(ms) + [EndItem])
    decreases |cs|
  {
    if cs == [] {
      assert rest[0..] == rest;
      TailDrains(codec, rest, lo, ord, last, ms);
      assert ConsumerItems(cs) + MessageItems(ms) + [EndItem] == MessageItems(ms) + [EndItem];
    } else {
      hide ConsumerItems; hide MessageItems; hide IsSentinel; hide Ascending;
      assert rest[1..][|cs[1..]|..] == rest[|cs|..];
      BodyDrains(codec, rest[1..], lo, ord + 1, EntryRef(ord + 1, KindConsumer, cs[0].name, 0), cs[1..], ms);
      assert CutPrefix(rest[0].name, CONSUMER_PREFIX) == Some(cs[0].name);
      FirstConsumerItem(cs, ms);
    }
  }

  lemma FirstConsumerItem(cs: seq<Consumer>, ms: seq<Message>)
    requires cs != []
    ensures ConsumerItems(cs) + MessageItems(ms) + [EndItem]
         == [ConsumerItem(cs[0])] + (ConsumerItems(cs[1..]) + MessageItems(ms) + [EndItem])
  {
    assert ConsumerItems(cs) == [ConsumerItem(cs[0])] + ConsumerItems(cs[1..]);
  }

  lemma {:induction false} DrainsBody(codec: Codec, rest: seq<Entry>, left: nat, lo: uint64, ord: nat, last: EntryRef)
      returns (cs: seq<Consumer>, ms: seq<Message>)
    requires Drain(codec, Mid(rest, left, lo, ord, last)).Complete?
    ensures |cs| == left && Body(codec, rest, lo, cs, ms)
    decreases left
  {
    if left == 0 {
      cs := [];
      ms := DrainsTail(codec, rest, lo, ord, last);
      assert rest[0..] == rest;
    } else {
      var e := rest[0];
      var name := CutPrefix(e.name, CONSUMER_PREFIX).value;
      var more;
      more, ms := DrainsBody(codec, rest[1..], left - 1, lo, ord + 1, EntryRef(ord + 1, KindConsumer, name, 0));
      cs := [Consumer(name, e.ts, e.body)] + more;
      assert rest[1..][|more|..] == rest[|cs|..];
    }
  }

  lemma HoldsBody(codec: Codec, a: seq<Entry>, c: Contents)
    ensures Holds(codec, a, c) <==>
            a != [] && IsState(codec, a[0], c.ts, c.st) && c.st.consumers == |c.consumers| &&
            Body(codec, a[1..], Below(c.st.firstSeq), c.consumers, c.msgs)
  {
    var k := |c.consumers|;
    if a != [] && k <= |a[1..]| {
      var t := a[1..][k..];
      assert forall i :: 0 <= i < |t| ==> t[i] == a[1 + k + i];
    }
  }

  /** A complete backup is read as exactly its items. */
  lemma HoldsDecodes(codec: Codec, a: seq<Entry>, c: Contents)
    requires Holds(codec, a, c)
    ensures Decode(codec, a) == Complete(ItemsOf(c))
  {
    HoldsBody(codec, a, c);
    BodyDrains(codec, a[1..], Below(c.st.firstSeq), 1, EntryRef(1, KindState, STATE_ENTRY, 0), c.consumers, c.msgs);
    assert ItemsOf(c) == [StateItem(c.ts, c.st)] + (ConsumerItems(c.consumers) + MessageItems(c.msgs) + [EndItem]);
  }

  /** Whatever is read to the end was a complete backup. */
  lemma DecodesHolds(codec: Codec, a: seq<Entry>) returns (c: Contents)
    requires Decode(codec, a).Complete?
    ensures Holds(codec, a, c) && Decode(codec, a) == Complete(ItemsOf(c))
  {
    var st := codec.parseState(a[0].body).value;
    var cs, ms := DrainsBody(codec, a[1..], st.consumers, Below(st.firstSeq), 1, EntryRef(1, KindState, STATE_ENTRY, 0));
    c := Contents(a[0].ts, st, cs, ms);
    HoldsBody(codec, a, c);
    HoldsDecodes(codec, a, c);
  }

  /** The decoder reaches End exactly on the archives of the format. */
  lemma DecoderAcceptsExactly(codec: Codec, a: seq<Entry>)
    ensures Decode(codec, a).Complete? <==> exists c :: Holds(codec, a, c)
  {
    if Decode(codec, a).Complete? {
      var c := DecodesHolds(codec, a);
    } else {
      forall c | Holds(codec, a, c)
        ensures false
      {
        HoldsDecodes(codec, a, c);
      }
    }
  }

  /** An archive holds one backup at most. */
  lemma HoldsUnique(codec: Codec, a: seq<Entry>, c: Contents, c': Contents)
    requires Holds(codec, a, c) && Holds(codec, a, c')
    ensures c == c'
  {
    HoldsDecodes(codec, a, c);
    HoldsDecodes(codec, a, c');
    InItemsOf(c);
    InItemsOf(c');
    assert ItemsOf(c)[0] == ItemsOf(c')[0];
  }

  /* ---------- Every run of Next calls ---------- */

  /** The decoder after `n` calls of Next. */
  function After(codec: Codec, a: seq<Entry>, n: nat): DecState {
    if n == 0 then Init(a) else Step(codec, After(codec, a, n - 1)).0
  }

  /** What call `n` (from 0) returns. */
  function Returned(codec: Codec, a: seq<Entry>, n: nat): Outcome {
    Step(codec, After(codec, a, n)).1
  }

  function Rank(p: Phase): nat {
    match p
    case PhaseState => 0
    case PhaseConsumers => 1
    case PhaseMessages => 2
    case PhaseDone => 3
  }

  /** How many of the first `n` calls returned an item. */
  function ItemCount(codec: Codec, a: seq<Entry>, n: nat): nat {
    if n == 0 then 0 else ItemCount(codec, a, n - 1) + if Returned(codec, a, n - 1).Got? then 1 else 0
  }

  lemma StepBookkeeping(codec: Codec, d: DecState)
    requires d.ordinal == d.last.ordinal
    ensures var (d', out) := Step(codec, d);
            && Rank(d.phase) <= Rank(d'.phase)
            && d'.ordinal == d'.last.ordinal == d.ordinal + if out.Got? then 1 else 0
  {
  }

  /** Phases never go back, and the last good entry is numbered by the items returned. */
  lemma {:induction false} RunBookkeeping(codec: Codec, a: seq<Entry>, n: nat)
    ensures Rank(After(codec, a, n).phase) <= Rank(After(codec, a, n + 1).phase)
    ensures After(codec, a, n).ordinal == ItemCount(codec, a, n) == After(codec, a, n).last.ordinal
  {
    hide Step; hide Rank;
    if n > 0 {
      RunBookkeeping(codec, a, n - 1);
      StepBookkeeping(codec, After(codec, a, n - 1));
    }
    StepBookkeeping(codec, After(codec, a, n));
  }

  lemma StepStops(codec: Codec, d: DecState)
    ensures var (d', out) := Step(codec, d);
            var again := Step(codec, d').1;
            && (out.Failed? ==> again == out)
            && (out == Got(EndItem) ==> again == Eof)
            && (out == Eof ==> again == Eof)
  {
    if d.err.None? && d.phase != PhaseDone && d.rest != [] {
      var (d', out) := Step(codec, d);
      assert out.Failed? ==> d'.err == Some(out.err);
    }
  }

  /** Errors are sticky and End is returned once: after an error every later call
      returns the same error, after End every later call returns EOF, and EOF is
      never returned otherwise. */
  lemma {:induction false} RunStops(codec: Codec, a: seq<Entry>, i: nat, j: nat)
    requires i < j
    ensures Returned(codec, a, i).Failed? ==> Returned(codec, a, j) == Returned(codec, a, i)
    ensures Returned(codec, a, i) == Got(EndItem) ==> Returned(codec, a, j) == Eof
    ensures Returned(codec, a, i) == Eof ==> Returned(codec, a, j) == Eof
    decreases j - i
  {
    hide Step;
    StepStops(codec, After(codec, a, j - 1));
    if j > i + 1 {
      RunStops(codec, a, i, j - 1);
    }
  }

  lemma {:induction false} EofOnlyAfterEnd(codec: Codec, a: seq<Entry>, n: nat)
    requires After(codec, a, n).phase == PhaseDone
    ensures exists i :: 0 <= i < n && Returned(codec, a, i) == Got(EndItem)
  {
    if After(codec, a, n - 1).phase == PhaseDone {
      EofOnlyAfterEnd(codec, a, n - 1);
    } else {
      assert Returned(codec, a, n - 1) == Got(EndItem);
    }
  }

  lemma {:induction false} EndAhead(codec: Codec, a: seq<Entry>, n: nat) returns (m: nat)
    requires After(codec, a, n).phase != PhaseDone && Drain(codec, After(codec, a, n)).Complete?
    ensures Returned(codec, a, m) == Got(EndItem)
    decreases |After(codec, a, n).rest|
  {
    hide Step;
    m := n;
    DrainStep(codec, After(codec, a, n), []);
    if Returned(codec, a, n) != Got(EndItem) {
      assert After(codec, a, n + 1) == Step(codec, After(codec, a, n)).0;
      m := EndAhead(codec, a, n + 1);
    }
  }

  lemma {:induction false} EndBehind(codec: Codec, a: seq<Entry>, n: nat)
    requires After(codec, a, n).phase != PhaseDone && After(codec, a, n).err.None?
    ensures Decode(codec, a).Complete? <==> Drain(codec, After(codec, a, n)).Complete?
  {
    if n > 0 {
      EndBehind(codec, a, n - 1);
    }
  }

  /** Some call of Next returns End exactly when the archive is a complete backup. */
  lemma RunReachesEndExactly(codec: Codec, a: seq<Entry>)
    ensures (exists n: nat :: Returned(codec, a, n) == Got(EndItem)) <==> exists c :: Holds(codec, a, c)
  {
    DecoderAcceptsExactly(codec, a);
    if Decode(codec, a).Complete? {
      var m := EndAhead(codec, a, 0);
    }
    forall n: nat | Returned(codec, a, n) == Got(EndItem)
      ensures Decode(codec, a).Complete?
    {
      EndBehind(codec, a, n);
    }
  }

  lemma BoundBelowMaximum(lo: int, ms: seq<Message>)
    requires Ascending(lo, ms) && ms != []
    ensures lo < TWO64 - 1
  {
    assert ms[0].seqno > lo;
  }

  /** A state with first_seq 0 puts the bound at the maximum: no message is accepted. */
  lemma FirstSeqZeroRejectsMessages(codec: Codec, a: seq<Entry>, c: Contents)
    requires Holds(codec, a, c) && c.st.firstSeq == 0
    ensures c.msgs == []
  {
    if c.msgs != [] {
      BoundBelowMaximum(Below(c.st.firstSeq), c.msgs);
    }
  }
}
