/** The independent re-count of an archive (backup/verify.go) and what it says of
    the archives the editor writes. */
module Verify {
  import opened Text
  import opened Archive
  import opened E = Encoder
  import opened EditSpec
  import D = Decoder
  import L = EditLaws

  /** InfoReport and VerifyReport, as far as they count the archive. */
  datatype ScanReport = ScanReport(entries: nat, consumers: seq<string>, messages: nat, bytes: nat,
                                   firstSeq: uint64, lastSeq: uint64, firstTime: int, lastTime: int, declared: StreamState)

  const NOTHING := ScanReport(0, [], 0, 0, 0, 0, 0, 0, StreamState(0, 0, 0, 0, 0))

  function Names(cs: seq<Consumer>): (r: seq<string>)
    ensures |r| == |cs| && forall i :: 0 <= i < |r| ==> r[i] == cs[i].name
  {
    seq(|cs|, i requires 0 <= i < |cs| => cs[i].name)
  }

  /** What a scan that has read `items` has counted. */
  function ScanOf(storage: Storage, items: seq<Item>): ScanReport {
    var cs, ms := ConsumersIn(items), MessagesIn(items);
    ScanReport(|items|, Names(cs), |ms|, TotalSize(storage, ms),
               if ms == [] then 0 else ms[0].seqno, if ms == [] then 0 else ms[|ms| - 1].seqno,
               if ms == [] then 0 else ms[0].ts, if ms == [] then 0 else ms[|ms| - 1].ts,
               if items != [] && items[0].StateItem? then items[0].st else NOTHING.declared)
  }

  /** DeclaredCountsAdvisory */
  predicate Advisory(r: ScanReport) {
    r.messages > 0 && (r.declared.msgs == 0 || r.declared.bytes == 0)
  }

  /** One item counted. */
  function Count(storage: Storage, r: ScanReport, item: Item): ScanReport {
    var next := r.(entries := r.entries + 1);
    match item
    case StateItem(_, st) => next.(declared := st)
    case ConsumerItem(c) => next.(consumers := r.consumers + [c.name])
    case MessageItem(m) =>
      next.(messages := r.messages + 1, bytes := r.bytes + SizeOf(storage, m),
            firstSeq := if r.firstSeq == 0 then m.seqno else r.firstSeq,
            firstTime := if r.firstSeq == 0 then m.ts else r.firstTime,
            lastSeq := m.seqno, lastTime := m.ts)
    case EndItem => next
  }

  predicate Numbered(items: seq<Item>) {
    forall m :: m in MessagesIn(items) ==> m.seqno > 0
  }

  lemma ScanSnoc(storage: Storage, items: seq<Item>, item: Item)
    requires Numbered(items) && (item.StateItem? <==> items == [])
    ensures ScanOf(storage, items + [item]) == Count(storage, ScanOf(storage, items), item)
  {
    hide SizeOf; hide TotalSize;
    var all := items + [item];
    if item.MessageItem? {
      ScanMessage(storage, items, item.msg);
    } else {
      InAppend(items, item);
      if items != [] {
        assert all[0] == items[0];
      }
      assert MessagesIn(items) + [] == MessagesIn(items);
      if !item.ConsumerItem? {
        assert ConsumersIn(items) + [] == ConsumersIn(items);
      }
    }
  }

  lemma ScanMessage(storage: Storage, items: seq<Item>, m: Message)
    requires Numbered(items) && items != []
    ensures ScanOf(storage, items + [MessageItem(m)]) == Count(storage, ScanOf(storage, items), MessageItem(m))
  {
    hide SizeOf; hide TotalSize; hide MessagesIn; hide ConsumersIn; hide Names;
    var ms := MessagesIn(items);
    InAppend(items, MessageItem(m));
    assert (items + [MessageItem(m)])[0] == items[0];
    TotalSizeAppend(storage, ms, m);
    if ms != [] {
      assert ms[0] in ms && (ms + [m])[0] == ms[0];
    }
    assert ConsumersIn(items) + [] == ConsumersIn(items);
  }

  lemma NumberedSnoc(items: seq<Item>, item: Item)
    requires Numbered(items) && (item.MessageItem? ==> item.msg.seqno > 0)
    ensures Numbered(items + [item])
  {
    InAppend(items, item);
  }

  /** An entry reference gives the item's place, kind, name and sequence. */
  predicate RefersTo(r: D.EntryRef, ordinal: nat, item: Item) {
    && r.ordinal == ordinal
    && match item
       case StateItem(_, _) => r.kind == D.KindState && r.name == STATE_ENTRY && r.seqno == 0
       case ConsumerItem(c) => r.kind == D.KindConsumer && r.name == c.name && r.seqno == 0
       case MessageItem(m) => r.kind == D.KindMessage && r.name == m.subject && r.seqno == m.seqno
       case EndItem => r.kind == D.KindEnd && r.name == "" && r.seqno == 0
  }

  /** The last good entry is the last item read. */
  predicate LastGoodOf(r: D.EntryRef, items: seq<Item>) {
    if items == [] then r == D.EntryRef(0, D.NoEntry, "", 0) else RefersTo(r, |items|, items[|items| - 1])
  }

  lemma LastGoodStep(r: D.EntryRef, items: seq<Item>, item: Item)
    requires RefersTo(r, |items| + 1, item)
    ensures LastGoodOf(r, items + [item])
  {
  }

  lemma LastGoodNone(codec: Codec, a: seq<Entry>)
    ensures LastGoodOf(D.Init(a).last, [])
  {
  }

  lemma StepNumbers(codec: Codec, d: D.DecState)
    ensures var (d', out) := D.Step(codec, d);
            out.Got? ==> (out.item.MessageItem? ==> out.item.msg.seqno > 0) && d'.ordinal == d.ordinal + 1 && RefersTo(d'.last, d'.ordinal, out.item)
    ensures !D.Step(codec, d).1.Got? ==> D.Step(codec, d).0.ordinal == d.ordinal && D.Step(codec, d).0.last == d.last
  {
  }

  /** scan: reads to the sentinel, counting. A broken archive yields the counts of
      the items before the error and names the last good entry. */
  method Scan(codec: Codec, storage: Storage, a: seq<Entry>) returns (complete: bool, r: ScanReport, lastGood: D.EntryRef)
    ensures complete <==> D.Decode(codec, a).Complete?
    ensures complete ==> D.Decode(codec, a) == D.Complete(D.ItemsRead(codec, D.Init(a)))
    ensures r == ScanOf(storage, D.ItemsRead(codec, D.Init(a)))
    ensures LastGoodOf(lastGood, D.ItemsRead(codec, D.Init(a)))
  {
    hide D.Step; hide D.Drain; hide D.Decode; hide D.ItemsRead; hide ScanOf; hide Numbered; hide RefersTo; hide LastGoodOf; hide SizeOf;
    var dec := new D.Decoder(codec, a);
    ghost var items := [];
    r := NOTHING;
    assert [] + D.ItemsRead(codec, D.Init(a)) == D.ItemsRead(codec, D.Init(a));
    Begin(codec, storage, a);
    LastGoodNone(codec, a);
    while true
      invariant dec.codec == codec && dec.phase != D.PhaseDone && (dec.phase == D.PhaseState <==> items == [])
      invariant D.Decode(codec, a) == D.Prepend(items, D.Drain(codec, dec.Value()))
      invariant D.ItemsRead(codec, D.Init(a)) == items + D.ItemsRead(codec, dec.Value())
      invariant Numbered(items) && r == ScanOf(storage, items) && dec.ordinal == r.entries == |items| && LastGoodOf(dec.last, items)
      decreases |dec.rest|
    {
      D.DrainStep(codec, dec.Value(), items);
      D.ItemsReadStep(codec, dec.Value(), items);
      D.StepShape(codec, dec.Value());
      StepNumbers(codec, dec.Value());
      var out := dec.Next();
      lastGood := dec.LastGood();
      if !out.Got? {
        return false, r, lastGood;
      }
      ScanSnoc(storage, items, out.item);
      NumberedSnoc(items, out.item);
      LastGoodStep(lastGood, items, out.item);
      r := r.(entries := r.entries + 1);
      match out.item {
        case StateItem(_, st) =>
          r := r.(declared := st);
        case ConsumerItem(c) =>
          r := r.(consumers := r.consumers + [c.name]);
        case MessageItem(m) =>
          r := r.(messages := r.messages + 1, bytes := r.bytes + SizeOf(storage, m));
          if r.firstSeq == 0 {
            r := r.(firstSeq := m.seqno, firstTime := m.ts);
          }
          r := r.(lastSeq := m.seqno, lastTime := m.ts);
        case EndItem =>
          return true, r, lastGood;
      }
      items := items + [out.item];
    }
  }

  lemma Begin(codec: Codec, storage: Storage, a: seq<Entry>)
    ensures D.Decode(codec, a) == D.Prepend([], D.Drain(codec, D.Init(a)))
    ensures Numbered([]) && ScanOf(storage, []) == NOTHING
  {
    var r := D.Drain(codec, D.Init(a));
    if r.Complete? {
      assert [] + r.items == r.items;
    }
  }

  /* ---------- Scanning what was written ---------- */

  /** A scan of a complete backup counts its contents. */
  lemma ScanOfContents(codec: Codec, storage: Storage, a: seq<Entry>, c: Contents)
    requires Holds(codec, a, c)
    ensures D.Decode(codec, a).Complete?
    ensures var r := ScanOf(storage, D.Decode(codec, a).items);
            && r.messages == |c.msgs| && r.bytes == TotalSize(storage, c.msgs) && r.declared == c.st
            && r.consumers == Names(c.consumers) && r.entries == 2 + |c.consumers| + |c.msgs|
            && (c.msgs == [] ==> r.firstSeq == 0 && r.lastSeq == 0 && r.firstTime == 0 && r.lastTime == 0)
            && (c.msgs != [] ==> var first, last := c.msgs[0], c.msgs[|c.msgs| - 1];
                                 r.firstSeq == first.seqno && r.lastSeq == last.seqno && r.firstTime == first.ts && r.lastTime == last.ts)
  {
    D.HoldsDecodes(codec, a, c);
    InItemsOf(c);
  }

  lemma {:induction false} SizesPositive(storage: Storage, ms: seq<Message>)
    ensures TotalSize(storage, ms) >= |ms|
    decreases |ms|
  {
    if ms != [] {
      SizesPositive(storage, ms[..|ms| - 1]);
    }
  }

  /** The archive an edit writes decodes to exactly what the edit keeps, exactly
      when every consumer name it writes survives path cleaning. */
  lemma EditedArchiveDecodes(su: Setup, src: seq<Entry>, c: Contents, file: seq<byte>)
    requires Holds(su.codec, src, c) && OutputFile(su, c) == Some(file)
    requires AllIntact(EntriesOf(OutConsumers(su, c.consumers), Outs(su, Chosen(su, c.msgs))))
    ensures su.codec.Lawful() && su.framing.Lawful() && DocsLawful(su) ==>
              && (D.Decode(su.codec, su.framing.unframe(file)) == D.Complete(ItemsOf(OutContents(su, c)))
                  <==> RegularNames(OutConsumers(su, c.consumers)))
              && (Holds(su.codec, su.framing.unframe(file), OutContents(su, c)) <==> RegularNames(OutConsumers(su, c.consumers)))
  {
    hide Chosen; hide Outs; hide OutConsumers; hide EntriesOf; hide AllIntact; hide StateHead; hide RegularNames; hide IsState;
    hide Codec.Lawful; hide E.Framing.Lawful; hide DocsLawful;
    if !(su.codec.Lawful() && su.framing.Lawful() && DocsLawful(su)) {
      return;
    }
    var out := OutContents(su, c);
    var a := su.framing.unframe(file);
    GoodSource(su.codec, src, c);
    HeadThenEntries(su.codec, su.framing, out.ts, out.st, EntriesOf(out.consumers, out.msgs));
    OutputHolds(su, c, a);
    if Holds(su.codec, a, out) {
      D.HoldsDecodes(su.codec, a, out);
    } else if D.Decode(su.codec, a) == D.Complete(ItemsOf(out)) {
      var c' := D.DecodesHolds(su.codec, a);
      SameItems(c', out);
    }
  }

  /** The contents that the items of an archive spell. */
  function WhatIsIn(items: seq<Item>): Option<Contents> {
    if |items| > 0 && items[0].StateItem? then Some(Contents(items[0].ts, items[0].st, ConsumersIn(items), MessagesIn(items))) else None
  }

  lemma ItemsBack(c: Contents)
    ensures WhatIsIn(ItemsOf(c)) == Some(c)
  {
    hide ConsumersIn; hide MessagesIn;
    InItemsOf(c);
  }

  /** Read back, the archive holds what the options ask for, in every message,
      consumer and field of its head. */
  lemma EditReadsBack(su: Setup, src: seq<Entry>, c: Contents, file: seq<byte>, r: Report)
    requires Holds(su.codec, src, c) && OutputFile(su, c) == Some(file) && L.Edited(su, c, OutContents(su, c), r)
    requires AllIntact(EntriesOf(OutConsumers(su, c.consumers), Outs(su, Chosen(su, c.msgs))))
    ensures su.codec.Lawful() && su.framing.Lawful() && DocsLawful(su) && RegularNames(OutConsumers(su, c.consumers)) ==>
              var d := D.Decode(su.codec, su.framing.unframe(file));
              d.Complete? && WhatIsIn(d.items).Some? && L.Edited(su, c, WhatIsIn(d.items).value, r)
  {
    hide Chosen; hide Outs; hide OutConsumers; hide EntriesOf; hide AllIntact; hide OutputFile; hide RegularNames; hide L.Edited; hide D.Decode; hide Holds;
    hide Codec.Lawful; hide E.Framing.Lawful; hide DocsLawful; hide OutContents; hide WhatIsIn; hide ItemsOf;
    if su.codec.Lawful() && su.framing.Lawful() && DocsLawful(su) && RegularNames(OutConsumers(su, c.consumers)) {
      var out, d := OutContents(su, c), D.Decode(su.codec, su.framing.unframe(file));
      EditedArchiveDecodes(su, src, c, file);
      assert d == D.Complete(ItemsOf(out));
      ItemsBack(out);
    }
  }

  lemma SameItems(a: Contents, b: Contents)
    requires ItemsOf(a) == ItemsOf(b)
    ensures a == b
  {
    InItemsOf(a);
    InItemsOf(b);
    assert ItemsOf(a)[0] == ItemsOf(b)[0];
  }

  lemma GoodSource(codec: Codec, src: seq<Entry>, c: Contents)
    requires Holds(codec, src, c)
    ensures GoodDocs(codec, c.consumers) && c.st.consumers == |c.consumers| && Ascending(Below(c.st.firstSeq), c.msgs)
  {
    forall i | 0 <= i < |c.consumers| ensures codec.GoodConsumer(c.consumers[i].data) {
      assert IsConsumer(codec, src[1 + i], c.consumers[i]);
    }
  }

  /** Scanning an edited archive finds the message count and stored bytes of its
      patched head, which are those the edit reported, so the declared counts are
      never advisory. */
  lemma EditedArchiveAccounts(su: Setup, c: Contents, a: seq<Entry>)
    requires Holds(su.codec, a, OutContents(su, c))
    ensures D.Decode(su.codec, a).Complete?
    ensures var r := ScanOf(su.storage, D.Decode(su.codec, a).items);
            && r.messages == r.declared.msgs == ReportOf(su, c).kept == ReportOf(su, c).state.msgs
            && r.bytes == r.declared.bytes == ReportOf(su, c).bytes == ReportOf(su, c).state.bytes
            && !Advisory(r)
  {
    hide Chosen; hide OutMessage; hide Tally; hide LostTombstones; hide Passing;
    ScanOfContents(su.codec, su.storage, a, OutContents(su, c));
    SizesPositive(su.storage, OutContents(su, c).msgs);
  }
}
