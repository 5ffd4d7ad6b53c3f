/** The editor (backup/edit.go): one pass over the source, or two when a
    per-subject rule applies, writing as it reads. */
module Editor {
  import opened Text
  import opened Archive
  import opened Filter
  import opened Obfuscate
  import opened TokenHash
  import opened E = Encoder
  import opened EditSpec
  import D = Decoder
  import L = EditLaws
  import S = SubjectState

  /* ---------- What can stop a pass ---------- */

  /** An item on which a pass that keeps `p` gives up, collisions aside. */
  predicate Trouble(su: Setup, writing: bool, filtering: bool, p: Message -> bool, item: Item) {
    match item
    case StateItem(ts, st) => writing && StateHead(su.codec, su.framing, ts, ArchiveState(su, st, false, 0, 0)).None?
    case MessageItem(m) => (filtering && Judge(su, m).Unreadable?) || (p(m) && !Ready(su, writing, m))
    case _ => false
  }

  predicate Blocked(su: Setup, writing: bool, filtering: bool, p: Message -> bool, items: seq<Item>) {
    exists i :: 0 <= i < |items| && Trouble(su, writing, filtering, p, items[i])
  }

  /** Two tokens to hash up to here, or one of them and one `known` before, have
      the same hash. */
  predicate Clash(su: Setup, known: set<string>, p: Message -> bool, items: seq<Item>) {
    !Injective(su.hash, known + NeedsOf(Needer(su, p), items))
  }

  predicate Halted(su: Setup, known: set<string>, writing: bool, filtering: bool, p: Message -> bool, items: seq<Item>) {
    Blocked(su, writing, filtering, p, items) || Clash(su, known, p, items)
  }

  /** The archive cannot be read to its end, or an item of it stops the pass. */
  predicate Stuck(su: Setup, known: set<string>, writing: bool, filtering: bool, p: Message -> bool, src: seq<Entry>) {
    match D.Decode(su.codec, src)
    case Broken(_) => true
    case Complete(items) => Halted(su, known, writing, filtering, p, items)
  }

  /** A message the first of two passes cannot observe. */
  predicate Unobservable(su: Setup, item: Item) {
    item.MessageItem? && (Judge(su, item.msg).Unreadable? ||
                          (PassesFilters(su, item.msg) && su.o.kvCompact && item.msg.hdrSize > 0 && HeadersOf(su.lib, item.msg).None?))
  }

  predicate Unobserved(su: Setup, src: seq<Entry>) {
    match D.Decode(su.codec, src)
    case Broken(_) => true
    case Complete(items) => exists i :: 0 <= i < |items| && Unobservable(su, items[i])
  }

  lemma BlockedSnoc(su: Setup, writing: bool, filtering: bool, p: Message -> bool, items: seq<Item>, item: Item)
    ensures Blocked(su, writing, filtering, p, items + [item]) <==>
            Blocked(su, writing, filtering, p, items) || Trouble(su, writing, filtering, p, item)
  {
    var all := items + [item];
    assert all[|items|] == item && forall i :: 0 <= i < |items| ==> all[i] == items[i];
  }

  lemma ClashLasts(su: Setup, known: set<string>, p: Message -> bool, items: seq<Item>, all: seq<Item>)
    requires items <= all && Clash(su, known, p, items)
    ensures Clash(su, known, p, all)
  {
    hide NeedsOf;
    NeedsPrefix(Needer(su, p), all, |items|);
    assert all[..|items|] == items;
  }

  /** One more item halts a pass by itself or by what it hashes. */
  lemma HaltedSnoc(su: Setup, known: set<string>, writing: bool, filtering: bool, p: Message -> bool, items: seq<Item>, item: Item)
    requires !Halted(su, known, writing, filtering, p, items)
    ensures Halted(su, known, writing, filtering, p, items + [item]) <==>
            Trouble(su, writing, filtering, p, item) || Clash(su, known, p, items + [item])
  {
    BlockedSnoc(su, writing, filtering, p, items, item);
  }

  /** A pass starts with nothing read and nothing wrong. */
  lemma StartOf(su: Setup, known: set<string>, writing: bool, filtering: bool, p: Message -> bool, src: seq<Entry>)
    ensures D.Decode(su.codec, src) == D.Prepend([], D.Drain(su.codec, D.Init(src)))
    ensures Injective(su.hash, known) ==> !Halted(su, known, writing, filtering, p, [])
  {
    var r := D.Drain(su.codec, D.Init(src));
    if r.Complete? {
      assert [] + r.items == r.items;
    }
    assert known + {} == known;
  }

  /** What halts a pass on the way halts it on the archive. */
  lemma PrefixHalts(su: Setup, known: set<string>, writing: bool, filtering: bool, p: Message -> bool, src: seq<Entry>, items: seq<Item>, rest: D.Drained)
    requires D.Decode(su.codec, src) == D.Prepend(items, rest) && Halted(su, known, writing, filtering, p, items)
    ensures Stuck(su, known, writing, filtering, p, src)
  {
    hide Trouble; hide Clash;
    if rest.Complete? {
      var all := items + rest.items;
      if Blocked(su, writing, filtering, p, items) {
        var i :| 0 <= i < |items| && Trouble(su, writing, filtering, p, items[i]);
        assert all[i] == items[i];
      } else {
        ClashLasts(su, known, p, items, all);
      }
    }
  }

  lemma EndIsFine(su: Setup, writing: bool, filtering: bool, p: Message -> bool)
    ensures !Trouble(su, writing, filtering, p, EndItem)
  {
  }

  /** A consumer that is not written hashes nothing. */
  lemma UnwrittenNeeds(su: Setup, p: Message -> bool, c: Consumer)
    requires su.o.renumber
    ensures Needer(su, p)(ConsumerItem(c)) == {}
  {
    assert ConsumerNeeder(su)(c) == {};
  }

  lemma RenderIs(su: Setup, i: nat, m: Message)
    ensures RenderOf(su).message(i, m) == OutMessage(su, i, m)
  {
  }

  /** The counters of the filters over a whole source. */
  function FilterCounters(su: Setup, c: Contents): Counters {
    Counters(|c.msgs|, Tally(su, c.msgs), LostTombstones(su, c.msgs),
             if su.o.renumber then 0 else |c.consumers|, if su.o.renumber then |c.consumers| else 0)
  }

  /** The same once the per-subject rule has been charged for what it dropped. */
  function FinalCounters(su: Setup, c: Contents): Counters {
    FilterCounters(su, c).(dropped := WithRule(su, Tally(su, c.msgs), |Passing(su, c.msgs)| - |Chosen(su, c.msgs)|))
  }

  /* ---------- The editor's counters after some items ---------- */

  datatype Counters = Counters(sourceMessages: nat, dropped: DropCounts, tombstones: nat, consumersKept: nat, consumersDropped: nat)

  function CountersAfter(su: Setup, items: seq<Item>): Counters {
    var ms, n := MessagesIn(items), |ConsumersIn(items)|;
    Counters(|ms|, Tally(su, ms), LostTombstones(su, ms), if su.o.renumber then 0 else n, if su.o.renumber then n else 0)
  }

  datatype Totals = Totals(kept: nat, bytes: nat, firstOut: uint64, entries: seq<Entry>)

  /** The write side under some rendering of the kept messages. */
  function TotalsAfter(rd: Render, storage: Storage, writing: bool, p: Message -> bool, items: seq<Item>): Totals {
    var outs := Rendered(rd, Pick(p, MessagesIn(items)));
    Totals(|outs|, TotalSize(storage, outs), FirstSeqOf(outs), if writing then EntriesUpTo(rd, p, items) else [])
  }

  function CountersStep(su: Setup, c: Counters, item: Item): Counters {
    match item
    case ConsumerItem(_) =>
      if su.o.renumber then c.(consumersDropped := c.consumersDropped + 1) else c.(consumersKept := c.consumersKept + 1)
    case MessageItem(m) =>
      c.(sourceMessages := c.sourceMessages + 1,
         dropped := if Judge(su, m).Reject? then c.dropped.Add(Judge(su, m).kind) else c.dropped,
         tombstones := c.tombstones + if LostTombstone(su, m) then 1 else 0)
    case _ => c
  }

  lemma CountersAfterSnoc(su: Setup, items: seq<Item>, item: Item)
    ensures CountersAfter(su, items + [item]) == CountersStep(su, CountersAfter(su, items), item)
  {
    hide Judge; hide LostTombstone; hide MessagesIn; hide ConsumersIn; hide DropCounts.Add; hide Judger;
    var ms := MessagesIn(items);
    InAppend(items, item);
    if item.MessageItem? {
      assert (ms + [item.msg])[..|ms|] == ms;
    } else {
      assert ms + [] == ms;
    }
  }

  /** One more kept message, rendered as `out`. */
  function TotalsMessage(storage: Storage, writing: bool, t: Totals, out: Message): Totals {
    Totals(t.kept + 1, t.bytes + SizeOf(storage, out), if t.kept == 0 then out.seqno else t.firstOut,
           t.entries + if writing then [EntryOf(out)] else [])
  }

  lemma TotalsAfterMessage(rd: Render, storage: Storage, writing: bool, p: Message -> bool, items: seq<Item>, m: Message)
    ensures var t := TotalsAfter(rd, storage, writing, p, items);
            TotalsAfter(rd, storage, writing, p, items + [MessageItem(m)]) ==
            if p(m) then TotalsMessage(storage, writing, t, rd.message(t.kept, m)) else t
  {
    hide SizeOf;
    hide Pick; hide MessagesIn; hide EntriesUpTo; hide TotalSize; hide Rendered;
    var before := Pick(p, MessagesIn(items));
    InAppend(items, MessageItem(m));
    PickSnoc(p, MessagesIn(items), m);
    UpToSnoc(rd, p, items, MessageItem(m));
    if p(m) {
      RenderedSnoc(rd, before, m);
      TotalSizeAppend(storage, Rendered(rd, before), rd.message(|before|, m));
    } else {
      assert before + [] == before;
    }
  }

  /** Items other than messages only add their entries. */
  lemma TotalsAfterOther(rd: Render, storage: Storage, writing: bool, p: Message -> bool, items: seq<Item>, item: Item)
    requires !item.MessageItem?
    ensures var t := TotalsAfter(rd, storage, writing, p, items);
            TotalsAfter(rd, storage, writing, p, items + [item]) ==
            t.(entries := t.entries + if writing then EntriesFor(rd, p, items, item) else [])
  {
    InAppend(items, item);
    assert MessagesIn(items) + [] == MessagesIn(items);
    UpToSnoc(rd, p, items, item);
  }

  lemma UnobservedPrefix(su: Setup, src: seq<Entry>, items: seq<Item>, rest: D.Drained)
    requires D.Decode(su.codec, src) == D.Prepend(items, rest) && items != [] && Unobservable(su, items[|items| - 1])
    ensures Unobserved(su, src)
  {
    if rest.Complete? {
      assert (items + rest.items)[|items| - 1] == items[|items| - 1];
    }
  }

  /** Reading the archive again yields the resolved totals. */
  predicate Agrees(su: Setup, p: Message -> bool, res: S.Resolved, r: D.Drained) {
    match r
    case Broken(_) => false
    case Complete(items) =>
      var t := TotalsAfter(RenderOf(su), su.storage, false, p, items);
      t.kept == res.msgs && (!su.obfuscate ==> t.bytes == res.bytes)
  }

  /** Items returned first stay first. */
  lemma FirstOf(items: seq<Item>, rest: D.Drained)
    requires items != []
    ensures D.Prepend(items, rest).Complete? ==> D.Prepend(items, rest).items != [] && D.Prepend(items, rest).items[0] == items[0]
  {
  }

  class Editor {
    const su: Setup
    const writing: bool
    const enc: E.Encoder
    const obf: Obfuscator
    var file: seq<byte>
    var headTs: int
    var srcState: StreamState
    var firstOut: uint64
    var bytes: nat
    var sourceMessages: nat
    var kept: nat
    var dropped: DropCounts
    var consumersKept: nat
    var consumersDropped: nat
    var tombstones: nat

    /** The tokens known before the edit. */
    ghost const base: set<string>

    ghost predicate Valid()
      reads enc, enc.w, obf
    {
      enc.Valid() && enc.framing == su.framing && obf.Valid() && obf.hash == su.hash
    }

    constructor (su: Setup, writing: bool, obf: Obfuscator)
      requires obf.Valid() && obf.hash == su.hash
      ensures Valid() && Fresh()
      ensures this.su == su && this.writing == writing && this.obf == obf && fresh(enc) && fresh(enc.w)
      ensures base == obf.forward.Keys
    {
      this.su, this.writing, this.obf := su, writing, obf;
      base := obf.forward.Keys;
      enc := new E.Encoder(su.framing);
      file, headTs, srcState, firstOut, bytes := [], 0, StreamState(0, 0, 0, 0, 0), 0, 0;
      sourceMessages, kept, dropped, consumersKept, consumersDropped, tombstones := 0, 0, NO_DROPS, 0, 0, 0;
    }

    ghost predicate Unwritten()
      reads this`file, this`kept, this`bytes, this`firstOut, enc`entries, obf`forward
    {
      enc.entries == [] && kept == 0 && bytes == 0 && firstOut == 0 && file == [] && obf.forward.Keys == base
    }

    ghost predicate Fresh()
      reads this`file, this`kept, this`bytes, this`firstOut, enc`entries, obf`forward
      reads this`sourceMessages, this`dropped, this`tombstones, this`consumersKept, this`consumersDropped
    {
      && Unwritten()
      && sourceMessages == 0 && dropped == NO_DROPS && consumersKept == 0 && consumersDropped == 0 && tombstones == 0
    }

    /* ----- The state after some items, said of the items ----- */

    /** The report counters after `items`. */
    ghost predicate Counted(items: seq<Item>)
      reads this`sourceMessages, this`dropped, this`tombstones, this`consumersKept, this`consumersDropped
    {
      Counters(sourceMessages, dropped, tombstones, consumersKept, consumersDropped) == CountersAfter(su, items)
    }

    /** The write side after `items`, keeping the messages of `p`. */
    ghost predicate WroteUpTo(p: Message -> bool, items: seq<Item>)
      reads this`kept, this`bytes, this`firstOut, enc`entries
    {
      Totals(kept, bytes, firstOut, enc.entries) == TotalsAfter(RenderOf(su), su.storage, writing, p, items)
    }

    /** The tokens known after `items`. */
    ghost predicate Knowing(p: Message -> bool, items: seq<Item>)
      reads obf`forward
    {
      obf.forward.Keys == base + NeedsOf(Needer(su, p), items)
    }

    /** What one more item adds to the tokens known. */
    lemma KnowingSnoc(p: Message -> bool, items: seq<Item>, item: Item)
      requires Valid() && Knowing(p, items)
      ensures base + NeedsOf(Needer(su, p), items + [item]) == obf.forward.Keys + Needer(su, p)(item)
      ensures Clash(su, base, p, items + [item]) <==> !Injective(su.hash, obf.forward.Keys + Needer(su, p)(item))
      ensures Injective(su.hash, obf.forward.Keys)
      ensures Needer(su, p)(item) == {} ==> Knowing(p, items + [item]) && !Clash(su, base, p, items + [item])
    {
      hide NeedsOf; hide Injective; hide Inverse; hide E.Encoder.Valid;
      NeedsSnoc(Needer(su, p), items, item);
      KnownAreInjective(su.hash, obf.Value());
      assert obf.forward.Keys + {} == obf.forward.Keys;
    }

    /** The head after `items`: reserved once the state was read. */
    ghost predicate HeadAfter(items: seq<Item>)
      reads this`file, this`headTs, this`srcState
    {
      if items == [] then file == [] else items[0].StateItem? && HeadReserved(items[0].ts)
    }

    /** The state last read from the source. */
    ghost predicate SourceIs(items: seq<Item>)
      reads this`srcState
    {
      items != [] ==> items[0].StateItem? && srcState == items[0].st
    }

    /** The reserved head. */
    ghost predicate HeadReserved(ts: int)
      reads this`file, this`headTs, this`srcState
    {
      writing ==> headTs == ts && Some(file) == StateHead(su.codec, su.framing, ts, ArchiveState(su, srcState, false, 0, 0))
    }

    /* ----- Steps ----- */

    /** evaluate: applies the stateless filters and counts the message. */
    method Evaluate(m: Message) returns (r: Option<bool>, body: MsgBody)
      modifies this`sourceMessages, this`dropped, this`tombstones
      ensures fresh(body) && body.m == m && body.lib == su.lib
      ensures r.None? <==> Judge(su, m).Unreadable?
      ensures r.Some? ==> body.Valid() && r.value == PassesFilters(su, m) && sourceMessages == old(sourceMessages) + 1
      ensures r.Some? ==> dropped == if Judge(su, m).Reject? then old(dropped).Add(Judge(su, m).kind) else old(dropped)
      ensures r.Some? ==> tombstones == old(tombstones) + if LostTombstone(su, m) then 1 else 0
    {
      sourceMessages := sourceMessages + 1;
      body := new MsgBody(su.lib, m);
      var kind := EvalMeta(su.lib, su.o, m);
      if kind.None? && su.o.HasHeaderFilters() {
        var hdr := body.Headers();
        if hdr.None? {
          return None, body;
        }
        kind := EvalHeaders(su.lib, su.o, hdr.value);
      }
      if kind.None? && su.o.HasPayloadFilters() {
        var payload := body.Payload();
        if payload.None? {
          return None, body;
        }
        kind := EvalPayload(su.o, payload.value);
      }
      if kind.Some? {
        assert FirstReject(su, m) == Reject(kind.value);
        var ok := Drop(kind.value, body);
        return if ok then Some(false) else None, body;
      }
      assert FirstReject(su, m) == Keep;
      return Some(true), body;
    }

    /** drop: counts the rejection, and a tombstone lost to a content filter. */
    method Drop(kind: DropKind, body: MsgBody) returns (ok: bool)
      requires body.Valid() && body.lib == su.lib && FirstReject(su, body.m) == Reject(kind)
      modifies this`dropped, this`tombstones, body
      ensures ok <==> !Judge(su, body.m).Unreadable?
      ensures ok ==> body.Valid() && Judge(su, body.m) == Reject(kind)
      ensures dropped == old(dropped).Add(kind)
      ensures ok ==> tombstones == old(tombstones) + if LostTombstone(su, body.m) then 1 else 0
    {
      dropped := dropped.Add(kind);
      if !ContentFilter(kind) || body.m.hdrSize == 0 {
        return true;
      }
      var hdr := body.Headers();
      if hdr.None? {
        return false;
      }
      if IsTombstone(hdr.value) {
        tombstones := tombstones + 1;
      }
      return true;
    }

    /** The obfuscated form of a message, or None when something cannot be read or
        two tokens collide. */
    method ObfuscateMessage(body: MsgBody) returns (r: Option<Message>)
      requires Valid() && su.obfuscate && body.Valid() && body.lib == su.lib
      modifies obf, body
      ensures Valid()
      ensures r.Some? <==> Ready(su, true, body.m) && Injective(su.hash, old(obf.forward.Keys) + MessageNeeder(su)(body.m))
      ensures r.Some? ==> obf.forward.Keys == old(obf.forward.Keys) + MessageNeeder(su)(body.m)
      ensures r.Some? ==> r.value.seqno == body.m.seqno
      ensures r.Some? ==> IsForm(su, kept, body.m, r.value.(seqno := OutMessage(su, kept, body.m).seqno))
    {
      hide MessageNeeds; hide Injective; hide Inverse; hide E.Encoder.Valid; hide HeadersOf; hide PayloadOf; hide ObfSubject; hide ObfHeader; hide HeaderBlock;
      var hdr := body.Headers();
      if hdr.None? {
        return None;
      }
      var mapped := obf.Message(su.kinds, su.render, body.m.subject, hdr.value);
      if mapped.None? {
        return None;
      }
      var (subject, block) := mapped.value;
      var out := Zeros(body.m.payloadSize);
      if su.counter {
        var payload := body.Payload();
        if payload.None? {
          return None;
        }
        out := payload.value;
      } else if body.m.payloadSize > 0 {
        obf.bodies := obf.bodies + 1;
      }
      return Some(Message(subject, body.m.seqno, body.m.ts, |block|, body.m.payloadSize, block + out));
    }

    /** The message as it goes to the encoder: obfuscated, or with its whole body
        whatever prefix of it has been read. */
    method PlainForm(body: MsgBody) returns (r: Option<Message>)
      requires Valid() && body.Valid() && body.lib == su.lib
      modifies obf, body
      ensures Valid()
      ensures r.Some? <==> (su.obfuscate ==> Ready(su, true, body.m)) && Injective(su.hash, old(obf.forward.Keys) + MessageNeeder(su)(body.m))
      ensures r.Some? ==> obf.forward.Keys == old(obf.forward.Keys) + MessageNeeder(su)(body.m)
      ensures r.Some? ==> r.value.seqno == body.m.seqno
      ensures r.Some? ==> IsForm(su, kept, body.m, r.value.(seqno := OutMessage(su, kept, body.m).seqno))
    {
      if su.obfuscate {
        r := ObfuscateMessage(body);
      } else {
        obf.Starts();
        var all := body.Reader();
        r := Some(body.m.(body := all));
      }
    }

    /** The same with its number in the output. */
    method OutputForm(body: MsgBody) returns (r: Option<Message>)
      requires Valid() && body.Valid() && body.lib == su.lib
      modifies obf, body
      ensures Valid()
      ensures r.Some? <==> (su.obfuscate ==> Ready(su, true, body.m)) && Injective(su.hash, old(obf.forward.Keys) + MessageNeeder(su)(body.m))
      ensures r.Some? ==> obf.forward.Keys == old(obf.forward.Keys) + MessageNeeder(su)(body.m)
      ensures r.Some? ==> Writes(su, body.m, r.value, OutMessage(su, kept, body.m))
    {
      hide Valid; hide Injective; hide MessageNeeder; hide Ready; hide MsgBody.Valid;
      var form := PlainForm(body);
      if form.None? {
        return None;
      }
      var out := form.value;
      if su.o.renumber {
        out := out.(seqno := (kept + 1) % TWO64);
      }
      OutSeqno(su, kept, body.m);
      WrittenForm(su, kept, body.m, out);
      return Some(out);
    }

    /** writeMessage: counts the kept message and writes its output form. */
    method WriteMessage(body: MsgBody) returns (ok: bool)
      requires Valid() && body.Valid() && body.lib == su.lib
      modifies this`kept, this`firstOut, this`bytes, enc, enc.w, obf, body
      ensures ok <==> Ready(su, writing, body.m) && Injective(su.hash, old(obf.forward.Keys) + MessageNeeder(su)(body.m))
      ensures ok ==> Valid() && kept == old(kept) + 1
      ensures ok ==> obf.forward.Keys == old(obf.forward.Keys) + MessageNeeder(su)(body.m)
      ensures ok ==> bytes == old(bytes) + SizeOf(su.storage, OutMessage(su, old(kept), body.m))
      ensures ok ==> firstOut == if old(kept) == 0 then OutMessage(su, old(kept), body.m).seqno else old(firstOut)
      ensures ok ==> enc.entries == old(enc.entries) + if writing then [EntryOf(OutMessage(su, old(kept), body.m))] else []
    {
      hide OutMessage; hide SizeOf; hide Ready; hide MessageNeeder; hide Injective; hide Obfuscator.Valid; hide MsgBody.Valid;
      hide Trimmed; hide EntryOf; hide Framing.Flat;
      ReadyCases(su, body.m);
      var form := OutputForm(body);
      if form.None? {
        return false;
      }
      var out := form.value;
      kept := kept + 1;
      if kept == 1 {
        firstOut := out.seqno;
      }
      bytes := bytes + SizeOf(su.storage, out);
      ok := true;
      if writing {
        ok := enc.WriteMessage(out);
      }
    }

    method WriteConsumer(c: Consumer) returns (ok: bool)
      requires Valid() && !su.o.renumber
      modifies enc, enc.w, obf`forward, obf`reverse
      ensures Valid()
      ensures ok <==> Injective(su.hash, old(obf.forward.Keys) + ConsumerNeeder(su)(c))
      ensures ok ==> obf.forward.Keys == old(obf.forward.Keys) + ConsumerNeeder(su)(c)
      ensures ok ==> enc.entries == old(enc.entries) + (if writing then [ConsumerEntry(OutConsumer(su, c))] else [])
    {
      hide Injective; hide ConsumerNeeds; hide Inverse; hide ConsumerEntry; hide ObfFields; hide Framing.Flat;
      var out := c;
      if su.obfuscate {
        var mapped := obf.Consumer(c.name, su.fields(c.data));
        if mapped.None? {
          return false;
        }
        out := Consumer(mapped.value.0, c.ts, su.withFields(c.data, mapped.value.1));
      } else {
        obf.Starts();
      }
      if writing {
        WriteOne(out);
      } else {
        assert enc.entries == enc.entries + [];
      }
      return true;
    }

    method WriteOne(out: Consumer)
      requires enc.Valid() && enc.framing == su.framing
      modifies enc, enc.w
      ensures enc.Valid() && enc.entries == old(enc.entries) + [ConsumerEntry(out)]
    {
      enc.WriteConsumer(out.name, out.ts, out.data);
    }

    /** writeState: reserves the head, which run overwrites. */
    method WriteState(ts: int) returns (ok: bool)
      requires Valid() && file == []
      modifies this`file, this`headTs
      ensures ok <==> !(writing && StateHead(su.codec, su.framing, ts, ArchiveState(su, srcState, false, 0, 0)).None?)
      ensures ok ==> HeadReserved(ts)
    {
      if !writing {
        return true;
      }
      headTs := ts;
      var head := StateHead(su.codec, su.framing, ts, ArchiveState(su, srcState, false, 0, 0));
      if head.None? {
        return false;
      }
      file := file + head.value;
      assert [] + head.value == head.value;
      return true;
    }

    /* ----- One item of a pass ----- */

    /** The state of a pass that keeps `p` after `items`. */
    ghost predicate At(p: Message -> bool, items: seq<Item>)
      reads this`file, this`headTs, this`srcState, this`kept, this`bytes, this`firstOut, enc, enc.w, obf
    {
      Valid() && WroteUpTo(p, items) && HeadAfter(items) && Knowing(p, items)
    }

    method StateStep(item: Item, ghost p: Message -> bool) returns (ok: bool)
      requires At(p, []) && item.StateItem?
      modifies this`file, this`headTs
      ensures srcState == item.st ==> (ok <==> !(writing && StateHead(su.codec, su.framing, item.ts, ArchiveState(su, item.st, false, 0, 0)).None?))
      ensures ok ==> At(p, [item])
      ensures !Clash(su, base, p, [item])
    {
      assert [] + [item] == [item];
      TotalsAfterOther(RenderOf(su), su.storage, writing, p, [], item);
      KnowingSnoc(p, [], item);
      assert enc.entries + [] == enc.entries;
      ok := WriteState(item.ts);
    }

    /** A consumer of either pass: written unless messages are renumbered. */
    method ConsumerStep(c: Consumer, ghost p: Message -> bool, ghost items: seq<Item>) returns (ok: bool)
      requires At(p, items) && items != []
      modifies enc, enc.w, obf`forward, obf`reverse
      ensures ok ==> At(p, items + [ConsumerItem(c)])
      ensures ok <==> !Clash(su, base, p, items + [ConsumerItem(c)])
    {
      hide Valid; hide Clash; hide Injective; hide NeedsOf; hide HeadAfter; hide TotalsAfter; hide ConsumerEntry; hide OutConsumer; hide ConsumerNeeds;
      TotalsAfterOther(RenderOf(su), su.storage, writing, p, items, ConsumerItem(c));
      HeadLasts(items, ConsumerItem(c));
      KnowingSnoc(p, items, ConsumerItem(c));
      if su.o.renumber {
        UnwrittenNeeds(su, p, c);
        assert Knowing(p, items + [ConsumerItem(c)]);
        assert EntriesFor(RenderOf(su), p, items, ConsumerItem(c)) == [];
        assert enc.entries + [] == enc.entries;
        assert WroteUpTo(p, items + [ConsumerItem(c)]);
        return true;
      }
      ok := WriteConsumer(c);
    }

    lemma HeadLasts(items: seq<Item>, item: Item)
      requires HeadAfter(items) && items != []
      ensures HeadAfter(items + [item])
    {
      assert (items + [item])[0] == items[0];
    }

    /** A message that is kept: written, from whatever was read of its body. */
    method KeepStep(body: MsgBody, ghost p: Message -> bool, ghost items: seq<Item>) returns (ok: bool)
      requires At(p, items) && items != [] && p(body.m) && body.Valid() && body.lib == su.lib
      modifies this`kept, this`firstOut, this`bytes, enc, enc.w, obf, body
      ensures ok ==> At(p, items + [MessageItem(body.m)])
      ensures ok <==> Ready(su, writing, body.m) && !Clash(su, base, p, items + [MessageItem(body.m)])
    {
      hide Ready; hide OutMessage; hide TotalsAfter; hide HeadAfter; hide SizeOf; hide RenderOf; hide Valid; hide MsgBody.Valid;
      hide Clash; hide Injective; hide NeedsOf; hide MessageNeeder;
      TotalsAfterMessage(RenderOf(su), su.storage, writing, p, items, body.m);
      RenderIs(su, kept, body.m);
      HeadLasts(items, MessageItem(body.m));
      KnowingSnoc(p, items, MessageItem(body.m));
      ok := WriteMessage(body);
    }

    /** A message that is not kept leaves the output alone. */
    lemma SkipStep(m: Message, p: Message -> bool, items: seq<Item>)
      requires At(p, items) && items != [] && !p(m)
      ensures At(p, items + [MessageItem(m)]) && !Clash(su, base, p, items + [MessageItem(m)])
    {
      hide Valid; hide TotalsAfter; hide HeadAfter; hide NeedsOf; hide Clash;
      HeadLasts(items, MessageItem(m));
      KnowingSnoc(p, items, MessageItem(m));
      TotalsAfterMessage(RenderOf(su), su.storage, writing, p, items, m);
    }

    /** evaluate, counted. */
    method EvaluateStep(m: Message, ghost items: seq<Item>) returns (r: Option<bool>, body: MsgBody)
      requires Counted(items)
      modifies this`sourceMessages, this`dropped, this`tombstones
      ensures fresh(body) && body.m == m && body.lib == su.lib
      ensures r.None? <==> Judge(su, m).Unreadable?
      ensures r.Some? ==> body.Valid() && r.value == PassesFilters(su, m) && Counted(items + [MessageItem(m)])
    {
      hide Judge; hide LostTombstone; hide MsgBody.Valid;
      CountersAfterSnoc(su, items, MessageItem(m));
      r, body := Evaluate(m);
    }

    /** filterMessage */
    method FilterMessage(m: Message, ghost items: seq<Item>) returns (ok: bool)
      requires At(Passer(su), items) && items != [] && Counted(items)
      modifies this`sourceMessages, this`dropped, this`tombstones, this`kept, this`firstOut, this`bytes, enc, enc.w, obf
      ensures ok ==> At(Passer(su), items + [MessageItem(m)]) && Counted(items + [MessageItem(m)])
      ensures ok <==> !Trouble(su, writing, true, Passer(su), MessageItem(m)) && !Clash(su, base, Passer(su), items + [MessageItem(m)])
    {
      hide Judge; hide Ready; hide At; hide Valid; hide MsgBody.Valid; hide Counted; hide Clash;
      var passed, body := EvaluateStep(m, items);
      if passed.None? {
        return false;
      }
      if !passed.value {
        SkipStep(m, Passer(su), items);
        return true;
      }
      ok := KeepStep(body, Passer(su), items);
    }

    method EndStep(ghost p: Message -> bool, ghost items: seq<Item>)
      requires At(p, items) && items != []
      modifies enc, enc.w
      ensures At(p, items + [EndItem]) && !Clash(su, base, p, items + [EndItem])
    {
      hide OutMessage; hide HeadAfter; hide TotalsAfter; hide RenderOf; hide ConsumerEntry; hide Obfuscator.Valid; hide E.Encoder.Valid; hide NeedsOf; hide Clash;
      TotalsAfterOther(RenderOf(su), su.storage, writing, p, items, EndItem);
      HeadLasts(items, EndItem);
      KnowingSnoc(p, items, EndItem);
      if writing {
        enc.WriteEnd();
      } else {
        assert enc.entries + [] == enc.entries;
      }
    }

    /** One item of the single pass. */
    method SingleItem(item: Item, ghost items: seq<Item>) returns (ok: bool)
      requires At(Passer(su), items) && Counted(items) && SourceIs(items) && (item.StateItem? <==> items == [])
      modifies this, enc, enc.w, obf
      ensures ok ==> At(Passer(su), items + [item]) && Counted(items + [item]) && SourceIs(items + [item])
      ensures ok <==> !Trouble(su, writing, true, Passer(su), item) && !Clash(su, base, Passer(su), items + [item])
    {
      hide Judge; hide Ready; hide Valid; hide WroteUpTo; hide StateHead; hide HeadReserved; hide Clash; hide Knowing;
      assert items != [] ==> (items + [item])[0] == items[0];
      match item
      case StateItem(ts, st) =>
        srcState := st;
        ok := StateStep(item, Passer(su));
        CountersAfterSnoc(su, items, item);
        assert items + [item] == [item];
      case ConsumerItem(c) =>
        CountersAfterSnoc(su, items, item);
        if su.o.renumber {
          consumersDropped := consumersDropped + 1;
        } else {
          consumersKept := consumersKept + 1;
        }
        ok := ConsumerStep(c, Passer(su), items);
      case MessageItem(m) =>
        ok := FilterMessage(m, items);
      case EndItem =>
        CountersAfterSnoc(su, items, item);
        EndStep(Passer(su), items);
        ok := true;
    }

    lemma NothingRead()
      ensures SourceIs([])
    {
    }

    /** What was known before an edit does not collide. */
    lemma Unclashed(p: Message -> bool)
      requires At(p, [])
      ensures Injective(su.hash, base)
    {
      hide Inverse; hide Injective; hide E.Encoder.Valid;
      KnownAreInjective(su.hash, obf.Value());
      NeedsNone(Needer(su, p));
      assert base + {} == base;
    }

    /** singlePass: filters and writes in one reading of the source. */
    method SinglePass(src: seq<Entry>) returns (ok: bool, ghost items: seq<Item>)
      requires At(Passer(su), []) && Counted([])
      modifies this, enc, enc.w, obf
      ensures ok ==> D.Decode(su.codec, src) == D.Complete(items) && At(Passer(su), items) && Counted(items) && SourceIs(items)
      ensures ok <==> !Stuck(su, base, writing, true, Passer(su), src)
    {
      hide Judge; hide Trouble; hide At; hide Counted; hide Halted; hide Clash; hide SourceIs; hide D.Step; hide D.Drain; hide D.Decode;
      var dec := new D.Decoder(su.codec, src);
      ghost var p := Passer(su);
      items := [];
      assert SourceIs([]) by { NothingRead(); }
      StartOf(su, base, writing, true, p, src);
      Unclashed(p);
      while true
        invariant dec.codec == su.codec && dec.phase != D.PhaseDone && (dec.phase == D.PhaseState <==> items == [])
        invariant D.Decode(su.codec, src) == D.Prepend(items, D.Drain(su.codec, dec.Value()))
        invariant At(p, items) && Counted(items) && SourceIs(items) && !Halted(su, base, writing, true, p, items)
        decreases |dec.rest|
      {
        D.DrainStep(su.codec, dec.Value(), items);
        D.StepShape(su.codec, dec.Value());
        var r := dec.Next();
        if !r.Got? {
          return false, items;
        }
        HaltedSnoc(su, base, writing, true, p, items, r.item);
        ok := SingleItem(r.item, items);
        if r.item.EndItem? {
          return ok, items + [r.item];
        }
        items := items + [r.item];
        if !ok {
          PrefixHalts(su, base, writing, true, p, src, items, D.Drain(su.codec, dec.Value()));
          return false, items;
        }
      }
    }

    /* ----- Two passes ----- */

    /** What the first pass has observed after `items`. */
    ghost predicate Seeing(tracker: S.SubjectTracker, passed: nat, items: seq<Item>)
      reads tracker, tracker.kv, tracker.lps
    {
      && tracker.Valid() && tracker.rule == RuleOf(su.o)
      && passed == |Passing(su, MessagesIn(items))|
      && tracker.Seen() == Observed(su, Passing(su, MessagesIn(items)))
    }

    lemma SeeingSnoc(items: seq<Item>, item: Item)
      ensures var before, after := Passing(su, MessagesIn(items)), Passing(su, MessagesIn(items + [item]));
              if item.MessageItem? && PassesFilters(su, item.msg) then
                after == before + [item.msg] && Observed(su, after) == Observed(su, before) + [ObsOf(su, item.msg)]
              else after == before
    {
      hide Judge; hide ObsOf;
      InAppend(items, item);
      if item.MessageItem? {
        PickSnoc(Passer(su), MessagesIn(items), item.msg);
        assert Passing(su, MessagesIn(items)) + [] == Passing(su, MessagesIn(items));
      } else {
        assert MessagesIn(items) + [] == MessagesIn(items);
      }
    }

    /** Observes a message that passed; a KV compaction also reads its headers. */
    method ObserveMessage(m: Message, body: MsgBody, tracker: S.SubjectTracker) returns (ok: bool)
      requires tracker.Valid() && body.Valid() && body.m == m && body.lib == su.lib
      modifies body, tracker.kv, tracker.lps
      ensures tracker.Valid()
      ensures ok <==> !(su.o.kvCompact && m.hdrSize > 0 && HeadersOf(su.lib, m).None?)
      ensures ok ==> tracker.Seen() == old(tracker.Seen()) + [ObsOf(su, m)]
    {
      hide HeadersOf; hide IsTombstone; hide SizeOf;
      var tomb := false;
      if su.o.kvCompact && m.hdrSize > 0 {
        var hdr := body.Headers();
        if hdr.None? {
          return false;
        }
        tomb := IsTombstone(hdr.value);
      }
      tracker.Observe(m.subject, m.seqno, SizeOf(su.storage, m), tomb);
      return true;
    }

    method FirstItem(item: Item, tracker: S.SubjectTracker, passed: nat, ghost items: seq<Item>) returns (ok: bool, now: nat)
      requires Counted(items) && SourceIs(items) && Seeing(tracker, passed, items) && (item.StateItem? <==> items == [])
      modifies this`srcState, this`sourceMessages, this`dropped, this`tombstones, this`consumersKept, this`consumersDropped
      modifies tracker.kv, tracker.lps
      ensures ok <==> !Unobservable(su, item)
      ensures ok ==> Counted(items + [item]) && SourceIs(items + [item]) && Seeing(tracker, now, items + [item])
    {
      hide Judge; hide LostTombstone; hide HeadersOf; hide S.SubjectTracker.Valid; hide MsgBody.Valid; hide Passing; hide Observed; hide ObsOf;
      ok, now := true, passed;
      assert items != [] ==> (items + [item])[0] == items[0];
      CountersAfterSnoc(su, items, item);
      SeeingSnoc(items, item);
      match item
      case StateItem(_, st) =>
        srcState := st;
        assert items + [item] == [item];
      case ConsumerItem(_) =>
        if su.o.renumber {
          consumersDropped := consumersDropped + 1;
        } else {
          consumersKept := consumersKept + 1;
        }
      case MessageItem(m) =>
        var pass, body := EvaluateStep(m, items);
        if pass.None? {
          return false, passed;
        }
        if pass.value {
          ok := ObserveMessage(m, body, tracker);
          now := passed + 1;
        }
      case EndItem =>
    }

    /** The first pass: filters and observes, writes nothing. */
    method FirstPass(src: seq<Entry>, tracker: S.SubjectTracker) returns (ok: bool, passed: nat, ghost items: seq<Item>)
      requires Counted([]) && Seeing(tracker, 0, [])
      modifies this`srcState, this`sourceMessages, this`dropped, this`tombstones, this`consumersKept, this`consumersDropped
      modifies tracker.kv, tracker.lps
      ensures ok <==> !Unobserved(su, src)
      ensures ok ==> D.Decode(su.codec, src) == D.Complete(items) && Counted(items) && SourceIs(items) && Seeing(tracker, passed, items)
    {
      hide Unobservable; hide Counted; hide SourceIs; hide Seeing; hide D.Step; hide D.Drain; hide D.Decode; hide Blocked;
      var dec := new D.Decoder(su.codec, src);
      items, passed := [], 0;
      assert SourceIs([]) by { NothingRead(); }
      StartOf(su, base, false, false, Passer(su), src);
      while true
        invariant dec.codec == su.codec && dec.phase != D.PhaseDone && (dec.phase == D.PhaseState <==> items == [])
        invariant D.Decode(su.codec, src) == D.Prepend(items, D.Drain(su.codec, dec.Value()))
        invariant Counted(items) && SourceIs(items) && Seeing(tracker, passed, items)
        invariant forall i :: 0 <= i < |items| ==> !Unobservable(su, items[i])
        decreases |dec.rest|
      {
        D.DrainStep(su.codec, dec.Value(), items);
        D.StepShape(su.codec, dec.Value());
        var r := dec.Next();
        if !r.Got? {
          return false, passed, items;
        }
        ok, passed := FirstItem(r.item, tracker, passed, items);
        items := items + [r.item];
        assert items[|items| - 1] == r.item;
        if !ok {
          if r.item.EndItem? {
            assert Unobservable(su, items[|items| - 1]);
          } else {
            UnobservedPrefix(su, src, items, D.Drain(su.codec, dec.Value()));
          }
          return false, passed, items;
        }
        if r.item.EndItem? {
          return true, passed, items;
        }
      }
    }

    lemma AgreesAt(p: Message -> bool, res: S.Resolved, items: seq<Item>)
      requires At(p, items)
      ensures Agrees(su, p, res, D.Complete(items + [EndItem])) ==> kept == res.msgs && (!su.obfuscate ==> bytes == res.bytes)
    {
      TotalsAfterOther(RenderOf(su), su.storage, false, p, items, EndItem);
    }

    /** One item of the second pass: no filter is asked, only the resolved state. */
    method SecondItem(item: Item, tracker: S.SubjectTracker, ghost p: Message -> bool, ghost items: seq<Item>) returns (ok: bool)
      requires At(p, items) && tracker.Valid() && (item.StateItem? <==> items == []) && !item.EndItem?
      requires p == KeptBy(S.Survivors(tracker.rule, tracker.Seen()))
      modifies this`file, this`headTs, this`kept, this`firstOut, this`bytes, enc, enc.w, obf
      ensures ok ==> At(p, items + [item])
      ensures (item.StateItem? ==> srcState == item.st) ==>
                (ok <==> !Trouble(su, writing, false, p, item) && !Clash(su, base, p, items + [item]))
    {
      hide Ready; hide Valid; hide WroteUpTo; hide HeadAfter; hide StateHead; hide S.SubjectTracker.Valid; hide Clash; hide Knowing;
      match item
      case StateItem(_, _) =>
        ok := StateStep(item, p);
        assert items + [item] == [item];
      case ConsumerItem(c) =>
        ok := ConsumerStep(c, p, items);
      case MessageItem(m) =>
        var keeps := tracker.Keeps(m.subject, m.seqno);
        if !keeps {
          SkipStep(m, p, items);
          return true;
        }
        var body := new MsgBody(su.lib, m);
        ok := KeepStep(body, p, items);
      case EndItem =>
    }

    /** The second pass: copies what the first resolved, and checks the totals.
        `same` says that the archive still begins with the state the first pass saw. */
    method SecondPass(second: seq<Entry>, tracker: S.SubjectTracker, res: S.Resolved, ghost p: Message -> bool, ghost same: bool)
        returns (ok: bool, ghost items: seq<Item>)
      requires At(p, []) && tracker.Valid() && p == KeptBy(S.Survivors(tracker.rule, tracker.Seen()))
      requires same ==> D.Decode(su.codec, second).Complete? && SourceIs(D.Decode(su.codec, second).items)
      modifies this`file, this`headTs, this`kept, this`firstOut, this`bytes, enc, enc.w, obf
      ensures ok ==> D.Decode(su.codec, second) == D.Complete(items) && At(p, items)
      ensures ok ==> kept == res.msgs && (!su.obfuscate ==> bytes == res.bytes)
      ensures ok && same ==> !Stuck(su, base, writing, false, p, second)
      ensures same && !Stuck(su, base, writing, false, p, second) && Agrees(su, p, res, D.Decode(su.codec, second)) ==> ok
    {
      hide Trouble; hide At; hide Halted; hide Clash; hide Agrees; hide D.Step; hide D.Drain; hide D.Decode; hide S.SubjectTracker.Valid; hide S.SubjectTracker.Seen;
      var dec := new D.Decoder(su.codec, second);
      items := [];
      StartOf(su, base, writing, false, p, second);
      Unclashed(p);
      while true
        invariant dec.codec == su.codec && dec.phase != D.PhaseDone && (dec.phase == D.PhaseState <==> items == [])
        invariant D.Decode(su.codec, second) == D.Prepend(items, D.Drain(su.codec, dec.Value()))
        invariant At(p, items) && (same ==> !Halted(su, base, writing, false, p, items))
        decreases |dec.rest|
      {
        D.DrainStep(su.codec, dec.Value(), items);
        D.StepShape(su.codec, dec.Value());
        var r := dec.Next();
        if !r.Got? {
          return false, items;
        }
        if same {
          HaltedSnoc(su, base, writing, false, p, items, r.item);
        }
        if r.item.EndItem? {
          AgreesAt(p, res, items);
          if kept != res.msgs || (!su.obfuscate && bytes != res.bytes) {
            return false, items;
          }
          EndStep(p, items);
          EndIsFine(su, writing, false, p);
          return true, items + [r.item];
        }
        FirstOf(items + [r.item], D.Drain(su.codec, dec.Value()));
        ok := SecondItem(r.item, tracker, p, items);
        items := items + [r.item];
        if !ok {
          if Halted(su, base, writing, false, p, items) {
            PrefixHalts(su, base, writing, false, p, second, items, D.Drain(su.codec, dec.Value()));
          }
          return false, items;
        }
      }
    }

    /* ----- The whole edit ----- */

    /** The counters are those of an edit whose filters and rule were resolved on
        `c` and whose messages were taken from `ds`. */
    ghost predicate Tallied(c: Contents, ds: seq<Message>)
      reads this`srcState, this`sourceMessages, this`dropped, this`tombstones, this`consumersKept, this`consumersDropped
      reads this`kept, this`bytes, this`firstOut
    {
      var outs := Outs(su, Taken(su, c.msgs, ds));
      && Counters(sourceMessages, dropped, tombstones, consumersKept, consumersDropped) == FinalCounters(su, c)
      && kept == |outs| == |Chosen(su, c.msgs)| && bytes == TotalSize(su.storage, outs)
      && (!su.obfuscate ==> bytes == TotalSize(su.storage, Outs(su, Chosen(su, c.msgs))))
      && (!su.o.renumber ==> firstOut == FirstSeqOf(outs))
      && srcState == c.st && Readable(su, c.msgs)
    }

    /** The editor has done what an edit does that was resolved on `c` and took its
        consumers and messages from the reading `d`. */
    ghost predicate Finished(c: Contents, d: Contents)
      reads this, enc, enc.w, obf
    {
      var taken := Taken(su, c.msgs, d.msgs);
      && Tallied(c, d.msgs)
      && (su.obfuscate ==> obf.Valid() && obf.hash == su.hash && obf.forward.Keys == base + EditNeeds(su, d.consumers, taken))
      && (writing ==> HeadReserved(d.ts) && enc.Valid() && enc.framing == su.framing &&
                      enc.entries == EntriesOf(OutConsumers(su, d.consumers), Outs(su, taken)))
    }

    lemma WriteStart(p: Message -> bool)
      requires Valid() && Unwritten()
      ensures At(p, [])
    {
      assert Pick(p, []) == [] && MessagesIn([]) == [];
      NeedsNone(Needer(su, p));
      assert base + {} == base;
    }

    lemma CountStart()
      requires Fresh()
      ensures Counted([]) && Unwritten()
    {
      assert MessagesIn([]) == [] && ConsumersIn([]) == [];
    }

    /** A pass that kept what the edit takes has finished it. */
    lemma FinishPass(c: Contents, d: Contents, p: Message -> bool)
      requires At(p, ItemsOf(d)) && srcState == c.st && Pick(p, d.msgs) == Taken(su, c.msgs, d.msgs) && Readable(su, c.msgs)
      requires Counters(sourceMessages, dropped, tombstones, consumersKept, consumersDropped) == FinalCounters(su, c)
      requires kept == |Chosen(su, c.msgs)| && (!su.obfuscate ==> bytes == TotalSize(su.storage, Outs(su, Chosen(su, c.msgs))))
      ensures Finished(c, d)
    {
      hide Chosen; hide Taken; hide OutMessage; hide StateHead; hide Obfuscator.Valid; hide E.Encoder.Valid; hide FinalCounters; hide Readable;
      hide NeedsOf; hide EditNeeds;
      InItemsOf(d);
      UpToEnd(RenderOf(su), p, d);
      NeedsOfItems(su, p, d);
    }

    lemma CountedAll(c: Contents)
      requires Counted(ItemsOf(c)) && SourceIs(ItemsOf(c))
      ensures Counters(sourceMessages, dropped, tombstones, consumersKept, consumersDropped) == FilterCounters(su, c)
      ensures srcState == c.st
    {
      hide Tally; hide LostTombstones;
      InItemsOf(c);
    }

    /** What a pass over `c` has kept. */
    lemma KeptAll(c: Contents, p: Message -> bool)
      requires At(p, ItemsOf(c))
      ensures kept == |Pick(p, c.msgs)| && bytes == TotalSize(su.storage, Outs(su, Pick(p, c.msgs)))
    {
      hide Valid; hide HeadAfter; hide Knowing; hide EntriesUpTo; hide TotalSize; hide OutMessage;
      InItemsOf(c);
    }

    /** A single-pass edit of the source. */
    method RunSingle(src: seq<Entry>) returns (ok: bool, ghost c: Contents)
      requires !su.o.PerSubject() && Valid() && Fresh()
      modifies this, enc, enc.w, obf
      ensures ok ==> Holds(su.codec, src, c) && Finished(c, c)
      ensures ok <==> !Stuck(su, base, writing, true, Passer(su), src)
    {
      hide At; hide Counted; hide SourceIs; hide Finished; hide Holds; hide D.Decode; hide Valid; hide Fresh; hide Stuck; hide Readable;
      CountStart();
      WriteStart(Passer(su));
      c := Contents(0, srcState, [], []);
      ghost var items;
      ok, items := SinglePass(src);
      if ok {
        c := D.DecodesHolds(su.codec, src);
        CountedAll(c);
        KeptAll(c, Passer(su));
        UnstuckReadable(su, base, writing, src, c);
        FinishPass(c, c, Passer(su));
      }
    }

    /** Accepts the totals of the first pass. */
    lemma ResolvedIs(c: Contents, passed: nat, tracker: S.SubjectTracker, res: S.Resolved)
      requires su.o.PerSubject() && Ascending(Below(c.st.firstSeq), c.msgs)
      requires Seeing(tracker, passed, ItemsOf(c)) && S.Resolves(res, tracker.rule, tracker.Seen())
      ensures var chosen := Chosen(su, c.msgs);
              && passed == |Passing(su, c.msgs)| && res.msgs == |chosen| <= passed
              && res.bytes == TotalSize(su.storage, chosen) && res.firstSeq == FirstSeqOf(chosen)
    {
      hide S.SubjectTracker.Valid; hide Passing; hide S.Resolves;
      InItemsOf(c);
      PassingAscending(su, Below(c.st.firstSeq), c.msgs);
      ResolvedTotals(su, Below(c.st.firstSeq), Passing(su, c.msgs), res);
    }

    lemma SeenPositive(c: Contents, passed: nat, tracker: S.SubjectTracker)
      requires Ascending(Below(c.st.firstSeq), c.msgs) && Seeing(tracker, passed, ItemsOf(c))
      ensures tracker.Valid() && tracker.rule == RuleOf(su.o) && S.Positive(tracker.Seen())
    {
      hide S.SubjectTracker.Valid; hide Passing;
      InItemsOf(c);
      PassingAscending(su, Below(c.st.firstSeq), c.msgs);
    }

    /** What the second reading is asked for. */
    lemma CopierIs(c: Contents, passed: nat, tracker: S.SubjectTracker)
      requires Seeing(tracker, passed, ItemsOf(c))
      ensures KeptBy(S.Survivors(tracker.rule, tracker.Seen())) == KeptBy(S.Survivors(RuleOf(su.o), Observed(su, Passing(su, c.msgs))))
    {
      hide S.SubjectTracker.Valid; hide Passing; hide KeptBy;
      InItemsOf(c);
    }

    /** Ends a plain per-subject dry run on the resolved totals. */
    method StopAfterResolve(res: S.Resolved, ghost c: Contents)
      requires !writing && !su.obfuscate && su.o.PerSubject() && srcState == c.st && Ascending(Below(c.st.firstSeq), c.msgs) && Readable(su, c.msgs)
      requires Counters(sourceMessages, dropped, tombstones, consumersKept, consumersDropped) == FinalCounters(su, c)
      requires var chosen := Chosen(su, c.msgs);
               res.msgs == |chosen| && res.bytes == TotalSize(su.storage, chosen) && res.firstSeq == FirstSeqOf(chosen)
      modifies this`kept, this`bytes, this`firstOut
      ensures Finished(c, c)
    {
      hide Chosen; hide Taken; hide FinalCounters; hide EntriesOf; hide HeadReserved; hide Readable; hide EditNeeds;
      kept, bytes, firstOut := res.msgs, res.bytes, res.firstSeq;
      TakenIsChosen(su, c);
      OutSizes(su, Chosen(su, c.msgs));
      if !su.o.renumber && Chosen(su, c.msgs) != [] {
        OutSeqno(su, 0, Chosen(su, c.msgs)[0]);
      }
    }

    lemma AgreesWhenSame(c: Contents, p: Message -> bool, res: S.Resolved)
      requires Pick(p, c.msgs) == Chosen(su, c.msgs)
      requires res.msgs == |Chosen(su, c.msgs)| && res.bytes == TotalSize(su.storage, Chosen(su, c.msgs))
      ensures Agrees(su, p, res, D.Complete(ItemsOf(c)))
    {
      hide Chosen; hide EntriesUpTo; hide Pick;
      InItemsOf(c);
      if !su.obfuscate {
        OutSizes(su, Chosen(su, c.msgs));
      }
    }

    lemma StateFirst(c: Contents)
      requires srcState == c.st
      ensures SourceIs(ItemsOf(c))
    {
    }

    /** Charges the per-subject rule for what it dropped. */
    method Charge(passed: nat, res: S.Resolved, ghost c: Contents)
      requires su.o.PerSubject() && passed == |Passing(su, c.msgs)| && res.msgs == |Chosen(su, c.msgs)| <= passed
      requires Counters(sourceMessages, dropped, tombstones, consumersKept, consumersDropped) == FilterCounters(su, c)
      modifies this`dropped
      ensures Counters(sourceMessages, dropped, tombstones, consumersKept, consumersDropped) == FinalCounters(su, c)
    {
      hide Passing; hide Chosen; hide Tally; hide LostTombstones;
      if su.o.kvCompact {
        dropped := dropped.(kvCompact := passed - res.msgs);
      } else {
        dropped := dropped.(lastPerSubject := passed - res.msgs);
      }
    }

    method NewTracker() returns (tracker: S.SubjectTracker)
      requires su.o.PerSubject()
      ensures fresh(tracker) && Seeing(tracker, 0, [])
      ensures tracker.kv != null ==> fresh(tracker.kv)
      ensures tracker.lps != null ==> fresh(tracker.lps)
    {
      tracker := new S.SubjectTracker(RuleOf(su.o));
      assert MessagesIn([]) == [] && Passing(su, []) == [] && Observed(su, []) == [];
    }

    /** What the first pass leaves behind. */
    ghost predicate FirstDone(src: seq<Entry>, tracker: S.SubjectTracker, res: S.Resolved, c: Contents)
      reads this`srcState, this`sourceMessages, this`dropped, this`tombstones, this`consumersKept, this`consumersDropped
      reads tracker, tracker.kv, tracker.lps
    {
      var chosen := Chosen(su, c.msgs);
      && D.Decode(su.codec, src) == D.Complete(ItemsOf(c)) && Ascending(Below(c.st.firstSeq), c.msgs) && Readable(su, c.msgs)
      && Seeing(tracker, |Passing(su, c.msgs)|, ItemsOf(c)) && srcState == c.st
      && Counters(sourceMessages, dropped, tombstones, consumersKept, consumersDropped) == FinalCounters(su, c)
      && res.msgs == |chosen| && res.bytes == TotalSize(su.storage, chosen) && res.firstSeq == FirstSeqOf(chosen)
    }

    /** The first reading, up to and including Resolve. */
    method ResolvePass(src: seq<Entry>, tracker: S.SubjectTracker) returns (ok: bool, res: S.Resolved, ghost c: Contents)
      requires su.o.PerSubject() && Fresh() && Seeing(tracker, 0, [])
      modifies this`srcState, this`sourceMessages, this`dropped, this`tombstones, this`consumersKept, this`consumersDropped
      modifies tracker.kv, tracker.lps
      ensures ok ==> Holds(su.codec, src, c) && FirstDone(src, tracker, res, c)
      ensures ok <==> !Unobserved(su, src)
    {
      hide Counted; hide SourceIs; hide D.Decode; hide Fresh; hide Unobserved; hide FilterCounters; hide FinalCounters; hide Readable;
      hide Chosen; hide Passing; hide S.Resolves; hide S.Positive; hide S.SubjectTracker.Valid; hide S.SubjectTracker.Seen; hide Ascending;
      c, res := Contents(0, srcState, [], []), S.NOTHING;
      CountStart();
      ghost var items;
      var passed;
      ok, passed, items := FirstPass(src, tracker);
      if ok {
        c := D.DecodesHolds(su.codec, src);
        CountedAll(c);
        SeenPositive(c, passed, tracker);
        ObservedReadable(su, src, c);
        res := tracker.Resolve();
        ResolvedIs(c, passed, tracker, res);
        Charge(passed, res, c);
      }
    }

    /** The copying pass over an unchanged archive. */
    lemma CopyOfSame(c: Contents, res: S.Resolved, p: Message -> bool)
      requires su.o.PerSubject() && Ascending(Below(c.st.firstSeq), c.msgs)
      requires p == KeptBy(S.Survivors(RuleOf(su.o), Observed(su, Passing(su, c.msgs))))
      requires res.msgs == |Chosen(su, c.msgs)| && res.bytes == TotalSize(su.storage, Chosen(su, c.msgs))
      ensures Agrees(su, p, res, D.Complete(ItemsOf(c)))
    {
      hide Agrees; hide Chosen; hide KeptBy; hide Pick; hide Passing;
      TakenIsChosen(su, c);
      AgreesWhenSame(c, p, res);
    }

    /** The second reading: rewinds the held handle and copies. */
    method CopyPass(src: seq<Entry>, second: seq<Entry>, rewound: bool, tracker: S.SubjectTracker, res: S.Resolved, ghost c: Contents)
        returns (ok: bool, ghost d: Contents)
      requires su.o.PerSubject() && (writing || su.obfuscate) && Valid() && Unwritten() && FirstDone(src, tracker, res, c)
      modifies this`file, this`headTs, this`kept, this`firstOut, this`bytes, enc, enc.w, obf
      ensures ok ==> rewound && Holds(su.codec, second, d) && Finished(c, d)
      ensures second == src ==> (ok <==> rewound && !BlocksCopy(su, base, writing, src))
    {
      hide At; hide Counted; hide SourceIs; hide Finished; hide D.Decode; hide Seeing; hide Unwritten; hide Valid; hide Holds; hide Readable;
      hide FinalCounters; hide Chosen; hide Passing; hide Agrees; hide Stuck; hide S.SubjectTracker.Valid; hide S.SubjectTracker.Seen; hide Ascending;
      hide KeptBy; hide TotalSize; hide BlocksCopy; hide OutMessage;
      d := c;
      if !rewound {
        return false, d;
      }
      SeenPositive(c, |Passing(su, c.msgs)|, tracker);
      CopierIs(c, |Passing(su, c.msgs)|, tracker);
      ghost var p := KeptBy(S.Survivors(tracker.rule, tracker.Seen()));
      BlocksCopyIs(su, base, writing, src, c);
      CopyOfSame(c, res, p);
      StateFirst(c);
      WriteStart(p);
      ghost var items;
      ok, items := SecondPass(second, tracker, res, p, second == src);
      if ok {
        d := D.DecodesHolds(su.codec, second);
        if !su.obfuscate {
          OutSizes(su, Chosen(su, c.msgs));
        }
        FinishPass(c, d, p);
      }
    }

    /** twoPass: resolves on the first reading of the source, copies on the second,
        which yields the entries `second`; a plain dry run stops in between. */
    method RunTwo(src: seq<Entry>, second: seq<Entry>, rewound: bool) returns (ok: bool, ghost c: Contents, ghost d: Contents)
      requires su.o.PerSubject() && Valid() && Fresh()
      modifies this, enc, enc.w, obf
      ensures ok ==> Holds(su.codec, src, c) && Finished(c, d)
      ensures ok ==> if writing || su.obfuscate then rewound && Holds(su.codec, second, d) else d == c
      ensures second == src && rewound ==> (ok <==> !Unobserved(su, src) && !BlocksCopy(su, base, writing, src))
    {
      hide Seeing; hide Finished; hide D.Decode; hide Unobserved; hide FinalCounters; hide Unwritten; hide Valid; hide Holds; hide Readable;
      hide Chosen; hide Passing; hide Ascending; hide Halted;
      var tracker := NewTracker();
      var res;
      ok, res, c := ResolvePass(src, tracker);
      d := c;
      if ok {
        if !writing && !su.obfuscate {
          StopAfterResolve(res, c);
        } else {
          ok, d := CopyPass(src, second, rewound, tracker, res, c);
        }
      }
    }

    /** Closes the encoder behind the head and overwrites the head with the totals. */
    method Patch(ghost c: Contents) returns (ok: bool)
      requires writing && Finished(c, c) && Taken(su, c.msgs, c.msgs) == Chosen(su, c.msgs)
      modifies this`file
      ensures ok <==> OutputFile(su, c).Some?
      ensures ok ==> Some(file) == OutputFile(su, c) && AllIntact(EntriesOf(OutConsumers(su, c.consumers), Outs(su, Chosen(su, c.msgs))))
    {
      hide Chosen; hide Taken; hide StateHead; hide OutMessage; hide FinalCounters; hide EntriesOf; hide Outs; hide OutConsumers; hide Readable; hide EditNeeds; hide Obfuscator.Valid;
      enc.Output();
      ghost var reserved, tail := file, enc.w.written;
      file := file + enc.w.written;
      var head := StateHead(su.codec, su.framing, headTs, ArchiveState(su, srcState, true, kept, bytes));
      if head.None? {
        return false;
      }
      HeadSizeFixed(su.codec, su.framing, headTs, ArchiveState(su, srcState, false, 0, 0), ArchiveState(su, srcState, true, kept, bytes));
      Patched(reserved, tail, head.value);
      file := head.value + file[|head.value|..];
      return true;
    }

    /** result: the report and the state for the meta file. */
    method Result(ghost c: Contents) returns (r: Report)
      requires Tallied(c, c.msgs) && Taken(su, c.msgs, c.msgs) == Chosen(su, c.msgs)
      ensures r == ReportOf(su, c)
    {
      hide Chosen; hide Taken; hide Tally; hide LostTombstones; hide Passing; hide TotalSize; hide OutMessage; hide HeadReserved; hide E.Encoder.Valid; hide Readable;
      var range := ResultRange(su, srcState, sourceMessages, kept, firstOut);
      r := Report(sourceMessages, kept, bytes, dropped, consumersKept, consumersDropped, tombstones,
                  StreamState(kept, bytes, range.0, range.1, consumersKept));
    }

    lemma FinishedFacts(c: Contents, d: Contents)
      requires Finished(c, d)
      ensures Tallied(c, d.msgs) && Readable(su, c.msgs)
      ensures sourceMessages == kept + dropped.Total()
      ensures su.obfuscate ==> obf.Valid() && obf.hash == su.hash && obf.forward.Keys == base + EditNeeds(su, d.consumers, Taken(su, c.msgs, d.msgs))
    {
      hide Chosen; hide Taken; hide Tally; hide LostTombstones; hide Passing; hide Readable; hide TotalSize; hide EditNeeds; hide WithRule; hide Obfuscator.Valid;
      CountersConserve(su, c.msgs);
    }

    /** The passes of Edit. `second` is what a second reading of the source yields
        and `rewound` whether the handle could be rewound for it. Whatever the second
        reading yields, a completed edit accounts for every message of the first. */
    method Edit(src: seq<Entry>, second: seq<Entry>, rewound: bool) returns (ok: bool, ghost c: Contents, ghost d: Contents)
      requires Valid() && Fresh()
      modifies this, enc, enc.w, obf
      ensures ok ==> Holds(su.codec, src, c) && Finished(c, d) && (d == c || Holds(su.codec, second, d))
      ensures ok && second == src ==> d == c
      ensures ok ==> Readable(su, c.msgs) && sourceMessages == kept + dropped.Total()
      ensures !su.o.PerSubject() || (second == src && rewound) ==> (ok <==> Editable(su, base, writing, src))
    {
      hide Finished; hide D.Decode; hide Unobserved; hide Valid; hide Fresh; hide Stuck; hide Holds; hide Readable; hide BlocksCopy;
      if su.o.PerSubject() {
        ok, c, d := RunTwo(src, second, rewound);
      } else {
        ok, c := RunSingle(src);
        d := c;
      }
      if ok {
        FinishedFacts(c, d);
        Alone(su, src, c);
      }
    }

    /** A whole edit of an unchanged source: the passes, then the head and the result. */
    method Run(src: seq<Entry>) returns (r: Option<Report>, ghost c: Contents)
      requires Valid() && Fresh()
      modifies this, enc, enc.w, obf
      ensures r.Some? ==> Holds(su.codec, src, c) && r.value == ReportOf(su, c) && Readable(su, c.msgs)
      ensures r.Some? ==> r.value.sourceMessages == r.value.kept + r.value.dropped.Total()
      ensures r.Some? && writing ==> Some(file) == OutputFile(su, c)
      ensures r.Some? && writing ==> AllIntact(EntriesOf(OutConsumers(su, c.consumers), Outs(su, Chosen(su, c.msgs))))
      ensures r.Some? && su.obfuscate ==>
                obf.Valid() && obf.hash == su.hash && obf.forward.Keys == base + EditNeeds(su, c.consumers, Chosen(su, c.msgs))
      ensures r.Some? <==> Editable(su, base, writing, src) && (writing ==> exists x :: Holds(su.codec, src, x) && OutputFile(su, x).Some?)
      ensures r.Some? && writing ==> L.Edited(su, c, OutContents(su, c), r.value)
    {
      hide L.Edited; hide Finished; hide Tallied; hide D.Decode; hide Editable; hide Valid; hide Fresh; hide OutputFile; hide Holds; hide ReportOf; hide EntriesOf; hide Outs; hide OutConsumers; hide Chosen; hide Taken; hide AllIntact; hide Readable; hide EditNeeds; hide Obfuscator.Valid;
      var ok;
      ghost var d;
      ok, c, d := Edit(src, src, true);
      if ok {
        FinishedFacts(c, d);
        HeldTaken(su, src, c);
        Alone(su, src, c);
      }
      if ok && writing {
        ok := Patch(c);
      }
      if !ok {
        return None, c;
      }
      var report := Result(c);
      Conservation(su, c);
      if writing {
        RunIsEdited(src, c);
      }
      return Some(report), c;
    }

    /** What a successful edit writes and reports is what its options ask for. */
    lemma RunIsEdited(src: seq<Entry>, c: Contents)
      requires writing && Holds(su.codec, src, c) && Editable(su, base, writing, src)
      requires su.obfuscate ==> obf.hash == su.hash
      ensures L.Edited(su, c, OutContents(su, c), ReportOf(su, c))
    {
      hide L.Edited; hide Editable; hide Chosen; hide Ready; hide OutMessage; hide ReportOf; hide Shaped;
      KeyedHashShaped(obf.mac);
      HeldAscends(su, src, c);
      forall m | m in Chosen(su, c.msgs) ensures Ready(su, true, m) {
        KeptReady(su, base, src, c, m);
      }
      L.OutIsEdited(su, c);
    }

    /** After a run the token map, which the key file stores, reveals the archive
        written. */
    lemma KeyFileReveals(c: Contents)
      requires su.obfuscate && obf.Valid() && obf.hash == su.hash
      requires EditNeeds(su, c.consumers, Chosen(su, c.msgs)) <= obf.forward.Keys
      ensures var out := OutContents(su, c);
              && (forall i :: 0 <= i < |out.msgs| ==> Revealed(obf.reverse, out.msgs[i].subject) == Chosen(su, c.msgs)[i].subject)
              && (forall i :: 0 <= i < |out.consumers| ==> ConsumerRevealed(su, obf.reverse, out.consumers[i], c.consumers[i]))
    {
      hide ConsumerRevealed; hide Chosen; hide EditNeeds; hide Revealed; hide OutMessage; hide OutConsumer; hide Inverse; hide Shaped;
      KeyedHashShaped(obf.mac);
      ArchiveRevealed(su, obf.Value(), c.consumers, Chosen(su, c.msgs));
    }
  }

  /* ---------- When an edit succeeds ---------- */

  /** An item stops the copying pass. */
  ghost predicate BlocksCopy(su: Setup, known: set<string>, writing: bool, src: seq<Entry>) {
    match D.Decode(su.codec, src)
    case Broken(_) => true
    case Complete(items) =>
      (writing || su.obfuscate) &&
      Halted(su, known, writing, false, KeptBy(S.Survivors(RuleOf(su.o), Observed(su, Passing(su, MessagesIn(items))))), items)
  }

  lemma BlocksCopyIs(su: Setup, known: set<string>, writing: bool, src: seq<Entry>, c: Contents)
    requires D.Decode(su.codec, src) == D.Complete(ItemsOf(c)) && (writing || su.obfuscate)
    ensures BlocksCopy(su, known, writing, src) <==>
            Stuck(su, known, writing, false, KeptBy(S.Survivors(RuleOf(su.o), Observed(su, Passing(su, c.msgs)))), src)
  {
    hide Halted; hide KeptBy; hide Passing;
    InItemsOf(c);
  }

  /** Nothing in `src` stops this edit, with the tokens `known` before it. */
  ghost predicate Editable(su: Setup, known: set<string>, writing: bool, src: seq<Entry>) {
    if su.o.PerSubject() then !Unobserved(su, src) && !BlocksCopy(su, known, writing, src)
    else !Stuck(su, known, writing, true, Passer(su), src)
  }

  /** A source whose items do not stop a pass of filters is readable. */
  lemma UnstuckReadable(su: Setup, known: set<string>, writing: bool, src: seq<Entry>, c: Contents)
    requires Holds(su.codec, src, c) && !Stuck(su, known, writing, true, Passer(su), src)
    ensures Readable(su, c.msgs)
  {
    hide Judge; hide Ready; hide Clash; hide StateHead;
    D.HoldsDecodes(su.codec, src, c);
    forall m | m in c.msgs ensures !Judge(su, m).Unreadable? {
      var i := MessageAt(c, m);
      assert !Trouble(su, writing, true, Passer(su), ItemsOf(c)[i]);
    }
  }

  lemma ObservedReadable(su: Setup, src: seq<Entry>, c: Contents)
    requires Holds(su.codec, src, c) && !Unobserved(su, src)
    ensures Readable(su, c.msgs)
  {
    hide Judge; hide HeadersOf;
    D.HoldsDecodes(su.codec, src, c);
    forall m | m in c.msgs ensures !Judge(su, m).Unreadable? {
      var i := MessageAt(c, m);
      assert !Unobservable(su, ItemsOf(c)[i]);
    }
  }

  /** A message is one of the items. */
  lemma MessageAt(c: Contents, m: Message) returns (i: nat)
    requires m in c.msgs
    ensures i < |ItemsOf(c)| && ItemsOf(c)[i] == MessageItem(m)
  {
    var j :| 0 <= j < |c.msgs| && c.msgs[j] == m;
    i := 1 + |c.consumers| + j;
  }

  /** On an unchanged source the edit takes what it chooses. */
  lemma TakenIsChosen(su: Setup, c: Contents)
    requires Ascending(Below(c.st.firstSeq), c.msgs)
    ensures Taken(su, c.msgs, c.msgs) == Chosen(su, c.msgs)
  {
    TwoPassRefines(su, Below(c.st.firstSeq), c.msgs);
  }

  lemma HeldTaken(su: Setup, src: seq<Entry>, c: Contents)
    requires Holds(su.codec, src, c)
    ensures Taken(su, c.msgs, c.msgs) == Chosen(su, c.msgs)
  {
    TakenIsChosen(su, c);
  }

  /* ---------- Editing again ---------- */

  lemma {:induction false} PlainNeeds(su: Setup, p: Message -> bool, items: seq<Item>)
    requires !su.obfuscate
    ensures NeedsOf(Needer(su, p), items) == {}
    decreases |items|
  {
    if items != [] {
      PlainNeeds(su, p, items[..|items| - 1]);
      var item := items[|items| - 1];
      match item {
        case ConsumerItem(c) => assert ConsumerNeeder(su)(c) == {};
        case MessageItem(m) => assert MessageNeeder(su)(m) == {};
        case _ =>
      }
    }
  }

  /** What a written message is to the next edit. */
  predicate Settled(su: Setup, m: Message) {
    PassesFilters(su, m) && Ready(su, true, m) && !Unobservable(su, MessageItem(m))
  }

  lemma SettledMeta(su: Setup, last: uint64, m: Message)
    ensures Settled(su.(metaLast := last), m) == Settled(su, m)
  {
  }

  lemma SettledUnhalted(su: Setup, known: set<string>, filtering: bool, p: Message -> bool, c: Contents)
    requires !su.obfuscate && Injective(su.hash, known)
    requires StateHead(su.codec, su.framing, c.ts, ArchiveState(su, c.st, false, 0, 0)).Some?
    requires forall m :: m in c.msgs ==> Settled(su, m)
    ensures !Halted(su, known, true, filtering, p, ItemsOf(c))
    ensures forall i :: 0 <= i < |ItemsOf(c)| ==> !Unobservable(su, ItemsOf(c)[i])
  {
    hide StateHead; hide ArchiveState; hide Injective; hide NeedsOf; hide Ready; hide Judge; hide PassesFilters; hide HeadersOf;
    var items := ItemsOf(c);
    forall i | 0 <= i < |items| ensures !Trouble(su, true, filtering, p, items[i]) && !Unobservable(su, items[i]) {
      if items[i].MessageItem? {
        assert items[i].msg in c.msgs;
        PassesReads(su, items[i].msg);
      }
    }
    PlainNeeds(su, p, items);
    assert known + {} == known;
  }

  /** Nothing stops an edit of settled messages behind a state that fits. */
  lemma SettledEditable(su: Setup, known: set<string>, a: seq<Entry>, c: Contents)
    requires !su.obfuscate && Injective(su.hash, known) && Holds(su.codec, a, c)
    requires StateHead(su.codec, su.framing, c.ts, ArchiveState(su, c.st, false, 0, 0)).Some?
    requires forall m :: m in c.msgs ==> Settled(su, m)
    ensures Editable(su, known, true, a)
  {
    hide StateHead; hide ArchiveState; hide Injective; hide Settled; hide Halted; hide KeptBy; hide Unobservable;
    D.HoldsDecodes(su.codec, a, c);
    InItemsOf(c);
    SettledUnhalted(su, known, true, Passer(su), c);
    SettledUnhalted(su, known, false, KeptBy(S.Survivors(RuleOf(su.o), Observed(su, Passing(su, c.msgs)))), c);
  }

  lemma PassesReads(su: Setup, m: Message)
    requires PassesFilters(su, m)
    ensures !Judge(su, m).Unreadable?
  {
  }

  lemma HeldAscends(su: Setup, src: seq<Entry>, c: Contents)
    requires Holds(su.codec, src, c)
    ensures Ascending(Below(c.st.firstSeq), c.msgs)
  {
  }

  /** What a successful edit keeps can be written. */
  lemma KeptReady(su: Setup, known: set<string>, src: seq<Entry>, c: Contents, m: Message)
    requires Holds(su.codec, src, c) && Editable(su, known, true, src) && m in Chosen(su, c.msgs)
    ensures Ready(su, true, m)
    ensures su.o.PerSubject() ==> !Unobservable(su, MessageItem(m))
  {
    hide Judge; hide StateHead; hide Clash; hide HeadersOf; hide Selected; hide Ready; hide KeptBy;
    ChosenMember(su, c.msgs, m);
    D.HoldsDecodes(su.codec, src, c);
    var k := MessageAt(c, m);
    if su.o.PerSubject() {
      InItemsOf(c);
      var p := KeptBy(S.Survivors(RuleOf(su.o), Observed(su, Passing(su, c.msgs))));
      TakenIsChosen(su, c);
      PickMember(p, c.msgs, m);
      assert !Trouble(su, true, false, p, ItemsOf(c)[k]);
      assert !Unobservable(su, ItemsOf(c)[k]);
    } else {
      assert !Trouble(su, true, true, Passer(su), ItemsOf(c)[k]);
    }
  }

  /** What a successful edit kept is settled when written. */
  lemma KeptSettles(su: Setup, known: set<string>, src: seq<Entry>, c: Contents, i: nat)
    requires !su.obfuscate && !su.o.renumber && Holds(su.codec, src, c) && Editable(su, known, true, src)
    requires i < |Chosen(su, c.msgs)|
    ensures Ready(su, true, Chosen(su, c.msgs)[i]) && Settled(su, OutMessage(su, i, Chosen(su, c.msgs)[i]))
  {
    hide Judge; hide Editable; hide Chosen; hide Ready; hide OutMessage; hide Unobservable;
    var m := Chosen(su, c.msgs)[i];
    assert m in Chosen(su, c.msgs);
    ChosenMember(su, c.msgs, m);
    KeptReady(su, known, src, c, m);
    NotCompact(su);
    WrittenSettles(su, i, m);
  }

  lemma NotCompact(su: Setup)
    ensures !su.o.PerSubject() ==> !su.o.kvCompact
  {
  }

  lemma WrittenSettles(su: Setup, i: nat, m: Message)
    requires !su.obfuscate && !su.o.renumber && PassesFilters(su, m) && Ready(su, true, m)
    requires su.o.kvCompact ==> !Unobservable(su, MessageItem(m))
    ensures Settled(su, OutMessage(su, i, m))
  {
    hide Judge;
    var out := OutMessage(su, i, m);
    WrittenLooksAlike(su, i, m);
    assert out.body[..m.hdrSize] == m.body[..m.hdrSize];
    assert HeadersOf(su.lib, out) == HeadersOf(su.lib, m);
  }

  /** An archive that a plain edit wrote can be edited again with the same options,
      and comes out as it is, byte for byte. */
  lemma EditAgainSucceeds(su: Setup, known: set<string>, src: seq<Entry>, c: Contents, a: seq<Entry>)
    requires !su.obfuscate && !su.o.renumber && Injective(su.hash, known)
    requires Holds(su.codec, src, c) && Editable(su, known, true, src) && Holds(su.codec, a, OutContents(su, c))
    ensures Editable(Again(su, c), known, true, a)
    ensures OutContents(Again(su, c), OutContents(su, c)) == OutContents(su, c)
    ensures OutputFile(Again(su, c), OutContents(su, c)) == OutputFile(su, c)
  {
    hide Editable; hide Holds; hide Chosen; hide Ready; hide Settled; hide OutMessage; hide Again; hide ArchiveState; hide StateHead; hide Injective; hide TotalSize;
    var out, su2 := OutContents(su, c), Again(su, c);
    AgainIs(su, c);
    forall i | 0 <= i < |out.msgs| ensures Ready(su, true, Chosen(su, c.msgs)[i]) && Settled(su2, out.msgs[i]) {
      KeptSettles(su, known, src, c, i);
      SettledMeta(su, su2.metaLast, out.msgs[i]);
    }
    EditedAgainIsSame(su, c);
    HeadFits(su, known, src, c);
    SameState(su, c, |out.msgs|, TotalSize(su.storage, out.msgs));
    SettledEditable(su2, known, a, out);
  }

  lemma HeadFits(su: Setup, known: set<string>, src: seq<Entry>, c: Contents)
    requires Holds(su.codec, src, c) && Editable(su, known, true, src)
    ensures StateHead(su.codec, su.framing, c.ts, ArchiveState(su, c.st, false, 0, 0)).Some?
  {
    hide StateHead; hide ArchiveState; hide Judge; hide Ready; hide KeptBy; hide Clash;
    D.HoldsDecodes(su.codec, src, c);
    InItemsOf(c);
    if su.o.PerSubject() {
      assert !Trouble(su, true, false, KeptBy(S.Survivors(RuleOf(su.o), Observed(su, Passing(su, c.msgs)))), ItemsOf(c)[0]);
    } else {
      assert !Trouble(su, true, true, Passer(su), ItemsOf(c)[0]);
    }
  }

  /** A source holds one backup. */
  lemma Alone(su: Setup, src: seq<Entry>, c: Contents)
    requires Holds(su.codec, src, c)
    ensures forall x :: Holds(su.codec, src, x) ==> x == c
  {
    forall x | Holds(su.codec, src, x) ensures x == c {
      D.HoldsUnique(su.codec, src, x, c);
    }
  }

  /** What reaches the encoder for a message: its obfuscated form, or the message
      itself with its new sequence, declared sizes and whole body. */
  predicate IsForm(su: Setup, i: nat, m: Message, out: Message) {
    if su.obfuscate then Ready(su, true, m) && out == OutMessage(su, i, m)
    else out == m.(seqno := OutMessage(su, i, m).seqno)
  }

  /** Writing `out` succeeds exactly when `m` was ready, and writes `want`. */
  predicate Writes(su: Setup, m: Message, out: Message, want: Message) {
    && (|out.body| >= out.hdrSize + out.payloadSize <==> Ready(su, true, m))
    && (Ready(su, true, m) ==> Trimmed(out) == want)
    && SizeOf(su.storage, out) == SizeOf(su.storage, want) && out.seqno == want.seqno
    && (su.obfuscate ==> Ready(su, true, m))
  }

  lemma ReadyCases(su: Setup, m: Message)
    ensures Ready(su, true, m) ==> Ready(su, false, m)
    ensures if su.obfuscate then Ready(su, false, m) ==> Ready(su, true, m) else Ready(su, false, m)
  {
  }

  lemma WrittenForm(su: Setup, i: nat, m: Message, out: Message)
    requires IsForm(su, i, m, out)
    ensures Writes(su, m, out, OutMessage(su, i, m))
  {
    if su.obfuscate {
      assert out.body[..|out.body|] == out.body;
    }
  }
}
