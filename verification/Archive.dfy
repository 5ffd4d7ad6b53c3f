/** The stream backup format: an archive is a list of entries, read as a state,
    consumers, messages and a sentinel (backup/backup.go). */
module Archive {
  import opened Text

  const TWO64 := 0x1_0000_0000_0000_0000

  type uint64 = n: int | 0 <= n < TWO64
  type byte = b: int | 0 <= b < 256

  const STATE_ENTRY := "state.json"
  const CONSUMER_PREFIX := "consumers/"

  datatype StreamState = StreamState(msgs: nat, bytes: nat, firstSeq: uint64, lastSeq: uint64, consumers: int)

  /** One archive entry: its header and the bytes that follow it. A body shorter
      than the header declares is a truncated file. */
  datatype Entry = Entry(name: string, ts: int, seqno: uint64, hdrSize: nat, payloadSize: nat, body: seq<byte>) {
    predicate Intact() {
      |body| == hdrSize + payloadSize
    }
  }

  datatype Consumer = Consumer(name: string, ts: int, data: seq<byte>)

  datatype Message = Message(subject: string, seqno: uint64, ts: int, hdrSize: nat, payloadSize: nat, body: seq<byte>)

  datatype Item =
    | StateItem(ts: int, st: StreamState)
    | ConsumerItem(con: Consumer)
    | MessageItem(msg: Message)
    | EndItem

  /** What the JSON library makes of a consumer document. */
  datatype ConsumerDoc = NotJson | ConsumerDoc(hasConfig: bool, hasState: bool)

  /** Padding after a printed state; JSON readers skip it. */
  function Spaces(n: nat): (r: seq<byte>)
    ensures |r| == n
  {
    seq(n, i => 32)
  }

  /** The JSON library, as far as the archive uses it. `statePad` is the width of
      a printed state with every field at its widest. */
  datatype Codec = Codec(parseState: seq<byte> -> Option<StreamState>,
                         printState: StreamState -> seq<byte>,
                         statePad: nat,
                         parseConsumer: seq<byte> -> ConsumerDoc)
  {
    /** Printed states read back as they were, with or without padding. */
    ghost predicate Lawful() {
      forall st, n: nat :: parseState(printState(st) + Spaces(n)) == Some(st)
    }

    predicate GoodConsumer(data: seq<byte>) {
      parseConsumer(data).ConsumerDoc? && parseConsumer(data).hasConfig && parseConsumer(data).hasState
    }
  }

  /** Everything a complete backup holds. */
  datatype Contents = Contents(ts: int, st: StreamState, consumers: seq<Consumer>, msgs: seq<Message>)

  /* ---------- The format, declaratively ---------- */

  predicate IsSentinel(e: Entry) {
    e.seqno == 0 && e.ts == 0 && e.hdrSize == 0 && e.payloadSize == 0
  }

  predicate IsState(codec: Codec, e: Entry, ts: int, st: StreamState) {
    e.name == STATE_ENTRY && e.Intact() && e.ts == ts && codec.parseState(e.body) == Some(st) && st.consumers >= 0
  }

  predicate IsConsumer(codec: Codec, e: Entry, c: Consumer) {
    e.name == CONSUMER_PREFIX + c.name && e.Intact() && c.ts == e.ts && c.data == e.body && codec.GoodConsumer(e.body)
  }

  /** The message an entry carries; any entry with a sequence is one. */
  function MessageOf(e: Entry): Message {
    Message(e.name, e.seqno, e.ts, e.hdrSize, e.payloadSize, e.body)
  }

  function EntryOf(m: Message): Entry {
    Entry(m.subject, m.ts, m.seqno, m.hdrSize, m.payloadSize, m.body)
  }

  /** first_seq - 1 in uint64 arithmetic: first_seq 0 puts the bound at the maximum. */
  function Below(firstSeq: uint64): uint64 {
    (firstSeq - 1) % TWO64
  }

  /** Sequences above `lo`, non-zero and strictly ascending. */
  predicate Ascending(lo: int, msgs: seq<Message>) {
    && (forall i :: 0 <= i < |msgs| ==> msgs[i].seqno > lo && msgs[i].seqno > 0)
    && (forall i, j :: 0 <= i < j < |msgs| ==> msgs[i].seqno < msgs[j].seqno)
  }

  /** `a` starts with exactly the entries of a complete backup holding `c`;
      what follows the sentinel is not looked at. */
  ghost predicate Holds(codec: Codec, a: seq<Entry>, c: Contents) {
    var k := |c.consumers|;
    var n := 1 + k + |c.msgs|;
    && n < |a|
    && IsState(codec, a[0], c.ts, c.st) && c.st.consumers == k
    && (forall i :: 0 <= i < k ==> IsConsumer(codec, a[1 + i], c.consumers[i]))
    && (forall i :: 0 <= i < |c.msgs| ==> c.msgs[i] == MessageOf(a[1 + k + i]))
    && Ascending(Below(c.st.firstSeq), c.msgs)
    && IsSentinel(a[n])
  }

  function ConsumerItems(cs: seq<Consumer>): (r: seq<Item>)
    ensures |r| == |cs|
  {
    seq(|cs|, i requires 0 <= i < |cs| => ConsumerItem(cs[i]))
  }

  function MessageItems(ms: seq<Message>): (r: seq<Item>)
    ensures |r| == |ms|
  {
    seq(|ms|, i requires 0 <= i < |ms| => MessageItem(ms[i]))
  }

  lemma ConsumerItemsSnoc(items: seq<Item>, cs: seq<Consumer>, c: Consumer)
    ensures items + ConsumerItems(cs + [c]) == (items + ConsumerItems(cs)) + [ConsumerItem(c)]
  {
  }

  lemma MessageItemsSnoc(items: seq<Item>, ms: seq<Message>, m: Message)
    ensures items + MessageItems(ms + [m]) == (items + MessageItems(ms)) + [MessageItem(m)]
  {
  }

  /** The items a reader of `c` sees. */
  function ItemsOf(c: Contents): seq<Item> {
    [StateItem(c.ts, c.st)] + ConsumerItems(c.consumers) + MessageItems(c.msgs) + [EndItem]
  }

  /* ---------- Folding items back into contents ---------- */

  function ConsumersIn(items: seq<Item>): seq<Consumer> {
    if items == [] then []
    else
      var last := items[|items| - 1];
      ConsumersIn(items[..|items| - 1]) + if last.ConsumerItem? then [last.con] else []
  }

  function MessagesIn(items: seq<Item>): seq<Message> {
    if items == [] then []
    else
      var last := items[|items| - 1];
      MessagesIn(items[..|items| - 1]) + if last.MessageItem? then [last.msg] else []
  }

  lemma InAppend(items: seq<Item>, i: Item)
    ensures ConsumersIn(items + [i]) == ConsumersIn(items) + if i.ConsumerItem? then [i.con] else []
    ensures MessagesIn(items + [i]) == MessagesIn(items) + if i.MessageItem? then [i.msg] else []
  {
    assert (items + [i])[..|items|] == items;
  }

  lemma {:induction false} InConsumers(items: seq<Item>, cs: seq<Consumer>)
    ensures ConsumersIn(items + ConsumerItems(cs)) == ConsumersIn(items) + cs
    ensures MessagesIn(items + ConsumerItems(cs)) == MessagesIn(items)
    decreases |cs|
  {
    if cs == [] {
      assert items + ConsumerItems(cs) == items;
    } else {
      var n := |cs| - 1;
      InConsumers(items, cs[..n]);
      assert items + ConsumerItems(cs) == (items + ConsumerItems(cs[..n])) + [ConsumerItem(cs[n])];
      InAppend(items + ConsumerItems(cs[..n]), ConsumerItem(cs[n]));
      assert ConsumersIn(items) + cs[..n] + [cs[n]] == ConsumersIn(items) + cs;
    }
  }

  lemma {:induction false} InMessages(items: seq<Item>, ms: seq<Message>)
    ensures MessagesIn(items + MessageItems(ms)) == MessagesIn(items) + ms
    ensures ConsumersIn(items + MessageItems(ms)) == ConsumersIn(items)
    decreases |ms|
  {
    if ms == [] {
      assert items + MessageItems(ms) == items;
    } else {
      var n := |ms| - 1;
      InMessages(items, ms[..n]);
      assert items + MessageItems(ms) == (items + MessageItems(ms[..n])) + [MessageItem(ms[n])];
      InAppend(items + MessageItems(ms[..n]), MessageItem(ms[n]));
      assert MessagesIn(items) + ms[..n] + [ms[n]] == MessagesIn(items) + ms;
    }
  }

  /** The items of a backup give back its consumers and messages. */
  lemma InItemsOf(c: Contents)
    ensures ConsumersIn(ItemsOf(c)) == c.consumers && MessagesIn(ItemsOf(c)) == c.msgs
  {
    var s := [StateItem(c.ts, c.st)];
    InAppend([], s[0]);
    assert [] + s == s;
    InConsumers(s, c.consumers);
    InMessages(s + ConsumerItems(c.consumers), c.msgs);
    InAppend(s + ConsumerItems(c.consumers) + MessageItems(c.msgs), EndItem);
  }

  /* ---------- Stored size ---------- */

  datatype Storage = FileStorage | MemoryStorage

  /** storedMsgSize: what a message occupies in the store it is restored to. */
  function StoredSize(storage: Storage, slen: nat, hlen: nat, mlen: nat): (r: nat)
    ensures r >= 16
  {
    if storage == MemoryStorage then slen + hlen + mlen + 16
    else if hlen == 0 then 22 + slen + mlen + 8
    else 22 + slen + 4 + hlen + mlen + 8
  }

  function SizeOf(storage: Storage, m: Message): (r: nat)
    ensures r > 0
  {
    StoredSize(storage, |m.subject|, m.hdrSize, m.payloadSize)
  }

  function TotalSize(storage: Storage, ms: seq<Message>): nat {
    if ms == [] then 0 else TotalSize(storage, ms[..|ms| - 1]) + SizeOf(storage, ms[|ms| - 1])
  }

  function BytesIn(ms: seq<Message>): nat {
    if ms == [] then 0
    else BytesIn(ms[..|ms| - 1]) + |ms[|ms| - 1].subject| + ms[|ms| - 1].hdrSize + ms[|ms| - 1].payloadSize
  }

  /** In memory a message takes 16 bytes beside its own; in a file a record of 22 and a
      checksum of 8, and 4 more for the length of headers it has. */
  lemma {:induction false} StoredSizes(ms: seq<Message>)
    ensures TotalSize(MemoryStorage, ms) == BytesIn(ms) + 16 * |ms|
    ensures TotalSize(FileStorage, ms) == BytesIn(ms) + 30 * |ms| + 4 * |set i | 0 <= i < |ms| && ms[i].hdrSize > 0|
    decreases |ms|
  {
    if ms != [] {
      var init, n := ms[..|ms| - 1], |ms| - 1;
      StoredSizes(init);
      var before, after := set i | 0 <= i < |init| && init[i].hdrSize > 0, set i | 0 <= i < |ms| && ms[i].hdrSize > 0;
      assert forall i :: 0 <= i < n ==> init[i] == ms[i];
      assert forall i :: i in after <==> i in before || (i == n && ms[n].hdrSize > 0);
      assert after == before + if ms[n].hdrSize > 0 then {n} else {};
    }
  }

  lemma TotalSizeAppend(storage: Storage, ms: seq<Message>, m: Message)
    ensures TotalSize(storage, ms + [m]) == TotalSize(storage, ms) + SizeOf(storage, m)
  {
    assert (ms + [m])[..|ms|] == ms;
  }
}
