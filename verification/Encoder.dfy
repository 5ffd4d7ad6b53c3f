/** Writing an archive (backup/encoder.go): entries are framed one after the
    other, the leading state is a head of fixed size that is overwritten once the
    totals are known, and the entry writer's own preamble is dropped. */
module Encoder {
  import opened Text
  import opened Paths
  import opened Archive

  /* ---------- The archive library's framing ---------- */

  /** The archive library: a preamble, one header per entry, and a reader. */
  datatype Framing = Framing(magic: seq<byte>,
                             header: (string, int, uint64, nat, nat) -> seq<byte>,
                             unframe: seq<byte> -> seq<Entry>)
  {
    function EntryBytes(e: Entry): seq<byte> {
      header(e.name, e.ts, e.seqno, e.hdrSize, e.payloadSize) + e.body
    }

    function Flat(es: seq<Entry>): seq<byte> {
      if es == [] then [] else Flat(es[..|es| - 1]) + EntryBytes(es[|es| - 1])
    }

    /** What was framed is read back entry by entry. */
    ghost predicate Lawful() {
      forall es: seq<Entry> :: AllIntact(es) ==> unframe(magic + Flat(es)) == es
    }

    lemma FlatSnoc(es: seq<Entry>, e: Entry)
      ensures Flat(es + [e]) == Flat(es) + EntryBytes(e)
    {
      assert (es + [e])[..|es|] == es;
    }

    lemma {:induction false} FlatCons(e: Entry, es: seq<Entry>)
      ensures Flat([e] + es) == EntryBytes(e) + Flat(es)
      decreases |es|
    {
      if es == [] {
        assert [e] + es == [e] && [e][..0] == [];
      } else {
        var n := |es| - 1;
        FlatCons(e, es[..n]);
        assert ([e] + es)[..|es|] == [e] + es[..n];
      }
    }
  }

  predicate AllIntact(es: seq<Entry>) {
    forall i :: 0 <= i < |es| ==> es[i].Intact()
  }

  /* ---------- The head ---------- */

  function StateEntry(ts: int, js: seq<byte>): Entry {
    Entry(STATE_ENTRY, ts, 0, 0, |js|, js)
  }

  /** The state as it is stored: printed and padded, or None when it is too wide. */
  function PaddedState(codec: Codec, st: StreamState): (r: Option<seq<byte>>)
    ensures r.Some? ==> |r.value| == codec.statePad
  {
    var js := codec.printState(st);
    if |js| > codec.statePad then None else Some(js + Spaces(codec.statePad - |js|))
  }

  /** encodeStateHead: the preamble and the padded state. */
  function StateHead(codec: Codec, framing: Framing, ts: int, st: StreamState): Option<seq<byte>> {
    match PaddedState(codec, st)
    case None => None
    case Some(js) => Some(framing.magic + framing.EntryBytes(StateEntry(ts, js)))
  }

  /** Heads with the same timestamp have the same size, whatever state they hold,
      so one can overwrite the other. */
  lemma HeadSizeFixed(codec: Codec, framing: Framing, ts: int, st: StreamState, st': StreamState)
    requires StateHead(codec, framing, ts, st).Some? && StateHead(codec, framing, ts, st').Some?
    ensures |StateHead(codec, framing, ts, st).value| == |StateHead(codec, framing, ts, st').value|
  {
    var js, js' := PaddedState(codec, st).value, PaddedState(codec, st').value;
    assert |js| == |js'|;
  }

  /** Overwriting a head with one of the same size leaves what follows it. */
  lemma Patched(head: seq<byte>, tail: seq<byte>, head': seq<byte>)
    requires |head'| == |head|
    ensures head' + (head + tail)[|head'|..] == head' + tail
  {
    assert (head + tail)[|head|..] == tail;
  }

  /** A head followed by framed entries is an archive whose first entry is the
      state, and the state reads back. */
  lemma HeadThenEntries(codec: Codec, framing: Framing, ts: int, st: StreamState, es: seq<Entry>)
    requires codec.Lawful() && framing.Lawful() && AllIntact(es)
    requires StateHead(codec, framing, ts, st).Some? && st.consumers >= 0
    ensures var a := framing.unframe(StateHead(codec, framing, ts, st).value + framing.Flat(es));
            |a| == 1 + |es| && a[1..] == es && IsState(codec, a[0], ts, st)
  {
    var js := PaddedState(codec, st).value;
    var e := StateEntry(ts, js);
    framing.FlatCons(e, es);
    assert framing.magic + framing.EntryBytes(e) + framing.Flat(es) == framing.magic + framing.Flat([e] + es);
    assert AllIntact([e] + es);
  }

  /* ---------- skipWriter ---------- */

  /** Drops the first bytes written to it, however they are split into writes. */
  class SkipWriter {
    var written: seq<byte>
    var skip: nat
    ghost const dropped: nat
    ghost var all: seq<byte>

    /** What came out is what went in, less the first `dropped` bytes. */
    ghost predicate Valid()
      reads this
    {
      && skip == (if |all| < dropped then dropped - |all| else 0)
      && written == (if |all| < dropped then [] else all[dropped..])
    }

    constructor (skip: nat)
      ensures Valid() && all == [] && dropped == skip
    {
      written, this.skip := [], skip;
      all, dropped := [], skip;
    }

    method Write(p: seq<byte>)
      requires Valid()
      modifies this
      ensures Valid() && all == old(all) + p
    {
      var rest := p;
      if skip > 0 {
        var k := if skip < |p| then skip else |p|;
        skip := skip - k;
        rest := p[k..];
      }
      if |rest| > 0 {
        written := written + rest;
      }
      all := all + p;
    }

    /** io.CopyBuffer through a buffer of `size` bytes. */
    method Copy(p: seq<byte>, size: nat)
      requires Valid() && size > 0
      modifies this
      ensures Valid() && all == old(all) + p
    {
      var at := 0;
      while at < |p|
        invariant 0 <= at <= |p| && Valid() && all == old(all) + p[..at]
      {
        var end := if at + size < |p| then at + size else |p|;
        Write(p[at..end]);
        assert p[..at] + p[at..end] == p[..end];
        at := end;
      }
      assert p[..|p|] == p;
    }
  }

  /* ---------- Encoder ---------- */

  /** An entry encoder (newEntryEncoder): archive entries behind a head that
      already carries the preamble. */
  class Encoder {
    const framing: Framing
    const w: SkipWriter
    var started: bool
    ghost var entries: seq<Entry>

    ghost predicate Valid()
      reads this, w
    {
      && w.Valid() && w.dropped == |framing.magic|
      && AllIntact(entries)
      && w.all == (if started then framing.magic + framing.Flat(entries) else [])
      && (!started ==> entries == [])
    }

    constructor (framing: Framing)
      ensures Valid() && fresh(w) && this.framing == framing && entries == []
    {
      this.framing := framing;
      w := new SkipWriter(|framing.magic|);
      started, entries := false, [];
    }

    /** What reached the file: the entries, without the preamble. */
    lemma Output()
      requires Valid()
      ensures w.written == framing.Flat(entries)
    {
    }

    /** archive.Writer.WriteHeader: the preamble before the first entry. */
    method WriteHeader(name: string, ts: int, seqno: uint64, hdrSize: nat, payloadSize: nat)
      requires Valid()
      modifies this`started, w
      ensures w.Valid() && started
      ensures w.all == framing.magic + framing.Flat(entries) + framing.header(name, ts, seqno, hdrSize, payloadSize)
    {
      if !started {
        w.Write(framing.magic);
        started := true;
      }
      w.Write(framing.header(name, ts, seqno, hdrSize, payloadSize));
    }

    /** A header and its body complete an entry. */
    lemma Wrote(e: Entry)
      requires AllIntact(entries) && e.Intact()
      requires w.all == framing.magic + framing.Flat(entries) + framing.header(e.name, e.ts, e.seqno, e.hdrSize, e.payloadSize) + e.body
      ensures w.all == framing.magic + framing.Flat(entries + [e]) && AllIntact(entries + [e])
    {
      hide Framing.Flat;
      framing.FlatSnoc(entries, e);
      var h := framing.header(e.name, e.ts, e.seqno, e.hdrSize, e.payloadSize);
      assert framing.magic + framing.Flat(entries) + h + e.body == framing.magic + (framing.Flat(entries) + (h + e.body));
    }

    method WriteEntry(name: string, ts: int, data: seq<byte>)
      requires Valid()
      modifies this, w
      ensures Valid() && entries == old(entries) + [Entry(name, ts, 0, 0, |data|, data)]
    {
      WriteHeader(name, ts, 0, 0, |data|);
      w.Write(data);
      Wrote(Entry(name, ts, 0, 0, |data|, data));
      entries := entries + [Entry(name, ts, 0, 0, |data|, data)];
    }

    method WriteConsumer(name: string, ts: int, data: seq<byte>)
      requires Valid()
      modifies this, w
      ensures Valid() && entries == old(entries) + [ConsumerEntry(Consumer(name, ts, data))]
    {
      WriteEntry(JoinPath("consumers", name), ts, data);
    }

    /** Streams exactly the declared bytes of the body; a short body is an error. */
    method WriteMessage(m: Message) returns (ok: bool)
      requires Valid()
      modifies this, w
      ensures ok <==> |m.body| >= m.hdrSize + m.payloadSize
      ensures ok ==> Valid() && entries == old(entries) + [EntryOf(Trimmed(m))]
    {
      WriteHeader(m.subject, m.ts, m.seqno, m.hdrSize, m.payloadSize);
      var want := m.hdrSize + m.payloadSize;
      if want > 0 {
        var body := if |m.body| < want then m.body else m.body[..want];
        w.Copy(body, 64 * 1024);
        if |body| != want {
          return false;
        }
      }
      Wrote(EntryOf(Trimmed(m)));
      entries := entries + [EntryOf(Trimmed(m))];
      return true;
    }

    method WriteEnd()
      requires Valid()
      modifies this, w
      ensures Valid() && entries == old(entries) + [SENTINEL]
    {
      WriteEntry("", 0, []);
    }
  }

  const SENTINEL := Entry("", 0, 0, 0, 0, [])

  function ConsumerEntry(c: Consumer): Entry {
    Entry(JoinPath("consumers", c.name), c.ts, 0, 0, |c.data|, c.data)
  }

  /** A message with exactly the bytes it declares. */
  function Trimmed(m: Message): (r: Message)
    requires |m.body| >= m.hdrSize + m.payloadSize
  {
    m.(body := m.body[..m.hdrSize + m.payloadSize])
  }

  /* ---------- The entries of a whole backup ---------- */

  function ConsumerEntries(cs: seq<Consumer>): (r: seq<Entry>)
    ensures |r| == |cs| && forall i :: 0 <= i < |cs| ==> r[i] == ConsumerEntry(cs[i])
  {
    seq(|cs|, i requires 0 <= i < |cs| => ConsumerEntry(cs[i]))
  }

  function MessageEntries(ms: seq<Message>): (r: seq<Entry>)
    ensures |r| == |ms| && forall i :: 0 <= i < |ms| ==> r[i] == EntryOf(ms[i])
  {
    seq(|ms|, i requires 0 <= i < |ms| => EntryOf(ms[i]))
  }

  /** What the encoder writes behind the head. */
  function EntriesOf(cs: seq<Consumer>, ms: seq<Message>): seq<Entry> {
    ConsumerEntries(cs) + MessageEntries(ms) + [SENTINEL]
  }

  /** Names that survive path cleaning. */
  predicate RegularNames(cs: seq<Consumer>) {
    forall i :: 0 <= i < |cs| ==> Regular(cs[i].name)
  }

  predicate GoodDocs(codec: Codec, cs: seq<Consumer>) {
    forall i :: 0 <= i < |cs| ==> codec.GoodConsumer(cs[i].data)
  }

  /** A consumer entry reads back as its consumer exactly when path cleaning
      leaves the name alone. */
  lemma ConsumerReadsBack(codec: Codec, c: Consumer)
    requires codec.GoodConsumer(c.data)
    ensures IsConsumer(codec, ConsumerEntry(c), c) <==> Regular(c.name)
  {
    assert Free("consumers", '/');
    assert "consumers" + "/" == CONSUMER_PREFIX;
    JoinBelowRoundTrip("consumers", c.name);
  }

  lemma EntriesAt(a: seq<Entry>, cs: seq<Consumer>, ms: seq<Message>)
    requires |a| == 1 + |EntriesOf(cs, ms)| && a[1..] == EntriesOf(cs, ms)
    ensures |a| == 2 + |cs| + |ms|
    ensures forall i :: 0 <= i < |cs| ==> a[1 + i] == ConsumerEntry(cs[i])
    ensures forall i :: 0 <= i < |ms| ==> a[1 + |cs| + i] == EntryOf(ms[i])
    ensures a[1 + |cs| + |ms|] == SENTINEL
  {
    forall i | 0 <= i < |cs| ensures a[1 + i] == ConsumerEntry(cs[i]) {
      assert a[1 + i] == a[1..][i];
    }
    forall i | 0 <= i < |ms| ensures a[1 + |cs| + i] == EntryOf(ms[i]) {
      assert a[1 + |cs| + i] == a[1..][|cs| + i] == MessageEntries(ms)[i];
    }
    assert a[1 + |cs| + |ms|] == a[1..][|cs| + |ms|];
  }

  /** A written archive is a complete backup of what was written exactly when
      every consumer name survives path cleaning. */
  lemma WrittenHolds(codec: Codec, a: seq<Entry>, c: Contents)
    requires |a| == 1 + |EntriesOf(c.consumers, c.msgs)| && a[1..] == EntriesOf(c.consumers, c.msgs)
    requires IsState(codec, a[0], c.ts, c.st) && c.st.consumers == |c.consumers|
    requires GoodDocs(codec, c.consumers) && Ascending(Below(c.st.firstSeq), c.msgs)
    ensures Holds(codec, a, c) <==> RegularNames(c.consumers)
  {
    EntriesAt(a, c.consumers, c.msgs);
    forall i | 0 <= i < |c.consumers|
      ensures IsConsumer(codec, a[1 + i], c.consumers[i]) <==> Regular(c.consumers[i].name)
    {
      ConsumerReadsBack(codec, c.consumers[i]);
    }
    assert forall m: Message :: MessageOf(EntryOf(m)) == m;
  }
}
