/** What an edit keeps, writes and reports, as functions of what the source
    archive holds. The editor's loops are proved against these, and the
    properties of an edit are proved about them. */
module EditSpec {
  import opened Text
  import opened Archive
  import opened Filter
  import opened Obfuscate
  import opened TokenHash
  import opened Encoder
  import S = SubjectState

  /** Options, source configuration and library code of one edit. */
  datatype Setup = Setup(codec: Codec, framing: Framing, lib: Library, o: Options,
                         storage: Storage, counter: bool, metaLast: uint64,
                         obfuscate: bool, hash: string -> string, kinds: string -> HeaderKind,
                         render: Header -> seq<byte>, fields: seq<byte> -> Fields, withFields: (seq<byte>, Fields) -> seq<byte>)

  /* ---------- The stateless filters on one message ---------- */

  datatype Verdict = Keep | Reject(kind: DropKind) | Unreadable

  function ContentFilter(k: DropKind): bool {
    k == DropHeader || k == DropPayload
  }

  /** The first filter that rejects the message, reading only what each needs. */
  function FirstReject(su: Setup, m: Message): Verdict {
    var meta := EvalMeta(su.lib, su.o, m);
    if meta.Some? then Reject(meta.value)
    else if su.o.HasHeaderFilters() && HeadersOf(su.lib, m).None? then Unreadable
    else
      var hdr := if su.o.HasHeaderFilters() then EvalHeaders(su.lib, su.o, HeadersOf(su.lib, m).value) else None;
      if hdr.Some? then Reject(hdr.value)
      else if su.o.HasPayloadFilters() && PayloadOf(m).None? then Unreadable
      else
        var pay := if su.o.HasPayloadFilters() then EvalPayload(su.o, PayloadOf(m).value) else None;
        if pay.Some? then Reject(pay.value) else Keep
  }

  /** evaluate: a content rejection also reads the headers, to count tombstones. */
  function Judge(su: Setup, m: Message): Verdict {
    var v := FirstReject(su, m);
    if v.Reject? && ContentFilter(v.kind) && m.hdrSize > 0 && HeadersOf(su.lib, m).None? then Unreadable else v
  }

  predicate Tombstone(su: Setup, m: Message) {
    m.hdrSize > 0 && HeadersOf(su.lib, m).Some? && IsTombstone(HeadersOf(su.lib, m).value)
  }

  predicate PassesFilters(su: Setup, m: Message) {
    Judge(su, m).Keep?
  }

  /** A rejected delete, purge or limit marker that a content filter dropped. */
  predicate LostTombstone(su: Setup, m: Message) {
    var v := Judge(su, m);
    v.Reject? && ContentFilter(v.kind) && Tombstone(su, m)
  }

  lemma Assoc<T>(a: seq<T>, b: seq<T>, c: seq<T>)
    ensures (a + b) + c == a + (b + c)
  {
  }

  /* ---------- Selections ---------- */

  /** The messages satisfying `p`, in order. */
  function Pick(p: Message -> bool, ms: seq<Message>): (r: seq<Message>)
    ensures |r| <= |ms|
  {
    if ms == [] then []
    else Pick(p, ms[..|ms| - 1]) + if p(ms[|ms| - 1]) then [ms[|ms| - 1]] else []
  }

  lemma {:induction false} PickMember(p: Message -> bool, ms: seq<Message>, m: Message)
    ensures m in Pick(p, ms) <==> m in ms && p(m)
    decreases |ms|
  {
    if ms != [] {
      PickMember(p, ms[..|ms| - 1], m);
    }
  }

  lemma PickSnoc(p: Message -> bool, ms: seq<Message>, m: Message)
    ensures Pick(p, ms + [m]) == Pick(p, ms) + if p(m) then [m] else []
  {
    assert (ms + [m])[..|ms|] == ms;
  }

  lemma {:induction false} PickAlike(p: Message -> bool, q: Message -> bool, ms: seq<Message>)
    requires forall m :: m in ms ==> p(m) == q(m)
    ensures Pick(p, ms) == Pick(q, ms)
    decreases |ms|
  {
    if ms != [] {
      PickAlike(p, q, ms[..|ms| - 1]);
    }
  }

  lemma {:induction false} PickAll(p: Message -> bool, ms: seq<Message>)
    requires forall m :: m in ms ==> p(m)
    ensures Pick(p, ms) == ms
    decreases |ms|
  {
    if ms != [] {
      assert forall m :: m in ms[..|ms| - 1] ==> m in ms;
      PickAll(p, ms[..|ms| - 1]);
    }
  }

  lemma {:induction false} PickAscending(p: Message -> bool, lo: int, ms: seq<Message>)
    requires Ascending(lo, ms)
    ensures Ascending(lo, Pick(p, ms))
    decreases |ms|
  {
    if ms != [] {
      var init, last := ms[..|ms| - 1], ms[|ms| - 1];
      PickAscending(p, lo, init);
      forall x | x in Pick(p, init) ensures x.seqno < last.seqno {
        PickMember(p, init, x);
        var i :| 0 <= i < |init| && init[i] == x;
      }
      AscendingSnoc(lo, Pick(p, init), last);
    }
  }

  lemma AscendingSnoc(lo: int, ms: seq<Message>, m: Message)
    requires Ascending(lo, ms) && m.seqno > lo && m.seqno > 0 && forall x :: x in ms ==> x.seqno < m.seqno
    ensures Ascending(lo, ms + [m])
  {
  }

  function Passer(su: Setup): (p: Message -> bool)
    ensures forall m :: p(m) == PassesFilters(su, m)
  {
    (m: Message) => PassesFilters(su, m)
  }

  /** The messages that pass the stateless filters. */
  function Passing(su: Setup, ms: seq<Message>): seq<Message> {
    Pick(Passer(su), ms)
  }

  /** What the per-subject state observes of a message. */
  function ObsOf(su: Setup, m: Message): S.Obs {
    S.Obs(m.subject, m.seqno, SizeOf(su.storage, m), su.o.kvCompact && Tombstone(su, m))
  }

  function Observed(su: Setup, ms: seq<Message>): (r: seq<S.Obs>)
    ensures |r| == |ms| && forall i :: 0 <= i < |r| ==> r[i] == ObsOf(su, ms[i])
  {
    seq(|ms|, i requires 0 <= i < |ms| => ObsOf(su, ms[i]))
  }

  function RuleOf(o: Options): S.Rule {
    if o.kvCompact then S.Compact else S.LastN(o.lastPerSubject)
  }

  function KeptBy(kept: seq<S.Obs>): (p: Message -> bool)
    ensures forall m :: p(m) == S.Kept(kept, m.subject, m.seqno)
  {
    (m: Message) => S.Kept(kept, m.subject, m.seqno)
  }

  /** What the second pass copies: whatever the resolved state keeps, without
      asking the filters again. */
  function Copied(su: Setup, passing: seq<Message>, ms: seq<Message>): seq<Message> {
    Pick(KeptBy(S.Survivors(RuleOf(su.o), Observed(su, passing))), ms)
  }

  /** The rule of a per-subject edit, said of the passing messages themselves: a
      message stays when the rule lets it survive the passing messages after it. */
  function Selected(su: Setup, passing: seq<Message>): (r: seq<Message>)
    ensures |r| <= |passing|
    ensures forall m :: m in r ==> m in passing
  {
    if passing == [] then []
    else if S.Survives(RuleOf(su.o), ObsOf(su, passing[0]), Observed(su, passing[1..])) then [passing[0]] + Selected(su, passing[1..])
    else Selected(su, passing[1..])
  }

  /** The messages an edit keeps. */
  function Chosen(su: Setup, ms: seq<Message>): seq<Message> {
    if su.o.PerSubject() then Selected(su, Passing(su, ms)) else Passing(su, ms)
  }

  /** The messages taken from a reading `ds` when the filters and the rule were
      resolved on a reading `ms`. */
  function Taken(su: Setup, ms: seq<Message>, ds: seq<Message>): seq<Message> {
    if su.o.PerSubject() then Copied(su, Passing(su, ms), ds) else Passing(su, ds)
  }

  /* ---------- Two-pass refinement ---------- */

  lemma {:induction false} SelectedObserved(su: Setup, ms: seq<Message>)
    ensures Observed(su, Selected(su, ms)) == S.Survivors(RuleOf(su.o), Observed(su, ms))
  {
    if ms != [] {
      SelectedObserved(su, ms[1..]);
      assert Observed(su, ms) == [ObsOf(su, ms[0])] + Observed(su, ms[1..]);
      assert Observed(su, ms)[1..] == Observed(su, ms[1..]);
    }
  }

  /** A sequence names one message only. */
  predicate Distinct(ms: seq<Message>) {
    forall i, j :: 0 <= i < |ms| && 0 <= j < |ms| && ms[i].seqno == ms[j].seqno ==> i == j
  }

  /** With distinct sequences, asking the survivors about a message is asking
      whether it was selected. */
  lemma KeptMeansSelected(su: Setup, ms: seq<Message>, passing: seq<Message>, m: Message)
    requires Distinct(ms) && m in ms && forall x :: x in passing ==> x in ms
    ensures S.Kept(S.Survivors(RuleOf(su.o), Observed(su, passing)), m.subject, m.seqno) <==> m in Selected(su, passing)
  {
    var sel := Selected(su, passing);
    SelectedObserved(su, passing);
    if S.Kept(Observed(su, sel), m.subject, m.seqno) {
      var i :| 0 <= i < |sel| && Observed(su, sel)[i].subject == m.subject && Observed(su, sel)[i].seqno == m.seqno;
      assert sel[i] in sel && sel[i] in ms && sel[i].seqno == m.seqno;
      var a :| 0 <= a < |ms| && ms[a] == m;
      var b :| 0 <= b < |ms| && ms[b] == sel[i];
      assert a == b;
    }
    if m in sel {
      var i :| 0 <= i < |sel| && sel[i] == m;
      assert Observed(su, sel)[i].subject == m.subject;
    }
  }

  /** A selection is what picking its members yields. */
  predicate IsSelection(sel: seq<Message>, ms: seq<Message>) {
    if ms == [] then sel == []
    else if sel != [] && sel[0] == ms[0] then IsSelection(sel[1..], ms[1..])
    else IsSelection(sel, ms[1..])
  }

  lemma {:induction false} PickCons(p: Message -> bool, m: Message, ms: seq<Message>)
    ensures Pick(p, [m] + ms) == (if p(m) then [m] else []) + Pick(p, ms)
    decreases |ms|
  {
    if ms == [] {
      assert [m] + ms == [m] && [m][..0] == [];
    } else {
      var n := |ms| - 1;
      PickCons(p, m, ms[..n]);
      PickSnoc(p, [m] + ms[..n], ms[n]);
      assert [m] + ms == ([m] + ms[..n]) + [ms[n]];
      Assoc(if p(m) then [m] else [], Pick(p, ms[..n]), if p(ms[n]) then [ms[n]] else []);
    }
  }

  lemma {:induction false} SelectionPicks(p: Message -> bool, sel: seq<Message>, ms: seq<Message>)
    requires Distinct(ms) && IsSelection(sel, ms) && forall m :: m in ms ==> (p(m) <==> m in sel)
    ensures Pick(p, ms) == sel
    decreases |ms|
  {
    if ms != [] {
      assert ms == [ms[0]] + ms[1..];
      PickCons(p, ms[0], ms[1..]);
      SelectionMembers(if sel != [] && sel[0] == ms[0] then sel[1..] else sel, ms[1..]);
      assert ms[0] in ms;
      DistinctTail(ms);
      if sel != [] && sel[0] == ms[0] {
        forall m | m in ms[1..] ensures p(m) <==> m in sel[1..] {
          assert m in ms && m != ms[0];
          assert m in sel <==> m in sel[1..];
        }
        SelectionPicks(p, sel[1..], ms[1..]);
      } else {
        assert ms[0] !in sel;
        SelectionPicks(p, sel, ms[1..]);
      }
    }
  }

  lemma DistinctTail(ms: seq<Message>)
    requires Distinct(ms) && ms != []
    ensures Distinct(ms[1..]) && ms[0] !in ms[1..]
  {
  }

  lemma {:induction false} SelectionMembers(sel: seq<Message>, ms: seq<Message>)
    requires IsSelection(sel, ms)
    ensures forall m :: m in sel ==> m in ms
    decreases |ms|
  {
    if ms != [] {
      var rest := if sel != [] && sel[0] == ms[0] then sel[1..] else sel;
      SelectionMembers(rest, ms[1..]);
      assert forall m :: m in ms[1..] ==> m in ms;
      assert forall m :: m in sel ==> m == ms[0] || m in rest;
    }
  }

  lemma {:induction false} SelectedIsSelection(su: Setup, p: Message -> bool, ms: seq<Message>)
    requires Distinct(ms)
    ensures IsSelection(Selected(su, Pick(p, ms)), ms)
    decreases |ms|
  {
    if ms != [] {
      assert ms == [ms[0]] + ms[1..];
      PickCons(p, ms[0], ms[1..]);
      DistinctTail(ms);
      SelectedIsSelection(su, p, ms[1..]);
      var rest := Pick(p, ms[1..]);
      if p(ms[0]) {
        assert Pick(p, ms)[0] == ms[0] && Pick(p, ms)[1..] == rest;
      } else {
        assert Pick(p, ms) == rest;
      }
      var sel := Selected(su, rest);
      if sel != [] {
        PickMember(p, ms[1..], sel[0]);
        assert sel[0] in sel && sel[0] in ms[1..];
      }
    }
  }

  lemma AscendingDistinct(lo: int, ms: seq<Message>)
    requires Ascending(lo, ms)
    ensures Distinct(ms)
  {
  }

  /** The second pass, which re-runs no filter and asks only the resolved state,
      copies exactly the messages the rule selects among those that pass. */
  lemma TwoPassRefines(su: Setup, lo: int, ms: seq<Message>)
    requires Ascending(lo, ms)
    ensures Copied(su, Passing(su, ms), ms) == Selected(su, Passing(su, ms))
  {
    var passing := Passing(su, ms);
    AscendingDistinct(lo, ms);
    forall m | m in passing ensures m in ms {
      PickMember(Passer(su), ms, m);
    }
    forall m | m in ms
      ensures S.Kept(S.Survivors(RuleOf(su.o), Observed(su, passing)), m.subject, m.seqno) <==> m in Selected(su, passing)
    {
      KeptMeansSelected(su, ms, passing, m);
    }
    SelectedIsSelection(su, Passer(su), ms);
    SelectionPicks(KeptBy(S.Survivors(RuleOf(su.o), Observed(su, passing))), Selected(su, passing), ms);
  }

  /** Totals: the resolved counts are those of the selected messages. */
  lemma ResolvedTotals(su: Setup, lo: int, passing: seq<Message>, res: S.Resolved)
    requires Ascending(lo, passing) && S.Resolves(res, RuleOf(su.o), Observed(su, passing))
    ensures var sel := Selected(su, passing);
            && res.msgs == |sel| <= |passing|
            && res.bytes == TotalSize(su.storage, sel)
            && res.firstSeq == (if sel == [] then 0 else sel[0].seqno)
  {
    hide Selected; hide Observed; hide S.Bytes; hide TotalSize; hide S.Survivors;
    var sel := Selected(su, passing);
    SelectedObserved(su, passing);
    BytesAreSizes(su, sel);
    SelectedAscending(su, lo, passing);
    if sel != [] {
      LeastIsFirst(su, lo, sel);
    }
  }

  lemma LeastIsFirst(su: Setup, lo: int, ms: seq<Message>)
    requires Ascending(lo, ms) && ms != []
    ensures ms[0].seqno in S.Seqs(Observed(su, ms)) && forall x :: x in S.Seqs(Observed(su, ms)) ==> ms[0].seqno <= x
  {
    var os := Observed(su, ms);
    assert os[0] in os && os[0].seqno == ms[0].seqno;
    forall x | x in S.Seqs(os) ensures ms[0].seqno <= x {
      var o :| o in os && o.seqno == x;
      var i :| 0 <= i < |os| && os[i] == o;
      assert ms[i].seqno == x;
    }
  }

  lemma {:induction false} BytesAreSizes(su: Setup, ms: seq<Message>)
    ensures S.Bytes(Observed(su, ms)) == TotalSize(su.storage, ms)
    decreases |ms|
  {
    if ms != [] {
      var n := |ms| - 1;
      BytesAreSizes(su, ms[..n]);
      assert Observed(su, ms) == Observed(su, ms[..n]) + [ObsOf(su, ms[n])];
      BytesSnoc(Observed(su, ms[..n]), ObsOf(su, ms[n]));
    }
  }

  lemma {:induction false} BytesSnoc(os: seq<S.Obs>, o: S.Obs)
    ensures S.Bytes(os + [o]) == S.Bytes(os) + o.size
  {
    if os == [] {
      assert [] + [o] == [o];
    } else {
      BytesSnoc(os[1..], o);
      assert (os + [o])[1..] == os[1..] + [o];
    }
  }

  lemma {:induction false} SelectedAscending(su: Setup, lo: int, ms: seq<Message>)
    requires Ascending(lo, ms)
    ensures Ascending(lo, Selected(su, ms))
    decreases |ms|
  {
    if ms != [] {
      SelectedAscending(su, ms[0].seqno, ms[1..]);
      var rest := Selected(su, ms[1..]);
      assert forall i :: 0 <= i < |rest| ==> rest[i].seqno > ms[0].seqno > lo;
    }
  }

  lemma PassingAscending(su: Setup, lo: int, ms: seq<Message>)
    requires Ascending(lo, ms)
    ensures Ascending(lo, Passing(su, ms))
  {
    PickAscending(Passer(su), lo, ms);
  }

  lemma ChosenAscending(su: Setup, lo: int, ms: seq<Message>)
    requires Ascending(lo, ms)
    ensures Ascending(lo, Chosen(su, ms))
  {
    PickAscending(Passer(su), lo, ms);
    SelectedAscending(su, lo, Passing(su, ms));
  }

  /* ---------- What is written ---------- */

  function Clip(b: seq<byte>, n: nat): seq<byte> {
    if |b| < n then b else b[..n]
  }

  /** Padding that stands in for an obfuscated body. */
  function Zeros(n: nat): (r: seq<byte>)
    ensures |r| == n
  {
    seq(n, i => 48)
  }

  function HeadersOrNone(su: Setup, m: Message): Header {
    match HeadersOf(su.lib, m) case Some(h) => h case None => map[]
  }

  /** The header block of an obfuscated message. */
  function ObfBlock(su: Setup, m: Message): seq<byte> {
    HeaderBlock(su.render, ObfHeader(su.hash, su.kinds, HeadersOrNone(su, m)))
  }

  /** The body of an obfuscated message: padding, except on counter streams. */
  function ObfPayload(su: Setup, m: Message): seq<byte> {
    if su.counter then (match PayloadOf(m) case Some(p) => p case None => []) else Zeros(m.payloadSize)
  }

  /** writeMessage: the i-th message written (from 0) for a kept message. */
  function OutMessage(su: Setup, i: nat, m: Message): Message {
    var seqno := if su.o.renumber then (i + 1) % TWO64 else m.seqno;
    if su.obfuscate then
      Message(ObfSubject(su.hash, false, m.subject), seqno, m.ts, |ObfBlock(su, m)|, m.payloadSize, ObfBlock(su, m) + ObfPayload(su, m))
    else
      Message(m.subject, seqno, m.ts, m.hdrSize, m.payloadSize, Clip(m.body, m.hdrSize + m.payloadSize))
  }

  /** How kept messages and consumers come out; the position matters under Renumber. */
  datatype Render = Render(consumers: bool, message: (nat, Message) -> Message, consumer: Consumer -> Consumer)

  function RenderOf(su: Setup): Render {
    Render(!su.o.renumber, (i: nat, m: Message) => OutMessage(su, i, m), (c: Consumer) => OutConsumer(su, c))
  }

  function Rendered(rd: Render, ms: seq<Message>): (r: seq<Message>)
    ensures |r| == |ms| && forall i :: 0 <= i < |r| ==> r[i] == rd.message(i, ms[i])
  {
    seq(|ms|, i requires 0 <= i < |ms| => rd.message(i, ms[i]))
  }

  lemma RenderedSnoc(rd: Render, ms: seq<Message>, m: Message)
    ensures Rendered(rd, ms + [m]) == Rendered(rd, ms) + [rd.message(|ms|, m)]
  {
  }

  function RenderedConsumers(rd: Render, cs: seq<Consumer>): (r: seq<Consumer>)
    ensures |r| == if rd.consumers then |cs| else 0
    ensures forall i :: 0 <= i < |r| ==> r[i] == rd.consumer(cs[i])
  {
    if rd.consumers then seq(|cs|, i requires 0 <= i < |cs| => rd.consumer(cs[i])) else []
  }

  function Outs(su: Setup, ms: seq<Message>): (r: seq<Message>)
    ensures |r| == |ms| && forall i :: 0 <= i < |r| ==> r[i] == OutMessage(su, i, ms[i])
  {
    Rendered(RenderOf(su), ms)
  }

  /** What reading a kept message needs: its headers (and on a counter stream its
      payload) to obfuscate it, the whole declared body to write it. */
  predicate Ready(su: Setup, writing: bool, m: Message) {
    if su.obfuscate then HeadersOf(su.lib, m).Some? && (su.counter ==> PayloadOf(m).Some?)
    else writing ==> |m.body| >= m.hdrSize + m.payloadSize
  }

  function OutConsumer(su: Setup, c: Consumer): Consumer {
    if su.obfuscate then
      Consumer(Hashed(su.hash, c.name), c.ts, su.withFields(c.data, ObfFields(su.hash, su.fields(c.data))))
    else c
  }

  function OutConsumers(su: Setup, cs: seq<Consumer>): (r: seq<Consumer>)
    ensures |r| == if su.o.renumber then 0 else |cs|
    ensures forall i :: 0 <= i < |r| ==> r[i] == OutConsumer(su, cs[i])
  {
    RenderedConsumers(RenderOf(su), cs)
  }

  /* ---------- What an obfuscated edit hashes ---------- */

  function MessageNeeder(su: Setup): Message -> set<string> {
    (m: Message) => if su.obfuscate then MessageNeeds(su.kinds, m.subject, HeadersOrNone(su, m)) else {}
  }

  function ConsumerNeeder(su: Setup): Consumer -> set<string> {
    (c: Consumer) => if su.obfuscate && !su.o.renumber then ConsumerNeeds(c.name, su.fields(c.data)) else {}
  }

  /** The tokens hashed for one item, when the messages of `p` are kept. */
  function Needer(su: Setup, p: Message -> bool): Item -> set<string> {
    (item: Item) =>
      match item
      case ConsumerItem(c) => ConsumerNeeder(su)(c)
      case MessageItem(m) => if p(m) then MessageNeeder(su)(m) else {}
      case _ => {}
  }

  /** The tokens hashed for the consumers and messages written. */
  function EditNeeds(su: Setup, cs: seq<Consumer>, ms: seq<Message>): set<string> {
    NeedsOf(ConsumerNeeder(su), cs) + NeedsOf(MessageNeeder(su), ms)
  }

  lemma NeedsSnoc<T>(need: T -> set<string>, xs: seq<T>, x: T)
    ensures NeedsOf(need, xs + [x]) == NeedsOf(need, xs) + need(x)
  {
    assert (xs + [x])[..|xs|] == xs;
  }

  lemma {:induction false} NeedsOfConsumers(su: Setup, p: Message -> bool, items: seq<Item>, cs: seq<Consumer>)
    ensures NeedsOf(Needer(su, p), items + ConsumerItems(cs)) == NeedsOf(Needer(su, p), items) + NeedsOf(ConsumerNeeder(su), cs)
    decreases |cs|
  {
    hide NeedsOf; hide ConsumerItems;
    if cs == [] {
      NeedsOfNone(su, p, items);
    } else {
      var init, c := cs[..|cs| - 1], cs[|cs| - 1];
      assert init + [c] == cs;
      NeedsOfConsumers(su, p, items, init);
      ConsumerItemsSnoc(items, init, c);
      NeedsSnoc(Needer(su, p), items + ConsumerItems(init), ConsumerItem(c));
      NeedsSnoc(ConsumerNeeder(su), init, c);
    }
  }

  lemma {:induction false} NeedsOfMessages(su: Setup, p: Message -> bool, items: seq<Item>, ms: seq<Message>)
    ensures NeedsOf(Needer(su, p), items + MessageItems(ms)) == NeedsOf(Needer(su, p), items) + NeedsOf(MessageNeeder(su), Pick(p, ms))
    decreases |ms|
  {
    hide NeedsOf; hide MessageItems; hide Pick;
    if ms == [] {
      NeedsOfNone(su, p, items);
    } else {
      var init, m := ms[..|ms| - 1], ms[|ms| - 1];
      assert init + [m] == ms;
      NeedsOfMessages(su, p, items, init);
      MessageItemsSnoc(items, init, m);
      NeedsSnoc(Needer(su, p), items + MessageItems(init), MessageItem(m));
      PickSnoc(p, init, m);
      if p(m) {
        NeedsSnoc(MessageNeeder(su), Pick(p, init), m);
      } else {
        assert Pick(p, init) + [] == Pick(p, init);
      }
    }
  }

  lemma NeedsOfNone(su: Setup, p: Message -> bool, items: seq<Item>)
    ensures NeedsOf(Needer(su, p), items + ConsumerItems([])) == NeedsOf(Needer(su, p), items) == NeedsOf(Needer(su, p), items + MessageItems([]))
    ensures NeedsOf(ConsumerNeeder(su), []) == {} && NeedsOf(MessageNeeder(su), Pick(p, [])) == {}
  {
    assert items + ConsumerItems([]) == items && items + MessageItems([]) == items;
  }

  /** Over a whole source: the consumers and the kept messages. */
  lemma NeedsOfItems(su: Setup, p: Message -> bool, c: Contents)
    ensures NeedsOf(Needer(su, p), ItemsOf(c)) == EditNeeds(su, c.consumers, Pick(p, c.msgs))
  {
    hide NeedsOf; hide ConsumerItems; hide MessageItems; hide Pick;
    var state := StateItem(c.ts, c.st);
    var t := [state] + ConsumerItems(c.consumers);
    NeedsSnoc(Needer(su, p), [], state);
    NeedsNone(Needer(su, p));
    assert [] + [state] == [state];
    NeedsOfConsumers(su, p, [state], c.consumers);
    NeedsOfMessages(su, p, t, c.msgs);
    NeedsSnoc(Needer(su, p), t + MessageItems(c.msgs), EndItem);
  }

  lemma NeedsNone<T>(need: T -> set<string>)
    ensures NeedsOf(need, []) == {}
  {
  }

  function SrcLast(su: Setup, src: StreamState): uint64 {
    if src.lastSeq > su.metaLast then src.lastSeq else su.metaLast
  }

  /** archiveState; totals are zero until they are known. */
  function ArchiveState(su: Setup, src: StreamState, known: bool, msgs: nat, bytes: nat): StreamState {
    StreamState(if known then msgs else 0, if known then bytes else 0,
                if su.o.renumber then 1 else src.firstSeq,
                if su.o.renumber then (if known then msgs % TWO64 else 0) else SrcLast(su, src),
                if su.o.renumber then 0 else src.consumers)
  }

  /** resultRange */
  function ResultRange(su: Setup, src: StreamState, sourceMessages: nat, kept: nat, firstOut: uint64): (uint64, uint64) {
    if su.o.renumber then (1, kept % TWO64)
    else if kept > 0 then (firstOut, SrcLast(su, src))
    else if sourceMessages == 0 then (src.firstSeq, src.lastSeq)
    else ((SrcLast(su, src) + 1) % TWO64, SrcLast(su, src))
  }

  function FirstSeqOf(ms: seq<Message>): uint64 {
    if ms == [] then 0 else ms[0].seqno
  }

  /* ---------- Counting drops ---------- */

  datatype DropCounts = DropCounts(sequence: nat, time: nat, subject: nat, header: nat, payload: nat,
                                   lastPerSubject: nat, kvCompact: nat)
  {
    function Total(): nat {
      sequence + time + subject + header + payload + lastPerSubject + kvCompact
    }

    function Add(kind: DropKind): (r: DropCounts)
      ensures r.Total() == Total() + 1
      ensures forall k :: r.Of(k) == Of(k) + if k == kind then 1 else 0
    {
      match kind
      case DropSequence => this.(sequence := sequence + 1)
      case DropTime => this.(time := time + 1)
      case DropSubject => this.(subject := subject + 1)
      case DropHeader => this.(header := header + 1)
      case DropPayload => this.(payload := payload + 1)
      case DropLastPerSubject => this.(lastPerSubject := lastPerSubject + 1)
      case DropKVCompact => this.(kvCompact := kvCompact + 1)
    }

    function Of(kind: DropKind): nat {
      match kind
      case DropSequence => sequence
      case DropTime => time
      case DropSubject => subject
      case DropHeader => header
      case DropPayload => payload
      case DropLastPerSubject => lastPerSubject
      case DropKVCompact => kvCompact
    }
  }

  const NO_DROPS := DropCounts(0, 0, 0, 0, 0, 0, 0)

  /** The drops under some judgement of the messages. */
  function TallyBy(judge: Message -> Verdict, ms: seq<Message>): DropCounts {
    if ms == [] then NO_DROPS
    else
      var before, v := TallyBy(judge, ms[..|ms| - 1]), judge(ms[|ms| - 1]);
      if v.Reject? then before.Add(v.kind) else before
  }

  function Judger(su: Setup): (judge: Message -> Verdict)
    ensures forall m :: judge(m) == Judge(su, m)
  {
    (m: Message) => Judge(su, m)
  }

  /** The drops of the stateless filters. */
  function Tally(su: Setup, ms: seq<Message>): DropCounts {
    TallyBy(Judger(su), ms)
  }

  function LostTombstones(su: Setup, ms: seq<Message>): nat {
    if ms == [] then 0
    else LostTombstones(su, ms[..|ms| - 1]) + if LostTombstone(su, ms[|ms| - 1]) then 1 else 0
  }

  predicate Readable(su: Setup, ms: seq<Message>) {
    forall m :: m in ms ==> !Judge(su, m).Unreadable?
  }

  function RejectedBy(su: Setup, kind: DropKind): (p: Message -> bool)
    ensures forall m :: p(m) == (Judge(su, m) == Reject(kind))
  {
    (m: Message) => Judge(su, m) == Reject(kind)
  }

  lemma {:induction false} TallyBySum(judge: Message -> Verdict, p: Message -> bool, ms: seq<Message>)
    requires forall m :: m in ms ==> !judge(m).Unreadable? && (p(m) <==> judge(m).Keep?)
    ensures |Pick(p, ms)| + TallyBy(judge, ms).Total() == |ms|
    decreases |ms|
  {
    if ms != [] {
      var init, m := ms[..|ms| - 1], ms[|ms| - 1];
      TallyBySum(judge, p, init);
      PickSnoc(p, init, m);
      assert ms == init + [m] && m in ms;
    }
  }

  lemma {:induction false} TallyByKind(judge: Message -> Verdict, p: Message -> bool, ms: seq<Message>, kind: DropKind)
    requires forall m :: m in ms ==> (p(m) <==> judge(m) == Reject(kind))
    ensures TallyBy(judge, ms).Of(kind) == |Pick(p, ms)|
    decreases |ms|
  {
    if ms != [] {
      var init, m := ms[..|ms| - 1], ms[|ms| - 1];
      TallyByKind(judge, p, init, kind);
      PickSnoc(p, init, m);
      assert ms == init + [m] && m in ms;
    }
  }

  /** Every readable message passes or is counted exactly once. */
  lemma TallyTotal(su: Setup, ms: seq<Message>)
    requires Readable(su, ms)
    ensures |Passing(su, ms)| + Tally(su, ms).Total() == |ms|
  {
    TallyBySum(Judger(su), Passer(su), ms);
  }

  /** Each counter holds exactly the messages whose first rejecting filter it
      stands for; the filters never count for a per-subject rule. */
  lemma TallyKind(su: Setup, ms: seq<Message>, kind: DropKind)
    ensures Tally(su, ms).Of(kind) == |Pick(RejectedBy(su, kind), ms)|
    ensures kind == DropLastPerSubject || kind == DropKVCompact ==> Tally(su, ms).Of(kind) == 0
  {
    var p := RejectedBy(su, kind);
    TallyByKind(Judger(su), p, ms, kind);
    if Pick(p, ms) != [] {
      var m := Pick(p, ms)[0];
      PickMember(p, ms, m);
      FiltersOnly(su, m);
    }
  }

  /** The stateless filters never blame a per-subject rule. */
  lemma FiltersOnly(su: Setup, m: Message)
    ensures Judge(su, m).Reject? ==> Judge(su, m).kind != DropLastPerSubject && Judge(su, m).kind != DropKVCompact
  {
  }

  /* ---------- Reports ---------- */

  datatype Report = Report(sourceMessages: nat, kept: nat, bytes: nat, dropped: DropCounts,
                           consumersKept: nat, consumersDropped: nat, tombstones: nat, state: StreamState)

  /** The drops of the whole edit; `gone` messages fell to the per-subject rule. */
  function WithRule(su: Setup, d: DropCounts, gone: nat): DropCounts {
    if !su.o.PerSubject() then d
    else if su.o.kvCompact then d.(kvCompact := gone)
    else d.(lastPerSubject := gone)
  }

  lemma WithRuleTotal(su: Setup, d: DropCounts, gone: nat)
    requires d.Of(DropLastPerSubject) == 0 && d.Of(DropKVCompact) == 0
    ensures WithRule(su, d, gone).Total() == d.Total() + if su.o.PerSubject() then gone else 0
  {
  }

  /** What an edit of a source holding `c` reports. */
  function ReportOf(su: Setup, c: Contents): Report {
    var chosen := Chosen(su, c.msgs);
    var outs := Outs(su, chosen);
    var kept, bytes := |chosen|, TotalSize(su.storage, outs);
    var consumersKept := if su.o.renumber then 0 else |c.consumers|;
    var range := ResultRange(su, c.st, |c.msgs|, kept, FirstSeqOf(outs));
    Report(|c.msgs|, kept, bytes, WithRule(su, Tally(su, c.msgs), |Passing(su, c.msgs)| - kept),
           consumersKept, |c.consumers| - consumersKept, LostTombstones(su, c.msgs),
           StreamState(kept, bytes, range.0, range.1, consumersKept))
  }

  /** Nothing is lost: what was read is what was kept plus what was dropped. */
  lemma Conservation(su: Setup, c: Contents)
    requires Readable(su, c.msgs)
    ensures var r := ReportOf(su, c);
            && r.sourceMessages == r.kept + r.dropped.Total()
            && r.consumersKept + r.consumersDropped == |c.consumers|
  {
    CountersConserve(su, c.msgs);
  }

  /** The same of the counters: a completed edit has read only readable messages. */
  lemma CountersConserve(su: Setup, ms: seq<Message>)
    requires Readable(su, ms)
    ensures |Chosen(su, ms)| + WithRule(su, Tally(su, ms), |Passing(su, ms)| - |Chosen(su, ms)|).Total() == |ms|
  {
    TallyTotal(su, ms);
    TallyKind(su, ms, DropLastPerSubject);
    TallyKind(su, ms, DropKVCompact);
    WithRuleTotal(su, Tally(su, ms), |Passing(su, ms)| - |Chosen(su, ms)|);
  }

  lemma SameSize(su: Setup, i: nat, m: Message)
    requires !su.obfuscate
    ensures SizeOf(su.storage, OutMessage(su, i, m)) == SizeOf(su.storage, m)
  {
  }

  lemma OutsNext(su: Setup, ms: seq<Message>, m: Message)
    ensures Outs(su, ms + [m]) == Outs(su, ms) + [OutMessage(su, |ms|, m)]
  {
    hide Rendered; hide OutMessage;
    RenderedSnoc(RenderOf(su), ms, m);
  }

  lemma NoOuts(su: Setup)
    ensures Outs(su, []) == []
  {
  }

  lemma {:induction false} OutSizes(su: Setup, ms: seq<Message>)
    requires !su.obfuscate
    ensures TotalSize(su.storage, Outs(su, ms)) == TotalSize(su.storage, ms)
    decreases |ms|
  {
    hide Outs; hide TotalSize; hide SizeOf; hide OutMessage;
    if ms == [] {
      NoOuts(su);
    } else {
      var init, m := ms[..|ms| - 1], ms[|ms| - 1];
      OutSizes(su, init);
      SameSize(su, |init|, m);
      OutsNext(su, init, m);
      TotalSizeAppend(su.storage, Outs(su, init), OutMessage(su, |init|, m));
      TotalSizeAppend(su.storage, init, m);
      assert ms == init + [m];
    }
  }

  /* ---------- The output archive ---------- */

  /** What the archive written by an edit of `c` holds. */
  function OutContents(su: Setup, c: Contents): Contents {
    var outs := Outs(su, Chosen(su, c.msgs));
    Contents(c.ts, ArchiveState(su, c.st, true, |outs|, TotalSize(su.storage, outs)), OutConsumers(su, c.consumers), outs)
  }

  /** The archive file an edit of `c` writes, or None when its state does not fit the head. */
  function OutputFile(su: Setup, c: Contents): Option<seq<byte>> {
    var out := OutContents(su, c);
    match StateHead(su.codec, su.framing, out.ts, out.st)
    case None => None
    case Some(head) => Some(head + su.framing.Flat(EntriesOf(out.consumers, out.msgs)))
  }

  /** Distinct positive sequences bound the number of messages. */
  lemma {:induction false} AscendingCount(lo: int, ms: seq<Message>)
    requires Ascending(lo, ms)
    ensures |ms| < TWO64 && (ms != [] ==> |ms| <= ms[|ms| - 1].seqno)
    decreases |ms|
  {
    if |ms| > 1 {
      AscendingCount(lo, ms[..|ms| - 1]);
      assert ms[|ms| - 2].seqno < ms[|ms| - 1].seqno;
    }
  }

  /** Under Renumber the messages are numbered exactly 1..K. */
  lemma Renumbered(su: Setup, lo: int, ms: seq<Message>)
    requires su.o.renumber && Ascending(lo, ms)
    ensures forall i :: 0 <= i < |ms| ==> Outs(su, ms)[i].seqno == i + 1
  {
    AscendingCount(lo, ms);
    forall i | 0 <= i < |ms| ensures Outs(su, ms)[i].seqno == i + 1 {
      OutSeqno(su, i, ms[i]);
    }
  }

  lemma OutSeqno(su: Setup, i: nat, m: Message)
    ensures OutMessage(su, i, m).seqno == if su.o.renumber then (i + 1) % TWO64 else m.seqno
  {
  }

  /** The written messages satisfy the order the decoder demands. */
  lemma OutsAscending(su: Setup, src: StreamState, ms: seq<Message>, msgs: nat, bytes: nat)
    requires Ascending(Below(src.firstSeq), ms)
    ensures Ascending(Below(ArchiveState(su, src, true, msgs, bytes).firstSeq), Outs(su, ms))
  {
    if su.o.renumber {
      Renumbered(su, Below(src.firstSeq), ms);
    }
  }

  /** Obfuscating a consumer document keeps it one. */
  ghost predicate DocsLawful(su: Setup) {
    forall d, f :: su.codec.GoodConsumer(d) ==> su.codec.GoodConsumer(su.withFields(d, f))
  }

  lemma OutDocs(su: Setup, cs: seq<Consumer>)
    requires DocsLawful(su) && GoodDocs(su.codec, cs)
    ensures GoodDocs(su.codec, OutConsumers(su, cs))
  {
  }

  /** The archive of an edit is a complete backup of what the edit keeps, exactly
      when every consumer name it writes survives path cleaning. */
  lemma OutputHolds(su: Setup, c: Contents, a: seq<Entry>)
    requires DocsLawful(su) && GoodDocs(su.codec, c.consumers) && c.st.consumers == |c.consumers|
    requires Ascending(Below(c.st.firstSeq), c.msgs)
    requires var out := OutContents(su, c);
             |a| == 1 + |EntriesOf(out.consumers, out.msgs)| && a[1..] == EntriesOf(out.consumers, out.msgs) &&
             IsState(su.codec, a[0], out.ts, out.st)
    ensures Holds(su.codec, a, OutContents(su, c)) <==> RegularNames(OutConsumers(su, c.consumers))
  {
    var out := OutContents(su, c);
    ChosenAscending(su, Below(c.st.firstSeq), c.msgs);
    OutsAscending(su, c.st, Chosen(su, c.msgs), |out.msgs|, TotalSize(su.storage, out.msgs));
    OutDocs(su, c.consumers);
    WrittenHolds(su.codec, a, out);
  }

  /* ---------- Revealing the output ---------- */

  /** The written consumer `hidden` reveals the name and every identifying field of
      the consumer `shown`. */
  ghost predicate ConsumerRevealed(su: Setup, reverse: map<string, string>, hidden: Consumer, shown: Consumer) {
    && Revealed(reverse, hidden.name) == shown.name
    && var f := ObfFields(su.hash, su.fields(shown.data));
       hidden.data == su.withFields(shown.data, f) && FieldsRevealed(reverse, f, su.fields(shown.data))
  }

  /** A token map that knows what an edit hashed reveals the whole archive: every
      subject, every rewritten header value, every consumer name and field. */
  lemma ArchiveRevealed(su: Setup, tm: TokenMap, cs: seq<Consumer>, ms: seq<Message>)
    requires su.obfuscate && Shaped(su.hash) && Inverse(su.hash, tm) && EditNeeds(su, cs, ms) <= tm.forward.Keys
    ensures forall i :: 0 <= i < |ms| ==> Revealed(tm.reverse, Outs(su, ms)[i].subject) == ms[i].subject
    ensures forall i, k, j :: 0 <= i < |ms| && k in HeadersOrNone(su, ms[i]) && 0 <= j < |HeadersOrNone(su, ms[i])[k]| && su.kinds(k) != Verbatim ==>
              Revealed(tm.reverse, ObfValue(su.hash, su.kinds(k), HeadersOrNone(su, ms[i])[k][j])) == HeadersOrNone(su, ms[i])[k][j]
    ensures forall i :: 0 <= i < |OutConsumers(su, cs)| ==> ConsumerRevealed(su, tm.reverse, OutConsumers(su, cs)[i], cs[i])
  {
    hide FieldsRevealed; hide Revealed; hide ObfSubject; hide NeedsOf; hide Inverse; hide HeadersOrNone; hide MessageNeeds; hide ConsumerNeeds; hide ObfValue;
    forall i | 0 <= i < |ms|
      ensures Revealed(tm.reverse, Outs(su, ms)[i].subject) == ms[i].subject
      ensures forall k, j :: k in HeadersOrNone(su, ms[i]) && 0 <= j < |HeadersOrNone(su, ms[i])[k]| && su.kinds(k) != Verbatim ==>
                Revealed(tm.reverse, ObfValue(su.hash, su.kinds(k), HeadersOrNone(su, ms[i])[k][j])) == HeadersOrNone(su, ms[i])[k][j]
    {
      NeedsMember(MessageNeeder(su), ms, i);
      RevealMessage(su.hash, tm, su.kinds, ms[i].subject, HeadersOrNone(su, ms[i]));
    }
    forall i | 0 <= i < |OutConsumers(su, cs)| ensures ConsumerRevealed(su, tm.reverse, OutConsumers(su, cs)[i], cs[i]) {
      NeedsMember(ConsumerNeeder(su), cs, i);
      RevealConsumer(su.hash, tm, cs[i].name, su.fields(cs[i].data));
    }
  }

  /* ---------- Entries as the loops write them ---------- */

  /** What one item adds to the output when `before` have been read. */
  function EntriesFor(rd: Render, p: Message -> bool, before: seq<Item>, item: Item): seq<Entry> {
    if item.ConsumerItem? then (if rd.consumers then [ConsumerEntry(rd.consumer(item.con))] else [])
    else if item.MessageItem? then (if p(item.msg) then [EntryOf(rd.message(|Pick(p, MessagesIn(before))|, item.msg))] else [])
    else if item.EndItem? then [SENTINEL]
    else []
  }

  /** What has been written after `items` were read, keeping the messages of `p`. */
  function EntriesUpTo(rd: Render, p: Message -> bool, items: seq<Item>): seq<Entry> {
    if items == [] then []
    else EntriesUpTo(rd, p, items[..|items| - 1]) + EntriesFor(rd, p, items[..|items| - 1], items[|items| - 1])
  }

  lemma UpToSnoc(rd: Render, p: Message -> bool, items: seq<Item>, i: Item)
    ensures EntriesUpTo(rd, p, items + [i]) == EntriesUpTo(rd, p, items) + EntriesFor(rd, p, items, i)
  {
    assert (items + [i])[..|items|] == items;
  }

  lemma ConsumerPart(rd: Render, init: seq<Consumer>, c: Consumer)
    ensures ConsumerEntries(RenderedConsumers(rd, init + [c])) ==
            ConsumerEntries(RenderedConsumers(rd, init)) + if rd.consumers then [ConsumerEntry(rd.consumer(c))] else []
  {
    var a, b := RenderedConsumers(rd, init + [c]), RenderedConsumers(rd, init);
    assert a == b + if rd.consumers then [rd.consumer(c)] else [];
  }

  lemma {:induction false} UpToConsumers(rd: Render, p: Message -> bool, items: seq<Item>, cs: seq<Consumer>)
    ensures EntriesUpTo(rd, p, items + ConsumerItems(cs)) == EntriesUpTo(rd, p, items) + ConsumerEntries(RenderedConsumers(rd, cs))
    decreases |cs|
  {
    if cs == [] {
      assert items + ConsumerItems(cs) == items;
    } else {
      var init, c := cs[..|cs| - 1], cs[|cs| - 1];
      UpToConsumers(rd, p, items, init);
      assert init + [c] == cs;
      UpToConsumer(rd, p, items, init, c);
    }
  }

  lemma UpToConsumer(rd: Render, p: Message -> bool, items: seq<Item>, init: seq<Consumer>, c: Consumer)
    ensures EntriesUpTo(rd, p, items + ConsumerItems(init + [c])) ==
            EntriesUpTo(rd, p, items + ConsumerItems(init)) + if rd.consumers then [ConsumerEntry(rd.consumer(c))] else []
    ensures ConsumerEntries(RenderedConsumers(rd, init + [c])) ==
            ConsumerEntries(RenderedConsumers(rd, init)) + if rd.consumers then [ConsumerEntry(rd.consumer(c))] else []
    ensures (EntriesUpTo(rd, p, items) + ConsumerEntries(RenderedConsumers(rd, init))) + (if rd.consumers then [ConsumerEntry(rd.consumer(c))] else [])
         == EntriesUpTo(rd, p, items) + (ConsumerEntries(RenderedConsumers(rd, init)) + (if rd.consumers then [ConsumerEntry(rd.consumer(c))] else []))
  {
    ConsumerItemsSnoc(items, init, c);
    UpToSnoc(rd, p, items + ConsumerItems(init), ConsumerItem(c));
    ConsumerPart(rd, init, c);
    Assoc(EntriesUpTo(rd, p, items), ConsumerEntries(RenderedConsumers(rd, init)), if rd.consumers then [ConsumerEntry(rd.consumer(c))] else []);
  }

  lemma UpToNothing(rd: Render, p: Message -> bool, items: seq<Item>)
    ensures EntriesUpTo(rd, p, items + MessageItems([])) == EntriesUpTo(rd, p, items) + MessageEntries(Rendered(rd, Pick(p, [])))
  {
    assert items + MessageItems([]) == items;
    assert MessageEntries(Rendered(rd, Pick(p, []))) == [];
  }

  lemma {:induction false} UpToMessages(rd: Render, p: Message -> bool, items: seq<Item>, ms: seq<Message>)
    requires MessagesIn(items) == []
    ensures EntriesUpTo(rd, p, items + MessageItems(ms)) == EntriesUpTo(rd, p, items) + MessageEntries(Rendered(rd, Pick(p, ms)))
    decreases |ms|
  {
    hide EntriesUpTo; hide EntriesFor; hide MessageItems; hide MessageEntries; hide Rendered; hide Pick; hide MessagesIn; hide EntryOf;
    if ms == [] {
      UpToNothing(rd, p, items);
    } else {
      var init, m := ms[..|ms| - 1], ms[|ms| - 1];
      UpToMessages(rd, p, items, init);
      assert init + [m] == ms;
      MessageItemsSnoc(items, init, m);
      UpToSnoc(rd, p, items + MessageItems(init), MessageItem(m));
      MessageAdds(rd, p, items, init, m);
      MessagePart(rd, p, init, m);
      Assoc(EntriesUpTo(rd, p, items), MessageEntries(Rendered(rd, Pick(p, init))),
            if p(m) then [EntryOf(rd.message(|Pick(p, init)|, m))] else []);
    }
  }

  lemma MessageAdds(rd: Render, p: Message -> bool, items: seq<Item>, init: seq<Message>, m: Message)
    requires MessagesIn(items) == []
    ensures EntriesFor(rd, p, items + MessageItems(init), MessageItem(m)) ==
            if p(m) then [EntryOf(rd.message(|Pick(p, init)|, m))] else []
  {
    InMessages(items, init);
    assert [] + init == init;
  }

  lemma MessagePart(rd: Render, p: Message -> bool, init: seq<Message>, m: Message)
    ensures MessageEntries(Rendered(rd, Pick(p, init + [m]))) ==
            MessageEntries(Rendered(rd, Pick(p, init))) + if p(m) then [EntryOf(rd.message(|Pick(p, init)|, m))] else []
  {
    var kept := Pick(p, init);
    PickSnoc(p, init, m);
    if p(m) {
      RenderedSnoc(rd, kept, m);
      MessageEntriesSnoc(Rendered(rd, kept), rd.message(|kept|, m));
    } else {
      assert kept + [] == kept && MessageEntries(Rendered(rd, kept)) + [] == MessageEntries(Rendered(rd, kept));
    }
  }

  lemma MessageEntriesSnoc(ms: seq<Message>, m: Message)
    ensures MessageEntries(ms + [m]) == MessageEntries(ms) + [EntryOf(m)]
  {
  }

  /** After the whole source: the consumers, the kept messages, the sentinel. */
  lemma UpToEnd(rd: Render, p: Message -> bool, c: Contents)
    ensures EntriesUpTo(rd, p, ItemsOf(c)) == EntriesOf(RenderedConsumers(rd, c.consumers), Rendered(rd, Pick(p, c.msgs)))
  {
    var s := [StateItem(c.ts, c.st)];
    var t := s + ConsumerItems(c.consumers);
    UpToSnoc(rd, p, [], s[0]);
    assert [] + s == s;
    InAppend([], s[0]);
    UpToConsumers(rd, p, s, c.consumers);
    InConsumers(s, c.consumers);
    UpToMessages(rd, p, t, c.msgs);
    UpToSnoc(rd, p, t + MessageItems(c.msgs), EndItem);
    assert EntriesUpTo(rd, p, s) == [];
    assert [] + ConsumerEntries(RenderedConsumers(rd, c.consumers)) == ConsumerEntries(RenderedConsumers(rd, c.consumers));
  }

  /* ---------- Editing an edited backup ---------- */

  lemma {:induction false} SurvivorsAgain(rule: S.Rule, os: seq<S.Obs>)
    ensures S.Survivors(rule, S.Survivors(rule, os)) == S.Survivors(rule, os)
    ensures forall k :: |S.OfSubject(S.Survivors(rule, os), k)| <= |S.OfSubject(os, k)|
  {
    forall k ensures |S.OfSubject(S.Survivors(rule, os), k)| <= |S.OfSubject(os, k)| {
      S.SurvivorsOfSubject(rule, os, k);
    }
    if os != [] {
      SurvivorsAgain(rule, os[1..]);
      var rest := S.Survivors(rule, os[1..]);
      if S.Survives(rule, os[0], os[1..]) {
        assert ([os[0]] + rest)[1..] == rest;
        assert S.Survives(rule, os[0], rest);
      }
    }
  }

  lemma {:induction false} SelectedFull(su: Setup, ms: seq<Message>)
    requires |Selected(su, ms)| == |ms|
    ensures Selected(su, ms) == ms
  {
    hide S.Survives; hide ObsOf; hide Observed;
    if ms != [] {
      SelectedFull(su, ms[1..]);
    }
  }

  /** What the filters and the per-subject state see of a written message is what
      they saw of the original. */
  lemma WrittenLooksAlike(su: Setup, i: nat, m: Message)
    requires !su.obfuscate && !su.o.renumber && Ready(su, true, m)
    ensures var out := OutMessage(su, i, m);
            Judge(su, out) == Judge(su, m) && ObsOf(su, out) == ObsOf(su, m) && OutMessage(su, i, out) == out
  {
    var out := OutMessage(su, i, m);
    assert out.body[..m.hdrSize] == m.body[..m.hdrSize];
    assert out.body[m.hdrSize..m.hdrSize + m.payloadSize] == m.body[m.hdrSize..m.hdrSize + m.payloadSize];
    assert HeadersOf(su.lib, out) == HeadersOf(su.lib, m) && PayloadOf(out) == PayloadOf(m);
    assert EvalMeta(su.lib, su.o, out) == EvalMeta(su.lib, su.o, m);
  }

  lemma SelectedAgain(su: Setup, ms: seq<Message>, outs: seq<Message>)
    requires Observed(su, outs) == S.Survivors(RuleOf(su.o), Observed(su, ms))
    ensures Selected(su, outs) == outs
  {
    SurvivorsAgain(RuleOf(su.o), Observed(su, ms));
    SelectedObserved(su, outs);
    assert |Selected(su, outs)| == |Observed(su, Selected(su, outs))| == |outs|;
    SelectedFull(su, outs);
  }

  lemma ChosenMember(su: Setup, ms: seq<Message>, m: Message)
    requires m in Chosen(su, ms)
    ensures m in ms && PassesFilters(su, m)
  {
    assert m in Passing(su, ms);
    PickMember(Passer(su), ms, m);
  }

  /** Editing an edited backup with the same options keeps exactly the same
      messages and writes them unchanged. */
  lemma EditingAgainChangesNothing(su: Setup, ms: seq<Message>)
    requires !su.obfuscate && !su.o.renumber
    requires forall m :: m in Chosen(su, ms) ==> Ready(su, true, m)
    ensures var outs := Outs(su, Chosen(su, ms));
            Chosen(su, outs) == outs && Outs(su, outs) == outs
  {
    var chosen := Chosen(su, ms);
    var outs := Outs(su, chosen);
    forall i | 0 <= i < |outs|
      ensures PassesFilters(su, outs[i]) && ObsOf(su, outs[i]) == ObsOf(su, chosen[i]) && OutMessage(su, i, outs[i]) == outs[i]
    {
      assert chosen[i] in chosen;
      ChosenMember(su, ms, chosen[i]);
      WrittenLooksAlike(su, i, chosen[i]);
    }
    PickAll(Passer(su), outs);
    assert Observed(su, outs) == Observed(su, chosen);
    if su.o.PerSubject() {
      SelectedObserved(su, Passing(su, ms));
      SelectedAgain(su, Passing(su, ms), outs);
    }
  }

  /** The setup of an edit of the archive that an edit of `c` wrote, with the same
      options: only the meta file, which holds the reported state, is another. */
  function Again(su: Setup, c: Contents): Setup {
    su.(metaLast := ReportOf(su, c).state.lastSeq)
  }

  /** The meta file does not matter to what is kept and written. */
  lemma {:induction false} SameSelection(su: Setup, last: uint64, ms: seq<Message>)
    ensures Selected(su.(metaLast := last), ms) == Selected(su, ms)
  {
    hide S.Survives; hide ObsOf;
    if ms != [] {
      SameSelection(su, last, ms[1..]);
      SameObserved(su, last, ms[0], ms[1..]);
    }
  }

  lemma SameObserved(su: Setup, last: uint64, m: Message, ms: seq<Message>)
    ensures ObsOf(su.(metaLast := last), m) == ObsOf(su, m)
    ensures Observed(su.(metaLast := last), ms) == Observed(su, ms)
  {
  }

  lemma SameChoice(su: Setup, last: uint64, ms: seq<Message>)
    ensures var other := su.(metaLast := last); Chosen(other, ms) == Chosen(su, ms) && Outs(other, ms) == Outs(su, ms)
  {
    hide Selected;
    var other := su.(metaLast := last);
    forall m ensures PassesFilters(other, m) == PassesFilters(su, m) {
    }
    PickAlike(Passer(other), Passer(su), ms);
    SameSelection(su, last, Passing(su, ms));
    assert Outs(other, ms) == Outs(su, ms);
  }

  /** The written state declares the same again. */
  lemma SameState(su: Setup, c: Contents, msgs: nat, bytes: nat)
    requires !su.o.renumber
    ensures var st := ArchiveState(su, c.st, true, msgs, bytes);
            forall known, n, b :: ArchiveState(Again(su, c), st, known, n, b) == ArchiveState(su, c.st, known, n, b)
  {
    hide Chosen; hide Tally; hide LostTombstones; hide TotalSize; hide OutMessage; hide Passing;
  }

  /** Editing the archive an edit wrote, with the same options, writes the same
      contents and the same bytes. */
  lemma EditedAgainIsSame(su: Setup, c: Contents)
    requires !su.obfuscate && !su.o.renumber
    requires forall m :: m in Chosen(su, c.msgs) ==> Ready(su, true, m)
    ensures OutContents(Again(su, c), OutContents(su, c)) == OutContents(su, c)
    ensures OutputFile(Again(su, c), OutContents(su, c)) == OutputFile(su, c)
  {
    hide Chosen; hide ReportOf; hide TotalSize; hide OutMessage; hide ArchiveState; hide StateHead; hide Ready; hide Again;
    var su2, out := Again(su, c), OutContents(su, c);
    AgainIs(su, c);
    EditingAgainChangesNothing(su, c.msgs);
    SameChoice(su, su2.metaLast, out.msgs);
    SameState(su, c, |out.msgs|, TotalSize(su.storage, out.msgs));
    SameConsumers(su, su2, c.consumers);
  }

  lemma AgainIs(su: Setup, c: Contents)
    ensures Again(su, c) == su.(metaLast := Again(su, c).metaLast)
  {
  }

  lemma SameConsumers(su: Setup, su2: Setup, cs: seq<Consumer>)
    requires !su.obfuscate && !su.o.renumber && su2 == su.(metaLast := su2.metaLast)
    ensures OutConsumers(su, cs) == cs == OutConsumers(su2, cs)
  {
  }
}
