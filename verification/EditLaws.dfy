/** What an edit does, said of its options and of the bytes of the messages alone:
    which messages it keeps, what it counts, and what is left of a message in the
    output. */
module EditLaws {
  import opened Text
  import opened Archive
  import opened Filter
  import opened TokenHash
  import opened Obfuscate
  import opened EditSpec
  import opened Encoder
  import S = SubjectState

  /* ---------- What a filter can see ---------- */

  /** `h` are the headers in front of the body, none without a header block. */
  ghost predicate Sees(lib: Library, m: Message, h: Header) {
    if m.hdrSize == 0 then h == map[] else m.hdrSize <= |m.body| && lib.decodeHeaders(m.body[..m.hdrSize]) == Some(h)
  }

  /** `p` are the declared bytes behind the header block. */
  predicate Carries(m: Message, p: seq<byte>) {
    m.hdrSize + m.payloadSize <= |m.body| && p == m.body[m.hdrSize..m.hdrSize + m.payloadSize]
  }

  /* ---------- What the options ask for ---------- */

  predicate SequenceWanted(o: Options, m: Message) {
    (o.firstSeq.Some? ==> o.firstSeq.value <= m.seqno) && (o.lastSeq.Some? ==> m.seqno <= o.lastSeq.value)
  }

  predicate TimeWanted(o: Options, m: Message) {
    (o.after.Some? ==> o.after.value <= m.ts) && (o.before.Some? ==> m.ts < o.before.value)
  }

  /** No exclude pattern collides, and some subject pattern does if there are any. */
  predicate SubjectWanted(lib: Library, o: Options, subject: string) {
    && (forall i :: 0 <= i < |o.excludeSubjects| ==> !lib.collide(o.excludeSubjects[i], subject))
    && (o.subjects == [] || exists i :: 0 <= i < |o.subjects| && lib.collide(o.subjects[i], subject))
  }

  /** No name of `noHeader` has a value. If headers are asked for, one of the names of
      `headerPresent` has a value, or one of the pairs of `headerValues` is there. Names
      are compared whatever their case. */
  ghost predicate HeadersWanted(lib: Library, o: Options, h: Header) {
    && (forall i, k :: 0 <= i < |o.noHeader| && k in h && lib.equalFold(k, o.noHeader[i]) ==> h[k] == [])
    && ((o.headerPresent == [] && o.headerValues == []) ||
        (exists i, k :: 0 <= i < |o.headerPresent| && k in h && lib.equalFold(k, o.headerPresent[i]) && h[k] != []) ||
        (exists i, k :: 0 <= i < |o.headerValues| && k in h && lib.equalFold(k, o.headerValues[i].name) && o.headerValues[i].value in h[k]))
  }

  /** No exclude pattern matches, and some payload pattern does if there are any. */
  predicate PayloadWanted(o: Options, p: seq<byte>) {
    && (forall i :: 0 <= i < |o.excludePayloadMatch| ==> !o.excludePayloadMatch[i](p))
    && (o.payloadMatch == [] || exists i :: 0 <= i < |o.payloadMatch| && o.payloadMatch[i](p))
  }

  predicate MetaWanted(su: Setup, m: Message) {
    SequenceWanted(su.o, m) && TimeWanted(su.o, m) && SubjectWanted(su.lib, su.o, m.subject)
  }

  /** The headers are as asked for, where any are asked for or ruled out. */
  ghost predicate HeadersPass(su: Setup, m: Message) {
    (su.o.noHeader == [] && su.o.headerPresent == [] && su.o.headerValues == []) ||
    exists h :: Sees(su.lib, m, h) && HeadersWanted(su.lib, su.o, h)
  }

  ghost predicate PayloadPasses(su: Setup, m: Message) {
    (su.o.payloadMatch == [] && su.o.excludePayloadMatch == []) || exists p :: Carries(m, p) && PayloadWanted(su.o, p)
  }

  /** The stateless filters want the message. */
  ghost predicate Wanted(su: Setup, m: Message) {
    MetaWanted(su, m) && HeadersPass(su, m) && PayloadPasses(su, m)
  }

  /** The filter `kind` stands for is the first that does not want the message. One
      that looks at its contents also has to be able to read its headers. */
  ghost predicate Unwanted(su: Setup, m: Message, kind: DropKind) {
    match kind
    case DropSequence => !SequenceWanted(su.o, m)
    case DropTime => SequenceWanted(su.o, m) && !TimeWanted(su.o, m)
    case DropSubject => SequenceWanted(su.o, m) && TimeWanted(su.o, m) && !SubjectWanted(su.lib, su.o, m.subject)
    case DropHeader => MetaWanted(su, m) && exists h :: Sees(su.lib, m, h) && !HeadersWanted(su.lib, su.o, h)
    case DropPayload =>
      && MetaWanted(su, m) && HeadersPass(su, m)
      && (exists p :: Carries(m, p) && !PayloadWanted(su.o, p))
      && exists h :: Sees(su.lib, m, h)
    case _ => false
  }

  lemma MetaIs(su: Setup, m: Message)
    ensures EvalMeta(su.lib, su.o, m) ==
            if !SequenceWanted(su.o, m) then Some(DropSequence)
            else if !TimeWanted(su.o, m) then Some(DropTime)
            else if !SubjectWanted(su.lib, su.o, m.subject) then Some(DropSubject) else None
  {
  }

  lemma SeesIs(lib: Library, m: Message)
    ensures forall h :: Sees(lib, m, h) <==> HeadersOf(lib, m) == Some(h)
    ensures HeadersOf(lib, m).None? ==> m.hdrSize > 0
  {
  }

  lemma CarriesIs(m: Message)
    ensures forall p :: Carries(m, p) <==> PayloadOf(m) == Some(p)
  {
  }

  lemma HeadersAre(lib: Library, o: Options, h: Header)
    ensures EvalHeaders(lib, o, h) == if HeadersWanted(lib, o, h) then None else Some(DropHeader)
    ensures !o.HasHeaderFilters() ==> HeadersWanted(lib, o, h)
  {
    if i :| 0 <= i < |o.noHeader| && HasHeader(lib, h, o.noHeader[i]) {
      var k :| k in h && lib.equalFold(k, o.noHeader[i]) && h[k] != [];
      assert !HeadersWanted(lib, o, h);
    }
    if i :| 0 <= i < |o.headerPresent| && HasHeader(lib, h, o.headerPresent[i]) {
      var k :| k in h && lib.equalFold(k, o.headerPresent[i]) && h[k] != [];
    }
    if i :| 0 <= i < |o.headerValues| && HasHeaderValue(lib, h, o.headerValues[i].name, o.headerValues[i].value) {
      var k :| k in h && lib.equalFold(k, o.headerValues[i].name) && o.headerValues[i].value in h[k];
    }
  }

  lemma PayloadIs(o: Options, p: seq<byte>)
    ensures EvalPayload(o, p) == if PayloadWanted(o, p) then None else Some(DropPayload)
    ensures !o.HasPayloadFilters() ==> PayloadWanted(o, p)
  {
  }

  /** The filters pass exactly the messages the options ask for, and blame exactly the
      first filter that does not want one. */
  lemma FiltersExactly(su: Setup, m: Message)
    ensures PassesFilters(su, m) <==> Wanted(su, m)
    ensures forall kind :: Judge(su, m) == Reject(kind) <==> Unwanted(su, m, kind)
  {
    hide EvalMeta; hide EvalHeaders; hide EvalPayload; hide Sees; hide Carries; hide HeadersOf; hide PayloadOf;
    hide SequenceWanted; hide TimeWanted; hide SubjectWanted; hide HeadersWanted; hide PayloadWanted;
    MetaIs(su, m);
    SeesIs(su.lib, m);
    CarriesIs(m);
    if HeadersOf(su.lib, m).Some? {
      HeadersAre(su.lib, su.o, HeadersOf(su.lib, m).value);
    }
    if PayloadOf(m).Some? {
      PayloadIs(su.o, PayloadOf(m).value);
    }
  }

  /* ---------- Tombstones ---------- */

  predicate Says(h: Header, key: string, val: string) {
    key in h && |h[key]| > 0 && h[key][0] == val
  }

  predicate Silent(h: Header, key: string) {
    key in h && |h[key]| > 0 ==> h[key][0] == ""
  }

  /** The headers of a KV delete or purge, or of a limit marker. */
  predicate MarksTombstone(h: Header) {
    || Says(h, "KV-Operation", "DEL") || Says(h, "KV-Operation", "PURGE")
    || (Silent(h, "KV-Operation") &&
        (Says(h, "Nats-Marker-Reason", "MaxAge") || Says(h, "Nats-Marker-Reason", "Purge") || Says(h, "Nats-Marker-Reason", "Remove")))
  }

  ghost predicate Marks(su: Setup, m: Message) {
    exists h :: Sees(su.lib, m, h) && MarksTombstone(h)
  }

  lemma TombstoneExactly(su: Setup, m: Message)
    ensures Tombstone(su, m) <==> Marks(su, m)
    ensures LostTombstone(su, m) <==> Marks(su, m) && (Unwanted(su, m, DropHeader) || Unwanted(su, m, DropPayload))
  {
    hide Judge; hide Unwanted; hide HeadersOf; hide Sees;
    SeesIs(su.lib, m);
    FiltersExactly(su, m);
    NoMarks(su.lib, m);
    if HeadersOf(su.lib, m).Some? {
      MarkIs(HeadersOf(su.lib, m).value);
    }
  }

  lemma MarkIs(h: Header)
    ensures IsTombstone(h) <==> MarksTombstone(h)
  {
  }

  lemma NoMarks(lib: Library, m: Message)
    ensures m.hdrSize == 0 ==> HeadersOf(lib, m) == Some(map[]) && !MarksTombstone(map[])
  {
  }

  /* ---------- Which messages are kept ---------- */

  /** The messages of subject `k` from `lo` on that the filters want. */
  ghost function Later(su: Setup, ms: seq<Message>, lo: nat, k: string): set<nat> {
    set j | lo <= j < |ms| && Wanted(su, ms[j]) && ms[j].subject == k
  }

  /** An edit keeps message i: the filters want it, and under a per-subject rule fewer
      than n wanted messages of its subject follow, or for KVCompact none at all and it
      is no tombstone. */
  ghost predicate Keeps(su: Setup, ms: seq<Message>, i: nat)
    requires i < |ms|
  {
    && Wanted(su, ms[i])
    && var later := Later(su, ms, i + 1, ms[i].subject);
       if su.o.kvCompact then later == {} && !Marks(su, ms[i])
       else su.o.lastPerSubject > 0 ==> |later| < su.o.lastPerSubject
  }

  /** The positions kept from `lo` on. */
  ghost function Where(su: Setup, ms: seq<Message>, lo: nat): (at: seq<nat>)
    requires lo <= |ms|
    ensures forall k :: 0 <= k < |at| ==> lo <= at[k] < |ms|
    decreases |ms| - lo
  {
    if lo == |ms| then [] else (if Keeps(su, ms, lo) then [lo] else []) + Where(su, ms, lo + 1)
  }

  lemma {:induction false} WhereIs(su: Setup, ms: seq<Message>, lo: nat)
    requires lo <= |ms|
    ensures forall i: nat :: i in Where(su, ms, lo) <==> lo <= i < |ms| && Keeps(su, ms, i)
    ensures forall k, l :: 0 <= k < l < |Where(su, ms, lo)| ==> Where(su, ms, lo)[k] < Where(su, ms, lo)[l]
    decreases |ms| - lo
  {
    hide Keeps;
    if lo < |ms| {
      WhereIs(su, ms, lo + 1);
    }
  }

  function At(ms: seq<Message>, at: seq<nat>): (r: seq<Message>)
    requires forall k :: 0 <= k < |at| ==> at[k] < |ms|
    ensures |r| == |at| && forall k :: 0 <= k < |r| ==> r[k] == ms[at[k]]
  {
    seq(|at|, k requires 0 <= k < |at| => ms[at[k]])
  }

  lemma PassingNext(su: Setup, ms: seq<Message>, lo: nat)
    requires lo < |ms|
    ensures Passing(su, ms[lo..]) == (if Wanted(su, ms[lo]) then [ms[lo]] else []) + Passing(su, ms[lo + 1..])
  {
    hide Wanted; hide PassesFilters;
    FiltersExactly(su, ms[lo]);
    PickCons(Passer(su), ms[lo], ms[lo + 1..]);
    assert ms[lo..] == [ms[lo]] + ms[lo + 1..];
  }

  lemma LaterNext(su: Setup, ms: seq<Message>, lo: nat, k: string)
    requires lo < |ms|
    ensures var rest := Later(su, ms, lo + 1, k);
            && lo !in rest
            && Later(su, ms, lo, k) == if Wanted(su, ms[lo]) && ms[lo].subject == k then rest + {lo} else rest
  {
    hide Wanted;
  }

  /** The rule's count of later messages is the number of later messages wanted. */
  lemma {:induction false} LaterCount(su: Setup, ms: seq<Message>, lo: nat, k: string)
    requires lo <= |ms|
    ensures |S.OfSubject(Observed(su, Passing(su, ms[lo..])), k)| == |Later(su, ms, lo, k)|
    decreases |ms| - lo
  {
    hide Wanted; hide Passing; hide Later; hide ObsOf;
    if lo == |ms| {
      NoneLater(su, ms, lo, k);
    } else {
      LaterCount(su, ms, lo + 1, k);
      PassingNext(su, ms, lo);
      LaterNext(su, ms, lo, k);
      if Wanted(su, ms[lo]) {
        ObservedCons(su, ms[lo], Passing(su, ms[lo + 1..]), k);
      } else {
        assert [] + Passing(su, ms[lo + 1..]) == Passing(su, ms[lo + 1..]);
      }
    }
  }

  lemma NoneLater(su: Setup, ms: seq<Message>, lo: nat, k: string)
    requires lo == |ms|
    ensures Passing(su, ms[lo..]) == [] && Later(su, ms, lo, k) == {} && S.OfSubject(Observed(su, []), k) == []
  {
  }

  lemma ObservedCons(su: Setup, m: Message, ms: seq<Message>, k: string)
    ensures Observed(su, [m] + ms) == [ObsOf(su, m)] + Observed(su, ms)
    ensures S.OfSubject(Observed(su, [m] + ms), k) ==
            (if m.subject == k then [ObsOf(su, m)] else []) + S.OfSubject(Observed(su, ms), k)
  {
    hide S.OfSubject; hide Tombstone; hide SizeOf;
    assert Observed(su, [m] + ms) == [ObsOf(su, m)] + Observed(su, ms);
    S.OfSubjectCons(ObsOf(su, m), Observed(su, ms), k);
  }

  /** The first of some passing messages survives the rule exactly when it is kept. */
  lemma SurvivesExactly(su: Setup, ms: seq<Message>, lo: nat)
    requires lo < |ms| && Wanted(su, ms[lo]) && su.o.PerSubject()
    ensures S.Survives(RuleOf(su.o), ObsOf(su, ms[lo]), Observed(su, Passing(su, ms[lo + 1..]))) <==> Keeps(su, ms, lo)
  {
    hide Wanted; hide Passing; hide Later; hide Tombstone; hide Marks; hide S.OfSubject; hide SizeOf;
    LaterCount(su, ms, lo + 1, ms[lo].subject);
    TombstoneExactly(su, ms[lo]);
  }

  lemma SelectedCons(su: Setup, m: Message, ms: seq<Message>)
    ensures Selected(su, [m] + ms) ==
            (if S.Survives(RuleOf(su.o), ObsOf(su, m), Observed(su, ms)) then [m] else []) + Selected(su, ms)
  {
    hide S.Survives; hide ObsOf;
    assert ([m] + ms)[1..] == ms;
  }

  /** An edit keeps exactly the messages at the positions kept. */
  lemma {:induction false} ChosenFrom(su: Setup, ms: seq<Message>, lo: nat)
    requires lo <= |ms|
    ensures Chosen(su, ms[lo..]) == At(ms, Where(su, ms, lo))
    decreases |ms| - lo
  {
    hide Wanted; hide Keeps; hide Passing; hide Selected; hide S.Survives; hide ObsOf; hide Where; hide At; hide Observed;
    if lo == |ms| {
      NothingChosen(su, ms);
    } else {
      ChosenFrom(su, ms, lo + 1);
      PassingNext(su, ms, lo);
      KeptIsWanted(su, ms, lo);
      var rest := Passing(su, ms[lo + 1..]);
      AtNext(su, ms, lo);
      if !Wanted(su, ms[lo]) {
        assert [] + rest == rest;
      } else if su.o.PerSubject() {
        SurvivesExactly(su, ms, lo);
        SelectedCons(su, ms[lo], rest);
      }
    }
  }

  lemma KeptIsWanted(su: Setup, ms: seq<Message>, i: nat)
    requires i < |ms|
    ensures Keeps(su, ms, i) ==> Wanted(su, ms[i])
    ensures Wanted(su, ms[i]) && !su.o.PerSubject() ==> Keeps(su, ms, i)
  {
    hide Wanted;
  }

  lemma NothingChosen(su: Setup, ms: seq<Message>)
    ensures Passing(su, []) == [] && Selected(su, []) == [] && ms[|ms|..] == [] && At(ms, Where(su, ms, |ms|)) == []
  {
  }

  lemma AtNext(su: Setup, ms: seq<Message>, lo: nat)
    requires lo < |ms|
    ensures At(ms, Where(su, ms, lo)) == (if Keeps(su, ms, lo) then [ms[lo]] else []) + At(ms, Where(su, ms, lo + 1))
  {
    hide Keeps;
  }

  lemma ChosenExactly(su: Setup, ms: seq<Message>)
    ensures Chosen(su, ms) == At(ms, Where(su, ms, 0))
  {
    hide Chosen; hide Where;
    ChosenFrom(su, ms, 0);
    assert ms[0..] == ms;
  }

  /* ---------- What is written ---------- */

  /** `out` is the i-th message written, for `m`. Without obfuscation it is `m` with the
      declared bytes of its body. With it the subject and headers are hidden, and behind
      the header block stands padding of the same size, or on a counter stream the
      payload itself. */
  ghost predicate WrittenAs(su: Setup, i: nat, m: Message, out: Message) {
    && out.ts == m.ts && out.seqno == (if su.o.renumber then i + 1 else m.seqno)
    && out.payloadSize == m.payloadSize && |out.body| == out.hdrSize + out.payloadSize
    && if su.obfuscate then HidesMessage(su, m, out)
       else out.subject == m.subject && out.hdrSize == m.hdrSize && out.body <= m.body
  }

  ghost predicate HidesMessage(su: Setup, m: Message, out: Message)
    requires |out.body| == out.hdrSize + out.payloadSize
  {
    && HiddenSubject(su.hash, false, m.subject, out.subject)
    && HidesHeaders(su, m, out.body[..out.hdrSize])
    && if su.counter then Carries(m, out.body[out.hdrSize..]) else forall j :: out.hdrSize <= j < |out.body| ==> out.body[j] == '0' as int
  }

  /** The header block holds the hidden headers of the message, and is empty if there
      are none. */
  ghost predicate HidesHeaders(su: Setup, m: Message, block: seq<byte>) {
    exists h, g :: Sees(su.lib, m, h) && HiddenHeaders(su.hash, su.kinds, h, g) && block == (if g == map[] then [] else su.render(g))
  }

  /** A consumer is written as it is, or with its name and identifying fields hidden. */
  ghost predicate ConsumerWrittenAs(su: Setup, c: Consumer, out: Consumer) {
    if su.obfuscate then
      && HiddenToken(su.hash, c.name, out.name) && out.ts == c.ts
      && exists f :: HiddenFields(su.hash, su.fields(c.data), f) && out.data == su.withFields(c.data, f)
    else out == c
  }

  lemma BlockHides(su: Setup, m: Message)
    requires Shaped(su.hash) && HeadersOf(su.lib, m).Some?
    ensures HidesHeaders(su, m, ObfBlock(su, m))
  {
    hide HeadersOf; hide ObfHeader; hide HiddenHeaders; hide Shaped; hide Sees;
    var h := HeadersOf(su.lib, m).value;
    SeesIs(su.lib, m);
    HeadersHidden(su.hash, su.kinds, h);
    assert ObfBlock(su, m) == (if ObfHeader(su.hash, su.kinds, h) == map[] then [] else su.render(ObfHeader(su.hash, su.kinds, h)));
  }

  lemma PayloadHides(su: Setup, m: Message)
    requires su.counter ==> PayloadOf(m).Some?
    ensures |ObfPayload(su, m)| == m.payloadSize
    ensures if su.counter then Carries(m, ObfPayload(su, m)) else forall j :: 0 <= j < m.payloadSize ==> ObfPayload(su, m)[j] == '0' as int
  {
  }

  /** What comes out for a message that can be read. */
  lemma OutIsWritten(su: Setup, i: nat, m: Message)
    requires Ready(su, true, m) && (su.o.renumber ==> i + 1 < TWO64) && (su.obfuscate ==> Shaped(su.hash))
    ensures WrittenAs(su, i, m, OutMessage(su, i, m))
  {
    hide HeadersOf; hide PayloadOf; hide ObfBlock; hide ObfPayload; hide HidesHeaders; hide HiddenSubject; hide ObfSubject; hide Shaped; hide Carries;
    if su.obfuscate {
      var out, block, pay := OutMessage(su, i, m), ObfBlock(su, m), ObfPayload(su, m);
      SubjectHidden(su.hash, false, m.subject);
      BlockHides(su, m);
      PayloadHides(su, m);
      assert out.body[..|block|] == block && out.body[|block|..] == pay;
      assert forall j :: |block| <= j < |out.body| ==> out.body[j] == pay[j - |block|];
    }
  }

  lemma OutConsumerIsWritten(su: Setup, c: Consumer)
    requires su.obfuscate ==> Shaped(su.hash)
    ensures ConsumerWrittenAs(su, c, OutConsumer(su, c))
  {
    hide HiddenFields; hide ObfFields; hide Shaped;
    if su.obfuscate {
      FieldsHidden(su.hash, su.fields(c.data));
    }
  }

  /* ---------- An edit as a whole ---------- */

  /** `outs` is what an edit makes of `ms`: the kept positions are `at`, in order, and
      each message there is written in its place. */
  ghost predicate EditOf(su: Setup, ms: seq<Message>, at: seq<nat>, outs: seq<Message>) {
    && |at| == |outs|
    && (forall i: nat :: i in at <==> i < |ms| && Keeps(su, ms, i))
    && (forall k, l :: 0 <= k < l < |at| ==> at[k] < at[l])
    && (forall k :: 0 <= k < |at| ==> at[k] < |ms| && WrittenAs(su, k, ms[at[k]], outs[k]))
  }

  lemma EditExactly(su: Setup, lo: int, ms: seq<Message>) returns (at: seq<nat>)
    requires Ascending(lo, ms) && (su.obfuscate ==> Shaped(su.hash))
    requires forall m :: m in Chosen(su, ms) ==> Ready(su, true, m)
    ensures EditOf(su, ms, at, Outs(su, Chosen(su, ms)))
  {
    hide Keeps; hide WrittenAs; hide Chosen; hide Ready; hide OutMessage; hide Shaped; hide Where; hide Ascending;
    at := Where(su, ms, 0);
    WhereIs(su, ms, 0);
    ChosenExactly(su, ms);
    var chosen := Chosen(su, ms);
    ChosenAscending(su, lo, ms);
    AscendingCount(lo, chosen);
    forall k | 0 <= k < |at| ensures WrittenAs(su, k, ms[at[k]], Outs(su, chosen)[k]) {
      assert chosen[k] in chosen;
      OutIsWritten(su, k, chosen[k]);
    }
  }

  /** Same subject, time, sequence, headers and payload size. */
  predicate AlikeButPayload(a: Message, b: Message) {
    && a.(body := []) == b.(body := [])
    && a.hdrSize <= |a.body| && b.hdrSize <= |b.body| && a.body[..a.hdrSize] == b.body[..b.hdrSize]
  }

  /** Where padding is written, the payloads of the kept messages do not show in any
      byte of the output. */
  lemma PayloadsDoNotShow(su: Setup, c: Contents, d: Contents)
    requires su.obfuscate && !su.counter && c.ts == d.ts && c.st == d.st && c.consumers == d.consumers
    requires |Chosen(su, c.msgs)| == |Chosen(su, d.msgs)|
    requires forall i :: 0 <= i < |Chosen(su, c.msgs)| ==> AlikeButPayload(Chosen(su, c.msgs)[i], Chosen(su, d.msgs)[i])
    ensures OutContents(su, c) == OutContents(su, d) && OutputFile(su, c) == OutputFile(su, d)
  {
    hide Chosen; hide OutMessage; hide AlikeButPayload; hide TotalSize; hide ArchiveState; hide StateHead;
    var ms, ns := Chosen(su, c.msgs), Chosen(su, d.msgs);
    forall i | 0 <= i < |ms| ensures OutMessage(su, i, ms[i]) == OutMessage(su, i, ns[i]) {
      WrittenAlike(su, i, ms[i], ns[i]);
    }
    assert Outs(su, ms) == Outs(su, ns);
  }

  lemma WrittenAlike(su: Setup, i: nat, a: Message, b: Message)
    requires su.obfuscate && !su.counter && AlikeButPayload(a, b)
    ensures OutMessage(su, i, a) == OutMessage(su, i, b)
  {
    assert HeadersOf(su.lib, a) == HeadersOf(su.lib, b);
  }

  /* ---------- What the head and the report say ---------- */

  /** The state at the head of the output: under Renumber it numbers 1 to the count and
      has no consumers; else sequences and consumers are those of the source, with the
      larger of the last sequences its archive and its meta file know. */
  predicate HeadSays(su: Setup, src: StreamState, outs: seq<Message>, st: StreamState) {
    && st.msgs == |outs| && st.bytes == TotalSize(su.storage, outs)
    && (su.o.renumber ==> st.firstSeq == 1 && st.lastSeq == |outs| && st.consumers == 0)
    && (!su.o.renumber ==>
          && st.firstSeq == src.firstSeq && st.consumers == src.consumers
          && st.lastSeq >= src.lastSeq && st.lastSeq >= su.metaLast && st.lastSeq in {src.lastSeq, su.metaLast})
  }

  /** The range the report gives: under Renumber 1 to the count; else from the first
      message written to that larger last sequence, empty behind it if none of the
      source's messages was kept, and the source's own where it had none. */
  predicate RangeSays(su: Setup, c: Contents, outs: seq<Message>, first: uint64, last: uint64) {
    && (su.o.renumber ==> first == 1 && last == |outs|)
    && (!su.o.renumber && c.msgs == [] ==> first == c.st.firstSeq && last == c.st.lastSeq)
    && (!su.o.renumber && c.msgs != [] ==>
          && last >= c.st.lastSeq && last >= su.metaLast && last in {c.st.lastSeq, su.metaLast}
          && if outs == [] then first == (if last + 1 == TWO64 then 0 else last + 1) else first == outs[0].seqno)
  }

  lemma HeadAndRange(su: Setup, c: Contents)
    requires Ascending(Below(c.st.firstSeq), c.msgs)
    ensures var out, r := OutContents(su, c), ReportOf(su, c).state;
            && HeadSays(su, c.st, out.msgs, out.st)
            && RangeSays(su, c, out.msgs, r.firstSeq, r.lastSeq)
            && r.msgs == |out.msgs| && r.bytes == TotalSize(su.storage, out.msgs) && r.consumers == |out.consumers|
  {
    hide Chosen; hide OutMessage; hide TotalSize; hide Tally; hide LostTombstones; hide Passing;
    var lo := Below(c.st.firstSeq);
    ChosenAscending(su, lo, c.msgs);
    AscendingCount(lo, Chosen(su, c.msgs));
    NoneChosen(su);
  }

  lemma NoneChosen(su: Setup)
    ensures Chosen(su, []) == []
  {
  }

  /* ---------- What is counted ---------- */

  ghost function AllUnwanted(su: Setup, ms: seq<Message>, kind: DropKind): set<nat> {
    set i | 0 <= i < |ms| && Unwanted(su, ms[i], kind)
  }

  ghost function AllWanted(su: Setup, ms: seq<Message>): set<nat> {
    set i | 0 <= i < |ms| && Wanted(su, ms[i])
  }

  ghost function AllKept(su: Setup, ms: seq<Message>): set<nat> {
    KeptFrom(su, ms, 0)
  }

  ghost function KeptFrom(su: Setup, ms: seq<Message>, lo: nat): set<nat> {
    set i: nat | lo <= i < |ms| && Keeps(su, ms, i)
  }

  /** Markers that a content filter drops. */
  ghost function AllLost(su: Setup, ms: seq<Message>): set<nat> {
    set i | 0 <= i < |ms| && Marks(su, ms[i]) && (Unwanted(su, ms[i], DropHeader) || Unwanted(su, ms[i], DropPayload))
  }

  lemma UnwantedNext(su: Setup, ms: seq<Message>, m: Message, kind: DropKind)
    ensures |AllUnwanted(su, ms + [m], kind)| == |AllUnwanted(su, ms, kind)| + if Unwanted(su, m, kind) then 1 else 0
  {
    hide Unwanted;
    var all := ms + [m];
    var before, after := AllUnwanted(su, ms, kind), AllUnwanted(su, all, kind);
    assert all[|ms|] == m && forall i :: 0 <= i < |ms| ==> all[i] == ms[i];
    assert forall i: nat :: i in after <==> i in before || (i == |ms| && Unwanted(su, m, kind));
    assert after == before + if Unwanted(su, m, kind) then {|ms|} else {};
  }

  lemma TallyNext(su: Setup, ms: seq<Message>, m: Message, kind: DropKind)
    ensures Tally(su, ms + [m]).Of(kind) == Tally(su, ms).Of(kind) + if Judge(su, m) == Reject(kind) then 1 else 0
  {
    hide Judge;
    assert (ms + [m])[..|ms|] == ms;
  }

  lemma {:induction false} DropsCounted(su: Setup, ms: seq<Message>, kind: DropKind)
    ensures Tally(su, ms).Of(kind) == |AllUnwanted(su, ms, kind)|
    decreases |ms|
  {
    hide Unwanted; hide Judge; hide DropCounts.Of; hide Tally; hide AllUnwanted;
    if ms == [] {
      NothingDropped(su, kind);
    } else {
      var init, m := ms[..|ms| - 1], ms[|ms| - 1];
      DropsCounted(su, init, kind);
      FiltersExactly(su, m);
      assert ms == init + [m];
      TallyNext(su, init, m, kind);
      UnwantedNext(su, init, m, kind);
    }
  }

  lemma NothingDropped(su: Setup, kind: DropKind)
    ensures Tally(su, []).Of(kind) == 0 && AllUnwanted(su, [], kind) == {}
  {
  }

  lemma WantedNext(su: Setup, ms: seq<Message>, m: Message)
    ensures |AllWanted(su, ms + [m])| == |AllWanted(su, ms)| + if Wanted(su, m) then 1 else 0
  {
    hide Wanted;
    var all := ms + [m];
    var before, after := AllWanted(su, ms), AllWanted(su, all);
    assert all[|ms|] == m && forall i :: 0 <= i < |ms| ==> all[i] == ms[i];
    assert forall i: nat :: i in after <==> i in before || (i == |ms| && Wanted(su, m));
    assert after == before + if Wanted(su, m) then {|ms|} else {};
  }

  lemma {:induction false} PassingCounted(su: Setup, ms: seq<Message>)
    ensures |Passing(su, ms)| == |AllWanted(su, ms)|
    decreases |ms|
  {
    hide Wanted; hide PassesFilters; hide AllWanted;
    if ms == [] {
      NoneWanted(su);
    } else {
      var init, m := ms[..|ms| - 1], ms[|ms| - 1];
      PassingCounted(su, init);
      FiltersExactly(su, m);
      assert ms == init + [m];
      PickSnoc(Passer(su), init, m);
      WantedNext(su, init, m);
    }
  }

  lemma NoneWanted(su: Setup)
    ensures AllWanted(su, []) == {} && AllLost(su, []) == {}
  {
  }

  lemma LostNext(su: Setup, ms: seq<Message>, m: Message)
    ensures |AllLost(su, ms + [m])| == |AllLost(su, ms)| + if LostTombstone(su, m) then 1 else 0
  {
    hide Marks; hide Unwanted; hide LostTombstone;
    TombstoneExactly(su, m);
    var all := ms + [m];
    var before, after := AllLost(su, ms), AllLost(su, all);
    assert all[|ms|] == m && forall i :: 0 <= i < |ms| ==> all[i] == ms[i];
    assert forall i: nat :: i in after <==> i in before || (i == |ms| && LostTombstone(su, m));
    assert after == before + if LostTombstone(su, m) then {|ms|} else {};
  }

  lemma {:induction false} LostCounted(su: Setup, ms: seq<Message>)
    ensures LostTombstones(su, ms) == |AllLost(su, ms)|
    decreases |ms|
  {
    hide LostTombstone; hide AllLost;
    if ms == [] {
      NoneWanted(su);
    } else {
      var init, m := ms[..|ms| - 1], ms[|ms| - 1];
      LostCounted(su, init);
      assert ms == init + [m];
      LostNext(su, init, m);
    }
  }

  lemma {:induction false} KeptCounted(su: Setup, ms: seq<Message>, lo: nat)
    requires lo <= |ms|
    ensures |Where(su, ms, lo)| == |KeptFrom(su, ms, lo)|
    decreases |ms| - lo
  {
    hide Keeps;
    if lo == |ms| {
      NoneKept(su, ms);
    } else {
      KeptCounted(su, ms, lo + 1);
      var rest := KeptFrom(su, ms, lo + 1);
      assert lo !in rest && KeptFrom(su, ms, lo) == rest + if Keeps(su, ms, lo) then {lo} else {};
    }
  }

  lemma NoneKept(su: Setup, ms: seq<Message>)
    ensures KeptFrom(su, ms, |ms|) == {}
  {
  }

  /** The report of an edit: each counter is the number of source messages it stands
      for. */
  lemma ReportExactly(su: Setup, c: Contents)
    ensures var r := ReportOf(su, c);
            && r.sourceMessages == |c.msgs| && r.kept == |AllKept(su, c.msgs)|
            && (forall kind :: kind != DropLastPerSubject && kind != DropKVCompact ==> r.dropped.Of(kind) == |AllUnwanted(su, c.msgs, kind)|)
            && r.dropped.kvCompact == (if su.o.kvCompact then |AllWanted(su, c.msgs)| - |AllKept(su, c.msgs)| else 0)
            && r.dropped.lastPerSubject == (if !su.o.kvCompact && su.o.lastPerSubject > 0 then |AllWanted(su, c.msgs)| - |AllKept(su, c.msgs)| else 0)
            && r.tombstones == |AllLost(su, c.msgs)|
            && r.consumersKept == (if su.o.renumber then 0 else |c.consumers|) && r.consumersDropped == |c.consumers| - r.consumersKept
  {
    hide Chosen; hide Tally; hide LostTombstones; hide Passing; hide TotalSize; hide OutMessage; hide Unwanted; hide Wanted; hide Keeps; hide AllLost; hide AllUnwanted; hide AllWanted; hide KeptFrom; hide Where;
    var ms := c.msgs;
    ChosenExactly(su, ms);
    KeptCounted(su, ms, 0);
    PassingCounted(su, ms);
    LostCounted(su, ms);
    TallyKind(su, ms, DropLastPerSubject);
    TallyKind(su, ms, DropKVCompact);
    forall kind ensures Tally(su, ms).Of(kind) == |AllUnwanted(su, ms, kind)| {
      DropsCounted(su, ms, kind);
    }
  }

  /* ---------- All of it ---------- */

  /** `out` with the report `r` is what an edit makes of a source holding `c`. */
  ghost predicate Edited(su: Setup, c: Contents, out: Contents, r: Report) {
    && out.ts == c.ts
    && (exists at :: EditOf(su, c.msgs, at, out.msgs))
    && |out.consumers| == (if su.o.renumber then 0 else |c.consumers|)
    && (forall i :: 0 <= i < |out.consumers| ==> ConsumerWrittenAs(su, c.consumers[i], out.consumers[i]))
    && HeadSays(su, c.st, out.msgs, out.st)
    && RangeSays(su, c, out.msgs, r.state.firstSeq, r.state.lastSeq)
  }

  lemma OutIsEdited(su: Setup, c: Contents)
    requires Ascending(Below(c.st.firstSeq), c.msgs) && (su.obfuscate ==> Shaped(su.hash))
    requires forall m :: m in Chosen(su, c.msgs) ==> Ready(su, true, m)
    ensures Edited(su, c, OutContents(su, c), ReportOf(su, c))
  {
    hide Chosen; hide Ready; hide Shaped; hide EditOf; hide HeadSays; hide RangeSays; hide ReportOf; hide ArchiveState; hide TotalSize; hide Ascending;
    hide ConsumerWrittenAs; hide OutConsumer;
    var at := EditExactly(su, Below(c.st.firstSeq), c.msgs);
    HeadAndRange(su, c);
    forall i | 0 <= i < |OutConsumers(su, c.consumers)| ensures ConsumerWrittenAs(su, c.consumers[i], OutConsumers(su, c.consumers)[i]) {
      OutConsumerIsWritten(su, c.consumers[i]);
    }
  }
}
