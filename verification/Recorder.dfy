/** Capturing a subscription into a backup (backup/recorder.go). */
module Recorder {
  import opened Text
  import opened Archive
  import opened E = Encoder
  import opened Filter
  import D = Decoder
  import V = Verify

  /* ---------- Direct get envelopes ---------- */

  /** The server appends one value of each envelope header to a stored message. */
  function Append(h: Header, env: map<string, string>): Header {
    map k | k in h.Keys + env.Keys :: (if k in h then h[k] else []) + (if k in env then [env[k]] else [])
  }

  /** Takes the last value of each of `keys` off again. */
  function Strip(h: Header, keys: set<string>): Header {
    map k | k in h && !(k in keys && |h[k]| <= 1) :: if k in keys then h[k][..|h[k]| - 1] else h[k]
  }

  function Envelope(h: Header, keys: set<string>): map<string, string>
    requires forall k :: k in keys ==> Present(h, k)
  {
    map k | k in keys :: assert Present(h, k); h[k][|h[k]| - 1]
  }

  function KeySet(keys: seq<string>): set<string> {
    set k | k in keys
  }

  predicate Present(h: Header, k: string) {
    k in h && h[k] != []
  }

  lemma StripStep(h: Header, got: set<string>, k: string)
    requires k !in got && Present(h, k)
    ensures k in Strip(h, got) && Strip(h, got)[k] == h[k]
    ensures Strip(h, got + {k}) == if |h[k]| == 1 then Strip(h, got) - {k} else Strip(h, got)[k := h[k][..|h[k]| - 1]]
  {
  }

  lemma EnvelopeStep(h: Header, got: set<string>, k: string)
    requires k !in got && Present(h, k) && forall x :: x in got ==> Present(h, x)
    ensures Envelope(h, got + {k}) == Envelope(h, got)[k := h[k][|h[k]| - 1]]
  {
  }

  /** WriteDirect's loop over the envelope headers: the stored headers and the
      envelope, or None when a header is missing. */
  method StripEnvelope(header: Header, keys: seq<string>) returns (r: Option<(Header, map<string, string>)>)
    requires forall i, j :: 0 <= i < j < |keys| ==> keys[i] != keys[j]
    ensures r.None? <==> exists k :: k in keys && !Present(header, k)
    ensures r.Some? ==> (forall k :: k in KeySet(keys) ==> Present(header, k)) &&
                        r.value == (Strip(header, KeySet(keys)), Envelope(header, KeySet(keys)))
  {
    hide Strip; hide Envelope;
    var h := header;
    var env: map<string, string> := map[];
    ghost var got: set<string> := {};
    StripNone(header);
    for i := 0 to |keys|
      invariant forall k :: k in got <==> exists j :: 0 <= j < i && keys[j] == k
      invariant forall k :: k in got ==> Present(header, k)
      invariant h == Strip(header, got) && env == Envelope(header, got)
    {
      var k := keys[i];
      StripAbsent(header, got, k);
      if !Present(h, k) {
        return None;
      }
      StripStep(header, got, k);
      EnvelopeStep(header, got, k);
      var vals := h[k];
      env := env[k := vals[|vals| - 1]];
      if |vals| == 1 {
        h := h - {k};
      } else {
        h := h[k := vals[..|vals| - 1]];
      }
      got := got + {k};
    }
    assert got == KeySet(keys);
    return Some((h, env));
  }

  lemma StripNone(h: Header)
    ensures Strip(h, {}) == h && Envelope(h, {}) == map[]
  {
  }

  /** A header is there when its turn comes exactly when it was there at the start. */
  lemma StripAbsent(h: Header, got: set<string>, k: string)
    requires k !in got
    ensures Present(Strip(h, got), k) <==> Present(h, k)
  {
  }

  /** Stripping gives back the stored headers and the envelope, whatever names the
      stored headers use, exactly when no stored envelope name has an empty list of
      values. */
  lemma StripUndoesAppend(h: Header, env: map<string, string>)
    ensures forall k :: k in env ==> k in Append(h, env) && Append(h, env)[k] != []
    ensures Envelope(Append(h, env), env.Keys) == env
    ensures Strip(Append(h, env), env.Keys) == h <==> forall k :: k in env && k in h ==> h[k] != []
  {
    var a := Append(h, env);
    var s := Strip(a, env.Keys);
    if forall k :: k in env && k in h ==> h[k] != [] {
      forall k ensures k in s <==> k in h {
      }
      forall k | k in h ensures s[k] == h[k] {
        if k in env {
          assert a[k] == h[k] + [env[k]];
        } else {
          assert a[k] == h[k] + [];
        }
      }
    } else {
      var k :| k in env && k in h && h[k] == [];
      assert a[k] == [env[k]] && k !in s;
    }
  }

  /* ---------- What a capture holds ---------- */

  /** One message handed to the recorder; `seqno` is 0 when it carries none. */
  datatype Delivery = Delivery(subject: string, seqno: uint64, ts: int, hdr: seq<byte>, data: seq<byte>)

  function MessageFor(d: Delivery, seqno: uint64): Message {
    Message(d.subject, seqno, d.ts, |d.hdr|, |d.data|, d.hdr + d.data)
  }

  /** The sequence of delivery i exceeds every earlier one. */
  predicate Exceeds(ds: seq<Delivery>, i: nat)
    requires i < |ds|
  {
    ds[i].seqno > 0 && forall j :: 0 <= j < i ==> ds[j].seqno < ds[i].seqno
  }

  /** A stream capture: the deliveries whose sequence exceeds all earlier ones. */
  function Fresh(ds: seq<Delivery>): seq<Message> {
    if ds == [] then []
    else
      var n := |ds| - 1;
      Fresh(ds[..n]) + if Exceeds(ds, n) then [MessageFor(ds[n], ds[n].seqno)] else []
  }

  /** A core capture: every delivery, numbered from 1. */
  function NumberedFrom1(ds: seq<Delivery>): (r: seq<Message>)
    ensures |r| == |ds| && forall i :: 0 <= i < |r| ==> r[i] == MessageFor(ds[i], (i + 1) % TWO64)
  {
    seq(|ds|, i requires 0 <= i < |ds| => MessageFor(ds[i], (i + 1) % TWO64))
  }

  function Captured(preserve: bool, ds: seq<Delivery>): seq<Message> {
    if preserve then Fresh(ds) else NumberedFrom1(ds)
  }

  function LastSeqOf(ms: seq<Message>): uint64 {
    if ms == [] then 0 else ms[|ms| - 1].seqno
  }

  /** The last captured sequence is the highest seen. */
  lemma {:induction false} LastIsHighest(ds: seq<Delivery>)
    ensures forall j :: 0 <= j < |ds| ==> ds[j].seqno <= LastSeqOf(Fresh(ds))
    ensures Fresh(ds) == [] || exists j :: 0 <= j < |ds| && ds[j].seqno == LastSeqOf(Fresh(ds))
    decreases |ds|
  {
    hide MessageFor;
    if ds != [] {
      var n := |ds| - 1;
      var init := ds[..n];
      LastIsHighest(init);
      MessageForSeqno(ds[n], ds[n].seqno);
      if Exceeds(ds, n) {
        assert Fresh(ds)[|Fresh(ds)| - 1] == MessageFor(ds[n], ds[n].seqno);
      } else {
        assert Fresh(ds) == Fresh(init);
        if Fresh(init) != [] {
          var j :| 0 <= j < |init| && init[j].seqno == LastSeqOf(Fresh(init));
          assert ds[j] == init[j];
        }
        if ds[n].seqno > 0 {
          var j :| 0 <= j < n && ds[j].seqno >= ds[n].seqno;
          assert ds[j] == init[j];
        }
      }
    }
  }

  lemma MessageForSeqno(d: Delivery, seqno: uint64)
    ensures MessageFor(d, seqno).seqno == seqno
  {
  }

  /** The recorder's test against the last written sequence finds exactly the
      deliveries that exceed all earlier ones. */
  lemma ExceedsByLast(ds: seq<Delivery>, d: Delivery)
    ensures Exceeds(ds + [d], |ds|) <==> d.seqno > LastSeqOf(Fresh(ds))
  {
    hide MessageFor; hide Fresh;
    LastIsHighest(ds);
    var all := ds + [d];
    assert all[|ds|] == d && forall j :: 0 <= j < |ds| ==> all[j] == ds[j];
    if Fresh(ds) == [] {
      assert forall j :: 0 <= j < |ds| ==> ds[j].seqno == 0;
    } else {
      var j :| 0 <= j < |ds| && ds[j].seqno == LastSeqOf(Fresh(ds));
      assert all[j] == ds[j];
    }
  }

  lemma {:induction false} FreshAscends(ds: seq<Delivery>)
    ensures Ascending(0, Fresh(ds))
    decreases |ds|
  {
    hide MessageFor; hide Exceeds;
    if ds != [] {
      var init, d := ds[..|ds| - 1], ds[|ds| - 1];
      FreshAscends(init);
      ExceedsByLast(init, d);
      MessageForSeqno(d, d.seqno);
      assert init + [d] == ds;
      if d.seqno > LastSeqOf(Fresh(init)) {
        AscendingAppend(Fresh(init), MessageFor(d, d.seqno));
      } else {
        assert Fresh(ds) == Fresh(init);
      }
    }
  }

  lemma AscendingAppend(ms: seq<Message>, m: Message)
    requires Ascending(0, ms) && m.seqno > LastSeqOf(ms)
    ensures Ascending(0, ms + [m])
  {
    assert forall i :: 0 <= i < |ms| ==> ms[i].seqno <= LastSeqOf(ms);
  }

  lemma FreshSnoc(ds: seq<Delivery>, d: Delivery)
    ensures Fresh(ds + [d]) == Fresh(ds) + if d.seqno > LastSeqOf(Fresh(ds)) then [MessageFor(d, d.seqno)] else []
  {
    hide MessageFor; hide Exceeds; hide LastSeqOf;
    assert (ds + [d])[..|ds|] == ds;
    ExceedsByLast(ds, d);
  }

  lemma NumberedSnoc(ds: seq<Delivery>, d: Delivery)
    ensures NumberedFrom1(ds + [d]) == NumberedFrom1(ds) + [MessageFor(d, (|ds| + 1) % TWO64)]
  {
    hide MessageFor;
  }

  lemma CapturedSnoc(preserve: bool, ds: seq<Delivery>, d: Delivery)
    ensures Captured(preserve, ds + [d]) == Captured(preserve, ds) +
            if !preserve then [MessageFor(d, (|ds| + 1) % TWO64)]
            else if d.seqno > LastSeqOf(Fresh(ds)) then [MessageFor(d, d.seqno)] else []
  {
    hide MessageFor; hide Fresh; hide NumberedFrom1; hide LastSeqOf;
    FreshSnoc(ds, d);
    NumberedSnoc(ds, d);
  }

  /** What is captured can follow a first sequence the decoder accepts. */
  lemma CapturedAscending(preserve: bool, ds: seq<Delivery>)
    requires preserve || |ds| < TWO64
    ensures var ms := Captured(preserve, ds);
            Ascending(Below(if ms == [] then 1 else ms[0].seqno), ms) && (ms != [] ==> ms[0].seqno > 0)
  {
    hide Fresh;
    if preserve {
      FreshAscends(ds);
    } else {
      forall i | 0 <= i < |ds| ensures NumberedFrom1(ds)[i].seqno == i + 1 {
        MessageForSeqno(ds[i], i + 1);
      }
    }
  }

  /* ---------- What a captured message is ---------- */

  /** `m` stores the delivery: its subject and time, its header block in front, its
      data behind. */
  predicate Stores(m: Message, d: Delivery) {
    && m.subject == d.subject && m.ts == d.ts && m.hdrSize == |d.hdr| && m.payloadSize == |d.data|
    && d.hdr <= m.body && m.body[|d.hdr|..] == d.data
  }

  /** The messages `ms` are those of the deliveries numbered by `taken`, in order. In
      a stream capture these are the ones whose sequence is above all earlier ones,
      and keep it; in a core capture all of them, numbered from 1. */
  ghost predicate Captures(preserve: bool, ds: seq<Delivery>, taken: seq<nat>, ms: seq<Message>) {
    && |taken| == |ms|
    && (forall k :: 0 <= k < |taken| ==> taken[k] < |ds| && Stores(ms[k], ds[taken[k]]))
    && (forall k, l :: 0 <= k < l < |taken| ==> taken[k] < taken[l])
    && (preserve ==>
          && (forall k :: 0 <= k < |ms| ==> ms[k].seqno == ds[taken[k]].seqno)
          && (forall i: nat :: i in taken <==> i < |ds| && ds[i].seqno > 0 && forall j :: 0 <= j < i ==> ds[j].seqno < ds[i].seqno))
    && (!preserve ==> |ms| == |ds| && forall k :: 0 <= k < |ms| ==> taken[k] == k && ms[k].seqno == (k + 1) % TWO64)
  }

  lemma MessageStores(d: Delivery, seqno: uint64)
    ensures Stores(MessageFor(d, seqno), d) && MessageFor(d, seqno).seqno == seqno
  {
  }

  lemma CapturesMore(ds: seq<Delivery>, d: Delivery, taken: seq<nat>, ms: seq<Message>, m: Message)
    requires Captures(true, ds, taken, ms) && Exceeds(ds + [d], |ds|) && Stores(m, d) && m.seqno == d.seqno
    ensures Captures(true, ds + [d], taken + [|ds|], ms + [m])
  {
    hide Stores;
    var all, more := ds + [d], taken + [|ds|];
    assert forall i :: 0 <= i < |ds| ==> all[i] == ds[i];
    forall i: nat ensures i in more <==> i < |all| && all[i].seqno > 0 && forall j :: 0 <= j < i ==> all[j].seqno < all[i].seqno {
      assert i in more <==> i in taken || i == |ds|;
    }
  }

  lemma CapturesSame(ds: seq<Delivery>, d: Delivery, taken: seq<nat>, ms: seq<Message>)
    requires Captures(true, ds, taken, ms) && !Exceeds(ds + [d], |ds|)
    ensures Captures(true, ds + [d], taken, ms)
  {
    hide Stores;
    var all := ds + [d];
    assert forall i :: 0 <= i < |ds| ==> all[i] == ds[i];
    forall i: nat ensures i in taken <==> i < |all| && all[i].seqno > 0 && forall j :: 0 <= j < i ==> all[j].seqno < all[i].seqno {
      if i == |ds| {
        assert i !in taken;
      }
    }
  }

  /** A capture holds what was delivered. */
  lemma {:induction false} CapturesDeliveries(preserve: bool, ds: seq<Delivery>) returns (taken: seq<nat>)
    ensures Captures(preserve, ds, taken, Captured(preserve, ds))
    decreases |ds|
  {
    hide Stores; hide MessageFor; hide Captures; hide Exceeds; hide LastSeqOf;
    if !preserve {
      taken := seq(|ds|, i => i);
      forall k | 0 <= k < |ds| ensures Stores(Captured(false, ds)[k], ds[k]) && Captured(false, ds)[k].seqno == (k + 1) % TWO64 {
        MessageStores(ds[k], (k + 1) % TWO64);
      }
      AllTaken(ds, taken, Captured(false, ds));
    } else if ds == [] {
      taken := [];
      NothingTaken();
    } else {
      var n := |ds| - 1;
      taken := CapturesDeliveries(true, ds[..n]);
      assert ds == ds[..n] + [ds[n]];
      MessageStores(ds[n], ds[n].seqno);
      if Exceeds(ds, n) {
        CapturesMore(ds[..n], ds[n], taken, Fresh(ds[..n]), MessageFor(ds[n], ds[n].seqno));
        taken := taken + [n];
      } else {
        CapturesSame(ds[..n], ds[n], taken, Fresh(ds[..n]));
        assert Fresh(ds[..n]) + [] == Fresh(ds[..n]);
      }
    }
  }

  lemma AllTaken(ds: seq<Delivery>, taken: seq<nat>, ms: seq<Message>)
    requires |taken| == |ms| == |ds| && forall k :: 0 <= k < |ds| ==> taken[k] == k && Stores(ms[k], ds[k]) && ms[k].seqno == (k + 1) % TWO64
    ensures Captures(false, ds, taken, ms)
  {
    hide Stores;
  }

  lemma NothingTaken()
    ensures Captures(true, [], [], [])
  {
  }

  /* ---------- The recorder ---------- */

  datatype Capture = Capture(preserve: bool, storage: Storage, started: int, codec: Codec, framing: Framing)

  function ClosingState(cap: Capture, ms: seq<Message>): StreamState {
    StreamState(|ms|, TotalSize(cap.storage, ms), if ms == [] then 1 else ms[0].seqno, LastSeqOf(ms), 0)
  }

  class Recorder {
    const cap: Capture
    const enc: E.Encoder
    var file: seq<byte>
    var first: uint64
    var last: uint64
    var msgs: nat
    var bytes: nat
    var failed: bool
    var done: bool
    ghost var accepted: seq<Delivery>

    /** The archive and the counters hold exactly what was accepted. */
    ghost predicate Valid()
      reads this, enc, enc.w
    {
      var ms := Captured(cap.preserve, accepted);
      && enc.Valid() && enc.framing == cap.framing
      && enc.entries == MessageEntries(ms)
      && msgs == |ms| && bytes == TotalSize(cap.storage, ms)
      && last == LastSeqOf(ms) && first == (if ms == [] then 0 else ms[0].seqno)
      && (!cap.preserve ==> last == |accepted| % TWO64)
      && Some(file) == StateHead(cap.codec, cap.framing, cap.started, StreamState(0, 0, 1, 0, 0))
    }

    constructor (cap: Capture)
      requires StateHead(cap.codec, cap.framing, cap.started, StreamState(0, 0, 1, 0, 0)).Some?
      ensures Valid() && accepted == [] && !failed && !done && this.cap == cap && fresh(enc) && fresh(enc.w)
    {
      this.cap := cap;
      enc := new E.Encoder(cap.framing);
      file := StateHead(cap.codec, cap.framing, cap.started, StreamState(0, 0, 1, 0, 0)).value;
      first, last, msgs, bytes, failed, done := 0, 0, 0, 0, false, false;
      accepted := [];
      new;
      assert MessageEntries([]) == [];
    }

    /** The next message in the archive, with its totals. */
    method Record(d: Delivery, seqno: uint64)
      requires Valid()
      requires seqno == (if cap.preserve then d.seqno else (|accepted| + 1) % TWO64)
      requires cap.preserve ==> seqno > LastSeqOf(Fresh(accepted))
      modifies this`first, this`last, this`msgs, this`bytes, this`accepted, enc, enc.w
      ensures Valid() && accepted == old(accepted) + [d]
    {
      hide Captured; hide Fresh; hide MessageFor; hide StateHead; hide E.Encoder.Valid; hide TotalSize; hide SizeOf; hide StoredSize; hide MessageEntries; hide EntryOf;
      ghost var ms, m := Captured(cap.preserve, accepted), MessageFor(d, seqno);
      CapturedSnoc(cap.preserve, accepted, d);
      TotalSizeAppend(cap.storage, ms, m);
      EntriesSnoc(ms, m);
      SizeFor(cap.storage, d, seqno);
      MessageForSeqno(d, seqno);
      Append(d, seqno);
      if msgs == 0 {
        first := seqno;
      }
      last := seqno;
      msgs := msgs + 1;
      bytes := bytes + StoredSize(cap.storage, |d.subject|, |d.hdr|, |d.data|);
      accepted := accepted + [d];
    }

    lemma LastIs()
      requires Valid()
      ensures last == LastSeqOf(Captured(cap.preserve, accepted)) && (!cap.preserve ==> last == |accepted| % TWO64)
    {
    }

    /** A redelivery changes nothing. */
    lemma SkipKeeps(d: Delivery)
      requires cap.preserve && d.seqno <= LastSeqOf(Fresh(accepted))
      ensures Captured(cap.preserve, accepted + [d]) == Captured(cap.preserve, accepted)
    {
      hide MessageFor; hide Fresh;
      CapturedSnoc(cap.preserve, accepted, d);
      assert Captured(cap.preserve, accepted) + [] == Captured(cap.preserve, accepted);
    }

    /** write: errors are sticky, redeliveries are skipped. */
    method Write(d: Delivery) returns (ok: bool)
      requires Valid()
      modifies this`first, this`last, this`msgs, this`bytes, this`failed, this`accepted, enc, enc.w
      ensures Valid() && failed == (old(failed) || (!done && cap.preserve && d.seqno == 0))
      ensures ok <==> !failed && !done
      ensures accepted == if ok then old(accepted) + [d] else old(accepted)
    {
      hide Fresh; hide MessageFor; hide StateHead; hide E.Encoder.Valid; hide NumberedFrom1;
      if failed || done {
        return false;
      }
      LastIs();
      var seqno := d.seqno;
      if !cap.preserve {
        seqno := (last + 1) % TWO64;
      } else if seqno == 0 {
        failed := true;
        return false;
      } else if seqno <= last {
        SkipKeeps(d);
        accepted := accepted + [d];
        return true;
      }
      Record(d, seqno);
      return true;
    }

    /** writeMessageBytes */
    method Append(d: Delivery, seqno: uint64)
      requires enc.Valid()
      modifies enc, enc.w
      ensures enc.Valid() && enc.entries == old(enc.entries) + [EntryOf(MessageFor(d, seqno))]
    {
      hide MessageFor; hide Trimmed; hide EntryOf; hide E.Encoder.Valid;
      var m := MessageFor(d, seqno);
      WholeMessage(d, seqno);
      var ok := enc.WriteMessage(m);
    }

    lemma ClosingIs()
      requires Valid()
      ensures StreamState(msgs, bytes, if first > 1 then first else 1, last, 0) == ClosingState(cap, Captured(cap.preserve, accepted))
    {
      hide Captured; hide TotalSize; hide StateHead; hide E.Encoder.Valid;
      FirstPositive(cap.preserve, accepted);
    }

    /** writeArchive: the sentinel, and the head overwritten with the totals. */
    method Seal(st: StreamState, ghost ms: seq<Message>) returns (ok: bool)
      requires enc.Valid() && enc.framing == cap.framing && enc.entries == MessageEntries(ms)
      requires Some(file) == StateHead(cap.codec, cap.framing, cap.started, StreamState(0, 0, 1, 0, 0))
      modifies this`file, enc, enc.w
      ensures ok <==> StateHead(cap.codec, cap.framing, cap.started, st).Some?
      ensures ok ==> file == StateHead(cap.codec, cap.framing, cap.started, st).value + cap.framing.Flat(EntriesOf([], ms))
      ensures ok ==> AllIntact(EntriesOf([], ms))
    {
      hide StateHead; hide MessageEntries; hide EntriesOf; hide AllIntact;
      ghost var reserved := StateHead(cap.codec, cap.framing, cap.started, StreamState(0, 0, 1, 0, 0)).value;
      assert file == reserved;
      EndEntries(ms);
      enc.WriteEnd();
      enc.Output();
      ghost var tail := enc.w.written;
      file := file + enc.w.written;
      var head := StateHead(cap.codec, cap.framing, cap.started, st);
      if head.None? {
        return false;
      }
      HeadSizeFixed(cap.codec, cap.framing, cap.started, StreamState(0, 0, 1, 0, 0), st);
      Patched(reserved, tail, head.value);
      file := head.value + file[|head.value|..];
      return true;
    }

    /** Close: the returned state is that of what was captured. */
    method Close() returns (state: Option<StreamState>)
      requires Valid()
      modifies this`done, this`file, enc, enc.w
      ensures done
      ensures state.Some? <==> !failed && !old(done) && StateHead(cap.codec, cap.framing, cap.started, ClosingState(cap, Captured(cap.preserve, accepted))).Some?
      ensures state.Some? ==> state.value == ClosingState(cap, Captured(cap.preserve, accepted))
      ensures state.Some? ==> file == StateHead(cap.codec, cap.framing, cap.started, state.value).value
                                      + cap.framing.Flat(EntriesOf([], Captured(cap.preserve, accepted)))
      ensures state.Some? ==> AllIntact(EntriesOf([], Captured(cap.preserve, accepted)))
    {
      hide StateHead; hide Captured; hide TotalSize; hide MessageEntries; hide EntriesOf; hide E.Encoder.Valid; hide ClosingState;
      if done {
        return None;
      }
      done := true;
      if failed {
        return None;
      }
      ClosingIs();
      var st := StreamState(msgs, bytes, if first > 1 then first else 1, last, 0);
      var ok := Seal(st, Captured(cap.preserve, accepted));
      return if ok then Some(st) else None;
    }
  }

  lemma WholeMessage(d: Delivery, seqno: uint64)
    ensures var m := MessageFor(d, seqno); |m.body| == m.hdrSize + m.payloadSize && Trimmed(m) == m
  {
    var m := MessageFor(d, seqno);
    assert m.body[..|m.body|] == m.body;
  }

  lemma EndEntries(ms: seq<Message>)
    ensures MessageEntries(ms) + [SENTINEL] == EntriesOf([], ms)
  {
    hide MessageEntries;
    assert ConsumerEntries([]) + MessageEntries(ms) == MessageEntries(ms);
  }

  lemma SizeFor(storage: Storage, d: Delivery, seqno: uint64)
    ensures SizeOf(storage, MessageFor(d, seqno)) == StoredSize(storage, |d.subject|, |d.hdr|, |d.data|)
  {
  }

  lemma EntriesSnoc(ms: seq<Message>, m: Message)
    ensures MessageEntries(ms + [m]) == MessageEntries(ms) + [EntryOf(m)]
  {
  }

  /** A first sequence of 0 is never written, save where a core capture wraps. */
  lemma FirstPositive(preserve: bool, ds: seq<Delivery>)
    ensures var ms := Captured(preserve, ds); ms != [] ==> ms[0].seqno > 0
  {
    if preserve {
      FreshAscends(ds);
    }
  }

  /** A closed capture is a complete backup: the decoder accepts it and reads back
      exactly what was captured. The bound is that of the sequence type. */
  lemma CaptureDecodes(cap: Capture, ds: seq<Delivery>, file: seq<byte>)
    requires cap.preserve || |ds| < TWO64
    requires var ms := Captured(cap.preserve, ds);
             var head := StateHead(cap.codec, cap.framing, cap.started, ClosingState(cap, ms));
             head.Some? && file == head.value + cap.framing.Flat(EntriesOf([], ms)) && AllIntact(EntriesOf([], ms))
    ensures cap.codec.Lawful() && cap.framing.Lawful() ==>
              var ms := Captured(cap.preserve, ds);
              Holds(cap.codec, cap.framing.unframe(file), Contents(cap.started, ClosingState(cap, ms), [], ms))
  {
    hide Captured; hide StateHead; hide AllIntact; hide EntriesOf; hide IsState; hide Codec.Lawful; hide Framing.Lawful; hide Holds;
    if !(cap.codec.Lawful() && cap.framing.Lawful()) {
      return;
    }
    var ms := Captured(cap.preserve, ds);
    var st := ClosingState(cap, ms);
    HeadThenEntries(cap.codec, cap.framing, cap.started, st, EntriesOf([], ms));
    CapturedAscending(cap.preserve, ds);
    WrittenHolds(cap.codec, cap.framing.unframe(file), Contents(cap.started, st, [], ms));
  }

  /** What the head of a capture of `ms` declares: how many there are, their size, and
      the first and last of their sequences. */
  predicate Declares(st: StreamState, storage: Storage, ms: seq<Message>) {
    && st.msgs == |ms| && st.bytes == TotalSize(storage, ms) && st.consumers == 0
    && (ms != [] ==> st.firstSeq == ms[0].seqno && st.lastSeq == ms[|ms| - 1].seqno)
    && (ms == [] ==> st.firstSeq == 1 && st.lastSeq == 0)
  }

  lemma ClosingDeclares(cap: Capture, ms: seq<Message>)
    ensures Declares(ClosingState(cap, ms), cap.storage, ms)
  {
  }

  /** Read back, a closed capture holds the deliveries taken, and its head declares
      them. */
  lemma CaptureReadsBack(cap: Capture, ds: seq<Delivery>, file: seq<byte>)
    requires cap.preserve || |ds| < TWO64
    requires var ms := Captured(cap.preserve, ds);
             var head := StateHead(cap.codec, cap.framing, cap.started, ClosingState(cap, ms));
             head.Some? && file == head.value + cap.framing.Flat(EntriesOf([], ms)) && AllIntact(EntriesOf([], ms))
    ensures cap.codec.Lawful() && cap.framing.Lawful() ==>
              var r := D.Decode(cap.codec, cap.framing.unframe(file));
              && r.Complete? && V.WhatIsIn(r.items).Some?
              && var c := V.WhatIsIn(r.items).value;
                 c.ts == cap.started && Declares(c.st, cap.storage, c.msgs) && exists taken :: Captures(cap.preserve, ds, taken, c.msgs)
  {
    hide Captured; hide StateHead; hide AllIntact; hide EntriesOf; hide IsState; hide Codec.Lawful; hide Framing.Lawful; hide Holds; hide Captures;
    hide D.Decode; hide TotalSize; hide ItemsOf; hide V.WhatIsIn; hide ClosingState; hide Declares;
    if cap.codec.Lawful() && cap.framing.Lawful() {
      var ms := Captured(cap.preserve, ds);
      var c := Contents(cap.started, ClosingState(cap, ms), [], ms);
      CaptureDecodes(cap, ds, file);
      D.HoldsDecodes(cap.codec, cap.framing.unframe(file), c);
      V.ItemsBack(c);
      ClosingDeclares(cap, ms);
      var taken := CapturesDeliveries(cap.preserve, ds);
    }
  }

  /** Scanning a capture finds the counts Close returned. */
  lemma CaptureAccounts(cap: Capture, ds: seq<Delivery>, a: seq<Entry>)
    requires var ms := Captured(cap.preserve, ds);
             Holds(cap.codec, a, Contents(cap.started, ClosingState(cap, ms), [], ms))
    ensures D.Decode(cap.codec, a).Complete?
    ensures var r := V.ScanOf(cap.storage, D.Decode(cap.codec, a).items);
            var st := ClosingState(cap, Captured(cap.preserve, ds));
            r.messages == st.msgs && r.bytes == st.bytes && r.declared == st && !V.Advisory(r)
  {
    hide Captured; hide V.ScanOf;
    var ms := Captured(cap.preserve, ds);
    V.ScanOfContents(cap.codec, cap.storage, a, Contents(cap.started, ClosingState(cap, ms), [], ms));
    V.SizesPositive(cap.storage, ms);
  }
}
