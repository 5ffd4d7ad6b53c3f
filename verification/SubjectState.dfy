/** The state that decides which messages survive a per-subject edit
    (backup/subjectstate.go): a ring per subject for LastPerSubject, a slot per
    subject for KVCompact. Both are proved against one declarative rule over the
    observations made, in order. */
module SubjectState {
  datatype Obs = Obs(subject: string, seqno: nat, size: nat, tomb: bool)

  /* ---------- The rule ---------- */

  datatype Rule = LastN(n: nat) | Compact

  function OfSubject(os: seq<Obs>, k: string): seq<Obs> {
    if os == [] then []
    else if os[0].subject == k then [os[0]] + OfSubject(os[1..], k)
    else OfSubject(os[1..], k)
  }

  /** `o` survives what is observed after it: fewer than n later observations of
      its subject, or for KVCompact none at all and `o` is no tombstone. */
  predicate Survives(rule: Rule, o: Obs, later: seq<Obs>) {
    match rule
    case LastN(n) => |OfSubject(later, o.subject)| < n
    case Compact => OfSubject(later, o.subject) == [] && !o.tomb
  }

  /** The surviving observations, in order. */
  function Survivors(rule: Rule, os: seq<Obs>): seq<Obs> {
    if os == [] then []
    else if Survives(rule, os[0], os[1..]) then [os[0]] + Survivors(rule, os[1..])
    else Survivors(rule, os[1..])
  }

  predicate Kept(os: seq<Obs>, subject: string, seqno: nat) {
    exists i :: 0 <= i < |os| && os[i].subject == subject && os[i].seqno == seqno
  }

  function LastOf(os: seq<Obs>, n: nat): (r: seq<Obs>)
    ensures |r| == if |os| <= n then |os| else n
  {
    if |os| <= n then os else os[|os| - n..]
  }

  /** The part of a subject's observations that the rule keeps: a suffix. */
  function SuffixKept(rule: Rule, os: seq<Obs>): seq<Obs> {
    match rule
    case LastN(n) => LastOf(os, n)
    case Compact => var l := LastOf(os, 1); if l != [] && l[0].tomb then [] else l
  }

  lemma OfSubjectCons(o: Obs, os: seq<Obs>, k: string)
    ensures OfSubject([o] + os, k) == if o.subject == k then [o] + OfSubject(os, k) else OfSubject(os, k)
  {
    assert ([o] + os)[1..] == os;
  }

  lemma LastOfCons(o: Obs, f: seq<Obs>, n: nat)
    ensures LastOf([o] + f, n) == if |f| < n then [o] + LastOf(f, n) else LastOf(f, n)
  {
    if |f| >= n {
      assert ([o] + f)[1 + |f| - n..] == f[|f| - n..];
    }
  }

  lemma SuffixKeptCons(rule: Rule, o: Obs, later: seq<Obs>, f: seq<Obs>)
    requires f == OfSubject(later, o.subject)
    ensures SuffixKept(rule, [o] + f) == if Survives(rule, o, later) then [o] + SuffixKept(rule, f) else SuffixKept(rule, f)
  {
    hide OfSubject; hide LastOf;
    LastOfCons(o, f, if rule.LastN? then rule.n else 1);
    LastOfOne(o, f);
  }

  lemma LastOfOne(o: Obs, f: seq<Obs>)
    ensures f == [] ==> LastOf(f, 1) == []
    ensures |LastOf(f, 1)| == if f == [] then 0 else 1
  {
  }

  /** Per subject, the rule keeps a suffix of what was observed. */
  lemma {:induction false} SurvivorsOfSubject(rule: Rule, os: seq<Obs>, k: string)
    ensures OfSubject(Survivors(rule, os), k) == SuffixKept(rule, OfSubject(os, k))
  {
    if os != [] {
      var o, rest := os[0], os[1..];
      SurvivorsOfSubject(rule, rest, k);
      assert os == [o] + rest;
      OfSubjectCons(o, rest, k);
      if Survives(rule, o, rest) {
        OfSubjectCons(o, Survivors(rule, rest), k);
      }
      if o.subject == k {
        SuffixKeptCons(rule, o, rest, OfSubject(rest, k));
      }
    }
  }

  lemma OfSubjectFirst(os: seq<Obs>, k: string)
    requires os != []
    ensures OfSubject(os, k) == (if os[0].subject == k then [os[0]] else []) + OfSubject(os[1..], k)
  {
  }

  lemma FirstOfBoth(a: seq<Obs>, b: seq<Obs>)
    requires a != []
    ensures (a + b)[0] == a[0] && (a + b)[1..] == a[1..] + b
  {
  }

  lemma Regroup(a: seq<Obs>, b: seq<Obs>, c: seq<Obs>)
    ensures a + (b + c) == a + b + c
  {
  }

  lemma {:induction false} OfSubjectAppend(a: seq<Obs>, b: seq<Obs>, k: string)
    ensures OfSubject(a + b, k) == OfSubject(a, k) + OfSubject(b, k)
  {
    if a == [] {
      assert a + b == b;
    } else {
      hide OfSubject;
      OfSubjectAppend(a[1..], b, k);
      OfSubjectFirst(a, k);
      OfSubjectFirst(a + b, k);
      FirstOfBoth(a, b);
      Regroup(if a[0].subject == k then [a[0]] else [], OfSubject(a[1..], k), OfSubject(b, k));
    }
  }

  lemma {:induction false} KeptOfSubject(os: seq<Obs>, k: string, seqno: nat)
    ensures Kept(os, k, seqno) <==> Kept(OfSubject(os, k), k, seqno)
  {
    if os != [] {
      KeptOfSubject(os[1..], k, seqno);
      KeptCons(os[0], os[1..], k, seqno);
      assert [os[0]] + os[1..] == os;
      KeptCons(os[0], OfSubject(os[1..], k), k, seqno);
    }
  }

  lemma KeptCons(o: Obs, os: seq<Obs>, subject: string, seqno: nat)
    ensures Kept([o] + os, subject, seqno) <==> (o.subject == subject && o.seqno == seqno) || Kept(os, subject, seqno)
  {
    var all := [o] + os;
    assert all[0] == o && forall i :: 0 <= i < |os| ==> all[i + 1] == os[i];
  }

  /* ---------- Totals ---------- */

  datatype Resolved = Resolved(msgs: nat, bytes: nat, subjects: nat, firstSeq: nat)

  const NOTHING := Resolved(0, 0, 0, 0)

  /** resolved.add */
  function Add(r: Resolved, seqno: nat, size: nat): Resolved {
    r.(msgs := r.msgs + 1, bytes := r.bytes + size,
       firstSeq := if r.firstSeq == 0 || seqno < r.firstSeq then seqno else r.firstSeq)
  }

  function Bytes(os: seq<Obs>): nat {
    if os == [] then 0 else os[0].size + Bytes(os[1..])
  }

  function Subjects(os: seq<Obs>): set<string> {
    set o | o in os :: o.subject
  }

  function Seqs(os: seq<Obs>): set<nat> {
    set o | o in os :: o.seqno
  }

  /** The lowest member, or 0 when there is none. */
  predicate Least(f: nat, s: set<nat>) {
    if s == {} then f == 0 else f in s && forall x :: x in s ==> f <= x
  }

  lemma LeastAdd(r: Resolved, s: set<nat>, seqno: nat, size: nat)
    requires 0 !in s && seqno > 0 && Least(r.firstSeq, s)
    ensures Least(Add(r, seqno, size).firstSeq, s + {seqno})
  {
    assert seqno in s + {seqno};
  }

  predicate Positive(os: seq<Obs>) {
    forall i :: 0 <= i < |os| ==> os[i].seqno > 0
  }

  /** What the rule resolves to: totals of the survivors, how many subjects
      remain, and the lowest surviving sequence. */
  ghost predicate Resolves(res: Resolved, rule: Rule, os: seq<Obs>) {
    var kept := Survivors(rule, os);
    res.msgs == |kept| && res.bytes == Bytes(kept) && res.subjects == |Subjects(kept)| && Least(res.firstSeq, Seqs(kept))
  }

  /** The part of `os` whose subjects are in `ks`. */
  function Within(os: seq<Obs>, ks: set<string>): seq<Obs> {
    if os == [] then []
    else if os[0].subject in ks then [os[0]] + Within(os[1..], ks)
    else Within(os[1..], ks)
  }

  /** Totals of a partial sum over the subjects in `ks`. */
  ghost predicate Partial(res: Resolved, os: seq<Obs>, ks: set<string>) {
    var w := Within(os, ks);
    res.msgs == |w| && res.bytes == Bytes(w) && Least(res.firstSeq, Seqs(w))
  }

  lemma ConsFacts(o: Obs, os: seq<Obs>)
    ensures Bytes([o] + os) == o.size + Bytes(os)
    ensures Seqs([o] + os) == {o.seqno} + Seqs(os)
    ensures Subjects([o] + os) == {o.subject} + Subjects(os)
  {
    assert ([o] + os)[1..] == os;
  }

  /** What a subject among `ks` or another one takes of the first observation. */
  lemma WithinFirst(os: seq<Obs>, ks: set<string>)
    requires os != []
    ensures Within(os, ks) == if os[0].subject in ks then [os[0]] + Within(os[1..], ks) else Within(os[1..], ks)
  {
  }

  /** Adding a subject adds exactly its observations. */
  lemma {:induction false} WithinCount(os: seq<Obs>, ks: set<string>, k: string)
    requires k !in ks
    ensures |Within(os, ks + {k})| == |Within(os, ks)| + |OfSubject(os, k)|
  {
    if os != [] {
      WithinCount(os[1..], ks, k);
    }
  }

  lemma {:induction false} WithinBytes(os: seq<Obs>, ks: set<string>, k: string)
    requires k !in ks
    ensures Bytes(Within(os, ks + {k})) == Bytes(Within(os, ks)) + Bytes(OfSubject(os, k))
  {
    if os != [] {
      hide Bytes; hide Seqs; hide Subjects; hide Within; hide OfSubject;
      WithinBytes(os[1..], ks, k);
      WithinParts(os, ks, k);
    }
  }

  lemma {:induction false} WithinSeqs(os: seq<Obs>, ks: set<string>, k: string)
    requires k !in ks
    ensures Seqs(Within(os, ks + {k})) == Seqs(Within(os, ks)) + Seqs(OfSubject(os, k))
  {
    if os != [] {
      hide Bytes; hide Seqs; hide Subjects; hide Within; hide OfSubject;
      WithinSeqs(os[1..], ks, k);
      WithinParts(os, ks, k);
    }
  }

  lemma {:induction false} WithinTheirSubjects(os: seq<Obs>, ks: set<string>, k: string)
    requires k !in ks
    ensures Subjects(Within(os, ks + {k})) == Subjects(Within(os, ks)) + Subjects(OfSubject(os, k))
  {
    if os != [] {
      hide Bytes; hide Seqs; hide Subjects; hide Within; hide OfSubject;
      WithinTheirSubjects(os[1..], ks, k);
      WithinParts(os, ks, k);
    }
  }

  /** The first observation in each of the three lists, with its totals. */
  lemma WithinParts(os: seq<Obs>, ks: set<string>, k: string)
    requires os != [] && k !in ks
    ensures var o, w, f, both := os[0], Within(os[1..], ks), OfSubject(os[1..], k), Within(os[1..], ks + {k});
            && Within(os, ks) == (if o.subject in ks then [o] + w else w)
            && OfSubject(os, k) == (if o.subject == k then [o] + f else f)
            && Within(os, ks + {k}) == (if o.subject in ks || o.subject == k then [o] + both else both)
            && Bytes([o] + w) == o.size + Bytes(w) && Bytes([o] + f) == o.size + Bytes(f) && Bytes([o] + both) == o.size + Bytes(both)
            && Seqs([o] + w) == {o.seqno} + Seqs(w) && Seqs([o] + f) == {o.seqno} + Seqs(f) && Seqs([o] + both) == {o.seqno} + Seqs(both)
            && Subjects([o] + w) == {o.subject} + Subjects(w) && Subjects([o] + f) == {o.subject} + Subjects(f)
            && Subjects([o] + both) == {o.subject} + Subjects(both)
  {
    hide Within; hide Bytes; hide Seqs; hide Subjects; hide OfSubject;
    WithinFirst(os, ks);
    WithinFirst(os, ks + {k});
    OfSubjectFirst(os, k);
    ConsFacts(os[0], Within(os[1..], ks));
    ConsFacts(os[0], OfSubject(os[1..], k));
    ConsFacts(os[0], Within(os[1..], ks + {k}));
    assert [] + OfSubject(os[1..], k) == OfSubject(os[1..], k);
  }

  lemma WithinAdd(os: seq<Obs>, ks: set<string>, k: string)
    requires k !in ks
    ensures var w, f := Within(os, ks), OfSubject(os, k);
            var both := Within(os, ks + {k});
            |both| == |w| + |f| && Bytes(both) == Bytes(w) + Bytes(f) && Seqs(both) == Seqs(w) + Seqs(f) &&
            Subjects(both) == Subjects(w) + Subjects(f)
  {
    hide Bytes; hide Seqs; hide Subjects; hide Within; hide OfSubject;
    WithinCount(os, ks, k);
    WithinBytes(os, ks, k);
    WithinSeqs(os, ks, k);
    WithinTheirSubjects(os, ks, k);
  }

  lemma {:induction false} WithinAll(os: seq<Obs>, ks: set<string>)
    requires Subjects(os) <= ks
    ensures Within(os, ks) == os
  {
    if os != [] {
      assert os[0].subject in Subjects(os);
      assert forall o :: o in os[1..] ==> o in os;
      WithinAll(os[1..], ks);
    }
  }

  lemma {:induction false} WithinNone(os: seq<Obs>)
    ensures Within(os, {}) == []
  {
    if os != [] {
      WithinNone(os[1..]);
    }
  }

  lemma {:induction false} OfSubjectEmpty(os: seq<Obs>, k: string)
    ensures OfSubject(os, k) == [] <==> k !in Subjects(os)
    ensures forall o :: o in OfSubject(os, k) ==> o in os && o.subject == k
  {
    if os != [] {
      OfSubjectEmpty(os[1..], k);
      assert os == [os[0]] + os[1..];
      assert Subjects(os) == {os[0].subject} + Subjects(os[1..]);
    }
  }

  lemma {:induction false} SurvivorsPositive(rule: Rule, os: seq<Obs>)
    requires Positive(os)
    ensures Positive(Survivors(rule, os))
  {
    if os != [] {
      SurvivorsPositive(rule, os[1..]);
    }
  }

  lemma AddOne(res: Resolved, w: seq<Obs>, both: seq<Obs>, k: string, seqno: nat, size: nat)
    requires res.msgs == |w| && res.bytes == Bytes(w) && Least(res.firstSeq, Seqs(w)) && res.subjects == |Subjects(w)|
    requires 0 !in Seqs(w) && seqno > 0 && k !in Subjects(w)
    requires |both| == |w| + 1 && Bytes(both) == Bytes(w) + size
    requires Seqs(both) == Seqs(w) + {seqno} && Subjects(both) == Subjects(w) + {k}
    ensures var next := Add(res, seqno, size).(subjects := res.subjects + 1);
            next.msgs == |both| && next.bytes == Bytes(both) && Least(next.firstSeq, Seqs(both)) && next.subjects == |Subjects(both)|
  {
    LeastAdd(res, Seqs(w), seqno, size);
  }

  lemma SumsAlike(res: Resolved, w: seq<Obs>, both: seq<Obs>)
    requires res.msgs == |w| && res.bytes == Bytes(w) && Least(res.firstSeq, Seqs(w)) && res.subjects == |Subjects(w)|
    requires |both| == |w| && Bytes(both) == Bytes(w) && Seqs(both) == Seqs(w) && Subjects(both) == Subjects(w)
    ensures res.msgs == |both| && res.bytes == Bytes(both) && Least(res.firstSeq, Seqs(both)) && res.subjects == |Subjects(both)|
  {
  }

  /* ---------- KVCompact: one slot per subject ---------- */

  datatype KvSlot = KvSlot(seqno: nat, size: nat, tomb: bool)

  function SlotOf(o: Obs): KvSlot {
    KvSlot(o.seqno, o.size, o.tomb)
  }

  class KvCompactState {
    var slots: map<string, KvSlot>
    ghost var seen: seq<Obs>

    /** Every subject's slot is its latest observation. */
    ghost predicate Valid()
      reads this
    {
      && slots.Keys == Subjects(seen)
      && forall k :: k in slots ==> OfSubject(seen, k) != [] && slots[k] == SlotOf(LastOf(OfSubject(seen, k), 1)[0])
    }

    constructor ()
      ensures Valid() && seen == []
    {
      slots := map[];
      seen := [];
    }

    method Observe(subject: string, seqno: nat, size: nat, tomb: bool)
      requires Valid()
      modifies this
      ensures Valid() && seen == old(seen) + [Obs(subject, seqno, size, tomb)]
    {
      var o := Obs(subject, seqno, size, tomb);
      ghost var before := seen;
      slots := slots[subject := KvSlot(seqno, size, tomb)];
      seen := seen + [o];
      assert Subjects(seen) == Subjects(before) + {subject};
      forall k | k in slots
        ensures OfSubject(seen, k) != [] && slots[k] == SlotOf(LastOf(OfSubject(seen, k), 1)[0])
      {
        OfSubjectAppend(before, [o], k);
      }
    }

    /** Sums the live slots, in whatever order the map yields them. */
    method Resolve() returns (res: Resolved)
      requires Valid() && Positive(seen)
      ensures Resolves(res, Compact, seen)
    {
      var todo := slots.Keys;
      res := NOTHING;
      SumStart();
      while todo != {}
        invariant Summed(res, todo)
        decreases |todo|
      {
        var k :| k in todo;
        SumStep(res, todo, k);
        var slot := slots[k];
        if !slot.tomb {
          res := Add(res, slot.seqno, slot.size);
          res := res.(subjects := res.subjects + 1);
        }
        todo := todo - {k};
      }
      SumEnd(res);
    }

    /** `res` covers every slot but those in `todo`. */
    ghost predicate Summed(res: Resolved, todo: set<string>)
      reads this
    {
      var kept, done := Survivors(Compact, seen), slots.Keys - todo;
      todo <= slots.Keys && Partial(res, kept, done) && res.subjects == |Subjects(Within(kept, done))|
    }

    lemma SumStart()
      ensures Summed(NOTHING, slots.Keys)
    {
      WithinNone(Survivors(Compact, seen));
      assert slots.Keys - slots.Keys == {};
    }

    lemma SumStep(res: Resolved, todo: set<string>, k: string)
      requires Valid() && Positive(seen) && k in todo && Summed(res, todo)
      ensures k in slots
      ensures var slot := slots[k];
              Summed(if slot.tomb then res else Add(res, slot.seqno, slot.size).(subjects := res.subjects + 1), todo - {k})
    {
      var kept, done := Survivors(Compact, seen), slots.Keys - todo;
      assert slots.Keys - (todo - {k}) == done + {k};
      var w, both := Within(kept, done), Within(kept, done + {k});
      if slots[k].tomb {
        DeadSlotPart(done, k);
        SumsAlike(res, w, both);
      } else {
        LiveSlotPart(done, k);
        AddOne(res, w, both, k, slots[k].seqno, slots[k].size);
      }
    }

    lemma DeadSlotPart(done: set<string>, k: string)
      requires Valid() && Positive(seen) && k in slots && k !in done && slots[k].tomb
      ensures var w, both := Within(Survivors(Compact, seen), done), Within(Survivors(Compact, seen), done + {k});
              |both| == |w| && Bytes(both) == Bytes(w) && Seqs(both) == Seqs(w) && Subjects(both) == Subjects(w)
    {
      LiveSlot(k);
      WithinAdd(Survivors(Compact, seen), done, k);
    }

    lemma LiveSlotPart(done: set<string>, k: string)
      requires Valid() && Positive(seen) && k in slots && k !in done && !slots[k].tomb
      ensures var w, both := Within(Survivors(Compact, seen), done), Within(Survivors(Compact, seen), done + {k});
              var slot := slots[k];
              && 0 !in Seqs(w) && slot.seqno > 0 && k !in Subjects(w)
              && |both| == |w| + 1 && Bytes(both) == Bytes(w) + slot.size
              && Seqs(both) == Seqs(w) + {slot.seqno} && Subjects(both) == Subjects(w) + {k}
    {
      LiveSlot(k);
      WithinAdd(Survivors(Compact, seen), done, k);
      WithinPositive(Survivors(Compact, seen), done);
      WithinSubjects(Survivors(Compact, seen), done);
    }

    lemma SumEnd(res: Resolved)
      requires Valid() && Summed(res, {})
      ensures Resolves(res, Compact, seen)
    {
      SubsetSubjects(Compact, seen);
      assert slots.Keys - {} == slots.Keys;
      WithinAll(Survivors(Compact, seen), slots.Keys);
    }

    /** A slot stands for its subject's survivor. */
    lemma LiveSlot(k: string)
      requires Valid() && Positive(seen) && k in slots
      ensures Positive(Survivors(Compact, seen))
      ensures var f := OfSubject(Survivors(Compact, seen), k);
              if slots[k].tomb then f == []
              else slots[k].seqno > 0 && |f| == 1 && Bytes(f) == slots[k].size && Seqs(f) == {slots[k].seqno} && Subjects(f) == {k}
    {
      SurvivorsOfSubject(Compact, seen, k);
      SurvivorsPositive(Compact, seen);
      var f := OfSubject(Survivors(Compact, seen), k);
      OfSubjectEmpty(Survivors(Compact, seen), k);
      if !slots[k].tomb {
        assert f == [f[0]] + [];
        ConsFacts(f[0], []);
      }
    }

    predicate Keeps(subject: string, seqno: nat)
      requires Valid()
      reads this
      ensures Keeps(subject, seqno) <==> Kept(Survivors(Compact, seen), subject, seqno)
    {
      SurvivorsOfSubject(Compact, seen, subject);
      KeptOfSubject(Survivors(Compact, seen), subject, seqno);
      OfSubjectEmpty(seen, subject);
      subject in slots && !slots[subject].tomb && slots[subject].seqno == seqno
    }
  }

  lemma {:induction false} WithinPositive(os: seq<Obs>, ks: set<string>)
    requires Positive(os)
    ensures 0 !in Seqs(Within(os, ks))
  {
    if os != [] {
      WithinPositive(os[1..], ks);
      ConsFacts(os[0], Within(os[1..], ks));
    }
  }

  lemma {:induction false} WithinSubjects(os: seq<Obs>, ks: set<string>)
    ensures Subjects(Within(os, ks)) <= ks
  {
    if os != [] {
      WithinSubjects(os[1..], ks);
      ConsFacts(os[0], Within(os[1..], ks));
    }
  }

  lemma {:induction false} SubsetSubjects(rule: Rule, os: seq<Obs>)
    ensures Subjects(Survivors(rule, os)) <= Subjects(os)
    ensures rule.LastN? && rule.n > 0 ==> Subjects(Survivors(rule, os)) == Subjects(os)
  {
    forall k
      ensures k in Subjects(Survivors(rule, os)) ==> k in Subjects(os)
      ensures rule.LastN? && rule.n > 0 && k in Subjects(os) ==> k in Subjects(Survivors(rule, os))
    {
      SurvivorsOfSubject(rule, os, k);
      OfSubjectEmpty(os, k);
      OfSubjectEmpty(Survivors(rule, os), k);
    }
  }

  /* ---------- LastPerSubject: a ring per subject ---------- */

  datatype RingEntry = RingEntry(seqno: nat, size: nat)

  datatype Ring = Ring(entries: seq<RingEntry>, next: nat)

  function EntryOf(o: Obs): RingEntry {
    RingEntry(o.seqno, o.size)
  }

  function EntriesOf(os: seq<Obs>): (r: seq<RingEntry>)
    ensures |r| == |os|
  {
    seq(|os|, i requires 0 <= i < |os| => EntryOf(os[i]))
  }

  /** The entries from the cursor on, oldest first. */
  function Rotated(r: Ring): seq<RingEntry>
    requires r.next <= |r.entries|
  {
    r.entries[r.next..] + r.entries[..r.next]
  }

  /** `r` holds the last n of `os`, with the cursor on the oldest once it is full. */
  predicate RingHolds(n: nat, r: Ring, os: seq<Obs>) {
    && r.next <= |r.entries|
    && (|r.entries| < n ==> r.next == 0)
    && (n > 0 && |r.entries| == n ==> r.next < n)
    && Rotated(r) == EntriesOf(LastOf(os, n))
  }

  function Push(n: nat, r: Ring, e: RingEntry): Ring
    requires n > 0 && r.next < n && |r.entries| <= n
  {
    if |r.entries| < n then r.(entries := r.entries + [e])
    else Ring(r.entries[r.next := e], (r.next + 1) % n)
  }

  lemma PushRotates(n: nat, r: Ring, e: RingEntry)
    requires n > 0 && |r.entries| == n && r.next < n
    ensures Push(n, r, e).next < n && Rotated(Push(n, r, e)) == Rotated(r)[1..] + [e]
  {
    var r' := Push(n, r, e);
    if r.next + 1 < n {
      assert r'.next == r.next + 1;
      assert r'.entries[r'.next..] == r.entries[r.next + 1..];
      assert r'.entries[..r'.next] == r.entries[..r.next] + [e];
    } else {
      assert r'.next == 0;
      assert r'.entries == r.entries[..r.next] + [e];
    }
  }

  lemma LastOfSnoc(os: seq<Obs>, n: nat, o: Obs)
    requires n > 0
    ensures |os| < n ==> EntriesOf(LastOf(os + [o], n)) == EntriesOf(LastOf(os, n)) + [EntryOf(o)]
    ensures |os| >= n ==> EntriesOf(LastOf(os + [o], n)) == EntriesOf(LastOf(os, n))[1..] + [EntryOf(o)]
  {
    if |os| >= n {
      assert LastOf(os + [o], n) == LastOf(os, n)[1..] + [o];
    }
  }

  lemma PushHolds(n: nat, r: Ring, os: seq<Obs>, o: Obs)
    requires n > 0 && RingHolds(n, r, os)
    ensures r.next < n && |r.entries| <= n && RingHolds(n, Push(n, r, EntryOf(o)), os + [o])
  {
    assert |Rotated(r)| == |r.entries|;
    LastOfSnoc(os, n, o);
    if |r.entries| < n {
      assert Rotated(r) == r.entries;
      assert Rotated(Push(n, r, EntryOf(o))) == r.entries + [EntryOf(o)];
    } else {
      PushRotates(n, r, EntryOf(o));
    }
  }

  /** Once full, the cursor is on the oldest of the last n. */
  lemma CursorAtOldest(n: nat, r: Ring, os: seq<Obs>)
    requires n > 0 && RingHolds(n, r, os) && |os| >= n
    ensures |r.entries| == n && r.entries[r.next] == EntryOf(os[|os| - n])
  {
    assert |Rotated(r)| == n;
    assert Rotated(r)[0] == r.entries[r.next];
    assert EntriesOf(LastOf(os, n))[0] == EntryOf(os[|os| - n]);
  }

  function EntryBytes(es: seq<RingEntry>): nat {
    if es == [] then 0 else EntryBytes(es[..|es| - 1]) + es[|es| - 1].size
  }

  function EntrySeqs(es: seq<RingEntry>): set<nat> {
    set e | e in es :: e.seqno
  }

  lemma {:induction false} EntryBytesAppend(a: seq<RingEntry>, b: seq<RingEntry>)
    ensures EntryBytes(a + b) == EntryBytes(a) + EntryBytes(b)
    decreases |b|
  {
    if b == [] {
      assert a + b == a;
    } else {
      EntryBytesAppend(a, b[..|b| - 1]);
      assert (a + b)[..|a + b| - 1] == a + b[..|b| - 1];
    }
  }

  lemma {:induction false} EntriesOfBytes(os: seq<Obs>)
    ensures EntryBytes(EntriesOf(os)) == Bytes(os)
  {
    if os != [] {
      EntriesOfBytes(os[1..]);
      assert EntriesOf(os) == [EntryOf(os[0])] + EntriesOf(os[1..]);
      EntryBytesAppend([EntryOf(os[0])], EntriesOf(os[1..]));
      assert [EntryOf(os[0])][..0] == [];
    }
  }

  /** A ring sums to what it holds, whatever its rotation. */
  lemma RingSums(n: nat, r: Ring, os: seq<Obs>)
    requires RingHolds(n, r, os)
    ensures var l := LastOf(os, n);
            |r.entries| == |l| && EntryBytes(r.entries) == Bytes(l) && EntrySeqs(r.entries) == Seqs(l)
  {
    var a, b, l := r.entries[..r.next], r.entries[r.next..], LastOf(os, n);
    assert r.entries == a + b && Rotated(r) == b + a;
    EntryBytesAppend(a, b);
    EntryBytesAppend(b, a);
    EntriesOfBytes(l);
    assert |Rotated(r)| == |r.entries|;
    forall x
      ensures x in EntrySeqs(r.entries) <==> x in Seqs(l)
    {
      RingMember(n, r, os, x);
    }
  }

  /** A sequence is in the ring exactly when it is among the last n. */
  lemma RingMember(n: nat, r: Ring, os: seq<Obs>, x: nat)
    requires RingHolds(n, r, os)
    ensures x in EntrySeqs(r.entries) <==> x in Seqs(LastOf(os, n))
  {
    var l, m := LastOf(os, n), |r.entries|;
    assert |Rotated(r)| == m == |l|;
    if e :| e in r.entries && e.seqno == x {
      var i :| 0 <= i < m && r.entries[i] == e;
      var j := if i >= r.next then i - r.next else m - r.next + i;
      assert Rotated(r)[j] == e == EntryOf(l[j]);
      assert l[j] in l;
    }
    if o :| o in l && o.seqno == x {
      var j :| 0 <= j < m && l[j] == o;
      var i := if j < m - r.next then j + r.next else j + r.next - m;
      assert Rotated(r)[j] == r.entries[i] == EntryOf(o);
      assert r.entries[i] in r.entries;
    }
  }

  /** Every subject observed has a ring holding its last n. */
  ghost predicate RingsHold(n: nat, rings: map<string, Ring>, seen: seq<Obs>) {
    && rings.Keys == Subjects(seen)
    && forall k :: k in rings ==> RingHolds(n, rings[k], OfSubject(seen, k))
  }

  lemma OfSubjectSnoc(os: seq<Obs>, o: Obs, k: string)
    ensures OfSubject(os + [o], k) == if o.subject == k then OfSubject(os, k) + [o] else OfSubject(os, k)
  {
    OfSubjectAppend(os, [o], k);
  }

  lemma RingsAfter(n: nat, rings: map<string, Ring>, seen: seq<Obs>, o: Obs, r: Ring)
    requires n > 0 && RingsHold(n, rings, seen)
    requires r == if o.subject in rings then rings[o.subject] else Ring([], 0)
    ensures r.next < n && |r.entries| <= n
    ensures RingsHold(n, rings[o.subject := Push(n, r, EntryOf(o))], seen + [o])
  {
    OfSubjectEmpty(seen, o.subject);
    assert RingHolds(n, r, OfSubject(seen, o.subject));
    hide RingHolds; hide Push; hide OfSubject;
    PushHolds(n, r, OfSubject(seen, o.subject), o);
    var rings' := rings[o.subject := Push(n, r, EntryOf(o))];
    assert Subjects(seen + [o]) == Subjects(seen) + {o.subject};
    forall k | k in rings'
      ensures RingHolds(n, rings'[k], OfSubject(seen + [o], k))
    {
      OfSubjectSnoc(seen, o, k);
    }
  }

  class LastPerSubjectState {
    const n: nat
    var rings: map<string, Ring>
    ghost var seen: seq<Obs>

    ghost predicate Valid()
      reads this
    {
      n > 0 && RingsHold(n, rings, seen)
    }

    constructor (n: nat)
      requires n > 0
      ensures Valid() && seen == [] && this.n == n
    {
      this.n := n;
      rings := map[];
      seen := [];
    }

    method Observe(subject: string, seqno: nat, size: nat, tomb: bool)
      requires Valid()
      modifies this
      ensures Valid() && seen == old(seen) + [Obs(subject, seqno, size, tomb)]
    {
      var r := if subject in rings then rings[subject] else Ring([], 0);
      RingsAfter(n, rings, seen, Obs(subject, seqno, size, tomb), r);
      var e := RingEntry(seqno, size);
      if |r.entries| < n {
        r := r.(entries := r.entries + [e]);
      } else {
        r := Ring(r.entries[r.next := e], (r.next + 1) % n);
      }
      rings := rings[subject := r];
      seen := seen + [Obs(subject, seqno, size, tomb)];
    }

    /** Sums every entry of every ring, in whatever order the map yields them. */
    method Resolve() returns (res: Resolved)
      requires Valid() && Positive(seen)
      ensures Resolves(res, LastN(n), seen)
    {
      var todo := rings.Keys;
      res := NOTHING;
      SumStart();
      while todo != {}
        invariant Summed(res, todo)
        decreases |todo|
      {
        var k :| k in todo;
        RingOf(todo, k);
        ghost var w := Within(Survivors(LastN(n), seen), rings.Keys - todo);
        res := AddRing(res, rings[k].entries, Seqs(w));
        todo := todo - {k};
      }
      SumEnd(res);
      res := res.(subjects := |rings|);
    }

    /** `res` covers every ring but those in `todo`. */
    ghost predicate Summed(res: Resolved, todo: set<string>)
      reads this
    {
      todo <= rings.Keys && Partial(res, Survivors(LastN(n), seen), rings.Keys - todo)
    }

    lemma SumStart()
      ensures Summed(NOTHING, rings.Keys)
    {
      WithinNone(Survivors(LastN(n), seen));
      assert rings.Keys - rings.Keys == {};
    }

    /** A ring holds its subject's survivors. */
    lemma RingOf(todo: set<string>, k: string)
      requires Valid() && Positive(seen) && k in todo && todo <= rings.Keys
      ensures var kept, es := Survivors(LastN(n), seen), rings[k].entries;
              var w, both := Within(kept, rings.Keys - todo), Within(kept, rings.Keys - (todo - {k}));
              && |both| == |w| + |es| && Bytes(both) == Bytes(w) + EntryBytes(es) && Seqs(both) == Seqs(w) + EntrySeqs(es)
              && 0 !in Seqs(both)
    {
      var kept, done := Survivors(LastN(n), seen), rings.Keys - todo;
      assert rings.Keys - (todo - {k}) == done + {k};
      SurvivorsOfSubject(LastN(n), seen, k);
      SurvivorsPositive(LastN(n), seen);
      RingSums(n, rings[k], OfSubject(seen, k));
      WithinAdd(kept, done, k);
      WithinPositive(kept, done + {k});
    }

    lemma SumEnd(res: Resolved)
      requires Valid() && Summed(res, {})
      ensures Resolves(res.(subjects := |rings|), LastN(n), seen)
    {
      SubsetSubjects(LastN(n), seen);
      assert rings.Keys - {} == rings.Keys;
      WithinAll(Survivors(LastN(n), seen), rings.Keys);
    }

    /** One lookup for the second pass; the sequence decides within the subject's ring. */
    method Keeps(subject: string, seqno: nat) returns (keeps: bool)
      requires Valid()
      ensures keeps <==> Kept(Survivors(LastN(n), seen), subject, seqno)
    {
      var es := if subject in rings then rings[subject].entries else [];
      KeptInRing(subject, seqno);
      keeps := InEntries(es, seqno);
    }

    lemma KeptInRing(subject: string, seqno: nat)
      requires Valid()
      ensures Kept(Survivors(LastN(n), seen), subject, seqno) <==>
              subject in rings && seqno in EntrySeqs(rings[subject].entries)
    {
      SurvivorsOfSubject(LastN(n), seen, subject);
      KeptOfSubject(Survivors(LastN(n), seen), subject, seqno);
      OfSubjectEmpty(seen, subject);
      var l := LastOf(OfSubject(seen, subject), n);
      assert Kept(l, subject, seqno) <==> seqno in Seqs(l);
      if subject in rings {
        RingMember(n, rings[subject], OfSubject(seen, subject), seqno);
      }
    }
  }

  /** The loop of Keeps over one ring. */
  method InEntries(es: seq<RingEntry>, seqno: nat) returns (found: bool)
    ensures found <==> seqno in EntrySeqs(es)
  {
    for i := 0 to |es|
      invariant forall j :: 0 <= j < i ==> es[j].seqno != seqno
    {
      if es[i].seqno == seqno {
        return true;
      }
    }
    return false;
  }

  /** The inner loop of Resolve over one ring. */
  method AddRing(start: Resolved, es: seq<RingEntry>, ghost s: set<nat>) returns (res: Resolved)
    requires 0 !in s && 0 !in EntrySeqs(es) && Least(start.firstSeq, s)
    ensures res.msgs == start.msgs + |es| && res.bytes == start.bytes + EntryBytes(es)
    ensures res.subjects == start.subjects && Least(res.firstSeq, s + EntrySeqs(es))
  {
    res := start;
    ghost var got := s;
    for i := 0 to |es|
      invariant res.msgs == start.msgs + i && res.bytes == start.bytes + EntryBytes(es[..i])
      invariant got == s + EntrySeqs(es[..i]) && 0 !in got
      invariant res.subjects == start.subjects && Least(res.firstSeq, got)
    {
      assert es[..i + 1] == es[..i] + [es[i]] && es[..i + 1][..i] == es[..i];
      assert es[i].seqno in EntrySeqs(es);
      LeastAdd(res, got, es[i].seqno, es[i].size);
      got := got + {es[i].seqno};
      res := Add(res, es[i].seqno, es[i].size);
    }
    assert es[..|es|] == es;
  }

  /** newSubjectState: whichever of the two states the options call for. */
  class SubjectTracker {
    const rule: Rule
    const kv: KvCompactState?
    const lps: LastPerSubjectState?

    ghost predicate Valid()
      reads this, kv, lps
    {
      match rule
      case Compact => kv != null && kv.Valid()
      case LastN(n) => lps != null && lps.Valid() && lps.n == n
    }

    ghost function Seen(): seq<Obs>
      requires Valid()
      reads this, kv, lps
    {
      if rule.Compact? then kv.seen else lps.seen
    }

    constructor (rule: Rule)
      requires rule.LastN? ==> rule.n > 0
      ensures Valid() && Seen() == [] && this.rule == rule
      ensures kv != null ==> fresh(kv)
      ensures lps != null ==> fresh(lps)
    {
      this.rule := rule;
      if rule.Compact? {
        kv := new KvCompactState();
        lps := null;
      } else {
        lps := new LastPerSubjectState(rule.n);
        kv := null;
      }
    }

    method Observe(subject: string, seqno: nat, size: nat, tomb: bool)
      requires Valid()
      modifies kv, lps
      ensures Valid() && Seen() == old(Seen()) + [Obs(subject, seqno, size, tomb)]
    {
      if rule.Compact? {
        kv.Observe(subject, seqno, size, tomb);
      } else {
        lps.Observe(subject, seqno, size, tomb);
      }
    }

    method Resolve() returns (res: Resolved)
      requires Valid() && Positive(Seen())
      ensures Resolves(res, rule, Seen())
    {
      if rule.Compact? {
        res := kv.Resolve();
      } else {
        res := lps.Resolve();
      }
    }

    method Keeps(subject: string, seqno: nat) returns (keeps: bool)
      requires Valid()
      ensures keeps <==> Kept(Survivors(rule, Seen()), subject, seqno)
    {
      if rule.Compact? {
        keeps := kv.Keeps(subject, seqno);
      } else {
        keeps := lps.Keeps(subject, seqno);
      }
    }
  }
}
