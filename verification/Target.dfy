/** The commit protocol of an edit (backup/target.go, backup/edit.go,
    backup/obfuscate.go): what is on disk, step by step, and what a crash at any
    step can leave there. File data reaches the disk only when it is synced;
    operations on directory entries happen in the order they are made. */
module Target {
  import opened Text

  /* ---------- What is on disk ---------- */

  /** The archive file: its head patched, its sentinel written, the hashed tokens in it. */
  datatype Arc = Arc(patched: bool, sentinel: bool, tokens: set<string>, synced: bool)

  datatype Meta = Meta(tokens: set<string>, synced: bool)

  /** A key file: the hashed tokens it maps. */
  datatype Key = Key(tokens: set<string>, synced: bool)

  datatype Node = Absent | Directory(archive: Option<Arc>, meta: Option<Meta>)

  const EMPTY := Directory(None, None)

  /** The target path, the staging directory, the key file beside the target and
      the temporary key file. */
  datatype Disk = Disk(final: Node, staging: Node, key: Option<Key>, temp: Option<Key>)

  /** An edit: whether the target existed (as an empty directory), whether it is
      obfuscated, the key file found at the key path, whether that very file was
      given as input, and the tokens the edit starts out knowing. */
  datatype Plan = Plan(existed: bool, obfuscated: bool, found: Option<Key>, same: bool, known: set<string>)
  {
    /** An input key file is read before anything is written. */
    predicate Sensible() {
      && (found.Some? ==> found.value.synced)
      && (same ==> found.Some? && found.value.tokens <= known)
    }

    function Before(): Node {
      if existed then EMPTY else Absent
    }
  }

  /* ---------- Steps ---------- */

  datatype Pc =
    | Begin | Staged | Writing | Ended | Patched | ArcClosed | MetaWritten | MetaSynced
    | KeyTemp | KeyTempSynced | KeyBlocked | KeyPlaced | KeyDone | DirSynced
    | Refused | Cleared | Committed | CommitFailed | Failing | Failed

  /** What was to be removed and could not be. */
  datatype Leftover = KeyFile | TempFile | Staging

  /** What the process does next; `Fail` is any error return, and the actions called
      refused are removals that fail, which the process ignores. Tokens enter the token
      map by `MapTokens`. What is written holds mapped tokens only: that is the
      state the editor keeps at every item it writes. */
  datatype Action =
    | MakeStaging | OpenArchive | MapTokens(tokens: set<string>) | WriteEntries(tokens: set<string>) | WriteSentinel | PatchHead | CloseArchive
    | WriteMeta(tokens: set<string>) | SyncMeta | WriteKeyTemp | SyncKeyTemp | PlaceKey | DropKeyTemp
    | SyncDir | Rename | RenameRefused | RemoveFinal | Fail | RemoveKey | Discard
    | DropRefused | FailDropRefused | RemoveKeyRefused | DiscardRefused(archive: Option<Arc>, meta: Option<Meta>)

  /** The process and the disk. `mapped` is the token map, `created` that the key
      file is new, `spared` what was not removed. */
  datatype State = State(pc: Pc, disk: Disk, mapped: set<string>, created: bool, spared: set<Leftover>)

  function Start(p: Plan): State {
    State(Begin, Disk(p.Before(), Absent, p.found, None), p.known, false, {})
  }

  /** An archive not closed yet. */
  function OpenArc(s: State): Arc {
    if s.disk.staging.Directory? && s.disk.staging.archive.Some? then s.disk.staging.archive.value else Arc(false, false, {}, false)
  }

  function WithArc(s: State, a: Arc): Disk {
    s.disk.(staging := if s.disk.staging.Directory? then s.disk.staging.(archive := Some(a)) else s.disk.staging)
  }

  /** One step; an action that does not come next changes nothing. */
  function Apply(p: Plan, s: State, a: Action): State {
    match (s.pc, a)
    case (Begin, MakeStaging) => s.(pc := Staged, disk := s.disk.(staging := EMPTY))
    case (Staged, OpenArchive) => s.(pc := Writing, disk := WithArc(s, Arc(false, false, {}, false)))
    case (Writing, MapTokens(ts)) => s.(mapped := s.mapped + ts)
    case (ArcClosed, MapTokens(ts)) => s.(mapped := s.mapped + ts)
    case (Writing, WriteEntries(ts)) =>
      if ts <= s.mapped then s.(disk := WithArc(s, OpenArc(s).(tokens := OpenArc(s).tokens + ts))) else s
    case (Writing, WriteSentinel) => s.(pc := Ended, disk := WithArc(s, OpenArc(s).(sentinel := true)))
    case (Ended, PatchHead) => s.(pc := Patched, disk := WithArc(s, OpenArc(s).(patched := true)))
    case (Patched, CloseArchive) => s.(pc := ArcClosed, disk := WithArc(s, OpenArc(s).(synced := true)))
    case (ArcClosed, WriteMeta(ts)) =>
      if !(ts <= s.mapped) then s
      else s.(pc := MetaWritten,
              disk := s.disk.(staging := if s.disk.staging.Directory? then s.disk.staging.(meta := Some(Meta(ts, false))) else s.disk.staging))
    case (MetaWritten, SyncMeta) =>
      s.(pc := MetaSynced,
         disk := s.disk.(staging := if s.disk.staging.Directory? && s.disk.staging.meta.Some?
                                    then s.disk.staging.(meta := Some(s.disk.staging.meta.value.(synced := true))) else s.disk.staging))
    case (MetaSynced, WriteKeyTemp) => if p.obfuscated then s.(pc := KeyTemp, disk := s.disk.(temp := Some(Key(s.mapped, false)))) else s
    case (MetaSynced, SyncDir) => if p.obfuscated then s else s.(pc := DirSynced)
    case (KeyTemp, SyncKeyTemp) => s.(pc := KeyTempSynced, disk := s.disk.(temp := Some(Key(s.mapped, true))))
    case (KeyTempSynced, PlaceKey) =>
      if p.same then s.(pc := KeyPlaced, disk := s.disk.(key := s.disk.temp, temp := None))
      else if s.disk.key.None? then s.(pc := KeyPlaced, disk := s.disk.(key := s.disk.temp), created := true)
      else s.(pc := KeyBlocked)
    case (KeyTemp, FailDropRefused) => s.(pc := Failing, spared := s.spared + {TempFile})
    case (KeyTempSynced, FailDropRefused) => s.(pc := Failing, spared := s.spared + {TempFile})
    case (KeyBlocked, FailDropRefused) => s.(pc := Failing, spared := s.spared + {TempFile})
    case (KeyPlaced, DropRefused) => if s.disk.temp.Some? then s.(pc := KeyDone, spared := s.spared + {TempFile}) else s
    case (KeyPlaced, DropKeyTemp) => s.(pc := KeyDone, disk := s.disk.(temp := None))
    case (KeyDone, SyncDir) => s.(pc := DirSynced)
    case (DirSynced, Rename) => s.(pc := Committed, disk := s.disk.(final := s.disk.staging, staging := Absent))
    case (DirSynced, RenameRefused) => s.(pc := if p.existed then Refused else CommitFailed)
    case (Refused, RemoveFinal) => s.(pc := Cleared, disk := s.disk.(final := Absent))
    case (Cleared, Rename) => s.(pc := Committed, disk := s.disk.(final := s.disk.staging, staging := Absent))
    case (CommitFailed, RemoveKey) => s.(pc := Failing, disk := s.disk.(key := if s.created then None else s.disk.key))
    case (CommitFailed, RemoveKeyRefused) => if s.created then s.(pc := Failing, spared := s.spared + {KeyFile}) else s
    case (Failing, DiscardRefused(arc, meta)) =>
      if s.disk.staging.Directory? then s.(pc := Failed, disk := s.disk.(staging := Directory(arc, meta)), spared := s.spared + {Staging}) else s
    case (Failing, Discard) => s.(pc := Failed, disk := s.disk.(staging := Absent))
    case (DirSynced, Fail) => s.(pc := CommitFailed)
    case (Refused, Fail) => s.(pc := CommitFailed)
    case (Cleared, Fail) => s.(pc := CommitFailed)
    case (Committed, _) => s
    case (CommitFailed, _) => s
    case (Failing, _) => s
    case (Failed, _) => s
    case (KeyPlaced, _) => s
    case (KeyDone, _) => s
    case (_, Fail) => s.(pc := Failing, disk := s.disk.(temp := None))
    case _ => s
  }

  function Run(p: Plan, actions: seq<Action>): State {
    if actions == [] then Start(p) else Apply(p, Run(p, actions[..|actions| - 1]), actions[|actions| - 1])
  }

  /* ---------- Crashes ---------- */

  /** A file keeps its bytes once synced; before that, anything may be left. */
  predicate ArcSurvives(a: Option<Arc>, b: Option<Arc>) {
    a.Some? == b.Some? && (a.Some? && a.value.synced ==> b == a)
  }

  predicate MetaSurvives(a: Option<Meta>, b: Option<Meta>) {
    a.Some? == b.Some? && (a.Some? && a.value.synced ==> b == a)
  }

  predicate KeySurvives(a: Option<Key>, b: Option<Key>) {
    a.Some? == b.Some? && (a.Some? && a.value.synced ==> b == a)
  }

  predicate NodeSurvives(a: Node, b: Node) {
    a.Directory? == b.Directory? && (a.Directory? ==> ArcSurvives(a.archive, b.archive) && MetaSurvives(a.meta, b.meta))
  }

  predicate Survives(a: Disk, b: Disk) {
    NodeSurvives(a.final, b.final) && NodeSurvives(a.staging, b.staging) && KeySurvives(a.key, b.key) && KeySurvives(a.temp, b.temp)
  }

  /** A backup anyone would accept: patched head, sentinel and meta file. */
  predicate Complete(n: Node) {
    n.Directory? && n.archive.Some? && n.archive.value.patched && n.archive.value.sentinel && n.meta.Some?
  }

  function Tokens(n: Node): set<string> {
    if n.Directory? then
      (if n.archive.Some? then n.archive.value.tokens else {}) + if n.meta.Some? then n.meta.value.tokens else {}
    else {}
  }

  /* ---------- The invariant ---------- */

  predicate StagingDone(s: State) {
    var n := s.disk.staging;
    Complete(n) && n.archive.value.synced && n.meta.value.synced && Tokens(n) <= s.mapped
  }

  /** How far the staging directory has come at each point. */
  predicate StagingOk(s: State) {
    var n := s.disk.staging;
    match s.pc
    case Begin => n == Absent
    case Staged => n == EMPTY
    case Writing => n == Directory(Some(Arc(false, false, OpenArc(s).tokens, false)), None) && Tokens(n) <= s.mapped
    case Ended => n == Directory(Some(Arc(false, true, OpenArc(s).tokens, false)), None) && Tokens(n) <= s.mapped
    case Patched => n == Directory(Some(Arc(true, true, OpenArc(s).tokens, false)), None) && Tokens(n) <= s.mapped
    case ArcClosed => n == Directory(Some(Arc(true, true, OpenArc(s).tokens, true)), None) && Tokens(n) <= s.mapped
    case MetaWritten => Complete(n) && n.archive.value.synced && Tokens(n) <= s.mapped
    case Committed => n == Absent
    case Failed => n == Absent <==> Staging !in s.spared
    case CommitFailed => true
    case Failing => true
    case _ => StagingDone(s)
  }

  /** The target path: as before, cleared on the way to a rename, or complete. */
  predicate FinalOk(p: Plan, s: State) {
    match s.pc
    case Committed => Complete(s.disk.final) && s.disk.final.archive.value.synced && s.disk.final.meta.value.synced && Tokens(s.disk.final) <= s.mapped
    case Refused => p.existed && s.disk.final == p.Before()
    case Cleared => p.existed && s.disk.final == Absent
    case CommitFailed => s.disk.final == p.Before() || (p.existed && s.disk.final == Absent)
    case Failing => s.disk.final == p.Before() || (p.existed && s.disk.final == Absent)
    case Failed => s.disk.final == p.Before() || (p.existed && s.disk.final == Absent)
    case _ => s.disk.final == p.Before()
  }

  predicate KeyIn(pc: Pc) {
    pc in {KeyPlaced, KeyDone, DirSynced, Refused, Cleared, Committed, CommitFailed}
  }

  /** Once placed, the key file of an obfuscated edit holds the whole token map. */
  predicate KeyPlacedOk(p: Plan, s: State) {
    && (s.disk.key.Some? ==> s.disk.key.value.synced)
    && (p.obfuscated && KeyIn(s.pc) ==> s.disk.key == Some(Key(s.mapped, true)))
    && (p.found.Some? && !p.same && p.obfuscated ==> !KeyIn(s.pc))
  }

  /** A key file that was found stays, or grows when it is the edit's own. */
  predicate KeyFoundOk(p: Plan, s: State) {
    && (p.same ==> p.found.Some? && p.found.value.tokens <= s.mapped)
    && (p.same ==> s.disk.key.Some? && p.found.value.tokens <= s.disk.key.value.tokens)
    && (!s.created && !p.same ==> s.disk.key == p.found)
    && (!p.obfuscated ==> s.disk.key == p.found)
  }

  /** A new key file exists only between its placing and a failed commit. */
  predicate CreatedOk(p: Plan, s: State) {
    s.created ==>
      && p.obfuscated && !p.same && p.found.None?
      && (KeyIn(s.pc) || s.pc == Failing || s.pc == Failed)
      && (s.pc == Failing || s.pc == Failed ==> (s.disk.key.None? <==> KeyFile !in s.spared))
  }

  /** What was spared is there: a key file only where one was created and the commit
      failed, a temporary one outside the steps it belongs to. */
  predicate SparedOk(s: State) {
    && (KeyFile in s.spared ==> s.created && (s.pc == Failing || s.pc == Failed))
    && (TempFile in s.spared <==> s.disk.temp.Some? && s.pc !in {KeyTemp, KeyTempSynced, KeyBlocked, KeyPlaced})
    && (TempFile in s.spared ==> s.pc in {KeyDone, DirSynced, Refused, Cleared, Committed, CommitFailed, Failing, Failed})
    && (Staging in s.spared ==> s.pc == Failed)
  }

  predicate TempOk(p: Plan, s: State) {
    && (s.pc == KeyTemp || s.pc == KeyTempSynced ==> p.obfuscated && s.disk.temp == Some(Key(s.mapped, s.pc == KeyTempSynced)))
    && (s.pc == KeyBlocked ==> s.disk.temp.Some?)
    && (s.pc == KeyPlaced || s.pc == KeyDone ==> p.obfuscated)
  }

  predicate KeyOk(p: Plan, s: State) {
    KeyPlacedOk(p, s) && KeyFoundOk(p, s) && CreatedOk(p, s) && TempOk(p, s)
  }

  predicate Inv(p: Plan, s: State) {
    StagingOk(s) && FinalOk(p, s) && KeyOk(p, s) && SparedOk(s)
  }

  lemma StepKeepsStaging(p: Plan, s: State, a: Action)
    requires Inv(p, s)
    ensures StagingOk(Apply(p, s, a))
  {
    hide FinalOk; hide KeyOk;
  }

  lemma StepKeepsFinal(p: Plan, s: State, a: Action)
    requires Inv(p, s)
    ensures FinalOk(p, Apply(p, s, a))
  {
    hide KeyOk; hide SparedOk;
  }

  lemma StepKeepsKey(p: Plan, s: State, a: Action)
    requires KeyOk(p, s)
    ensures KeyPlacedOk(p, Apply(p, s, a)) && KeyFoundOk(p, Apply(p, s, a))
  {
    hide SparedOk; hide StagingOk; hide FinalOk;
  }

  lemma StepKeepsTemp(p: Plan, s: State, a: Action)
    requires KeyOk(p, s) && SparedOk(s)
    ensures CreatedOk(p, Apply(p, s, a)) && TempOk(p, Apply(p, s, a))
  {
  }

  lemma StepKeepsSpared(p: Plan, s: State, a: Action)
    requires KeyOk(p, s) && SparedOk(s)
    ensures SparedOk(Apply(p, s, a))
  {
  }

  lemma {:induction false} RunKeeps(p: Plan, actions: seq<Action>)
    requires p.Sensible()
    ensures Inv(p, Run(p, actions))
    decreases |actions|
  {
    if actions != [] {
      var s, a := Run(p, actions[..|actions| - 1]), actions[|actions| - 1];
      RunKeeps(p, actions[..|actions| - 1]);
      StepKeepsStaging(p, s, a);
      StepKeepsFinal(p, s, a);
      StepKeepsKey(p, s, a);
      StepKeepsTemp(p, s, a);
      StepKeepsSpared(p, s, a);
    }
  }

  /* ---------- Main results ---------- */

  /** After a crash at any point of any run, the target is absent, the empty
      directory it was, or a complete backup; once the edit has committed it is
      exactly the backup it wrote. */
  lemma CrashSafe(p: Plan, actions: seq<Action>, left: Disk)
    requires p.Sensible() && Survives(Run(p, actions).disk, left)
    ensures left.final == Absent || (p.existed && left.final == EMPTY) || Complete(left.final)
    ensures Run(p, actions).pc == Committed ==> left.final == Run(p, actions).disk.final && Complete(left.final)
  {
    RunKeeps(p, actions);
  }

  /** After a crash at any point of any run, a backup visible at the target of an
      obfuscated edit has a key file holding every hashed token of its archive and
      meta file. */
  lemma KeyBeforeBackup(p: Plan, actions: seq<Action>, left: Disk)
    requires p.Sensible() && p.obfuscated && Survives(Run(p, actions).disk, left)
    ensures Complete(left.final) ==> left.key.Some? && Tokens(left.final) <= left.key.value.tokens
  {
    RunKeeps(p, actions);
  }

  /** A key file that was not given as input is never touched, and an edit that
      finds one never commits; one that was given never loses a mapping. */
  lemma FoundKeyKept(p: Plan, actions: seq<Action>, left: Disk)
    requires p.Sensible() && p.found.Some? && Survives(Run(p, actions).disk, left)
    ensures !p.same ==> left.key == p.found
    ensures !p.same && p.obfuscated ==> !Complete(left.final)
    ensures p.same ==> left.key.Some? && p.found.value.tokens <= left.key.value.tokens
  {
    RunKeeps(p, actions);
  }

  /** A failed edit leaves behind precisely what it was refused to remove: of the
      staging directory, the temporary and a new key file. The target is as it was,
      unless an empty directory was removed for a rename that then failed. */
  lemma FailureLeavesNothing(p: Plan, actions: seq<Action>)
    requires p.Sensible() && Run(p, actions).pc == Failed
    ensures var s := Run(p, actions);
            && (s.disk.staging == Absent <==> Staging !in s.spared)
            && (s.disk.temp == None <==> TempFile !in s.spared)
            && (!p.same ==> (s.disk.key == p.found <==> KeyFile !in s.spared))
            && (s.disk.final == p.Before() || (p.existed && s.disk.final == Absent))
  {
    RunKeeps(p, actions);
  }

  predicate Refusal(a: Action) {
    a.DropRefused? || a.FailDropRefused? || a.RemoveKeyRefused? || a.DiscardRefused?
  }

  lemma ObligingStep(p: Plan, s: State, a: Action)
    requires !Refusal(a)
    ensures Apply(p, s, a).spared == s.spared
  {
  }

  /** Nothing is spared where no removal is refused. */
  lemma {:induction false} NothingSpared(p: Plan, actions: seq<Action>)
    requires forall i :: 0 <= i < |actions| ==> !Refusal(actions[i])
    ensures Run(p, actions).spared == {}
    decreases |actions|
  {
    hide Apply;
    if actions != [] {
      NothingSpared(p, actions[..|actions| - 1]);
      ObligingStep(p, Run(p, actions[..|actions| - 1]), actions[|actions| - 1]);
    }
  }

  /* ---------- When a key file is left, and what it blocks ---------- */

  /** A crash of an obfuscated edit that found no key file leaves one exactly when it
      comes between the placing of the key file and the end of a failed commit, or
      after a failed commit that could not remove it. */
  lemma CrashLeavesKey(p: Plan, actions: seq<Action>, left: Disk)
    requires p.Sensible() && p.obfuscated && p.found.None? && Survives(Run(p, actions).disk, left)
    ensures left.key.Some? <==> KeyIn(Run(p, actions).pc) || KeyFile in Run(p, actions).spared
  {
    RunKeeps(p, actions);
  }

  /** An edit can commit if and only if it does not run into a key file that was not
      given to it. */
  lemma CanCommitExactly(p: Plan)
    requires p.Sensible()
    ensures (exists actions :: Run(p, actions).pc == Committed) <==> !(p.obfuscated && p.found.Some? && !p.same)
  {
    hide Run; hide Inv;
    forall actions | Run(p, actions).pc == Committed ensures !(p.obfuscated && p.found.Some? && !p.same) {
      CommittedHasKey(p, actions);
    }
    if !(p.obfuscated && p.found.Some? && !p.same) {
      var actions := ToCommit(p);
    }
  }

  lemma ToCommit(p: Plan) returns (actions: seq<Action>)
    requires !(p.obfuscated && p.found.Some? && !p.same)
    ensures Run(p, actions).pc == Committed
  {
    hide Run;
    actions := ToDirSynced(p);
    actions := Extend(p, actions, Rename);
  }

  lemma ToDirSynced(p: Plan) returns (actions: seq<Action>)
    requires !(p.obfuscated && p.found.Some? && !p.same)
    ensures Run(p, actions).pc == DirSynced
  {
    hide Run;
    actions := ToPatched(p);
    actions := ToMeta(p, actions);
    if p.obfuscated {
      actions := ToKey(p, actions);
    }
    actions := Extend(p, actions, SyncDir);
  }

  /** Where the platform refuses to rename over the empty directory, the edit can
      commit by removing it first. */
  lemma CommitsByClearing(p: Plan) returns (actions: seq<Action>)
    requires p.Sensible() && p.existed && !(p.obfuscated && p.found.Some? && !p.same)
    ensures RenameRefused in actions && RemoveFinal in actions
    ensures Run(p, actions).pc == Committed && Complete(Run(p, actions).disk.final)
  {
    hide Run; hide Inv; hide Apply; hide Complete;
    var ready := ToDirSynced(p);
    ClearingSteps(p);
    var refused := Extend(p, ready, RenameRefused);
    var cleared := Extend(p, refused, RemoveFinal);
    actions := Extend(p, cleared, Rename);
    assert RemoveFinal in cleared;
    CommittedIsComplete(p, actions);
  }

  lemma ClearingSteps(p: Plan)
    requires p.existed
    ensures forall s: State :: s.pc == DirSynced ==> Apply(p, s, RenameRefused).pc == Refused
    ensures forall s: State :: s.pc == Refused ==> Apply(p, s, RemoveFinal).pc == Cleared
    ensures forall s: State :: s.pc == Cleared ==> Apply(p, s, Rename).pc == Committed
  {
  }

  lemma CommittedIsComplete(p: Plan, actions: seq<Action>)
    requires p.Sensible() && Run(p, actions).pc == Committed
    ensures Complete(Run(p, actions).disk.final)
  {
    hide Run;
    RunKeeps(p, actions);
  }

  lemma CommittedHasKey(p: Plan, actions: seq<Action>)
    requires p.Sensible() && Run(p, actions).pc == Committed
    ensures !(p.obfuscated && p.found.Some? && !p.same)
  {
    hide Run;
    RunKeeps(p, actions);
  }

  /** A retry after a crash that is not given the key file left behind can commit if
      and only if the crash left none: if and only if it came before the key file was
      placed or after a failed commit had removed it. */
  lemma CrashBlocksRetryExactly(p: Plan, actions: seq<Action>, left: Disk, retry: Plan)
    requires p.Sensible() && p.obfuscated && p.found.None? && Survives(Run(p, actions).disk, left)
    requires retry.Sensible() && retry.obfuscated && !retry.same && retry.found == left.key
    ensures (exists again :: Run(retry, again).pc == Committed) <==> !KeyIn(Run(p, actions).pc) && KeyFile !in Run(p, actions).spared
  {
    CrashLeavesKey(p, actions, left);
    hide Run; hide Survives;
    CanCommitExactly(retry);
  }

  /** Every obfuscated edit that finds no key file can crash so that it leaves a key
      file and no backup. */
  lemma CrashCanBlockRetry(p: Plan) returns (actions: seq<Action>)
    requires p.Sensible() && p.obfuscated && p.found.None?
    ensures KeyIn(Run(p, actions).pc) && !Complete(Run(p, actions).disk.final) && Survives(Run(p, actions).disk, Run(p, actions).disk)
  {
    hide Run; hide Inv;
    actions := ToPatched(p);
    actions := ToMeta(p, actions);
    actions := ToKey(p, actions);
    SurvivesItself(Run(p, actions).disk);
  }

  lemma SurvivesItself(d: Disk)
    ensures Survives(d, d)
  {
  }

  lemma Extend(p: Plan, actions: seq<Action>, a: Action) returns (more: seq<Action>)
    ensures more == actions + [a] && Run(p, more) == Apply(p, Run(p, actions), a)
  {
    more := actions + [a];
    assert more[..|actions|] == actions;
  }

  lemma RunEmpty(p: Plan)
    ensures Run(p, []) == Start(p)
  {
  }

  lemma ToPatched(p: Plan) returns (actions: seq<Action>)
    ensures var s := Run(p, actions); s.pc == Patched && s.disk.key == p.found && s.disk.final == p.Before()
  {
    hide Run;
    RunEmpty(p);
    actions := Extend(p, [], MakeStaging);
    actions := Extend(p, actions, OpenArchive);
    actions := Extend(p, actions, WriteSentinel);
    actions := Extend(p, actions, PatchHead);
  }

  lemma ToMeta(p: Plan, before: seq<Action>) returns (actions: seq<Action>)
    requires var s := Run(p, before); s.pc == Patched && s.disk.key == p.found && s.disk.final == p.Before()
    ensures var s := Run(p, actions); s.pc == MetaSynced && s.disk.key == p.found && s.disk.final == p.Before()
  {
    hide Run;
    actions := Extend(p, before, CloseArchive);
    actions := Extend(p, actions, WriteMeta({}));
    actions := Extend(p, actions, SyncMeta);
  }

  lemma ToKey(p: Plan, before: seq<Action>) returns (actions: seq<Action>)
    requires var s := Run(p, before); s.pc == MetaSynced && s.disk.key == p.found && s.disk.final == p.Before()
    requires p.obfuscated && (p.found.None? || p.same)
    ensures var s := Run(p, actions); s.pc == KeyDone && s.disk.final == p.Before()
  {
    hide Run;
    actions := Extend(p, before, WriteKeyTemp);
    actions := Extend(p, actions, SyncKeyTemp);
    actions := Extend(p, actions, PlaceKey);
    actions := Extend(p, actions, DropKeyTemp);
  }
}
