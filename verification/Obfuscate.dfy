/** Obfuscation (backup/obfuscate.go): identifying tokens are replaced by their
    keyed hashes, the mapping both ways is kept, and Reveal applies it backwards. */
module Obfuscate {
  import opened Text
  import opened Subjects
  import opened TokenHash
  import opened Archive
  import opened Filter

  const KV_STREAM_PREFIX := "KV_"
  const OBJ_STORE_PREFIX := "OBJ_"

  /* ---------- The token map ---------- */

  datatype TokenMap = TokenMap(forward: map<string, string>, reverse: map<string, string>)

  const EMPTY := TokenMap(map[], map[])

  /** The two maps are inverse to each other and every forward value is its hash. */
  ghost predicate Inverse(hash: string -> string, tm: TokenMap) {
    && (forall t :: t in tm.forward ==> tm.forward[t] == hash(t) && tm.forward[t] in tm.reverse && tm.reverse[tm.forward[t]] == t)
    && (forall h :: h in tm.reverse ==> tm.reverse[h] in tm.forward && tm.forward[tm.reverse[h]] == h)
  }

  predicate Collides(hash: string -> string, tm: TokenMap, tok: string) {
    hash(tok) in tm.reverse && tm.reverse[hash(tok)] != tok
  }

  function Learn(hash: string -> string, tm: TokenMap, tok: string): TokenMap {
    TokenMap(tm.forward[tok := hash(tok)], tm.reverse[hash(tok) := tok])
  }

  /** One call of token: the map afterwards, and the result or a collision. */
  function TokenStep(hash: string -> string, tm: TokenMap, tok: string): (TokenMap, Option<string>) {
    if tok == "" then (tm, Some(""))
    else if tok in tm.forward then (tm, Some(tm.forward[tok]))
    else if Collides(hash, tm, tok) then (tm, None)
    else (Learn(hash, tm, tok), Some(hash(tok)))
  }

  /** Every mapping of a key file matches the secret. */
  predicate Verifies(hash: string -> string, entries: map<string, string>) {
    forall h :: h in entries ==> hash(entries[h]) == h
  }

  /** The mappings outside `todo` are loaded. */
  ghost predicate Loaded(hash: string -> string, tm: TokenMap, entries: map<string, string>, todo: set<string>) {
    && todo <= entries.Keys && tm.reverse.Keys == entries.Keys - todo
    && Inverse(hash, tm) && (forall h :: h in tm.reverse ==> tm.reverse[h] == entries[h])
  }

  lemma LoadStep(hash: string -> string, tm: TokenMap, entries: map<string, string>, todo: set<string>, h: string)
    requires Loaded(hash, tm, entries, todo) && h in todo && hash(entries[h]) == h
    ensures Loaded(hash, Learn(hash, tm, entries[h]), entries, todo - {h})
  {
    assert h !in tm.reverse.Keys;
  }

  lemma LoadEnd(hash: string -> string, tm: TokenMap, entries: map<string, string>)
    requires Loaded(hash, tm, entries, {})
    ensures Inverse(hash, tm) && tm.reverse == entries && Verifies(hash, entries)
  {
    forall h | h in entries ensures hash(entries[h]) == h && h in tm.reverse {
      assert h in tm.reverse.Keys;
    }
  }

  /** `b` knows everything `a` knows. */
  predicate Extends(a: TokenMap, b: TokenMap) {
    a.forward.Keys <= b.forward.Keys
  }

  /** A later map answers everything an earlier one answers, both ways. */
  lemma ExtendsKeeps(hash: string -> string, a: TokenMap, b: TokenMap)
    requires Inverse(hash, a) && Inverse(hash, b) && Extends(a, b)
    ensures forall t :: t in a.forward ==> t in b.forward && b.forward[t] == a.forward[t]
    ensures forall h :: h in a.reverse ==> h in b.reverse && b.reverse[h] == a.reverse[h]
  {
    forall h | h in a.reverse ensures h in b.reverse && b.reverse[h] == a.reverse[h] {
      var t := a.reverse[h];
      assert t in a.forward.Keys && t in b.forward.Keys;
    }
    forall t | t in a.forward ensures t in b.forward {
      assert t in a.forward.Keys;
    }
  }

  function Hashed(hash: string -> string, tok: string): string {
    if tok == "" then "" else hash(tok)
  }

  /** A step keeps the map sound, loses nothing, and yields the hash; it fails
      exactly when another token already has that hash. */
  lemma TokenStepSound(hash: string -> string, tm: TokenMap, tok: string)
    requires Inverse(hash, tm)
    ensures var (tm', r) := TokenStep(hash, tm, tok);
            && Inverse(hash, tm') && Extends(tm, tm')
            && (r.None? <==> exists other :: other in tm.forward && other != tok && tok != "" && hash(other) == hash(tok))
            && (r.Some? ==> r.value == Hashed(hash, tok) && (tok == "" || tok in tm'.forward))
  {
    var (tm', r) := TokenStep(hash, tm, tok);
    if r.None? {
      var other := tm.reverse[hash(tok)];
      assert other in tm.forward && tm.forward[other] == hash(tok);
    }
  }

  /** The map after any sequence of token calls, failed ones included. */
  function AfterTokens(hash: string -> string, tm: TokenMap, toks: seq<string>): TokenMap {
    if toks == [] then tm
    else TokenStep(hash, AfterTokens(hash, tm, toks[..|toks| - 1]), toks[|toks| - 1]).0
  }

  lemma {:induction false} RunSound(hash: string -> string, tm: TokenMap, toks: seq<string>)
    requires Inverse(hash, tm)
    ensures Inverse(hash, AfterTokens(hash, tm, toks)) && Extends(tm, AfterTokens(hash, tm, toks))
    decreases |toks|
  {
    if toks != [] {
      RunSound(hash, tm, toks[..|toks| - 1]);
      TokenStepSound(hash, AfterTokens(hash, tm, toks[..|toks| - 1]), toks[|toks| - 1]);
    }
  }

  /** Known tokens have distinct hashes. */
  lemma KnownInjective(hash: string -> string, tm: TokenMap, a: string, b: string)
    requires Inverse(hash, tm) && a in tm.forward && b in tm.forward
    ensures hash(a) == hash(b) <==> a == b
  {
    assert tm.reverse[tm.forward[a]] == a && tm.reverse[tm.forward[b]] == b;
  }

  /* ---------- What an operation hashes ---------- */

  /** No two of the tokens have the same hash. */
  predicate Injective(hash: string -> string, toks: set<string>) {
    forall a, b :: a in toks && b in toks && hash(a) == hash(b) ==> a == b
  }

  /** An operation that hashes the tokens `needs` turned the known tokens from
      `before` to `after`: it went through exactly when no two tokens collide, and
      then knows them all. */
  ghost predicate Learned(hash: string -> string, before: set<string>, after: set<string>, needs: set<string>, ok: bool) {
    && before <= after
    && (ok <==> Injective(hash, before + needs))
    && (ok ==> after == before + needs)
  }

  lemma KnownAreInjective(hash: string -> string, tm: TokenMap)
    requires Inverse(hash, tm)
    ensures Injective(hash, tm.forward.Keys)
  {
    forall a, b | a in tm.forward.Keys && b in tm.forward.Keys && hash(a) == hash(b) ensures a == b {
      KnownInjective(hash, tm, a, b);
    }
  }

  lemma LearnedNothing(hash: string -> string, known: set<string>)
    requires Injective(hash, known)
    ensures Learned(hash, known, known, {}, true)
  {
    assert known + {} == known;
  }

  lemma LearnedThen(hash: string -> string, a: set<string>, first: set<string>, b: set<string>, second: set<string>, c: set<string>, ok: bool)
    requires Learned(hash, a, b, first, true) && Learned(hash, b, c, second, ok)
    ensures Learned(hash, a, c, first + second, ok)
  {
    assert a + (first + second) == b + second;
  }

  lemma LearnedNoMore(hash: string -> string, a: set<string>, b: set<string>, part: set<string>, whole: set<string>)
    requires Learned(hash, a, b, part, false) && part <= whole
    ensures Learned(hash, a, b, whole, false)
  {
    assert a + part <= a + whole;
  }

  /** What a list of things hashes, each of them hashing `need`. */
  function NeedsOf<T>(need: T -> set<string>, xs: seq<T>): set<string> {
    if xs == [] then {} else NeedsOf(need, xs[..|xs| - 1]) + need(xs[|xs| - 1])
  }

  lemma {:induction false} NeedsPrefix<T>(need: T -> set<string>, xs: seq<T>, i: nat)
    requires i <= |xs|
    ensures NeedsOf(need, xs[..i]) <= NeedsOf(need, xs)
    decreases |xs|
  {
    if i == |xs| {
      assert xs[..i] == xs;
    } else {
      NeedsPrefix(need, xs[..|xs| - 1], i);
      assert xs[..|xs| - 1][..i] == xs[..i];
    }
  }

  /** The list read so far, and one more. */
  lemma NeedsNext<T>(need: T -> set<string>, xs: seq<T>, i: nat)
    requires i < |xs|
    ensures NeedsOf(need, xs[..i + 1]) == NeedsOf(need, xs[..i]) + need(xs[i])
    ensures NeedsOf(need, xs[..i + 1]) <= NeedsOf(need, xs)
  {
    assert xs[..i + 1][..i] == xs[..i];
    NeedsPrefix(need, xs, i + 1);
  }

  lemma {:induction false} NeedsMember<T>(need: T -> set<string>, xs: seq<T>, i: nat)
    requires i < |xs|
    ensures need(xs[i]) <= NeedsOf(need, xs)
    decreases |xs|
  {
    if i < |xs| - 1 {
      NeedsMember(need, xs[..|xs| - 1], i);
    }
  }

  /** One turn of a loop that hashes a list. */
  lemma LearnedNext<T>(hash: string -> string, need: T -> set<string>, xs: seq<T>, i: nat,
                       a: set<string>, b: set<string>, c: set<string>, ok: bool)
    requires i < |xs| && Learned(hash, a, b, NeedsOf(need, xs[..i]), true) && Learned(hash, b, c, need(xs[i]), ok)
    ensures if ok then Learned(hash, a, c, NeedsOf(need, xs[..i + 1]), true) else Learned(hash, a, c, NeedsOf(need, xs), false)
  {
    hide Learned; hide NeedsOf;
    NeedsNext(need, xs, i);
    LearnedThen(hash, a, NeedsOf(need, xs[..i]), b, need(xs[i]), c, ok);
    if !ok {
      LearnedNoMore(hash, a, c, NeedsOf(need, xs[..i + 1]), NeedsOf(need, xs));
    }
  }

  /** A token is hashed unless it is empty. */
  function TokenNeeds(): string -> set<string> {
    (tok: string) => if tok == "" then {} else {tok}
  }

  /** The map that knows exactly these tokens. */
  ghost function MapOf(hash: string -> string, toks: set<string>): TokenMap {
    TokenMap(map t | t in toks :: hash(t), map h | h in (set t | t in toks :: hash(t)) :: Original(hash, toks, h))
  }

  ghost function Original(hash: string -> string, toks: set<string>, h: string): (t: string)
    requires h in (set x | x in toks :: hash(x))
    ensures t in toks && hash(t) == h
  {
    var t :| t in toks && hash(t) == h;
    t
  }

  /** Tokens that do not collide can all be known. */
  lemma MapOfSound(hash: string -> string, toks: set<string>)
    requires Injective(hash, toks)
    ensures Inverse(hash, MapOf(hash, toks)) && MapOf(hash, toks).forward.Keys == toks
  {
    var tm := MapOf(hash, toks);
    forall t | t in tm.forward ensures tm.forward[t] == hash(t) && hash(t) in tm.reverse && tm.reverse[hash(t)] == t {
      assert hash(t) in (set x | x in toks :: hash(x));
    }
  }

  /* ---------- Subjects and stream names ---------- */

  predicate MappingFunction(tok: string) {
    "{{" <= tok && |tok| >= 2 && tok[|tok| - 2..] == "}}"
  }

  /** Tokens that pass through: wildcards, the $KV and $O roots, and mapping
      functions where those are allowed. */
  predicate Passes(mapping: bool, tok: string) {
    tok == "*" || tok == ">" || tok == "$KV" || tok == "$O" || (mapping && MappingFunction(tok))
  }

  function ObfToken(hash: string -> string, mapping: bool, tok: string): string {
    if Passes(mapping, tok) then tok else Hashed(hash, tok)
  }

  function ObfTokens(hash: string -> string, mapping: bool, toks: seq<string>): (r: seq<string>)
    ensures |r| == |toks| && forall i :: 0 <= i < |r| ==> r[i] == ObfToken(hash, mapping, toks[i])
  {
    seq(|toks|, i requires 0 <= i < |toks| => ObfToken(hash, mapping, toks[i]))
  }

  function ObfSubject(hash: string -> string, mapping: bool, subj: string): string {
    if subj == "" then "" else Join(ObfTokens(hash, mapping, Split(subj, '.')), '.')
  }

  /** A stream name as the prefix that stays and the token that is hashed. */
  function StreamParts(name: string): (r: (string, string))
    ensures name == r.0 + r.1 && r.0 in {"", KV_STREAM_PREFIX, OBJ_STORE_PREFIX}
  {
    var kv, obj := CutPrefix(name, KV_STREAM_PREFIX), CutPrefix(name, OBJ_STORE_PREFIX);
    if kv.Some? && kv.value != "" then (KV_STREAM_PREFIX, kv.value)
    else if obj.Some? && obj.value != "" then (OBJ_STORE_PREFIX, obj.value)
    else ("", name)
  }

  function ObfStreamName(hash: string -> string, name: string): string {
    StreamParts(name).0 + Hashed(hash, StreamParts(name).1)
  }

  /** Every token that is hashed is in the map. */
  predicate Knows(tm: TokenMap, mapping: bool, toks: seq<string>) {
    forall i :: 0 <= i < |toks| ==> Passes(mapping, toks[i]) || toks[i] == "" || toks[i] in tm.forward
  }

  predicate KnowsSubject(tm: TokenMap, mapping: bool, subj: string) {
    Knows(tm, mapping, Split(subj, '.'))
  }

  function PartNeeds(mapping: bool): string -> set<string> {
    (tok: string) => if Passes(mapping, tok) || tok == "" then {} else {tok}
  }

  /** The tokens of a subject that are hashed. */
  function SubjectNeeds(mapping: bool, subj: string): set<string> {
    NeedsOf(PartNeeds(mapping), Split(subj, '.'))
  }

  function SubjectsNeed(): string -> set<string> {
    (subj: string) => SubjectNeeds(false, subj)
  }

  lemma {:induction false} NeedsKnown(tm: TokenMap, mapping: bool, toks: seq<string>)
    ensures Knows(tm, mapping, toks) <==> NeedsOf(PartNeeds(mapping), toks) <= tm.forward.Keys
    decreases |toks|
  {
    if toks != [] {
      var n := |toks| - 1;
      NeedsKnown(tm, mapping, toks[..n]);
      assert forall i :: 0 <= i < n ==> toks[i] == toks[..n][i];
      assert PartNeeds(mapping)(toks[n]) <= tm.forward.Keys <==> Passes(mapping, toks[n]) || toks[n] == "" || toks[n] in tm.forward;
    }
  }

  /** A map knows a subject exactly when it knows what the subject hashes. */
  lemma SubjectNeedsKnown(tm: TokenMap, mapping: bool, subj: string)
    ensures KnowsSubject(tm, mapping, subj) <==> SubjectNeeds(mapping, subj) <= tm.forward.Keys
  {
    NeedsKnown(tm, mapping, Split(subj, '.'));
  }

  /** The first `i` tokens are rewritten. */
  predicate Rewritten(hash: string -> string, mapping: bool, toks: seq<string>, out: seq<string>, i: nat) {
    && i <= |out| == |toks|
    && (forall j :: 0 <= j < i ==> out[j] == ObfToken(hash, mapping, toks[j]))
    && (forall j :: i <= j < |toks| ==> out[j] == toks[j])
  }

  /* ---------- Headers and consumer documents ---------- */

  /** How a header's values are rewritten: control headers stay, some hold
      subjects, every other value is hashed whole. */
  datatype HeaderKind = Verbatim | SubjectValued | Plain

  function ObfValue(hash: string -> string, kind: HeaderKind, val: string): string {
    match kind
    case Verbatim => val
    case SubjectValued => ObfSubject(hash, false, val)
    case Plain => Hashed(hash, val)
  }

  function ObfValues(hash: string -> string, kind: HeaderKind, vals: seq<string>): seq<string> {
    if vals == [] then [] else ObfValues(hash, kind, vals[..|vals| - 1]) + [ObfValue(hash, kind, vals[|vals| - 1])]
  }

  function ObfHeader(hash: string -> string, kinds: string -> HeaderKind, h: Header): Header {
    map k | k in h && h[k] != [] :: ObfValues(hash, kinds(k), h[k])
  }

  /** encodeHeaders yields nothing for no headers. */
  function HeaderBlock(render: Header -> seq<byte>, h: Header): seq<byte> {
    if h == map[] then [] else render(h)
  }

  /** The identifying fields of a consumer document: names and groups are tokens,
      filters and deliver subjects are subjects. */
  datatype Fields = Fields(tokens: seq<string>, subjects: seq<string>)

  function HashedAll(hash: string -> string, toks: seq<string>): seq<string> {
    if toks == [] then [] else HashedAll(hash, toks[..|toks| - 1]) + [Hashed(hash, toks[|toks| - 1])]
  }

  function ObfSubjects(hash: string -> string, subjects: seq<string>): seq<string> {
    if subjects == [] then []
    else ObfSubjects(hash, subjects[..|subjects| - 1]) + [ObfSubject(hash, false, subjects[|subjects| - 1])]
  }

  function ObfFields(hash: string -> string, f: Fields): Fields {
    Fields(HashedAll(hash, f.tokens), ObfSubjects(hash, f.subjects))
  }

  function ValueNeeds(kind: HeaderKind): string -> set<string> {
    (val: string) =>
      match kind
      case Verbatim => {}
      case SubjectValued => SubjectNeeds(false, val)
      case Plain => TokenNeeds()(val)
  }

  /** What the values of some header keys hash. */
  function HeaderNeeds(kinds: string -> HeaderKind, h: Header): set<string> {
    set k, t | k in h && t in NeedsOf(ValueNeeds(kinds(k)), h[k]) :: t
  }

  function MessageNeeds(kinds: string -> HeaderKind, subject: string, h: Header): set<string> {
    SubjectNeeds(false, subject) + HeaderNeeds(kinds, h)
  }

  function ConsumerNeeds(name: string, f: Fields): set<string> {
    NeedsOf(TokenNeeds(), f.tokens) + NeedsOf(SubjectsNeed(), f.subjects) + TokenNeeds()(name)
  }

  lemma HeaderNeedsStep(kinds: string -> HeaderKind, h: Header, todo: set<string>, key: string)
    requires key in todo && todo <= h.Keys
    ensures HeaderNeeds(kinds, h - (todo - {key})) == HeaderNeeds(kinds, h - todo) + NeedsOf(ValueNeeds(kinds(key)), h[key])
    ensures HeaderNeeds(kinds, h - (todo - {key})) <= HeaderNeeds(kinds, h)
  {
    hide NeedsOf;
    var a, b := h - (todo - {key}), h - todo;
    assert a.Keys == b.Keys + {key} && a[key] == h[key] && forall k :: k in b ==> a[k] == b[k] == h[k];
  }

  lemma {:induction false} VerbatimKept(hash: string -> string, vals: seq<string>)
    ensures ObfValues(hash, Verbatim, vals) == vals
    decreases |vals|
  {
    if vals != [] {
      VerbatimKept(hash, vals[..|vals| - 1]);
    }
  }

  /** Control headers stay verbatim, so a KV delete or a limit marker is still one
      after obfuscation. */
  lemma TombstonesSurvive(hash: string -> string, kinds: string -> HeaderKind, h: Header)
    requires kinds("KV-Operation") == Verbatim && kinds("Nats-Marker-Reason") == Verbatim
    ensures IsTombstone(ObfHeader(hash, kinds, h)) <==> IsTombstone(h)
  {
    var o := ObfHeader(hash, kinds, h);
    forall k | kinds(k) == Verbatim ensures HeaderGet(o, k) == HeaderGet(h, k) {
      if k in h {
        VerbatimKept(hash, h[k]);
      }
    }
  }

  class Obfuscator {
    const mac: Mac
    const hash: string -> string := KeyedHash(mac)
    var forward: map<string, string>
    var reverse: map<string, string>
    var bodies: nat

    ghost function Value(): TokenMap
      reads this
    {
      TokenMap(forward, reverse)
    }

    ghost predicate Valid()
      reads this
    {
      Inverse(hash, Value())
    }

    /** newObfuscator without a key file. */
    constructor (mac: Mac)
      ensures Valid() && this.mac == mac && Value() == EMPTY && bodies == 0
    {
      this.mac, forward, reverse, bodies := mac, map[], map[], 0;
    }

    /** newObfuscator from a key file's mappings, each verified against the secret. */
    method Load(entries: map<string, string>) returns (ok: bool)
      requires Valid() && Value() == EMPTY
      modifies this`forward, this`reverse
      ensures ok <==> Verifies(hash, entries)
      ensures ok ==> Valid() && reverse == entries
    {
      var todo := entries.Keys;
      while todo != {}
        invariant Loaded(hash, Value(), entries, todo)
        decreases |todo|
      {
        var hashed :| hashed in todo;
        var original := entries[hashed];
        if hash(original) != hashed {
          assert !Verifies(hash, entries);
          return false;
        }
        LoadStep(hash, Value(), entries, todo, hashed);
        forward, reverse, todo := forward[original := hashed], reverse[hashed := original], todo - {hashed};
      }
      LoadEnd(hash, Value(), entries);
      return true;
    }

    method Token(tok: string) returns (r: Option<string>)
      requires Valid()
      modifies this`forward, this`reverse
      ensures (Value(), r) == TokenStep(hash, old(Value()), tok)
      ensures Valid() && Learned(hash, old(forward.Keys), forward.Keys, TokenNeeds()(tok), r.Some?)
      ensures r.Some? ==> r.value == Hashed(hash, tok)
    {
      TokenStepSound(hash, Value(), tok);
      TokenLearns(hash, Value(), tok);
      if tok == "" {
        return Some(tok);
      }
      if tok in forward {
        return Some(forward[tok]);
      }
      var h := Hash(mac, tok);
      if h in reverse && reverse[h] != tok {
        return None;
      }
      forward := forward[tok := h];
      reverse := reverse[h := tok];
      return Some(h);
    }

    method RewriteSubject(subj: string, mapping: bool) returns (r: Option<string>)
      requires Valid()
      modifies this`forward, this`reverse
      ensures Valid() && Learned(hash, old(forward.Keys), forward.Keys, SubjectNeeds(mapping, subj), r.Some?)
      ensures r.Some? ==> r.value == ObfSubject(hash, mapping, subj)
    {
      hide Learned; hide Split; hide TokenStep; hide Inverse; hide NeedsOf; hide MappingFunction;
      ghost var need, known := PartNeeds(mapping), forward.Keys;
      Starts();
      if subj == "" {
        EmptySubject(mapping);
        return Some(subj);
      }
      var toks := Split(subj, '.');
      var out := toks;
      NothingNeeded(need, toks);
      for i := 0 to |toks|
        invariant Valid() && Learned(hash, known, forward.Keys, NeedsOf(need, toks[..i]), true)
        invariant Rewritten(hash, mapping, toks, out, i)
      {
        var tok := toks[i];
        ghost var mid := forward.Keys;
        Starts();
        if tok == "*" || tok == ">" || tok == "$KV" || tok == "$O" {
          LearnedNext(hash, need, toks, i, known, mid, mid, true);
        } else if mapping && MappingFunction(tok) {
          LearnedNext(hash, need, toks, i, known, mid, mid, true);
        } else {
          var h := Token(tok);
          LearnedNext(hash, need, toks, i, known, mid, forward.Keys, h.Some?);
          if h.None? {
            return None;
          }
          out := out[i := h.value];
        }
      }
      assert out == ObfTokens(hash, mapping, toks) && toks[..|toks|] == toks;
      return Some(Join(out, '.'));
    }

    /** Before anything is hashed. */
    lemma Starts()
      requires Valid()
      ensures Learned(hash, forward.Keys, forward.Keys, {}, true)
    {
      KnownAreInjective(hash, Value());
      LearnedNothing(hash, forward.Keys);
    }

    method StreamName(name: string) returns (r: Option<string>)
      requires Valid()
      modifies this`forward, this`reverse
      ensures Valid() && Learned(hash, old(forward.Keys), forward.Keys, TokenNeeds()(StreamParts(name).1), r.Some?)
      ensures r.Some? ==> r.value == ObfStreamName(hash, name)
    {
      hide Learned; hide Inverse; hide TokenStep;
      var prefixes := [KV_STREAM_PREFIX, OBJ_STORE_PREFIX];
      for i := 0 to 2
        invariant Value() == old(Value())
        invariant i >= 1 ==> CutPrefix(name, KV_STREAM_PREFIX) in {None, Some("")}
        invariant i >= 2 ==> CutPrefix(name, OBJ_STORE_PREFIX) in {None, Some("")}
      {
        var cut := CutPrefix(name, prefixes[i]);
        if cut.Some? && cut.value != "" {
          assert StreamParts(name) == (prefixes[i], cut.value);
          var h := Token(cut.value);
          return if h.Some? then Some(prefixes[i] + h.value) else None;
        }
      }
      assert StreamParts(name) == ("", name);
      r := Token(name);
      assert r.Some? ==> "" + r.value == r.value;
    }

    method HeaderValue(kind: HeaderKind, val: string) returns (r: Option<string>)
      requires Valid()
      modifies this`forward, this`reverse
      ensures Valid() && Learned(hash, old(forward.Keys), forward.Keys, ValueNeeds(kind)(val), r.Some?)
      ensures r.Some? ==> r.value == ObfValue(hash, kind, val)
    {
      hide Learned; hide Inverse; hide TokenStep; hide ObfSubject; hide SubjectNeeds;
      match kind
      case Verbatim =>
        Starts();
        r := Some(val);
      case SubjectValued => r := RewriteSubject(val, false);
      case Plain => r := Token(val);
    }

    method HeaderValues(kind: HeaderKind, vals: seq<string>) returns (r: Option<seq<string>>)
      requires Valid()
      modifies this`forward, this`reverse
      ensures Valid() && Learned(hash, old(forward.Keys), forward.Keys, NeedsOf(ValueNeeds(kind), vals), r.Some?)
      ensures r.Some? ==> r.value == ObfValues(hash, kind, vals)
    {
      hide Learned; hide Inverse; hide NeedsOf; hide ObfValue; hide ValueNeeds;
      ghost var need, known := ValueNeeds(kind), forward.Keys;
      var out := [];
      Starts();
      NothingNeeded(need, vals);
      for i := 0 to |vals|
        invariant Valid() && Learned(hash, known, forward.Keys, NeedsOf(need, vals[..i]), true)
        invariant out == ObfValues(hash, kind, vals[..i])
      {
        ghost var mid := forward.Keys;
        var v := HeaderValue(kind, vals[i]);
        LearnedNext(hash, need, vals, i, known, mid, forward.Keys, v.Some?);
        if v.None? {
          return None;
        }
        out := out + [v.value];
        assert vals[..i + 1][..i] == vals[..i];
      }
      assert vals[..|vals|] == vals;
      return Some(out);
    }

    /** The header loop of message; the keys come in any order. */
    method Headers(kinds: string -> HeaderKind, h: Header) returns (r: Option<Header>)
      requires Valid()
      modifies this`forward, this`reverse
      ensures Valid() && Learned(hash, old(forward.Keys), forward.Keys, HeaderNeeds(kinds, h), r.Some?)
      ensures r.Some? ==> r.value == ObfHeader(hash, kinds, h)
    {
      hide Learned; hide Inverse; hide HeaderNeeds; hide ObfHeader; hide ObfValues; hide NeedsOf; hide ValueNeeds;
      ghost var known := forward.Keys;
      var mapped: Header := map[];
      var todo := h.Keys;
      Starts();
      NoHeaders(hash, kinds, h);
      while todo != {}
        invariant todo <= h.Keys && Valid()
        invariant Learned(hash, known, forward.Keys, HeaderNeeds(kinds, h - todo), true)
        invariant mapped == ObfHeader(hash, kinds, h - todo)
        decreases |todo|
      {
        var key :| key in todo;
        ghost var mid, done := forward.Keys, HeaderNeeds(kinds, h - todo);
        var vals := HeaderValues(kinds(key), h[key]);
        LearnedThen(hash, known, done, mid, NeedsOf(ValueNeeds(kinds(key)), h[key]), forward.Keys, vals.Some?);
        HeaderNeedsStep(kinds, h, todo, key);
        if vals.None? {
          LearnedNoMore(hash, known, forward.Keys, HeaderNeeds(kinds, h - (todo - {key})), HeaderNeeds(kinds, h));
          return None;
        }
        if h[key] != [] {
          mapped := mapped[key := vals.value];
        }
        HeaderStep(hash, kinds, h, todo, key);
        todo := todo - {key};
      }
      assert h - todo == h;
      return Some(mapped);
    }

    /** message: the rewritten subject and header block. */
    method Message(kinds: string -> HeaderKind, render: Header -> seq<byte>, subject: string, h: Header)
        returns (r: Option<(string, seq<byte>)>)
      requires Valid()
      modifies this`forward, this`reverse
      ensures Valid() && Learned(hash, old(forward.Keys), forward.Keys, MessageNeeds(kinds, subject, h), r.Some?)
      ensures r.Some? ==> r.value == (ObfSubject(hash, false, subject), HeaderBlock(render, ObfHeader(hash, kinds, h)))
    {
      hide Learned; hide Inverse; hide SubjectNeeds; hide HeaderNeeds; hide ObfHeader; hide ObfSubject;
      ghost var known, subjectNeeds := forward.Keys, SubjectNeeds(false, subject);
      var subj := RewriteSubject(subject, false);
      ghost var mid := forward.Keys;
      if subj.None? {
        LearnedNoMore(hash, known, mid, subjectNeeds, MessageNeeds(kinds, subject, h));
        return None;
      }
      var mapped := Headers(kinds, h);
      LearnedThen(hash, known, subjectNeeds, mid, HeaderNeeds(kinds, h), forward.Keys, mapped.Some?);
      if mapped.None? {
        return None;
      }
      return Some((subj.value, HeaderBlock(render, mapped.value)));
    }

    method TokenList(toks: seq<string>) returns (r: Option<seq<string>>)
      requires Valid()
      modifies this`forward, this`reverse
      ensures Valid() && Learned(hash, old(forward.Keys), forward.Keys, NeedsOf(TokenNeeds(), toks), r.Some?)
      ensures r.Some? ==> r.value == HashedAll(hash, toks)
    {
      hide Learned; hide Inverse; hide NeedsOf; hide TokenStep; hide TokenNeeds;
      ghost var need, known := TokenNeeds(), forward.Keys;
      var out := [];
      Starts();
      NothingNeeded(need, toks);
      for i := 0 to |toks|
        invariant Valid() && Learned(hash, known, forward.Keys, NeedsOf(need, toks[..i]), true)
        invariant out == HashedAll(hash, toks[..i])
      {
        ghost var mid := forward.Keys;
        var t := Token(toks[i]);
        LearnedNext(hash, need, toks, i, known, mid, forward.Keys, t.Some?);
        if t.None? {
          return None;
        }
        out := out + [t.value];
        assert toks[..i + 1][..i] == toks[..i];
      }
      assert toks[..|toks|] == toks;
      return Some(out);
    }

    /** subjects */
    method SubjectList(subjects: seq<string>) returns (r: Option<seq<string>>)
      requires Valid()
      modifies this`forward, this`reverse
      ensures Valid() && Learned(hash, old(forward.Keys), forward.Keys, NeedsOf(SubjectsNeed(), subjects), r.Some?)
      ensures r.Some? ==> r.value == ObfSubjects(hash, subjects)
    {
      hide Learned; hide Inverse; hide NeedsOf; hide ObfSubject; hide SubjectNeeds;
      ghost var need, known := SubjectsNeed(), forward.Keys;
      var out := [];
      Starts();
      NothingNeeded(need, subjects);
      for i := 0 to |subjects|
        invariant Valid() && Learned(hash, known, forward.Keys, NeedsOf(need, subjects[..i]), true)
        invariant out == ObfSubjects(hash, subjects[..i])
      {
        ghost var mid := forward.Keys;
        var t := RewriteSubject(subjects[i], false);
        LearnedNext(hash, need, subjects, i, known, mid, forward.Keys, t.Some?);
        if t.None? {
          return None;
        }
        out := out + [t.value];
        assert subjects[..i + 1][..i] == subjects[..i];
      }
      assert subjects[..|subjects|] == subjects;
      return Some(out);
    }

    method Consumer(name: string, f: Fields) returns (r: Option<(string, Fields)>)
      requires Valid()
      modifies this`forward, this`reverse
      ensures Valid() && Learned(hash, old(forward.Keys), forward.Keys, ConsumerNeeds(name, f), r.Some?)
      ensures r.Some? ==> r.value == (Hashed(hash, name), ObfFields(hash, f))
    {
      hide Learned; hide Inverse; hide NeedsOf; hide TokenStep; hide TokenNeeds; hide SubjectsNeed;
      ghost var known, first, second := forward.Keys, NeedsOf(TokenNeeds(), f.tokens), NeedsOf(SubjectsNeed(), f.subjects);
      var tokens := TokenList(f.tokens);
      ghost var mid := forward.Keys;
      if tokens.None? {
        LearnedNoMore(hash, known, mid, first, ConsumerNeeds(name, f));
        return None;
      }
      var subjects := SubjectList(f.subjects);
      LearnedThen(hash, known, first, mid, second, forward.Keys, subjects.Some?);
      mid := forward.Keys;
      if subjects.None? {
        LearnedNoMore(hash, known, mid, first + second, ConsumerNeeds(name, f));
        return None;
      }
      var hashed := Token(name);
      LearnedThen(hash, known, first + second, mid, TokenNeeds()(name), forward.Keys, hashed.Some?);
      if hashed.None? {
        return None;
      }
      return Some((hashed.value, Fields(tokens.value, subjects.value)));
    }
  }

  /** What one token call learns. */
  lemma TokenLearns(hash: string -> string, tm: TokenMap, tok: string)
    requires Inverse(hash, tm)
    ensures var (tm', r) := TokenStep(hash, tm, tok);
            Learned(hash, tm.forward.Keys, tm'.forward.Keys, TokenNeeds()(tok), r.Some?)
  {
    var (tm', r) := TokenStep(hash, tm, tok);
    var all := tm.forward.Keys + TokenNeeds()(tok);
    TokenStepSound(hash, tm, tok);
    if r.Some? {
      KnownAreInjective(hash, tm');
      assert tm'.forward.Keys == all;
    } else {
      var other :| other in tm.forward && other != tok && hash(other) == hash(tok);
      assert other in all && tok in all;
    }
  }

  lemma EmptySubject(mapping: bool)
    ensures SubjectNeeds(mapping, "") == {}
  {
    SplitFree("", '.');
    assert [""][..0] == [];
  }

  lemma NothingNeeded<T>(need: T -> set<string>, xs: seq<T>)
    ensures NeedsOf(need, xs[..0]) == {}
  {
  }

  lemma NoHeaders(hash: string -> string, kinds: string -> HeaderKind, h: Header)
    ensures HeaderNeeds(kinds, h - h.Keys) == {} && ObfHeader(hash, kinds, h - h.Keys) == map[]
  {
    assert h - h.Keys == map[];
  }

  lemma HeaderStep(hash: string -> string, kinds: string -> HeaderKind, h: Header, todo: set<string>, key: string)
    requires key in todo && todo <= h.Keys
    ensures ObfHeader(hash, kinds, h - (todo - {key})) ==
            if h[key] == [] then ObfHeader(hash, kinds, h - todo)
            else ObfHeader(hash, kinds, h - todo)[key := ObfValues(hash, kinds(key), h[key])]
  {
    assert h - (todo - {key}) == (h - todo)[key := h[key]];
  }

  /* ---------- Reveal ---------- */

  function RevealToken(reverse: map<string, string>, tok: string): string {
    if tok in reverse then reverse[tok]
    else if KV_STREAM_PREFIX <= tok && tok[3..] in reverse then KV_STREAM_PREFIX + reverse[tok[3..]]
    else if OBJ_STORE_PREFIX <= tok && tok[4..] in reverse then OBJ_STORE_PREFIX + reverse[tok[4..]]
    else tok
  }

  function RevealTokens(reverse: map<string, string>, toks: seq<string>): (r: seq<string>)
    ensures |r| == |toks| && forall i :: 0 <= i < |r| ==> r[i] == RevealToken(reverse, toks[i])
  {
    seq(|toks|, i requires 0 <= i < |toks| => RevealToken(reverse, toks[i]))
  }

  function Revealed(reverse: map<string, string>, value: string): string {
    Join(RevealTokens(reverse, Split(value, '.')), '.')
  }

  /** The two prefixes exclude each other. */
  lemma PrefixCases(reverse: map<string, string>, tok: string)
    requires tok !in reverse
    ensures var kv, obj := CutPrefix(tok, KV_STREAM_PREFIX), CutPrefix(tok, OBJ_STORE_PREFIX);
            && (kv.Some? && kv.value in reverse ==> obj.None? && RevealToken(reverse, tok) == KV_STREAM_PREFIX + reverse[kv.value])
            && (obj.Some? && obj.value in reverse ==> kv.None? && RevealToken(reverse, tok) == OBJ_STORE_PREFIX + reverse[obj.value])
            && (!(kv.Some? && kv.value in reverse) && !(obj.Some? && obj.value in reverse) ==> RevealToken(reverse, tok) == tok)
  {
    assert KV_STREAM_PREFIX[0] != OBJ_STORE_PREFIX[0];
    assert KV_STREAM_PREFIX <= tok ==> tok[0] == KV_STREAM_PREFIX[0];
    assert OBJ_STORE_PREFIX <= tok ==> tok[0] == OBJ_STORE_PREFIX[0];
  }

  method Reveal(reverse: map<string, string>, value: string) returns (r: string)
    ensures r == Revealed(reverse, value)
  {
    var split := Split(value, '.');
    var toks := split;
    for i := 0 to |split|
      invariant |toks| == |split|
      invariant forall j :: 0 <= j < i ==> toks[j] == RevealToken(reverse, split[j])
      invariant forall j :: i <= j < |split| ==> toks[j] == split[j]
    {
      var tok := toks[i];
      if tok in reverse {
        toks := toks[i := reverse[tok]];
        continue;
      }
      var kv, obj := CutPrefix(tok, KV_STREAM_PREFIX), CutPrefix(tok, OBJ_STORE_PREFIX);
      PrefixCases(reverse, tok);
      if kv.Some? && kv.value in reverse {
        toks := toks[i := KV_STREAM_PREFIX + reverse[kv.value]];
      }
      if obj.Some? && obj.value in reverse {
        toks := toks[i := OBJ_STORE_PREFIX + reverse[obj.value]];
      }
    }
    assert toks == RevealTokens(reverse, split);
    r := Join(toks, '.');
  }

  /** Nothing but hashes is in the reverse map. */
  lemma ReverseKeysAreHashes(hash: string -> string, tm: TokenMap, h: string)
    requires Shaped(hash)
    requires Inverse(hash, tm) && h in tm.reverse
    ensures HashLike(h) && h == hash(tm.reverse[h])
  {
  }

  lemma RevealPassed(hash: string -> string, tm: TokenMap, mapping: bool, tok: string)
    requires Shaped(hash)
    requires Inverse(hash, tm) && (Passes(mapping, tok) || tok == "")
    ensures RevealToken(tm.reverse, tok) == tok
  {
    assert tok == "" || tok[0] in {'*', '>', '$', '{'};
    if tok in tm.reverse {
      ReverseKeysAreHashes(hash, tm, tok);
      assert false;
    }
  }

  lemma RevealOneToken(hash: string -> string, tm: TokenMap, mapping: bool, tok: string)
    requires Shaped(hash)
    requires Inverse(hash, tm) && (Passes(mapping, tok) || tok == "" || tok in tm.forward)
    ensures RevealToken(tm.reverse, ObfToken(hash, mapping, tok)) == tok
  {
    if Passes(mapping, tok) || tok == "" {
      RevealPassed(hash, tm, mapping, tok);
    }
  }

  lemma ObfTokensFree(hash: string -> string, mapping: bool, toks: seq<string>)
    requires Shaped(hash)
    requires forall i :: 0 <= i < |toks| ==> Free(toks[i], '.')
    ensures forall i :: 0 <= i < |toks| ==> Free(ObfTokens(hash, mapping, toks)[i], '.')
  {
  }

  /** Obfuscating a subject obfuscates its tokens. */
  lemma SplitObfuscated(hash: string -> string, mapping: bool, subj: string)
    requires Shaped(hash)
    ensures Split(ObfSubject(hash, mapping, subj), '.') == ObfTokens(hash, mapping, Split(subj, '.'))
  {
    var toks := Split(subj, '.');
    if subj == "" {
      SplitFree("", '.');
      assert ObfTokens(hash, mapping, [""]) == [""];
    } else {
      ObfTokensFree(hash, mapping, toks);
      SplitJoin(ObfTokens(hash, mapping, toks), '.');
    }
  }

  /** Reveal undoes the obfuscation of a subject. */
  lemma RevealSubject(hash: string -> string, tm: TokenMap, mapping: bool, subj: string)
    requires Shaped(hash)
    requires Inverse(hash, tm) && KnowsSubject(tm, mapping, subj)
    ensures Revealed(tm.reverse, ObfSubject(hash, mapping, subj)) == subj
  {
    var toks := Split(subj, '.');
    SplitObfuscated(hash, mapping, subj);
    forall i | 0 <= i < |toks| ensures RevealToken(tm.reverse, ObfToken(hash, mapping, toks[i])) == toks[i] {
      RevealOneToken(hash, tm, mapping, toks[i]);
    }
    assert RevealTokens(tm.reverse, ObfTokens(hash, mapping, toks)) == toks;
    JoinSplit(subj, '.');
  }

  /** Reveal undoes a whole token, dots in it included. */
  lemma RevealWholeToken(hash: string -> string, tm: TokenMap, tok: string)
    requires Shaped(hash)
    requires Inverse(hash, tm) && tok in tm.forward
    ensures Revealed(tm.reverse, hash(tok)) == tok
  {
    SplitFree(hash(tok), '.');
    assert RevealTokens(tm.reverse, [hash(tok)]) == [tok];
  }

  lemma RevealPrefixed(hash: string -> string, tm: TokenMap, prefix: string, tok: string)
    requires Shaped(hash)
    requires Inverse(hash, tm) && tok in tm.forward && prefix in {KV_STREAM_PREFIX, OBJ_STORE_PREFIX}
    ensures Revealed(tm.reverse, prefix + hash(tok)) == prefix + tok
  {
    var full := prefix + hash(tok);
    assert Free(prefix, '.') && Free(full, '.');
    SplitFree(full, '.');
    assert full[0] == prefix[0] && full[|prefix|..] == hash(tok);
    if full in tm.reverse {
      ReverseKeysAreHashes(hash, tm, full);
      assert false;
    }
    assert RevealTokens(tm.reverse, [full]) == [prefix + tok];
  }

  /** Reveal undoes a stream name, behind its prefix or whole. */
  lemma RevealStreamName(hash: string -> string, tm: TokenMap, name: string)
    requires Shaped(hash)
    requires Inverse(hash, tm) && name != "" && StreamParts(name).1 in tm.forward
    ensures Revealed(tm.reverse, ObfStreamName(hash, name)) == name
  {
    var (prefix, t) := StreamParts(name);
    if prefix == "" {
      RevealWholeToken(hash, tm, name);
      assert "" + hash(t) == hash(t);
    } else {
      RevealPrefixed(hash, tm, prefix, t);
    }
  }

  /** A token or an empty value. */
  lemma RevealHashed(hash: string -> string, tm: TokenMap, tok: string)
    requires Shaped(hash)
    requires Inverse(hash, tm) && TokenNeeds()(tok) <= tm.forward.Keys
    ensures Revealed(tm.reverse, Hashed(hash, tok)) == tok
  {
    if tok == "" {
      SplitFree("", '.');
      RevealPassed(hash, tm, false, "");
      assert RevealTokens(tm.reverse, [""]) == [""];
    } else {
      RevealWholeToken(hash, tm, tok);
    }
  }

  lemma RevealKnownSubject(hash: string -> string, tm: TokenMap, subj: string)
    requires Shaped(hash)
    requires Inverse(hash, tm) && SubjectNeeds(false, subj) <= tm.forward.Keys
    ensures Revealed(tm.reverse, ObfSubject(hash, false, subj)) == subj
  {
    SubjectNeedsKnown(tm, false, subj);
    RevealSubject(hash, tm, false, subj);
  }

  /** A map that knows what a message hashes reveals its subject and every header
      value that was rewritten. */
  lemma RevealMessage(hash: string -> string, tm: TokenMap, kinds: string -> HeaderKind, subject: string, h: Header)
    requires Shaped(hash)
    requires Inverse(hash, tm) && MessageNeeds(kinds, subject, h) <= tm.forward.Keys
    ensures Revealed(tm.reverse, ObfSubject(hash, false, subject)) == subject
    ensures forall k, i :: k in h && 0 <= i < |h[k]| && kinds(k) != Verbatim ==>
              Revealed(tm.reverse, ObfValue(hash, kinds(k), h[k][i])) == h[k][i]
  {
    hide Revealed; hide ObfSubject; hide SubjectNeeds; hide Inverse; hide NeedsOf;
    RevealKnownSubject(hash, tm, subject);
    forall k, i | k in h && 0 <= i < |h[k]| && kinds(k) != Verbatim
      ensures Revealed(tm.reverse, ObfValue(hash, kinds(k), h[k][i])) == h[k][i]
    {
      NeedsMember(ValueNeeds(kinds(k)), h[k], i);
      assert NeedsOf(ValueNeeds(kinds(k)), h[k]) <= HeaderNeeds(kinds, h);
      if kinds(k) == Plain {
        RevealHashed(hash, tm, h[k][i]);
      } else {
        RevealKnownSubject(hash, tm, h[k][i]);
      }
    }
  }

  /** Field by field, `shown` is what `hidden` reveals. */
  predicate FieldsRevealed(reverse: map<string, string>, hidden: Fields, shown: Fields) {
    && |hidden.tokens| == |shown.tokens| && |hidden.subjects| == |shown.subjects|
    && (forall i :: 0 <= i < |shown.tokens| ==> Revealed(reverse, hidden.tokens[i]) == shown.tokens[i])
    && (forall i :: 0 <= i < |shown.subjects| ==> Revealed(reverse, hidden.subjects[i]) == shown.subjects[i])
  }

  lemma {:induction false} HashedEach(hash: string -> string, toks: seq<string>)
    ensures |HashedAll(hash, toks)| == |toks| && forall i :: 0 <= i < |toks| ==> HashedAll(hash, toks)[i] == Hashed(hash, toks[i])
    decreases |toks|
  {
    if toks != [] {
      HashedEach(hash, toks[..|toks| - 1]);
    }
  }

  lemma {:induction false} SubjectsEach(hash: string -> string, subjects: seq<string>)
    ensures |ObfSubjects(hash, subjects)| == |subjects|
    ensures forall i :: 0 <= i < |subjects| ==> ObfSubjects(hash, subjects)[i] == ObfSubject(hash, false, subjects[i])
    decreases |subjects|
  {
    hide ObfSubject;
    if subjects != [] {
      SubjectsEach(hash, subjects[..|subjects| - 1]);
    }
  }

  /** A map that knows what a consumer hashes reveals its name and fields. */
  lemma RevealConsumer(hash: string -> string, tm: TokenMap, name: string, f: Fields)
    requires Shaped(hash)
    requires Inverse(hash, tm) && ConsumerNeeds(name, f) <= tm.forward.Keys
    ensures Revealed(tm.reverse, Hashed(hash, name)) == name
    ensures FieldsRevealed(tm.reverse, ObfFields(hash, f), f)
  {
    hide Revealed; hide ObfSubject; hide SubjectNeeds; hide Inverse; hide NeedsOf;
    RevealHashed(hash, tm, name);
    HashedEach(hash, f.tokens);
    SubjectsEach(hash, f.subjects);
    forall i | 0 <= i < |f.tokens| ensures Revealed(tm.reverse, Hashed(hash, f.tokens[i])) == f.tokens[i] {
      NeedsMember(TokenNeeds(), f.tokens, i);
      RevealHashed(hash, tm, f.tokens[i]);
    }
    forall i | 0 <= i < |f.subjects| ensures Revealed(tm.reverse, ObfSubject(hash, false, f.subjects[i])) == f.subjects[i] {
      NeedsMember(SubjectsNeed(), f.subjects, i);
      RevealKnownSubject(hash, tm, f.subjects[i]);
    }
  }

  /* ---------- What is left of a text ---------- */

  /** Token by token, `shown` has the hash of every token of `text` but the empty ones,
      the wildcards, the bucket roots and, in destinations, the mapping functions. */
  ghost predicate HiddenSubject(hash: string -> string, mapping: bool, text: string, shown: string) {
    var a, b := Split(text, '.'), Split(shown, '.');
    && |a| == |b|
    && forall i :: 0 <= i < |a| ==>
         b[i] == if a[i] in {"", "*", ">", "$KV", "$O"} || (mapping && "{{" <= a[i] && a[i][|a[i]| - 2..] == "}}") then a[i] else hash(a[i])
  }

  /** A stream name keeps the prefix of a bucket; the rest is one hash. */
  ghost predicate HiddenStream(hash: string -> string, text: string, shown: string) {
    if "KV_" < text then shown == "KV_" + hash(text[3..])
    else if "OBJ_" < text then shown == "OBJ_" + hash(text[4..])
    else HiddenToken(hash, text, shown)
  }

  ghost predicate HiddenToken(hash: string -> string, text: string, shown: string) {
    shown == if text == "" then "" else hash(text)
  }

  ghost predicate HiddenValue(hash: string -> string, kind: HeaderKind, text: string, shown: string) {
    match kind
    case Verbatim => shown == text
    case SubjectValued => HiddenSubject(hash, false, text, shown)
    case Plain => HiddenToken(hash, text, shown)
  }

  /** Value by value; keys without values vanish. */
  ghost predicate HiddenHeaders(hash: string -> string, kinds: string -> HeaderKind, text: Header, shown: Header) {
    && (forall k :: k in shown <==> k in text && text[k] != [])
    && (forall k :: k in shown ==> |shown[k]| == |text[k]|)
    && (forall k, j :: k in shown && 0 <= j < |shown[k]| ==> HiddenValue(hash, kinds(k), text[k][j], shown[k][j]))
  }

  ghost predicate HiddenFields(hash: string -> string, text: Fields, shown: Fields) {
    && |shown.tokens| == |text.tokens| && |shown.subjects| == |text.subjects|
    && (forall i :: 0 <= i < |text.tokens| ==> HiddenToken(hash, text.tokens[i], shown.tokens[i]))
    && (forall i :: 0 <= i < |text.subjects| ==> HiddenSubject(hash, false, text.subjects[i], shown.subjects[i]))
  }

  lemma SubjectHidden(hash: string -> string, mapping: bool, subj: string)
    requires Shaped(hash)
    ensures HiddenSubject(hash, mapping, subj, ObfSubject(hash, mapping, subj))
  {
    hide Split; hide Join; hide Shaped;
    SplitObfuscated(hash, mapping, subj);
  }

  lemma StreamHidden(hash: string -> string, name: string)
    ensures HiddenStream(hash, name, ObfStreamName(hash, name))
  {
    assert "" + Hashed(hash, name) == Hashed(hash, name);
  }

  lemma ValueHidden(hash: string -> string, kind: HeaderKind, val: string)
    requires Shaped(hash)
    ensures HiddenValue(hash, kind, val, ObfValue(hash, kind, val))
  {
    hide HiddenSubject; hide ObfSubject;
    SubjectHidden(hash, false, val);
  }

  lemma {:induction false} ValuesEach(hash: string -> string, kind: HeaderKind, vals: seq<string>)
    ensures |ObfValues(hash, kind, vals)| == |vals|
    ensures forall j :: 0 <= j < |vals| ==> ObfValues(hash, kind, vals)[j] == ObfValue(hash, kind, vals[j])
    decreases |vals|
  {
    hide ObfValue;
    if vals != [] {
      ValuesEach(hash, kind, vals[..|vals| - 1]);
    }
  }

  /** What is written of a header hides every value that is not a control header's. */
  lemma HeadersHidden(hash: string -> string, kinds: string -> HeaderKind, h: Header)
    requires Shaped(hash)
    ensures HiddenHeaders(hash, kinds, h, ObfHeader(hash, kinds, h))
  {
    hide ObfValue; hide ObfValues; hide HiddenValue; hide Shaped;
    var shown := ObfHeader(hash, kinds, h);
    forall k | k in shown ensures |shown[k]| == |h[k]| {
      ValuesEach(hash, kinds(k), h[k]);
    }
    forall k, j | k in shown && 0 <= j < |shown[k]| ensures HiddenValue(hash, kinds(k), h[k][j], shown[k][j]) {
      ValuesEach(hash, kinds(k), h[k]);
      ValueHidden(hash, kinds(k), h[k][j]);
    }
  }

  lemma FieldsHidden(hash: string -> string, f: Fields)
    requires Shaped(hash)
    ensures HiddenFields(hash, f, ObfFields(hash, f))
  {
    hide HiddenSubject; hide ObfSubject; hide Shaped;
    HashedEach(hash, f.tokens);
    SubjectsEach(hash, f.subjects);
    forall i | 0 <= i < |f.subjects| ensures HiddenSubject(hash, false, f.subjects[i], ObfFields(hash, f).subjects[i]) {
      SubjectHidden(hash, false, f.subjects[i]);
    }
  }

  /* ---------- Matching ---------- */

  /** A token and its image agree on being a wildcard, and nothing else has an image
      that starts with a star. */
  lemma ImageOfToken(hash: string -> string, tok: string)
    requires Shaped(hash)
    requires tok != "" && Free(tok, '.')
    ensures var t := ObfToken(hash, false, tok);
            && t != "" && Free(t, '.') && (t == "*" <==> tok == "*") && (t == ">" <==> tok == ">") && (t[0] == '*' <==> tok == "*")
  {
    var t := ObfToken(hash, false, tok);
    if !Passes(false, tok) {
      assert IsDigit(t[0]);
    }
  }

  lemma ImageInjective(hash: string -> string, tm: TokenMap, a: string, b: string)
    requires Shaped(hash)
    requires Inverse(hash, tm) && Knows(tm, false, [a]) && Knows(tm, false, [b]) && a != "" && b != ""
    ensures ObfToken(hash, false, a) == ObfToken(hash, false, b) <==> a == b
  {
    assert [a][0] == a && [b][0] == b;
    if !Passes(false, a) && !Passes(false, b) {
      KnownInjective(hash, tm, a, b);
    } else if Passes(false, a) && !Passes(false, b) {
      assert |a| < 16;
    } else if !Passes(false, a) && Passes(false, b) {
      assert |b| < 16;
    }
  }

  lemma {:induction false} WalkPreserved(hash: string -> string, tm: TokenMap, p: seq<string>, q: seq<string>)
    requires Shaped(hash)
    requires Inverse(hash, tm) && Knows(tm, false, p) && Knows(tm, false, q)
    requires WellShaped(p) && WellShaped(q) && StarsAlone(q)
    ensures SubsetMatch(ObfTokens(hash, false, p), ObfTokens(hash, false, q)) == SubsetMatch(p, q)
    decreases |q|
  {
    var p', q' := ObfTokens(hash, false, p), ObfTokens(hash, false, q);
    if p != [] && q != [] {
      ImageOfToken(hash, p[0]);
      ImageOfToken(hash, q[0]);
      assert [p[0]][0] == p[0] && [q[0]][0] == q[0];
      ImageInjective(hash, tm, p[0], q[0]);
      assert p'[1..] == ObfTokens(hash, false, p[1..]);
      assert q'[1..] == ObfTokens(hash, false, q[1..]);
      WalkPreserved(hash, tm, p[1..], q[1..]);
    }
  }

  /** What one point of a run knows, every later point knows. */
  lemma KnowledgeLasts(a: TokenMap, b: TokenMap, mapping: bool, subj: string)
    requires Extends(a, b) && KnowsSubject(a, mapping, subj)
    ensures KnowsSubject(b, mapping, subj)
  {
  }

  /** Obfuscation preserves and reflects matching, for subjects obfuscated at any two
      points `a` and `b` of a run that came to `tm` later. Only the test needs stars
      that stand alone. */
  lemma MatchingPreserved(hash: string -> string, tm: TokenMap, a: TokenMap, b: TokenMap, s: string, t: string)
    requires Shaped(hash)
    requires Inverse(hash, tm) && Extends(a, tm) && Extends(b, tm)
    requires KnowsSubject(a, false, s) && KnowsSubject(b, false, t)
    requires WellShaped(Split(s, '.')) && WellFormed(t)
    ensures IsSubset(ObfSubject(hash, false, s), ObfSubject(hash, false, t)) <==> IsSubset(s, t)
  {
    KnowledgeLasts(a, tm, false, s);
    KnowledgeLasts(b, tm, false, t);
    SplitObfuscated(hash, false, s);
    SplitObfuscated(hash, false, t);
    WalkPreserved(hash, tm, Split(s, '.'), Split(t, '.'));
  }

  /** What is obfuscated is well-formed, even where a token merely started with a star. */
  lemma WellFormedPreserved(hash: string -> string, s: string)
    requires Shaped(hash)
    requires WellShaped(Split(s, '.'))
    ensures WellFormed(ObfSubject(hash, false, s))
  {
    var p := Split(s, '.');
    SplitObfuscated(hash, false, s);
    forall i | 0 <= i < |p|
      ensures var t := ObfToken(hash, false, p[i]);
              t != "" && Free(t, '.') && (t == ">" <==> p[i] == ">") && (t[0] == '*' <==> p[i] == "*") && (t == "*" <==> p[i] == "*")
    {
      ImageOfToken(hash, p[i]);
    }
  }

  /** Hence inclusion between what two subjects match is the same before and after. */
  lemma InclusionPreserved(hash: string -> string, tm: TokenMap, a: TokenMap, b: TokenMap, s: string, t: string)
    requires Shaped(hash)
    requires Inverse(hash, tm) && Extends(a, tm) && Extends(b, tm)
    requires KnowsSubject(a, false, s) && KnowsSubject(b, false, t)
    requires WellShaped(Split(s, '.')) && WellFormed(t)
    ensures Included(ObfSubject(hash, false, s), ObfSubject(hash, false, t)) <==> Included(s, t)
  {
    MatchingPreserved(hash, tm, a, b, s, t);
    WellFormedPreserved(hash, s);
    WellFormedPreserved(hash, t);
    SubsetMatchExact(s, t);
    SubsetMatchExact(ObfSubject(hash, false, s), ObfSubject(hash, false, t));
  }

  /* ---------- Exactly which tests keep their answers ---------- */

  /** Two subjects can be known together exactly when their tokens do not collide. */
  lemma KnownTogether(hash: string -> string, s: string, t: string)
    ensures (exists tm :: Inverse(hash, tm) && KnowsSubject(tm, false, s) && KnowsSubject(tm, false, t)) <==>
            Injective(hash, SubjectNeeds(false, s) + SubjectNeeds(false, t))
  {
    var needs := SubjectNeeds(false, s) + SubjectNeeds(false, t);
    if tm :| Inverse(hash, tm) && KnowsSubject(tm, false, s) && KnowsSubject(tm, false, t) {
      SubjectNeedsKnown(tm, false, s);
      SubjectNeedsKnown(tm, false, t);
      KnownAreInjective(hash, tm);
    }
    if Injective(hash, needs) {
      MapOfSound(hash, needs);
      SubjectNeedsKnown(MapOf(hash, needs), false, s);
      SubjectNeedsKnown(MapOf(hash, needs), false, t);
    }
  }

  /** A subject that `q` matches: `f` for every token that starts with `*` and for `>`. */
  function Decoy(q: seq<string>, f: string): (w: seq<string>)
    requires WellShaped(q)
    ensures |w| == |q|
  {
    if q == [] then [] else [if q[0] == ">" || q[0][0] == '*' then f else q[0]] + Decoy(q[1..], f)
  }

  /** A token no token of `q` or of 16 characters is as long as. */
  predicate Longer(f: string, q: seq<string>) {
    LiteralToken(f) && f[0] != '*' && |f| > 16 && (forall i :: 0 <= i < |q| ==> |q[i]| < |f|) && !Passes(false, f)
  }

  lemma {:induction false} DecoyMatches(q: seq<string>, f: string)
    requires WellShaped(q) && Longer(f, q)
    ensures WellShaped(Decoy(q, f)) && StarsAlone(Decoy(q, f)) && SubsetMatch(Decoy(q, f), q)
  {
    if q != [] {
      DecoyMatches(q[1..], f);
      assert Decoy(q, f)[1..] == Decoy(q[1..], f);
    }
  }

  /** A hash tells the length of a token longer than 16 characters. */
  lemma LongerHash(hash: string -> string, f: string, q: seq<string>, i: nat)
    requires Shaped(hash) && Longer(f, q) && i < |q| && q[i] != ""
    ensures ObfToken(hash, false, q[i]) != hash(f) && hash(f) != "*" && hash(f) != ">"
    ensures q[i][0] == '*' && q[i] != "*" ==> ObfToken(hash, false, q[i]) != ">" && ObfToken(hash, false, q[i]) != "" && ObfToken(hash, false, q[i])[0] != '*'
  {
    var h := ObfToken(hash, false, q[i]);
    assert |hash(f)| == |f| && (h == q[i] || |h| == Chars(q[i]));
    if q[i][0] == '*' && q[i] != "*" {
      assert h == hash(q[i]) && IsDigit(h[0]);
    }
  }

  lemma LongerTail(f: string, q: seq<string>)
    requires Longer(f, q) && q != []
    ensures Longer(f, q[1..])
  {
  }

  /** The decoy's first token no longer matches a token that merely started with a star. */
  lemma DecoyHeadStops(hash: string -> string, q: seq<string>, f: string)
    requires Shaped(hash) && WellShaped(q) && Longer(f, q) && q != [] && q[0][0] == '*' && q[0] != "*"
    ensures !SubsetMatch(ObfTokens(hash, false, Decoy(q, f)), ObfTokens(hash, false, q))
  {
    hide Shaped;
    LongerHash(hash, f, q, 0);
    assert Decoy(q, f)[0] == f && ObfToken(hash, false, f) == hash(f);
  }

  lemma TailStops(p: seq<string>, q: seq<string>)
    requires q != [] && q[0] != ">" && (p != [] ==> !SubsetMatch(p[1..], q[1..]))
    ensures !SubsetMatch(p, q)
  {
  }

  lemma StarLater(q: seq<string>)
    requires WellShaped(q) && !StarsAlone(q) && (q[0][0] == '*' ==> q[0] == "*")
    ensures !StarsAlone(q[1..]) && q[0] != ">"
  {
    var i :| 0 <= i < |q| && q[i] != "" && q[i][0] == '*' && q[i] != "*";
    assert i > 0 && q[1..][i - 1] == q[i];
  }

  lemma {:induction false} DecoyStopsMatching(hash: string -> string, q: seq<string>, f: string)
    requires Shaped(hash) && WellShaped(q) && Longer(f, q) && !StarsAlone(q)
    ensures !SubsetMatch(ObfTokens(hash, false, Decoy(q, f)), ObfTokens(hash, false, q))
  {
    hide Shaped; hide Longer; hide Passes; hide SubsetMatch; hide StarsAlone; hide ObfToken;
    if q == [] {
      NoStars();
    } else if q[0][0] == '*' && q[0] != "*" {
      DecoyHeadStops(hash, q, f);
    } else {
      var p', q' := ObfTokens(hash, false, Decoy(q, f)), ObfTokens(hash, false, q);
      StarLater(q);
      LongerTail(f, q);
      DecoyStopsMatching(hash, q[1..], f);
      ImageOfToken(hash, q[0]);
      assert p'[1..] == ObfTokens(hash, false, Decoy(q, f)[1..]) && Decoy(q, f)[1..] == Decoy(q[1..], f);
      assert q'[1..] == ObfTokens(hash, false, q[1..]);
      TailStops(p', q');
    }
  }

  lemma NoStars()
    ensures StarsAlone([])
  {
  }

  lemma {:induction false} DecoyNeeds(q: seq<string>, f: string, toks: seq<string>)
    requires WellShaped(q) && forall i :: 0 <= i < |toks| ==> toks[i] == f || toks[i] in q
    ensures NeedsOf(PartNeeds(false), toks) <= NeedsOf(PartNeeds(false), q) + {f}
    decreases |toks|
  {
    if toks != [] {
      var n := |toks| - 1;
      DecoyNeeds(q, f, toks[..n]);
      if toks[n] != f {
        var i :| 0 <= i < |q| && q[i] == toks[n];
        NeedsMember(PartNeeds(false), q, i);
      }
    }
  }

  lemma {:induction false} DecoyMembers(q: seq<string>, f: string)
    requires WellShaped(q)
    ensures forall i :: 0 <= i < |q| ==> Decoy(q, f)[i] == f || Decoy(q, f)[i] in q
  {
    if q != [] {
      DecoyMembers(q[1..], f);
    }
  }

  lemma {:induction false} NeedsAmong(q: seq<string>, x: string)
    requires x in NeedsOf(PartNeeds(false), q)
    ensures x in q && x != ""
    decreases |q|
  {
    if x !in PartNeeds(false)(q[|q| - 1]) {
      NeedsAmong(q[..|q| - 1], x);
    }
  }

  /** The long token collides with nothing. */
  lemma LongerIsInjective(hash: string -> string, q: seq<string>, f: string, known: set<string>)
    requires Shaped(hash) && Longer(f, q) && Injective(hash, NeedsOf(PartNeeds(false), q))
    requires known <= NeedsOf(PartNeeds(false), q) + {f}
    ensures Injective(hash, known)
  {
    var needs := NeedsOf(PartNeeds(false), q);
    forall x | x in needs ensures hash(x) != hash(f) {
      NeedsAmong(q, x);
      assert |hash(x)| == Chars(x) && |hash(f)| == Chars(f);
    }
  }

  function LongToken(q: seq<string>): (f: string)
    ensures Longer(f, q)
  {
    var f := Fresh(q + ["0123456789abcdef"]);
    assert (q + ["0123456789abcdef"])[|q|] == "0123456789abcdef";
    assert forall i :: 0 <= i < |q| ==> (q + ["0123456789abcdef"])[i] == q[i];
    f
  }

  /** A test with a token that merely starts with `*` matches a well-formed subject
      it no longer matches once both are obfuscated. */
  lemma StarPrefixedTestsBreak(hash: string -> string, t: string) returns (s: string)
    requires Shaped(hash) && WellShaped(Split(t, '.')) && !StarsAlone(Split(t, '.'))
    requires Injective(hash, SubjectNeeds(false, t))
    ensures WellFormed(s) && Injective(hash, SubjectNeeds(false, s) + SubjectNeeds(false, t))
    ensures IsSubset(s, t) && !IsSubset(ObfSubject(hash, false, s), ObfSubject(hash, false, t))
  {
    hide SubsetMatch; hide Injective; hide NeedsOf; hide Split; hide Join; hide WellShaped; hide StarsAlone; hide ObfSubject; hide Fresh; hide Decoy; hide Longer;
    var q := Split(t, '.');
    var f := LongToken(q);
    var w := Decoy(q, f);
    s := Join(w, '.');
    DecoyMatches(q, f);
    TokensFree(w);
    SplitJoin(w, '.');
    DecoyMembers(q, f);
    DecoyNeeds(q, f, w);
    LongerIsInjective(hash, q, f, SubjectNeeds(false, s) + SubjectNeeds(false, t));
    DecoyStopsMatching(hash, q, f);
    SplitObfuscated(hash, false, s);
    SplitObfuscated(hash, false, t);
  }

  lemma TokensFree(p: seq<string>)
    requires WellShaped(p)
    ensures forall i :: 0 <= i < |p| ==> Free(p[i], '.')
  {
  }

  /** A test keeps its answers against all subjects it can be obfuscated with, if and
      only if no token of it starts with `*` without being `*`. */
  lemma StarsAloneArePreserved(hash: string -> string, t: string)
    requires Shaped(hash) && WellShaped(Split(t, '.')) && Injective(hash, SubjectNeeds(false, t))
    ensures StarsAlone(Split(t, '.')) <==>
            forall s :: WellShaped(Split(s, '.')) && Injective(hash, SubjectNeeds(false, s) + SubjectNeeds(false, t)) ==>
              (IsSubset(ObfSubject(hash, false, s), ObfSubject(hash, false, t)) <==> IsSubset(s, t))
  {
    hide Injective; hide SubjectNeeds; hide Split; hide ObfSubject; hide SubsetMatch; hide WellShaped; hide StarsAlone; hide Inverse; hide KnowsSubject;
    if StarsAlone(Split(t, '.')) {
      forall s | WellShaped(Split(s, '.')) && Injective(hash, SubjectNeeds(false, s) + SubjectNeeds(false, t))
        ensures IsSubset(ObfSubject(hash, false, s), ObfSubject(hash, false, t)) <==> IsSubset(s, t)
      {
        KnownTogether(hash, s, t);
        var tm :| Inverse(hash, tm) && KnowsSubject(tm, false, s) && KnowsSubject(tm, false, t);
        MatchingPreserved(hash, tm, tm, tm, s, t);
      }
    } else {
      var s := StarPrefixedTestsBreak(hash, t);
    }
  }
}
