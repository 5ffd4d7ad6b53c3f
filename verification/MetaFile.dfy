/** The meta file of an obfuscated edit (backup/obfuscate.go, backup/edit.go): the
    stream configuration and the source block, rewritten text by text. */
module MetaFile {
  import opened Text
  import opened Subjects
  import opened TokenHash
  import opened Obfuscate

  /* ---------- The documents ---------- */

  datatype Transform = Transform(source: string, destination: string)

  datatype External = External(api: string, deliver: string)

  datatype Durable = Durable(name: string, deliver: string)

  /** A mirror or a source. `start` stands for the fields that stay as they are. */
  datatype Upstream = Upstream(name: string, filter: string, transforms: seq<Transform>,
                               external: Option<External>, durable: Option<Durable>, start: string)

  datatype Republish = Republish(source: string, destination: string, headersOnly: bool)

  /** A stream configuration: `descriptive` is what is dropped (description, metadata
      and placement), `limits` what stays. */
  datatype Config = Config(name: string, subjects: seq<string>, mirror: Option<Upstream>, sources: seq<Option<Upstream>>,
                           transform: Option<Transform>, republish: Option<Republish>, descriptive: string, limits: string)

  /** The source block of a capture; `times` stays. */
  datatype Info = Info(stream: string, subjects: seq<string>, times: string)

  /* ---------- The texts in them ---------- */

  /** An identifying text and how it is hashed: behind a bucket prefix, token by
      token, token by token around mapping functions, or whole. */
  datatype Ident = Stream(text: string) | Subject(text: string) | Destination(text: string) | Whole(text: string)

  function Obf(hash: string -> string, t: Ident): string {
    match t
    case Stream(s) => ObfStreamName(hash, s)
    case Subject(s) => ObfSubject(hash, false, s)
    case Destination(s) => ObfSubject(hash, true, s)
    case Whole(s) => Hashed(hash, s)
  }

  function IdentNeeds(): Ident -> set<string> {
    (t: Ident) =>
      match t
      case Stream(s) => TokenNeeds()(StreamParts(s).1)
      case Subject(s) => SubjectNeeds(false, s)
      case Destination(s) => SubjectNeeds(true, s)
      case Whole(s) => TokenNeeds()(s)
  }

  function OfOption<T>(f: T -> seq<Ident>, x: Option<T>): seq<Ident> {
    if x.Some? then f(x.value) else []
  }

  function OfList<T>(f: T -> seq<Ident>, xs: seq<T>): seq<Ident> {
    if xs == [] then [] else OfList(f, xs[..|xs| - 1]) + f(xs[|xs| - 1])
  }

  function SubjectIdent(): string -> seq<Ident> {
    (s: string) => [Subject(s)]
  }

  function TransformIdents(): Transform -> seq<Ident> {
    (t: Transform) => [Subject(t.source), Destination(t.destination)]
  }

  function ExternalIdents(): External -> seq<Ident> {
    (x: External) => [Subject(x.api), Subject(x.deliver)]
  }

  function DurableIdents(): Durable -> seq<Ident> {
    (d: Durable) => [Whole(d.name), Subject(d.deliver)]
  }

  function RepublishIdents(): Republish -> seq<Ident> {
    (p: Republish) => [Subject(p.source), Destination(p.destination)]
  }

  function UpstreamIdents(): Upstream -> seq<Ident> {
    (u: Upstream) =>
      [Stream(u.name), Subject(u.filter)] + OfList(TransformIdents(), u.transforms) +
      OfOption(ExternalIdents(), u.external) + OfOption(DurableIdents(), u.durable)
  }

  function MaybeUpstream(): Option<Upstream> -> seq<Ident> {
    (u: Option<Upstream>) => OfOption(UpstreamIdents(), u)
  }

  /** Everything in a configuration that identifies someone, in the order hashed. */
  function ConfigIdents(c: Config): seq<Ident> {
    [Stream(c.name)] + OfList(SubjectIdent(), c.subjects) + MaybeUpstream()(c.mirror) + OfList(MaybeUpstream(), c.sources) +
    OfOption(TransformIdents(), c.transform) + OfOption(RepublishIdents(), c.republish)
  }

  function InfoIdents(): Info -> seq<Ident> {
    (i: Info) => [Stream(i.stream)] + OfList(SubjectIdent(), i.subjects)
  }

  /* ---------- The documents rewritten ---------- */

  function ListBy<T>(f: T -> T, xs: seq<T>): seq<T> {
    if xs == [] then [] else ListBy(f, xs[..|xs| - 1]) + [f(xs[|xs| - 1])]
  }

  function OptionBy<T>(f: T -> T, x: Option<T>): Option<T> {
    if x.Some? then Some(f(x.value)) else None
  }

  function SubjectBy(g: Ident -> string): string -> string {
    (s: string) => g(Subject(s))
  }

  function TransformBy(g: Ident -> string): Transform -> Transform {
    (t: Transform) => Transform(g(Subject(t.source)), g(Destination(t.destination)))
  }

  function ExternalBy(g: Ident -> string): External -> External {
    (x: External) => External(g(Subject(x.api)), g(Subject(x.deliver)))
  }

  function DurableBy(g: Ident -> string): Durable -> Durable {
    (d: Durable) => Durable(g(Whole(d.name)), g(Subject(d.deliver)))
  }

  function RepublishBy(g: Ident -> string): Republish -> Republish {
    (p: Republish) => Republish(g(Subject(p.source)), g(Destination(p.destination)), p.headersOnly)
  }

  function UpstreamBy(g: Ident -> string): Upstream -> Upstream {
    (u: Upstream) =>
      Upstream(g(Stream(u.name)), g(Subject(u.filter)), ListBy(TransformBy(g), u.transforms),
               OptionBy(ExternalBy(g), u.external), OptionBy(DurableBy(g), u.durable), u.start)
  }

  function MaybeUpstreamBy(g: Ident -> string): Option<Upstream> -> Option<Upstream> {
    (u: Option<Upstream>) => OptionBy(UpstreamBy(g), u)
  }

  /** Every identifying text replaced, the descriptive fields dropped. */
  function ConfigBy(g: Ident -> string, c: Config): Config {
    Config(g(Stream(c.name)), ListBy(SubjectBy(g), c.subjects), MaybeUpstreamBy(g)(c.mirror), ListBy(MaybeUpstreamBy(g), c.sources),
           OptionBy(TransformBy(g), c.transform), OptionBy(RepublishBy(g), c.republish), "", c.limits)
  }

  function InfoBy(g: Ident -> string): Info -> Info {
    (i: Info) => Info(g(Stream(i.stream)), ListBy(SubjectBy(g), i.subjects), i.times)
  }

  function Hiding(hash: string -> string): Ident -> string {
    (t: Ident) => Obf(hash, t)
  }

  function Revealing(reverse: map<string, string>): Ident -> string {
    (t: Ident) => Revealed(reverse, t.text)
  }

  /* ---------- What is hashed so far ---------- */

  lemma {:induction false} NeedsAppend<T>(need: T -> set<string>, a: seq<T>, b: seq<T>)
    ensures NeedsOf(need, a + b) == NeedsOf(need, a) + NeedsOf(need, b)
    decreases |b|
  {
    if b == [] {
      assert a + b == a;
    } else {
      assert (a + b)[..|a + b| - 1] == a + b[..|b| - 1];
      NeedsAppend(need, a, b[..|b| - 1]);
    }
  }

  ghost predicate HashedTo(hash: string -> string, before: set<string>, after: set<string>, ids: seq<Ident>, ok: bool) {
    Learned(hash, before, after, NeedsOf(IdentNeeds(), ids), ok)
  }

  /** One more part of a document: on success what was hashed is longer by it, on
      failure the whole document cannot be hashed. */
  lemma HashedMore(hash: string -> string, a: set<string>, done: seq<Ident>, b: set<string>, part: seq<Ident>, c: set<string>, ok: bool,
                   whole: seq<Ident>)
    requires HashedTo(hash, a, b, done, true) && HashedTo(hash, b, c, part, ok) && done + part <= whole
    ensures if ok then HashedTo(hash, a, c, done + part, true) else HashedTo(hash, a, c, whole, false)
  {
    hide Learned;
    var need, n := IdentNeeds(), |done + part|;
    NeedsAppend(need, done, part);
    LearnedThen(hash, a, NeedsOf(need, done), b, NeedsOf(need, part), c, ok);
    if !ok {
      assert whole == done + part + whole[n..];
      NeedsAppend(need, done + part, whole[n..]);
      LearnedNoMore(hash, a, c, NeedsOf(need, done + part), NeedsOf(need, whole));
    }
  }

  lemma {:induction false} OfListPrefix<T>(f: T -> seq<Ident>, xs: seq<T>, i: nat)
    requires i <= |xs|
    ensures OfList(f, xs[..i]) <= OfList(f, xs)
    decreases |xs|
  {
    if i == |xs| {
      assert xs[..i] == xs;
    } else {
      OfListPrefix(f, xs[..|xs| - 1], i);
      assert xs[..|xs| - 1][..i] == xs[..i];
    }
  }

  /** One turn of a loop over a list of documents. */
  lemma HashedItem<T>(hash: string -> string, f: T -> seq<Ident>, xs: seq<T>, i: nat, a: set<string>, b: set<string>, c: set<string>, ok: bool)
    requires i < |xs| && HashedTo(hash, a, b, OfList(f, xs[..i]), true) && HashedTo(hash, b, c, f(xs[i]), ok)
    ensures if ok then HashedTo(hash, a, c, OfList(f, xs[..i + 1]), true) else HashedTo(hash, a, c, OfList(f, xs), false)
  {
    hide HashedTo;
    OfListPrefix(f, xs, i + 1);
    assert xs[..i + 1][..i] == xs[..i];
    HashedMore(hash, a, OfList(f, xs[..i]), b, f(xs[i]), c, ok, OfList(f, xs));
  }

  lemma ListByNext<T>(f: T -> T, xs: seq<T>, i: nat)
    requires i < |xs|
    ensures ListBy(f, xs[..i + 1]) == ListBy(f, xs[..i]) + [f(xs[i])]
  {
    assert xs[..i + 1][..i] == xs[..i];
  }

  lemma {:induction false} SubjectIdents(hash: string -> string, subjects: seq<string>)
    ensures NeedsOf(IdentNeeds(), OfList(SubjectIdent(), subjects)) == NeedsOf(SubjectsNeed(), subjects)
    ensures ListBy(SubjectBy(Hiding(hash)), subjects) == ObfSubjects(hash, subjects)
    decreases |subjects|
  {
    hide SubjectNeeds; hide ObfSubject;
    if subjects != [] {
      SubjectIdents(hash, subjects[..|subjects| - 1]);
    }
  }

  /* ---------- The rewriting ---------- */

  /** Before anything is hashed. */
  lemma Nothing(o: Obfuscator)
    requires o.Valid()
    ensures HashedTo(o.hash, o.forward.Keys, o.forward.Keys, [], true)
  {
    o.Starts();
  }

  /** One text, by its kind. */
  method Rewrite(o: Obfuscator, t: Ident) returns (r: Option<string>)
    requires o.Valid()
    modifies o`forward, o`reverse
    ensures o.Valid() && HashedTo(o.hash, old(o.forward.Keys), o.forward.Keys, [t], r.Some?)
    ensures r.Some? ==> r.value == Hiding(o.hash)(t)
  {
    hide Learned; hide Obfuscator.Valid; hide SubjectNeeds; hide ObfSubject; hide ObfStreamName; hide TokenStep;
    assert NeedsOf(IdentNeeds(), [t]) == IdentNeeds()(t);
    match t
    case Stream(s) => r := o.StreamName(s);
    case Subject(s) => r := o.RewriteSubject(s, false);
    case Destination(s) => r := o.RewriteSubject(s, true);
    case Whole(s) => r := o.Token(s);
  }

  /** Two texts that belong together. */
  method Pair(o: Obfuscator, first: Ident, second: Ident) returns (r: Option<(string, string)>)
    requires o.Valid()
    modifies o`forward, o`reverse
    ensures o.Valid() && HashedTo(o.hash, old(o.forward.Keys), o.forward.Keys, [first, second], r.Some?)
    ensures r.Some? ==> r.value == (Hiding(o.hash)(first), Hiding(o.hash)(second))
  {
    hide HashedTo; hide Obfuscator.Valid; hide Obf;
    ghost var known := o.forward.Keys;
    Nothing(o);
    var a := Rewrite(o, first);
    HashedMore(o.hash, known, [], known, [first], o.forward.Keys, a.Some?, [first, second]);
    if a.None? {
      return None;
    }
    ghost var mid := o.forward.Keys;
    var b := Rewrite(o, second);
    assert [first] + [second] == [first, second];
    HashedMore(o.hash, known, [first], mid, [second], o.forward.Keys, b.Some?, [first, second]);
    return if b.Some? then Some((a.value, b.value)) else None;
  }

  method SubjectTexts(o: Obfuscator, subjects: seq<string>) returns (r: Option<seq<string>>)
    requires o.Valid()
    modifies o`forward, o`reverse
    ensures o.Valid() && HashedTo(o.hash, old(o.forward.Keys), o.forward.Keys, OfList(SubjectIdent(), subjects), r.Some?)
    ensures r.Some? ==> r.value == ListBy(SubjectBy(Hiding(o.hash)), subjects)
  {
    hide Learned; hide Obfuscator.Valid; hide OfList; hide ListBy; hide NeedsOf;
    SubjectIdents(o.hash, subjects);
    r := o.SubjectList(subjects);
  }

  method Transforms(o: Obfuscator, ts: seq<Transform>) returns (r: Option<seq<Transform>>)
    requires o.Valid()
    modifies o`forward, o`reverse
    ensures o.Valid() && HashedTo(o.hash, old(o.forward.Keys), o.forward.Keys, OfList(TransformIdents(), ts), r.Some?)
    ensures r.Some? ==> r.value == ListBy(TransformBy(Hiding(o.hash)), ts)
  {
    hide HashedTo; hide Obfuscator.Valid; hide Obf;
    ghost var known, f := o.forward.Keys, TransformBy(Hiding(o.hash));
    var out := [];
    Nothing(o);
    assert ts[..0] == [];
    for i := 0 to |ts|
      invariant o.Valid() && HashedTo(o.hash, known, o.forward.Keys, OfList(TransformIdents(), ts[..i]), true)
      invariant out == ListBy(f, ts[..i])
    {
      ghost var mid := o.forward.Keys;
      var p := Pair(o, Subject(ts[i].source), Destination(ts[i].destination));
      HashedItem(o.hash, TransformIdents(), ts, i, known, mid, o.forward.Keys, p.Some?);
      if p.None? {
        return None;
      }
      ListByNext(f, ts, i);
      out := out + [Transform(p.value.0, p.value.1)];
    }
    assert ts[..|ts|] == ts;
    return Some(out);
  }

  method OneExternal(o: Obfuscator, x: Option<External>) returns (r: Option<Option<External>>)
    requires o.Valid()
    modifies o`forward, o`reverse
    ensures o.Valid() && HashedTo(o.hash, old(o.forward.Keys), o.forward.Keys, OfOption(ExternalIdents(), x), r.Some?)
    ensures r.Some? ==> r.value == OptionBy(ExternalBy(Hiding(o.hash)), x)
  {
    hide HashedTo; hide Obfuscator.Valid; hide Obf;
    if x.None? {
      Nothing(o);
      return Some(None);
    }
    var p := Pair(o, Subject(x.value.api), Subject(x.value.deliver));
    return if p.Some? then Some(Some(External(p.value.0, p.value.1))) else None;
  }

  method OneDurable(o: Obfuscator, d: Option<Durable>) returns (r: Option<Option<Durable>>)
    requires o.Valid()
    modifies o`forward, o`reverse
    ensures o.Valid() && HashedTo(o.hash, old(o.forward.Keys), o.forward.Keys, OfOption(DurableIdents(), d), r.Some?)
    ensures r.Some? ==> r.value == OptionBy(DurableBy(Hiding(o.hash)), d)
  {
    hide HashedTo; hide Obfuscator.Valid; hide Obf;
    if d.None? {
      Nothing(o);
      return Some(None);
    }
    var p := Pair(o, Whole(d.value.name), Subject(d.value.deliver));
    return if p.Some? then Some(Some(Durable(p.value.0, p.value.1))) else None;
  }

  /** A mirror or one of the sources, if there is one. */
  method OneUpstream(o: Obfuscator, u: Option<Upstream>) returns (r: Option<Option<Upstream>>)
    requires o.Valid()
    modifies o`forward, o`reverse
    ensures o.Valid() && HashedTo(o.hash, old(o.forward.Keys), o.forward.Keys, MaybeUpstream()(u), r.Some?)
    ensures r.Some? ==> r.value == MaybeUpstreamBy(Hiding(o.hash))(u)
  {
    hide HashedTo; hide Obfuscator.Valid; hide Obf; hide OfList; hide OfOption; hide OptionBy; hide ListBy;
    ghost var known, whole := o.forward.Keys, MaybeUpstream()(u);
    if u.None? {
      NoUpstream(Hiding(o.hash));
      Nothing(o);
      return Some(None);
    }
    SomeUpstream(Hiding(o.hash), u.value);
    var s := u.value;
    ghost var done := [Stream(s.name), Subject(s.filter)];
    var p := Pair(o, Stream(s.name), Subject(s.filter));
    HashedFirst(o.hash, known, o.forward.Keys, done, p.Some?, whole);
    if p.None? {
      return None;
    }
    ghost var mid := o.forward.Keys;
    var ts := Transforms(o, s.transforms);
    HashedMore(o.hash, known, done, mid, OfList(TransformIdents(), s.transforms), o.forward.Keys, ts.Some?, whole);
    if ts.None? {
      return None;
    }
    done, mid := done + OfList(TransformIdents(), s.transforms), o.forward.Keys;
    var x := OneExternal(o, s.external);
    HashedMore(o.hash, known, done, mid, OfOption(ExternalIdents(), s.external), o.forward.Keys, x.Some?, whole);
    if x.None? {
      return None;
    }
    done, mid := done + OfOption(ExternalIdents(), s.external), o.forward.Keys;
    var d := OneDurable(o, s.durable);
    HashedMore(o.hash, known, done, mid, OfOption(DurableIdents(), s.durable), o.forward.Keys, d.Some?, whole);
    if d.None? {
      return None;
    }
    return Some(Some(Upstream(p.value.0, p.value.1, ts.value, x.value, d.value, s.start)));
  }

  lemma NoUpstream(g: Ident -> string)
    ensures MaybeUpstream()(None) == [] && MaybeUpstreamBy(g)(None) == None
  {
  }

  lemma SomeUpstream(g: Ident -> string, u: Upstream)
    ensures MaybeUpstream()(Some(u)) == UpstreamIdents()(u) && MaybeUpstreamBy(g)(Some(u)) == Some(UpstreamBy(g)(u))
  {
  }

  /** The first part of a document. */
  lemma HashedFirst(hash: string -> string, a: set<string>, b: set<string>, part: seq<Ident>, ok: bool, whole: seq<Ident>)
    requires HashedTo(hash, a, b, part, ok) && part <= whole
    ensures if ok then HashedTo(hash, a, b, part, true) else HashedTo(hash, a, b, whole, false)
  {
    hide Learned;
    if !ok {
      assert whole == part + whole[|part|..];
      NeedsAppend(IdentNeeds(), part, whole[|part|..]);
      LearnedNoMore(hash, a, b, NeedsOf(IdentNeeds(), part), NeedsOf(IdentNeeds(), whole));
    }
  }

  method Sources(o: Obfuscator, us: seq<Option<Upstream>>) returns (r: Option<seq<Option<Upstream>>>)
    requires o.Valid()
    modifies o`forward, o`reverse
    ensures o.Valid() && HashedTo(o.hash, old(o.forward.Keys), o.forward.Keys, OfList(MaybeUpstream(), us), r.Some?)
    ensures r.Some? ==> r.value == ListBy(MaybeUpstreamBy(Hiding(o.hash)), us)
  {
    hide HashedTo; hide Obfuscator.Valid; hide Obf; hide MaybeUpstream; hide MaybeUpstreamBy;
    ghost var known, f := o.forward.Keys, MaybeUpstreamBy(Hiding(o.hash));
    var out := [];
    Nothing(o);
    assert us[..0] == [];
    for i := 0 to |us|
      invariant o.Valid() && HashedTo(o.hash, known, o.forward.Keys, OfList(MaybeUpstream(), us[..i]), true)
      invariant out == ListBy(f, us[..i])
    {
      ghost var mid := o.forward.Keys;
      var u := OneUpstream(o, us[i]);
      HashedItem(o.hash, MaybeUpstream(), us, i, known, mid, o.forward.Keys, u.Some?);
      if u.None? {
        return None;
      }
      ListByNext(f, us, i);
      out := out + [u.value];
    }
    assert us[..|us|] == us;
    return Some(out);
  }

  method OneTransform(o: Obfuscator, t: Option<Transform>) returns (r: Option<Option<Transform>>)
    requires o.Valid()
    modifies o`forward, o`reverse
    ensures o.Valid() && HashedTo(o.hash, old(o.forward.Keys), o.forward.Keys, OfOption(TransformIdents(), t), r.Some?)
    ensures r.Some? ==> r.value == OptionBy(TransformBy(Hiding(o.hash)), t)
  {
    hide HashedTo; hide Obfuscator.Valid; hide Obf;
    if t.None? {
      Nothing(o);
      return Some(None);
    }
    var p := Pair(o, Subject(t.value.source), Destination(t.value.destination));
    return if p.Some? then Some(Some(Transform(p.value.0, p.value.1))) else None;
  }

  method OneRepublish(o: Obfuscator, t: Option<Republish>) returns (r: Option<Option<Republish>>)
    requires o.Valid()
    modifies o`forward, o`reverse
    ensures o.Valid() && HashedTo(o.hash, old(o.forward.Keys), o.forward.Keys, OfOption(RepublishIdents(), t), r.Some?)
    ensures r.Some? ==> r.value == OptionBy(RepublishBy(Hiding(o.hash)), t)
  {
    hide HashedTo; hide Obfuscator.Valid; hide Obf;
    if t.None? {
      Nothing(o);
      return Some(None);
    }
    var p := Pair(o, Subject(t.value.source), Destination(t.value.destination));
    return if p.Some? then Some(Some(Republish(p.value.0, p.value.1, t.value.headersOnly))) else None;
  }

  /** A stream configuration: hashed in place, unless two tokens have the same hash;
      afterwards every token of it is known. */
  method RewriteConfig(o: Obfuscator, c: Config) returns (r: Option<Config>)
    requires o.Valid()
    modifies o`forward, o`reverse
    ensures o.Valid() && HashedTo(o.hash, old(o.forward.Keys), o.forward.Keys, ConfigIdents(c), r.Some?)
    ensures r.Some? ==> r.value == ConfigBy(Hiding(o.hash), c)
  {
    hide HashedTo; hide Obfuscator.Valid; hide Obf; hide OfList; hide OfOption; hide OptionBy; hide ListBy; hide MaybeUpstream; hide MaybeUpstreamBy;
    ghost var known, whole := o.forward.Keys, ConfigIdents(c);
    ghost var done := [Stream(c.name)];
    var name := Rewrite(o, Stream(c.name));
    HashedFirst(o.hash, known, o.forward.Keys, done, name.Some?, whole);
    if name.None? {
      return None;
    }
    ghost var mid := o.forward.Keys;
    var subjects := SubjectTexts(o, c.subjects);
    HashedMore(o.hash, known, done, mid, OfList(SubjectIdent(), c.subjects), o.forward.Keys, subjects.Some?, whole);
    if subjects.None? {
      return None;
    }
    done, mid := done + OfList(SubjectIdent(), c.subjects), o.forward.Keys;
    var mirror := OneUpstream(o, c.mirror);
    HashedMore(o.hash, known, done, mid, MaybeUpstream()(c.mirror), o.forward.Keys, mirror.Some?, whole);
    if mirror.None? {
      return None;
    }
    done, mid := done + MaybeUpstream()(c.mirror), o.forward.Keys;
    var sources := Sources(o, c.sources);
    HashedMore(o.hash, known, done, mid, OfList(MaybeUpstream(), c.sources), o.forward.Keys, sources.Some?, whole);
    if sources.None? {
      return None;
    }
    done, mid := done + OfList(MaybeUpstream(), c.sources), o.forward.Keys;
    var transform := OneTransform(o, c.transform);
    HashedMore(o.hash, known, done, mid, OfOption(TransformIdents(), c.transform), o.forward.Keys, transform.Some?, whole);
    if transform.None? {
      return None;
    }
    done, mid := done + OfOption(TransformIdents(), c.transform), o.forward.Keys;
    var republish := OneRepublish(o, c.republish);
    HashedMore(o.hash, known, done, mid, OfOption(RepublishIdents(), c.republish), o.forward.Keys, republish.Some?, whole);
    if republish.None? {
      return None;
    }
    return Some(Config(name.value, subjects.value, mirror.value, sources.value, transform.value, republish.value, "", c.limits));
  }

  /** The source block of a capture, if there is one. */
  method RewriteInfo(o: Obfuscator, i: Option<Info>) returns (r: Option<Option<Info>>)
    requires o.Valid()
    modifies o`forward, o`reverse
    ensures o.Valid() && HashedTo(o.hash, old(o.forward.Keys), o.forward.Keys, OfOption(InfoIdents(), i), r.Some?)
    ensures r.Some? ==> r.value == OptionBy(InfoBy(Hiding(o.hash)), i)
  {
    hide HashedTo; hide Obfuscator.Valid; hide OfList; hide ListBy;
    if i.None? {
      Nothing(o);
      return Some(None);
    }
    var info := i.value;
    ghost var known, whole := o.forward.Keys, InfoIdents()(info);
    var stream := Some(info.stream);
    if info.stream == "" {
      Unnamed(o);
    } else {
      stream := Rewrite(o, Stream(info.stream));
    }
    HashedFirst(o.hash, known, o.forward.Keys, [Stream(info.stream)], stream.Some?, whole);
    if stream.None? {
      return None;
    }
    ghost var mid := o.forward.Keys;
    var subjects := SubjectTexts(o, info.subjects);
    HashedMore(o.hash, known, [Stream(info.stream)], mid, OfList(SubjectIdent(), info.subjects), o.forward.Keys, subjects.Some?, whole);
    return if subjects.Some? then Some(Some(Info(stream.value, subjects.value, info.times))) else None;
  }

  /** An unnamed stream has nothing to hash. */
  lemma Unnamed(o: Obfuscator)
    requires o.Valid()
    ensures HashedTo(o.hash, o.forward.Keys, o.forward.Keys, [Stream("")], true) && Obf(o.hash, Stream("")) == ""
  {
    hide Obfuscator.Valid; hide Learned; hide StreamParts;
    NoName();
    Nothing(o);
    NoNeeds();
  }

  lemma NoNeeds()
    ensures NeedsOf(IdentNeeds(), [Stream("")]) == {} == NeedsOf(IdentNeeds(), [])
  {
    hide StreamParts; hide SubjectNeeds;
    NoName();
    assert IdentNeeds()(Stream("")) == TokenNeeds()("") == {};
    assert [Stream("")][..0] == [];
    assert NeedsOf(IdentNeeds(), [Stream("")]) == NeedsOf(IdentNeeds(), []) + IdentNeeds()(Stream(""));
  }

  /** What an edit hashes after its last message: the configuration, then the source
      block. */
  method Describe(o: Obfuscator, c: Config, i: Option<Info>) returns (r: Option<(Config, Option<Info>)>)
    requires o.Valid()
    modifies o`forward, o`reverse
    ensures o.Valid() && HashedTo(o.hash, old(o.forward.Keys), o.forward.Keys, ConfigIdents(c) + OfOption(InfoIdents(), i), r.Some?)
    ensures r.Some? ==> r.value == (ConfigBy(Hiding(o.hash), c), OptionBy(InfoBy(Hiding(o.hash)), i))
  {
    hide HashedTo; hide Obfuscator.Valid; hide Obf; hide ConfigBy; hide ConfigIdents; hide OfOption; hide OptionBy;
    ghost var known, whole := o.forward.Keys, ConfigIdents(c) + OfOption(InfoIdents(), i);
    var config := RewriteConfig(o, c);
    HashedFirst(o.hash, known, o.forward.Keys, ConfigIdents(c), config.Some?, whole);
    if config.None? {
      return None;
    }
    ghost var mid := o.forward.Keys;
    var info := RewriteInfo(o, i);
    HashedMore(o.hash, known, ConfigIdents(c), mid, OfOption(InfoIdents(), i), o.forward.Keys, info.Some?, whole);
    return if info.Some? then Some((config.value, info.value)) else None;
  }

  /* ---------- Laws ---------- */

  ghost predicate HidesTransform(hash: string -> string, t: Transform, shown: Transform) {
    HiddenSubject(hash, false, t.source, shown.source) && HiddenSubject(hash, true, t.destination, shown.destination)
  }

  ghost predicate HidesSubjects(hash: string -> string, subjects: seq<string>, shown: seq<string>) {
    |shown| == |subjects| && forall i :: 0 <= i < |subjects| ==> HiddenSubject(hash, false, subjects[i], shown[i])
  }

  ghost predicate HidesUpstream(hash: string -> string, u: Upstream, shown: Upstream) {
    && HiddenStream(hash, u.name, shown.name) && HiddenSubject(hash, false, u.filter, shown.filter) && shown.start == u.start
    && |shown.transforms| == |u.transforms| && (forall i :: 0 <= i < |u.transforms| ==> HidesTransform(hash, u.transforms[i], shown.transforms[i]))
    && shown.external.Some? == u.external.Some?
    && (u.external.Some? ==>
          HiddenSubject(hash, false, u.external.value.api, shown.external.value.api) &&
          HiddenSubject(hash, false, u.external.value.deliver, shown.external.value.deliver))
    && shown.durable.Some? == u.durable.Some?
    && (u.durable.Some? ==>
          HiddenToken(hash, u.durable.value.name, shown.durable.value.name) &&
          HiddenSubject(hash, false, u.durable.value.deliver, shown.durable.value.deliver))
  }

  ghost predicate HidesMaybe(hash: string -> string, u: Option<Upstream>, shown: Option<Upstream>) {
    shown.Some? == u.Some? && (u.Some? ==> HidesUpstream(hash, u.value, shown.value))
  }

  /** `shown` is the configuration with every name and subject hidden in its place,
      mapping functions left in destinations only, nothing descriptive kept and the
      limits as they were. */
  ghost predicate HidesConfig(hash: string -> string, c: Config, shown: Config) {
    && HiddenStream(hash, c.name, shown.name) && HidesSubjects(hash, c.subjects, shown.subjects)
    && HidesMaybe(hash, c.mirror, shown.mirror)
    && |shown.sources| == |c.sources| && (forall i :: 0 <= i < |c.sources| ==> HidesMaybe(hash, c.sources[i], shown.sources[i]))
    && shown.transform.Some? == c.transform.Some? && (c.transform.Some? ==> HidesTransform(hash, c.transform.value, shown.transform.value))
    && shown.republish.Some? == c.republish.Some?
    && (c.republish.Some? ==>
          && HiddenSubject(hash, false, c.republish.value.source, shown.republish.value.source)
          && HiddenSubject(hash, true, c.republish.value.destination, shown.republish.value.destination)
          && shown.republish.value.headersOnly == c.republish.value.headersOnly)
    && shown.descriptive == "" && shown.limits == c.limits
  }

  lemma {:induction false} ListByEach<T>(f: T -> T, xs: seq<T>)
    ensures |ListBy(f, xs)| == |xs| && forall i :: 0 <= i < |xs| ==> ListBy(f, xs)[i] == f(xs[i])
    decreases |xs|
  {
    if xs != [] {
      ListByEach(f, xs[..|xs| - 1]);
    }
  }

  lemma OptionHidden<T>(f: T -> T, x: Option<T>)
    ensures OptionBy(f, x).Some? == x.Some? && (x.Some? ==> OptionBy(f, x).value == f(x.value))
  {
  }

  lemma TransformHidden(hash: string -> string, t: Transform)
    requires Shaped(hash)
    ensures HidesTransform(hash, t, TransformBy(Hiding(hash))(t))
  {
    hide HiddenSubject; hide ObfSubject; hide Shaped;
    SubjectHidden(hash, false, t.source);
    SubjectHidden(hash, true, t.destination);
  }

  lemma SubjectsHidden(hash: string -> string, subjects: seq<string>)
    requires Shaped(hash)
    ensures HidesSubjects(hash, subjects, ListBy(SubjectBy(Hiding(hash)), subjects))
  {
    hide HiddenSubject; hide ObfSubject; hide Shaped; hide ListBy;
    ListByEach(SubjectBy(Hiding(hash)), subjects);
    forall i | 0 <= i < |subjects| ensures HiddenSubject(hash, false, subjects[i], ListBy(SubjectBy(Hiding(hash)), subjects)[i]) {
      SubjectHidden(hash, false, subjects[i]);
    }
  }

  lemma UpstreamHidden(hash: string -> string, u: Upstream)
    requires Shaped(hash)
    ensures HidesUpstream(hash, u, UpstreamBy(Hiding(hash))(u))
  {
    hide HiddenSubject; hide ObfSubject; hide Shaped; hide ListBy; hide HidesTransform; hide HiddenStream; hide ObfStreamName; hide TransformBy;
    StreamHidden(hash, u.name);
    SubjectHidden(hash, false, u.filter);
    ListByEach(TransformBy(Hiding(hash)), u.transforms);
    forall i | 0 <= i < |u.transforms| ensures HidesTransform(hash, u.transforms[i], ListBy(TransformBy(Hiding(hash)), u.transforms)[i]) {
      TransformHidden(hash, u.transforms[i]);
    }
    if u.external.Some? {
      SubjectHidden(hash, false, u.external.value.api);
      SubjectHidden(hash, false, u.external.value.deliver);
    }
    if u.durable.Some? {
      SubjectHidden(hash, false, u.durable.value.deliver);
    }
    var shown := UpstreamBy(Hiding(hash))(u);
    assert shown.transforms == ListBy(TransformBy(Hiding(hash)), u.transforms);
    OptionHidden(ExternalBy(Hiding(hash)), u.external);
    OptionHidden(DurableBy(Hiding(hash)), u.durable);
    assert shown.external == OptionBy(ExternalBy(Hiding(hash)), u.external) && shown.durable == OptionBy(DurableBy(Hiding(hash)), u.durable);
  }

  lemma MaybeHidden(hash: string -> string, u: Option<Upstream>)
    requires Shaped(hash)
    ensures HidesMaybe(hash, u, MaybeUpstreamBy(Hiding(hash))(u))
  {
    hide HidesUpstream; hide UpstreamBy; hide Shaped;
    if u.Some? {
      UpstreamHidden(hash, u.value);
    }
  }

  /** What is written of a configuration hides it. */
  lemma ConfigHidden(hash: string -> string, c: Config)
    requires Shaped(hash)
    ensures HidesConfig(hash, c, ConfigBy(Hiding(hash), c))
  {
    hide HiddenSubject; hide ObfSubject; hide Shaped; hide ListBy; hide HidesTransform; hide HiddenStream; hide ObfStreamName; hide TransformBy;
    hide HidesMaybe; hide MaybeUpstreamBy; hide HidesSubjects;
    StreamHidden(hash, c.name);
    SubjectsHidden(hash, c.subjects);
    MaybeHidden(hash, c.mirror);
    ListByEach(MaybeUpstreamBy(Hiding(hash)), c.sources);
    forall i | 0 <= i < |c.sources| ensures HidesMaybe(hash, c.sources[i], ListBy(MaybeUpstreamBy(Hiding(hash)), c.sources)[i]) {
      MaybeHidden(hash, c.sources[i]);
    }
    if c.transform.Some? {
      TransformHidden(hash, c.transform.value);
    }
    if c.republish.Some? {
      SubjectHidden(hash, false, c.republish.value.source);
      SubjectHidden(hash, true, c.republish.value.destination);
    }
  }

  /** And of a source block. */
  lemma InfoHidden(hash: string -> string, i: Info)
    requires Shaped(hash)
    ensures var shown := InfoBy(Hiding(hash))(i);
            HiddenStream(hash, i.stream, shown.stream) && HidesSubjects(hash, i.subjects, shown.subjects) && shown.times == i.times
  {
    hide HiddenStream; hide HidesSubjects; hide Shaped; hide ListBy; hide ObfStreamName;
    StreamHidden(hash, i.stream);
    SubjectsHidden(hash, i.subjects);
  }

  /** A map that knows what a text hashes reveals it. */
  lemma RevealIdent(hash: string -> string, tm: TokenMap, t: Ident)
    requires Shaped(hash) && Inverse(hash, tm) && IdentNeeds()(t) <= tm.forward.Keys
    ensures Revealed(tm.reverse, Obf(hash, t)) == t.text
  {
    hide Revealed; hide ObfSubject; hide SubjectNeeds; hide Inverse; hide Shaped; hide StreamParts;
    match t
    case Stream(s) =>
      if s == "" {
        NoName();
        RevealHashed(hash, tm, "");
      } else {
        NamedStream(tm, s);
        RevealStreamName(hash, tm, s);
      }
    case Subject(s) => RevealKnownSubject(hash, tm, s);
    case Destination(s) =>
      SubjectNeedsKnown(tm, true, s);
      RevealSubject(hash, tm, true, s);
    case Whole(s) => RevealHashed(hash, tm, s);
  }

  lemma NoName()
    ensures StreamParts("") == ("", "")
  {
  }

  lemma NamedStream(tm: TokenMap, s: string)
    requires s != "" && TokenNeeds()(StreamParts(s).1) <= tm.forward.Keys
    ensures StreamParts(s).1 in tm.forward
  {
    assert StreamParts(s).1 != "";
  }

  /** The map knows everything the texts hash. */
  ghost predicate Covers(tm: TokenMap, ids: seq<Ident>) {
    NeedsOf(IdentNeeds(), ids) <= tm.forward.Keys
  }

  lemma CoversBoth(tm: TokenMap, a: seq<Ident>, b: seq<Ident>)
    requires Covers(tm, a + b)
    ensures Covers(tm, a) && Covers(tm, b)
  {
    NeedsAppend(IdentNeeds(), a, b);
  }

  lemma {:induction false} CoversItem<T>(tm: TokenMap, f: T -> seq<Ident>, xs: seq<T>, i: nat)
    requires Covers(tm, OfList(f, xs)) && i < |xs|
    ensures Covers(tm, f(xs[i]))
    decreases |xs|
  {
    hide Covers;
    CoversBoth(tm, OfList(f, xs[..|xs| - 1]), f(xs[|xs| - 1]));
    if i < |xs| - 1 {
      CoversItem(tm, f, xs[..|xs| - 1], i);
    }
  }

  lemma RevealIdents(hash: string -> string, tm: TokenMap, ids: seq<Ident>)
    requires Shaped(hash) && Inverse(hash, tm) && Covers(tm, ids)
    ensures forall k :: 0 <= k < |ids| ==> Revealing(tm.reverse)(ids[k].(text := Hiding(hash)(ids[k]))) == ids[k].text
  {
    hide Revealed; hide Obf; hide Inverse; hide Shaped; hide IdentNeeds; hide NeedsOf;
    forall k | 0 <= k < |ids| ensures Revealed(tm.reverse, Obf(hash, ids[k])) == ids[k].text {
      NeedsMember(IdentNeeds(), ids, k);
      RevealIdent(hash, tm, ids[k]);
    }
  }

  lemma {:induction false} ListUndone<T>(f: T -> T, g: T -> T, xs: seq<T>)
    requires forall i :: 0 <= i < |xs| ==> g(f(xs[i])) == xs[i]
    ensures ListBy(g, ListBy(f, xs)) == xs
    decreases |xs|
  {
    if xs != [] {
      var n := |xs| - 1;
      ListUndone(f, g, xs[..n]);
      var ys := ListBy(f, xs);
      assert ys[..|ys| - 1] == ListBy(f, xs[..n]) && ys[|ys| - 1] == f(xs[n]);
    }
  }

  lemma RevealSubjects(hash: string -> string, tm: TokenMap, subjects: seq<string>)
    requires Shaped(hash) && Inverse(hash, tm) && Covers(tm, OfList(SubjectIdent(), subjects))
    ensures ListBy(SubjectBy(Revealing(tm.reverse)), ListBy(SubjectBy(Hiding(hash)), subjects)) == subjects
  {
    hide Obf; hide Inverse; hide Shaped; hide Covers; hide ListBy; hide Revealing; hide Hiding;
    var f, g := SubjectBy(Hiding(hash)), SubjectBy(Revealing(tm.reverse));
    forall i | 0 <= i < |subjects| ensures g(f(subjects[i])) == subjects[i] {
      CoversItem(tm, SubjectIdent(), subjects, i);
      RevealIdents(hash, tm, [Subject(subjects[i])]);
      assert [Subject(subjects[i])][0] == Subject(subjects[i]);
    }
    ListUndone(f, g, subjects);
  }

  lemma RevealPair(hash: string -> string, tm: TokenMap, a: Ident, b: Ident)
    requires Shaped(hash) && Inverse(hash, tm) && Covers(tm, [a, b])
    ensures Revealing(tm.reverse)(a.(text := Hiding(hash)(a))) == a.text && Revealing(tm.reverse)(b.(text := Hiding(hash)(b))) == b.text
  {
    hide Obf; hide Inverse; hide Shaped; hide Covers; hide Revealing; hide Hiding;
    RevealIdents(hash, tm, [a, b]);
    assert [a, b][0] == a && [a, b][1] == b;
  }

  lemma RevealTransforms(hash: string -> string, tm: TokenMap, ts: seq<Transform>)
    requires Shaped(hash) && Inverse(hash, tm) && Covers(tm, OfList(TransformIdents(), ts))
    ensures ListBy(TransformBy(Revealing(tm.reverse)), ListBy(TransformBy(Hiding(hash)), ts)) == ts
  {
    hide Obf; hide Inverse; hide Shaped; hide Covers; hide ListBy; hide Revealing; hide Hiding;
    var f, g := TransformBy(Hiding(hash)), TransformBy(Revealing(tm.reverse));
    forall i | 0 <= i < |ts| ensures g(f(ts[i])) == ts[i] {
      CoversItem(tm, TransformIdents(), ts, i);
      RevealPair(hash, tm, Subject(ts[i].source), Destination(ts[i].destination));
    }
    ListUndone(f, g, ts);
  }

  lemma RevealUpstream(hash: string -> string, tm: TokenMap, u: Upstream)
    requires Shaped(hash) && Inverse(hash, tm) && Covers(tm, UpstreamIdents()(u))
    ensures UpstreamBy(Revealing(tm.reverse))(UpstreamBy(Hiding(hash))(u)) == u
  {
    hide Obf; hide Inverse; hide Shaped; hide Covers; hide ListBy; hide Revealing; hide Hiding; hide OfList;
    var head := [Stream(u.name), Subject(u.filter)];
    var ts := OfList(TransformIdents(), u.transforms);
    var x, d := OfOption(ExternalIdents(), u.external), OfOption(DurableIdents(), u.durable);
    CoversBoth(tm, head + ts + x, d);
    CoversBoth(tm, head + ts, x);
    CoversBoth(tm, head, ts);
    RevealPair(hash, tm, Stream(u.name), Subject(u.filter));
    RevealTransforms(hash, tm, u.transforms);
    if u.external.Some? {
      RevealPair(hash, tm, Subject(u.external.value.api), Subject(u.external.value.deliver));
    }
    if u.durable.Some? {
      RevealPair(hash, tm, Whole(u.durable.value.name), Subject(u.durable.value.deliver));
    }
  }

  lemma RevealMaybe(hash: string -> string, tm: TokenMap, u: Option<Upstream>)
    requires Shaped(hash) && Inverse(hash, tm) && Covers(tm, MaybeUpstream()(u))
    ensures MaybeUpstreamBy(Revealing(tm.reverse))(MaybeUpstreamBy(Hiding(hash))(u)) == u
  {
    hide Obf; hide Inverse; hide Shaped; hide Covers; hide Revealing; hide Hiding; hide UpstreamIdents; hide UpstreamBy;
    if u.Some? {
      RevealUpstream(hash, tm, u.value);
    }
  }

  lemma RevealSources(hash: string -> string, tm: TokenMap, us: seq<Option<Upstream>>)
    requires Shaped(hash) && Inverse(hash, tm) && Covers(tm, OfList(MaybeUpstream(), us))
    ensures ListBy(MaybeUpstreamBy(Revealing(tm.reverse)), ListBy(MaybeUpstreamBy(Hiding(hash)), us)) == us
  {
    hide Obf; hide Inverse; hide Shaped; hide Covers; hide ListBy; hide Revealing; hide Hiding; hide MaybeUpstream; hide MaybeUpstreamBy;
    var f, g := MaybeUpstreamBy(Hiding(hash)), MaybeUpstreamBy(Revealing(tm.reverse));
    forall i | 0 <= i < |us| ensures g(f(us[i])) == us[i] {
      CoversItem(tm, MaybeUpstream(), us, i);
      RevealMaybe(hash, tm, us[i]);
    }
    ListUndone(f, g, us);
  }

  /** Revealing every text of the written configuration gives the original back,
      short of its descriptive fields. */
  lemma RevealConfig(hash: string -> string, tm: TokenMap, c: Config)
    requires Shaped(hash) && Inverse(hash, tm) && Covers(tm, ConfigIdents(c))
    ensures ConfigBy(Revealing(tm.reverse), ConfigBy(Hiding(hash), c)) == c.(descriptive := "")
  {
    hide Obf; hide Inverse; hide Shaped; hide Covers; hide ListBy; hide Revealing; hide Hiding; hide OfList; hide MaybeUpstream; hide MaybeUpstreamBy;
    var name, subjects := [Stream(c.name)], OfList(SubjectIdent(), c.subjects);
    var mirror, sources := MaybeUpstream()(c.mirror), OfList(MaybeUpstream(), c.sources);
    var transform, republish := OfOption(TransformIdents(), c.transform), OfOption(RepublishIdents(), c.republish);
    CoversBoth(tm, name + subjects + mirror + sources + transform, republish);
    CoversBoth(tm, name + subjects + mirror + sources, transform);
    CoversBoth(tm, name + subjects + mirror, sources);
    CoversBoth(tm, name + subjects, mirror);
    CoversBoth(tm, name, subjects);
    RevealIdents(hash, tm, name);
    assert name[0] == Stream(c.name);
    RevealSubjects(hash, tm, c.subjects);
    RevealMaybe(hash, tm, c.mirror);
    RevealSources(hash, tm, c.sources);
    if c.transform.Some? {
      RevealPair(hash, tm, Subject(c.transform.value.source), Destination(c.transform.value.destination));
    }
    if c.republish.Some? {
      RevealPair(hash, tm, Subject(c.republish.value.source), Destination(c.republish.value.destination));
    }
  }

  lemma RevealInfo(hash: string -> string, tm: TokenMap, i: Info)
    requires Shaped(hash) && Inverse(hash, tm) && Covers(tm, InfoIdents()(i))
    ensures InfoBy(Revealing(tm.reverse))(InfoBy(Hiding(hash))(i)) == i
  {
    hide Obf; hide Inverse; hide Shaped; hide Covers; hide ListBy; hide Revealing; hide Hiding; hide OfList;
    var stream := [Stream(i.stream)];
    CoversBoth(tm, stream, OfList(SubjectIdent(), i.subjects));
    RevealIdents(hash, tm, stream);
    assert stream[0] == Stream(i.stream);
    RevealSubjects(hash, tm, i.subjects);
  }

  /** The written stream listens to precisely the written subjects of the messages
      the original listened to: matching between a message and a configured subject
      is the same before and after, whichever was hashed first. */
  lemma StillBound(hash: string -> string, tm: TokenMap, a: TokenMap, b: TokenMap, s: string, c: Config, i: nat)
    requires Shaped(hash) && Inverse(hash, tm) && Extends(a, tm) && Extends(b, tm)
    requires SubjectNeeds(false, s) <= a.forward.Keys && Covers(b, ConfigIdents(c)) && i < |c.subjects|
    requires WellShaped(Split(s, '.')) && WellFormed(c.subjects[i])
    ensures i < |ConfigBy(Hiding(hash), c).subjects|
    ensures IsSubset(ObfSubject(hash, false, s), ConfigBy(Hiding(hash), c).subjects[i]) <==> IsSubset(s, c.subjects[i])
  {
    hide Inverse; hide Shaped; hide Covers; hide SubjectNeeds; hide OfList; hide MaybeUpstream; hide ObfSubject; hide IsSubset; hide WellFormed; hide WellShaped;
    var name, subjects := [Stream(c.name)], OfList(SubjectIdent(), c.subjects);
    var mirror, sources := MaybeUpstream()(c.mirror), OfList(MaybeUpstream(), c.sources);
    var transform, republish := OfOption(TransformIdents(), c.transform), OfOption(RepublishIdents(), c.republish);
    CoversBoth(b, name + subjects + mirror + sources + transform, republish);
    CoversBoth(b, name + subjects + mirror + sources, transform);
    CoversBoth(b, name + subjects + mirror, sources);
    CoversBoth(b, name + subjects, mirror);
    CoversBoth(b, name, subjects);
    CoversItem(b, SubjectIdent(), c.subjects, i);
    CoversOne(b, c.subjects[i]);
    SubjectNeedsKnown(a, false, s);
    SubjectNeedsKnown(b, false, c.subjects[i]);
    SubjectIdents(hash, c.subjects);
    SubjectsEach(hash, c.subjects);
    MatchingPreserved(hash, tm, a, b, s, c.subjects[i]);
  }

  lemma CoversOne(tm: TokenMap, s: string)
    requires Covers(tm, [Subject(s)])
    ensures SubjectNeeds(false, s) <= tm.forward.Keys
  {
    hide SubjectNeeds;
    assert NeedsOf(IdentNeeds(), [Subject(s)]) == NeedsOf(IdentNeeds(), []) + IdentNeeds()(Subject(s));
  }
}
