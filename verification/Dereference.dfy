/** Schema dereferencing (api/gen_dereference.go): every $ref is replaced by the
    definition it names, with cycle detection on the printed form of references.
    Main results: dereferencing ends, and yields exactly what following
    references without any check would yield, if that ever ends; references that
    print alike are the one exception. */
module Dereference {
  import opened Text
  import Paths
  import opened JsonTree

  const REF := "$ref"

  /** A place in a source file. */
  datatype Reference = Reference(file: string, pointer: seq<string>)

  /** The form cycle detection compares. */
  function Print(r: Reference): string {
    r.file + "#/" + Join(r.pointer, '/')
  }

  /* ---------- Reading a reference ---------- */

  /** strings.ReplaceAll of `~` and a mark. */
  function Replace(s: string, mark: char, meant: char): string
    decreases |s|
  {
    if s == "" then ""
    else if |s| > 1 && s[0] == '~' && s[1] == mark then [meant] + Replace(s[2..], mark, meant)
    else [s[0]] + Replace(s[1..], mark, meant)
  }

  /** One part of a pointer, unescaped as section 4 of RFC 6901 asks. */
  function Unescape(part: string): string {
    Replace(Replace(part, '1', '/'), '0', '~')
  }

  function PointerFrom(parts: seq<string>, i: nat): seq<string>
    requires i <= |parts|
    decreases |parts| - i
  {
    if i == |parts| then [] else (if parts[i] == "" then [] else [Unescape(parts[i])]) + PointerFrom(parts, i + 1)
  }

  /** What a $ref means in a file. */
  function RefOf(base: string, ref: string): Result<Reference> {
    var (file, fragment, _) := Cut(ref, '#');
    var pointer := PointerFrom(Split(fragment, '/'), 0);
    if pointer == [] then Err("does not reference a definition")
    else Ok(Reference(if file == "" then base else Paths.JoinPath(Paths.Dir(base), file), pointer))
  }

  method ParseRef(base: string, ref: string) returns (r: Result<Reference>)
    ensures r == RefOf(base, ref)
  {
    hide Split; hide Cut; hide Unescape; hide Paths.JoinPath; hide Paths.Dir;
    var (file, fragment, found) := Cut(ref, '#');
    if file == "" {
      file := base;
    } else {
      file := Paths.JoinPath(Paths.Dir(base), file);
    }
    var parts := Split(fragment, '/');
    var pointer := [];
    var i := 0;
    while i < |parts|
      invariant 0 <= i <= |parts| && pointer + PointerFrom(parts, i) == PointerFrom(parts, 0)
    {
      if parts[i] != "" {
        assert pointer + ([Unescape(parts[i])] + PointerFrom(parts, i + 1)) == pointer + [Unescape(parts[i])] + PointerFrom(parts, i + 1);
        pointer := pointer + [Unescape(parts[i])];
      }
      i := i + 1;
    }
    assert pointer == PointerFrom(parts, 0);
    if pointer == [] {
      return Err("does not reference a definition");
    }
    r := Ok(Reference(file, pointer));
  }

  function EscapePart(p: string): string {
    if p == "" then ""
    else (if p[0] == '~' then "~0" else if p[0] == '/' then "~1" else [p[0]]) + EscapePart(p[1..])
  }

  function Escaped(parts: seq<string>): seq<string> {
    seq(|parts|, i requires 0 <= i < |parts| => EscapePart(parts[i]))
  }

  /** Tildes escaped, slashes not. */
  function HalfEscaped(p: string): string {
    if p == "" then "" else (if p[0] == '~' then "~0" else [p[0]]) + HalfEscaped(p[1..])
  }

  lemma {:induction false} SlashesComeBack(p: string)
    ensures Replace(EscapePart(p), '1', '/') == HalfEscaped(p)
  {
    if p != "" {
      SlashesComeBack(p[1..]);
      var t := EscapePart(p[1..]);
      if p[0] == '~' {
        assert ("~0" + t)[1..] == "0" + t && ("0" + t)[1..] == t;
      } else if p[0] == '/' {
        assert ("~1" + t)[2..] == t;
      } else {
        assert ([p[0]] + t)[1..] == t;
      }
    }
  }

  lemma {:induction false} TildesComeBack(p: string)
    ensures Replace(HalfEscaped(p), '0', '~') == p
  {
    if p != "" {
      TildesComeBack(p[1..]);
      var t := HalfEscaped(p[1..]);
      if p[0] == '~' {
        assert ("~0" + t)[2..] == t;
      } else {
        assert ([p[0]] + t)[1..] == t;
      }
    }
  }

  lemma {:induction false} EscapedIsPlain(p: string)
    ensures Free(EscapePart(p), '/') && (p == "" <==> EscapePart(p) == "")
  {
    if p != "" {
      EscapedIsPlain(p[1..]);
    }
  }

  /** The parts that are not empty. */
  function NonEmpty(parts: seq<string>, i: nat): (r: seq<string>)
    requires i <= |parts|
    ensures |r| <= |parts| - i && forall k :: 0 <= k < |r| ==> r[k] != ""
    decreases |parts| - i
  {
    if i == |parts| then [] else (if parts[i] == "" then [] else [parts[i]]) + NonEmpty(parts, i + 1)
  }

  lemma {:induction false} NonEmptyAll(parts: seq<string>, i: nat)
    requires i <= |parts| && forall k :: i <= k < |parts| ==> parts[k] != ""
    ensures NonEmpty(parts, i) == parts[i..]
    decreases |parts| - i
  {
    if i < |parts| {
      NonEmptyAll(parts, i + 1);
    }
  }

  lemma {:induction false} PointerOfEscaped(parts: seq<string>, i: nat)
    requires i <= |parts|
    ensures PointerFrom([""] + Escaped(parts), i + 1) == NonEmpty(parts, i)
    decreases |parts| - i
  {
    if i < |parts| {
      PointerOfEscaped(parts, i + 1);
      EscapedIsPlain(parts[i]);
      SlashesComeBack(parts[i]);
      TildesComeBack(parts[i]);
    }
  }

  /** An escaped pointer behind a file name is read as the same keys exactly when no
      key is empty, since empty parts are skipped. */
  lemma PointerReadsBack(base: string, file: string, parts: seq<string>)
    requires Free(file, '#') && parts != []
    ensures var r := RefOf(base, file + "#/" + Join(Escaped(parts), '/'));
            && ((r.Ok? && r.value.pointer == parts) <==> (forall k :: 0 <= k < |parts| ==> parts[k] != ""))
            && (r.Ok? ==> r.value.file == if file == "" then base else Paths.JoinPath(Paths.Dir(base), file))
  {
    hide Split; hide Cut; hide Unescape; hide Paths.JoinPath; hide Paths.Dir; hide Join;
    var escaped := Escaped(parts);
    var fragment := "/" + Join(escaped, '/');
    forall k | 0 <= k < |parts| ensures Free(escaped[k], '/') { EscapedIsPlain(parts[k]); }
    assert file + "#/" + Join(escaped, '/') == file + ['#'] + fragment;
    CutAt(file, fragment, '#');
    SplitJoin(escaped, '/');
    assert fragment == "" + ['/'] + Join(escaped, '/');
    SplitHead("", Join(escaped, '/'), '/');
    hide Escaped;
    PointerOfEscaped(parts, 0);
    assert PointerFrom([""] + escaped, 0) == [] + PointerFrom([""] + escaped, 1);
    assert PointerFrom([""] + escaped, 0) == NonEmpty(parts, 0);
    if forall k :: 0 <= k < |parts| ==> parts[k] != "" {
      NonEmptyAll(parts, 0);
      assert NonEmpty(parts, 0) == parts;
    }
  }

  /** Every place under non-empty keys of a file can be referenced from that file. */
  lemma PointerRoundTripHere(base: string, parts: seq<string>)
    requires parts != []
    ensures RefOf(base, "#/" + Join(Escaped(parts), '/')) == Ok(Reference(base, parts)) <==> (forall k :: 0 <= k < |parts| ==> parts[k] != "")
  {
    hide RefOf; hide Join;
    PointerReadsBack(base, "", parts);
    assert "" + "#/" + Join(Escaped(parts), '/') == "#/" + Join(Escaped(parts), '/');
  }

  /** And from the file `n` in the directory `ds` every such place of the file that
      lies k levels up and down along `fs`, the way path names are read: the file
      meant is in the directory, less its last k components, under `fs`. */
  lemma PointerRoundTrip(ds: seq<string>, n: string, k: nat, fs: seq<string>, parts: seq<string>)
    requires Paths.RegularParts(ds) && Free(n, '/') && parts != []
    requires Paths.RegularParts(fs) && fs != [] && forall i :: 0 <= i < |fs| ==> Free(fs[i], '#')
    ensures var ups, above := seq(k, i => ".."), if k <= |ds| then ds[..|ds| - k] else seq(k - |ds|, i => "..");
            RefOf(Join(ds + [n], '/'), Join(ups + fs, '/') + "#/" + Join(Escaped(parts), '/')) == Ok(Reference(Join(above + fs, '/'), parts))
            <==> (forall i :: 0 <= i < |parts| ==> parts[i] != "")
  {
    hide RefOf; hide Join; hide Paths.JoinPath; hide Paths.Dir;
    var ups, above := seq(k, i => ".."), if k <= |ds| then ds[..|ds| - k] else seq(k - |ds|, i => "..");
    assert ups == Paths.Ups(k) && above == Paths.Above(ds, k);
    Paths.RelativeName(ds, n, k, fs);
    var file := Join(ups + fs, '/');
    FreeJoin(ups + fs, '#');
    Paths.JoinStarts(ups + fs);
    PointerReadsBack(Join(ds + [n], '/'), file, parts);
  }

  lemma {:induction false} FreeJoin(cs: seq<string>, c: char)
    requires c != '/' && forall i :: 0 <= i < |cs| ==> Free(cs[i], c)
    ensures Free(Join(cs, '/'), c)
  {
    if |cs| > 1 {
      FreeJoin(cs[1..], c);
    }
  }

  /* ---------- Finding what is referenced ---------- */

  /** Following keys down from a node. */
  function Walk(node: Json, parts: seq<string>): Result<Json>
    decreases |parts|
  {
    if parts == [] then Ok(node)
    else if !node.Obj? then Err("not in an object")
    else match Lookup(node.fields, parts[0])
      case Some(v) => Walk(v, parts[1..])
      case None => Err("is unknown")
  }

  /** `trail` goes down from `node` along the keys: every node on it is an object, and
      the next one is the value of its first field under the next key. */
  ghost predicate LeadsAlong(trail: seq<Json>, node: Json, parts: seq<string>, end: Json) {
    && |trail| == |parts| + 1 && trail[0] == node && trail[|parts|] == end
    && forall i :: 0 <= i < |parts| ==> trail[i].Obj? && FirstUnder(trail[i].fields, parts[i], trail[i + 1])
  }

  predicate FirstUnder(fs: seq<Field>, key: string, v: Json) {
    exists j :: 0 <= j < |fs| && fs[j] == Field(key, v) && forall h :: 0 <= h < j ==> fs[h].key != key
  }

  lemma {:induction false} LookupFinds(fs: seq<Field>, key: string) returns (j: nat)
    requires Lookup(fs, key).Some?
    ensures j < |fs| && fs[j] == Field(key, Lookup(fs, key).value) && forall h :: 0 <= h < j ==> fs[h].key != key
  {
    j := 0;
    if fs[0].key != key {
      var i := LookupFinds(fs[1..], key);
      j := i + 1;
      assert forall h :: 1 <= h < j ==> fs[h] == fs[1..][h - 1];
    }
  }

  lemma {:induction false} LookupIs(fs: seq<Field>, key: string, j: nat)
    requires j < |fs| && fs[j].key == key && forall h :: 0 <= h < j ==> fs[h].key != key
    ensures Lookup(fs, key) == Some(fs[j].value)
  {
    if j > 0 {
      LookupIs(fs[1..], key, j - 1);
    }
  }

  lemma LookupFirst(fs: seq<Field>, key: string, v: Json)
    ensures Lookup(fs, key) == Some(v) <==> FirstUnder(fs, key, v)
  {
    if Lookup(fs, key) == Some(v) {
      var j := LookupFinds(fs, key);
    }
    if FirstUnder(fs, key, v) {
      var j :| 0 <= j < |fs| && fs[j] == Field(key, v) && forall h :: 0 <= h < j ==> fs[h].key != key;
      LookupIs(fs, key, j);
    }
  }

  lemma TrailLonger(node: Json, parts: seq<string>, rest: seq<Json>, v: Json, end: Json)
    requires node.Obj? && parts != [] && FirstUnder(node.fields, parts[0], v) && LeadsAlong(rest, v, parts[1..], end)
    ensures LeadsAlong([node] + rest, node, parts, end)
  {
    hide FirstUnder;
    var trail := [node] + rest;
    forall i | 0 <= i < |parts| ensures trail[i].Obj? && FirstUnder(trail[i].fields, parts[i], trail[i + 1]) {
      if i > 0 {
        assert trail[i] == rest[i - 1] && parts[i] == parts[1..][i - 1] && trail[i + 1] == rest[i];
      } else {
        assert trail[1] == rest[0] == v;
      }
    }
  }

  lemma TrailShorter(node: Json, parts: seq<string>, trail: seq<Json>, end: Json)
    requires parts != [] && LeadsAlong(trail, node, parts, end)
    ensures |trail| > 1 && node.Obj? && FirstUnder(node.fields, parts[0], trail[1]) && LeadsAlong(trail[1..], trail[1], parts[1..], end)
  {
    hide FirstUnder;
    forall i | 0 <= i < |parts[1..]| ensures trail[1..][i].Obj? && FirstUnder(trail[1..][i].fields, parts[1..][i], trail[1..][i + 1]) {
      assert trail[1..][i] == trail[i + 1] && parts[1..][i] == parts[i + 1] && trail[1..][i + 1] == trail[i + 2];
    }
  }

  /** A walk ends at a node exactly when the keys lead there. */
  lemma {:induction false} WalkFollows(node: Json, parts: seq<string>, end: Json)
    ensures Walk(node, parts) == Ok(end) <==> exists trail :: LeadsAlong(trail, node, parts, end)
    decreases |parts|
  {
    hide LeadsAlong; hide FirstUnder; hide Lookup;
    if parts == [] {
      NoSteps(node, end);
    } else {
      if Walk(node, parts) == Ok(end) {
        var v := Lookup(node.fields, parts[0]).value;
        LookupFirst(node.fields, parts[0], v);
        WalkFollows(v, parts[1..], end);
        var rest :| LeadsAlong(rest, v, parts[1..], end);
        TrailLonger(node, parts, rest, v, end);
      }
      if trail :| LeadsAlong(trail, node, parts, end) {
        TrailShorter(node, parts, trail, end);
        LookupFirst(node.fields, parts[0], trail[1]);
        WalkFollows(trail[1], parts[1..], end);
      }
    }
  }

  lemma NoSteps(node: Json, end: Json)
    ensures (exists trail :: LeadsAlong(trail, node, [], end)) <==> node == end
  {
    if node == end {
      assert LeadsAlong([node], node, [], end);
    }
  }

  function Located(docs: map<string, Json>, ref: Reference): Result<Json> {
    if ref.file in docs then Walk(docs[ref.file], ref.pointer) else Err("no such file")
  }

  /* ---------- What dereferencing yields ---------- */

  /** The strings in a tree. */
  function Words(node: Json): set<string>
    decreases node
  {
    match node
    case Str(s) => {s}
    case Arr(xs) => set i, w | 0 <= i < |xs| && w in Words(xs[i]) :: w
    case Obj(fs) => set i, w | 0 <= i < |fs| && w in Words(fs[i].value) :: w
    case _ => {}
  }

  function AllWords(docs: map<string, Json>): set<string> {
    set f, w | f in docs && w in Words(docs[f]) :: w
  }

  /** The references below a node and below everything it can lead to, printed. */
  function Room(docs: map<string, Json>, node: Json, base: string): set<string> {
    set f, w | f in docs.Keys + {base} && w in AllWords(docs) + Words(node) && RefOf(f, w).Ok? :: Print(RefOf(f, w).value)
  }

  function Seen(stack: seq<Reference>): set<string> {
    set i | 0 <= i < |stack| :: Print(stack[i])
  }

  /** References not followed yet: what dereferencing uses up. */
  function Left(docs: map<string, Json>, node: Json, base: string, stack: seq<Reference>): set<string> {
    Room(docs, node, base) - Seen(stack)
  }

  function Width(node: Json): nat {
    match node
    case Arr(xs) => |xs|
    case Obj(fs) => |fs|
    case _ => 0
  }

  lemma LeftOfItem(docs: map<string, Json>, node: Json, i: nat, base: string, stack: seq<Reference>)
    requires node.Arr? && i < |node.items|
    ensures Left(docs, node.items[i], base, stack) <= Left(docs, node, base, stack)
  {
    assert Words(node.items[i]) <= Words(node);
  }

  lemma LeftOfField(docs: map<string, Json>, node: Json, i: nat, base: string, stack: seq<Reference>)
    requires node.Obj? && i < |node.fields|
    ensures Left(docs, node.fields[i].value, base, stack) <= Left(docs, node, base, stack)
  {
    assert Words(node.fields[i].value) <= Words(node);
  }

  lemma {:induction false} WalkWords(node: Json, parts: seq<string>)
    requires Walk(node, parts).Ok?
    ensures Words(Walk(node, parts).value) <= Words(node)
    decreases |parts|
  {
    if parts != [] {
      var v := Lookup(node.fields, parts[0]).value;
      var i :| 0 <= i < |node.fields| && node.fields[i] == Field(parts[0], v);
      assert Words(node.fields[i].value) <= Words(node);
      WalkWords(v, parts[1..]);
    }
  }

  /** Following a new reference uses it up. */
  lemma LeftOfTarget(docs: map<string, Json>, node: Json, text: string, base: string, stack: seq<Reference>)
    requires text in Words(node) && RefOf(base, text).Ok?
    requires var ref := RefOf(base, text).value; Print(ref) !in Seen(stack) && Located(docs, ref).Ok?
    ensures var ref := RefOf(base, text).value;
            Left(docs, Located(docs, ref).value, ref.file, stack + [ref]) < Left(docs, node, base, stack)
  {
    var ref := RefOf(base, text).value;
    var target := Located(docs, ref).value;
    WalkWords(docs[ref.file], ref.pointer);
    assert Words(docs[ref.file]) <= AllWords(docs);
    assert Room(docs, target, ref.file) <= Room(docs, node, base);
    assert Print(ref) in Room(docs, node, base);
    assert (stack + [ref])[|stack|] == ref;
    assert Print(ref) in Seen(stack + [ref]);
    assert forall i :: 0 <= i < |stack| ==> (stack + [ref])[i] == stack[i];
    assert Seen(stack) <= Seen(stack + [ref]);
  }

  lemma RefWord(node: Json, text: string)
    requires node.Obj? && Lookup(node.fields, REF) == Some(Str(text))
    ensures text in Words(node)
  {
    var i :| 0 <= i < |node.fields| && node.fields[i] == Field(REF, Str(text));
    assert text in Words(node.fields[i].value);
  }

  /** Fields under keys another object does not have. */
  function Lacking(extra: seq<Field>, i: nat, have: seq<Field>): seq<Field>
    requires i <= |extra|
    decreases |extra| - i
  {
    if i == |extra| then [] else (if KeyIn(have, extra[i].key) then [] else [extra[i]]) + Lacking(extra, i + 1, have)
  }

  /** Local fields, then what only the definition has. */
  function Merged(local: seq<Field>, target: Result<Json>): Result<Json> {
    match target
    case Err(e) => Err(e)
    case Ok(t) => if t.Obj? then Ok(Obj(local + Lacking(t.fields, 0, local))) else Err("does not reference an object")
  }

  /** A node with every reference replaced. */
  function Flat(docs: map<string, Json>, node: Json, base: string, stack: seq<Reference>): Result<Json>
    decreases Left(docs, node, base, stack), node, Width(node) + 1
  {
    match node
    case Arr(xs) =>
      (match FlatItems(docs, node, 0, base, stack)
       case Ok(items) => Ok(Arr(items))
       case Err(e) => Err(e))
    case Obj(fs) =>
      (match FlatFields(docs, node, 0, base, stack)
       case Err(e) => Err(e)
       case Ok(local) =>
         match Lookup(fs, REF)
         case None => Ok(Obj(local))
         case Some(raw) =>
           if raw.Str? then Merged(local, FlatTarget(docs, node, raw.text, base, stack)) else Err("$ref is not a string"))
    case _ => Ok(node)
  }

  function FlatItems(docs: map<string, Json>, node: Json, i: nat, base: string, stack: seq<Reference>): (r: Result<seq<Json>>)
    requires node.Arr? && i <= |node.items|
    decreases Left(docs, node, base, stack), node, |node.items| - i
  {
    if i == |node.items| then Ok([])
    else
      LeftOfItem(docs, node, i, base, stack);
      match Flat(docs, node.items[i], base, stack)
      case Err(e) => Err(e)
      case Ok(v) =>
        match FlatItems(docs, node, i + 1, base, stack)
        case Err(e) => Err(e)
        case Ok(vs) => Ok([v] + vs)
  }

  function FlatFields(docs: map<string, Json>, node: Json, i: nat, base: string, stack: seq<Reference>): (r: Result<seq<Field>>)
    requires node.Obj? && i <= |node.fields|
    decreases Left(docs, node, base, stack), node, |node.fields| - i
  {
    if i == |node.fields| then Ok([])
    else if node.fields[i].key == REF then FlatFields(docs, node, i + 1, base, stack)
    else
      LeftOfField(docs, node, i, base, stack);
      match Flat(docs, node.fields[i].value, base, stack)
      case Err(e) => Err(e)
      case Ok(v) =>
        match FlatFields(docs, node, i + 1, base, stack)
        case Err(e) => Err(e)
        case Ok(vs) => Ok([Field(node.fields[i].key, v)] + vs)
  }

  /** The definition a node's $ref names, dereferenced. */
  function FlatTarget(docs: map<string, Json>, node: Json, text: string, base: string, stack: seq<Reference>): Result<Json>
    requires node.Obj? && Lookup(node.fields, REF) == Some(Str(text))
    decreases Left(docs, node, base, stack), node, 0
  {
    match RefOf(base, text)
    case Err(e) => Err(e)
    case Ok(ref) =>
      if Print(ref) in Seen(stack) then Err("definition cycle")
      else match Located(docs, ref)
        case Err(e) => Err(e)
        case Ok(target) =>
          RefWord(node, text);
          LeftOfTarget(docs, node, text, base, stack);
          Flat(docs, target, ref.file, stack + [ref])
  }
}
