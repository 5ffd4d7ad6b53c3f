/** What dereferencing is for: the tree that results from following references
    with no cycle check at all, and the laws that tie the dereferencer to it. */
module Expansion {
  import opened Text
  import opened JsonTree
  import opened Dereference

  /* ---------- Following references blindly ---------- */

  /** A node with every reference replaced, following at most `fuel` references one
      below the other. */
  function Expand(docs: map<string, Json>, node: Json, base: string, fuel: nat): Result<Json>
    decreases fuel, node, Width(node) + 1
  {
    match node
    case Arr(xs) =>
      (match ExpandItems(docs, node, 0, base, fuel)
       case Ok(items) => Ok(Arr(items))
       case Err(e) => Err(e))
    case Obj(fs) =>
      (match ExpandFields(docs, node, 0, base, fuel)
       case Err(e) => Err(e)
       case Ok(local) =>
         match Lookup(fs, REF)
         case None => Ok(Obj(local))
         case Some(raw) =>
           if raw.Str? then Merged(local, ExpandTarget(docs, node, raw.text, base, fuel)) else Err("$ref is not a string"))
    case _ => Ok(node)
  }

  function ExpandItems(docs: map<string, Json>, node: Json, i: nat, base: string, fuel: nat): Result<seq<Json>>
    requires node.Arr? && i <= |node.items|
    decreases fuel, node, |node.items| - i
  {
    if i == |node.items| then Ok([])
    else match Expand(docs, node.items[i], base, fuel)
      case Err(e) => Err(e)
      case Ok(v) =>
        match ExpandItems(docs, node, i + 1, base, fuel)
        case Err(e) => Err(e)
        case Ok(vs) => Ok([v] + vs)
  }

  function ExpandFields(docs: map<string, Json>, node: Json, i: nat, base: string, fuel: nat): Result<seq<Field>>
    requires node.Obj? && i <= |node.fields|
    decreases fuel, node, |node.fields| - i
  {
    if i == |node.fields| then Ok([])
    else if node.fields[i].key == REF then ExpandFields(docs, node, i + 1, base, fuel)
    else match Expand(docs, node.fields[i].value, base, fuel)
      case Err(e) => Err(e)
      case Ok(v) =>
        match ExpandFields(docs, node, i + 1, base, fuel)
        case Err(e) => Err(e)
        case Ok(vs) => Ok([Field(node.fields[i].key, v)] + vs)
  }

  function ExpandTarget(docs: map<string, Json>, node: Json, text: string, base: string, fuel: nat): Result<Json>
    decreases fuel, node, 0
  {
    match RefOf(base, text)
    case Err(e) => Err(e)
    case Ok(ref) =>
      match Located(docs, ref)
      case Err(e) => Err(e)
      case Ok(target) => if fuel == 0 then Err("unfinished") else Expand(docs, target, ref.file, fuel - 1)
  }

  /* ---------- More fuel changes nothing ---------- */

  lemma {:induction false} MoreFuel(docs: map<string, Json>, node: Json, base: string, fuel: nat, more: nat)
    requires fuel <= more && Expand(docs, node, base, fuel).Ok?
    ensures Expand(docs, node, base, more) == Expand(docs, node, base, fuel)
    decreases fuel, node, Width(node) + 1
  {
    match node {
      case Arr(xs) => MoreFuelItems(docs, node, 0, base, fuel, more);
      case Obj(fs) =>
        MoreFuelFields(docs, node, 0, base, fuel, more);
        match Lookup(fs, REF) {
          case Some(raw) => MoreFuelTarget(docs, node, raw.text, base, fuel, more);
          case None =>
        }
      case _ =>
    }
  }

  lemma {:induction false} MoreFuelItems(docs: map<string, Json>, node: Json, i: nat, base: string, fuel: nat, more: nat)
    requires node.Arr? && i <= |node.items|
    requires fuel <= more && ExpandItems(docs, node, i, base, fuel).Ok?
    ensures ExpandItems(docs, node, i, base, more) == ExpandItems(docs, node, i, base, fuel)
    decreases fuel, node, |node.items| - i
  {
    if i < |node.items| {
      MoreFuel(docs, node.items[i], base, fuel, more);
      MoreFuelItems(docs, node, i + 1, base, fuel, more);
    }
  }

  lemma {:induction false} MoreFuelFields(docs: map<string, Json>, node: Json, i: nat, base: string, fuel: nat, more: nat)
    requires node.Obj? && i <= |node.fields|
    requires fuel <= more && ExpandFields(docs, node, i, base, fuel).Ok?
    ensures ExpandFields(docs, node, i, base, more) == ExpandFields(docs, node, i, base, fuel)
    decreases fuel, node, |node.fields| - i
  {
    if i < |node.fields| {
      if node.fields[i].key != REF {
        MoreFuel(docs, node.fields[i].value, base, fuel, more);
      }
      MoreFuelFields(docs, node, i + 1, base, fuel, more);
    }
  }

  lemma {:induction false} MoreFuelTarget(docs: map<string, Json>, node: Json, text: string, base: string, fuel: nat, more: nat)
    requires fuel <= more && ExpandTarget(docs, node, text, base, fuel).Ok?
    ensures ExpandTarget(docs, node, text, base, more) == ExpandTarget(docs, node, text, base, fuel)
    decreases fuel, node, 0
  {
    hide RefOf; hide Located; hide Words;
    var ref := RefOf(base, text).value;
    MoreFuel(docs, Located(docs, ref).value, ref.file, fuel - 1, more - 1);
  }

  /* ---------- Dereferencing is an expansion ---------- */

  lemma SmallerSet<T>(a: set<T>, b: set<T>)
    requires a <= b
    ensures |a| <= |b| && (a < b ==> |a| < |b|)
  {
    assert b == a + (b - a);
    if a < b {
      var x :| x in b - a;
    }
  }

  /** What dereferencing yields, following references yields too, and never more of
      them one below the other than there are references to follow. */
  lemma {:induction false} FlatExpands(docs: map<string, Json>, node: Json, base: string, stack: seq<Reference>, fuel: nat)
    ensures |Left(docs, node, base, stack)| <= fuel && Flat(docs, node, base, stack).Ok? ==>
              Expand(docs, node, base, fuel) == Flat(docs, node, base, stack)
    decreases fuel, node, Width(node) + 1
  {
    hide Left;
    match node {
      case Arr(xs) => FlatItemsExpand(docs, node, 0, base, stack, fuel);
      case Obj(fs) =>
        FlatFieldsExpand(docs, node, 0, base, stack, fuel);
        match Lookup(fs, REF) {
          case Some(raw) =>
            if raw.Str? {
              FlatTargetExpands(docs, node, raw.text, base, stack, fuel);
            }
          case None =>
        }
      case _ =>
    }
  }

  lemma {:induction false} FlatItemsExpand(docs: map<string, Json>, node: Json, i: nat, base: string, stack: seq<Reference>, fuel: nat)
    requires node.Arr? && i <= |node.items|
    ensures |Left(docs, node, base, stack)| <= fuel && FlatItems(docs, node, i, base, stack).Ok? ==>
              ExpandItems(docs, node, i, base, fuel) == FlatItems(docs, node, i, base, stack)
    decreases fuel, node, |node.items| - i
  {
    hide Left;
    if i < |node.items| {
      LeftOfItem(docs, node, i, base, stack);
      SmallerSet(Left(docs, node.items[i], base, stack), Left(docs, node, base, stack));
      FlatExpands(docs, node.items[i], base, stack, fuel);
      FlatItemsExpand(docs, node, i + 1, base, stack, fuel);
    }
  }

  lemma {:induction false} FlatFieldsExpand(docs: map<string, Json>, node: Json, i: nat, base: string, stack: seq<Reference>, fuel: nat)
    requires node.Obj? && i <= |node.fields|
    ensures |Left(docs, node, base, stack)| <= fuel && FlatFields(docs, node, i, base, stack).Ok? ==>
              ExpandFields(docs, node, i, base, fuel) == FlatFields(docs, node, i, base, stack)
    decreases fuel, node, |node.fields| - i
  {
    hide Left;
    if i < |node.fields| {
      if node.fields[i].key != REF {
        LeftOfField(docs, node, i, base, stack);
        SmallerSet(Left(docs, node.fields[i].value, base, stack), Left(docs, node, base, stack));
        FlatExpands(docs, node.fields[i].value, base, stack, fuel);
      }
      FlatFieldsExpand(docs, node, i + 1, base, stack, fuel);
    }
  }

  lemma {:induction false} FlatTargetExpands(docs: map<string, Json>, node: Json, text: string, base: string, stack: seq<Reference>, fuel: nat)
    requires node.Obj? && Lookup(node.fields, REF) == Some(Str(text))
    ensures |Left(docs, node, base, stack)| <= fuel && FlatTarget(docs, node, text, base, stack).Ok? ==>
              ExpandTarget(docs, node, text, base, fuel) == FlatTarget(docs, node, text, base, stack)
    decreases fuel, node, 0
  {
    hide Left; hide Walk; hide Words;
    if |Left(docs, node, base, stack)| <= fuel && FlatTarget(docs, node, text, base, stack).Ok? {
      var ref := RefOf(base, text).value;
      var target := Located(docs, ref).value;
      RefWord(node, text);
      LeftOfTarget(docs, node, text, base, stack);
      SmallerSet(Left(docs, target, ref.file, stack + [ref]), Left(docs, node, base, stack));
      FlatExpands(docs, target, ref.file, stack + [ref], fuel - 1);
    }
  }

  /* ---------- Laws of expansion ---------- */

  /** No $ref at any depth. */
  predicate RefFree(v: Json)
    decreases v
  {
    match v
    case Arr(xs) => forall i :: 0 <= i < |xs| ==> RefFree(xs[i])
    case Obj(fs) => FieldsRefFree(fs)
    case _ => true
  }

  predicate FieldsRefFree(fs: seq<Field>)
    decreases fs
  {
    forall i :: 0 <= i < |fs| ==> fs[i].key != REF && RefFree(fs[i].value)
  }

  predicate ProperDocs(docs: map<string, Json>) {
    forall f :: f in docs ==> Proper(docs[f])
  }

  lemma {:induction false} LackingFrom(extra: seq<Field>, i: nat, have: seq<Field>)
    requires i <= |extra|
    ensures forall f :: f in Lacking(extra, i, have) ==> f in extra[i..] && !KeyIn(have, f.key)
    decreases |extra| - i
  {
    if i < |extra| {
      LackingFrom(extra, i + 1, have);
      assert extra[i..] == [extra[i]] + extra[i + 1..];
    }
  }

  lemma {:induction false} LackingDistinct(extra: seq<Field>, i: nat, have: seq<Field>)
    requires i <= |extra| && Distinct(extra)
    ensures Distinct(Lacking(extra, i, have))
    decreases |extra| - i
  {
    if i < |extra| {
      LackingDistinct(extra, i + 1, have);
      LackingFrom(extra, i + 1, have);
      var rest := Lacking(extra, i + 1, have);
      forall k | 0 <= k < |rest| ensures rest[k].key != extra[i].key {
        assert rest[k] in extra[i + 1..];
      }
    }
  }

  /** Merging a definition into local fields keeps trees proper and free of $ref. */
  lemma MergedGood(local: seq<Field>, t: Json)
    requires t.Obj? && FieldsRefFree(local) && RefFree(t)
    ensures var m := Merged(local, Ok(t));
            && FieldsRefFree(m.value.fields)
            && (Distinct(local) && ProperFields(local) && Proper(t) ==> Proper(m.value))
  {
    var more := Lacking(t.fields, 0, local);
    LackingFrom(t.fields, 0, local);
    forall k | 0 <= k < |more| ensures more[k].key != REF && RefFree(more[k].value) && (ProperFields(t.fields) ==> Proper(more[k].value)) {
      assert more[k] in t.fields;
    }
    if Distinct(local) && ProperFields(local) && Proper(t) {
      LackingDistinct(t.fields, 0, local);
      forall i, k | 0 <= i < |local| && 0 <= k < |more| ensures local[i].key != more[k].key {
        assert more[k] in more;
      }
    }
  }

  lemma {:induction false} WalkProper(node: Json, parts: seq<string>)
    requires Proper(node) && Walk(node, parts).Ok?
    ensures Proper(Walk(node, parts).value)
    decreases |parts|
  {
    if parts != [] {
      var v := Lookup(node.fields, parts[0]).value;
      var i :| 0 <= i < |node.fields| && node.fields[i] == Field(parts[0], v);
      assert Proper(node.fields[i].value);
      WalkProper(v, parts[1..]);
    }
  }

  /** A result has no $ref at any depth, and is proper when its sources are. */
  lemma {:induction false} ExpandGood(docs: map<string, Json>, node: Json, base: string, fuel: nat)
    requires Expand(docs, node, base, fuel).Ok?
    ensures RefFree(Expand(docs, node, base, fuel).value)
    ensures ProperDocs(docs) && Proper(node) ==> Proper(Expand(docs, node, base, fuel).value)
    decreases fuel, node, Width(node) + 1
  {
    match node {
      case Arr(xs) => ExpandItemsGood(docs, node, 0, base, fuel);
      case Obj(fs) =>
        ExpandFieldsGood(docs, node, 0, base, fuel);
        match Lookup(fs, REF) {
          case Some(raw) =>
            ExpandTargetGood(docs, node, raw.text, base, fuel);
            MergedGood(ExpandFields(docs, node, 0, base, fuel).value, ExpandTarget(docs, node, raw.text, base, fuel).value);
          case None =>
        }
      case _ =>
    }
  }

  lemma {:induction false} ExpandItemsGood(docs: map<string, Json>, node: Json, i: nat, base: string, fuel: nat)
    requires node.Arr? && i <= |node.items| && ExpandItems(docs, node, i, base, fuel).Ok?
    ensures RefFree(Arr(ExpandItems(docs, node, i, base, fuel).value))
    ensures ProperDocs(docs) && Proper(node) ==> ProperItems(ExpandItems(docs, node, i, base, fuel).value)
    decreases fuel, node, |node.items| - i
  {
    if i < |node.items| {
      assert Proper(node) ==> ProperItems(node.items) && Proper(node.items[i]);
      ExpandGood(docs, node.items[i], base, fuel);
      ExpandItemsGood(docs, node, i + 1, base, fuel);
    }
  }

  lemma {:induction false} ExpandFieldsGood(docs: map<string, Json>, node: Json, i: nat, base: string, fuel: nat)
    requires node.Obj? && i <= |node.fields| && ExpandFields(docs, node, i, base, fuel).Ok?
    ensures var r := ExpandFields(docs, node, i, base, fuel).value;
            && FieldsRefFree(r)
            && (forall k :: 0 <= k < |r| ==> exists j :: i <= j < |node.fields| && node.fields[j].key == r[k].key)
            && (Distinct(node.fields) ==> Distinct(r))
            && (ProperDocs(docs) && Proper(node) ==> ProperFields(r))
    decreases fuel, node, |node.fields| - i
  {
    if i < |node.fields| {
      ExpandFieldsGood(docs, node, i + 1, base, fuel);
      if node.fields[i].key != REF {
        assert Proper(node) ==> ProperFields(node.fields) && Proper(node.fields[i].value);
        ExpandGood(docs, node.fields[i].value, base, fuel);
      }
    }
  }

  lemma {:induction false} ExpandTargetGood(docs: map<string, Json>, node: Json, text: string, base: string, fuel: nat)
    requires ExpandTarget(docs, node, text, base, fuel).Ok?
    ensures RefFree(ExpandTarget(docs, node, text, base, fuel).value)
    ensures ProperDocs(docs) ==> Proper(ExpandTarget(docs, node, text, base, fuel).value)
    decreases fuel, node, 0
  {
    var ref := RefOf(base, text).value;
    if ProperDocs(docs) {
      WalkProper(docs[ref.file], ref.pointer);
    }
    ExpandGood(docs, Located(docs, ref).value, ref.file, fuel - 1);
  }

  /* ---------- Results of dereferencing ---------- */

  /** On success no $ref remains at any depth, and keys stay distinct. */
  lemma FlatGood(docs: map<string, Json>, node: Json, base: string, stack: seq<Reference>)
    requires Flat(docs, node, base, stack).Ok?
    ensures RefFree(Flat(docs, node, base, stack).value)
    ensures ProperDocs(docs) && Proper(node) ==> Proper(Flat(docs, node, base, stack).value)
  {
    var fuel := |Left(docs, node, base, stack)|;
    FlatExpands(docs, node, base, stack, fuel);
    ExpandGood(docs, node, base, fuel);
  }

  /** A tree without $ref is left exactly as it is. */
  lemma {:induction false} FlatFixed(docs: map<string, Json>, v: Json, base: string, stack: seq<Reference>)
    requires RefFree(v)
    ensures Flat(docs, v, base, stack) == Ok(v)
    decreases v, Width(v) + 1
  {
    match v {
      case Arr(xs) => FlatItemsFixed(docs, v, 0, base, stack);
      case Obj(fs) =>
        FlatFieldsFixed(docs, v, 0, base, stack);
        assert forall i :: 0 <= i < |fs| ==> fs[i].key != REF;
      case _ =>
    }
  }

  lemma {:induction false} FlatItemsFixed(docs: map<string, Json>, v: Json, i: nat, base: string, stack: seq<Reference>)
    requires v.Arr? && i <= |v.items| && RefFree(v)
    ensures FlatItems(docs, v, i, base, stack) == Ok(v.items[i..])
    decreases v, |v.items| - i
  {
    if i < |v.items| {
      FlatFixed(docs, v.items[i], base, stack);
      FlatItemsFixed(docs, v, i + 1, base, stack);
      assert v.items[i..] == [v.items[i]] + v.items[i + 1..];
    } else {
      assert v.items[i..] == [];
    }
  }

  lemma {:induction false} FlatFieldsFixed(docs: map<string, Json>, v: Json, i: nat, base: string, stack: seq<Reference>)
    requires v.Obj? && i <= |v.fields| && RefFree(v)
    ensures FlatFields(docs, v, i, base, stack) == Ok(v.fields[i..])
    decreases v, |v.fields| - i
  {
    if i < |v.fields| {
      FlatFixed(docs, v.fields[i].value, base, stack);
      FlatFieldsFixed(docs, v, i + 1, base, stack);
      assert v.fields[i..] == [v.fields[i]] + v.fields[i + 1..];
    } else {
      assert v.fields[i..] == [];
    }
  }

  /** Dereferencing a result again changes nothing, whatever the documents, the
      file and the references being resolved. */
  lemma DereferencedForGood(docs: map<string, Json>, node: Json, base: string, stack: seq<Reference>,
                            docs': map<string, Json>, base': string, stack': seq<Reference>)
    requires Flat(docs, node, base, stack).Ok?
    ensures var t := Flat(docs, node, base, stack).value; Flat(docs', t, base', stack') == Ok(t)
  {
    FlatGood(docs, node, base, stack);
    FlatFixed(docs', Flat(docs, node, base, stack).value, base', stack');
  }

  /* ---------- When the printed form tells references apart ---------- */

  /** No `~1` in it: what it names has no slash in a key. */
  predicate Slashless(w: string) {
    forall i :: 0 <= i < |w| - 1 ==> !(w[i] == '~' && w[i + 1] == '1')
  }

  /** The strings under `$ref` keys, at any depth. */
  function RefTexts(node: Json): set<string>
    decreases node
  {
    match node
    case Arr(xs) => set i, w | 0 <= i < |xs| && w in RefTexts(xs[i]) :: w
    case Obj(fs) =>
      (set i, w | 0 <= i < |fs| && w in RefTexts(fs[i].value) :: w) +
      (match Lookup(fs, REF) case Some(raw) => (if raw.Str? then {raw.text} else {}) case None => {})
    case _ => {}
  }

  function AllRefTexts(docs: map<string, Json>): set<string> {
    set f, w | f in docs && w in RefTexts(docs[f]) :: w
  }

  /** The references that the node and the documents make, from whatever file, and
      that lead somewhere. */
  function Named(docs: map<string, Json>, node: Json, base: string): set<Reference> {
    set f, w | f in docs.Keys + {base} && w in AllRefTexts(docs) + RefTexts(node) && RefOf(f, w).Ok? && Located(docs, RefOf(f, w).value).Ok? ::
      RefOf(f, w).value
  }

  /** Different references print differently: what a caller can check before
      dereferencing. */
  predicate PrintApart(pool: set<Reference>) {
    forall r, q :: r in pool && q in pool && Print(r) == Print(q) ==> r == q
  }

  lemma {:induction false} WalkRefTexts(node: Json, parts: seq<string>)
    requires Walk(node, parts).Ok?
    ensures RefTexts(Walk(node, parts).value) <= RefTexts(node)
    decreases |parts|
  {
    if parts != [] {
      var v := Lookup(node.fields, parts[0]).value;
      var i :| 0 <= i < |node.fields| && node.fields[i] == Field(parts[0], v);
      assert RefTexts(node.fields[i].value) <= RefTexts(node);
      WalkRefTexts(v, parts[1..]);
    }
  }

  lemma NamedOfTarget(docs: map<string, Json>, node: Json, base: string, ref: Reference)
    requires Located(docs, ref).Ok?
    ensures Named(docs, Located(docs, ref).value, ref.file) <= Named(docs, node, base)
  {
    WalkRefTexts(docs[ref.file], ref.pointer);
    assert RefTexts(docs[ref.file]) <= AllRefTexts(docs);
  }

  /** A simple case: no file name holds `#`, and no $ref holds `~1`. */
  predicate Plain(docs: map<string, Json>, node: Json) {
    (forall f :: f in docs ==> Free(f, '#')) && forall w :: w in AllRefTexts(docs) + RefTexts(node) ==> Slashless(w)
  }

  lemma PlainPrintsApart(docs: map<string, Json>, node: Json, base: string)
    requires Plain(docs, node)
    ensures PrintApart(Named(docs, node, base))
  {
    hide RefOf; hide RefTexts; hide Tidy; hide Print; hide Slashless;
    forall r | r in Named(docs, node, base) ensures Tidy(r) {
      var f, w :| f in docs.Keys + {base} && w in AllRefTexts(docs) + RefTexts(node) && RefOf(f, w) == Ok(r) && Located(docs, r).Ok?;
      RefTidy(f, w);
    }
    forall r, q | r in Named(docs, node, base) && q in Named(docs, node, base) && Print(r) == Print(q) ensures r == q {
      PrintInjective(r, q);
    }
  }

  predicate Tidy(r: Reference) {
    Free(r.file, '#') && r.pointer != [] && forall i :: 0 <= i < |r.pointer| ==> Free(r.pointer[i], '/')
  }

  lemma PrintInjective(r: Reference, q: Reference)
    requires Tidy(r) && Tidy(q) && Print(r) == Print(q)
    ensures r == q
  {
    PrintParts(r);
    PrintParts(q);
  }

  /** A tidy reference can be read off its printed form. */
  lemma PrintParts(r: Reference)
    requires Tidy(r)
    ensures var c := Cut(Print(r), '#'); c.0 == r.file && c.1 != "" && Split(c.1[1..], '/') == r.pointer
  {
    hide Cut; hide Split; hide Join;
    var text := Join(r.pointer, '/');
    assert Print(r) == r.file + ['#'] + ("/" + text);
    CutAt(r.file, "/" + text, '#');
    SplitJoin(r.pointer, '/');
    assert ("/" + text)[1..] == text;
  }

  lemma SlashlessInside(a: string, w: string, b: string)
    requires Slashless(a + w + b)
    ensures Slashless(w)
  {
    var s := a + w + b;
    forall i | 0 <= i < |w| - 1 ensures !(w[i] == '~' && w[i + 1] == '1') {
      assert s[|a| + i] == w[i] && s[|a| + i + 1] == w[i + 1];
    }
  }

  lemma SplitStep(s: string)
    ensures var (head, rest, found) := Cut(s, '/'); Split(s, '/') == if found then [head] + Split(rest, '/') else [head]
  {
    hide Cut;
  }

  lemma {:induction false} SplitSlashless(s: string)
    requires Slashless(s)
    ensures forall i :: 0 <= i < |Split(s, '/')| ==> Slashless(Split(s, '/')[i])
    decreases |s|
  {
    hide Cut; hide Split; hide Slashless;
    var (head, rest, found) := Cut(s, '/');
    SplitStep(s);
    if found {
      assert "" + head + (['/'] + rest) == s && (head + ['/']) + rest + "" == s;
      SlashlessInside("", head, ['/'] + rest);
      SlashlessInside(head + ['/'], rest, "");
      SplitSlashless(rest);
    }
  }

  lemma {:induction false} NoSlashesMeant(p: string)
    requires Slashless(p)
    ensures Replace(p, '1', '/') == p
  {
    if p != "" {
      NoSlashesMeant(p[1..]);
    }
  }

  lemma {:induction false} ReplaceFree(p: string)
    requires Free(p, '/')
    ensures Free(Replace(p, '0', '~'), '/')
    decreases |p|
  {
    if |p| > 1 && p[0] == '~' && p[1] == '0' {
      ReplaceFree(p[2..]);
    } else if p != "" {
      ReplaceFree(p[1..]);
    }
  }

  lemma {:induction false} PointerTidy(parts: seq<string>, i: nat)
    requires i <= |parts|
    requires forall k :: 0 <= k < |parts| ==> Free(parts[k], '/') && Slashless(parts[k])
    ensures forall k :: 0 <= k < |PointerFrom(parts, i)| ==> Free(PointerFrom(parts, i)[k], '/')
    decreases |parts| - i
  {
    if i < |parts| {
      PointerTidy(parts, i + 1);
      NoSlashesMeant(parts[i]);
      ReplaceFree(parts[i]);
    }
  }

  /** A string without `~1` names keys without slashes. */
  lemma RefTidy(base: string, text: string)
    requires Slashless(text) && RefOf(base, text).Ok?
    ensures var r := RefOf(base, text).value; Free(r.file, '#') ==> Tidy(r)
  {
    hide Split;
    var (file, fragment, found) := Cut(text, '#');
    assert forall i :: 0 <= i < |fragment| ==> fragment[i] == text[|file| + 1 + i];
    SplitSlashless(fragment);
    PointerTidy(Split(fragment, '/'), 0);
  }

  /* ---------- Chains of references ---------- */

  /** The strings under the `$ref` keys that dereferencing the node comes to: those
      at any depth, outside what other `$ref` keys hold. */
  function Cited(node: Json): set<string>
    decreases node
  {
    match node
    case Arr(xs) => set i, w | 0 <= i < |xs| && w in Cited(xs[i]) :: w
    case Obj(fs) =>
      (set i, w | 0 <= i < |fs| && fs[i].key != REF && w in Cited(fs[i].value) :: w) +
      (match Lookup(fs, REF) case Some(raw) => (if raw.Str? then {raw.text} else {}) case None => {})
    case _ => {}
  }

  /** A reference the node makes, from the file it is in, that leads somewhere. */
  predicate Cites(docs: map<string, Json>, node: Json, base: string, ref: Reference) {
    Located(docs, ref).Ok? && exists w :: w in Cited(node) && RefOf(base, w) == Ok(ref)
  }

  /** References that lead from a node to a definition, from there to the next one,
      and so on. */
  predicate Chain(docs: map<string, Json>, node: Json, base: string, rs: seq<Reference>)
    decreases |rs|
  {
    rs == [] || (Cites(docs, node, base, rs[0]) && Chain(docs, Located(docs, rs[0]).value, rs[0].file, rs[1..]))
  }

  /** No two of the references print alike. */
  predicate Unrepeated(rs: seq<Reference>) {
    forall i, j :: 0 <= j < i < |rs| ==> Print(rs[i]) != Print(rs[j])
  }

  /** No chain from the node repeats a reference being resolved, or one of its own. */
  ghost predicate Unrevisited(docs: map<string, Json>, node: Json, base: string, stack: seq<Reference>) {
    forall rs :: Chain(docs, node, base, rs) ==> Unrepeated(stack + rs)
  }

  lemma ChainsOfPart(docs: map<string, Json>, part: Json, node: Json, base: string, stack: seq<Reference>)
    requires Cited(part) <= Cited(node) && Unrevisited(docs, node, base, stack)
    ensures Unrevisited(docs, part, base, stack)
  {
    forall rs | Chain(docs, part, base, rs) ensures Unrepeated(stack + rs) {
      assert Chain(docs, node, base, rs);
    }
  }

  lemma UnrepeatedSnoc(stack: seq<Reference>, ref: Reference)
    requires Unrepeated(stack)
    ensures Unrepeated(stack + [ref]) <==> Print(ref) !in Seen(stack)
  {
    hide Print;
    var all := stack + [ref];
    if Unrepeated(all) {
      forall j | 0 <= j < |stack| ensures Print(stack[j]) != Print(ref) {
        assert Print(all[|stack|]) != Print(all[j]);
      }
    }
  }

  /** One reference in front. */
  lemma UnrevisitedTarget(docs: map<string, Json>, node: Json, base: string, stack: seq<Reference>, ref: Reference)
    requires Cites(docs, node, base, ref) && Unrevisited(docs, node, base, stack)
    ensures Print(ref) !in Seen(stack) && Unrevisited(docs, Located(docs, ref).value, ref.file, stack + [ref])
  {
    hide RefOf; hide Print; hide Walk; hide Seen; hide Unrepeated;
    var target := Located(docs, ref).value;
    forall rs | Chain(docs, target, ref.file, rs) ensures Unrepeated(stack + [ref] + rs) {
      assert ([ref] + rs)[0] == ref && ([ref] + rs)[1..] == rs;
      assert Chain(docs, node, base, [ref] + rs);
      assert stack + ([ref] + rs) == stack + [ref] + rs;
    }
    assert Chain(docs, target, ref.file, []) && Chain(docs, node, base, []);
    assert stack + [ref] + [] == stack + [ref] && stack + [] == stack;
    UnrepeatedSnoc(stack, ref);
  }

  lemma {:induction false} FlatOfItems(docs: map<string, Json>, node: Json, i: nat, base: string, stack: seq<Reference>)
    requires node.Arr? && i <= |node.items| && FlatItems(docs, node, i, base, stack).Ok?
    ensures forall k :: i <= k < |node.items| ==> Flat(docs, node.items[k], base, stack).Ok?
    decreases |node.items| - i
  {
    hide Left; hide Flat;
    if i < |node.items| {
      FlatOfItems(docs, node, i + 1, base, stack);
    }
  }

  lemma {:induction false} FlatOfFields(docs: map<string, Json>, node: Json, i: nat, base: string, stack: seq<Reference>)
    requires node.Obj? && i <= |node.fields| && FlatFields(docs, node, i, base, stack).Ok?
    ensures forall k :: i <= k < |node.fields| && node.fields[k].key != REF ==> Flat(docs, node.fields[k].value, base, stack).Ok?
    decreases |node.fields| - i
  {
    hide Left; hide Flat;
    if i < |node.fields| {
      FlatOfFields(docs, node, i + 1, base, stack);
    }
  }

  /** Where a node can be dereferenced, every reference it makes is a new one and
      what it names can be dereferenced too. */
  lemma {:induction false} FlatFollows(docs: map<string, Json>, node: Json, base: string, stack: seq<Reference>, text: string)
    requires Flat(docs, node, base, stack).Ok? && text in Cited(node)
    ensures var r := RefOf(base, text);
            && r.Ok? && Print(r.value) !in Seen(stack) && Located(docs, r.value).Ok?
            && Flat(docs, Located(docs, r.value).value, r.value.file, stack + [r.value]).Ok?
    decreases node
  {
    hide Left; hide RefOf; hide Print; hide Located; hide Seen;
    match node {
      case Arr(xs) =>
        FlatOfItems(docs, node, 0, base, stack);
        var i :| 0 <= i < |xs| && text in Cited(xs[i]);
        FlatFollows(docs, xs[i], base, stack, text);
      case Obj(fs) =>
        FlatOfFields(docs, node, 0, base, stack);
        if i :| 0 <= i < |fs| && fs[i].key != REF && text in Cited(fs[i].value) {
          FlatFollows(docs, fs[i].value, base, stack, text);
        }
      case _ =>
    }
  }

  /** What dereferences has no chain that comes back to a printed reference. */
  lemma {:induction false} FlatUnrepeated(docs: map<string, Json>, node: Json, base: string, stack: seq<Reference>, rs: seq<Reference>)
    requires Flat(docs, node, base, stack).Ok? && Chain(docs, node, base, rs) && Unrepeated(stack)
    ensures Unrepeated(stack + rs)
    decreases |rs|
  {
    hide Flat; hide RefOf; hide Print; hide Located; hide Seen; hide Unrepeated;
    if rs == [] {
      assert stack + rs == stack;
    } else {
      var text :| text in Cited(node) && RefOf(base, text) == Ok(rs[0]);
      FlatFollows(docs, node, base, stack, text);
      UnrepeatedSnoc(stack, rs[0]);
      FlatUnrepeated(docs, Located(docs, rs[0]).value, rs[0].file, stack + [rs[0]], rs[1..]);
      assert stack + [rs[0]] + rs[1..] == stack + rs;
    }
  }

  /* ---------- An expansion that ends is found ---------- */

  lemma {:induction false} ExpandFlattens(docs: map<string, Json>, node: Json, base: string, stack: seq<Reference>, fuel: nat)
    requires Unrevisited(docs, node, base, stack) && Expand(docs, node, base, fuel).Ok?
    ensures Flat(docs, node, base, stack) == Expand(docs, node, base, fuel)
    decreases fuel, node, Width(node) + 1
  {
    hide Unrevisited; hide Left;
    match node {
      case Arr(xs) => ExpandItemsFlatten(docs, node, 0, base, stack, fuel);
      case Obj(fs) =>
        ExpandFieldsFlatten(docs, node, 0, base, stack, fuel);
        match Lookup(fs, REF) {
          case Some(raw) => ExpandTargetFlattens(docs, node, raw.text, base, stack, fuel);
          case None =>
        }
      case _ =>
    }
  }

  lemma {:induction false} ExpandItemsFlatten(docs: map<string, Json>, node: Json, i: nat, base: string, stack: seq<Reference>, fuel: nat)
    requires node.Arr? && i <= |node.items| && ExpandItems(docs, node, i, base, fuel).Ok?
    requires Unrevisited(docs, node, base, stack)
    ensures FlatItems(docs, node, i, base, stack) == ExpandItems(docs, node, i, base, fuel)
    decreases fuel, node, |node.items| - i
  {
    hide Unrevisited; hide Left;
    if i < |node.items| {
      assert Cited(node.items[i]) <= Cited(node);
      ChainsOfPart(docs, node.items[i], node, base, stack);
      ExpandFlattens(docs, node.items[i], base, stack, fuel);
      ExpandItemsFlatten(docs, node, i + 1, base, stack, fuel);
    }
  }

  lemma {:induction false} ExpandFieldsFlatten(docs: map<string, Json>, node: Json, i: nat, base: string, stack: seq<Reference>, fuel: nat)
    requires node.Obj? && i <= |node.fields| && ExpandFields(docs, node, i, base, fuel).Ok?
    requires Unrevisited(docs, node, base, stack)
    ensures FlatFields(docs, node, i, base, stack) == ExpandFields(docs, node, i, base, fuel)
    decreases fuel, node, |node.fields| - i
  {
    hide Unrevisited; hide Left;
    if i < |node.fields| {
      if node.fields[i].key != REF {
        assert Cited(node.fields[i].value) <= Cited(node);
        ChainsOfPart(docs, node.fields[i].value, node, base, stack);
        ExpandFlattens(docs, node.fields[i].value, base, stack, fuel);
      }
      ExpandFieldsFlatten(docs, node, i + 1, base, stack, fuel);
    }
  }

  lemma {:induction false} ExpandTargetFlattens(docs: map<string, Json>, node: Json, text: string, base: string, stack: seq<Reference>, fuel: nat)
    requires node.Obj? && Lookup(node.fields, REF) == Some(Str(text)) && ExpandTarget(docs, node, text, base, fuel).Ok?
    requires Unrevisited(docs, node, base, stack)
    ensures FlatTarget(docs, node, text, base, stack) == ExpandTarget(docs, node, text, base, fuel)
    decreases fuel, node, 0
  {
    hide Unrevisited; hide RefOf; hide Located; hide Left; hide Words; hide Expand; hide Flat; hide Print; hide Seen;
    var ref := RefOf(base, text).value;
    assert text in Cited(node);
    UnrevisitedTarget(docs, node, base, stack, ref);
    ExpandFlattens(docs, Located(docs, ref).value, ref.file, stack + [ref], fuel - 1);
  }

  /** Dereferencing yields a tree exactly when following references without any
      check comes to an end with that tree and no chain of references comes to two
      that print alike. */
  lemma DereferenceExact(docs: map<string, Json>, node: Json, base: string, t: Json)
    ensures Flat(docs, node, base, []) == Ok(t) <==>
            && (exists fuel :: Expand(docs, node, base, fuel) == Ok(t))
            && (forall rs :: Chain(docs, node, base, rs) ==> Unrepeated(rs))
  {
    hide Left; hide Expand; hide Flat; hide Chain; hide Print;
    assert forall rs: seq<Reference> :: [] + rs == rs;
    if Flat(docs, node, base, []) == Ok(t) {
      FlatExpands(docs, node, base, [], |Left(docs, node, base, [])|);
      forall rs | Chain(docs, node, base, rs) ensures Unrepeated(rs) {
        FlatUnrepeated(docs, node, base, [], rs);
      }
    }
    if fuel :| Expand(docs, node, base, fuel) == Ok(t) && forall rs :: Chain(docs, node, base, rs) ==> Unrepeated(rs) {
      ExpandFlattens(docs, node, base, [], fuel);
    }
  }

  /** A chain of references that comes back to a printed one is an error, wherever
      in the tree it starts. */
  lemma RevisitIsError(docs: map<string, Json>, node: Json, base: string, rs: seq<Reference>)
    requires Chain(docs, node, base, rs) && !Unrepeated(rs)
    ensures Flat(docs, node, base, []).Err?
  {
    hide Expand; hide Flat; hide Chain; hide Unrepeated;
    if Flat(docs, node, base, []).Ok? {
      DereferenceExact(docs, node, base, Flat(docs, node, base, []).value);
    }
  }

  /* ---------- When no reference is taken for another ---------- */

  /** Following a reference comes to an end within the fuel. */
  predicate Ends(docs: map<string, Json>, ref: Reference, fuel: nat) {
    Located(docs, ref).Ok? && Expand(docs, Located(docs, ref).value, ref.file, fuel).Ok?
  }

  /** The least fuel a reference needs. */
  lemma {:induction false} LeastFuel(docs: map<string, Json>, ref: Reference, fuel: nat) returns (least: nat)
    requires Ends(docs, ref, fuel)
    ensures least <= fuel && Ends(docs, ref, least) && (least > 0 ==> !Ends(docs, ref, least - 1))
    decreases fuel
  {
    if fuel == 0 || !Ends(docs, ref, fuel - 1) {
      least := fuel;
    } else {
      least := LeastFuel(docs, ref, fuel - 1);
    }
  }

  lemma {:induction false} ExpandOfItems(docs: map<string, Json>, node: Json, i: nat, base: string, fuel: nat)
    requires node.Arr? && i <= |node.items| && ExpandItems(docs, node, i, base, fuel).Ok?
    ensures forall k :: i <= k < |node.items| ==> Expand(docs, node.items[k], base, fuel).Ok?
    decreases |node.items| - i
  {
    hide Expand;
    if i < |node.items| {
      ExpandOfItems(docs, node, i + 1, base, fuel);
    }
  }

  lemma {:induction false} ExpandOfFields(docs: map<string, Json>, node: Json, i: nat, base: string, fuel: nat)
    requires node.Obj? && i <= |node.fields| && ExpandFields(docs, node, i, base, fuel).Ok?
    ensures forall k :: i <= k < |node.fields| && node.fields[k].key != REF ==> Expand(docs, node.fields[k].value, base, fuel).Ok?
    decreases |node.fields| - i
  {
    hide Expand;
    if i < |node.fields| {
      ExpandOfFields(docs, node, i + 1, base, fuel);
    }
  }

  /** Every reference a node makes ends with less fuel than the node needs. */
  lemma {:induction false} ExpandFollows(docs: map<string, Json>, node: Json, base: string, fuel: nat, text: string)
    requires Expand(docs, node, base, fuel).Ok? && text in Cited(node)
    ensures fuel > 0 && RefOf(base, text).Ok? && Ends(docs, RefOf(base, text).value, fuel - 1)
    decreases node
  {
    hide RefOf; hide Located;
    match node {
      case Arr(xs) =>
        ExpandOfItems(docs, node, 0, base, fuel);
        var i :| 0 <= i < |xs| && text in Cited(xs[i]);
        ExpandFollows(docs, xs[i], base, fuel, text);
      case Obj(fs) =>
        ExpandOfFields(docs, node, 0, base, fuel);
        if i :| 0 <= i < |fs| && fs[i].key != REF && text in Cited(fs[i].value) {
          ExpandFollows(docs, fs[i].value, base, fuel, text);
        }
      case _ =>
    }
  }

  /** So does every reference of a chain. */
  lemma {:induction false} ChainEnds(docs: map<string, Json>, node: Json, base: string, fuel: nat, rs: seq<Reference>, i: nat)
    requires Expand(docs, node, base, fuel).Ok? && Chain(docs, node, base, rs) && i < |rs|
    ensures fuel > 0 && Ends(docs, rs[i], fuel - 1)
    decreases i
  {
    hide Expand; hide RefOf; hide Located;
    var text :| text in Cited(node) && RefOf(base, text) == Ok(rs[0]);
    ExpandFollows(docs, node, base, fuel, text);
    if i > 0 {
      ChainEnds(docs, Located(docs, rs[0]).value, rs[0].file, fuel - 1, rs[1..], i - 1);
      MoreFuel(docs, Located(docs, rs[i]).value, rs[i].file, fuel - 2, fuel - 1);
    }
  }

  /** Where following references ends, no chain comes back to a reference: the
      second time it would need less fuel than it needs at least. */
  lemma {:induction false} ChainDistinct(docs: map<string, Json>, node: Json, base: string, fuel: nat, rs: seq<Reference>, j: nat, i: nat)
    requires Expand(docs, node, base, fuel).Ok? && Chain(docs, node, base, rs) && j < i < |rs|
    ensures rs[i] != rs[j]
    decreases j
  {
    hide Expand; hide RefOf; hide Located;
    ChainEnds(docs, node, base, fuel, rs, 0);
    var target := Located(docs, rs[0]).value;
    if j > 0 {
      ChainDistinct(docs, target, rs[0].file, fuel - 1, rs[1..], j - 1, i - 1);
    } else if rs[i] == rs[0] {
      var least := LeastFuel(docs, rs[0], fuel - 1);
      ChainEnds(docs, target, rs[0].file, least, rs[1..], i - 1);
      assert false;
    }
  }

  lemma {:induction false} CitedTexts(node: Json)
    ensures Cited(node) <= RefTexts(node)
    decreases node
  {
    match node {
      case Arr(xs) => forall i | 0 <= i < |xs| ensures Cited(xs[i]) <= RefTexts(xs[i]) { CitedTexts(xs[i]); }
      case Obj(fs) => forall i | 0 <= i < |fs| ensures Cited(fs[i].value) <= RefTexts(fs[i].value) { CitedTexts(fs[i].value); }
      case _ =>
    }
  }

  lemma {:induction false} ChainNamed(docs: map<string, Json>, node: Json, base: string, rs: seq<Reference>, i: nat)
    requires Chain(docs, node, base, rs) && i < |rs|
    ensures rs[i] in Named(docs, node, base)
    decreases i
  {
    hide RefOf; hide Located;
    if i == 0 {
      CitedTexts(node);
    } else {
      ChainNamed(docs, Located(docs, rs[0]).value, rs[0].file, rs[1..], i - 1);
      NamedOfTarget(docs, node, base, rs[0]);
    }
  }

  /** Where the references that can be reached print apart, dereferencing yields a
      tree exactly when following references ends with it. */
  lemma ApartIsExact(docs: map<string, Json>, node: Json, base: string, t: Json)
    requires PrintApart(Named(docs, node, base))
    ensures Flat(docs, node, base, []) == Ok(t) <==> exists fuel :: Expand(docs, node, base, fuel) == Ok(t)
  {
    hide Named; hide Expand; hide Flat; hide Chain; hide Print;
    DereferenceExact(docs, node, base, t);
    if fuel :| Expand(docs, node, base, fuel) == Ok(t) {
      forall rs | Chain(docs, node, base, rs) ensures Unrepeated(rs) {
        forall i, j | 0 <= j < i < |rs| ensures Print(rs[i]) != Print(rs[j]) {
          ChainNamed(docs, node, base, rs, i);
          ChainNamed(docs, node, base, rs, j);
          ChainDistinct(docs, node, base, fuel, rs, j, i);
        }
      }
    }
  }

  /* ---------- Keys of a result ---------- */

  /** The fields that are not the reference, in order. */
  function LocalFields(fs: seq<Field>, i: nat): seq<Field>
    requires i <= |fs|
    decreases |fs| - i
  {
    if i == |fs| then [] else (if fs[i].key == REF then [] else [fs[i]]) + LocalFields(fs, i + 1)
  }

  /** `to` has the keys of `from`, in order, each with its value dereferenced. */
  predicate Dereferenced(docs: map<string, Json>, from: seq<Field>, to: seq<Field>, base: string, stack: seq<Reference>) {
    |from| == |to| &&
    forall k :: 0 <= k < |to| ==> to[k].key == from[k].key && Flat(docs, from[k].value, base, stack) == Ok(to[k].value)
  }

  lemma {:induction false} FieldsDereferenced(docs: map<string, Json>, node: Json, i: nat, base: string, stack: seq<Reference>)
    requires node.Obj? && i <= |node.fields| && FlatFields(docs, node, i, base, stack).Ok?
    ensures Dereferenced(docs, LocalFields(node.fields, i), FlatFields(docs, node, i, base, stack).value, base, stack)
    decreases |node.fields| - i
  {
    hide Left; hide Flat;
    if i < |node.fields| {
      FieldsDereferenced(docs, node, i + 1, base, stack);
    }
  }

  lemma {:induction false} LookupAppend(a: seq<Field>, b: seq<Field>, k: string)
    ensures Lookup(a + b, k) == if KeyIn(a, k) then Lookup(a, k) else Lookup(b, k)
  {
    if a == [] {
      assert a + b == b;
    } else {
      LookupAppend(a[1..], b, k);
      assert (a + b)[0] == a[0] && (a + b)[1..] == a[1..] + b;
      assert forall i :: 1 <= i < |a| ==> a[i] == a[1..][i - 1];
      assert KeyIn(a, k) <==> a[0].key == k || KeyIn(a[1..], k);
    }
  }

  lemma {:induction false} LookupLacking(extra: seq<Field>, i: nat, have: seq<Field>, k: string)
    requires i <= |extra| && !KeyIn(have, k)
    ensures Lookup(Lacking(extra, i, have), k) == Lookup(extra[i..], k)
    decreases |extra| - i
  {
    if i < |extra| {
      var head := if KeyIn(have, extra[i].key) then [] else [extra[i]];
      LookupLacking(extra, i + 1, have, k);
      LookupAppend(head, Lacking(extra, i + 1, have), k);
      LookupAppend([extra[i]], extra[i + 1..], k);
      assert extra[i..] == [extra[i]] + extra[i + 1..];
    }
  }

  /** The keys beside a $ref come first, in their order, and their values win over
      the definition's; then come the keys only the definition has, in its order,
      with its values. */
  lemma LocalKeysWin(docs: map<string, Json>, node: Json, text: string, base: string, stack: seq<Reference>)
    requires node.Obj? && Lookup(node.fields, REF) == Some(Str(text))
    ensures Flat(docs, node, base, stack).Ok? ==>
            var t, d, l := Flat(docs, node, base, stack).value, FlatTarget(docs, node, text, base, stack), LocalFields(node.fields, 0);
            && t.Obj? && d.Ok? && d.value.Obj? && |l| <= |t.fields|
            && Dereferenced(docs, l, t.fields[..|l|], base, stack)
            && t.fields[|l|..] == Lacking(d.value.fields, 0, t.fields[..|l|])
            && (forall k :: !KeyIn(t.fields[..|l|], k) ==> Lookup(t.fields, k) == Lookup(d.value.fields, k))
  {
    hide Left;
    if Flat(docs, node, base, stack).Err? {
      return;
    }
    var t, d, l := Flat(docs, node, base, stack).value, FlatTarget(docs, node, text, base, stack), LocalFields(node.fields, 0);
    var local := FlatFields(docs, node, 0, base, stack).value;
    FieldsDereferenced(docs, node, 0, base, stack);
    assert t.fields == local + Lacking(d.value.fields, 0, local);
    assert t.fields[..|l|] == local && t.fields[|l|..] == Lacking(d.value.fields, 0, local);
    forall k | !KeyIn(local, k) ensures Lookup(t.fields, k) == Lookup(d.value.fields, k) {
      LookupAppend(local, Lacking(d.value.fields, 0, local), k);
      LookupLacking(d.value.fields, 0, local, k);
      assert d.value.fields[0..] == d.value.fields;
    }
  }

  /* ---------- References that print alike ---------- */

  const ALIASED: Json := Obj([Field("a/b", Obj([Field(REF, Str("#/a/b"))])), Field("a", Obj([Field("b", Obj([]))]))])

  lemma AliasTexts()
    ensures Join(Escaped(["a/b"]), '/') == "a~1b" && Join(Escaped(["a", "b"]), '/') == "a/b"
    ensures Join(["a/b"], '/') == "a/b" && Join(["a", "b"], '/') == "a/b"
  {
    assert EscapePart("a/b") == "a~1b" by {
      assert "a/b"[1..] == "/b" && "/b"[1..] == "b" && "b"[1..] == "";
    }
    assert EscapePart("a") == "a" && EscapePart("b") == "b";
    hide EscapePart;
    assert Escaped(["a/b"]) == ["a~1b"] && Escaped(["a", "b"]) == ["a", "b"];
    assert ["a", "b"][1..] == ["b"];
  }

  lemma AliasRefs()
    ensures RefOf("f", "#/a~1b") == Ok(Reference("f", ["a/b"]))
    ensures RefOf("f", "#/a/b") == Ok(Reference("f", ["a", "b"]))
    ensures Print(Reference("f", ["a/b"])) == Print(Reference("f", ["a", "b"]))
  {
    AliasTexts();
    hide RefOf; hide Escaped; hide Join;
    PointerRoundTripHere("f", ["a/b"]);
    PointerRoundTripHere("f", ["a", "b"]);
    assert "#/" + "a~1b" == "#/a~1b" && "#/" + "a/b" == "#/a/b";
  }

  lemma AliasLocated(docs: map<string, Json>)
    requires docs == map["f" := ALIASED]
    ensures Located(docs, Reference("f", ["a/b"])) == Ok(Obj([Field(REF, Str("#/a/b"))]))
    ensures Located(docs, Reference("f", ["a", "b"])) == Ok(Obj([]))
  {
    assert ["a/b"][1..] == [] && ["a", "b"][1..] == ["b"] && ["b"][1..] == [];
    assert ALIASED.fields[1..] == [ALIASED.fields[1]];
  }

  /** A node that is only a reference is the definition it names. */
  lemma OnlyRef(docs: map<string, Json>, node: Json, text: string, fuel: nat, stack: seq<Reference>)
    requires node == Obj([Field(REF, Str(text))])
    ensures Expand(docs, node, "f", fuel) == Merged([], ExpandTarget(docs, node, text, "f", fuel))
    ensures Flat(docs, node, "f", stack) == Merged([], FlatTarget(docs, node, text, "f", stack))
  {
    hide RefOf; hide Print; hide Located; hide Left; hide ExpandTarget; hide FlatTarget; hide Merged;
    assert ExpandFields(docs, node, 1, "f", fuel) == Ok([]);
    assert ExpandFields(docs, node, 0, "f", fuel) == Ok([]);
    assert FlatFields(docs, node, 1, "f", stack) == Ok([]);
    assert FlatFields(docs, node, 0, "f", stack) == Ok([]);
    assert Lookup(node.fields, REF) == Some(Str(text));
  }

  const ALIAS_DOCS := map["f" := ALIASED]
  const OUTER := Obj([Field(REF, Str("#/a~1b"))])
  const INNER := Obj([Field(REF, Str("#/a/b"))])

  lemma AliasedEnds()
    ensures Expand(ALIAS_DOCS, OUTER, "f", 2) == Ok(Obj([]))
  {
    hide RefOf; hide Located; hide Print;
    AliasRefs();
    AliasLocated(ALIAS_DOCS);
    assert ExpandFields(ALIAS_DOCS, Obj([]), 0, "f", 0) == Ok([]);
    assert Expand(ALIAS_DOCS, Obj([]), "f", 0) == Ok(Obj([]));
    OnlyRef(ALIAS_DOCS, INNER, "#/a/b", 1, []);
    OnlyRef(ALIAS_DOCS, OUTER, "#/a~1b", 2, []);
    hide Expand;
    assert ExpandTarget(ALIAS_DOCS, INNER, "#/a/b", "f", 1) == Ok(Obj([]));
    assert ExpandTarget(ALIAS_DOCS, OUTER, "#/a~1b", "f", 2) == Expand(ALIAS_DOCS, INNER, "f", 1);
  }

  /** Two different definitions whose references print alike: following them ends,
      yet a cycle is reported. */
  lemma AliasedReportsCycle()
    ensures Expand(ALIAS_DOCS, OUTER, "f", 2) == Ok(Obj([])) && Flat(ALIAS_DOCS, OUTER, "f", []) == Err("definition cycle")
  {
    hide RefOf; hide Print; hide Located; hide Left; hide Expand; hide ExpandTarget;
    var ref := Reference("f", ["a/b"]);
    var stack := [] + [ref];
    AliasRefs();
    AliasLocated(ALIAS_DOCS);
    AliasedEnds();
    OnlyRef(ALIAS_DOCS, INNER, "#/a/b", 1, stack);
    OnlyRef(ALIAS_DOCS, OUTER, "#/a~1b", 2, []);
    hide Flat;
    assert stack[0] == ref && Print(Reference("f", ["a", "b"])) in Seen(stack);
    assert FlatTarget(ALIAS_DOCS, INNER, "#/a/b", "f", stack) == Err("definition cycle");
    assert Seen([]) == {};
    assert FlatTarget(ALIAS_DOCS, OUTER, "#/a~1b", "f", []) == Flat(ALIAS_DOCS, INNER, "f", stack);
  }
}
