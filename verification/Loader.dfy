/** The schema compiler's loader (api/gen_dereference.go): source files cached as
    they are read, and the recursive methods that dereference and print them. */
module Loader {
  import opened Text
  import opened JsonTree
  import opened JsonReader
  import opened Dereference
  import opened Expansion

  /** What was built so far, and what is still to come. */
  function Prefixed<T>(done: seq<T>, rest: Result<seq<T>>): Result<seq<T>> {
    match rest
    case Ok(v) => Ok(done + v)
    case Err(e) => Err(e)
  }

  lemma PrefixedNext<T>(done: seq<T>, x: T, rest: Result<seq<T>>)
    ensures Prefixed(done + [x], rest) == Prefixed(done, Prefixed([x], rest))
  {
    assert rest.Ok? ==> done + ([x] + rest.value) == done + [x] + rest.value;
  }

  /** Adds the fields whose keys an object does not have. */
  method AddMissing(res: Object, extra: seq<Field>)
    requires res.Valid() && Distinct(extra)
    modifies res
    ensures res.Valid() && res.Fields() == old(res.Fields()) + Lacking(extra, 0, old(res.Fields()))
  {
    hide Put; hide KeyIn; hide Zip; hide Distinct;
    ghost var have := res.Fields();
    var i := 0;
    while i < |extra|
      invariant 0 <= i <= |extra| && res.Valid()
      invariant res.Fields() + Lacking(extra, i, have) == have + Lacking(extra, 0, have)
      invariant forall k :: i <= k < |extra| ==> (KeyIn(res.Fields(), extra[k].key) <==> KeyIn(have, extra[k].key))
    {
      var known := res.Has(extra[i].key);
      if !known {
        ghost var before := res.Fields();
        PutNew(before, extra[i].key, extra[i].value);
        assert before + ([extra[i]] + Lacking(extra, i + 1, have)) == before + [extra[i]] + Lacking(extra, i + 1, have);
        res.Set(extra[i].key, extra[i].value);
        KeyInAppended(before, extra[i], extra, i);
      }
      i := i + 1;
    }
    assert res.Fields() + [] == res.Fields();
  }

  lemma KeyInAppended(fields: seq<Field>, f: Field, extra: seq<Field>, i: nat)
    requires Distinct(extra) && i < |extra| && extra[i] == f
    ensures forall k :: i < k < |extra| ==> (KeyIn(fields + [f], extra[k].key) <==> KeyIn(fields, extra[k].key))
  {
    forall k | i < k < |extra| ensures KeyIn(fields + [f], extra[k].key) <==> KeyIn(fields, extra[k].key) {
      assert forall j :: 0 <= j < |fields| ==> (fields + [f])[j] == fields[j];
      assert (fields + [f])[|fields|].key != extra[k].key;
    }
  }

  /** Whether a reference prints like one being resolved. */
  method InCycle(ref: Reference, stack: seq<Reference>) returns (seen: bool)
    ensures seen <==> Print(ref) in Seen(stack)
  {
    var i := 0;
    while i < |stack|
      invariant 0 <= i <= |stack| && forall k :: 0 <= k < i ==> Print(stack[k]) != Print(ref)
    {
      if Print(stack[i]) == Print(ref) {
        return true;
      }
      i := i + 1;
    }
    seen := false;
  }

  class Loader {
    /** Every source file that can be read and parsed. */
    const disk: map<string, Json>

    /** The files read so far. */
    var docs: map<string, Json>

    ghost predicate Valid()
      reads this
    {
      ProperDocs(disk) && forall f :: f in docs ==> f in disk && docs[f] == disk[f]
    }

    constructor (disk: map<string, Json>)
      requires ProperDocs(disk)
      ensures Valid() && this.disk == disk && docs == map[]
    {
      this.disk := disk;
      docs := map[];
    }

    /** The cache never shows: a file is what is on disk. */
    method Load(file: string) returns (r: Result<Json>)
      requires Valid()
      modifies this
      ensures Valid()
      ensures r == if file in disk then Ok(disk[file]) else Err("no such file")
      ensures docs == if file in disk then old(docs)[file := disk[file]] else old(docs)
    {
      if file in docs {
        assert docs == docs[file := disk[file]];
        return Ok(docs[file]);
      }
      if file !in disk {
        return Err("no such file");
      }
      var doc := disk[file];
      docs := docs[file := doc];
      r := Ok(doc);
    }

    method Resolve(ref: Reference) returns (r: Result<Json>)
      requires Valid()
      modifies this
      ensures Valid() && r == Located(disk, ref)
    {
      r := Load(ref.file);
      if r.Err? {
        return;
      }
      var node := r.value;
      var i := 0;
      while i < |ref.pointer|
        invariant 0 <= i <= |ref.pointer| && Walk(node, ref.pointer[i..]) == Located(disk, ref)
      {
        if !node.Obj? {
          return Err("not in an object");
        }
        assert ref.pointer[i..][1..] == ref.pointer[i + 1..];
        var val := Lookup(node.fields, ref.pointer[i]);
        if val.None? {
          return Err("is unknown");
        }
        node := val.value;
        i := i + 1;
      }
      r := Ok(node);
    }

    method Dereference(node: Json, base: string, stack: seq<Reference>) returns (r: Result<Json>)
      requires Valid() && Proper(node)
      modifies this
      ensures Valid() && r == Flat(disk, node, base, stack)
      decreases Left(disk, node, base, stack), node, 3
    {
      match node {
        case Arr(xs) => r := DereferenceItems(node, base, stack);
        case Obj(fs) => r := DereferenceObject(node, base, stack);
        case _ => r := Ok(node);
      }
    }

    method DereferenceItems(node: Json, base: string, stack: seq<Reference>) returns (r: Result<Json>)
      requires Valid() && Proper(node) && node.Arr?
      modifies this
      ensures Valid() && r == Flat(disk, node, base, stack)
      decreases Left(disk, node, base, stack), node, 2
    {
      hide Left; hide Flat;
      var xs, res, i := node.items, [], 0;
      EmptyPrefix(FlatItems(disk, node, 0, base, stack));
      while i < |xs|
        invariant 0 <= i <= |xs| && Valid()
        invariant Prefixed(res, FlatItems(disk, node, i, base, stack)) == FlatItems(disk, node, 0, base, stack)
      {
        LeftOfItem(disk, node, i, base, stack);
        var item := Dereference(xs[i], base, stack);
        if item.Err? {
          ItemsFail(disk, node, base, stack, item.error);
          return item;
        }
        PrefixedNext(res, item.value, FlatItems(disk, node, i + 1, base, stack));
        res := res + [item.value];
        i := i + 1;
      }
      assert res + [] == res;
      ItemsDone(disk, node, base, stack, res);
      r := Ok(Arr(res));
    }

    method DereferenceFields(node: Json, base: string, stack: seq<Reference>) returns (r: Result<Object>)
      requires Valid() && Proper(node) && node.Obj?
      modifies this
      ensures Valid()
      ensures r.Err? ==> FlatFields(disk, node, 0, base, stack) == Err(r.error)
      ensures r.Ok? ==> fresh(r.value) && r.value.Valid() && FlatFields(disk, node, 0, base, stack) == Ok(r.value.Fields())
      decreases Left(disk, node, base, stack), node, 1
    {
      hide Left; hide Flat; hide Put; hide Zip; hide KeyIn; hide Words;
      var fs, i := node.fields, 0;
      var res := new Object();
      EmptyPrefix(FlatFields(disk, node, 0, base, stack));
      while i < |fs|
        invariant 0 <= i <= |fs| && Valid() && res.Valid() && fresh(res)
        invariant forall k :: 0 <= k < |res.Fields()| ==> exists j :: 0 <= j < i && fs[j].key == res.Fields()[k].key
        invariant Prefixed(res.Fields(), FlatFields(disk, node, i, base, stack)) == FlatFields(disk, node, 0, base, stack)
      {
        if fs[i].key != REF {
          LeftOfField(disk, node, i, base, stack);
          var item := Dereference(fs[i].value, base, stack);
          if item.Err? {
            return Err(item.error);
          }
          NewKey(fs, i, res.Fields());
          PutNew(res.Fields(), fs[i].key, item.value);
          PrefixedNext(res.Fields(), Field(fs[i].key, item.value), FlatFields(disk, node, i + 1, base, stack));
          res.Set(fs[i].key, item.value);
        }
        i := i + 1;
      }
      assert res.Fields() + [] == res.Fields();
      r := Ok(res);
    }

    method DereferenceObject(node: Json, base: string, stack: seq<Reference>) returns (r: Result<Json>)
      requires Valid() && Proper(node) && node.Obj?
      modifies this
      ensures Valid() && r == Flat(disk, node, base, stack)
      decreases Left(disk, node, base, stack), node, 2
    {
      hide Left;
      var fields := DereferenceFields(node, base, stack);
      if fields.Err? {
        return Err(fields.error);
      }
      var res := fields.value;
      var rawRef := Lookup(node.fields, REF);
      if rawRef.None? {
        return Ok(res.Tree());
      }
      if !rawRef.value.Str? {
        return Err("$ref is not a string");
      }
      var target := DereferenceTarget(node, rawRef.value.text, base, stack);
      if target.Err? {
        return target;
      }
      if !target.value.Obj? {
        return Err("does not reference an object");
      }
      AddMissing(res, target.value.fields);
      r := Ok(res.Tree());
    }

    method DereferenceTarget(node: Json, text: string, base: string, stack: seq<Reference>) returns (r: Result<Json>)
      requires Valid() && node.Obj? && Lookup(node.fields, REF) == Some(Str(text))
      modifies this
      ensures Valid() && r == FlatTarget(disk, node, text, base, stack)
      ensures r.Ok? ==> Proper(r.value)
      decreases Left(disk, node, base, stack), node, 0
    {
      hide Left; hide Flat; hide Walk; hide RefOf;
      var parsed := ParseRef(base, text);
      if parsed.Err? {
        return Err(parsed.error);
      }
      var ref := parsed.value;
      var cycle := InCycle(ref, stack);
      if cycle {
        return Err("definition cycle");
      }
      var target := Resolve(ref);
      if target.Err? {
        return target;
      }
      RefWord(node, text);
      LeftOfTarget(disk, node, text, base, stack);
      WalkProper(disk[ref.file], ref.pointer);
      r := Dereference(target.value, ref.file, stack + [ref]);
      if r.Ok? {
        FlatGood(disk, target.value, ref.file, stack + [ref]);
      }
    }

    /** One schema: loaded, dereferenced and printed. */
    method Compile(file: string) returns (r: Result<string>)
      requires Valid()
      modifies this
      ensures Valid() && r == Compiled(disk, file)
    {
      var doc := Load(file);
      if doc.Err? {
        return Err(doc.error);
      }
      var res := Dereference(doc.value, file, []);
      if res.Err? {
        return Err(res.error);
      }
      var buf := new Printer();
      buf.Encode(res.value, 0);
      assert buf.out == Show(res.value, 0);
      r := Ok(buf.out + "\n");
    }
  }

  /** A key is new to an object built from the keys before it. */
  lemma NewKey(fs: seq<Field>, i: nat, fields: seq<Field>)
    requires Distinct(fs) && i < |fs|
    requires forall k :: 0 <= k < |fields| ==> exists j :: 0 <= j < i && fs[j].key == fields[k].key
    ensures !KeyIn(fields, fs[i].key)
  {
  }

  lemma EmptyPrefix<T>(r: Result<seq<T>>)
    ensures Prefixed([], r) == r
  {
    assert r.Ok? ==> [] + r.value == r.value;
  }

  lemma ItemsFail(docs: map<string, Json>, node: Json, base: string, stack: seq<Reference>, e: string)
    requires node.Arr? && FlatItems(docs, node, 0, base, stack) == Err(e)
    ensures Flat(docs, node, base, stack) == Err(e)
  {
  }

  lemma ItemsDone(docs: map<string, Json>, node: Json, base: string, stack: seq<Reference>, items: seq<Json>)
    requires node.Arr? && FlatItems(docs, node, 0, base, stack) == Ok(items)
    ensures Flat(docs, node, base, stack) == Ok(Arr(items))
  {
  }

  /** The text of a compiled schema. */
  function Compiled(disk: map<string, Json>, file: string): Result<string> {
    if file !in disk then Err("no such file")
    else match Flat(disk, disk[file], file, [])
      case Ok(t) => Ok(Show(t, 0) + "\n")
      case Err(e) => Err(e)
  }

  /** What a compiled schema says: read again, it is a tree with no reference at any
      depth, the one that following references in the source yields, and
      dereferencing it again changes nothing. */
  lemma CompiledReadsBack(disk: map<string, Json>, file: string)
    requires ProperDocs(disk) && Compiled(disk, file).Ok?
    ensures var parsed := Parse(Compiled(disk, file).value);
            && parsed.Ok? && parsed.value.1 == []
            && RefFree(parsed.value.0)
            && (exists fuel :: Expand(disk, disk[file], file, fuel) == Ok(parsed.value.0))
            && Compiled(disk[file := parsed.value.0], file) == Compiled(disk, file)
  {
    var t := Flat(disk, disk[file], file, []).value;
    FlatGood(disk, disk[file], file, []);
    PrintedReadsBack(t, 0);
    DereferenceExact(disk, disk[file], file, t);
    FlatFixed(disk[file := t], t, file, []);
  }
}
