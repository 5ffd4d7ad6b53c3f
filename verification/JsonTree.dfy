/** The ordered JSON trees of the schema dereferencer (api/gen_dereference.go):
    objects that remember the order of their keys, the printer, and reading the
    printed text back. The tokenizer stands for the standard library's decoder:
    sections 6 and 7 of RFC 8259 for numbers and strings. */
module JsonTree {
  import opened Text

  /** An object is the list of its keys, each with its value. */
  datatype Json = Null | Bool(b: bool) | Num(literal: string) | Str(text: string) | Arr(items: seq<Json>) | Obj(fields: seq<Field>)

  datatype Field = Field(key: string, value: Json)

  /* ---------- Ordered objects ---------- */

  predicate KeyIn(fields: seq<Field>, k: string) {
    exists i :: 0 <= i < |fields| && fields[i].key == k
  }

  predicate Distinct(fields: seq<Field>) {
    forall i, j :: 0 <= i < j < |fields| ==> fields[i].key != fields[j].key
  }

  /** The value under a key. */
  function Lookup(fields: seq<Field>, k: string): (r: Option<Json>)
    ensures r.Some? <==> KeyIn(fields, k)
    ensures r.Some? ==> Field(k, r.value) in fields
  {
    if fields == [] then None
    else if fields[0].key == k then Some(fields[0].value)
    else
      assert forall i :: 1 <= i < |fields| ==> fields[i] == fields[1..][i - 1];
      Lookup(fields[1..], k)
  }

  lemma {:induction false} LookupAt(fields: seq<Field>, i: nat)
    requires Distinct(fields) && i < |fields|
    ensures Lookup(fields, fields[i].key) == Some(fields[i].value)
  {
    if i > 0 {
      assert fields[0].key != fields[i].key;
      LookupAt(fields[1..], i - 1);
    }
  }

  /** A new key goes last, a known one keeps its place. */
  function Put(fields: seq<Field>, k: string, v: Json): seq<Field> {
    if fields == [] then [Field(k, v)]
    else if fields[0].key == k then [Field(k, v)] + fields[1..]
    else [fields[0]] + Put(fields[1..], k, v)
  }

  lemma {:induction false} PutNew(fields: seq<Field>, k: string, v: Json)
    requires !KeyIn(fields, k)
    ensures Put(fields, k, v) == fields + [Field(k, v)]
  {
    if fields != [] {
      assert fields[0].key != k;
      assert forall i :: 0 <= i < |fields[1..]| ==> fields[1..][i] == fields[i + 1];
      PutNew(fields[1..], k, v);
    }
  }

  lemma {:induction false} PutKnown(fields: seq<Field>, i: nat, v: Json)
    requires Distinct(fields) && i < |fields|
    ensures Put(fields, fields[i].key, v) == fields[i := Field(fields[i].key, v)]
  {
    if i > 0 {
      assert fields[0].key != fields[i].key;
      PutKnown(fields[1..], i - 1, v);
    }
  }

  predicate NoRepeats(keys: seq<string>) {
    forall i, j :: 0 <= i < j < |keys| ==> keys[i] != keys[j]
  }

  /** The fields of an object kept as its keys in order and its values by key. */
  function Zip(keys: seq<string>, vals: map<string, Json>): (r: seq<Field>)
    requires forall k :: k in keys ==> k in vals
    ensures |r| == |keys|
    ensures forall i :: 0 <= i < |r| ==> keys[i] in vals && r[i] == Field(keys[i], vals[keys[i]])
  {
    assert forall i :: 0 <= i < |keys| ==> keys[i] in keys;
    seq(|keys|, i requires 0 <= i < |keys| && keys[i] in vals => Field(keys[i], vals[keys[i]]))
  }

  lemma ZipNew(keys: seq<string>, vals: map<string, Json>, k: string, v: Json)
    requires (forall x :: x in keys ==> x in vals) && k !in keys
    ensures Zip(keys + [k], vals[k := v]) == Put(Zip(keys, vals), k, v)
  {
    var before := Zip(keys, vals);
    assert forall i :: 0 <= i < |keys| ==> keys[i] in keys;
    PutNew(before, k, v);
    assert Zip(keys + [k], vals[k := v]) == before + [Field(k, v)];
  }

  lemma ZipKnown(keys: seq<string>, vals: map<string, Json>, i: nat, v: Json)
    requires (forall x :: x in keys ==> x in vals) && NoRepeats(keys) && i < |keys|
    ensures Zip(keys, vals[keys[i] := v]) == Put(Zip(keys, vals), keys[i], v)
  {
    var before := Zip(keys, vals);
    PutKnown(before, i, v);
    assert Zip(keys, vals[keys[i] := v]) == before[i := Field(keys[i], v)];
  }

  /** An object being built: its keys in order and its values by key. */
  class Object {
    var keys: seq<string>
    var vals: map<string, Json>

    ghost predicate Valid()
      reads this
    {
      NoRepeats(keys) && forall k :: k in vals <==> k in keys
    }

    function Fields(): (r: seq<Field>)
      reads this
      requires Valid()
      ensures Distinct(r)
    {
      Zip(keys, vals)
    }

    constructor ()
      ensures Valid() && Fields() == []
    {
      keys, vals := [], map[];
    }

    /** The object as a tree node. */
    function Tree(): Json
      reads this
      requires Valid()
    {
      Obj(Fields())
    }

    method Set(k: string, v: Json)
      requires Valid()
      modifies this
      ensures Valid() && Fields() == Put(old(Fields()), k, v)
    {
      if k !in vals {
        ZipNew(keys, vals, k, v);
        keys := keys + [k];
      } else {
        ghost var i :| 0 <= i < |keys| && keys[i] == k;
        ZipKnown(keys, vals, i, v);
      }
      vals := vals[k := v];
    }

    method Get(k: string) returns (r: Option<Json>)
      requires Valid()
      ensures r == Lookup(Fields(), k)
    {
      r := if k in vals then Some(vals[k]) else None;
      if k in vals {
        ghost var i :| 0 <= i < |keys| && keys[i] == k;
        LookupAt(Fields(), i);
      }
    }

    method Has(k: string) returns (known: bool)
      requires Valid()
      ensures known == KeyIn(Fields(), k)
    {
      known := k in vals;
      if known {
        ghost var i :| 0 <= i < |keys| && keys[i] == k;
        assert Fields()[i].key == k;
      }
    }
  }

  /* ---------- Well-formed trees ---------- */

  predicate Digit(c: char) {
    '0' <= c <= '9'
  }

  /** How many digits come first. */
  function Digits(s: string): (n: nat)
    ensures n <= |s| && forall i :: 0 <= i < n ==> Digit(s[i])
  {
    if s != "" && Digit(s[0]) then 1 + Digits(s[1..]) else 0
  }

  /** The number grammar of section 6 of RFC 8259. */
  predicate IsNumber(s: string) {
    var a := if s != "" && s[0] == '-' then s[1..] else s;
    var d := Digits(a);
    d > 0 && (a[0] == '0' ==> d == 1) && IsFraction(a[d..])
  }

  predicate IsFraction(s: string) {
    if s != "" && s[0] == '.' then Digits(s[1..]) > 0 && IsExponent(s[1 + Digits(s[1..])..]) else IsExponent(s)
  }

  predicate IsExponent(s: string) {
    s == "" ||
    ((s[0] == 'e' || s[0] == 'E') &&
     var b := if |s| > 1 && (s[1] == '+' || s[1] == '-') then s[2..] else s[1..];
     b != "" && Digits(b) == |b|)
  }

  predicate NumberChar(c: char) {
    Digit(c) || c == '-' || c == '+' || c == '.' || c == 'e' || c == 'E'
  }

  predicate AllNumberChars(s: string) {
    forall i :: 0 <= i < |s| ==> NumberChar(s[i])
  }

  lemma ExponentChars(s: string)
    requires IsExponent(s)
    ensures AllNumberChars(s)
  {
    if s != "" {
      var k := if |s| > 1 && (s[1] == '+' || s[1] == '-') then 2 else 1;
      assert s == s[..k] + s[k..];
    }
  }

  lemma FractionChars(s: string)
    requires IsFraction(s)
    ensures AllNumberChars(s)
  {
    if s != "" && s[0] == '.' {
      var d := Digits(s[1..]);
      ExponentChars(s[1 + d..]);
      assert s == ['.'] + s[1..][..d] + s[1 + d..];
    } else {
      ExponentChars(s);
    }
  }

  lemma NumberChars(s: string)
    requires IsNumber(s)
    ensures s != "" && AllNumberChars(s)
  {
    var k := if s[0] == '-' then 1 else 0;
    var a := s[k..];
    var d := Digits(a);
    FractionChars(a[d..]);
    assert s == s[..k] + a[..d] + a[d..];
  }

  /** Keys are distinct at every depth and number literals are numbers: what the
      decoder builds. */
  predicate Proper(v: Json) {
    match v
    case Arr(xs) => ProperItems(xs)
    case Obj(fs) => Distinct(fs) && ProperFields(fs)
    case Num(l) => IsNumber(l)
    case _ => true
  }

  predicate ProperItems(xs: seq<Json>) {
    forall i :: 0 <= i < |xs| ==> Proper(xs[i])
  }

  predicate ProperFields(fs: seq<Field>) {
    forall i :: 0 <= i < |fs| ==> Proper(fs[i].value)
  }

  /* ---------- Printing ---------- */

  const BACKSPACE: char := 8 as char
  const FORMFEED: char := 12 as char

  function HexDigit(n: nat): char
    requires n < 16
  {
    if n < 10 then ('0' as int + n) as char else ('a' as int + n - 10) as char
  }

  function EscapeChar(c: char): string {
    if c == '"' then "\\\""
    else if c == '\\' then "\\\\"
    else if c == '\n' then "\\n"
    else if c == '\r' then "\\r"
    else if c == '\t' then "\\t"
    else if c == BACKSPACE then "\\b"
    else if c == FORMFEED then "\\f"
    else if c < ' ' then "\\u00" + [HexDigit(c as int / 16), HexDigit(c as int % 16)]
    else [c]
  }

  function EscapeFrom(s: string, i: nat): string
    requires i <= |s|
    decreases |s| - i
  {
    if i == |s| then "" else EscapeChar(s[i]) + EscapeFrom(s, i + 1)
  }

  function Quote(s: string): string {
    "\"" + EscapeFrom(s, 0) + "\""
  }

  function Indent(depth: nat): (r: string)
    ensures forall i :: 0 <= i < |r| ==> r[i] == ' '
  {
    if depth == 0 then "" else Indent(depth - 1) + "  "
  }

  /** The printed text of a tree. */
  function Show(v: Json, depth: nat): string
    decreases v
  {
    match v
    case Obj(fs) => if fs == [] then "{}" else "{\n" + ShowFields(fs, 0, depth + 1) + "\n" + Indent(depth) + "}"
    case Arr(xs) => if xs == [] then "[]" else "[\n" + ShowItems(xs, 0, depth + 1) + "\n" + Indent(depth) + "]"
    case Str(s) => Quote(s)
    case Num(l) => l
    case Bool(b) => if b then "true" else "false"
    case Null => "null"
  }

  /** What comes before an item: the separator, and the indent of its line. */
  function Lead(i: nat, depth: nat): string {
    (if i > 0 then ",\n" else "") + Indent(depth)
  }

  function ShowItems(xs: seq<Json>, i: nat, depth: nat): string
    requires i <= |xs|
    decreases xs, |xs| - i
  {
    if i == |xs| then "" else Lead(i, depth) + Show(xs[i], depth) + ShowItems(xs, i + 1, depth)
  }

  function ShowFields(fs: seq<Field>, i: nat, depth: nat): string
    requires i <= |fs|
    decreases fs, |fs| - i
  {
    if i == |fs| then "" else Lead(i, depth) + ShowField(fs[i], depth) + ShowFields(fs, i + 1, depth)
  }

  function ShowField(f: Field, depth: nat): string
    decreases f
  {
    Quote(f.key) + ": " + Show(f.value, depth)
  }

  lemma Regroup(a: string, b: string, c: string)
    ensures a + (b + c) == a + b + c
  {
  }

  /** The buffer the printer appends to. */
  class Printer {
    var out: string

    constructor ()
      ensures out == ""
    {
      out := "";
    }

    method WriteIndent(depth: nat)
      modifies this
      ensures out == old(out) + Indent(depth)
    {
      var i := 0;
      while i < depth
        invariant 0 <= i <= depth && out == old(out) + Indent(i)
      {
        out := out + "  ";
        i := i + 1;
      }
    }

    /** One character of a string, escaped when it must be. */
    method WriteRune(c: char)
      modifies this
      ensures out == old(out) + EscapeChar(c)
    {
      if c == '"' {
        out := out + "\\\"";
      } else if c == '\\' {
        out := out + "\\\\";
      } else if c == '\n' {
        out := out + "\\n";
      } else if c == '\r' {
        out := out + "\\r";
      } else if c == '\t' {
        out := out + "\\t";
      } else if c == BACKSPACE {
        out := out + "\\b";
      } else if c == FORMFEED {
        out := out + "\\f";
      } else if c < ' ' {
        out := out + "\\u00" + [HexDigit(c as int / 16), HexDigit(c as int % 16)];
      } else {
        out := out + [c];
      }
    }

    method WriteString(s: string)
      modifies this
      ensures out == old(out) + Quote(s)
    {
      hide EscapeChar;
      out := out + "\"";
      var i := 0;
      while i < |s|
        invariant 0 <= i <= |s| && out + EscapeFrom(s, i) == old(out) + "\"" + EscapeFrom(s, 0)
      {
        Regroup(out, EscapeChar(s[i]), EscapeFrom(s, i + 1));
        WriteRune(s[i]);
        i := i + 1;
      }
      assert out == old(out) + "\"" + EscapeFrom(s, 0);
      out := out + "\"";
    }

    method WriteLead(i: nat, depth: nat)
      modifies this
      ensures out == old(out) + Lead(i, depth)
    {
      if i > 0 {
        out := out + ",\n";
      }
      WriteIndent(depth);
    }

    method Encode(v: Json, depth: nat)
      modifies this
      ensures out == old(out) + Show(v, depth)
      decreases v, 1
    {
      match v {
        case Obj(fs) => EncodeObject(fs, depth);
        case Arr(xs) => EncodeArray(xs, depth);
        case Str(s) => WriteString(s);
        case Num(l) => out := out + l;
        case Bool(b) => out := out + if b then "true" else "false";
        case Null => out := out + "null";
      }
    }

    method EncodeObject(fs: seq<Field>, depth: nat)
      modifies this
      ensures out == old(out) + Show(Obj(fs), depth)
      decreases Obj(fs), 0
    {
      if |fs| == 0 {
        out := out + "{}";
        return;
      }
      hide Lead; hide Indent;
      out := out + "{\n";
      var i := 0;
      while i < |fs|
        invariant 0 <= i <= |fs|
        invariant out + ShowFields(fs, i, depth + 1) == old(out) + "{\n" + ShowFields(fs, 0, depth + 1)
      {
        hide Show; hide ShowField;
        Regroup(out, Lead(i, depth + 1) + ShowField(fs[i], depth + 1), ShowFields(fs, i + 1, depth + 1));
        Regroup(out, Lead(i, depth + 1), ShowField(fs[i], depth + 1));
        WriteLead(i, depth + 1);
        EncodeField(fs[i], depth + 1);
        i := i + 1;
      }
      assert out == old(out) + "{\n" + ShowFields(fs, 0, depth + 1);
      out := out + "\n";
      WriteIndent(depth);
      out := out + "}";
      assert out == old(out) + ("{\n" + ShowFields(fs, 0, depth + 1) + "\n" + Indent(depth) + "}");
    }

    method EncodeField(f: Field, depth: nat)
      modifies this
      ensures out == old(out) + ShowField(f, depth)
      decreases f
    {
      hide Show; hide Quote;
      WriteString(f.key);
      out := out + ": ";
      Encode(f.value, depth);
    }

    method EncodeArray(xs: seq<Json>, depth: nat)
      modifies this
      ensures out == old(out) + Show(Arr(xs), depth)
      decreases Arr(xs), 0
    {
      if |xs| == 0 {
        out := out + "[]";
        return;
      }
      hide Lead; hide Indent;
      out := out + "[\n";
      var i := 0;
      while i < |xs|
        invariant 0 <= i <= |xs|
        invariant out + ShowItems(xs, i, depth + 1) == old(out) + "[\n" + ShowItems(xs, 0, depth + 1)
      {
        hide Show;
        Regroup(out, Lead(i, depth + 1) + Show(xs[i], depth + 1), ShowItems(xs, i + 1, depth + 1));
        Regroup(out, Lead(i, depth + 1), Show(xs[i], depth + 1));
        WriteLead(i, depth + 1);
        Encode(xs[i], depth + 1);
        i := i + 1;
      }
      assert out == old(out) + "[\n" + ShowItems(xs, 0, depth + 1);
      out := out + "\n";
      WriteIndent(depth);
      out := out + "]";
      assert out == old(out) + ("[\n" + ShowItems(xs, 0, depth + 1) + "\n" + Indent(depth) + "]");
    }
  }
}
