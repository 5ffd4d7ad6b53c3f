/** Reading trees (api/gen_dereference.go): a tokenizer that stands for the
    standard library's decoder, following RFC 8259, and the tree builder over its
    tokens. Reading what the printer wrote gives the tree back. */
module JsonReader {
  import opened Text
  import opened JsonTree

  /* ---------- Tokens ---------- */

  datatype Token = Delim(c: char) | Scalar(v: Json)

  predicate Space(c: char) {
    c == ' ' || c == '\n' || c == '\r' || c == '\t'
  }

  predicate Punctuation(c: char) {
    c == '{' || c == '}' || c == '[' || c == ']' || c == ',' || c == ':'
  }

  /** The value of four hexadecimal digits. */
  function HexValue(c: char): Option<nat> {
    if '0' <= c <= '9' then Some(c as int - '0' as int)
    else if 'a' <= c <= 'f' then Some(c as int - 'a' as int + 10)
    else if 'A' <= c <= 'F' then Some(c as int - 'A' as int + 10)
    else None
  }

  function Hex4(s: string): Option<nat>
    requires |s| >= 4
  {
    var a, b, c, d := HexValue(s[0]), HexValue(s[1]), HexValue(s[2]), HexValue(s[3]);
    if a.None? || b.None? || c.None? || d.None? then None
    else Some(((a.value * 16 + b.value) * 16 + c.value) * 16 + d.value)
  }

  /** What follows a backslash: the character meant and how many were read. */
  function Unescape(s: string): (r: Option<(char, nat)>)
    ensures r.Some? ==> 0 < r.value.1 <= |s|
  {
    if s == "" then None
    else if s[0] == '"' || s[0] == '\\' || s[0] == '/' then Some((s[0], 1))
    else if s[0] == 'n' then Some(('\n', 1))
    else if s[0] == 'r' then Some(('\r', 1))
    else if s[0] == 't' then Some(('\t', 1))
    else if s[0] == 'b' then Some((BACKSPACE, 1))
    else if s[0] == 'f' then Some((FORMFEED, 1))
    else if s[0] == 'u' && |s| > 4 then
      match Hex4(s[1..]) {
        case Some(n) => if n < 0xD800 || 0xE000 <= n < 0x10000 then Some((n as char, 5)) else None
        case None => None
      }
    else None
  }

  function Prepend(c: char, r: Option<(string, string)>): Option<(string, string)> {
    match r
    case Some((t, rest)) => Some(([c] + t, rest))
    case None => None
  }

  /** A string after its opening quote: its text, and what follows the closing one. */
  function ReadString(s: string): (r: Option<(string, string)>)
    ensures r.Some? ==> |r.value.1| < |s|
    decreases |s|
  {
    if s == "" then None
    else if s[0] == '"' then Some(("", s[1..]))
    else if s[0] == '\\' then
      match Unescape(s[1..]) {
        case Some((c, k)) => Prepend(c, ReadString(s[1 + k..]))
        case None => None
      }
    else if s[0] < ' ' then None
    else Prepend(s[0], ReadString(s[1..]))
  }

  /** How many characters that may stand in a number come first. */
  function NumberRun(s: string): (n: nat)
    ensures n <= |s|
  {
    if s != "" && NumberChar(s[0]) then 1 + NumberRun(s[1..]) else 0
  }

  /** Tokens in front of what is read after them. */
  function Append(ts: seq<Token>, r: Option<seq<Token>>): Option<seq<Token>> {
    match r
    case Some(us) => Some(ts + us)
    case None => None
  }

  /** The tokens of a text, separators included. */
  function Lex(s: string): Option<seq<Token>>
    decreases |s|
  {
    if s == "" then Some([])
    else if Space(s[0]) then Lex(s[1..])
    else if Punctuation(s[0]) then Append([Delim(s[0])], Lex(s[1..]))
    else if s[0] == '"' then
      match ReadString(s[1..]) {
        case Some((t, rest)) => Append([Scalar(Str(t))], Lex(rest))
        case None => None
      }
    else if NumberChar(s[0]) then
      var n := NumberRun(s);
      if IsNumber(s[..n]) then Append([Scalar(Num(s[..n]))], Lex(s[n..])) else None
    else if "null" <= s then Append([Scalar(Null)], Lex(s[4..]))
    else if "true" <= s then Append([Scalar(Bool(true))], Lex(s[4..]))
    else if "false" <= s then Append([Scalar(Bool(false))], Lex(s[5..]))
    else None
  }

  /** The tokens a tree consists of: commas between items, colons after keys. */
  function Tokens(v: Json): seq<Token>
    decreases v
  {
    match v
    case Obj(fs) => [Delim('{')] + FieldTokens(fs, 0) + [Delim('}')]
    case Arr(xs) => [Delim('[')] + ItemTokens(xs, 0) + [Delim(']')]
    case _ => [Scalar(v)]
  }

  function Comma(i: nat): seq<Token> {
    if i > 0 then [Delim(',')] else []
  }

  function ItemTokens(xs: seq<Json>, i: nat): seq<Token>
    requires i <= |xs|
    decreases xs, |xs| - i
  {
    if i == |xs| then [] else Comma(i) + Tokens(xs[i]) + ItemTokens(xs, i + 1)
  }

  function FieldTokens(fs: seq<Field>, i: nat): seq<Token>
    requires i <= |fs|
    decreases fs, |fs| - i
  {
    if i == |fs| then [] else
      Comma(i) + ([Scalar(Str(fs[i].key)), Delim(':')] + Tokens(fs[i].value)) + FieldTokens(fs, i + 1)
  }

  /* ---------- Strings ---------- */

  lemma HexRoundTrip(n: nat)
    requires n < 16
    ensures HexValue(HexDigit(n)) == Some(n)
  {
  }

  /** Reading an escaped character gives it back. */
  lemma RuneReadsBack(c: char, rest: string)
    ensures ReadString(EscapeChar(c) + rest) == Prepend(c, ReadString(rest))
  {
    var e := EscapeChar(c);
    if |e| == 1 {
      assert (e + rest)[1..] == rest;
    } else if |e| == 2 {
      assert (e + rest)[1..][0] == e[1];
      assert (e + rest)[2..] == rest;
    } else {
      HexRoundTrip(c as int / 16);
      HexRoundTrip(c as int % 16);
      var t := (e + rest)[1..];
      assert t[0] == 'u' && t[1..][0] == '0' && t[1..][1] == '0' && t[1..][2] == e[4] && t[1..][3] == e[5];
      assert Hex4(t[1..]) == Some(c as int);
      assert (e + rest)[6..] == rest;
    }
  }

  lemma {:induction false} StringReadsBackFrom(s: string, i: nat, rest: string)
    requires i <= |s|
    ensures ReadString(EscapeFrom(s, i) + "\"" + rest) == Some((s[i..], rest))
    decreases |s| - i
  {
    hide EscapeChar;
    var tail := EscapeFrom(s, i) + "\"" + rest;
    if i == |s| {
      assert tail[0] == '"' && tail[1..] == rest && s[i..] == "";
    } else {
      var more := EscapeFrom(s, i + 1) + "\"" + rest;
      StringReadsBackFrom(s, i + 1, rest);
      assert tail == EscapeChar(s[i]) + more;
      RuneReadsBack(s[i], more);
      assert s[i..] == [s[i]] + s[i + 1..];
    }
  }

  /** Every string is read back from its quoted form, and nothing after it is. */
  lemma QuoteReadsBack(s: string, rest: string)
    ensures Lex(Quote(s) + rest) == Append([Scalar(Str(s))], Lex(rest))
  {
    hide ReadString; hide EscapeFrom; hide IsNumber; hide NumberRun;
    var t := EscapeFrom(s, 0) + "\"" + rest;
    StringReadsBackFrom(s, 0, rest);
    assert s[0..] == s;
    assert (Quote(s) + rest)[0] == '"' && (Quote(s) + rest)[1..] == t;
  }

  /** A quoted string holds no raw control character. */
  lemma {:induction false} QuoteIsClean(s: string, i: nat)
    requires i <= |s|
    ensures forall k :: 0 <= k < |EscapeFrom(s, i)| ==> EscapeFrom(s, i)[k] >= ' '
    decreases |s| - i
  {
    if i < |s| {
      QuoteIsClean(s, i + 1);
      assert forall k :: 0 <= k < |EscapeChar(s[i])| ==> EscapeChar(s[i])[k] >= ' ';
    }
  }

  /* ---------- Numbers ---------- */

  lemma {:induction false} RunIsLiteral(l: string, rest: string)
    requires AllNumberChars(l) && (rest == "" || !NumberChar(rest[0]))
    ensures NumberRun(l + rest) == |l|
  {
    if l == "" {
      assert l + rest == rest;
    } else {
      RunIsLiteral(l[1..], rest);
      assert (l + rest)[1..] == l[1..] + rest;
    }
  }

  lemma NumberReadsBack(l: string, rest: string)
    requires IsNumber(l) && (rest == "" || !NumberChar(rest[0]))
    ensures Lex(l + rest) == Append([Scalar(Num(l))], Lex(rest))
  {
    NumberChars(l);
    hide IsNumber;
    RunIsLiteral(l, rest);
    assert (l + rest)[..|l|] == l && (l + rest)[|l|..] == rest;
    assert (l + rest)[0] == l[0];
  }

  /* ---------- The printed text ---------- */

  lemma {:induction false} LexSpaces(w: string, rest: string)
    requires forall i :: 0 <= i < |w| ==> Space(w[i])
    ensures Lex(w + rest) == Lex(rest)
  {
    if w == "" {
      assert w + rest == rest;
    } else {
      LexSpaces(w[1..], rest);
      assert (w + rest)[1..] == w[1..] + rest;
    }
  }

  lemma LexDelim(c: char, rest: string)
    requires Punctuation(c)
    ensures Lex([c] + rest) == Append([Delim(c)], Lex(rest))
  {
    assert ([c] + rest)[1..] == rest;
  }

  lemma LexWord(b: bool, rest: string)
    ensures Lex("null" + rest) == Append([Scalar(Null)], Lex(rest))
    ensures Lex((if b then "true" else "false") + rest) == Append([Scalar(Bool(b))], Lex(rest))
  {
    hide IsNumber; hide NumberRun; hide ReadString;
    var w := if b then "true" else "false";
    assert ("null" + rest)[4..] == rest && ("null" + rest)[0] == 'n';
    assert (w + rest)[|w|..] == rest && (w + rest)[0] == w[0];
    assert "null" <= "null" + rest && w <= w + rest;
  }

  lemma Appends(a: seq<Token>, b: seq<Token>, r: Option<seq<Token>>)
    ensures Append(a, Append(b, r)) == Append(a + b, r)
  {
    if r.Some? {
      assert a + (b + r.value) == a + b + r.value;
    }
  }

  lemma AppendNothing(r: Option<seq<Token>>)
    ensures Append([], r) == r
  {
    assert r.Some? ==> [] + r.value == r.value;
  }

  /** Text that cannot run on into a number before it. */
  predicate Breaks(rest: string) {
    rest == "" || !NumberChar(rest[0])
  }

  lemma LeadReadsBack(i: nat, depth: nat, rest: string)
    ensures Lex(Lead(i, depth) + rest) == Append(Comma(i), Lex(rest))
    ensures i > 0 ==> Breaks(Lead(i, depth) + rest)
  {
    var w := Indent(depth);
    if i > 0 {
      assert Lead(i, depth) + rest == [','] + (['\n'] + w + rest);
      LexDelim(',', ['\n'] + w + rest);
      LexSpaces(['\n'] + w, rest);
    } else {
      assert Lead(i, depth) == w;
      LexSpaces(w, rest);
      AppendNothing(Lex(rest));
    }
  }

  /** The text of a tree, followed by anything, reads as the tree's tokens followed
      by what the rest reads as. */
  lemma {:induction false} ShowReadsBack(v: Json, depth: nat, rest: string)
    requires Proper(v) && Breaks(rest)
    ensures Lex(Show(v, depth) + rest) == Append(Tokens(v), Lex(rest))
    decreases v
  {
    hide Quote; hide Indent; hide Lex; hide Lead; hide IsNumber; hide NumberRun;
    match v {
      case Obj(fs) =>
        FieldsReadBack(fs, depth, rest);
      case Arr(xs) =>
        ItemsReadBack(xs, depth, rest);
      case Str(s) => QuoteReadsBack(s, rest);
      case Num(l) => NumberReadsBack(l, rest);
      case Bool(b) => LexWord(b, rest);
      case Null => LexWord(true, rest);
    }
  }

  /** The closing line of an array or object. */
  lemma ClosingReadsBack(c: char, depth: nat, rest: string)
    requires Punctuation(c)
    ensures Lex("\n" + Indent(depth) + [c] + rest) == Append([Delim(c)], Lex(rest))
    ensures Breaks("\n" + Indent(depth) + [c] + rest)
  {
    LexSpaces("\n" + Indent(depth), [c] + rest);
    assert "\n" + Indent(depth) + ([c] + rest) == "\n" + Indent(depth) + [c] + rest;
    LexDelim(c, rest);
  }

  /** An array or object around its printed items. */
  lemma AroundReadsBack(o: char, inner: string, c: char, ts: seq<Token>, depth: nat, rest: string)
    requires Punctuation(o) && Punctuation(c)
    requires var closing := "\n" + Indent(depth) + [c] + rest; Lex(inner + closing) == Append(ts, Lex(closing))
    ensures Lex([o] + "\n" + inner + "\n" + Indent(depth) + [c] + rest) == Append([Delim(o)] + ts + [Delim(c)], Lex(rest))
  {
    hide Lex; hide Indent; hide Append; hide Breaks;
    var closing := "\n" + Indent(depth) + [c] + rest;
    assert [o] + "\n" + inner + "\n" + Indent(depth) + [c] + rest == [o] + (['\n'] + (inner + closing));
    LexDelim(o, ['\n'] + (inner + closing));
    LexSpaces(['\n'], inner + closing);
    ClosingReadsBack(c, depth, rest);
    Appends(ts, [Delim(c)], Lex(rest));
    Appends([Delim(o)], ts + [Delim(c)], Lex(rest));
    assert [Delim(o)] + (ts + [Delim(c)]) == [Delim(o)] + ts + [Delim(c)];
  }

  lemma EmptyReadsBack(o: char, c: char, rest: string)
    requires Punctuation(o) && Punctuation(c)
    ensures Lex([o, c] + rest) == Append([Delim(o), Delim(c)], Lex(rest))
  {
    hide Lex;
    assert [o, c] + rest == [o] + ([c] + rest);
    LexDelim(o, [c] + rest);
    LexDelim(c, rest);
    Appends([Delim(o)], [Delim(c)], Lex(rest));
    assert [Delim(o)] + [Delim(c)] == [Delim(o), Delim(c)];
  }

  lemma {:induction false} ItemsReadBack(xs: seq<Json>, depth: nat, rest: string)
    requires ProperItems(xs)
    ensures Lex(Show(Arr(xs), depth) + rest) == Append(Tokens(Arr(xs)), Lex(rest))
    decreases xs, |xs| + 1
  {
    hide Lex; hide Indent; hide Append;
    if xs == [] {
      EmptyReadsBack('[', ']', rest);
      assert Tokens(Arr(xs)) == [Delim('['), Delim(']')];
    } else {
      hide ShowItems; hide ItemTokens;
      ClosingReadsBack(']', depth, rest);
      ItemsReadBackFrom(xs, 0, depth + 1, "\n" + Indent(depth) + "]" + rest);
      AroundReadsBack('[', ShowItems(xs, 0, depth + 1), ']', ItemTokens(xs, 0), depth, rest);
      assert Show(Arr(xs), depth) == ['['] + "\n" + ShowItems(xs, 0, depth + 1) + "\n" + Indent(depth) + [']'];
    }
  }

  lemma {:induction false} FieldsReadBack(fs: seq<Field>, depth: nat, rest: string)
    requires ProperFields(fs)
    ensures Lex(Show(Obj(fs), depth) + rest) == Append(Tokens(Obj(fs)), Lex(rest))
    decreases fs, |fs| + 1
  {
    hide Lex; hide Indent; hide Append;
    if fs == [] {
      EmptyReadsBack('{', '}', rest);
      assert Tokens(Obj(fs)) == [Delim('{'), Delim('}')];
    } else {
      hide ShowFields; hide FieldTokens;
      ClosingReadsBack('}', depth, rest);
      FieldsReadBackFrom(fs, 0, depth + 1, "\n" + Indent(depth) + "}" + rest);
      AroundReadsBack('{', ShowFields(fs, 0, depth + 1), '}', FieldTokens(fs, 0), depth, rest);
      assert Show(Obj(fs), depth) == ['{'] + "\n" + ShowFields(fs, 0, depth + 1) + "\n" + Indent(depth) + ['}'];
    }
  }

  lemma {:induction false} ItemsReadBackFrom(xs: seq<Json>, i: nat, depth: nat, rest: string)
    requires ProperItems(xs) && i <= |xs| && Breaks(rest)
    ensures Lex(ShowItems(xs, i, depth) + rest) == Append(ItemTokens(xs, i), Lex(rest))
    ensures i > 0 ==> Breaks(ShowItems(xs, i, depth) + rest)
    decreases xs, |xs| - i
  {
    hide Lex; hide Lead; hide Show; hide Tokens; hide Append; hide Breaks; hide Comma;
    if i == |xs| {
      assert ShowItems(xs, i, depth) + rest == rest;
      AppendNothing(Lex(rest));
    } else {
      var more := ShowItems(xs, i + 1, depth) + rest;
      ItemsReadBackFrom(xs, i + 1, depth, rest);
      ShowReadsBack(xs[i], depth, more);
      LeadReadsBack(i, depth, Show(xs[i], depth) + more);
      assert ShowItems(xs, i, depth) + rest == Lead(i, depth) + (Show(xs[i], depth) + more);
      Appends(Tokens(xs[i]), ItemTokens(xs, i + 1), Lex(rest));
      Appends(Comma(i), Tokens(xs[i]) + ItemTokens(xs, i + 1), Lex(rest));
      assert Comma(i) + (Tokens(xs[i]) + ItemTokens(xs, i + 1)) == ItemTokens(xs, i);
    }
  }

  /** A key and its value. */
  lemma {:induction false} FieldReadsBack(f: Field, depth: nat, rest: string)
    requires Proper(f.value) && Breaks(rest)
    ensures Lex(ShowField(f, depth) + rest) == Append([Scalar(Str(f.key)), Delim(':')] + Tokens(f.value), Lex(rest))
    decreases f
  {
    hide Quote; hide Lex; hide Show; hide Tokens;
    var value := Show(f.value, depth) + rest;
    assert ShowField(f, depth) + rest == Quote(f.key) + ([':'] + ([' '] + value));
    QuoteReadsBack(f.key, [':'] + ([' '] + value));
    LexDelim(':', [' '] + value);
    LexSpaces([' '], value);
    ShowReadsBack(f.value, depth, rest);
    Appends([Delim(':')], Tokens(f.value), Lex(rest));
    Appends([Scalar(Str(f.key))], [Delim(':')] + Tokens(f.value), Lex(rest));
    assert [Scalar(Str(f.key))] + ([Delim(':')] + Tokens(f.value)) == [Scalar(Str(f.key)), Delim(':')] + Tokens(f.value);
  }

  lemma {:induction false} FieldsReadBackFrom(fs: seq<Field>, i: nat, depth: nat, rest: string)
    requires ProperFields(fs) && i <= |fs| && Breaks(rest)
    ensures Lex(ShowFields(fs, i, depth) + rest) == Append(FieldTokens(fs, i), Lex(rest))
    ensures i > 0 ==> Breaks(ShowFields(fs, i, depth) + rest)
    decreases fs, |fs| - i
  {
    hide Lex; hide Lead; hide Show; hide Tokens; hide Append; hide Breaks; hide Comma; hide Quote;
    if i == |fs| {
      assert ShowFields(fs, i, depth) + rest == rest;
      AppendNothing(Lex(rest));
    } else {
      var more := ShowFields(fs, i + 1, depth) + rest;
      var shown := ShowField(fs[i], depth);
      var read := [Scalar(Str(fs[i].key)), Delim(':')] + Tokens(fs[i].value);
      FieldsReadBackFrom(fs, i + 1, depth, rest);
      FieldReadsBack(fs[i], depth, more);
      LeadReadsBack(i, depth, shown + more);
      assert ShowFields(fs, i, depth) + rest == Lead(i, depth) + (shown + more);
      Appends(read, FieldTokens(fs, i + 1), Lex(rest));
      Appends(Comma(i), read + FieldTokens(fs, i + 1), Lex(rest));
      assert Comma(i) + (read + FieldTokens(fs, i + 1)) == FieldTokens(fs, i);
    }
  }

  /* ---------- Building trees from tokens ---------- */

  predicate Separator(t: Token) {
    t == Delim(',') || t == Delim(':')
  }

  /** The tokens handed out: the decoder keeps separators to itself. */
  function Significant(ts: seq<Token>): seq<Token> {
    if ts == [] then [] else Kept(ts[0]) + Significant(ts[1..])
  }

  function Kept(t: Token): seq<Token> {
    if Separator(t) then [] else [t]
  }

  lemma {:induction false} SignificantAppend(a: seq<Token>, b: seq<Token>)
    ensures Significant(a + b) == Significant(a) + Significant(b)
  {
    if a == [] {
      assert a + b == b;
    } else {
      hide Kept;
      SignificantAppend(a[1..], b);
      assert (a + b)[0] == a[0] && (a + b)[1..] == a[1..] + b;
      var k, x, y := Kept(a[0]), Significant(a[1..]), Significant(b);
      assert k + (x + y) == (k + x) + y;
    }
  }

  /** The value that comes first, and what is left after it. */
  function Value(ts: seq<Token>): (r: Result<(Json, seq<Token>)>)
    ensures r.Ok? ==> |r.value.1| < |ts|
    decreases |ts|, 0
  {
    if ts == [] then Err("unexpected end")
    else match ts[0]
      case Scalar(v) => Ok((v, ts[1..]))
      case Delim(c) =>
        if c == '{' then Members(ts[1..], []) else if c == '[' then Elements(ts[1..], []) else Err("unexpected delimiter")
  }

  function Elements(ts: seq<Token>, found: seq<Json>): (r: Result<(Json, seq<Token>)>)
    ensures r.Ok? ==> |r.value.1| < |ts|
    decreases |ts|, 1
  {
    if ts == [] || ts[0] == Delim('}') then Err("no closing bracket")
    else if ts[0] == Delim(']') then Ok((Arr(found), ts[1..]))
    else match Value(ts)
      case Ok((v, rest)) => Elements(rest, found + [v])
      case Err(e) => Err(e)
  }

  function Members(ts: seq<Token>, found: seq<Field>): (r: Result<(Json, seq<Token>)>)
    ensures r.Ok? ==> |r.value.1| < |ts|
    decreases |ts|, 1
  {
    if ts == [] || ts[0] == Delim(']') then Err("no closing brace")
    else if ts[0] == Delim('}') then Ok((Obj(found), ts[1..]))
    else if !(ts[0].Scalar? && ts[0].v.Str?) then Err("expected an object key")
    else match Value(ts[1..])
      case Ok((v, rest)) => Members(rest, Put(found, ts[0].v.text, v))
      case Err(e) => Err(e)
  }

  predicate Agrees(r: Result<Json>, rest: seq<Token>, spec: Result<(Json, seq<Token>)>) {
    match spec
    case Ok((v, left)) => r == Ok(v) && rest == left
    case Err(_) => r.Err?
  }

  /** The decoder: the tokens it has not handed out yet. */
  class TokenReader {
    var rest: seq<Token>

    constructor (ts: seq<Token>)
      ensures rest == ts
    {
      rest := ts;
    }

    method Next() returns (r: Option<Token>)
      modifies this
      ensures old(rest) == [] ==> r == None && rest == []
      ensures old(rest) != [] ==> r == Some(old(rest)[0]) && rest == old(rest)[1..]
    {
      if rest == [] {
        return None;
      }
      r := Some(rest[0]);
      rest := rest[1..];
    }

    /** Another item before the closing delimiter. */
    method More() returns (more: bool)
      ensures more <==> rest != [] && rest[0] != Delim('}') && rest[0] != Delim(']')
    {
      more := rest != [] && rest[0] != Delim('}') && rest[0] != Delim(']');
    }

    method Decode() returns (r: Result<Json>)
      modifies this
      ensures Agrees(r, rest, Value(old(rest)))
      ensures |rest| <= |old(rest)|
      decreases |rest|, 0
    {
      var tok := Next();
      match tok {
        case None => return Err("unexpected end");
        case Some(t) => r := DecodeValue(t);
      }
    }

    method DecodeValue(tok: Token) returns (r: Result<Json>)
      modifies this
      ensures Agrees(r, rest, Value([tok] + old(rest)))
      ensures |rest| <= |old(rest)|
      decreases |rest|, 2
    {
      assert ([tok] + rest)[1..] == rest;
      match tok {
        case Scalar(v) => r := Ok(v);
        case Delim(c) =>
          if c == '{' {
            r := DecodeObject();
          } else if c == '[' {
            r := DecodeArray();
          } else {
            r := Err("unexpected delimiter");
          }
      }
    }

    method DecodeObject() returns (r: Result<Json>)
      modifies this
      ensures Agrees(r, rest, Members(old(rest), []))
      ensures |rest| <= |old(rest)|
      decreases |rest|, 1
    {
      hide Value;
      var obj := new Object();
      var more := More();
      while more
        invariant obj.Valid() && fresh(obj) && |rest| <= |old(rest)|
        invariant Members(rest, obj.Fields()) == Members(old(rest), [])
        invariant more <==> rest != [] && rest[0] != Delim('}') && rest[0] != Delim(']')
        decreases |rest|
      {
        var key := Next();
        if !key.value.Scalar? || !key.value.v.Str? {
          return Err("expected an object key");
        }
        var val := Decode();
        if val.Err? {
          return val;
        }
        obj.Set(key.value.v.text, val.value);
        more := More();
      }
      var closing := Next();
      if closing != Some(Delim('}')) {
        return Err("no closing brace");
      }
      r := Ok(obj.Tree());
    }

    method DecodeArray() returns (r: Result<Json>)
      modifies this
      ensures Agrees(r, rest, Elements(old(rest), []))
      ensures |rest| <= |old(rest)|
      decreases |rest|, 1
    {
      hide Value;
      var arr := [];
      var more := More();
      while more
        invariant |rest| <= |old(rest)| && Elements(rest, arr) == Elements(old(rest), [])
        invariant more <==> rest != [] && rest[0] != Delim('}') && rest[0] != Delim(']')
        decreases |rest|
      {
        var val := Decode();
        if val.Err? {
          return val;
        }
        arr := arr + [val.value];
        more := More();
      }
      var closing := Next();
      if closing != Some(Delim(']')) {
        return Err("no closing bracket");
      }
      r := Ok(Arr(arr));
    }
  }

  /* ---------- Round trip ---------- */

  /** A tree's tokens never start with a closing delimiter. */
  lemma TokensStart(v: Json, more: seq<Token>)
    requires Proper(v)
    ensures Significant(Tokens(v)) != []
    ensures var t := (Significant(Tokens(v)) + more)[0]; t != Delim('}') && t != Delim(']')
  {
    var ts := Tokens(v);
    assert !Separator(ts[0]);
  }

  lemma {:induction false} ValueReadsBack(v: Json, more: seq<Token>)
    requires Proper(v)
    ensures Value(Significant(Tokens(v)) + more) == Ok((v, more))
    decreases v
  {
    match v {
      case Arr(xs) =>
        EnclosedReads('[', ItemTokens(xs, 0), ']', more);
        ElementsReadBack(xs, 0, more);
        assert xs[..0] == [];
      case Obj(fs) =>
        EnclosedReads('{', FieldTokens(fs, 0), '}', more);
        MembersReadBack(fs, 0, more);
        assert fs[..0] == [];
      case _ =>
        assert Significant(Tokens(v)) == [Scalar(v)];
        assert ([Scalar(v)] + more)[1..] == more;
    }
  }

  lemma SignificantOne(t: Token)
    ensures Significant([t]) == Kept(t)
  {
    assert [t][1..] == [];
  }

  lemma SignificantComma(i: nat)
    ensures Significant(Comma(i)) == []
  {
    if i > 0 {
      SignificantOne(Delim(','));
    }
  }

  lemma EnclosedReads(o: char, inner: seq<Token>, c: char, more: seq<Token>)
    requires (o == '[' && c == ']') || (o == '{' && c == '}')
    ensures var ts := Significant([Delim(o)] + inner + [Delim(c)]) + more;
            ts != [] && ts[0] == Delim(o) && ts[1..] == Significant(inner) + ([Delim(c)] + more)
  {
    SignificantOne(Delim(o));
    SignificantOne(Delim(c));
    hide Significant;
    SignificantAppend([Delim(o)] + inner, [Delim(c)]);
    SignificantAppend([Delim(o)], inner);
    var ts := [Delim(o)] + (Significant(inner) + ([Delim(c)] + more));
    assert Significant([Delim(o)] + inner + [Delim(c)]) + more == ts;
    assert ts[1..] == Significant(inner) + ([Delim(c)] + more);
  }

  lemma ItemTokensStart(xs: seq<Json>, i: nat)
    requires i < |xs|
    ensures Significant(ItemTokens(xs, i)) == Significant(Tokens(xs[i])) + Significant(ItemTokens(xs, i + 1))
  {
    hide Significant; hide Comma; hide Tokens;
    SignificantComma(i);
    SignificantAppend(Comma(i) + Tokens(xs[i]), ItemTokens(xs, i + 1));
    SignificantAppend(Comma(i), Tokens(xs[i]));
    assert [] + Significant(Tokens(xs[i])) == Significant(Tokens(xs[i]));
  }

  lemma {:induction false} ElementsReadBack(xs: seq<Json>, i: nat, more: seq<Token>)
    requires ProperItems(xs) && i <= |xs|
    ensures Elements(Significant(ItemTokens(xs, i)) + ([Delim(']')] + more), xs[..i]) == Ok((Arr(xs), more))
    decreases xs, |xs| - i
  {
    if i == |xs| {
      assert xs[..i] == xs;
      assert Significant(ItemTokens(xs, i)) == [];
      assert [] + ([Delim(']')] + more) == [Delim(']')] + more;
      assert ([Delim(']')] + more)[1..] == more;
    } else {
      hide Tokens; hide Value; hide Significant; hide ItemTokens;
      var rest := Significant(ItemTokens(xs, i + 1)) + ([Delim(']')] + more);
      ItemTokensStart(xs, i);
      assert Significant(ItemTokens(xs, i)) + ([Delim(']')] + more) == Significant(Tokens(xs[i])) + rest;
      TokensStart(xs[i], rest);
      ValueReadsBack(xs[i], rest);
      ElementsReadBack(xs, i + 1, more);
      assert xs[..i + 1] == xs[..i] + [xs[i]];
    }
  }

  lemma PutNext(fs: seq<Field>, i: nat)
    requires Distinct(fs) && i < |fs|
    ensures Put(fs[..i], fs[i].key, fs[i].value) == fs[..i + 1]
  {
    PutNew(fs[..i], fs[i].key, fs[i].value);
    assert fs[..i + 1] == fs[..i] + [fs[i]];
  }

  lemma {:induction false} MembersReadBack(fs: seq<Field>, i: nat, more: seq<Token>)
    requires ProperFields(fs) && Distinct(fs) && i <= |fs|
    ensures Members(Significant(FieldTokens(fs, i)) + ([Delim('}')] + more), fs[..i]) == Ok((Obj(fs), more))
    decreases fs, |fs| - i
  {
    if i == |fs| {
      assert fs[..i] == fs;
      assert Significant(FieldTokens(fs, i)) == [];
      assert [] + ([Delim('}')] + more) == [Delim('}')] + more;
      assert ([Delim('}')] + more)[1..] == more;
    } else {
      hide Tokens; hide Value; hide Significant; hide FieldTokens; hide Put; hide Proper;
      var key := Scalar(Str(fs[i].key));
      var rest := Significant(FieldTokens(fs, i + 1)) + ([Delim('}')] + more);
      var value := Significant(Tokens(fs[i].value)) + rest;
      FieldTokensStart(fs, i);
      assert Significant(FieldTokens(fs, i)) + ([Delim('}')] + more) == [key] + value;
      assert ([key] + value)[1..] == value;
      ValueReadsBack(fs[i].value, rest);
      MembersReadBack(fs, i + 1, more);
      PutNext(fs, i);
    }
  }

  lemma FieldTokensStart(fs: seq<Field>, i: nat)
    requires i < |fs|
    ensures Significant(FieldTokens(fs, i)) == [Scalar(Str(fs[i].key))] + Significant(Tokens(fs[i].value)) + Significant(FieldTokens(fs, i + 1))
  {
    hide Significant; hide Comma; hide Tokens;
    var key, value := Scalar(Str(fs[i].key)), Tokens(fs[i].value);
    var head := [key, Delim(':')];
    assert head == [key] + [Delim(':')];
    SignificantComma(i);
    SignificantOne(key);
    SignificantOne(Delim(':'));
    SignificantAppend([key], [Delim(':')]);
    assert Significant(head) == [key];
    SignificantAppend(head, value);
    SignificantAppend(Comma(i), head + value);
    assert [] + Significant(head + value) == Significant(head + value);
    SignificantAppend(Comma(i) + (head + value), FieldTokens(fs, i + 1));
  }

  /** Reading a whole text. */
  function Parse(text: string): Result<(Json, seq<Token>)> {
    match Lex(text)
    case Some(ts) => Value(Significant(ts))
    case None => Err("not JSON")
  }

  /** Printing and reading back gives the same tree, key order and number literals
      included, with nothing left over; the printed text is JSON with commas and
      colons where the grammar wants them. */
  lemma PrintedReadsBack(v: Json, depth: nat)
    requires Proper(v)
    ensures Lex(Show(v, depth) + "\n") == Some(Tokens(v))
    ensures Parse(Show(v, depth) + "\n") == Ok((v, []))
  {
    ShowReadsBack(v, depth, "\n");
    assert Lex("\n") == Lex("") == Some([]);
    assert Tokens(v) + [] == Tokens(v);
    ValueReadsBack(v, []);
    assert Significant(Tokens(v)) + [] == Significant(Tokens(v));
  }

  /** Two trees that print alike are the same. */
  lemma PrintingIsInjective(v: Json, w: Json, depth: nat)
    requires Proper(v) && Proper(w) && Show(v, depth) == Show(w, depth)
    ensures v == w
  {
    PrintedReadsBack(v, depth);
    PrintedReadsBack(w, depth);
  }

  /* ---------- What reading builds ---------- */

  predicate ProperTokens(ts: seq<Token>) {
    forall i :: 0 <= i < |ts| && ts[i].Scalar? ==> Proper(ts[i].v)
  }

  lemma {:induction false} LexProper(s: string)
    ensures Lex(s).Some? ==> ProperTokens(Lex(s).value)
    decreases |s|
  {
    hide IsNumber; hide ReadString;
    if s != "" {
      if Space(s[0]) || Punctuation(s[0]) {
        LexProper(s[1..]);
      } else if s[0] == '"' {
        match ReadString(s[1..]) {
          case Some((t, rest)) => LexProper(rest);
          case None =>
        }
      } else if NumberChar(s[0]) {
        LexProper(s[NumberRun(s)..]);
      } else if "null" <= s || "true" <= s {
        LexProper(s[4..]);
      } else if "false" <= s {
        LexProper(s[5..]);
      }
    }
  }

  lemma {:induction false} SignificantProper(ts: seq<Token>)
    requires ProperTokens(ts)
    ensures ProperTokens(Significant(ts))
  {
    if ts != [] {
      SignificantProper(ts[1..]);
    }
  }

  lemma {:induction false} PutProper(fields: seq<Field>, k: string, v: Json)
    requires Distinct(fields) && ProperFields(fields) && Proper(v)
    ensures Distinct(Put(fields, k, v)) && ProperFields(Put(fields, k, v))
  {
    if KeyIn(fields, k) {
      var i :| 0 <= i < |fields| && fields[i].key == k;
      PutKnown(fields, i, v);
    } else {
      PutNew(fields, k, v);
    }
  }

  lemma {:induction false} ValueProper(ts: seq<Token>)
    requires ProperTokens(ts)
    ensures Value(ts).Ok? ==> Proper(Value(ts).value.0) && ProperTokens(Value(ts).value.1)
    decreases |ts|, 0
  {
    if ts != [] && ts[0].Delim? {
      MembersProper(ts[1..], []);
      ElementsProper(ts[1..], []);
    }
  }

  lemma {:induction false} ElementsProper(ts: seq<Token>, found: seq<Json>)
    requires ProperTokens(ts) && ProperItems(found)
    ensures Elements(ts, found).Ok? ==> Proper(Elements(ts, found).value.0) && ProperTokens(Elements(ts, found).value.1)
    decreases |ts|, 1
  {
    ValueProper(ts);
    match Value(ts) {
      case Ok((v, rest)) => ElementsProper(rest, found + [v]);
      case Err(_) =>
    }
  }

  lemma {:induction false} MembersProper(ts: seq<Token>, found: seq<Field>)
    requires ProperTokens(ts) && Distinct(found) && ProperFields(found)
    ensures Members(ts, found).Ok? ==> Proper(Members(ts, found).value.0) && ProperTokens(Members(ts, found).value.1)
    decreases |ts|, 1
  {
    if ts != [] && ts[0].Scalar? && ts[0].v.Str? {
      ValueProper(ts[1..]);
      match Value(ts[1..]) {
        case Ok((v, rest)) =>
          PutProper(found, ts[0].v.text, v);
          MembersProper(rest, Put(found, ts[0].v.text, v));
        case Err(_) =>
      }
    }
  }

  /** Whatever is read has distinct keys at every depth, and number literals that
      are numbers. */
  lemma ParsedIsProper(text: string)
    ensures Parse(text).Ok? ==> Proper(Parse(text).value.0)
  {
    LexProper(text);
    match Lex(text) {
      case Some(ts) =>
        SignificantProper(ts);
        ValueProper(Significant(ts));
      case None =>
    }
  }
}
