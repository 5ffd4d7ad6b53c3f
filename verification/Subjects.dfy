/** Wildcard subjects and the subset test of stream_query.go.

    A subject is a list of tokens. `*` stands for exactly one token and a
    trailing `>` for one or more. `SubsetMatch` is the syntactic walk; the
    theorems relate it to the languages of literal subjects the two patterns
    accept. */
module Subjects {
  import opened Text

  /* ---------- The walk ---------- */

  /** The tokens, each followed by its dot. */
  function Dotted(ts: seq<string>): string {
    if ts == [] then "" else ts[0] + "." + Dotted(ts[1..])
  }

  lemma {:induction false} DottedSnoc(ts: seq<string>, t: string)
    ensures Dotted(ts + [t]) == Dotted(ts) + t + "."
  {
    if ts == [] {
      assert [] + [t] == [t];
    } else {
      DottedSnoc(ts[1..], t);
      assert (ts + [t])[1..] == ts[1..] + [t];
    }
  }

  lemma {:induction false} JoinDotted(ts: seq<string>, t: string)
    ensures Join(ts + [t], '.') == Dotted(ts) + t
  {
    if ts == [] {
      assert [] + [t] == [t];
    } else {
      JoinDotted(ts[1..], t);
      assert (ts + [t])[1..] == ts[1..] + [t];
    }
  }

  /** Cutting at every dot yields the tokens. */
  lemma TokensComplete(subject: string, start: nat, done: seq<string>)
    requires start <= |subject| && subject[..start] == Dotted(done) && Free(subject[start..], '.')
    requires forall j :: 0 <= j < |done| ==> Free(done[j], '.')
    ensures Split(subject, '.') == done + [subject[start..]]
  {
    var ts := done + [subject[start..]];
    JoinDotted(done, subject[start..]);
    assert subject == subject[..start] + subject[start..];
    SplitJoin(ts, '.');
  }

  /** tokenizeSubjectIntoSlice: appends the dot-separated tokens to `tts`. */
  method TokenizeInto(tts: seq<string>, subject: string) returns (r: seq<string>)
    ensures r == tts + Split(subject, '.')
  {
    r := tts;
    ghost var done := [];
    var start := 0;
    for i := 0 to |subject|
      invariant 0 <= start <= i && r == tts + done
      invariant subject[..start] == Dotted(done)
      invariant forall j :: start <= j < i ==> subject[j] != '.'
      invariant forall j :: 0 <= j < |done| ==> Free(done[j], '.')
    {
      if subject[i] == '.' {
        DottedSnoc(done, subject[start..i]);
        assert subject[..i + 1] == subject[..start] + subject[start..i] + ".";
        r := r + [subject[start..i]];
        done := done + [subject[start..i]];
        start := i + 1;
      }
    }
    TokensComplete(subject, start, done);
    r := r + [subject[start..]];
  }

  /** The decision of isSubsetMatchTokenized as a recursion over both token lists. */
  predicate SubsetMatch(tokens: seq<string>, test: seq<string>) {
    if test == [] then tokens == []
    else if tokens == [] || test[0] == "" then false
    else if test[0] == ">" then true
    else if tokens[0] == "" || tokens[0] == ">" then false
    else if tokens[0] == "*" then test[0] == "*" && SubsetMatch(tokens[1..], test[1..])
    else (test[0][0] == '*' || tokens[0] == test[0]) && SubsetMatch(tokens[1..], test[1..])
  }

  /** isSubsetMatchTokenized: the loop with its early returns. */
  method IsSubsetMatchTokenized(tokens: seq<string>, test: seq<string>) returns (r: bool)
    ensures r == SubsetMatch(tokens, test)
  {
    for i := 0 to |test|
      invariant i <= |tokens|
      invariant SubsetMatch(tokens[i..], test[i..]) == SubsetMatch(tokens, test)
    {
      var t2 := test[i];
      if i >= |tokens| {
        return false;
      }
      if |t2| == 0 {
        return false;
      }
      if t2[0] == '>' && |t2| == 1 {
        return true;
      }
      var t1 := tokens[i];
      if |t1| == 0 || (t1[0] == '>' && |t1| == 1) {
        return false;
      }
      if t1[0] == '*' && |t1| == 1 {
        if !(t2[0] == '*' && |t2| == 1) {
          return false;
        }
        continue;
      }
      if t2[0] != '*' && t1 != t2 {
        return false;
      }
    }
    return |tokens| == |test|;
  }

  /** SubjectIsSubsetMatch */
  method SubjectIsSubsetMatch(subject: string, test: string) returns (r: bool)
    ensures r == IsSubset(subject, test)
  {
    var tts := TokenizeInto([], subject);
    var tests := TokenizeInto([], test);
    assert [] + Split(subject, '.') == Split(subject, '.') && [] + Split(test, '.') == Split(test, '.');
    r := IsSubsetMatchTokenized(tts, tests);
  }

  predicate IsSubset(subject: string, test: string) {
    SubsetMatch(Split(subject, '.'), Split(test, '.'))
  }

  /* ---------- Languages ---------- */

  predicate LiteralToken(t: string) {
    t != "" && t != "*" && t != ">" && Free(t, '.')
  }

  /** A literal subject: what a message is published on. */
  predicate LiteralWord(w: seq<string>) {
    |w| > 0 && forall i :: 0 <= i < |w| ==> LiteralToken(w[i])
  }

  predicate Literal(l: string) {
    LiteralWord(Split(l, '.'))
  }

  /** `*` accepts one token, `>` one or more, any other token itself. */
  predicate Accepts(p: seq<string>, w: seq<string>) {
    if p == [] then w == []
    else if p[0] == ">" then w != []
    else w != [] && (p[0] == "*" || p[0] == w[0]) && Accepts(p[1..], w[1..])
  }

  /** No empty token, and `>` only as the last one. */
  predicate WellShaped(p: seq<string>) {
    && (forall i :: 0 <= i < |p| ==> p[i] != "" && Free(p[i], '.'))
    && (forall i :: 0 <= i < |p| - 1 ==> p[i] != ">")
  }

  /** No token merely starts with `*`: the walk looks at the first character only. */
  predicate StarsAlone(p: seq<string>) {
    forall i :: 0 <= i < |p| ==> p[i] != "" && p[i][0] == '*' ==> p[i] == "*"
  }

  predicate WellFormed(subject: string) {
    var p := Split(subject, '.');
    WellShaped(p) && StarsAlone(p)
  }

  ghost predicate WordsIncluded(p: seq<string>, q: seq<string>) {
    forall w :: LiteralWord(w) && Accepts(p, w) ==> Accepts(q, w)
  }

  /** Every literal subject that `s` accepts is accepted by `t`. */
  ghost predicate Included(s: string, t: string) {
    forall l: string :: Literal(l) && Accepts(Split(s, '.'), Split(l, '.')) ==> Accepts(Split(t, '.'), Split(l, '.'))
  }

  /* ---------- Soundness of the walk ---------- */

  lemma {:induction false} Sound(p: seq<string>, q: seq<string>, w: seq<string>)
    requires SubsetMatch(p, q) && WellShaped(p) && WellShaped(q) && StarsAlone(q)
    requires Accepts(p, w)
    ensures Accepts(q, w)
    decreases |q|
  {
    if q != [] && q[0] != ">" {
      assert q[0][0] == '*' ==> q[0] == "*";
      Sound(p[1..], q[1..], w[1..]);
    }
  }

  /* ---------- Completeness: a separating literal ---------- */

  function MaxLen(q: seq<string>): (n: nat)
    ensures forall i :: 0 <= i < |q| ==> |q[i]| <= n
  {
    if q == [] then 0
    else
      var n := MaxLen(q[1..]);
      assert forall i :: 1 <= i < |q| ==> q[i] == q[1..][i - 1];
      if |q[0]| > n then |q[0]| else n
  }

  /** A literal token longer than every token of `q`, and at least two characters long. */
  function Fresh(q: seq<string>): (t: string)
    ensures LiteralToken(t) && |t| > MaxLen(q)
  {
    seq(MaxLen(q) + 2, i => 'x')
  }

  /** `p` with `*` replaced by the token `f` and a closing `>` by `k` copies of it. */
  function Instance(p: seq<string>, f: string, k: nat): (w: seq<string>)
    requires WellShaped(p) && LiteralToken(f)
    ensures forall i :: 0 <= i < |w| ==> LiteralToken(w[i])
    ensures p != [] && k > 0 ==> w != []
    ensures k > 0 ==> Accepts(p, w)
  {
    if p == [] then []
    else if p[0] == ">" then seq(k, i => f)
    else [if p[0] == "*" then f else p[0]] + Instance(p[1..], f, k)
  }

  /** If the walk says no, one or two copies for `>` give a literal `q` rejects. */
  lemma {:induction false} Separates(p: seq<string>, q: seq<string>, f: string) returns (k: nat)
    requires !SubsetMatch(p, q) && WellShaped(p) && WellShaped(q) && LiteralToken(f)
    requires forall i :: 0 <= i < |q| ==> |q[i]| < |f|
    ensures k > 0 && !Accepts(q, Instance(p, f, k))
    decreases |q|
  {
    k := 1;
    if p != [] && q != [] {
      if p[0] == ">" {
        if q[0] == "*" && q[1..] == [] {
          k := 2;
        }
      } else if !SubsetMatch(p[1..], q[1..]) {
        k := Separates(p[1..], q[1..], f);
      }
    }
  }

  lemma WordsComplete(p: seq<string>, q: seq<string>)
    requires WellShaped(p) && p != [] && WellShaped(q)
    ensures WordsIncluded(p, q) ==> SubsetMatch(p, q)
  {
    if !SubsetMatch(p, q) {
      var k := Separates(p, q, Fresh(q));
      var w := Instance(p, Fresh(q), k);
      assert LiteralWord(w) && Accepts(p, w) && !Accepts(q, w);
    }
  }

  /** Inclusion over words and over dotted literal subjects is the same thing. */
  lemma IncludedWords(s: string, t: string)
    ensures Included(s, t) <==> WordsIncluded(Split(s, '.'), Split(t, '.'))
  {
    if Included(s, t) {
      forall w | LiteralWord(w) && Accepts(Split(s, '.'), w)
        ensures Accepts(Split(t, '.'), w)
      {
        SplitJoin(w, '.');
        assert Literal(Join(w, '.'));
      }
    }
  }

  /* ---------- Main results ---------- */

  /** The walk decides language inclusion exactly. Only the test needs stars that
      stand alone. */
  lemma SubsetMatchExact(s: string, t: string)
    requires WellShaped(Split(s, '.')) && WellFormed(t)
    ensures IsSubset(s, t) <==> Included(s, t)
  {
    var p, q := Split(s, '.'), Split(t, '.');
    IncludedWords(s, t);
    if IsSubset(s, t) {
      forall w | LiteralWord(w) && Accepts(p, w)
        ensures Accepts(q, w)
      {
        Sound(p, q, w);
      }
    } else {
      WordsComplete(p, q);
    }
  }

  lemma SubsetMatchReflexive(s: string)
    requires WellFormed(s)
    ensures IsSubset(s, s)
  {
    SubsetMatchExact(s, s);
  }

  lemma SubsetMatchTransitive(s: string, t: string, u: string)
    requires WellShaped(Split(s, '.')) && WellFormed(t) && WellFormed(u)
    requires IsSubset(s, t) && IsSubset(t, u)
    ensures IsSubset(s, u)
  {
    SubsetMatchExact(s, t);
    SubsetMatchExact(t, u);
    SubsetMatchExact(s, u);
  }

  /** `*x` in the test position is taken for a wildcard: `b` is said to be a
      subset of `*a`, whose only literal is itself. */
  lemma StarPrefixedTokenIsNotLiteral()
    ensures IsSubset("b", "*a") && !Included("b", "*a")
  {
    assert Split("b", '.') == ["b"];
    assert Split("*a", '.') == ["*a"];
    assert Literal("b");
    assert Accepts(["b"], ["b"]) && !Accepts(["*a"], ["b"]);
  }

  /** The condition on the test is exact: among well-shaped tests, those on which
      the walk is right about every well-shaped subject are the ones whose stars
      stand alone, and on the others it errs about one whose own stars do. */
  lemma StarsAloneIsExact(t: string)
    requires WellShaped(Split(t, '.'))
    ensures StarsAlone(Split(t, '.')) <==> forall s :: WellShaped(Split(s, '.')) ==> (IsSubset(s, t) <==> Included(s, t))
    ensures StarsAlone(Split(t, '.')) <==> forall s :: WellFormed(s) ==> (IsSubset(s, t) <==> Included(s, t))
  {
    var q := Split(t, '.');
    if StarsAlone(q) {
      forall s | WellShaped(Split(s, '.'))
        ensures IsSubset(s, t) <==> Included(s, t)
      {
        SubsetMatchExact(s, t);
      }
    } else {
      var w := Impostor(q);
      var s := Join(w, '.');
      SplitJoin(w, '.');
      assert Literal(s) && Accepts(Split(s, '.'), Split(s, '.')) by { SelfAccepts(w); }
      assert WellFormed(s) && IsSubset(s, t) && !Included(s, t);
    }
  }

  lemma {:induction false} SelfAccepts(w: seq<string>)
    requires forall i :: 0 <= i < |w| ==> LiteralToken(w[i])
    ensures Accepts(w, w)
  {
    if w != [] {
      SelfAccepts(w[1..]);
    }
  }

  /** A well-formed literal the walk puts below `q` although `q` rejects it. */
  lemma {:induction false} Impostor(q: seq<string>) returns (w: seq<string>)
    requires WellShaped(q) && !StarsAlone(q)
    ensures LiteralWord(w) && WellShaped(w) && StarsAlone(w)
    ensures SubsetMatch(w, q) && !Accepts(q, w)
    decreases |q|
  {
    var head := if q[0][0] == '*' then "x" else q[0];
    if !StarsAlone(q[1..]) {
      var rest := Impostor(q[1..]);
      w := [head] + rest;
    } else {
      w := [head] + Companion(q[1..]);
    }
  }

  /** A star-free literal below a pattern whose stars stand alone. */
  function Companion(q: seq<string>): (w: seq<string>)
    requires WellShaped(q) && StarsAlone(q)
    ensures forall i :: 0 <= i < |w| ==> LiteralToken(w[i]) && w[i][0] != '*'
    ensures SubsetMatch(w, q)
  {
    if q == [] then []
    else [if q[0] == "*" || q[0] == ">" then "x" else q[0]] + Companion(q[1..])
  }
}
