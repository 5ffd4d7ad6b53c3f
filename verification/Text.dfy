/** String helpers shared by the models: the parts of Go's strings package the
    repository leans on, with the laws the proofs use. */
module Text {

  datatype Option<+T> = None | Some(value: T)

  datatype Result<+T> = Ok(value: T) | Err(error: string)

  /** `sep` does not occur in `s`. */
  predicate Free(s: string, sep: char) {
    forall i :: 0 <= i < |s| ==> s[i] != sep
  }

  /** strings.HasPrefix */
  predicate HasPrefix(s: string, p: string) {
    p <= s
  }

  /** strings.CutPrefix: what follows `p`, or None when `s` does not start with it. */
  function CutPrefix(s: string, p: string): (r: Option<string>)
    ensures r.Some? <==> p <= s
    ensures r.Some? ==> s == p + r.value
  {
    if p <= s then Some(s[|p|..]) else None
  }

  /** Index of the first `sep`, or |s|. */
  function IndexOf(s: string, sep: char): (k: nat)
    ensures k <= |s|
    ensures Free(s[..k], sep)
    ensures k < |s| ==> s[k] == sep
  {
    if s == [] || s[0] == sep then 0
    else
      var k := 1 + IndexOf(s[1..], sep);
      assert forall i :: 1 <= i < k ==> s[..k][i] == s[1..][..k - 1][i - 1];
      k
  }

  /** strings.Cut around a one-character separator: before, after, found. */
  function Cut(s: string, sep: char): (r: (string, string, bool))
    ensures Free(r.0, sep)
    ensures r.2 ==> s == r.0 + [sep] + r.1
    ensures !r.2 ==> s == r.0 && r.1 == ""
    ensures r.2 <==> sep in s
  {
    var k := IndexOf(s, sep);
    if k < |s| then (s[..k], s[k + 1..], true) else
      assert s[..k] == s;
      (s, "", false)
  }

  /** A dot-free head followed by a separator cuts there. */
  lemma CutAt(a: string, b: string, sep: char)
    requires Free(a, sep)
    ensures Cut(a + [sep] + b, sep) == (a, b, true)
  {
    var s := a + [sep] + b;
    var r := Cut(s, sep);
    assert s[|a|] == sep;
    assert forall i :: 0 <= i < |r.0| ==> s[i] == r.0[i];
    assert forall i :: 0 <= i < |a| ==> s[i] == a[i];
    assert r.0 == s[..|a|] == a;
    assert r.1 == s[|a| + 1..] == b;
  }

  /** strings.Split on a one-character separator. */
  function Split(s: string, sep: char): (r: seq<string>)
    ensures |r| > 0
    ensures forall i :: 0 <= i < |r| ==> Free(r[i], sep)
    decreases |s|
  {
    var (head, rest, found) := Cut(s, sep);
    if found then [head] + Split(rest, sep) else [head]
  }

  /** The first token is what precedes the first separator. */
  lemma SplitHead(a: string, b: string, sep: char)
    requires Free(a, sep)
    ensures Split(a + [sep] + b, sep) == [a] + Split(b, sep)
  {
    CutAt(a, b, sep);
  }

  /** A string without the separator is its own single token. */
  lemma SplitFree(s: string, sep: char)
    requires Free(s, sep)
    ensures Split(s, sep) == [s]
  {
  }

  /** strings.Join with a one-character separator. */
  function Join(ts: seq<string>, sep: char): (r: string)
  {
    if |ts| == 0 then ""
    else if |ts| == 1 then ts[0]
    else ts[0] + [sep] + Join(ts[1..], sep)
  }

  lemma {:induction false} JoinSplit(s: string, sep: char)
    ensures Join(Split(s, sep), sep) == s
    decreases |s|
  {
    var (head, rest, found) := Cut(s, sep);
    if found {
      JoinSplit(rest, sep);
      assert Split(s, sep)[1..] == Split(rest, sep);
    }
  }

  /** Splitting is the only way to cut a string into separator-free tokens. */
  lemma {:induction false} SplitJoin(ts: seq<string>, sep: char)
    requires |ts| > 0
    requires forall i :: 0 <= i < |ts| ==> Free(ts[i], sep)
    ensures Split(Join(ts, sep), sep) == ts
  {
    if |ts| == 1 {
    } else {
      hide Cut;
      CutAt(ts[0], Join(ts[1..], sep), sep);
      SplitJoin(ts[1..], sep);
      assert ts == [ts[0]] + ts[1..];
    }
  }

  lemma {:induction false} JoinAppend(ts: seq<string>, us: seq<string>, sep: char)
    requires |ts| > 0 && |us| > 0
    ensures Join(ts + us, sep) == Join(ts, sep) + [sep] + Join(us, sep)
  {
    if |ts| == 1 {
      assert (ts + us)[1..] == us;
    } else {
      JoinAppend(ts[1..], us, sep);
      assert (ts + us)[1..] == ts[1..] + us;
      assert Join(ts + us, sep) == ts[0] + [sep] + (Join(ts[1..], sep) + [sep] + Join(us, sep));
      assert ts[0] + [sep] + (Join(ts[1..], sep) + [sep] + Join(us, sep))
          == (ts[0] + [sep] + Join(ts[1..], sep)) + [sep] + Join(us, sep);
    }
  }

  /** Splitting distributes over a separator in the middle. */
  lemma SplitAppend(a: string, b: string, sep: char)
    ensures Split(a + [sep] + b, sep) == Split(a, sep) + Split(b, sep)
  {
    JoinSplit(a, sep);
    JoinSplit(b, sep);
    JoinAppend(Split(a, sep), Split(b, sep), sep);
    SplitJoin(Split(a, sep) + Split(b, sep), sep);
  }
}
