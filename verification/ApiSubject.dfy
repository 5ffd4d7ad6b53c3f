/** API subject prefixes (jsm.go) and the normalisation that takes an unknown
    prefix off again (registry/subjects.go). */
module ApiSubject {
  import opened Text

  const JS_API := "$JS.API"
  const JS := "$JS."

  /** APISubject */
  function Prefixed(subject: string, prefix: string, domain: string): string {
    if !(JS_API <= subject) || (domain == "" && prefix == "") then subject
    else (if domain != "" then JS + domain + ".API" else prefix) + subject[|JS_API|..]
  }

  /** StripAPISubject */
  function Stripped(subject: string, prefix: string, domain: string): string {
    if domain == "" && prefix == "" then subject
    else
      var head := if domain != "" then JS + domain + ".API" else prefix;
      if head <= subject && (|subject| == |head| || subject[|head|] == '.') then JS_API + subject[|head|..] else subject
  }

  method APISubject(subject: string, prefix: string, domain: string) returns (r: string)
    ensures r == Prefixed(subject, prefix, domain)
  {
    if domain != "" {
      var cut := CutPrefix(subject, JS_API);
      if cut.None? {
        return subject;
      }
      return JS + domain + ".API" + cut.value;
    }
    if prefix == "" {
      return subject;
    }
    var trimmed := CutPrefix(subject, JS_API);
    if trimmed.None? {
      return subject;
    }
    return prefix + trimmed.value;
  }

  method StripAPISubject(subject: string, prefix: string, domain: string) returns (r: string)
    ensures r == Stripped(subject, prefix, domain)
  {
    if domain != "" {
      PrefixInSteps(subject, domain);
      var rest := CutPrefix(subject, JS);
      if rest.None? {
        return subject;
      }
      rest := CutPrefix(rest.value, domain);
      if rest.None? {
        return subject;
      }
      rest := CutPrefix(rest.value, ".API");
      if rest.None? {
        return subject;
      }
      assert rest.value == subject[|JS + domain + ".API"|..];
      if rest.value != "" && rest.value[0] != '.' {
        return subject;
      }
      return JS_API + rest.value;
    }
    if prefix == "" {
      return subject;
    }
    var rest := CutPrefix(subject, prefix);
    if rest.None? {
      return subject;
    }
    if rest.value != "" && rest.value[0] != '.' {
      return subject;
    }
    return JS_API + rest.value;
  }

  /** Cutting a prefix off piece by piece is cutting it off whole. */
  lemma PrefixOfAppend(a: string, b: string, s: string)
    ensures a + b <= s <==> a <= s && b <= s[|a|..]
    ensures a + b <= s ==> s[|a|..][|b|..] == s[|a + b|..]
  {
    if a <= s && b <= s[|a|..] {
      assert s == a + (b + s[|a|..][|b|..]);
      assert s == (a + b) + s[|a|..][|b|..];
    }
    if a + b <= s {
      assert s == a + (b + s[|a + b|..]);
    }
  }

  lemma PrefixInSteps(subject: string, domain: string)
    ensures JS + domain + ".API" <= subject <==>
            JS <= subject && domain <= subject[|JS|..] && ".API" <= subject[|JS|..][|domain|..]
    ensures JS + domain + ".API" <= subject ==>
            subject[|JS|..][|domain|..][4..] == subject[|JS + domain + ".API"|..]
  {
    PrefixOfAppend(JS + domain, ".API", subject);
    PrefixOfAppend(JS, domain, subject);
  }

  /** Stripping a known prefix or domain undoes applying it, for every API subject. */
  lemma StripUndoesPrefix(rest: string, prefix: string, domain: string)
    requires rest == "" || rest[0] == '.'
    ensures Stripped(Prefixed(JS_API + rest, prefix, domain), prefix, domain) == JS_API + rest
  {
    var s := JS_API + rest;
    assert s[|JS_API|..] == rest;
    if domain != "" || prefix != "" {
      var head := if domain != "" then JS + domain + ".API" else prefix;
      assert (head + rest)[|head|..] == rest;
    }
  }

  /** For a subject that merely starts with the letters, it does exactly when the
      prefix was the API's own (or there was none). */
  lemma StripFailsOffBoundary(rest: string, prefix: string, domain: string)
    requires rest != "" && rest[0] != '.'
    ensures Stripped(Prefixed(JS_API + rest, prefix, domain), prefix, domain) == JS_API + rest
            <==> domain == "" && (prefix == "" || prefix == JS_API)
  {
    var s := JS_API + rest;
    assert s[|JS_API|..] == rest;
    if domain != "" || prefix != "" {
      var head := if domain != "" then JS + domain + ".API" else prefix;
      assert (head + rest)[|head|..] == rest;
      if head + rest == s {
        assert head == (head + rest)[..|head|] == s[..|JS_API|];
      }
      if domain != "" {
        assert |head| > |JS_API|;
      }
    }
  }

  /** Prefixing undoes stripping of every subject but those of the API that the prefix
      would have changed. */
  lemma PrefixUndoesStrip(subject: string, prefix: string, domain: string)
    ensures var head := if domain != "" then JS + domain + ".API" else if prefix != "" then prefix else JS_API;
            Prefixed(Stripped(subject, prefix, domain), prefix, domain) == subject
            <==> head == subject || head + "." <= subject || !(JS_API <= subject) || head == JS_API
  {
    var head := if domain != "" then JS + domain + ".API" else if prefix != "" then prefix else JS_API;
    if domain != "" || prefix != "" {
      if head <= subject {
        var rest := subject[|head|..];
        assert subject == head + rest && (JS_API + rest)[|JS_API|..] == rest;
        assert head + "." <= subject <==> rest != "" && rest[0] == '.';
      }
      if JS_API <= subject {
        var rest := subject[|JS_API|..];
        assert subject == JS_API + rest;
        if head + rest == subject {
          assert |head| == |JS_API| && head == subject[..|head|] == JS_API;
        }
      }
    }
  }

  /* ---------- Normalisation ---------- */

  /** The scan for a verb: the rest of the subject from the first token that is
      one, INFO only as the last token. */
  function FromVerb(verbs: set<string>, rest: string): Option<string>
    decreases |rest|
  {
    var (verb, next, more) := Cut(rest, '.');
    if verb == "INFO" && more then FromVerb(verbs, next)
    else if verb in verbs then Some(rest)
    else if more then FromVerb(verbs, next)
    else None
  }

  function Normalized(verbs: set<string>, subject: string): (string, bool) {
    if JS_API + "." <= subject then (subject, true)
    else if JS <= subject then
      var rest := Cut(subject[|JS|..], '.').1;
      if "API." <= rest then (JS_API + "." + rest[4..], true) else (subject, false)
    else
      var (_, rest, found) := Cut(subject, '.');
      if !found then (subject, false)
      else match FromVerb(verbs, rest)
        case Some(r) => (JS_API + "." + r, true)
        case None => (subject, false)
  }

  method NormalizeAPISubject(verbs: set<string>, subject: string) returns (normalized: string, ok: bool)
    ensures (normalized, ok) == Normalized(verbs, subject)
  {
    if HasPrefix(subject, JS_API + ".") {
      return subject, true;
    }
    var cut := CutPrefix(subject, JS);
    if cut.Some? {
      var (_, after, _) := Cut(cut.value, '.');
      var api := CutPrefix(after, "API.");
      if api.Some? {
        return JS_API + "." + api.value, true;
      }
      return subject, false;
    }
    var (_, rest, found) := Cut(subject, '.');
    ghost var all := rest;
    while found
      invariant Cut(subject, '.').2 ==>
                FromVerb(verbs, all) == if found then FromVerb(verbs, rest) else None
      invariant !Cut(subject, '.').2 ==> !found
      decreases found, |rest|
    {
      var (verb, next, more) := Cut(rest, '.');
      if verb == "INFO" && more {
        rest := next;
        continue;
      }
      if verb in verbs {
        return JS_API + "." + rest, true;
      }
      rest, found := next, more;
    }
    return subject, false;
  }

  /** A subject the registry knows: a verb with or without arguments, INFO without. */
  predicate KnownBody(verbs: set<string>, body: string) {
    var (verb, _, more) := Cut(body, '.');
    verb in verbs && (verb == "INFO" ==> !more)
  }

  /** `body` behind some tokens. */
  function Under(ts: seq<string>, body: string): (r: string)
    ensures |r| >= |body| + |ts|
  {
    if ts == [] then body else ts[0] + "." + Under(ts[1..], body)
  }

  lemma {:induction false} JoinUnder(ts: seq<string>, body: string)
    requires ts != []
    ensures Join(ts, '.') + "." + body == Under(ts, body)
  {
    if |ts| == 1 {
      assert Under(ts[1..], body) == body;
    } else {
      JoinUnder(ts[1..], body);
      assert Join(ts, '.') + "." + body == ts[0] + "." + (Join(ts[1..], '.') + "." + body);
    }
  }

  /** A token that stops the scan inside a prefix. */
  predicate Stops(verbs: set<string>, ts: seq<string>) {
    exists i :: 0 <= i < |ts| && ts[i] in verbs && ts[i] != "INFO"
  }

  /** The scan passes over tokens that are no verbs, INFO included, and stops at
      the first that is one, short of the body. */
  lemma {:induction false} ScanUnder(verbs: set<string>, ts: seq<string>, body: string)
    requires forall i :: 0 <= i < |ts| ==> Free(ts[i], '.')
    ensures !Stops(verbs, ts) ==> FromVerb(verbs, Under(ts, body)) == FromVerb(verbs, body)
    ensures Stops(verbs, ts) ==> FromVerb(verbs, Under(ts, body)).Some? && |FromVerb(verbs, Under(ts, body)).value| > |body|
    decreases |ts|
  {
    if ts != [] {
      ScanUnder(verbs, ts[1..], body);
      CutAt(ts[0], Under(ts[1..], body), '.');
      if Stops(verbs, ts) && !(ts[0] in verbs && ts[0] != "INFO") {
        var i :| 0 <= i < |ts| && ts[i] in verbs && ts[i] != "INFO";
        assert ts[1..][i - 1] == ts[i];
      }
      if Stops(verbs, ts[1..]) {
        var i :| 0 <= i < |ts[1..]| && ts[1..][i] in verbs && ts[1..][i] != "INFO";
        assert ts[i + 1] == ts[1..][i];
      }
    }
  }

  lemma PrefixedUnder(prefix: string, body: string)
    ensures prefix + "." + body == Under(Split(prefix, '.'), body)
  {
    JoinSplit(prefix, '.');
    JoinUnder(Split(prefix, '.'), body);
  }

  lemma NormalizeUndoesOutsidePrefix(verbs: set<string>, body: string, prefix: string)
    requires KnownBody(verbs, body) && prefix != "" && Split(prefix, '.')[0] != "$JS"
    ensures var s := JS_API + "." + body;
            Normalized(verbs, Prefixed(s, prefix, "")) == (s, true) <==> !Stops(verbs, Split(prefix, '.')[1..])
  {
    hide FromVerb; hide Cut; hide Split; hide Stops;
    var ts := Split(prefix, '.');
    PrefixedUnder(prefix, body);
    CutAt(ts[0], Under(ts[1..], body), '.');
    InsideJS(prefix + "." + body);
    ScanUnder(verbs, ts[1..], body);
    KnownBodyScans(verbs, body);
    PrefixedBody(prefix, body);
  }

  /** The prefix of a domain, spelled out: `$JS.`, one token that is not API, `.API`. */
  predicate DomainPrefix(prefix: string) {
    JS <= prefix &&
    var (domain, rest, found) := Cut(prefix[|JS|..], '.');
    found && rest == "API" && domain != "API"
  }

  /** A prefix in `$JS` is undone exactly when it is the API's own or a domain's. */
  lemma NormalizeUndoesInsidePrefix(verbs: set<string>, body: string, prefix: string)
    requires Split(prefix, '.')[0] == "$JS"
    ensures var s := JS_API + "." + body;
            Normalized(verbs, Prefixed(s, prefix, "")) == (s, true) <==> prefix == JS_API || DomainPrefix(prefix)
  {
    hide Split; hide Normalized; hide Cut; hide Prefixed; hide DomainPrefix;
    FirstToken(prefix);
    PrefixedBody(prefix, body);
    if prefix == "$JS" {
      BareJS(verbs, body);
      BareIsNoDomain();
    } else {
      var q := prefix[|JS|..];
      assert prefix == JS + q;
      InsideCases(verbs, q, body);
      DomainOf(q);
    }
  }

  lemma BareIsNoDomain()
    ensures "$JS" != JS_API && !DomainPrefix("$JS")
  {
  }

  lemma DomainOf(q: string)
    ensures DomainPrefix(JS + q) <==> Cut(q, '.').2 && Cut(q, '.').1 == "API" && Cut(q, '.').0 != "API"
    ensures JS + q == JS_API <==> q == "API"
    ensures q == "API" ==> Cut(q, '.') == ("API", "", false)
  {
    hide Cut;
    assert (JS + q)[|JS|..] == q;
    assert (JS + q)[4..] == q && JS_API[4..] == "API";
    assert q == "API" ==> Free(q, '.');
    if q == "API" {
      assert !Cut(q, '.').2;
    }
  }

  /** What normalising yields behind `$JS.q`. */
  lemma InsideCases(verbs: set<string>, q: string, body: string)
    ensures var s, (domain, rest, found) := JS_API + "." + body, Cut(q, '.');
            Normalized(verbs, JS + q + "." + body) == (s, true) <==> q == "API" || (found && rest == "API" && domain != "API")
  {
    hide FromVerb; hide Cut;
    var s, subject := JS_API + "." + body, JS + q + "." + body;
    var (domain, rest, found) := Cut(q, '.');
    assert subject[|JS|..] == q + "." + body && JS <= subject;
    AfterFirst(q, body);
    OwnPrefix(q, body);
    if JS_API + "." <= subject {
      assert subject == s <==> q == "API" by { SameBehind(q, body); }
      assert found ==> q != "API" by { DomainOf(q); }
    } else {
      assert q != "API" by { DomainOf(q); }
      if found && "API." <= rest + "." + body {
        SuffixIs(rest, body);
        ResultIs(rest + "." + body, body);
      } else if found {
        assert rest == "API" ==> rest + "." + body == "API." + body;
      } else if "API." <= body {
        assert |JS_API + "." + body[4..]| < |s|;
      }
    }
  }

  lemma SameBehind(q: string, body: string)
    ensures JS + q + "." + body == JS_API + "." + body <==> q == "API"
  {
    var a, b := JS + q + "." + body, JS_API + "." + body;
    if a == b {
      assert |q| == 3 && q == a[4..7] && b[4..7] == "API";
    }
  }

  lemma ResultIs(all: string, body: string)
    requires "API." <= all
    ensures JS_API + "." + all[4..] == JS_API + "." + body <==> all[4..] == body
  {
    var a, b := JS_API + "." + all[4..], JS_API + "." + body;
    assert a[8..] == all[4..] && b[8..] == body;
  }

  lemma FirstToken(prefix: string)
    ensures Split(prefix, '.')[0] == Cut(prefix, '.').0
    ensures Split(prefix, '.')[0] == "$JS" ==> prefix == "$JS" || JS <= prefix
  {
    hide Split;
    var (head, rest, found) := Cut(prefix, '.');
    SplitFirst(prefix);
    if found && head == "$JS" {
      assert prefix == JS + rest;
    }
  }

  lemma SplitFirst(s: string)
    ensures Split(s, '.')[0] == Cut(s, '.').0
  {
    hide Cut;
  }

  /** Behind `$JS` alone nothing is recovered. */
  lemma BareJS(verbs: set<string>, body: string)
    ensures Normalized(verbs, "$JS" + "." + body) != (JS_API + "." + body, true)
  {
    hide FromVerb; hide Cut;
    var subject := "$JS" + "." + body;
    assert subject[|JS|..] == body && JS <= subject;
    assert |Cut(body, '.').1| <= |body| && |subject| < |JS_API + "." + body|;
  }

  /** What follows the first token of `q.body`. */
  lemma AfterFirst(q: string, body: string)
    ensures var (domain, rest, found) := Cut(q, '.');
            Cut(q + "." + body, '.').1 == if found then rest + "." + body else body
  {
    var (domain, rest, found) := Cut(q, '.');
    if found {
      assert q + "." + body == domain + ['.'] + (rest + "." + body);
      CutAt(domain, rest + "." + body, '.');
    } else {
      assert q + "." + body == q + ['.'] + body;
      CutAt(q, body, '.');
    }
  }

  /** When a subject behind `$JS.q` looks like an API subject already. */
  lemma OwnPrefix(q: string, body: string)
    ensures JS_API + "." <= JS + q + "." + body <==> Cut(q, '.').0 == "API"
  {
    hide Cut;
    var all := q + "." + body;
    var (domain, rest, found) := Cut(q, '.');
    assert JS + q + "." + body == JS + all;
    BehindJS(all);
    if found {
      assert all == domain + ['.'] + (rest + "." + body);
      StartsAPI(domain, rest + "." + body);
    } else {
      assert all == q + ['.'] + body;
      StartsAPI(q, body);
    }
  }

  lemma BehindJS(all: string)
    ensures JS_API + "." <= JS + all <==> "API." <= all
  {
    assert JS_API + "." == JS + "API.";
    assert (JS + all)[4..] == all;
    if "API." <= all {
      assert JS + all == (JS + "API.") + all[4..];
    }
    if JS + "API." <= JS + all {
      assert (JS + all)[..8] == JS + "API.";
      assert all[..4] == (JS + all)[..8][4..] == "API.";
    }
  }

  lemma StartsAPI(first: string, after: string)
    requires Free(first, '.')
    ensures "API." <= first + ['.'] + after <==> first == "API"
  {
    var all := first + ['.'] + after;
    if "API." <= all {
      assert all[0] == 'A' && all[1] == 'P' && all[2] == 'I' && all[3] == '.';
      assert all[|first|] == '.';
      assert forall i :: 0 <= i < |first| ==> all[i] == first[i] != '.';
      assert |first| == 3;
    }
  }

  lemma SuffixIs(rest: string, body: string)
    requires "API." <= rest + "." + body
    ensures (rest + "." + body)[4..] == body <==> rest == "API"
  {
    var all := rest + "." + body;
    if all[4..] == body {
      assert |rest| == 3 && rest == all[..3];
    }
  }

  /** For a known subject and any prefix, normalisation undoes prefixing exactly in
      these cases: inside `$JS` when the prefix is the API's own or a domain's, and
      elsewhere when no later token of the prefix is a verb other than INFO. */
  lemma NormalizeUndoesPrefix(verbs: set<string>, body: string, prefix: string)
    requires KnownBody(verbs, body) && prefix != ""
    ensures var s := JS_API + "." + body;
            Normalized(verbs, Prefixed(s, prefix, "")) == (s, true) <==>
            if Split(prefix, '.')[0] == "$JS" then prefix == JS_API || DomainPrefix(prefix) else !Stops(verbs, Split(prefix, '.')[1..])
  {
    hide Split; hide Normalized; hide Prefixed; hide Stops; hide DomainPrefix; hide KnownBody;
    if Split(prefix, '.')[0] == "$JS" {
      NormalizeUndoesInsidePrefix(verbs, body, prefix);
    } else {
      NormalizeUndoesOutsidePrefix(verbs, body, prefix);
    }
  }

  lemma PrefixedBody(prefix: string, body: string)
    requires prefix != ""
    ensures Prefixed(JS_API + "." + body, prefix, "") == prefix + "." + body
  {
    assert (JS_API + "." + body)[|JS_API|..] == "." + body;
    assert prefix + ("." + body) == prefix + "." + body;
  }

  lemma KnownBodyScans(verbs: set<string>, body: string)
    requires KnownBody(verbs, body)
    ensures FromVerb(verbs, body) == Some(body)
  {
  }

  /** A subject in `$JS` has that first token. */
  lemma InsideJS(subject: string)
    ensures JS <= subject ==> Cut(subject, '.').0 == "$JS"
    ensures JS_API + "." <= subject ==> JS <= subject
  {
    if JS <= subject {
      assert subject == "$JS" + ['.'] + subject[4..];
      CutAt("$JS", subject[4..], '.');
    }
    assert (JS_API + ".")[..4] == JS;
  }

  /** Normalisation undoes a domain, for any API subject, exactly when the domain is
      one token other than API. */
  lemma NormalizeUndoesDomain(verbs: set<string>, body: string, domain: string)
    requires domain != ""
    ensures var s := JS_API + "." + body;
            Normalized(verbs, Prefixed(s, "", domain)) == (s, true) <==> Free(domain, '.') && domain != "API"
  {
    hide FromVerb; hide Cut;
    var s := JS_API + "." + body;
    var subject := JS + domain + ".API." + body;
    assert s[|JS_API|..] == "." + body;
    assert Prefixed(s, "", domain) == subject && |subject| > |s|;
    assert subject[|JS|..] == domain + ".API." + body;
    DomainCut(domain, body);
    StartsWithAPI(domain, body);
    if !(JS_API + "." <= subject) {
      var rest := Cut(domain + ".API." + body, '.').1;
      if Free(domain, '.') {
        assert rest[4..] == body;
      } else if "API." <= rest {
        assert |JS_API + "." + rest[4..]| > |s|;
      }
    }
  }

  /** What follows the first dot: the API part itself exactly for one-token domains. */
  lemma DomainCut(domain: string, body: string)
    requires domain != ""
    ensures var rest := Cut(domain + ".API." + body, '.').1;
            if Free(domain, '.') then rest == "API." + body else |rest| > |"API." + body|
  {
    var all := domain + ".API." + body;
    if Free(domain, '.') {
      assert all == domain + ['.'] + ("API." + body);
      CutAt(domain, "API." + body, '.');
    } else {
      var k := IndexOf(domain, '.');
      FirstDot(domain);
      assert domain == domain[..k] + ['.'] + domain[k + 1..];
      assert all == domain[..k] + ['.'] + (domain[k + 1..] + ".API." + body);
      CutAt(domain[..k], domain[k + 1..] + ".API." + body, '.');
    }
  }

  lemma FirstDot(s: string)
    requires !Free(s, '.')
    ensures IndexOf(s, '.') < |s|
  {
    assert s[..|s|] == s;
  }

  /** Behind `$JS.`, a one-token domain looks like the API itself only when it is API. */
  lemma StartsWithAPI(domain: string, body: string)
    requires domain != ""
    ensures Free(domain, '.') ==> (JS_API + "." <= JS + domain + ".API." + body <==> domain == "API")
  {
    var subject := JS + domain + ".API." + body;
    var n := |domain|;
    assert forall i :: 0 <= i < n ==> subject[4 + i] == domain[i];
    assert subject[4 + n] == '.' && |subject| >= 9 + n;
    assert subject[..4] == JS;
    if domain == "API" {
      assert subject == (JS_API + ".") + ("API." + body);
    }
    if JS_API + "." <= subject {
      assert subject[7] == (JS_API + ".")[7] == '.';
      assert subject[4] == (JS_API + ".")[4] == 'A' && subject[5] == (JS_API + ".")[5] == 'P' && subject[6] == (JS_API + ".")[6] == 'I';
      if n == 3 {
        assert domain == "API";
      } else if n > 3 {
        assert domain[3] == subject[7];
      }
    }
  }

  /* ---------- Every answer of normalising ---------- */

  /** A token the scan stops at: a verb, INFO only as the last token. */
  predicate VerbAt(verbs: set<string>, ts: seq<string>, i: nat) {
    i < |ts| && ts[i] in verbs && (ts[i] == "INFO" ==> i == |ts| - 1)
  }

  predicate FirstVerbAt(verbs: set<string>, ts: seq<string>, lo: nat, i: nat) {
    lo <= i && VerbAt(verbs, ts, i) && forall j :: lo <= j < i ==> !VerbAt(verbs, ts, j)
  }

  lemma CutTokens(s: string)
    ensures var (head, rest, found) := Cut(s, '.');
            Split(s, '.') == if found then [head] + Split(rest, '.') else [s]
  {
    hide Cut;
  }

  lemma FirstOfTokens(tok: string, t: string)
    requires Free(tok, '.')
    ensures Split(tok + "." + t, '.') == [tok] + Split(t, '.') && |Split(t, '.')| > 0
  {
    hide Split;
    SplitHead(tok, t, '.');
  }

  lemma FirstTokenStarts(s: string)
    requires |Split(s, '.')| >= 2
    ensures Split(s, '.')[0] + "." <= s
  {
    hide Cut; hide Split;
    CutTokens(s);
    var (head, rest, found) := Cut(s, '.');
    assert s == head + ['.'] + rest;
  }

  /** A subject starts with a token and a dot exactly when that is its first token and
      not its only one. */
  lemma StartsWith(tok: string, s: string)
    requires Free(tok, '.')
    ensures tok + "." <= s <==> |Split(s, '.')| >= 2 && Split(s, '.')[0] == tok
    ensures tok + "." <= s ==> Split(s[|tok| + 1..], '.') == Split(s, '.')[1..]
  {
    hide Cut; hide Split;
    if tok + "." <= s {
      var t := s[|tok| + 1..];
      assert s == tok + "." + t;
      FirstOfTokens(tok, t);
    } else if |Split(s, '.')| >= 2 {
      FirstTokenStarts(s);
    }
  }

  /** The scan finds the first verb. */
  lemma {:induction false} ScanExactly(verbs: set<string>, rest: string) returns (i: nat)
    ensures var ts, r := Split(rest, '.'), FromVerb(verbs, rest);
            && (r.None? ==> forall j: nat :: !VerbAt(verbs, ts, j))
            && (r.Some? ==> FirstVerbAt(verbs, ts, 0, i) && r.value == Join(ts[i..], '.'))
    decreases |rest|
  {
    hide Cut; hide Split; hide Join;
    i := 0;
    CutTokens(rest);
    JoinSplit(rest, '.');
    var (verb, next, more) := Cut(rest, '.');
    var ts := Split(rest, '.');
    assert ts[0..] == ts && ts[0] == verb;
    if !VerbAt(verbs, ts, 0) && more {
      var k := ScanExactly(verbs, next);
      i := k + 1;
      VerbShift(verbs, verb, Split(next, '.'));
      assert FromVerb(verbs, rest) == FromVerb(verbs, next);
      if FromVerb(verbs, next).Some? {
        ScanShift(verbs, verb, Split(next, '.'), k);
      }
    }
  }

  /** One token in front moves every verb by one. */
  lemma VerbShift(verbs: set<string>, verb: string, ts: seq<string>)
    requires ts != []
    ensures forall j: nat :: VerbAt(verbs, ts, j) ==> VerbAt(verbs, [verb] + ts, j + 1)
    ensures forall j: nat :: j > 0 && VerbAt(verbs, [verb] + ts, j) ==> VerbAt(verbs, ts, j - 1)
  {
    var all := [verb] + ts;
    assert forall j: nat :: 0 < j < |all| ==> all[j] == ts[j - 1];
    forall j: nat | VerbAt(verbs, ts, j) ensures VerbAt(verbs, all, j + 1) {
      assert all[j + 1] == ts[j];
    }
  }

  lemma ScanShift(verbs: set<string>, verb: string, ts: seq<string>, i: nat)
    requires FirstVerbAt(verbs, ts, 0, i)
    ensures FirstVerbAt(verbs, [verb] + ts, 1, i + 1) && ([verb] + ts)[i + 1..] == ts[i..]
    ensures !VerbAt(verbs, [verb] + ts, 0) ==> FirstVerbAt(verbs, [verb] + ts, 0, i + 1)
  {
    hide VerbAt;
    assert i < |ts| by { VerbIn(verbs, ts, i); }
    VerbShift(verbs, verb, ts);
  }

  lemma VerbIn(verbs: set<string>, ts: seq<string>, i: nat)
    requires VerbAt(verbs, ts, i)
    ensures i < |ts|
  {
  }

  /** What every subject normalises to, told by its tokens: in `$JS` a subject of the
      API itself stays, one of a domain loses the domain, and any other is refused;
      elsewhere what precedes the first verb, which is not the first token, is replaced,
      and without a verb the subject is refused. */
  lemma NormalizedExactly(verbs: set<string>, subject: string)
    ensures var ts, r := Split(subject, '.'), Normalized(verbs, subject);
            if ts[0] == "$JS" && |ts| >= 2 then
              if ts[1] == "API" && |ts| >= 3 then r == (subject, true)
              else if |ts| >= 4 && ts[2] == "API" then r == (JS_API + "." + Join(ts[3..], '.'), true)
              else r == (subject, false)
            else
              || (r == (subject, false) && forall i: nat :: i >= 1 ==> !VerbAt(verbs, ts, i))
              || exists i: nat :: FirstVerbAt(verbs, ts, 1, i) && r == (JS_API + "." + Join(ts[i..], '.'), true)
  {
    hide Cut; hide Split; hide Join; hide FromVerb;
    var ts := Split(subject, '.');
    StartsWith("$JS", subject);
    assert "$JS" + "." == JS;
    if JS <= subject {
      var after := subject[|JS|..];
      assert Split(after, '.') == ts[1..];
      OwnOrDomain(subject, after);
    } else {
      CutTokens(subject);
      var (head, rest, found) := Cut(subject, '.');
      OutsideJS(subject);
      if found {
        var i := ScanExactly(verbs, rest);
        VerbShift(verbs, head, Split(rest, '.'));
        if FromVerb(verbs, rest).Some? {
          ScanShift(verbs, head, Split(rest, '.'), i);
        }
      }
    }
  }

  lemma OutsideJS(subject: string)
    ensures JS_API + "." <= subject ==> JS <= subject
  {
    assert (JS_API + ".")[..4] == JS;
  }

  lemma OwnOrDomain(subject: string, after: string)
    requires JS <= subject && after == subject[|JS|..]
    ensures var ts := Split(after, '.');
            && (JS_API + "." <= subject <==> ts[0] == "API" && |ts| >= 2)
            && var rest := Cut(after, '.').1;
               && ("API." <= rest <==> |ts| >= 3 && ts[1] == "API")
               && ("API." <= rest ==> rest[4..] == Join(ts[2..], '.'))
  {
    hide Cut; hide Split; hide Join;
    var ts := Split(after, '.');
    StartsWith("API", after);
    assert "API" + "." == "API.";
    assert subject == JS + after && JS + "API." == JS_API + ".";
    if JS_API + "." <= subject {
      assert after[..4] == subject[4..8] == "API.";
    }
    if "API." <= after {
      assert subject[..8] == JS + after[..4];
    }
    CutTokens(after);
    var (domain, rest, found) := Cut(after, '.');
    if found {
      StartsWith("API", rest);
      assert Split(rest, '.') == ts[1..];
      if "API." <= rest {
        JoinSplit(rest[4..], '.');
        assert Split(rest[4..], '.') == ts[1..][1..] == ts[2..];
      }
    }
  }
}
