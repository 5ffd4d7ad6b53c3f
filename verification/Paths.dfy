/** Slash paths as Go's path package cleans and joins them. Consumer entries and
    schema references are both named through path.Join. */
module Paths {
  import opened Text

  /** The component rules of path.Clean: `.` and empty components vanish, `..`
      takes back the previous component when there is one. */
  function Reduce(cs: seq<string>, stack: seq<string>, rooted: bool): (r: seq<string>)
    requires Reduced(stack)
    requires forall i :: 0 <= i < |cs| ==> Free(cs[i], '/')
    ensures Reduced(r)
    decreases |cs|
  {
    if cs == [] then stack
    else if cs[0] == "" || cs[0] == "." then Reduce(cs[1..], stack, rooted)
    else if cs[0] != ".." then Reduce(cs[1..], stack + [cs[0]], rooted)
    else if stack != [] && stack[|stack| - 1] != ".." then Reduce(cs[1..], stack[..|stack| - 1], rooted)
    else if rooted then Reduce(cs[1..], stack, rooted)
    else Reduce(cs[1..], stack + [".."], rooted)
  }

  /** Leading `..` components, then ordinary ones. */
  predicate Reduced(stack: seq<string>) {
    && (forall i :: 0 <= i < |stack| ==> stack[i] != "" && stack[i] != "." && Free(stack[i], '/'))
    && (forall i, j :: 0 <= i < j < |stack| && stack[j] == ".." ==> stack[i] == "..")
  }

  /** path.Clean */
  function Clean(p: string): string {
    var rooted := p != "" && p[0] == '/';
    var body := Join(Reduce(Split(p, '/'), [], rooted), '/');
    if rooted then "/" + body else if body == "" then "." else body
  }

  /** path.Join of two elements; empty elements are ignored. */
  function JoinPath(dir: string, file: string): string {
    if dir == "" && file == "" then ""
    else if dir == "" then Clean(file)
    else if file == "" then Clean(dir)
    else Clean(dir + "/" + file)
  }

  /** path.Dir */
  function Dir(p: string): string {
    var cs := Split(p, '/');
    if |cs| == 1 then Clean("") else Clean(Join(cs[..|cs| - 1], '/') + "/")
  }

  /** A name whose components path.Clean leaves alone. */
  predicate Regular(name: string) {
    var cs := Split(name, '/');
    forall i :: 0 <= i < |cs| ==> cs[i] != "" && cs[i] != "." && cs[i] != ".."
  }

  lemma {:induction false} ReduceRegular(cs: seq<string>, stack: seq<string>, rooted: bool)
    requires Reduced(stack) && forall i :: 0 <= i < |cs| ==> Free(cs[i], '/')
    requires forall i :: 0 <= i < |cs| ==> cs[i] != "" && cs[i] != "." && cs[i] != ".."
    ensures Reduce(cs, stack, rooted) == stack + cs
    decreases |cs|
  {
    if cs == [] {
      assert stack + cs == stack;
    } else {
      ReduceRegular(cs[1..], stack + [cs[0]], rooted);
      assert stack + [cs[0]] + cs[1..] == stack + cs;
    }
  }

  /** Only regular components are left alone below an ordinary directory. */
  lemma CleanLeavesRegular(dir: string, cs: seq<string>)
    requires dir != "" && dir != "." && dir != ".." && Free(dir, '/')
    requires forall i :: 0 <= i < |cs| ==> Free(cs[i], '/')
    requires Reduce([dir] + cs, [], false) == [dir] + cs
    ensures forall i :: 0 <= i < |cs| ==> cs[i] != "" && cs[i] != "." && cs[i] != ".."
  {
    var out := [dir] + cs;
    assert Reduced(out);
    assert forall i :: 0 <= i < |cs| ==> cs[i] == out[i + 1] && out[0] != "..";
  }

  lemma CleanFixed(dir: string, name: string)
    requires dir != "" && dir != "." && dir != ".." && Free(dir, '/')
    ensures Split(dir + "/" + name, '/') == [dir] + Split(name, '/')
    ensures Clean(dir + "/" + name) == dir + "/" + name <==> Regular(name)
  {
    var cs := Split(name, '/');
    var full := dir + "/" + name;
    SplitFree(dir, '/');
    SplitAppend(dir, name, '/');
    JoinSplit(full, '/');
    var out := Reduce([dir] + cs, [], false);
    assert full[0] == dir[0] && full[|dir|] == '/';
    assert Clean(full) == full <==> Join(out, '/') == full;
    if Regular(name) {
      ReduceRegular([dir] + cs, [], false);
      assert [] + ([dir] + cs) == [dir] + cs;
    }
    if Join(out, '/') == full {
      if out != [] {
        SplitJoin(out, '/');
      }
      CleanLeavesRegular(dir, cs);
    }
  }

  /** Joining below a directory and cutting the directory off again gives the
      name back exactly when its components are regular. */
  lemma JoinBelowRoundTrip(dir: string, name: string)
    requires dir != "" && dir != "." && dir != ".." && Free(dir, '/')
    ensures CutPrefix(JoinPath(dir, name), dir + "/") == Some(name) <==> Regular(name)
  {
    var full := dir + "/" + name;
    CleanFixed(dir, name);
    if name == "" {
      SplitFree(dir, '/');
      ReduceRegular([dir], [], false);
      assert [] + [dir] == [dir];
      assert JoinPath(dir, "") == dir && |dir + "/"| > |dir|;
      SplitFree("", '/');
      assert Split(name, '/')[0] == "";
    } else {
      assert JoinPath(dir, name) == Clean(full);
      assert full[|dir + "/"|..] == name;
    }
  }

  /* ---------- Relative names ---------- */

  /** Ordinary path components. */
  predicate RegularParts(cs: seq<string>) {
    forall i :: 0 <= i < |cs| ==> cs[i] != "" && cs[i] != "." && cs[i] != ".." && Free(cs[i], '/')
  }

  /** k steps up. */
  function Ups(k: nat): (r: seq<string>)
    ensures |r| == k && forall i :: 0 <= i < k ==> r[i] == ".."
  {
    seq(k, i => "..")
  }

  /** The directory k levels above `ds`; once the root is passed, steps up remain. */
  function Above(ds: seq<string>, k: nat): seq<string> {
    if k <= |ds| then ds[..|ds| - k] else Ups(k - |ds|)
  }

  lemma {:induction false} ReduceAppend(a: seq<string>, b: seq<string>, stack: seq<string>)
    requires Reduced(stack) && (forall i :: 0 <= i < |a| ==> Free(a[i], '/')) && forall i :: 0 <= i < |b| ==> Free(b[i], '/')
    ensures Reduce(a + b, stack, false) == Reduce(b, Reduce(a, stack, false), false)
    decreases |a|
  {
    if a == [] {
      assert a + b == b;
    } else {
      assert (a + b)[0] == a[0] && (a + b)[1..] == a[1..] + b;
      ReduceAppend(a[1..], b,
                   if a[0] == "" || a[0] == "." then stack
                   else if a[0] != ".." then stack + [a[0]]
                   else if stack != [] && stack[|stack| - 1] != ".." then stack[..|stack| - 1] else stack + [".."]);
    }
  }

  lemma {:induction false} ReduceUps(ds: seq<string>, up: nat, k: nat)
    requires RegularParts(ds) && (up > 0 ==> ds == [])
    ensures Reduced(Ups(up) + ds)
    ensures Reduce(Ups(k), Ups(up) + ds, false) == if k <= |ds| then Ups(up) + ds[..|ds| - k] else Ups(up + k - |ds|)
    decreases k
  {
    var stack := Ups(up) + ds;
    if k == 0 {
      assert ds[..|ds|] == ds;
      assert |ds| == 0 ==> stack == Ups(up);
    } else {
      assert Ups(k)[1..] == Ups(k - 1);
      if ds != [] {
        assert stack[..|stack| - 1] == Ups(up) + ds[..|ds| - 1];
        ReduceUps(ds[..|ds| - 1], up, k - 1);
        assert k <= |ds| ==> ds[..|ds| - 1][..|ds| - k] == ds[..|ds| - k];
      } else {
        assert stack + [".."] == Ups(up + 1) + [];
        ReduceUps([], up + 1, k - 1);
        assert Ups(up + 1 + (k - 1) - 0) == Ups(up + k);
      }
    }
  }

  lemma PartsReduced(cs: seq<string>, stack: seq<string>)
    requires RegularParts(cs) && Reduced(stack)
    ensures Reduce(cs, stack, false) == stack + cs
  {
    ReduceRegular(cs, stack, false);
  }

  lemma {:induction false} JoinStarts(cs: seq<string>)
    requires cs != [] && cs[0] != ""
    ensures Join(cs, '/') != "" && Join(cs, '/')[0] == cs[0][0]
  {
  }

  /** path.Dir of a name in an ordinary directory is the directory, or `.`. */
  lemma DirOfParts(ds: seq<string>, n: string)
    requires RegularParts(ds) && Free(n, '/')
    ensures Dir(Join(ds + [n], '/')) == if ds == [] then "." else Join(ds, '/')
  {
    hide Reduce; hide Join; hide Split;
    SplitJoin(ds + [n], '/');
    assert (ds + [n])[..|ds|] == ds;
    SplitFree("", '/');
    PartsReduced([], []);
    if ds == [] {
      EmptyReduced();
      JoinNone();
    } else {
      SplitAppend(Join(ds, '/'), "", '/');
      SplitJoin(ds, '/');
      assert Join(ds, '/') + ['/'] + "" == Join(ds, '/') + "/";
      ReduceAppend(ds, [""], []);
      PartsReduced(ds, []);
      assert [] + ds == ds;
      EmptyIgnored(ds);
      JoinStarts(ds);
      assert (Join(ds, '/') + "/")[0] == ds[0][0];
    }
  }

  lemma JoinNone()
    ensures Join([], '/') == ""
  {
  }

  lemma EmptyReduced()
    ensures Reduce([""], [], false) == []
  {
  }

  lemma EmptyIgnored(stack: seq<string>)
    requires Reduced(stack)
    ensures Reduce([""], stack, false) == stack
  {
  }

  lemma DotIgnored()
    ensures Reduce(["."], [], false) == []
  {
  }

  /** The components of a directory, `.` for none. */
  function DirParts(ds: seq<string>): seq<string> {
    if ds == [] then ["."] else ds
  }

  lemma DirPartsSplit(ds: seq<string>)
    requires RegularParts(ds)
    ensures var dir := if ds == [] then "." else Join(ds, '/');
            dir != "" && dir[0] != '/' && Split(dir, '/') == DirParts(ds) && Reduce(DirParts(ds), [], false) == ds
  {
    hide Reduce; hide Join; hide Split;
    if ds == [] {
      SplitFree(".", '/');
      DotIgnored();
    } else {
      JoinStarts(ds);
      SplitJoin(ds, '/');
      PartsReduced(ds, []);
      assert [] + ds == ds;
    }
  }

  /** Steps up from a directory, then down again. */
  lemma ReduceRelative(ds: seq<string>, k: nat, fs: seq<string>)
    requires RegularParts(ds) && RegularParts(fs)
    ensures Reduce(DirParts(ds) + (Ups(k) + fs), [], false) == Above(ds, k) + fs
  {
    hide Reduce; hide Join; hide Split;
    DirPartsSplit(ds);
    ReduceAppend(DirParts(ds), Ups(k) + fs, []);
    ReduceUps(ds, 0, k);
    assert Ups(0) + ds == ds;
    assert k <= |ds| ==> Ups(0) + ds[..|ds| - k] == ds[..|ds| - k];
    ReduceAppend(Ups(k), fs, ds);
    PartsReduced(fs, Above(ds, k));
  }

  /** Joining a relative name to a directory walks up k levels and down again. */
  lemma JoinParts(ds: seq<string>, k: nat, fs: seq<string>)
    requires RegularParts(ds) && RegularParts(fs) && fs != []
    ensures JoinPath(if ds == [] then "." else Join(ds, '/'), Join(Ups(k) + fs, '/')) == Join(Above(ds, k) + fs, '/')
  {
    hide Reduce; hide Join; hide Split; hide Above; hide DirParts;
    var dir, file := if ds == [] then "." else Join(ds, '/'), Join(Ups(k) + fs, '/');
    DirPartsSplit(ds);
    JoinStarts(Ups(k) + fs);
    SplitJoin(Ups(k) + fs, '/');
    SplitAppend(dir, file, '/');
    var full := dir + "/" + file;
    assert full == dir + ['/'] + file && full[0] == dir[0];
    ReduceRelative(ds, k, fs);
    AboveStarts(ds, k, fs);
  }

  lemma AboveStarts(ds: seq<string>, k: nat, fs: seq<string>)
    requires RegularParts(ds) && RegularParts(fs) && fs != []
    ensures Join(Above(ds, k) + fs, '/') != ""
  {
    hide Join;
    JoinStarts(Above(ds, k) + fs);
  }

  /** What a relative name means in a file: from the file's directory k levels up,
      then down along `fs`. */
  lemma RelativeName(ds: seq<string>, n: string, k: nat, fs: seq<string>)
    requires RegularParts(ds) && RegularParts(fs) && fs != [] && Free(n, '/')
    ensures JoinPath(Dir(Join(ds + [n], '/')), Join(Ups(k) + fs, '/')) == Join(Above(ds, k) + fs, '/')
  {
    hide Dir; hide JoinPath; hide Join;
    DirOfParts(ds, n);
    JoinParts(ds, k, fs);
  }
}
