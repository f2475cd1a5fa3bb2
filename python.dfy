/** The parts of Python's `str`, `os.path` (POSIX flavour) and the builtin `max`
    that the scripts rely on, written out so that their edge cases are explicit:
    `split`/`splitext` look only at the last separator or dot, `join` restarts at
    an absolute second argument, `str.replace` replaces every occurrence. */
module Python {

  /** `s.startswith(prefix)` */
  predicate StartsWith(s: string, prefix: string) {
    |prefix| <= |s| && s[..|prefix|] == prefix
  }

  /** `s.endswith(suffix)` */
  predicate EndsWith(s: string, suffix: string) {
    |suffix| <= |s| && s[|s| - |suffix|..] == suffix
  }

  lemma EndsWithTrans(s: string, t: string, u: string)
    requires EndsWith(s, t) && EndsWith(t, u)
    ensures EndsWith(s, u)
  {
    assert s[|s| - |u|..] == s[|s| - |t|..][|t| - |u|..];
  }

  /** A directory entry as `os.listdir` yields it: non-empty and without a separator. */
  predicate IsName(n: string) {
    n != "" && '/' !in n
  }

  lemma NameConcat(prefix: string, rest: string)
    requires IsName(prefix) && '/' !in rest
    ensures IsName(prefix + rest)
  {
    assert forall i :: 0 <= i < |prefix| ==> prefix[i] != '/';
    assert forall i :: 0 <= i < |rest| ==> rest[i] != '/';
  }

  /** `s.rfind(c)`: the index of the last `c` in `s`, or -1 when there is none. */
  function LastIndexOf(s: string, c: char): (r: int)
    ensures -1 <= r < |s|
    ensures r >= 0 ==> s[r] == c
    ensures forall j :: r < j < |s| ==> s[j] != c
  {
    if |s| == 0 then -1
    else if s[|s| - 1] == c then |s| - 1
    else LastIndexOf(s[..|s| - 1], c)
  }

  /** The characterisation above pins the index down: the last `c` of `s + [c] + t`
      when `t` has none is the one just before `t`. */
  lemma LastIndexOfBeforeTail(s: string, c: char, t: string)
    requires c !in t
    ensures LastIndexOf(s + [c] + t, c) == |s|
  {
    var p := s + [c] + t;
    var r := LastIndexOf(p, c);
    assert p[|s|] == c;
    assert r >= |s|;
  }

  lemma LastIndexOfAbsent(s: string, c: char)
    requires c !in s
    ensures LastIndexOf(s, c) == -1
  {
    forall j | 0 <= j < |s| ensures s[j] != c {
      assert s[j] in s;
    }
  }

  predicate AllSlashes(s: string) {
    forall i :: 0 <= i < |s| ==> s[i] == '/'
  }

  /** `s.rstrip('/')` */
  function RStripSlashes(s: string): (r: string)
    ensures StartsWith(s, r)
    ensures r == "" || r[|r| - 1] != '/'
    ensures forall i :: |r| <= i < |s| ==> s[i] == '/'
  {
    if |s| > 0 && s[|s| - 1] == '/' then RStripSlashes(s[..|s| - 1]) else s
  }

  /** The head of `os.path.split`: trailing separators are removed unless the head
      consists of separators only. */
  function NormalizeHead(h: string): string {
    if h != "" && !AllSlashes(h) then RStripSlashes(h) else h
  }

  /** `os.path.split(p)`: (head, tail), split at the last separator. */
  function Split(p: string): (r: (string, string))
    ensures '/' !in r.1
    ensures EndsWith(p, r.1)
    ensures |r.1| < |p| ==> p[|p| - |r.1| - 1] == '/'
    ensures StartsWith(p, r.0) && |r.0| + |r.1| <= |p|
    ensures r.0 == NormalizeHead(p[..|p| - |r.1|])
  {
    var i := LastIndexOf(p, '/') + 1;
    assert forall x :: x in p[i..] ==> x != '/' by {
      forall x | x in p[i..] ensures x != '/' {
        var j :| 0 <= j < |p[i..]| && p[i..][j] == x;
        assert p[i + j] == x;
      }
    }
    (NormalizeHead(p[..i]), p[i..])
  }

  /** `os.path.basename(p)`, which is `os.path.split(p)[1]` */
  function Basename(p: string): string {
    Split(p).1
  }

  /** `os.path.dirname(p)`, which is `os.path.split(p)[0]` */
  function Dirname(p: string): string {
    Split(p).0
  }

  /** `os.path.splitext(p)`: the extension starts at the last dot after the last
      separator, provided some character other than a dot precedes that dot in the
      last component (so `.bashrc` has no extension and `a.nii.gz` has `.gz`). */
  function SplitExt(p: string): (r: (string, string))
    ensures r.0 + r.1 == p
    ensures r.1 == "" || (r.1[0] == '.' && '.' !in r.1[1..] && '/' !in r.1)
  {
    var sepIndex := LastIndexOf(p, '/');
    var dotIndex := LastIndexOf(p, '.');
    if dotIndex > sepIndex && exists k :: sepIndex + 1 <= k < dotIndex && p[k] != '.' then
      assert forall j :: dotIndex < j < |p| ==> p[j] != '.' && p[j] != '/';
      assert p[dotIndex..][1..] == p[dotIndex + 1..];
      (p[..dotIndex], p[dotIndex..])
    else
      (p, "")
  }

  /** `os.path.splitext(p)[0]` */
  function Stem(p: string): string {
    SplitExt(p).0
  }

  lemma StemOfName(p: string)
    requires '/' !in p
    ensures '/' !in Stem(p)
  {
    var r := SplitExt(p);
    forall i | 0 <= i < |r.0| ensures r.0[i] != '/' {
      assert p[i] == r.0[i];
      assert p[i] in p;
    }
  }

  /** Only the last extension is stripped: `stem + "." + e` splits back into
      `stem` and `"." + e` whatever dots `stem` itself holds. */
  lemma SplitExtStripsLastOnly(stem: string, e: string)
    requires '/' !in stem && '.' !in e && '/' !in e
    requires exists k :: 0 <= k < |stem| && stem[k] != '.'
    ensures SplitExt(stem + "." + e) == (stem, "." + e)
  {
    var p := stem + "." + e;
    assert p == stem + ['.'] + e;
    LastIndexOfBeforeTail(stem, '.', e);
    forall j | 0 <= j < |p| ensures p[j] != '/' {
      if j < |stem| {
        assert p[j] == stem[j] && stem[j] in stem;
      } else if j > |stem| {
        assert p[j] == e[j - |stem| - 1] && e[j - |stem| - 1] in e;
      }
    }
    LastIndexOfAbsent(p, '/');
    var k :| 0 <= k < |stem| && stem[k] != '.';
    assert p[k] != '.';
    assert p[..|stem|] == stem;
    assert p[|stem|..] == "." + e;
  }

  /** `os.path.join(a, b)` for two arguments. */
  function Join(a: string, b: string): (r: string)
    ensures StartsWith(b, "/") ==> r == b
    ensures !StartsWith(b, "/") ==> StartsWith(r, a)
    ensures EndsWith(r, b)
  {
    if StartsWith(b, "/") then b
    else if a == "" || EndsWith(a, "/") then
      assert (a + b)[..|a|] == a;
      assert (a + b)[|a + b| - |b|..] == b;
      a + b
    else
      assert (a + "/" + b)[..|a|] == a;
      assert (a + "/" + b)[|a + "/" + b| - |b|..] == b;
      a + "/" + b
  }

  /** `[os.path.join(folder, f) for f in names]` */
  function JoinEach(folder: string, names: seq<string>): (r: seq<string>)
    ensures |r| == |names|
    ensures forall i :: 0 <= i < |names| ==> r[i] == Join(folder, names[i])
  {
    seq(|names|, i requires 0 <= i < |names| => Join(folder, names[i]))
  }

  /** The separator `join` puts between a non-empty `a` and a relative second argument. */
  function Sep(a: string): string {
    if EndsWith(a, "/") then "" else "/"
  }

  lemma JoinRelative(a: string, b: string)
    requires a != "" && !StartsWith(b, "/")
    ensures Join(a, b) == a + Sep(a) + b
    ensures '/' in a + Sep(a)
  {
    if EndsWith(a, "/") {
      assert a[|a| - 1] == a[|a| - 1..][0];
      assert a[|a| - 1] in a;
    } else {
      assert (a + "/")[|a|] == '/';
    }
  }

  lemma RStripNoTrailing(s: string)
    requires s != "" && s[|s| - 1] != '/'
    ensures RStripSlashes(s) == s
  {
  }

  lemma NormalizeHeadIdempotent(h: string)
    ensures NormalizeHead(NormalizeHead(h)) == NormalizeHead(h)
  {
    if h != "" && !AllSlashes(h) {
      var r := RStripSlashes(h);
      assert r == "" ==> AllSlashes(h);
      assert !AllSlashes(r);
      RStripNoTrailing(r);
    }
  }

  lemma DirnameIsNormal(p: string)
    ensures NormalizeHead(Dirname(p)) == Dirname(p)
  {
    NormalizeHeadIdempotent(p[..LastIndexOf(p, '/') + 1]);
  }

  /** Joining a name onto a directory and splitting the result gives back the
      directory (as `split` normalises heads) and the name. */
  lemma {:induction false} JoinThenSplit(a: string, n: string)
    requires IsName(n)
    ensures Split(Join(a, n)) == (NormalizeHead(a), n)
  {
    assert n[0] != '/' by { assert n[0] in n; }
    assert !StartsWith(n, "/");
    if a == "" {
      LastIndexOfAbsent(n, '/');
      assert n[..0] == "";
    } else if EndsWith(a, "/") {
      var a' := a[..|a| - 1];
      assert a == a' + ['/'] by { assert a[|a| - 1..] == "/"; }
      assert Join(a, n) == a' + ['/'] + n;
      LastIndexOfBeforeTail(a', '/', n);
      assert (a' + ['/'] + n)[..|a|] == a;
      assert (a' + ['/'] + n)[|a|..] == n;
    } else {
      assert a[|a| - 1..] == [a[|a| - 1]];
      assert a[|a| - 1] != '/';
      var p := a + ['/'] + n;
      assert Join(a, n) == p;
      LastIndexOfBeforeTail(a, '/', n);
      assert p[..|a| + 1] == a + ['/'];
      assert p[|a| + 1..] == n;
      assert !AllSlashes(a + ['/']) by { assert (a + ['/'])[|a| - 1] == a[|a| - 1]; }
      assert RStripSlashes(a + ['/']) == RStripSlashes(a) by {
        assert (a + ['/'])[..|a|] == a;
      }
      RStripNoTrailing(a);
      assert !AllSlashes(a) by { assert a[|a| - 1] != '/'; }
    }
  }

  /** A name without a separator is its own basename. */
  lemma BasenameOfName(n: string)
    requires IsName(n)
    ensures Basename(n) == n
  {
    JoinThenSplit("", n);
    assert Join("", n) == n by { assert !StartsWith(n, "/") by { assert n[0] in n; } }
  }

  /** `s.split(c)` for a one-character separator: never empty, and empty fields
      are kept (`"a//b".split("/") == ["a", "", "b"]`). */
  function SplitOn(s: string, c: char): (r: seq<string>)
    ensures |r| > 0
    ensures forall i :: 0 <= i < |r| ==> c !in r[i]
  {
    if |s| == 0 then [""]
    else
      var rest := SplitOn(s[1..], c);
      if s[0] == c then [""] + rest
      else [[s[0]] + rest[0]] + rest[1..]
  }

  /** `c.join(fields)` */
  function JoinOn(fields: seq<string>, c: char): string
    requires |fields| > 0
  {
    if |fields| == 1 then fields[0] else fields[0] + [c] + JoinOn(fields[1..], c)
  }

  /** `c.join(s.split(c)) == s` */
  lemma {:induction false} JoinOnSplitOn(s: string, c: char)
    ensures JoinOn(SplitOn(s, c), c) == s
  {
    if |s| > 0 {
      var rest := SplitOn(s[1..], c);
      JoinOnSplitOn(s[1..], c);
      if s[0] == c {
        assert ([""] + rest)[1..] == rest;
      } else {
        var r := [[s[0]] + rest[0]] + rest[1..];
        if |rest| > 1 {
          assert r[1..] == rest[1..];
          assert JoinOn(rest, c) == rest[0] + [c] + JoinOn(rest[1..], c);
        }
      }
    }
  }

  lemma {:induction false} JoinOnSnoc(fields: seq<string>, c: char)
    requires |fields| > 1
    ensures JoinOn(fields, c) == JoinOn(fields[..|fields| - 1], c) + [c] + fields[|fields| - 1]
  {
    if |fields| > 2 {
      JoinOnSnoc(fields[1..], c);
      assert fields[1..][..|fields[1..]| - 1] == fields[..|fields| - 1][1..];
    }
  }

  /** `s.split(c)[-1]` is what follows the last `c`, that is (for `/`) the basename. */
  lemma LastFieldIsBasename(s: string)
    ensures SplitOn(s, '/')[|SplitOn(s, '/')| - 1] == Basename(s)
  {
    var fs := SplitOn(s, '/');
    var last := fs[|fs| - 1];
    JoinOnSplitOn(s, '/');
    if |fs| == 1 {
      LastIndexOfAbsent(s, '/');
    } else {
      JoinOnSnoc(fs, '/');
      var front := JoinOn(fs[..|fs| - 1], '/');
      LastIndexOfBeforeTail(front, '/', last);
      assert s[|front| + 1..] == last;
    }
  }

  /** The last `/`-separated component of `s`, `s.split('/')[-1]`. */
  function LastComponent(s: string): (r: string)
    ensures '/' !in r
  {
    var fs := SplitOn(s, '/');
    fs[|fs| - 1]
  }

  /** ... which is `os.path.basename(s)` (and `os.path.split(s)[1]`). */
  lemma LastComponentIsBasename(s: string)
    ensures LastComponent(s) == Basename(s)
  {
    LastFieldIsBasename(s);
  }

  /** `s.split(c)[0]` is the longest prefix of `s` without `c`. */
  lemma FirstFieldIsPrefix(s: string, c: char)
    ensures StartsWith(s, SplitOn(s, c)[0])
    ensures c !in SplitOn(s, c)[0]
    ensures |SplitOn(s, c)[0]| < |s| ==> s[|SplitOn(s, c)[0]|] == c
  {
    var fs := SplitOn(s, c);
    JoinOnSplitOn(s, c);
    if |fs| > 1 {
      assert s == fs[0] + [c] + JoinOn(fs[1..], c);
      assert s[..|fs[0]|] == fs[0];
    }
  }

  /** `pat` occurs somewhere in `s`. */
  predicate Occurs(pat: string, s: string)
    decreases |s|
  {
    StartsWith(s, pat) || (|s| > 0 && Occurs(pat, s[1..]))
  }

  /** `s.replace(pat, rep)`: every non-overlapping occurrence, scanning left to right. */
  function ReplaceAll(s: string, pat: string, rep: string): (r: string)
    requires pat != ""
    ensures !Occurs(pat, s) ==> r == s
    ensures |rep| <= |pat| ==> |r| <= |s|
    decreases |s|
  {
    if |s| == 0 then ""
    else if StartsWith(s, pat) then rep + ReplaceAll(s[|pat|..], pat, rep)
    else [s[0]] + ReplaceAll(s[1..], pat, rep)
  }

  /** No proper prefix of `pat` is also a suffix of it (true of ".zip"). */
  predicate BorderFree(pat: string) {
    forall k :: 0 < k < |pat| ==> pat[..k] != pat[|pat| - k..]
  }

  lemma {:induction false} ReplaceAllAbsent(s: string, pat: string, rep: string)
    requires pat != "" && !Occurs(pat, s)
    ensures ReplaceAll(s, pat, rep) == s
    decreases |s|
  {
    if |s| > 0 {
      ReplaceAllAbsent(s[1..], pat, rep);
      assert [s[0]] + s[1..] == s;
    }
  }

  /** A string shorter than `pat` holds no occurrence of it. */
  lemma {:induction false} ShortAbsent(pat: string, s: string)
    requires |s| < |pat|
    ensures !Occurs(pat, s)
    decreases |s|
  {
    if |s| > 0 {
      ShortAbsent(pat, s[1..]);
    }
  }

  /** No occurrence of a border-free `pat` straddles the end of a `p` that holds
      none, when what follows `p` starts with `pat`. */
  lemma NoStraddle(p: string, t: string, pat: string)
    requires pat != "" && BorderFree(pat) && p != [] && !Occurs(pat, p) && StartsWith(t, pat)
    ensures !StartsWith(p + t, pat)
  {
    var s := p + t;
    if |p| >= |pat| {
      assert !StartsWith(p, pat);
      assert s[..|pat|] == p[..|pat|];
    } else {
      // a match at 0 would make pat[..k] a border of pat
      var k := |pat| - |p|;
      assert pat[..k] != pat[|pat| - k..];
      var x :| 0 <= x < k && pat[..k][x] != pat[|pat| - k..][x];
      assert s[|p| + x] == t[x] == pat[x];
      assert s[..|pat|][|p| + x] != pat[|p| + x];
    }
  }

  /** Replacing in `p + t`, where `p` holds no occurrence of a border-free `pat`
      and `t` starts with one, leaves `p` as it is. */
  lemma {:induction false} ReplaceAllAfterClean(p: string, t: string, pat: string, rep: string)
    requires pat != "" && BorderFree(pat) && !Occurs(pat, p) && StartsWith(t, pat)
    ensures ReplaceAll(p + t, pat, rep) == p + ReplaceAll(t, pat, rep)
    decreases |p|
  {
    if p == [] {
      assert p + t == t;
    } else {
      NoStraddle(p, t, pat);
      assert (p + t)[1..] == p[1..] + t;
      ReplaceAllAfterClean(p[1..], t, pat, rep);
      assert [p[0]] + p[1..] == p;
    }
  }

  /** Replacing in `p + pat` where `p` holds no occurrence replaces just the suffix. */
  lemma ReplaceAllSuffix(p: string, pat: string, rep: string)
    requires pat != "" && BorderFree(pat) && !Occurs(pat, p)
    ensures ReplaceAll(p + pat, pat, rep) == p + rep
  {
    ReplaceAllAfterClean(p, pat, pat, rep);
    assert pat[|pat|..] == "";
    assert StartsWith(pat, pat);
  }

  /** `max(xs, key=key)`: the index of the first element with the largest key
      (Python replaces its running maximum only on a strictly larger key). */
  function ArgMax<T>(xs: seq<T>, key: T -> nat): (k: nat)
    requires |xs| > 0
    ensures k < |xs|
    ensures forall j :: 0 <= j < |xs| ==> key(xs[j]) <= key(xs[k])
    ensures forall j :: 0 <= j < k ==> key(xs[j]) < key(xs[k])
  {
    ArgMaxBelow(xs, key, |xs|)
  }

  /** The running maximum after the first `n` elements. */
  function ArgMaxBelow<T>(xs: seq<T>, key: T -> nat, n: nat): (k: nat)
    requires 0 < n <= |xs|
    ensures k < n
    ensures forall j :: 0 <= j < n ==> key(xs[j]) <= key(xs[k])
    ensures forall j :: 0 <= j < k ==> key(xs[j]) < key(xs[k])
  {
    if n == 1 then 0
    else
      var k := ArgMaxBelow(xs, key, n - 1);
      if key(xs[n - 1]) > key(xs[k]) then n - 1 else k
  }
}
