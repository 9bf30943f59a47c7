/**
  POSIX path normalisation as the Compose input walk uses it.

  A path is split at its slashes, `.` and `..` are collapsed, and the result is
  accepted only if it stays inside its base: then it has no `..` segment, no
  leading slash and no backslash.
*/
module ComposePaths {
  import opened Common

  // --------------------------------------------------------------- segments

  /** The pieces between slashes; never empty. */
  function Split(p: string): (segs: seq<string>)
    ensures segs != []
  {
    if p == "" then [""]
    else if p[0] == '/' then [""] + Split(p[1..])
    else
      var rest := Split(p[1..]);
      [[p[0]] + rest[0]] + rest[1..]
  }

  function Join(segs: seq<string>): string {
    if segs == [] then "" else if |segs| == 1 then segs[0] else segs[0] + "/" + Join(segs[1..])
  }

  predicate NoSlash(s: string) {
    '/' !in s
  }

  lemma {:induction false} SplitPlain(s: string)
    requires NoSlash(s)
    ensures Split(s) == [s]
  {
    if s != "" {
      assert s[0] in s && s == [s[0]] + s[1..];
      SplitPlain(s[1..]);
    }
  }

  /** One character in front of what is split. */
  function SplitBehind(c: char, segs: seq<string>): seq<string>
    requires segs != []
  {
    if c == '/' then [""] + segs else [[c] + segs[0]] + segs[1..]
  }

  lemma SplitCons(p: string)
    requires p != ""
    ensures Split(p) == SplitBehind(p[0], Split(p[1..]))
  {
  }

  lemma SplitBehindJoin(c: char, a: seq<string>, b: seq<string>)
    requires a != []
    ensures SplitBehind(c, a + b) == SplitBehind(c, a) + b
  {
    assert (a + b)[1..] == a[1..] + b;
  }

  /** Splitting commutes with a separator. */
  lemma {:induction false} SplitAtSlash(a: string, b: string)
    ensures Split(a + "/" + b) == Split(a) + Split(b)
  {
    var whole := a + "/" + b;
    SplitCons(whole);
    if a == "" {
      assert whole[0] == '/' && whole[1..] == b;
    } else {
      assert whole[0] == a[0] && whole[1..] == a[1..] + "/" + b;
      SplitAtSlash(a[1..], b);
      SplitCons(a);
      SplitBehindJoin(a[0], Split(a[1..]), Split(b));
    }
  }

  lemma {:induction false} SplitJoin(segs: seq<string>)
    requires segs != [] && forall s | s in segs :: NoSlash(s)
    ensures Split(Join(segs)) == segs
  {
    SplitPlain(segs[0]);
    if |segs| > 1 {
      SplitJoin(segs[1..]);
      SplitAtSlash(segs[0], Join(segs[1..]));
    } else {
      assert segs == [segs[0]];
    }
  }

  lemma {:induction false} SplitNoSlash(p: string)
    ensures forall s | s in Split(p) :: NoSlash(s)
  {
    if p != "" {
      SplitNoSlash(p[1..]);
      var rest := Split(p[1..]);
      assert rest[0] in rest && forall s | s in rest[1..] :: s in rest;
    }
  }

  // ---------------------------------------------------------- normalisation

  /** `.` and empty segments drop; `..` removes the segment before it, or stays in front when it may climb. */
  function Collapse(segs: seq<string>, mayClimb: bool, done: seq<string>): seq<string>
    decreases |segs|
  {
    if segs == [] then done
    else if segs[0] == "" || segs[0] == "." then Collapse(segs[1..], mayClimb, done)
    else if segs[0] == ".." then
      if done != [] && done[|done| - 1] != ".." then Collapse(segs[1..], mayClimb, done[..|done| - 1])
      else if mayClimb then Collapse(segs[1..], mayClimb, done + [".."])
      else Collapse(segs[1..], mayClimb, done)
    else Collapse(segs[1..], mayClimb, done + [segs[0]])
  }

  /** `path.posix.normalize` */
  function Normalize(p: string): string {
    if p == "" then "."
    else
      var absolute, trailing := p[0] == '/', p[|p| - 1] == '/';
      var body := Join(Collapse(Split(p), !absolute, []));
      if body == "" then (if absolute then "/" else if trailing then "./" else ".")
      else (if absolute then "/" else "") + body + (if trailing then "/" else "")
  }

  function Slashes(p: string): (r: string)
    ensures |r| == |p| && '\\' !in r
    ensures forall i | 0 <= i < |p| :: r[i] == if p[i] == '\\' then '/' else p[i]
  {
    if p == "" then "" else [if p[0] == '\\' then '/' else p[0]] + Slashes(p[1..])
  }

  predicate StartsWith(p: string, prefix: string) {
    prefix <= p
  }

  /** Null when the path escapes its base. */
  function NormalizeWithinBase(candidate: string): Option<string> {
    Contained(Normalize(Slashes(candidate)))
  }

  function Contained(n: string): Option<string> {
    var normalized := if StartsWith(n, "./") then n[2..] else n;
    if normalized == ".." || StartsWith(normalized, "../") || StartsWith(normalized, "/") then None
      else Some(normalized)
  }

  function ResolveWithinBase(base: Option<string>, target: string): Option<string> {
    NormalizeWithinBase(if base.Some? && base.value != "" then base.value + "/" + target else target)
  }

  /** A file's key in the walk's sets. */
  function NormalizeRepoPath(p: string): string {
    DropSlashes(Normalize(Slashes(p)))
  }

  function DropSlashes(p: string): string {
    if p != "" && p[0] == '/' then DropSlashes(p[1..]) else p
  }

  function DirOf(p: string): Option<string> {
    var i := LastSlash(p, |p|);
    if i.Some? then Some(p[..i.value]) else None
  }

  function LastSlash(p: string, n: nat): (i: Option<nat>)
    requires n <= |p|
    ensures i.Some? ==> i.value < n && p[i.value] == '/'
    ensures i.None? ==> '/' !in p[..n]
  {
    if n == 0 then None
    else if p[n - 1] == '/' then Some(n - 1)
    else
      assert p[..n] == p[..n - 1] + [p[n - 1]];
      LastSlash(p, n - 1)
  }

  // ------------------------------------------------------------ clean paths

  /** Stays inside its base: no `..` segment, no leading slash, no backslash. */
  predicate Clean(p: string) {
    !StartsWith(p, "/") && ".." !in Split(p) && '\\' !in p
  }

  /** What collapsing has built: climbs in front, then plain names. */
  predicate Collapsed(segs: seq<string>) {
    && (forall i | 0 <= i < |segs| :: segs[i] != "" && NoSlash(segs[i]) && '\\' !in segs[i] && segs[i] != ".")
    && (forall i | 0 < i < |segs| :: segs[i] == ".." ==> segs[i - 1] == "..")
  }

  lemma {:induction false} CollapseShape(segs: seq<string>, mayClimb: bool, done: seq<string>)
    requires Collapsed(done)
    requires forall s | s in segs :: NoSlash(s) && '\\' !in s
    ensures Collapsed(Collapse(segs, mayClimb, done))
    decreases |segs|
  {
    if segs != [] {
      if segs[0] == "" || segs[0] == "." { CollapseShape(segs[1..], mayClimb, done); }
      else if segs[0] == ".." {
        if done != [] && done[|done| - 1] != ".." { CollapseShape(segs[1..], mayClimb, done[..|done| - 1]); }
        else if mayClimb { CollapseShape(segs[1..], mayClimb, done + [".."]); }
        else { CollapseShape(segs[1..], mayClimb, done); }
      } else {
        CollapseShape(segs[1..], mayClimb, done + [segs[0]]);
      }
    }
  }

  lemma {:induction false} NoClimbInside(segs: seq<string>, i: nat)
    requires Collapsed(segs) && segs != [] && segs[0] != ".." && i < |segs|
    ensures segs[i] != ".."
  {
    if i > 0 { NoClimbInside(segs, i - 1); }
  }

  lemma {:induction false} SplitNoBackslash(p: string)
    requires '\\' !in p
    ensures forall s | s in Split(p) :: '\\' !in s
  {
    if p != "" { SplitNoBackslash(p[1..]); }
  }

  lemma {:induction false} JoinChars(segs: seq<string>, c: char)
    requires c != '/' && forall s | s in segs :: c !in s
    ensures c !in Join(segs)
  {
    if |segs| > 1 { JoinChars(segs[1..], c); }
  }

  lemma JoinHead(segs: seq<string>)
    requires segs != []
    ensures segs[0] <= Join(segs)
    ensures |segs| > 1 ==> segs[0] + "/" <= Join(segs)
  {}

  /** A non-empty collapsed body that does not climb is clean, with or without a trailing slash. */
  lemma BodyClean(segs: seq<string>, trailing: bool)
    requires Collapsed(segs) && segs != []
    requires var body := Join(segs) + (if trailing then "/" else ""); body != ".." && !StartsWith(body, "../")
    ensures Clean(Join(segs) + (if trailing then "/" else ""))
  {
    var body := Join(segs);
    JoinHead(segs);
    JoinChars(segs, '\\');
    SplitJoin(segs);
    assert segs[0] != "..";
    forall i | 0 <= i < |segs| ensures segs[i] != ".." { NoClimbInside(segs, i); }
    assert body[0] == segs[0][0] && segs[0][0] in segs[0];
    if trailing {
      SplitAtSlash(body, "");
      assert body + "/" + "" == body + "/";
    } else {
      assert body + "" == body;
    }
  }

  lemma NoDotHead(segs: seq<string>, tail: string)
    requires Collapsed(segs) && segs != []
    requires tail == "" || tail == "/"
    ensures !StartsWith(Join(segs) + tail, "./")
  {
    JoinHead(segs);
    var t, head := Join(segs) + tail, segs[0];
    assert head <= t && head[0] in head;
    assert |head| > 1 ==> head[1] in head && t[1] == head[1] != '/';
    assert |head| == 1 ==> head == [head[0]] && t[0] == head[0] != '.';
  }

  lemma SegmentsShape(p: string)
    requires '\\' !in p
    ensures forall climb :: Collapsed(Collapse(Split(p), climb, []))
  {
    SplitNoSlash(p);
    SplitNoBackslash(p);
    forall climb ensures Collapsed(Collapse(Split(p), climb, [])) { CollapseShape(Split(p), climb, []); }
  }

  lemma RelativeContained(segs: seq<string>, tail: string)
    requires Collapsed(segs) && segs != [] && (tail == "" || tail == "/")
    ensures Contained(Join(segs) + tail).Some? ==>
      Contained(Join(segs) + tail) == Some(Join(segs) + tail) && Clean(Join(segs) + tail)
  {
    NoDotHead(segs, tail);
    if Contained(Join(segs) + tail).Some? { BodyClean(segs, tail == "/"); }
  }

  lemma EmptyContained()
    ensures Contained(".") == Some(".") && Clean(".") && Contained("./") == Some("") && Clean("")
  {
    SplitPlain(".");
    SplitPlain("");
  }

  lemma JoinNotEmpty(segs: seq<string>)
    requires Collapsed(segs) && segs != []
    ensures Join(segs) != ""
  {
    JoinHead(segs);
  }

  /** Whatever the raw path, one that survives normalisation is clean. */
  lemma NormalizedIsClean(candidate: string)
    ensures NormalizeWithinBase(candidate).Some? ==> Clean(NormalizeWithinBase(candidate).value)
  {
    var p := Slashes(candidate);
    EmptyContained();
    if p != "" {
      var absolute, tail := p[0] == '/', if p[|p| - 1] == '/' then "/" else "";
      var segs := Collapse(Split(p), !absolute, []);
      SegmentsShape(p);
      if segs != [] {
        JoinNotEmpty(segs);
        var body := Join(segs);
        if absolute {
          assert Normalize(p)[0] == '/';
        } else {
          assert "" + body + tail == body + tail;
          RelativeContained(segs, tail);
        }
      }
    }
  }

  lemma ResolvedIsClean(base: Option<string>, target: string)
    ensures ResolveWithinBase(base, target).Some? ==> Clean(ResolveWithinBase(base, target).value)
  {
    NormalizedIsClean(if base.Some? && base.value != "" then base.value + "/" + target else target);
  }

  /** The directory of a clean path is clean. */
  lemma DirOfClean(p: string)
    requires Clean(p)
    ensures DirOf(p).Some? ==> Clean(DirOf(p).value) && DirOf(p).value != ""
  {
    var i := LastSlash(p, |p|);
    if i.Some? {
      var dir, file := p[..i.value], p[i.value + 1..];
      assert p == dir + "/" + file;
      SplitAtSlash(dir, file);
      assert p[|dir|] == '/';
    }
  }

  lemma {:induction false} CollapseKeepsNames(segs: seq<string>, mayClimb: bool, done: seq<string>)
    requires ".." !in segs && ".." !in done
    ensures ".." !in Collapse(segs, mayClimb, done)
    ensures segs != [] && segs[|segs| - 1] != "" && segs[|segs| - 1] != "." ==> Collapse(segs, mayClimb, done) != []
    ensures segs == [] ==> Collapse(segs, mayClimb, done) == done
    decreases |segs|
  {
    if segs != [] {
      if segs[0] == "" || segs[0] == "." { CollapseKeepsNames(segs[1..], mayClimb, done); }
      else {
        CollapseKeepsNames(segs[1..], mayClimb, done + [segs[0]]);
        CollapseGrows(segs[1..], mayClimb, done + [segs[0]]);
      }
    }
  }

  lemma {:induction false} CollapseGrows(segs: seq<string>, mayClimb: bool, done: seq<string>)
    requires ".." !in segs
    ensures |Collapse(segs, mayClimb, done)| >= |done|
    decreases |segs|
  {
    if segs != [] {
      if segs[0] == "" || segs[0] == "." { CollapseGrows(segs[1..], mayClimb, done); }
      else { CollapseGrows(segs[1..], mayClimb, done + [segs[0]]); }
    }
  }

  lemma {:induction false} SlashesIdentity(p: string)
    requires '\\' !in p
    ensures Slashes(p) == p
  {
    if p != "" {
      assert p[0] in p && p == [p[0]] + p[1..];
      SlashesIdentity(p[1..]);
    }
  }

  /** The default `.env` of a clean project base always resolves. */
  lemma EnvResolves(base: Option<string>)
    requires base.Some? ==> Clean(base.value)
    ensures ResolveWithinBase(base, ".env").Some?
  {
    var env := ".env";
    var p := if base.Some? && base.value != "" then base.value + "/" + env else env;
    SplitPlain(env);
    if base.Some? && base.value != "" { SplitAtSlash(base.value, env); }
    assert Split(p)[|Split(p)| - 1] == env;
    assert p[0] != '/' && p[|p| - 1] == 'v';
    NamedContained(p);
  }

  /** A relative path without a trailing slash is its collapsed segments, joined. */
  lemma RelativeNormalize(p: string, segs: seq<string>)
    requires p != "" && p[0] != '/' && p[|p| - 1] != '/' && segs == Collapse(Split(p), true, []) && Join(segs) != ""
    ensures Normalize(p) == Join(segs)
  {
    assert "" + Join(segs) + "" == Join(segs);
  }

  lemma NamedContained(p: string)
    requires p != "" && p[0] != '/' && p[|p| - 1] != '/' && '\\' !in p && ".." !in Split(p)
    requires Split(p)[|Split(p)| - 1] != "" && Split(p)[|Split(p)| - 1] != "."
    ensures NormalizeWithinBase(p).Some?
  {
    var segs := Collapse(Split(p), true, []);
    SlashesIdentity(p);
    SegmentsShape(p);
    CollapseKeepsNames(Split(p), true, []);
    JoinNotEmpty(segs);
    RelativeNormalize(p, segs);
    NamedBody(segs);
  }

  lemma NamedBody(segs: seq<string>)
    requires Collapsed(segs) && segs != [] && ".." !in segs
    ensures Contained(Join(segs)).Some?
  {
    NoDotHead(segs, "");
    assert Join(segs) + "" == Join(segs);
    NoClimbHead(segs);
    JoinHead(segs);
    assert Join(segs)[0] == segs[0][0] && segs[0][0] in segs[0];
  }

  /** A path that climbs out has a climbing segment. */
  lemma ClimbSplits(p: string)
    ensures p == ".." || StartsWith(p, "../") ==> ".." in Split(p)
  {
    SplitPlain("..");
    if StartsWith(p, "../") {
      assert p == ".." + "/" + p[3..];
      SplitAtSlash("..", p[3..]);
    }
  }

  lemma NoClimbHead(segs: seq<string>)
    requires Collapsed(segs) && segs != [] && ".." !in segs
    ensures Join(segs) != ".." && !StartsWith(Join(segs), "../")
  {
    SplitJoin(segs);
    ClimbSplits(Join(segs));
  }
}
