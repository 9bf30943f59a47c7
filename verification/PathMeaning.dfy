/**
  What a path leads to. From a directory, a name goes down, `..` goes back up and `.`
  stays. Normalising keeps where a path leads, from every directory, and resolving
  below a base gives exactly the place reached from it, or nothing when that lies
  outside the base.
*/
module PathMeaning {
  import opened Common
  import opened ComposePaths

  /** A directory: the names from the top down. */
  type Place = seq<string>

  /** One segment further; none above the top. */
  function Step(at: Place, seg: string): Option<Place> {
    if seg == "" || seg == "." then Some(at)
    else if seg == ".." then (if at == [] then None else Some(at[..|at| - 1]))
    else Some(at + [seg])
  }

  /** Where the segments lead from a place. */
  function Go(at: Option<Place>, segs: seq<string>): Option<Place> {
    if segs == [] || at.None? then at
    else
      var before := Go(at, segs[..|segs| - 1]);
      if before.None? then None else Step(before.value, segs[|segs| - 1])
  }

  /** Like `Go`, from the root of the file system, whose `..` is itself. */
  function GoDown(at: Place, segs: seq<string>): Place {
    if segs == [] then at
    else
      var before := GoDown(at, segs[..|segs| - 1]);
      var next := Step(before, segs[|segs| - 1]);
      if next.None? then before else next.value
  }

  predicate IsAbsolute(p: string) {
    p != "" && p[0] == '/'
  }

  /** Where a path leads from a directory, or from the root when it is absolute. */
  function Leads(at: Place, p: string): Option<Place> {
    if IsAbsolute(p) then Some(GoDown([], Split(p))) else Go(Some(at), Split(p))
  }

  // ------------------------------------------------------------ following paths

  lemma {:induction false} GoJoin(at: Option<Place>, a: seq<string>, b: seq<string>)
    ensures Go(at, a + b) == Go(Go(at, a), b)
    decreases |b|
  {
    if b == [] {
      assert a + b == a;
    } else {
      GoJoin(at, a, b[..|b| - 1]);
      assert (a + b)[..|a + b| - 1] == a + b[..|b| - 1];
    }
  }

  lemma {:induction false} GoDownJoin(at: Place, a: seq<string>, b: seq<string>)
    ensures GoDown(at, a + b) == GoDown(GoDown(at, a), b)
    decreases |b|
  {
    if b == [] {
      assert a + b == a;
    } else {
      GoDownJoin(at, a, b[..|b| - 1]);
      assert (a + b)[..|a + b| - 1] == a + b[..|b| - 1];
    }
  }

  lemma GoOne(at: Option<Place>, seg: string)
    ensures Go(at, [seg]) == if at.None? then None else Step(at.value, seg)
  {
    assert [seg][..0] == [];
  }

  lemma GoDownOne(at: Place, seg: string)
    ensures GoDown(at, [seg]) == if Step(at, seg).None? then at else Step(at, seg).value
  {
    assert [seg][..0] == [];
  }

  predicate IsName(seg: string) {
    seg != "" && seg != "." && seg != ".."
  }

  /** A name and the `..` behind it cancel. */
  lemma NameAndBack(at: Option<Place>, name: string)
    requires IsName(name)
    ensures Go(at, [name, ".."]) == at
  {
    GoOne(at, name);
    assert [name, ".."] == [name] + [".."];
    GoJoin(at, [name], [".."]);
    GoOne(Go(at, [name]), "..");
    if at.Some? { assert (at.value + [name])[..|at.value|] == at.value; }
  }

  lemma HeadTail(segs: seq<string>)
    requires segs != []
    ensures segs == [segs[0]] + segs[1..]
  {
  }

  lemma Regroup(a: seq<string>, b: seq<string>, c: seq<string>)
    ensures a + b + c == a + (b + c)
  {
  }

  /** Collapsing a relative path leads where the path leads, from everywhere. */
  lemma {:induction false} CollapseLeads(at: Option<Place>, segs: seq<string>, done: seq<string>)
    requires forall s | s in done :: s != "" && s != "."
    ensures Go(at, Collapse(segs, true, done)) == Go(at, done + segs)
    decreases |segs|, 0
  {
    if segs == [] {
      assert done + segs == done;
    } else {
      var seg, rest := segs[0], segs[1..];
      HeadTail(segs);
      Regroup(done, [seg], rest);
      GoJoin(at, done + [seg], rest);
      GoJoin(at, done, [seg]);
      GoOne(Go(at, done), seg);
      if seg == "" || seg == "." {
        CollapseLeads(at, rest, done);
        GoJoin(at, done, rest);
      } else if seg == ".." && done != [] && done[|done| - 1] != ".." {
        CollapseBack(at, rest, done);
      } else {
        CollapseLeads(at, rest, done + [seg]);
      }
    }
  }

  lemma {:induction false} CollapseBack(at: Option<Place>, rest: seq<string>, done: seq<string>)
    requires done != [] && done[|done| - 1] != ".." && forall s | s in done :: s != "" && s != "."
    ensures Go(at, Collapse(rest, true, done[..|done| - 1])) == Go(Go(at, done + [".."]), rest)
    decreases |rest|, 1
  {
    var init, name := done[..|done| - 1], done[|done| - 1];
    assert name in done && forall s | s in init :: s in done;
    CollapseLeads(at, rest, init);
    GoJoin(at, init, rest);
    assert done + [".."] == init + [name, ".."];
    GoJoin(at, init, [name, ".."]);
    NameAndBack(Go(at, init), name);
  }

  /** Collapsing an absolute path leads where the path leads from the root. */
  lemma {:induction false} CollapseLeadsDown(segs: seq<string>, done: seq<string>)
    requires forall s | s in done :: IsName(s)
    ensures Collapse(segs, false, done) == GoDown(done, segs)
    ensures forall s | s in Collapse(segs, false, done) :: IsName(s)
    decreases |segs|
  {
    if segs != [] {
      var seg, rest := segs[0], segs[1..];
      HeadTail(segs);
      GoDownJoin(done, [seg], rest);
      GoDownOne(done, seg);
      if seg == "" || seg == "." || (seg == ".." && done == []) {
        CollapseLeadsDown(rest, done);
      } else if seg == ".." {
        assert done[|done| - 1] in done;
        CollapseLeadsDown(rest, done[..|done| - 1]);
      } else {
        CollapseLeadsDown(rest, done + [seg]);
      }
    }
  }

  lemma {:induction false} GoNowhere(segs: seq<string>)
    ensures Go(None, segs) == None
  {
  }

  lemma {:induction false} ClimbStays(segs: seq<string>, done: seq<string>)
    requires done != [] && done[0] == ".."
    ensures Collapse(segs, true, done) != [] && Collapse(segs, true, done)[0] == ".."
    decreases |segs|
  {
    if segs != [] {
      var rest := segs[1..];
      if segs[0] == "" || segs[0] == "." {
        ClimbStays(rest, done);
      } else if segs[0] == ".." && done[|done| - 1] != ".." {
        ClimbStays(rest, done[..|done| - 1]);
      } else {
        ClimbStays(rest, done + [segs[0]]);
      }
    }
  }

  /** A relative path that stays inside collapses to the place it leads to; one that does not climbs in front. */
  lemma {:induction false} CollapseIsPlace(segs: seq<string>, done: seq<string>)
    requires forall s | s in done :: IsName(s)
    ensures var end, r := Go(Some(done), segs), Collapse(segs, true, done);
      if end.Some? then r == end.value && (forall s | s in r :: IsName(s)) else r != [] && r[0] == ".."
    decreases |segs|
  {
    if segs != [] {
      var seg, rest := segs[0], segs[1..];
      HeadTail(segs);
      GoJoin(Some(done), [seg], rest);
      GoOne(Some(done), seg);
      if seg == "" || seg == "." {
        CollapseIsPlace(rest, done);
      } else if seg == ".." {
        if done == [] {
          GoNowhere(rest);
          ClimbStays(rest, [".."]);
          assert done + [".."] == [".."];
        } else {
          assert done[|done| - 1] in done;
          CollapseIsPlace(rest, done[..|done| - 1]);
        }
      } else {
        CollapseIsPlace(rest, done + [seg]);
      }
    }
  }

  // ---------------------------------------------------------- normalised paths

  lemma {:induction false} JoinSplit(p: string)
    ensures Join(Split(p)) == p
  {
    if p != "" {
      JoinSplit(p[1..]);
      var rest := Split(p[1..]);
      SplitCons(p);
      if p[0] == '/' {
        assert ([""] + rest)[1..] == rest;
        assert "" + "/" + p[1..] == p;
      } else {
        var segs := [[p[0]] + rest[0]] + rest[1..];
        assert segs[1..] == rest[1..];
        if |rest| > 1 { assert [p[0]] + rest[0] + "/" + Join(rest[1..]) == [p[0]] + (rest[0] + "/" + Join(rest[1..])); }
        assert [p[0]] + p[1..] == p;
      }
    }
  }

  function Tail(p: string): string {
    if p != "" && p[|p| - 1] == '/' then "/" else ""
  }

  lemma SplitTail(body: string, tail: string)
    requires tail == "" || tail == "/"
    ensures Split(body + tail) == Split(body) + if tail == "" then [] else [""]
  {
    if tail == "/" {
      SplitAtSlash(body, "");
      assert body + "/" + "" == body + "/";
    } else {
      assert body + "" == body;
    }
  }

  lemma GoTail(at: Option<Place>, segs: seq<string>)
    ensures Go(at, segs + [""]) == Go(at, segs)
    ensures at.Some? ==> GoDown(at.value, segs + [""]) == GoDown(at.value, segs)
  {
    GoJoin(at, segs, [""]);
    GoOne(Go(at, segs), "");
    if at.Some? {
      GoDownJoin(at.value, segs, [""]);
      GoDownOne(GoDown(at.value, segs), "");
    }
  }

  /** The spelling of a relative path with these segments. */
  function Spell(segs: seq<string>, tail: string): string {
    if segs == [] then "." + tail else Join(segs) + tail
  }

  lemma SpellsBody(p: string, segs: seq<string>)
    requires p != "" && !IsAbsolute(p) && segs == Collapse(Split(p), true, []) && (Join(segs) == "" <==> segs == [])
    ensures Normalize(p) == Spell(segs, Tail(p))
  {
    var body, tail := Join(segs), Tail(p);
    assert "" + body + tail == body + tail;
    assert "." + "/" == "./" && "." + "" == ".";
  }

  lemma NormalizeRelative(p: string)
    requires p != "" && !IsAbsolute(p) && '\\' !in p
    ensures Normalize(p) == Spell(Collapse(Split(p), true, []), Tail(p))
    ensures Collapsed(Collapse(Split(p), true, []))
  {
    var segs := Collapse(Split(p), true, []);
    SegmentsShape(p);
    if segs != [] { JoinNotEmpty(segs); }
    SpellsBody(p, segs);
  }

  lemma NormalizeAbsolute(p: string)
    requires IsAbsolute(p) && '\\' !in p
    ensures var segs := Collapse(Split(p), false, []);
      Collapsed(segs) && Normalize(p) == if segs == [] then "/" else "/" + Join(segs) + Tail(p)
  {
    SegmentsShape(p);
    var segs := Collapse(Split(p), false, []);
    if segs != [] { JoinNotEmpty(segs); }
  }

  lemma SplitSpell(segs: seq<string>, tail: string)
    requires Collapsed(segs) && (tail == "" || tail == "/")
    ensures Split(Spell(segs, tail)) == (if segs == [] then ["."] else segs) + if tail == "" then [] else [""]
    ensures !IsAbsolute(Spell(segs, tail))
  {
    if segs == [] {
      SplitPlain(".");
      SplitTail(".", tail);
    } else {
      SplitJoin(segs);
      SplitTail(Join(segs), tail);
      JoinHead(segs);
      JoinNotEmpty(segs);
      assert segs[0][0] in segs[0] && Join(segs)[0] == segs[0][0];
    }
  }

  lemma SplitAbsolute(segs: seq<string>, tail: string)
    requires Collapsed(segs) && segs != [] && (tail == "" || tail == "/")
    ensures Split("/" + Join(segs) + tail) == [""] + (segs + if tail == "" then [] else [""])
  {
    var p := "/" + Join(segs) + tail;
    SplitCons(p);
    assert p[0] == '/' && p[1..] == Join(segs) + tail;
    SplitJoin(segs);
    SplitTail(Join(segs), tail);
  }

  lemma GoDotOnly(at: Place)
    ensures Go(Some(at), ["."]) == Some(at)
  {
    GoOne(Some(at), ".");
  }

  lemma SpellLeads(at: Place, segs: seq<string>, tail: string)
    requires Collapsed(segs) && (tail == "" || tail == "/")
    ensures Leads(at, Spell(segs, tail)) == Go(Some(at), segs)
  {
    SplitSpell(segs, tail);
    var base := if segs == [] then ["."] else segs;
    GoDotOnly(at);
    GoTail(Some(at), base);
    assert base + [] == base;
  }

  /** Normalising keeps where a path leads, from every directory. */
  lemma NormalizeLeads(at: Place, p: string)
    requires '\\' !in p
    ensures Leads(at, Normalize(p)) == Leads(at, p)
  {
    if p == "" {
      SplitPlain(".");
      SplitPlain("");
      GoDotOnly(at);
      GoOne(Some(at), "");
    } else if IsAbsolute(p) {
      NormalizeAbsolute(p);
      CollapseLeadsDown(Split(p), []);
      AbsoluteLeads(Collapse(Split(p), false, []), Tail(p));
    } else {
      NormalizeRelative(p);
      SpellLeads(at, Collapse(Split(p), true, []), Tail(p));
      CollapseLeads(Some(at), Split(p), []);
      assert [] + Split(p) == Split(p);
    }
  }

  lemma {:induction false} NamesLeadDown(at: Place, segs: seq<string>)
    requires forall s | s in segs :: IsName(s)
    ensures GoDown(at, segs) == at + segs && Go(Some(at), segs) == Some(at + segs)
  {
    if segs != [] {
      var init := segs[..|segs| - 1];
      assert segs[|segs| - 1] in segs && forall s | s in init :: s in segs;
      NamesLeadDown(at, init);
      assert at + segs == at + init + [segs[|segs| - 1]];
    } else {
      assert at + segs == at;
    }
  }

  lemma RootLeads()
    ensures GoDown([], Split("/")) == []
  {
    SplitCons("/");
    SplitPlain("");
    GoDownJoin([], [""], [""]);
    GoDownOne([], "");
    assert "/"[1..] == "";
  }

  lemma BlankTail(segs: seq<string>, more: seq<string>)
    requires more == segs || more == segs + [""]
    ensures GoDown([], more) == GoDown([], segs)
  {
    GoTail(Some([]), segs);
  }

  lemma NamedLeads(segs: seq<string>, more: seq<string>)
    requires (forall s | s in segs :: IsName(s)) && (more == segs || more == segs + [""])
    ensures GoDown([], [""] + more) == segs
  {
    GoDownJoin([], [""], more);
    GoDownOne([], "");
    BlankTail(segs, more);
    NamesLeadDown([], segs);
    assert [] + segs == segs;
  }

  lemma AbsoluteLeads(segs: seq<string>, tail: string)
    requires Collapsed(segs) && (forall s | s in segs :: IsName(s)) && (tail == "" || tail == "/")
    ensures var p := if segs == [] then "/" else "/" + Join(segs) + tail;
      IsAbsolute(p) && GoDown([], Split(p)) == segs
  {
    if segs == [] {
      RootLeads();
    } else {
      SplitAbsolute(segs, tail);
      var more := segs + if tail == "" then [] else [""];
      assert tail == "" ==> more == segs;
      NamedLeads(segs, more);
    }
  }

  /** What is collapsed already stays as it is. */
  lemma {:induction false} CollapseFixed(segs: seq<string>, climb: bool, done: seq<string>)
    requires Collapsed(done + segs) && (climb || ".." !in segs)
    ensures Collapse(segs, climb, done) == done + segs
    decreases |segs|
  {
    if segs == [] {
      assert done + segs == done;
    } else {
      var all := done + segs;
      assert all[|done|] == segs[0] && segs[0] in segs;
      assert done != [] ==> all[|done| - 1] == done[|done| - 1];
      assert done + [segs[0]] + segs[1..] == all;
      assert forall s | s in segs[1..] :: s in segs;
      CollapseFixed(segs[1..], climb, done + [segs[0]]);
    }
  }

  lemma CollapseBlank(segs: seq<string>, climb: bool, done: seq<string>, blank: string)
    requires blank == "" || blank == "."
    ensures Collapse(segs + [blank], climb, done) == Collapse(segs, climb, done)
    decreases |segs|
  {
    if segs != [] {
      assert (segs + [blank])[1..] == segs[1..] + [blank];
      if segs[0] == "" || segs[0] == "." { CollapseBlank(segs[1..], climb, done, blank); }
      else if segs[0] == ".." {
        if done != [] && done[|done| - 1] != ".." { CollapseBlank(segs[1..], climb, done[..|done| - 1], blank); }
        else if climb { CollapseBlank(segs[1..], climb, done + [".."], blank); }
        else { CollapseBlank(segs[1..], climb, done, blank); }
      } else {
        CollapseBlank(segs[1..], climb, done + [segs[0]], blank);
      }
    }
  }

  lemma DotCollapses()
    ensures Collapse(["."], true, []) == []
  {
    assert ["."][1..] == [];
  }

  lemma BlanksCollapse(segs: seq<string>, tail: string)
    requires Collapsed(segs)
    ensures Collapse((if segs == [] then ["."] else segs) + (if tail == "" then [] else [""]), true, []) == segs
  {
    var base := if segs == [] then ["."] else segs;
    CollapseFixed(segs, true, []);
    assert [] + segs == segs;
    DotCollapses();
    CollapseBlank(base, true, [], "");
    assert base + [] == base;
  }

  /** The segments of a spelling collapse to what was spelled. */
  lemma SpellCollapses(segs: seq<string>, tail: string)
    requires Collapsed(segs) && (tail == "" || tail == "/")
    ensures Collapse(Split(Spell(segs, tail)), true, []) == segs && Tail(Spell(segs, tail)) == tail
    ensures Spell(segs, tail) != "" && !IsAbsolute(Spell(segs, tail)) && '\\' !in Spell(segs, tail)
  {
    SplitSpell(segs, tail);
    BlanksCollapse(segs, tail);
    SpellEnds(segs, tail);
  }

  lemma SpellEnds(segs: seq<string>, tail: string)
    requires Collapsed(segs) && (tail == "" || tail == "/")
    ensures Spell(segs, tail) != "" && Tail(Spell(segs, tail)) == tail && '\\' !in Spell(segs, tail)
  {
    if segs != [] {
      JoinNotEmpty(segs);
      JoinChars(segs, '\\');
      JoinEnds(segs);
      if tail == "" { assert Join(segs) + tail == Join(segs); }
    }
  }

  lemma {:induction false} JoinEnds(segs: seq<string>)
    requires Collapsed(segs) && segs != []
    ensures Join(segs) != "" && Join(segs)[|Join(segs)| - 1] != '/'
    decreases |segs|
  {
    if |segs| > 1 {
      JoinEnds(segs[1..]);
    } else {
      assert segs[0][|segs[0]| - 1] in segs[0];
    }
  }

  /** Normalising once is enough. */
  lemma NormalizeIsIdempotent(p: string)
    requires '\\' !in p
    ensures Normalize(Normalize(p)) == Normalize(p)
  {
    if p == "" {
      SplitPlain(".");
    } else if IsAbsolute(p) {
      NormalizeAbsolute(p);
      CollapseLeadsDown(Split(p), []);
      AbsoluteFixed(Collapse(Split(p), false, []), Tail(p));
    } else {
      var segs := Collapse(Split(p), true, []);
      NormalizeRelative(p);
      SpellCollapses(segs, Tail(p));
      NormalizeRelative(Spell(segs, Tail(p)));
    }
  }

  lemma RootFixed()
    ensures Normalize("/") == "/"
  {
    SplitCons("/");
    SplitPlain("");
    assert Collapse(["", ""], false, []) == [] by { assert ["", ""][1..] == [""] && [""][1..] == []; }
  }

  lemma AbsoluteCollapses(segs: seq<string>, tail: string)
    requires Collapsed(segs) && segs != [] && ".." !in segs && (tail == "" || tail == "/")
    ensures Collapse(Split("/" + Join(segs) + tail), false, []) == segs
  {
    SplitAbsolute(segs, tail);
    CollapseFixed(segs, false, []);
    CollapseBlank(segs, false, [], "");
    assert [] + segs == segs && segs + [] == segs;
    var more := segs + if tail == "" then [] else [""];
    assert ([""] + more)[1..] == more;
  }

  lemma AbsoluteFixed(segs: seq<string>, tail: string)
    requires Collapsed(segs) && (forall s | s in segs :: IsName(s)) && (tail == "" || tail == "/")
    ensures var p := if segs == [] then "/" else "/" + Join(segs) + tail; Normalize(p) == p
  {
    if segs == [] {
      RootFixed();
    } else {
      var p := "/" + Join(segs) + tail;
      AbsoluteCollapses(segs, tail);
      SpellEnds(segs, tail);
      assert p[|p| - 1] == (Join(segs) + tail)[|Join(segs) + tail| - 1];
      JoinChars(segs, '\\');
      NormalizeAbsolute(p);
    }
  }

  // ------------------------------------------------------- resolving below a base

  /** The place a base stands for. */
  function BasePlace(base: Option<string>): Option<Place> {
    if base.Some? && base.value != "" then Go(Some([]), Split(Slashes(base.value))) else Some([])
  }

  /** The path that is normalised starts at a slash of either kind. */
  predicate StartsAtRoot(base: Option<string>, target: string) {
    var p := if base.Some? && base.value != "" then base.value else target;
    p != "" && (p[0] == '/' || p[0] == '\\')
  }

  /** A place as a path inside a base. */
  function SpellPlace(place: Place, tail: string): string {
    if place != [] then Join(place) + tail else if tail == "" then "." else ""
  }

  lemma SlashesAdd(a: string, b: string)
    ensures Slashes(a + b) == Slashes(a) + Slashes(b)
  {
  }

  lemma ContainedDot(tail: string)
    requires tail == "" || tail == "/"
    ensures Contained("." + tail) == Some(if tail == "" then "." else "")
  {
    EmptyContained();
    assert "." + "/" == "./" && "." + "" == ".";
  }

  lemma ContainedSpelling(segs: seq<string>, tail: string)
    requires Collapsed(segs) && (tail == "" || tail == "/")
    ensures Contained(Spell(segs, tail)) ==
      if segs != [] && segs[0] == ".." then None else Some(SpellPlace(segs, tail))
  {
    if segs == [] {
      ContainedDot(tail);
    } else {
      NoDotHead(segs, tail);
      SplitSpell(segs, tail);
      ClimbsInFront(segs, tail);
    }
  }

  lemma ClimbsInFront(segs: seq<string>, tail: string)
    requires Collapsed(segs) && segs != [] && (tail == "" || tail == "/")
    ensures var p := Join(segs) + tail; p == ".." || StartsWith(p, "../") <==> segs[0] == ".."
  {
    var p := Join(segs) + tail;
    if segs[0] == ".." {
      if |segs| == 1 {
        assert p == ".." + tail;
      } else {
        JoinHead(segs);
        assert ".." + "/" == "../" && "../" <= Join(segs) <= p;
      }
    } else {
      SplitSpell(segs, tail);
      ClimbFirst(p);
      assert Split(p)[0] == segs[0];
    }
  }

  lemma ClimbFirst(p: string)
    ensures p == ".." || StartsWith(p, "../") ==> Split(p)[0] == ".."
  {
    SplitPlain("..");
    if StartsWith(p, "../") {
      assert p == ".." + "/" + p[3..];
      SplitAtSlash("..", p[3..]);
    }
  }

  lemma NormalizedWithin(p: string)
    requires p != "" && !IsAbsolute(p) && '\\' !in p
    ensures var end := Go(Some([]), Split(p));
      Contained(Normalize(p)) == if end.None? then None else Some(SpellPlace(end.value, Tail(p)))
  {
    var segs := Collapse(Split(p), true, []);
    NormalizeRelative(p);
    CollapseIsPlace(Split(p), []);
    ContainedSpelling(segs, Tail(p));
    if Go(Some([]), Split(p)).Some? && segs != [] { assert segs[0] in segs; }
  }

  /** The path that is normalised. */
  function Candidate(base: Option<string>, target: string): string {
    if base.Some? && base.value != "" then base.value + "/" + target else target
  }

  /** The result ends in a slash when the target does, or when there is only a base. */
  function TailOf(base: Option<string>, target: string): string {
    if target == "" && base.Some? && base.value != "" then "/" else Tail(Slashes(target))
  }

  /**
    Resolving goes from the base where the target leads. There is no result exactly when that
    starts at the root of the file system or climbs above the top; otherwise the result spells
    the place reached.
  */
  lemma ResolveIs(base: Option<string>, target: string)
    ensures var end := Go(BasePlace(base), Split(Slashes(target)));
      ResolveWithinBase(base, target) ==
        if StartsAtRoot(base, target) || end.None? then None else Some(SpellPlace(end.value, TailOf(base, target)))
  {
    var p := Slashes(Candidate(base, target));
    CandidateLeads(base, target);
    CandidateEnds(base, target);
    assert ResolveWithinBase(base, target) == Contained(Normalize(p));
    if p == "" {
      EmptyWithin();
    } else if IsAbsolute(p) {
      AbsoluteOutside(p);
    } else {
      NormalizedWithin(p);
    }
  }

  lemma EmptyWithin()
    ensures Contained(Normalize("")) == Some(".") && Go(Some([]), Split("")) == Some([])
  {
    EmptyContained();
    SplitPlain("");
    GoOne(Some([]), "");
  }

  lemma AbsoluteOutside(p: string)
    requires IsAbsolute(p) && '\\' !in p
    ensures Contained(Normalize(p)) == None
  {
    NormalizeAbsolute(p);
    assert Normalize(p)[0] == '/';
  }

  lemma CandidateLeads(base: Option<string>, target: string)
    ensures Go(Some([]), Split(Slashes(Candidate(base, target)))) == Go(BasePlace(base), Split(Slashes(target)))
  {
    if base.Some? && base.value != "" {
      var b := base.value;
      SlashesAdd(b + "/", target);
      SlashesAdd(b, "/");
      assert Slashes("/") == "/";
      SplitAtSlash(Slashes(b), Slashes(target));
      GoJoin(Some([]), Split(Slashes(b)), Split(Slashes(target)));
    }
  }

  predicate IsSlash(c: char) {
    c == '/' || c == '\\'
  }

  lemma SlashEnds(c: string)
    requires c != ""
    ensures IsAbsolute(Slashes(c)) <==> IsSlash(c[0])
    ensures Tail(Slashes(c)) == if IsSlash(c[|c| - 1]) then "/" else ""
    ensures Slashes(c) != ""
  {
  }

  lemma JoinedEnds(b: string, target: string)
    requires b != ""
    ensures var c := b + "/" + target;
      c != "" && c[0] == b[0] && c[|c| - 1] == if target == "" then '/' else target[|target| - 1]
  {
  }

  lemma CandidateEnds(base: Option<string>, target: string)
    ensures IsAbsolute(Slashes(Candidate(base, target))) <==> StartsAtRoot(base, target)
    ensures Slashes(Candidate(base, target)) == "" <==> target == "" && (base.None? || base.value == "")
    ensures Tail(Slashes(Candidate(base, target))) == TailOf(base, target)
  {
    if target != "" { SlashEnds(target); }
    if base.Some? && base.value != "" {
      JoinedEnds(base.value, target);
      SlashEnds(Candidate(base, target));
    }
  }

  // -------------------------------------------------------- bases and directories

  /** A normalised base: names without `.`, `..` or backslashes. */
  predicate IsBase(b: string) {
    b != "" && '\\' !in b && forall s | s in Split(b) :: IsName(s)
  }

  lemma BaseIs(b: string)
    requires IsBase(b)
    ensures Slashes(b) == b && BasePlace(Some(b)) == Some(Split(b)) && !StartsAtRoot(Some(b), "")
  {
    SlashesIdentity(b);
    NamesLeadDown([], Split(b));
    assert [] + Split(b) == Split(b);
    SplitCons(b);
    assert Split(b)[0] in Split(b) && b[0] in b;
  }

  lemma CutAt(b: string, i: nat)
    requires i < |b| && b[i] == '/'
    ensures b == b[..i] + "/" + b[i + 1..]
  {
  }

  lemma SplitLast(b: string, dir: string, file: string)
    requires b == dir + "/" + file && NoSlash(file)
    ensures Split(b) == Split(dir) + [file]
  {
    SplitAtSlash(dir, file);
    SplitPlain(file);
  }

  /** The directory of a path has all its segments but the last. */
  lemma DirOfIs(b: string)
    ensures DirOf(b).None? ==> Split(b) == [b]
    ensures DirOf(b).Some? ==> |DirOf(b).value| < |b| && DirOf(b).value + "/" <= b
    ensures DirOf(b).Some? ==> Split(b) == Split(DirOf(b).value) + [b[|DirOf(b).value| + 1..]]
  {
    var i := LastSlash(b, |b|);
    LastSlashIs(b, |b|);
    if i.Some? {
      assert b[i.value + 1..|b|] == b[i.value + 1..];
      CutAt(b, i.value);
      SplitLast(b, b[..i.value], b[i.value + 1..]);
    } else {
      assert b[..|b|] == b;
      SplitPlain(b);
    }
  }

  lemma LastSame(a: seq<string>, x: string, b: seq<string>, y: string)
    requires a + [x] == b + [y]
    ensures x == y
  {
    assert (a + [x])[|a|] == x && (b + [y])[|b|] == y;
  }

  /** The directory of a file in `dir` is `dir`. */
  lemma DirOfFile(dir: string, file: string)
    requires NoSlash(file)
    ensures DirOf(dir + "/" + file) == Some(dir)
  {
    var b := dir + "/" + file;
    SplitLast(b, dir, file);
    DirOfIs(b);
    assert b[|dir|] == '/';
    assert |Split(b)| > 1;
    LastSame(Split(dir), file, Split(DirOf(b).value), b[|DirOf(b).value| + 1..]);
    assert DirOf(b).value == b[..|dir|] == dir;
  }

  lemma {:induction false} LastSlashIs(p: string, n: nat)
    requires n <= |p|
    ensures LastSlash(p, n).Some? ==> '/' !in p[LastSlash(p, n).value + 1..n]
  {
    if n > 0 && p[n - 1] != '/' {
      LastSlashIs(p, n - 1);
      var i := LastSlash(p, n - 1);
      if i.Some? { assert p[i.value + 1..n] == p[i.value + 1..n - 1] + [p[n - 1]]; }
    }
  }

  lemma DirPlace(b: string)
    requires IsBase(b)
    ensures BasePlace(DirOf(b)) == Some(Split(b)[..|Split(b)| - 1])
    ensures !StartsAtRoot(DirOf(b), "") && (DirOf(b).Some? ==> IsBase(DirOf(b).value))
  {
    DirOfIs(b);
    if DirOf(b).Some? {
      var d := DirOf(b).value;
      assert forall s | s in Split(d) :: s in Split(b);
      assert d != "" by { SplitPlain(""); assert "" in Split(b) || d != ""; }
      assert forall c | c in d :: c in b;
      BaseIs(d);
    }
  }

  /** Climbing out of a base is resolving below its directory; the top's own directory takes no absolute path. */
  lemma ParentOfBase(b: string, t: string)
    requires IsBase(b) && (DirOf(b).Some? || (t != "" && t[0] != '/' && t[0] != '\\'))
    ensures ResolveWithinBase(Some(b), "../" + t) == ResolveWithinBase(DirOf(b), t)
  {
    ResolveIs(Some(b), "../" + t);
    ResolveIs(DirOf(b), t);
    BaseIs(b);
    DirPlace(b);
    ClimbPlace(b, t);
    ClimbEnds(b, t);
  }

  lemma ClimbLast(t: string)
    ensures ("../" + t)[|t| + 2] == if t == "" then '/' else t[|t| - 1]
  {
  }

  lemma ClimbEnds(b: string, t: string)
    requires IsBase(b) && (DirOf(b).Some? || t != "")
    ensures TailOf(Some(b), "../" + t) == TailOf(DirOf(b), t)
  {
    DirPlace(b);
    ClimbLast(t);
    SlashEnds("../" + t);
    if t != "" { SlashEnds(t); }
  }

  lemma ClimbSegments(t: string)
    ensures Split(Slashes("../" + t)) == [".."] + Split(Slashes(t))
  {
    SlashesAdd("../", t);
    SlashesIdentity("../");
    assert "../" + Slashes(t) == ".." + "/" + Slashes(t);
    SplitPlain("..");
    SplitAtSlash("..", Slashes(t));
  }

  lemma ClimbPlace(b: string, t: string)
    requires IsBase(b)
    ensures Go(BasePlace(Some(b)), Split(Slashes("../" + t))) == Go(BasePlace(DirOf(b)), Split(Slashes(t)))
  {
    BaseIs(b);
    DirPlace(b);
    ClimbSegments(t);
    GoJoin(Some(Split(b)), [".."], Split(Slashes(t)));
    GoOne(Some(Split(b)), "..");
  }

  /** A path of plain names below a base is the base, a slash and the path. */
  lemma PlainBelowBase(b: string, raw: string)
    requires IsBase(b) && IsBase(raw)
    ensures ResolveWithinBase(Some(b), raw) == Some(b + "/" + raw)
  {
    ResolveIs(Some(b), raw);
    BaseIs(b);
    BaseIs(raw);
    NamesLeadDown(Split(b), Split(raw));
    SplitAtSlash(b, raw);
    JoinSplit(b + "/" + raw);
    BaseEnds(raw);
    assert b + "/" + raw + "" == b + "/" + raw;
  }

  /** Plain names below plain names are plain names. */
  lemma BaseBelowBase(b: string, raw: string)
    requires IsBase(b) && IsBase(raw)
    ensures IsBase(b + "/" + raw)
  {
    SplitAtSlash(b, raw);
  }

  lemma NameIsBase(name: string)
    requires IsName(name) && NoSlash(name) && '\\' !in name
    ensures IsBase(name)
  {
    SplitPlain(name);
  }

  /** Without a base a path of plain names is itself. */
  lemma PlainAlone(raw: string)
    requires IsBase(raw)
    ensures ResolveWithinBase(None, raw) == Some(raw) && NormalizeRepoPath(raw) == raw
  {
    ResolveIs(None, raw);
    BaseIs(raw);
    JoinSplit(raw);
    BaseEnds(raw);
    assert raw + "" == raw;
    KeyOfRelative(raw);
    CollapseIsPlace(Split(raw), []);
    NamesLeadDown([], Split(raw));
    assert [] + Split(raw) == Split(raw);
  }

  lemma BaseEnds(b: string)
    requires IsBase(b)
    ensures Tail(b) == "" && !IsAbsolute(b)
  {
    BaseIs(b);
    if b[|b| - 1] == '/' {
      assert b == b[..|b| - 1] + "/" + "";
      SplitAtSlash(b[..|b| - 1], "");
      SplitPlain("");
      assert "" in Split(b);
    }
  }

  // -------------------------------------------------------------- keys of files

  lemma KeyOfRelative(p: string)
    requires p != "" && !IsAbsolute(Slashes(p))
    ensures NormalizeRepoPath(p) == Spell(Collapse(Split(Slashes(p)), true, []), Tail(Slashes(p)))
  {
    var q := Slashes(p);
    NormalizeRelative(q);
    SplitSpell(Collapse(Split(q), true, []), Tail(q));
  }

  /** A file's key leads where its path leads. */
  lemma KeyLeads(at: Place, p: string)
    requires !IsAbsolute(Slashes(p))
    ensures Leads(at, NormalizeRepoPath(p)) == Leads(at, Slashes(p))
  {
    NormalizeLeads(at, Slashes(p));
    if p != "" { KeyOfRelative(p); NormalizeRelative(Slashes(p)); } else { assert Slashes(p) == ""; }
  }

  lemma DropFirst(p: string)
    requires !IsAbsolute(p)
    ensures DropSlashes("/" + p) == p
  {
    assert ("/" + p)[1..] == p;
  }

  /** The key of an absolute path is the place it leads to, without the slash in front. */
  lemma KeyOfAbsolute(p: string)
    requires IsAbsolute(Slashes(p))
    ensures var place := GoDown([], Split(Slashes(p)));
      Collapsed(place) && NormalizeRepoPath(p) == if place == [] then "" else Spell(place, Tail(Slashes(p)))
  {
    var q := Slashes(p);
    NormalizeAbsolute(q);
    CollapseLeadsDown(Split(q), []);
    var segs := Collapse(Split(q), false, []);
    if segs == [] {
      assert "/"[1..] == "";
    } else {
      SplitSpell(segs, Tail(q));
      assert "/" + Join(segs) + Tail(q) == "/" + Spell(segs, Tail(q));
      DropFirst(Spell(segs, Tail(q)));
    }
  }

  lemma KeyOfSpelling(segs: seq<string>, tail: string)
    requires Collapsed(segs) && (tail == "" || tail == "/")
    ensures NormalizeRepoPath(Spell(segs, tail)) == Spell(segs, tail)
  {
    SpellCollapses(segs, tail);
    SlashesIdentity(Spell(segs, tail));
    KeyOfRelative(Spell(segs, tail));
  }

  lemma KeyOfDot()
    ensures NormalizeRepoPath("") == "." == NormalizeRepoPath(".")
  {
    KeyOfSpelling([], "");
    assert Spell([], "") == ".";
    assert Slashes("") == "" && "."[0] != '/';
  }

  /** Taking the key of a key changes nothing, except where the key is that of the root itself. */
  lemma KeyIsIdempotent(p: string)
    ensures NormalizeRepoPath(NormalizeRepoPath(p)) == NormalizeRepoPath(p) <==>
      !(IsAbsolute(Slashes(p)) && GoDown([], Split(Slashes(p))) == [])
  {
    KeyOfDot();
    if IsAbsolute(Slashes(p)) {
      KeyOfAbsolute(p);
      KeyOfSpelling(GoDown([], Split(Slashes(p))), Tail(Slashes(p)));
    } else if p != "" {
      KeyOfRelative(p);
      NormalizeRelative(Slashes(p));
      KeyOfSpelling(Collapse(Split(Slashes(p)), true, []), Tail(Slashes(p)));
    }
  }
}
