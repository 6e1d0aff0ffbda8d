/** Workspace paths of a project: normalisation, and where they resolve to below the repository. */
module Workspace {
  import opened Domain

  // ---------------------------------------------------------------------------
  // Strings and components
  // ---------------------------------------------------------------------------

  function TrimLeft(s: string): string {
    if s != "" && IsSpace(s[0]) then TrimLeft(s[1..]) else s
  }

  function TrimRight(s: string): string {
    if s != "" && IsSpace(s[|s| - 1]) then TrimRight(s[..|s| - 1]) else s
  }

  function TrimSpace(s: string): string {
    TrimRight(TrimLeft(s))
  }

  /** Trimming takes white space off both ends, all of it and nothing else. */
  lemma TrimsSpaceOnly(s: string) returns (before: string, after: string)
    ensures s == before + TrimSpace(s) + after && Blank(before) && Blank(after)
    ensures TrimSpace(s) != "" ==> !IsSpace(TrimSpace(s)[0]) && !IsSpace(TrimSpace(s)[|TrimSpace(s)| - 1])
  {
    before := TrimsLeft(s);
    after := TrimsRight(TrimLeft(s));
    assert TrimLeft(s) == TrimSpace(s) + after;
  }

  /** A blank string is one that trimming leaves nothing of. */
  lemma BlankIsTrimmedAway(s: string)
    ensures TrimSpace(s) == "" <==> Blank(s)
  {
    var before, after := TrimsSpaceOnly(s);
    if TrimSpace(s) == "" {
      assert s == before + after;
    } else {
      assert s[|before|] == TrimSpace(s)[0];
    }
  }

  lemma {:induction false} TrimsLeft(s: string) returns (before: string)
    ensures s == before + TrimLeft(s) && Blank(before)
    ensures TrimLeft(s) != "" ==> !IsSpace(TrimLeft(s)[0])
  {
    before := "";
    if s != "" && IsSpace(s[0]) {
      var more := TrimsLeft(s[1..]);
      MoveFirst(s, more, TrimLeft(s[1..]));
      before := [s[0]] + more;
    }
  }

  lemma MoveFirst(s: string, more: string, kept: string)
    requires s != "" && s[1..] == more + kept
    ensures s == [s[0]] + more + kept
  {
    assert s == [s[0]] + s[1..];
  }

  lemma MoveLast(s: string, kept: string, more: string)
    requires s != "" && s[..|s| - 1] == kept + more
    ensures s == kept + (more + [s[|s| - 1]])
  {
    assert s == s[..|s| - 1] + [s[|s| - 1]];
  }

  lemma {:induction false} TrimsRight(s: string) returns (after: string)
    ensures s == TrimRight(s) + after && Blank(after)
    ensures TrimRight(s) != "" ==> !IsSpace(TrimRight(s)[|TrimRight(s)| - 1])
  {
    if s != "" && IsSpace(s[|s| - 1]) {
      var more := TrimsRight(s[..|s| - 1]);
      MoveLast(s, TrimRight(s[..|s| - 1]), more);
      after := more + [s[|s| - 1]];
    } else {
      after := "";
      assert s == s + after;
    }
  }

  function Split(s: string): (cs: seq<string>)
    ensures cs != []
  {
    if s == "" then [""] else Glue(s[0], Split(s[1..]))
  }

  // One more character before the first component.
  function Glue(c: char, cs: seq<string>): (r: seq<string>)
    requires cs != []
    ensures r != []
  {
    if c == '/' then [""] + cs else [[c] + cs[0]] + cs[1..]
  }

  function Join(cs: seq<string>): string {
    if cs == [] then "" else if |cs| == 1 then cs[0] else cs[0] + "/" + Join(cs[1..])
  }

  lemma GlueAppend(c: char, x: seq<string>, y: seq<string>)
    requires x != []
    ensures Glue(c, x + y) == Glue(c, x) + y
  {
    assert (x + y)[0] == x[0] && (x + y)[1..] == x[1..] + y;
  }

  lemma {:induction false} SplitSlashed(a: string, b: string)
    ensures Split(a + "/" + b) == Split(a) + Split(b)
  {
    var s := a + "/" + b;
    if a == "" {
      assert s[0] == '/' && s[1..] == b;
    } else {
      SplitSlashed(a[1..], b);
      assert s[0] == a[0] && s[1..] == a[1..] + "/" + b;
      GlueAppend(a[0], Split(a[1..]), Split(b));
    }
  }

  lemma {:induction false} SplitOne(c: string)
    requires '/' !in c
    ensures Split(c) == [c]
  {
    if c != "" {
      assert c[0] in c && forall x :: x in c[1..] ==> x in c;
      SplitOne(c[1..]);
      assert c == [c[0]] + c[1..];
    }
  }

  /** Joining and splitting are inverses of each other. */
  lemma {:induction false} SplitJoin(cs: seq<string>)
    requires cs != [] && forall c :: c in cs ==> '/' !in c
    ensures Split(Join(cs)) == cs
  {
    SplitOne(cs[0]);
    if |cs| > 1 {
      SplitJoin(cs[1..]);
      SplitSlashed(cs[0], Join(cs[1..]));
      assert cs == [cs[0]] + cs[1..];
    }
  }

  lemma {:induction false} SplitHasNoSlash(s: string)
    ensures forall c :: c in Split(s) ==> '/' !in c
  {
    if s != "" {
      SplitHasNoSlash(s[1..]);
      assert Split(s[1..])[0] in Split(s[1..]);
    }
  }

  lemma {:induction false} JoinSplit(s: string)
    ensures Join(Split(s)) == s
  {
    if s != "" {
      JoinSplit(s[1..]);
      var rest := Split(s[1..]);
      assert Split(s)[1..] == if s[0] == '/' then rest else rest[1..];
      assert s == [s[0]] + s[1..];
    }
  }

  // ---------------------------------------------------------------------------
  // Clean
  // ---------------------------------------------------------------------------

  function Push(rooted: bool, stack: seq<string>, c: string): seq<string> {
    if c == "" || c == "." then stack
    else if c != ".." then stack + [c]
    else if stack != [] && stack[|stack| - 1] != ".." then stack[..|stack| - 1]
    else if rooted then stack
    else stack + [".."]
  }

  function Reduce(rooted: bool, cs: seq<string>): seq<string> {
    if cs == [] then [] else Push(rooted, Reduce(rooted, cs[..|cs| - 1]), cs[|cs| - 1])
  }

  function Render(rooted: bool, cs: seq<string>): string {
    if rooted then "/" + Join(cs) else if cs == [] then "." else Join(cs)
  }

  predicate Rooted(s: string) {
    s != "" && s[0] == '/'
  }

  function Clean(s: string): string {
    Render(Rooted(s), Reduce(Rooted(s), Split(s)))
  }

  // ---------------------------------------------------------------------------
  // What is accepted
  // ---------------------------------------------------------------------------

  datatype Result = Ok(path: string) | InvalidInput

  function Normalize(raw: string): Result {
    var trimmed := TrimSpace(raw);
    if trimmed == "" then Ok("")
    else if trimmed[0] == '/' then InvalidInput
    else
      var cleaned := Clean(trimmed);
      if cleaned == "." then Ok("")
      else if cleaned == ".." || "../" <= cleaned then InvalidInput
      else Ok(cleaned)
  }

  predicate Plain(c: string) {
    c != "" && c != "." && c != ".." && '/' !in c
  }

  /** Empty, or relative with nothing but names at every depth. */
  predicate Contained(p: string) {
    p == "" || forall c :: c in Split(p) ==> Plain(c)
  }

  // Names minus steps up among the first n components: how deep they lead.
  function Depth(cs: seq<string>, n: nat): int
    requires n <= |cs|
  {
    if n == 0 then 0
    else Depth(cs, n - 1) + Rise(cs[n - 1])
  }

  function Rise(c: string): int {
    if c == ".." then -1 else if c == "" || c == "." then 0 else 1
  }

  // Some prefix of the path leads out of where it starts.
  predicate Escapes(cs: seq<string>) {
    exists n :: 0 <= n <= |cs| && Depth(cs, n) < 0
  }

  // A reduced relative path: steps up, then names.
  predicate Reduced(cs: seq<string>, ups: nat) {
    && ups <= |cs|
    && (forall i :: 0 <= i < ups ==> cs[i] == "..")
    && (forall i :: ups <= i < |cs| ==> Plain(cs[i]))
  }

  // The steps up that remain are as many as the path ever is below its start.
  predicate UpsAreDeepest(cs: seq<string>, n: nat, ups: nat)
    requires n <= |cs|
  {
    && (forall k :: 0 <= k <= n ==> ups >= -Depth(cs, k))
    && (ups > 0 ==> exists k :: 0 <= k <= n && Depth(cs, k) < 0)
  }

  lemma PushKeepsDepth(stack: seq<string>, c: string, ups: nat) returns (more: nat)
    requires Reduced(stack, ups) && '/' !in c
    ensures Reduced(Push(false, stack, c), more)
    ensures |Push(false, stack, c)| - 2 * more == |stack| - 2 * ups + Rise(c)
    ensures more == ups + (if c == ".." && |stack| == ups then 1 else 0)
  {
    more := ups + (if c == ".." && |stack| == ups then 1 else 0);
  }

  // One component more, with `ups` steps up before it and perhaps one more after it.
  lemma StillDeepest(cs: seq<string>, n: nat, ups: nat, more: nat)
    requires 0 < n <= |cs| && UpsAreDeepest(cs, n - 1, ups)
    requires more == ups || (more == ups + 1 && Depth(cs, n) + more == 0)
    requires more == ups ==> Depth(cs, n) + ups >= 0
    ensures UpsAreDeepest(cs, n, more)
  {
    forall k | 0 <= k <= n ensures more >= -Depth(cs, k) {
      assert k < n ==> ups >= -Depth(cs, k);
    }
    if ups > 0 {
      var k :| 0 <= k <= n - 1 && Depth(cs, k) < 0;
    }
  }

  lemma {:induction false} ReduceKeepsDepth(cs: seq<string>, n: nat) returns (ups: nat)
    requires n <= |cs| && forall c :: c in cs ==> '/' !in c
    ensures Reduced(Reduce(false, cs[..n]), ups)
    ensures |Reduce(false, cs[..n])| - 2 * ups == Depth(cs, n)
    ensures UpsAreDeepest(cs, n, ups)
  {
    ups := 0;
    if n > 0 {
      var before := ReduceKeepsDepth(cs, n - 1);
      assert cs[..n][..n - 1] == cs[..n - 1] && cs[n - 1] in cs;
      ups := PushKeepsDepth(Reduce(false, cs[..n - 1]), cs[n - 1], before);
      StillDeepest(cs, n, before, ups);
    }
  }

  // The components of a path's reduced form can be read off the cleaned string.
  lemma ReducedReadsBack(cs: seq<string>, ups: nat)
    requires Reduced(cs, ups)
    ensures cs != [] ==> Split(Join(cs)) == cs
    ensures Render(false, cs) == "." <==> cs == []
    ensures Render(false, cs) == ".." || "../" <= Render(false, cs) <==> ups > 0
  {
    if cs != [] {
      forall c | c in cs ensures '/' !in c {
        var i :| 0 <= i < |cs| && cs[i] == c;
      }
      SplitJoin(cs);
      SplitOne(".");
      SplitOne("..");
      var s := Join(cs);
      if "../" <= s {
        assert s == ".." + "/" + s[3..];
        SplitSlashed("..", s[3..]);
        assert cs[0] == "..";
      }
      if ups > 0 && |cs| > 1 {
        assert s == ".." + "/" + Join(cs[1..]);
        assert "../" == s[..3];
      }
    }
  }

  /** A path is accepted exactly if it is not absolute and no prefix of it leads out of where it starts. */
  lemma AcceptedIffItStaysInside(raw: string)
    ensures Normalize(raw).Ok? <==> !Rooted(TrimSpace(raw)) && !Escapes(Split(TrimSpace(raw)))
    ensures Normalize(raw).Ok? ==> Contained(Normalize(raw).path)
  {
    var trimmed := TrimSpace(raw);
    var parts := Split(trimmed);
    SplitHasNoSlash(trimmed);
    var ups := ReduceKeepsDepth(parts, |parts|);
    assert parts[..|parts|] == parts;
    var cs := Reduce(false, parts);
    ReducedReadsBack(cs, ups);
    assert Escapes(parts) <==> ups > 0;
    if Normalize(raw).Ok? && Normalize(raw).path != "" {
      forall c | c in cs ensures Plain(c) {
        var i :| 0 <= i < |cs| && cs[i] == c;
      }
    }
  }

  // ---------------------------------------------------------------------------
  // Which path comes out
  // ---------------------------------------------------------------------------

  lemma {:induction false} PlainStays(cs: seq<string>)
    requires forall c :: c in cs ==> Plain(c)
    ensures Reduce(false, cs) == cs
  {
    if cs != [] {
      var most := cs[..|cs| - 1];
      PlainStays(most);
      assert cs == most + [cs[|cs| - 1]] && cs[|cs| - 1] in cs;
    }
  }

  /** A trimmed path of nothing but names comes back as it is. */
  lemma PlainComesBack(raw: string, cs: seq<string>)
    requires cs != [] && TrimSpace(raw) == Join(cs) && forall c :: c in cs ==> Plain(c)
    ensures Normalize(raw) == Ok(Join(cs))
  {
    SplitJoin(cs);
    PlainStays(cs);
    assert cs[0] in cs && Plain(cs[0]);
    JoinStarts(cs);
    ReducedReadsBack(cs, 0);
  }

  lemma JoinStarts(cs: seq<string>)
    requires cs != [] && cs[0] != ""
    ensures Join(cs) != "" && Join(cs)[0] == cs[0][0]
  {
  }

  lemma {:induction false} ReduceAlike(xs: seq<string>, ys: seq<string>, more: seq<string>)
    requires Reduce(false, xs) == Reduce(false, ys)
    ensures Reduce(false, xs + more) == Reduce(false, ys + more)
  {
    if more == [] {
      assert xs + more == xs && ys + more == ys;
    } else {
      var most, last := more[..|more| - 1], more[|more| - 1];
      ReduceAlike(xs, ys, most);
      assert (xs + more)[..|xs + more| - 1] == xs + most && (ys + more)[..|ys + more| - 1] == ys + most;
    }
  }

  // What can be left out of a path: a name and the step up that follows it, a dot, or nothing between slashes.
  predicate Idle(cs: seq<string>) {
    cs == ["."] || cs == [""] || (|cs| == 2 && Plain(cs[0]) && cs[1] == "..")
  }

  lemma IdleReduces(xs: seq<string>, idle: seq<string>)
    requires Idle(idle)
    ensures Reduce(false, xs + idle) == Reduce(false, xs)
  {
    if |idle| == 1 {
      assert (xs + idle)[..|xs|] == xs;
    } else {
      assert (xs + idle)[..|xs| + 1] == xs + [idle[0]] && (xs + [idle[0]])[..|xs|] == xs;
      var stack := Reduce(false, xs);
      assert (stack + [idle[0]])[..|stack|] == stack;
    }
  }

  /** A `..` takes back the name just before it; that, dots and doubled slashes make no difference to the path. */
  lemma IdleMakesNoDifference(raw: string, other: string, before: seq<string>, idle: seq<string>, after: seq<string>)
    requires forall c :: c in before + idle + after ==> '/' !in c
    requires Idle(idle) && before + after != []
    requires TrimSpace(raw) == Join(before + idle + after) && TrimSpace(other) == Join(before + after)
    requires !Rooted(TrimSpace(raw)) && !Rooted(TrimSpace(other))
    ensures Normalize(raw) == Normalize(other)
  {
    SplitJoin(before + idle + after);
    SplitJoin(before + after);
    IdleReduces(before, idle);
    ReduceAlike(before + idle, before, after);
    EmptyIsEmpty(raw);
    EmptyIsEmpty(other);
  }

  // The empty path needs no case of its own.
  lemma EmptyIsEmpty(raw: string)
    ensures TrimSpace(raw) == "" ==> Render(false, Reduce(false, Split(TrimSpace(raw)))) == "."
  {
    if TrimSpace(raw) == "" {
      assert Split("") == [""];
    }
  }

  // ---------------------------------------------------------------------------
  // Settings
  // ---------------------------------------------------------------------------

  // A value of the settings map.
  datatype Setting = Missing | Text(value: string) | Items(items: seq<Setting>) | Other

  function WorkspacePath(setting: Setting): Result {
    match setting
    case Missing => Ok("")
    case Text(value) => Normalize(value)
    case _ => InvalidInput
  }

  predicate Accepted(item: Setting) {
    item.Text? && Normalize(item.value).Ok?
  }

  predicate AllAccepted(items: seq<Setting>) {
    forall i {:trigger Accepted(items[i])} :: 0 <= i < |items| ==> Accepted(items[i])
  }

  // The paths of accepted items that name something, in order.
  function Named(items: seq<Setting>): seq<string>
    requires AllAccepted(items)
  {
    if items == [] then []
    else
      var last := items[|items| - 1];
      assert Accepted(last);
      var path := Normalize(last.value).path;
      Named(items[..|items| - 1]) + if path != "" then [path] else []
  }

  lemma {:induction false} NamedAreContained(items: seq<Setting>)
    requires AllAccepted(items)
    ensures forall p :: p in Named(items) ==> p != "" && Contained(p)
  {
    if items != [] {
      NamedAreContained(items[..|items| - 1]);
      assert Accepted(items[|items| - 1]);
      AcceptedIffItStaysInside(items[|items| - 1].value);
    }
  }

  lemma OneMoreAccepted(items: seq<Setting>, i: nat)
    requires i < |items| && AllAccepted(items[..i]) && Accepted(items[i])
    ensures AllAccepted(items[..i + 1]) && items[..i + 1][..i] == items[..i]
    ensures Named(items[..i + 1]) == Named(items[..i]) + if Normalize(items[i].value).path != ""
        then [Normalize(items[i].value).path] else []
  {
    var before, more := items[..i], items[..i + 1];
    forall j | 0 <= j < |more| ensures Accepted(more[j]) {
      assert j < i ==> before[j] == more[j] && Accepted(before[j]);
    }
    assert more[..i] == before;
  }

  /** All of a list is accepted or none of it; what is accepted stays inside. */
  method WorkspacePaths(setting: Setting) returns (r: Option<seq<string>>)
    ensures r.Some? <==> setting.Missing? || (setting.Items? && AllAccepted(setting.items))
    ensures r.Some? && setting.Items? ==> r.value == Named(setting.items)
    ensures r.Some? ==> forall p :: p in r.value ==> p != "" && Contained(p)
  {
    if setting.Missing? { return Some([]); }
    if !setting.Items? { return None; }
    var items, paths := setting.items, [];
    for i := 0 to |items|
      invariant AllAccepted(items[..i]) && paths == Named(items[..i])
    {
      assert items[..i + 1][i] == items[i];
      if !items[i].Text? {
        assert !Accepted(items[i]);
        return None;
      }
      var normalized := Normalize(items[i].value);
      if normalized.InvalidInput? {
        assert !Accepted(items[i]);
        return None;
      }
      OneMoreAccepted(items, i);
      if normalized.path != "" {
        paths := paths + [normalized.path];
      }
    }
    assert items[..|items|] == items;
    NamedAreContained(items);
    r := Some(paths);
  }

  // ---------------------------------------------------------------------------
  // Resolution
  // ---------------------------------------------------------------------------

  // filepath.Join on a system whose separator is the slash.
  function JoinPath(base: string, p: string): string {
    if base == "" && p == "" then ""
    else if base == "" then Clean(p)
    else if p == "" then Clean(base)
    else Clean(base + "/" + p)
  }

  datatype Resolved = At(dir: string) | Refused

  function ResolveWorkspace(base: string, setting: Setting): Resolved {
    match WorkspacePath(setting)
    case InvalidInput => Refused
    case Ok(p) => if p == "" then At(base) else At(JoinPath(base, p))
  }

  // Names are only ever put on top.
  lemma {:induction false} NamesGoOnTop(rooted: bool, base: seq<string>, names: seq<string>)
    requires forall c :: c in names ==> Plain(c)
    ensures Reduce(rooted, base + names) == Reduce(rooted, base) + names
  {
    if names == [] {
      assert base + names == base;
    } else {
      var most := names[..|names| - 1];
      NamesGoOnTop(rooted, base, most);
      assert (base + names)[..|base + names| - 1] == base + most;
      assert names == most + [names[|names| - 1]] && names[|names| - 1] in names;
    }
  }

  // Below no base at all.
  lemma CleanNames(p: string)
    requires p != "" && forall c :: c in Split(p) ==> Plain(c)
    ensures !Rooted(p) && Clean(p) == Render(false, Split(p))
  {
    assert Split(p)[0] in Split(p);
    NamesGoOnTop(false, [], Split(p));
    assert [] + Split(p) == Split(p);
  }

  lemma CleanBelow(base: string, p: string)
    requires base != "" && forall c :: c in Split(p) ==> Plain(c)
    ensures Clean(base + "/" + p) == Render(Rooted(base), Reduce(Rooted(base), Split(base)) + Split(p))
  {
    SplitSlashed(base, p);
    NamesGoOnTop(Rooted(base), Split(base), Split(p));
    assert (base + "/" + p)[0] == base[0];
  }

  /** The workspace lies below the repository: the components of the base stay, and only names follow. */
  lemma WorkspaceIsBelowBase(base: string, setting: Setting)
    requires WorkspacePath(setting).Ok? && WorkspacePath(setting).path != ""
    ensures forall c :: c in Split(WorkspacePath(setting).path) ==> Plain(c)
    ensures Clean(base) == Render(Rooted(base), Reduce(Rooted(base), Split(base)))
    ensures ResolveWorkspace(base, setting) ==
            At(Render(Rooted(base), Reduce(Rooted(base), Split(base)) + Split(WorkspacePath(setting).path)))
  {
    AcceptedIffItStaysInside(setting.value);
    var p := Normalize(setting.value).path;
    if base == "" {
      CleanNames(p);
      assert Reduce(false, [""]) == [] && [] + Split(p) == Split(p);
    } else {
      CleanBelow(base, p);
    }
  }
}
