/**
  Relative paths as src/storage.rs uses them: '/'-separated strings below the sync root.
  The derived names depend on the last component only, without the normalisation of `.`, `..` and
  trailing slashes that the standard library does there; where a path as a whole leads, those
  components included, is at the end.
 */
module Paths {
  import opened Basics

  function LastIndex(s: string, c: char): (k: Option<nat>)
    ensures k.Some? ==> k.value < |s| && s[k.value] == c && c !in s[k.value + 1..]
    ensures k.None? ==> c !in s
  {
    if s == "" then None
    else if s[|s| - 1] == c then Some(|s| - 1)
    else
      var k := LastIndex(s[..|s| - 1], c);
      assert k.Some? ==> s[k.value + 1..] == s[..|s| - 1][k.value + 1..] + [s[|s| - 1]];
      assert s == s[..|s| - 1] + [s[|s| - 1]];
      k
  }

  lemma LastIs(s: string, c: char, k: nat)
    requires k < |s| && s[k] == c && c !in s[k + 1..]
    ensures LastIndex(s, c) == Some(k)
  {
    assert forall i | k < i < |s| :: s[i] == s[k + 1..][i - k - 1];
    var j := LastIndex(s, c).value;
    assert forall i | j < i < |s| :: s[i] == s[j + 1..][i - j - 1];
  }

  /** Everything up to and including the last slash. */
  function Parent(path: string): (p: string)
    ensures p <= path
  {
    match LastIndex(path, '/')
    case Some(k) => path[..k + 1]
    case None => ""
  }

  function FileName(path: string): string {
    path[|Parent(path)|..]
  }

  /** The file name is what follows the last slash. */
  lemma FileNameSplits(path: string)
    ensures path == Parent(path) + FileName(path) && '/' !in FileName(path)
    ensures Parent(path) == "" || Parent(path)[|Parent(path)| - 1] == '/'
  {
  }

  /** There is only one way to split a path so. */
  lemma OnlyOneFileName(dir: string, file: string)
    requires '/' !in file && (dir == "" || dir[|dir| - 1] == '/')
    ensures Parent(dir + file) == dir && FileName(dir + file) == file
  {
    var path := dir + file;
    assert path[..|dir|] == dir && path[|dir|..] == file;
    if dir != "" { LastIs(path, '/', |dir| - 1); }
  }

  /** A dot in first position starts a hidden name, not an extension. */
  function Extension(file: string): (e: Option<string>)
    ensures e.Some? ==> file == Stem(file) + "." + e.value
    ensures e.None? ==> file == Stem(file)
  {
    match LastIndex(file, '.')
    case Some(k) => if k > 0 then Some(file[k + 1..]) else None
    case None => None
  }

  function Stem(file: string): string {
    match LastIndex(file, '.')
    case Some(k) => if k > 0 then file[..k] else file
    case None => file
  }

  /** The extension is what follows the last dot, unless that dot comes first. */
  lemma ExtensionSplits(file: string)
    ensures Extension(file).None? <==> '.' !in file || ('.' !in file[1..])
    ensures Extension(file).Some? ==> Stem(file) != "" && '.' !in Extension(file).value
    ensures forall x | x in Stem(file) :: x in file
  {
    match LastIndex(file, '.')
    case Some(k) =>
      if k > 0 {
        assert file[1..][k - 1] == '.';
      } else {
        assert file[1..] == file[k + 1..];
      }
    case None =>
      assert file != "" ==> forall c | c in file[1..] :: c in file;
  }

  /** There is only one way to split a file name so. */
  lemma OnlyOneExtension(stem: string, ext: string)
    requires stem != "" && '.' !in ext
    ensures Stem(stem + "." + ext) == stem && Extension(stem + "." + ext) == Some(ext)
  {
    var file := stem + "." + ext;
    assert file[|stem| + 1..] == ext && file[..|stem|] == stem;
    LastIs(file, '.', |stem|);
  }

  function WithExtension(path: string, ext: string): string {
    Parent(path) + Stem(FileName(path)) + "." + ext
  }

  /** Where an export is staged before it is renamed over its destination. */
  function TmpName(path: string): string {
    WithExtension(path, "tmp")
  }

  lemma TmpNameIsItselfExactlyForTmp(path: string)
    ensures TmpName(path) == path <==> Extension(FileName(path)) == Some("tmp")
  {
    hide LastIndex, Parent, Stem, Extension;
    var dir, file := Parent(path), FileName(path);
    var front := dir + Stem(file) + ".";
    assert TmpName(path) == front + "tmp";
    match Extension(file)
    case Some(e) =>
      assert path == front + e;
      assert (front + e)[|front|..] == e && (front + "tmp")[|front|..] == "tmp";
    case None =>
      assert |path| < |TmpName(path)|;
  }

  lemma SameFront(x: string, y: string, tail: string)
    requires x + tail == y + tail
    ensures x == y
  {
    assert x == (x + tail)[..|x|] && y == (y + tail)[..|y|];
  }

  /** Two exports share a staging file exactly when their destinations differ in the extension only. */
  lemma StagingIsShared(a: string, b: string)
    ensures TmpName(a) == TmpName(b) <==> Parent(a) == Parent(b) && Stem(FileName(a)) == Stem(FileName(b))
  {
    hide LastIndex, Parent, Stem, Extension, FileName;
    var x, y, tail := Parent(a) + Stem(FileName(a)), Parent(b) + Stem(FileName(b)), ".tmp";
    assert TmpName(a) == x + tail && TmpName(b) == y + tail;
    if TmpName(a) == TmpName(b) {
      SameFront(x, y, tail);
      FileNameSplits(a);
      FileNameSplits(b);
      ExtensionSplits(FileName(a));
      ExtensionSplits(FileName(b));
      OnlyOneFileName(Parent(a), Stem(FileName(a)));
      OnlyOneFileName(Parent(b), Stem(FileName(b)));
    }
  }

  /** `name.conflict.<stamp>.ext`, where the losing copy of a conflict is kept. */
  function ConflictName(path: string, stamp: string): string {
    var file := FileName(path);
    Parent(path) + Stem(file) + ".conflict." + stamp
      + match Extension(file) case Some(e) => "." + e case None => ""
  }

  lemma ConflictNameDiffers(path: string, stamp: string)
    ensures ConflictName(path, stamp) != path
  {
    assert path == Parent(path) + FileName(path);
    assert |ConflictName(path, stamp)| > |path|;
  }

  lemma InsertedOnce(front: string, s: string, t: string, back: string)
    ensures front + s + back == front + t + back <==> s == t
  {
    var x, y := front + s + back, front + t + back;
    if x == y {
      assert |s| == |t|;
      assert s == x[|front|..|front| + |s|] == y[|front|..|front| + |t|] == t;
    }
  }

  /** Taking out the stamp gives back the path, so different moments give different names. */
  lemma ConflictNameInserts(path: string, stamp: string, other: string)
    ensures var k := |Parent(path)| + |Stem(FileName(path))|;
      k <= |path| && ConflictName(path, stamp) == path[..k] + ".conflict." + stamp + path[k..]
    ensures ConflictName(path, stamp) == ConflictName(path, other) <==> stamp == other
  {
    hide LastIndex, Parent, Stem, Extension;
    var file, k := FileName(path), |Parent(path)| + |Stem(FileName(path))|;
    var front, back := Parent(path) + Stem(file), if Extension(file).Some? then "." + Extension(file).value else "";
    assert path == Parent(path) + file && file == Stem(file) + back;
    assert path[..k] == front && path[k..] == back;
    InsertedOnce(front + ".conflict.", stamp, other, back);
  }

  /** The copy lies beside the file, and keeps its extension if it has one. */
  lemma ConflictNameStaysBeside(path: string, stamp: string)
    requires '/' !in stamp && '.' !in stamp
    ensures Parent(ConflictName(path, stamp)) == Parent(path)
    ensures var kept := Extension(FileName(path));
      FileName(path) != "" ==>
        Extension(FileName(ConflictName(path, stamp))) == if kept.Some? then kept else Some(stamp)
  {
    hide LastIndex, Parent, Stem, Extension, FileName;
    var file := FileName(path);
    var stem, copy := Stem(file) + ".conflict." + stamp, ConflictName(path, stamp);
    FileNameSplits(path);
    ExtensionSplits(file);
    match Extension(file) {
      case Some(e) =>
        assert copy == Parent(path) + (stem + "." + e);
        OnlyOneFileName(Parent(path), stem + "." + e);
        OnlyOneExtension(stem, e);
      case None =>
        assert copy == Parent(path) + stem;
        OnlyOneFileName(Parent(path), stem);
        assert stem == (Stem(file) + ".conflict") + "." + stamp;
        OnlyOneExtension(Stem(file) + ".conflict", stamp);
    }
  }

  /** The container that stores `rel` at rest. */
  function Vit(rel: string): string {
    rel + ".vit"
  }

  lemma VitIsInjective(a: string, b: string)
    ensures Vit(a) == Vit(b) <==> a == b
  {
    assert Vit(a)[..|a|] == a && Vit(b)[..|b|] == b;
  }

  predicate IsVit(path: string) {
    Extension(FileName(path)) == Some("vit")
  }

  /** A path is that of a container exactly when it is made from a file's name, so no listing shows one plainly. */
  lemma ContainersAreVits(path: string)
    ensures IsVit(path) <==> exists rel :: FileName(rel) != "" && path == Vit(rel)
  {
    hide LastIndex, Parent, Stem, Extension, FileName;
    FileNameSplits(path);
    ExtensionSplits(FileName(path));
    if IsVit(path) {
      var rel := Parent(path) + Stem(FileName(path));
      OnlyOneFileName(Parent(path), Stem(FileName(path)));
      assert path == Vit(rel);
    }
    forall rel | FileName(rel) != "" && path == Vit(rel) ensures IsVit(path) {
      FileNameSplits(rel);
      assert path == Parent(rel) + (FileName(rel) + "." + "vit");
      OnlyOneFileName(Parent(rel), FileName(rel) + "." + "vit");
      OnlyOneExtension(FileName(rel), "vit");
    }
  }

  /** The file whose container this is. */
  function Unvit(path: string): string
    requires IsVit(path)
  {
    path[..|path| - |".vit"|]
  }

  /** A relative path that could leave the sync folder (src/storage.rs:151-153). */
  predicate Unsafe(rel: string) {
    || (exists i | 0 <= i < |rel| - 1 :: rel[i] == '.' && rel[i + 1] == '.')
    || (rel != "" && rel[0] == '/')
    || '\\' in rel
  }

  // ── Where a path leads ──────────────────────────────────────────────────

  /** What stands between the separators. */
  function Components(rel: string, separators: set<char>): (cs: seq<string>)
    ensures cs != []
    ensures forall c | c in cs :: forall x | x in c :: x !in separators
  {
    if rel == "" then [""] else
    var rest := Components(rel[1..], separators);
    assert rest[0] in rest && forall c | c in rest[1..] :: c in rest;
    if rel[0] in separators then [""] + rest else [[rel[0]] + rest[0]] + rest[1..]
  }

  function Joined(cs: seq<string>): string
    requires cs != []
  {
    if |cs| == 1 then cs[0] else cs[0] + "/" + Joined(cs[1..])
  }

  /** They are the one way to write the path with slashes between parts that hold none. */
  lemma {:induction false} ComponentsAreUnique(rel: string, cs: seq<string>)
    requires cs != [] && forall c | c in cs :: '/' !in c
    ensures Joined(cs) == rel <==> cs == Components(rel, SLASH)
  {
    JoinedComponents(rel);
    if Joined(cs) == rel { ComponentsOfJoined(cs); }
  }

  lemma {:induction false} JoinedComponents(rel: string)
    ensures Joined(Components(rel, SLASH)) == rel
  {
    if rel != "" {
      JoinedComponents(rel[1..]);
      var cs, rest := Components(rel, SLASH), Components(rel[1..], SLASH);
      if rel[0] == '/' {
        assert cs[1..] == rest;
      } else if |rest| > 1 {
        assert cs[1..] == rest[1..];
      }
    }
  }

  lemma {:induction false} ComponentsOfJoined(cs: seq<string>)
    requires cs != [] && forall c | c in cs :: '/' !in c
    ensures Components(Joined(cs), SLASH) == cs
    decreases |cs|, |cs[0]|
  {
    var rel, c := Joined(cs), cs[0];
    if c != "" {
      var shorter := [c[1..]] + cs[1..];
      assert cs[0] in cs && forall d | d in shorter :: d in cs || d == c[1..];
      assert shorter[0] == c[1..];
      ComponentsOfJoined(shorter);
      assert shorter[1..] == cs[1..] && rel == [c[0]] + Joined(shorter);
      assert c[0] in c && [c[0]] + c[1..] == c;
    } else if |cs| > 1 {
      assert forall d | d in cs[1..] :: d in cs;
      ComponentsOfJoined(cs[1..]);
      assert rel == "/" + Joined(cs[1..]);
    }
  }

  /** The place below the root to which the components lead, if they never lead above the root. */
  function Resolve(cs: seq<string>): Option<seq<string>> {
    if cs == [] then Some([]) else
    var c := cs[|cs| - 1];
    match Resolve(cs[..|cs| - 1])
    case None => None
    case Some(at) =>
      if c == "" || c == "." then Some(at)
      else if c != ".." then Some(at + [c])
      else if at == [] then None
      else Some(at[..|at| - 1])
  }

  const SLASH: set<char> := {'/'}
  const EITHER_SLASH: set<char> := {'/', '\\'}

  /** Relative, without a component `..`, and never above the root, whether a backslash separates or not. */
  ghost predicate StaysInside(rel: string) {
    forall separators | separators == SLASH || separators == EITHER_SLASH ::
      && (rel != "" ==> rel[0] !in separators)
      && ".." !in Components(rel, separators)
      && Resolve(Components(rel, separators)).Some?
  }

  predicate Dots(c: string) {
    exists i | 0 <= i < |c| - 1 :: c[i] == '.' && c[i + 1] == '.'
  }

  lemma DotsAt(c: string, i: nat)
    requires i + 1 < |c| && c[i] == '.' && c[i + 1] == '.'
    ensures Dots(c)
  {
  }

  /** Two dots in a row lie within one component. */
  lemma {:induction false} DotsInComponents(rel: string, separators: set<char>)
    requires '.' !in separators
    ensures Dots(rel) <==> exists c | c in Components(rel, separators) :: Dots(c)
    ensures Components(rel, separators)[0] <= rel
    ensures rel != "" && rel[0] !in separators ==> Components(rel, separators)[0] != ""
  {
    if rel != "" {
      DotsInComponents(rel[1..], separators);
      var cs, rest := Components(rel, separators), Components(rel[1..], separators);
      if Dots(rel) { DotsFound(rel, separators); }
      forall c | c in cs && Dots(c) ensures Dots(rel) {
        DotsLost(rel, separators, c);
      }
    }
  }

  lemma DotsInFront(x: char, rest: seq<string>, separators: set<char>, k: nat)
    requires k < |rest| && Dots(rest[k])
    ensures exists c | c in InFront(x, rest, separators) :: Dots(c)
  {
    var cs := InFront(x, rest, separators);
    if x in separators {
      assert cs[k + 1] == rest[k];
    } else if k > 0 {
      assert cs[k] == rest[k];
    } else {
      var j :| 0 <= j < |rest[0]| - 1 && rest[0][j] == '.' && rest[0][j + 1] == '.';
      DotsAt([x] + rest[0], j + 1);
      assert cs[0] in cs;
    }
  }

  lemma DotsFound(rel: string, separators: set<char>)
    requires '.' !in separators && Dots(rel)
    requires Dots(rel[1..]) ==> exists c | c in Components(rel[1..], separators) :: Dots(c)
    requires rel[1..] != "" && rel[1] !in separators ==> Components(rel[1..], separators)[0] != ""
    requires Components(rel[1..], separators)[0] <= rel[1..]
    ensures exists c | c in Components(rel, separators) :: Dots(c)
  {
    var cs, rest := Components(rel, separators), Components(rel[1..], separators);
    var i :| 0 <= i < |rel| - 1 && rel[i] == '.' && rel[i + 1] == '.';
    if i == 0 {
      assert cs[0] == ['.'] + rest[0] && rest[0][0] == '.';
      DotsAt(cs[0], 0);
    } else {
      DotsAt(rel[1..], i - 1);
      var c :| c in rest && Dots(c);
      var k :| 0 <= k < |rest| && rest[k] == c;
      OneMoreInFront(rel[0], rel[1..], separators);
      assert [rel[0]] + rel[1..] == rel;
      hide Components, InFront, Dots;
      DotsInFront(rel[0], rest, separators, k);
    }
  }

  lemma DotsLost(rel: string, separators: set<char>, c: string)
    requires rel != "" && c in Components(rel, separators) && Dots(c)
    requires Components(rel[1..], separators)[0] <= rel[1..]
    requires forall d | d in Components(rel[1..], separators) && Dots(d) :: Dots(rel[1..])
    ensures Dots(rel)
  {
    var cs, rest := Components(rel, separators), Components(rel[1..], separators);
    if c in rest {
      var i :| 0 <= i < |rel[1..]| - 1 && rel[1..][i] == '.' && rel[1..][i + 1] == '.';
      DotsAt(rel, i + 1);
    } else {
      assert c == [rel[0]] + rest[0];
      assert c <= rel;
      var i :| 0 <= i < |c| - 1 && c[i] == '.' && c[i + 1] == '.';
      DotsAt(rel, i);
    }
  }

  lemma {:induction false} ResolvesWithoutDots(cs: seq<string>)
    requires ".." !in cs
    ensures Resolve(cs).Some?
  {
    if cs != [] {
      assert forall c | c in cs[..|cs| - 1] :: c in cs;
      ResolvesWithoutDots(cs[..|cs| - 1]);
    }
  }

  /** Relative, without a backslash, and no component has two dots in a row. */
  ghost predicate Harmless(rel: string) {
    && (rel != "" ==> rel[0] != '/') && '\\' !in rel
    && forall c | c in Components(rel, SLASH) :: !Dots(c)
  }

  /** The guard refuses exactly what is not harmless. */
  lemma UnsafeExactly(rel: string)
    ensures Unsafe(rel) <==> !Harmless(rel)
  {
    DotsInComponents(rel, SLASH);
  }

  /** And what is harmless stays inside, as does the container for it. */
  lemma HarmlessStaysInside(rel: string)
    requires Harmless(rel)
    ensures StaysInside(rel) && StaysInside(Vit(rel))
  {
    UnsafeExactly(rel);
    forall separators | separators == SLASH || separators == EITHER_SLASH
      ensures ".." !in Components(rel, separators) && ".." !in Components(Vit(rel), separators)
    {
      DotsInComponents(rel, separators);
      DotsAt("..", 0);
      ComponentsOfLonger(rel, ".vit", separators);
    }
    forall separators | separators == SLASH || separators == EITHER_SLASH
      ensures Resolve(Components(rel, separators)).Some? && Resolve(Components(Vit(rel), separators)).Some?
    {
      ResolvesWithoutDots(Components(rel, separators));
      ResolvesWithoutDots(Components(Vit(rel), separators));
    }
  }

  /** What is appended goes to the last component. */
  lemma {:induction false} ComponentsOfLonger(rel: string, tail: string, separators: set<char>)
    requires forall x | x in tail :: x !in separators
    ensures var cs := Components(rel, separators);
      Components(rel + tail, separators) == cs[..|cs| - 1] + [cs[|cs| - 1] + tail]
  {
    if rel == "" {
      WithoutSeparators(tail, separators);
      assert rel + tail == tail && [""][..0] == [];
    } else {
      ComponentsOfLonger(rel[1..], tail, separators);
      OneMoreInFront(rel[0], rel[1..], separators);
      OneMoreInFront(rel[0], rel[1..] + tail, separators);
      assert [rel[0]] + rel[1..] == rel && [rel[0]] + (rel[1..] + tail) == rel + tail;
      LongerLast(rel[0], Components(rel[1..], separators), tail, separators);
      hide Components, InFront;
    }
  }

  function InFront(x: char, rest: seq<string>, separators: set<char>): (cs: seq<string>)
    requires rest != []
    ensures cs != []
  {
    if x in separators then [""] + rest else [[x] + rest[0]] + rest[1..]
  }

  lemma OneMoreInFront(x: char, rel: string, separators: set<char>)
    ensures Components([x] + rel, separators) == InFront(x, Components(rel, separators), separators)
  {
    assert ([x] + rel)[1..] == rel;
  }

  lemma LongerLast(x: char, rest: seq<string>, tail: string, separators: set<char>)
    requires rest != []
    ensures var cs := InFront(x, rest, separators);
      InFront(x, rest[..|rest| - 1] + [rest[|rest| - 1] + tail], separators)
      == cs[..|cs| - 1] + [cs[|cs| - 1] + tail]
  {
    if |rest| == 1 { assert [x] + (rest[0] + tail) == ([x] + rest[0]) + tail; }
  }

  lemma {:induction false} WithoutSeparators(c: string, separators: set<char>)
    requires forall x | x in c :: x !in separators
    ensures Components(c, separators) == [c]
  {
    if c != "" {
      WithoutSeparators(c[1..], separators);
      assert c[0] in c && [c[0]] + c[1..] == c;
    }
  }
}
