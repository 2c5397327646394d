/** Slash-separated paths: the parts of package path the sandbox file operations rest on,
    and the path validators (internal/runtime/file_info.go). */
module Paths {
  import opened Wrappers

  const MAX_FILE_SIZE := 10 * 1024 * 1024
  const MAX_TOTAL_FILES := 1000

  predicate Plain(part: string) {
    '/' !in part
  }

  predicate AllPlain(parts: seq<string>) {
    forall k :: 0 <= k < |parts| ==> Plain(parts[k])
  }

  /** A component that stays itself under cleaning. */
  predicate Good(part: string) {
    Plain(part) && part != "" && part != "." && part != ".."
  }

  predicate AllGood(parts: seq<string>) {
    forall k :: 0 <= k < |parts| ==> Good(parts[k])
  }

  // strings.Split(s, "/") and strings.Join(parts, "/").
  function Split(s: string): (r: seq<string>)
    ensures |r| >= 1 && AllPlain(r)
  {
    if s == "" then [""]
    else
      var rest := Split(s[1..]);
      if s[0] == '/' then [""] + rest else [[s[0]] + rest[0]] + rest[1..]
  }

  function JoinSlash(parts: seq<string>): string {
    if parts == [] then ""
    else if |parts| == 1 then parts[0]
    else parts[0] + "/" + JoinSlash(parts[1..])
  }

  lemma {:induction false} SplitPlain(s: string)
    requires Plain(s)
    ensures Split(s) == [s]
  {
    if s != "" {
      SplitPlain(s[1..]);
      assert [s[0]] + s[1..] == s;
    }
  }

  lemma {:induction false} SplitAtSlash(s: string, t: string)
    ensures Split(s + "/" + t) == Split(s) + Split(t)
  {
    if s == "" {
      assert s + "/" + t == "/" + t;
      assert ("/" + t)[1..] == t;
    } else {
      assert (s + "/" + t)[1..] == s[1..] + "/" + t;
      SplitAtSlash(s[1..], t);
    }
  }

  /** Joining plain components and splitting again gives them back. */
  lemma {:induction false} SplitOfJoin(parts: seq<string>)
    requires parts != [] && AllPlain(parts)
    ensures Split(JoinSlash(parts)) == parts
  {
    SplitPlain(parts[0]);
    if |parts| > 1 {
      SplitAtSlash(parts[0], JoinSlash(parts[1..]));
      SplitOfJoin(parts[1..]);
    }
  }

  // ---- Cleaning a rooted path ----

  // The components left after dropping empty and "." ones and resolving "..".
  function Fold(parts: seq<string>, kept: seq<string>): seq<string>
    decreases |parts|
  {
    if parts == [] then kept
    else if parts[0] == "" || parts[0] == "." then Fold(parts[1..], kept)
    else if parts[0] == ".." then Fold(parts[1..], if kept == [] then kept else kept[..|kept| - 1])
    else Fold(parts[1..], kept + [parts[0]])
  }

  /** The components a rooted path names. */
  function Components(p: string): seq<string> {
    Fold(Split(p), [])
  }

  function Render(parts: seq<string>): string {
    "/" + JoinSlash(parts)
  }

  function CleanRooted(p: string): string {
    Render(Components(p))
  }

  predicate IsAbs(p: string) {
    p != "" && p[0] == '/'
  }

  lemma {:induction false} FoldIsGood(parts: seq<string>, kept: seq<string>)
    requires AllPlain(parts) && AllGood(kept)
    ensures AllGood(Fold(parts, kept))
    decreases |parts|
  {
    if parts != [] {
      if parts[0] == "" || parts[0] == "." {
        FoldIsGood(parts[1..], kept);
      } else if parts[0] == ".." {
        FoldIsGood(parts[1..], if kept == [] then kept else kept[..|kept| - 1]);
      } else {
        FoldIsGood(parts[1..], kept + [parts[0]]);
      }
    }
  }

  lemma {:induction false} FoldOfGood(parts: seq<string>, kept: seq<string>)
    requires AllGood(parts)
    ensures Fold(parts, kept) == kept + parts
    decreases |parts|
  {
    if parts == [] {
      assert kept + parts == kept;
    } else {
      FoldOfGood(parts[1..], kept + [parts[0]]);
      assert kept + [parts[0]] + parts[1..] == kept + parts;
    }
  }

  lemma {:induction false} FoldOfConcat(a: seq<string>, b: seq<string>, kept: seq<string>)
    ensures Fold(a + b, kept) == Fold(b, Fold(a, kept))
    decreases |a|
  {
    if a == [] {
      assert a + b == b;
    } else {
      assert (a + b)[1..] == a[1..] + b;
      if a[0] == "" || a[0] == "." {
        FoldOfConcat(a[1..], b, kept);
      } else if a[0] == ".." {
        FoldOfConcat(a[1..], b, if kept == [] then kept else kept[..|kept| - 1]);
      } else {
        FoldOfConcat(a[1..], b, kept + [a[0]]);
      }
    }
  }

  lemma FoldSkips(kept: seq<string>)
    ensures Fold([""], kept) == kept
  {
  }

  // A trailing slash names nothing more.
  lemma ComponentsOfSlashed(p: string)
    ensures Components(p + "/") == Components(p)
  {
    assert p + "/" == p + "/" + "";
    SplitAtSlash(p, "");
    FoldOfConcat(Split(p), [""], []);
    FoldSkips(Components(p));
  }

  /** Rendering good components and reading them back is the identity, with or without
      the trailing slash of a directory entry. */
  lemma ComponentsOfRender(parts: seq<string>)
    requires AllGood(parts)
    ensures Components(Render(parts)) == parts
    ensures Components(Render(parts) + "/") == parts
  {
    var rest := JoinSlash(parts);
    assert Render(parts) == "" + "/" + rest;
    SplitAtSlash("", rest);
    assert Split("") == [""];
    if parts == [] {
      assert Split(rest) == [""];
    } else {
      SplitOfJoin(parts);
    }
    FoldOfConcat([""], Split(rest), []);
    FoldSkips([]);
    FoldSkips(parts);
    FoldOfGood(parts, []);
    assert [] + parts == parts;
    ComponentsOfSlashed(Render(parts));
  }

  /** path.Join of a rooted parent and a relative entry name. */
  function JoinPath(parent: string, name: string): string {
    CleanRooted(if name == "" then parent else parent + "/" + name)
  }

  lemma ComponentsBelow(parent: seq<string>, parts: seq<string>)
    requires AllGood(parent) && AllGood(parts) && parts != []
    ensures Components(Render(parent) + "/" + JoinSlash(parts)) == parent + parts
  {
    ComponentsOfRender(parent);
    SplitAtSlash(Render(parent), JoinSlash(parts));
    SplitOfJoin(parts);
    FoldOfConcat(Split(Render(parent)), parts, []);
    FoldOfGood(parts, parent);
  }

  lemma JoinIsNotEmpty(parts: seq<string>)
    requires parts != [] && parts[0] != ""
    ensures JoinSlash(parts) != ""
  {
  }

  lemma JoinPathAppends(parent: seq<string>, parts: seq<string>, slash: bool)
    requires AllGood(parent) && AllGood(parts) && parts != []
    ensures JoinPath(Render(parent), JoinSlash(parts) + (if slash then "/" else "")) == Render(parent + parts)
  {
    var name := JoinSlash(parts);
    JoinIsNotEmpty(parts);
    ComponentsBelow(parent, parts);
    var whole := Render(parent) + "/" + name;
    if slash {
      ComponentsOfSlashed(whole);
      assert Render(parent) + "/" + (name + "/") == whole + "/";
    } else {
      assert name + "" == name;
    }
  }

  // The index of the last slash.
  function LastSlash(p: string): (k: nat)
    requires IsAbs(p)
    ensures k < |p| && p[k] == '/' && forall j :: k < j < |p| ==> p[j] != '/'
  {
    if p[|p| - 1] == '/' then |p| - 1 else LastSlash(p[..|p| - 1])
  }

  // path.Dir and path.Base of a rooted path.
  function DirPath(p: string): string
    requires IsAbs(p)
  {
    CleanRooted(p[..LastSlash(p) + 1])
  }

  function BasePath(p: string): string
    requires IsAbs(p)
  {
    if p == "/" then "/" else p[LastSlash(p) + 1..]
  }

  lemma {:induction false} JoinSlashSnoc(front: seq<string>, last: string)
    requires front != []
    ensures JoinSlash(front + [last]) == JoinSlash(front) + "/" + last
  {
    if |front| == 1 {
      assert (front + [last])[1..] == [last];
    } else {
      assert (front + [last])[1..] == front[1..] + [last];
      JoinSlashSnoc(front[1..], last);
    }
  }

  lemma RenderSnoc(front: seq<string>, last: string)
    ensures Render(front + [last]) == (if front == [] then "/" else Render(front) + "/") + last
  {
    if front == [] {
      assert front + [last] == [last];
    } else {
      JoinSlashSnoc(front, last);
    }
  }

  /** The parent and the name of a valid non-root path. */
  lemma DirAndBase(parts: seq<string>)
    requires AllGood(parts) && parts != []
    ensures DirPath(Render(parts)) == Render(parts[..|parts| - 1])
    ensures BasePath(Render(parts)) == parts[|parts| - 1]
  {
    var front, last := parts[..|parts| - 1], parts[|parts| - 1];
    assert parts == front + [last];
    RenderSnoc(front, last);
    var head := if front == [] then "/" else Render(front) + "/";
    var p := Render(parts);
    assert p == head + last && head[|head| - 1] == '/';
    assert forall j :: |head| <= j < |p| ==> p[j] == last[j - |head|] && p[j] in last;
    assert p[|head| - 1] == '/';
    assert LastSlash(p) == |head| - 1;
    assert p[..|head|] == head && p[|head|..] == last;
    ComponentsOfRender(front);
  }

  // ---- Validators ----

  function ValidatePath(p: string): Result<()> {
    if p == "" then Err(ErrInvalidPath)
    else if !IsAbs(p) then Err(ErrInvalidPath)
    else if p != CleanRooted(p) then Err(ErrInvalidPath)
    else Ok(())
  }

  function ValidateRead(p: string): Result<()> {
    if ValidatePath(p).Err? then ValidatePath(p)
    else if p == "/" then Err(ErrInvalidPath)
    else Ok(())
  }

  function ValidateWrite<T>(p: string, content: seq<T>): Result<()> {
    if ValidateRead(p).Err? then ValidateRead(p)
    else if |content| > MAX_FILE_SIZE then Err(ErrFileTooLarge)
    else Ok(())
  }

  /** The accepted paths are exactly the renderings of lists of good components, each
      path of one list; the root is the empty list. */
  lemma ValidPathsAreRenderings(p: string)
    ensures ValidatePath(p).Ok? <==> exists parts :: AllGood(parts) && p == Render(parts)
    ensures ValidatePath(p).Ok? ==> AllGood(Components(p)) && p == Render(Components(p))
    ensures ValidateRead(p).Ok? <==> ValidatePath(p).Ok? && Components(p) != []
  {
    FoldIsGood(Split(p), []);
    if parts :| AllGood(parts) && p == Render(parts) {
      ComponentsOfRender(parts);
    }
    if ValidatePath(p).Ok? && Components(p) != [] {
      JoinIsNotEmpty(Components(p));
    }
    assert Render([]) == "/";
    if p == "/" {
      ComponentsOfRender([]);
    }
  }

  lemma FoldOfOne(part: string, kept: seq<string>)
    ensures Fold([part], kept) ==
              if part == "" || part == "." then kept
              else if part == ".." then (if kept == [] then [] else kept[..|kept| - 1])
              else kept + [part]
  {
    assert [part][1..] == [];
  }

  /** Cleaning, one component at a time: an empty one and "." are nothing, ".." leaves the
      last directory and stays at the root, anything else is entered. */
  lemma CleaningLaws(p: string, part: string)
    requires Plain(part)
    ensures var dirs := Components(p);
            Components(p + "/" + part) ==
              if part == "" || part == "." then dirs
              else if part == ".." then (if dirs == [] then [] else dirs[..|dirs| - 1])
              else dirs + [part]
    ensures Components("") == []
  {
    SplitAtSlash(p, part);
    SplitPlain(part);
    FoldOfConcat(Split(p), [part], []);
    FoldOfOne(part, Components(p));
    FoldSkips([]);
  }

  /** The validators' verdicts: a bad path, the root, or more than ten mebibytes. */
  lemma ValidatorsAnswer<T>(p: string, content: seq<T>)
    ensures ValidatePath(p).Err? ==> ValidatePath(p) == Err(ErrInvalidPath)
    ensures ValidateRead(p) == if p == "/" then Err(ErrInvalidPath) else ValidatePath(p)
    ensures ValidateWrite(p, content) ==
              if ValidateRead(p).Err? then ValidateRead(p)
              else if |content| > 10_485_760 then Err(ErrFileTooLarge) else Ok(())
    ensures DirPath("/") == BasePath("/") == "/"
  {
    FoldSkips([]);
    SplitAtSlash("", "");
    assert "" + "/" + "" == "/" && "/"[..1] == "/";
    FoldOfConcat([""], [""], []);
  }
}
