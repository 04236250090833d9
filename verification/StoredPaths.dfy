/** Storage paths of uploads, as slash-separated segments. */
module StoredPaths {
  import opened Wrappers

  type Path = seq<string>

  const UPLOADS := "uploads"

  /** The text of a path, split at its separators. */
  datatype RawPath = RawPath(absolute: bool, parts: seq<string>)

  predicate Plain(part: string) {
    part != "" && part != "." && part != ".."
  }

  predicate AllPlain(parts: seq<string>) {
    forall i | 0 <= i < |parts| :: Plain(parts[i])
  }

  /** What every stored path looks like once it is accepted. */
  predicate Stored(path: Path) {
    |path| >= 2 && path[0] == UPLOADS && AllPlain(path)
  }

  /** The path lies in the upload directory of a token. */
  predicate Under(path: Path, token: string) {
    |path| > 1 && path[1] == token
  }

  /** Lexical cleaning: drops "" and ".", and lets ".." cancel the segment before it. */
  function Clean(absolute: bool, out: seq<string>, parts: seq<string>): seq<string>
    decreases |parts|
  {
    if parts == [] then out
    else if parts[0] == "" || parts[0] == "." then Clean(absolute, out, parts[1..])
    else if parts[0] == ".." then
      if out != [] && out[|out| - 1] != ".." then Clean(absolute, out[..|out| - 1], parts[1..])
      else if absolute then Clean(absolute, out, parts[1..])
      else Clean(absolute, out + [".."], parts[1..])
    else Clean(absolute, out + [parts[0]], parts[1..])
  }

  function CleanStoredUploadPath(value: RawPath): (r: Option<Path>)
    ensures r.Some? ==> Stored(r.value) && !value.absolute
  {
    var cleaned := Clean(value.absolute, [], value.parts);
    if value.absolute || |cleaned| < 2 || cleaned[0] != UPLOADS then None
    else
      CleanedShape(value.absolute, [], value.parts);
      Some(cleaned)
  }

  /** Climbing segments only ever lead a cleaned path. */
  ghost predicate Climbing(path: seq<string>) {
    && (forall i | 0 <= i < |path| :: path[i] != "" && path[i] != ".")
    && (forall i | 0 < i < |path| :: path[i] == ".." ==> path[i - 1] == "..")
  }

  lemma {:induction false} CleanedShape(absolute: bool, out: seq<string>, parts: seq<string>)
    requires Climbing(out)
    ensures Climbing(Clean(absolute, out, parts))
    ensures var c := Clean(absolute, out, parts); c != [] && Plain(c[0]) ==> AllPlain(c)
    decreases |parts|
  {
    if parts == [] {
      if out != [] && Plain(out[0]) {
        LeadingPlain(out, |out|);
      }
    } else if parts[0] == "" || parts[0] == "." {
      CleanedShape(absolute, out, parts[1..]);
    } else if parts[0] == ".." {
      if out != [] && out[|out| - 1] != ".." {
        CleanedShape(absolute, out[..|out| - 1], parts[1..]);
      } else if absolute {
        CleanedShape(absolute, out, parts[1..]);
      } else {
        CleanedShape(absolute, out + [".."], parts[1..]);
      }
    } else {
      CleanedShape(absolute, out + [parts[0]], parts[1..]);
    }
  }

  lemma {:induction false} LeadingPlain(path: seq<string>, n: nat)
    requires Climbing(path) && 0 < n <= |path| && Plain(path[0])
    ensures forall i | 0 <= i < n :: Plain(path[i])
  {
    if n > 1 {
      LeadingPlain(path, n - 1);
      assert Plain(path[n - 2]);
    }
  }

  lemma {:induction false} CleanKeepsPlain(absolute: bool, out: seq<string>, parts: seq<string>)
    requires AllPlain(parts)
    ensures Clean(absolute, out, parts) == out + parts
    decreases |parts|
  {
    if parts != [] {
      CleanKeepsPlain(absolute, out + [parts[0]], parts[1..]);
      assert out + [parts[0]] + parts[1..] == out + parts;
    } else {
      assert out + parts == out;
    }
  }

  lemma StoredIsClean(path: Path)
    requires Stored(path)
    ensures CleanStoredUploadPath(RawPath(false, path)) == Some(path)
  {
    CleanKeepsPlain(false, [], path);
    assert [] + path == path;
  }

  /** Where a path leads from a directory: one step at a time, and above the root there is only the root. */
  function Resolve(base: seq<string>, parts: seq<string>): seq<string>
    decreases |parts|
  {
    if parts == [] then base
    else if parts[0] == "" || parts[0] == "." then Resolve(base, parts[1..])
    else if parts[0] == ".." then Resolve(if base == [] then [] else base[..|base| - 1], parts[1..])
    else Resolve(base + [parts[0]], parts[1..])
  }

  lemma {:induction false} ResolveConcat(base: seq<string>, a: seq<string>, b: seq<string>)
    ensures Resolve(base, a + b) == Resolve(Resolve(base, a), b)
    decreases |a|
  {
    if a == [] {
      assert a + b == b;
    } else {
      assert (a + b)[1..] == a[1..] + b;
      ResolveConcat(if a[0] == "" || a[0] == "." then base
                    else if a[0] == ".." then (if base == [] then [] else base[..|base| - 1])
                    else base + [a[0]], a[1..], b);
    }
  }

  /** Cleaning a relative path does not change where it leads, from whatever directory. */
  lemma {:induction false} CleanLeadsToTheSame(base: seq<string>, out: seq<string>, parts: seq<string>)
    requires Climbing(out)
    ensures Resolve(base, Clean(false, out, parts)) == Resolve(base, out + parts)
    decreases |parts|
  {
    if parts == [] {
      assert out + parts == out;
    } else if parts[0] == "" || parts[0] == "." {
      CleanLeadsToTheSame(base, out, parts[1..]);
      ResolveConcat(base, out, parts);
      ResolveConcat(base, out, parts[1..]);
    } else if parts[0] == ".." && out != [] && out[|out| - 1] != ".." {
      var front, last := out[..|out| - 1], out[|out| - 1];
      CleanLeadsToTheSame(base, front, parts[1..]);
      ResolveConcat(base, front, [last] + parts);
      ResolveConcat(base, front, parts[1..]);
      assert out + parts == front + ([last] + parts) && ([last] + parts)[1..] == parts;
      var there := Resolve(base, front);
      assert (there + [last])[..|there|] == there;
    } else {
      CleanLeadsToTheSame(base, out + [parts[0]], parts[1..]);
      assert out + [parts[0]] + parts[1..] == out + parts;
    }
  }

  /** From every directory the path leads to the same place below it. */
  ghost predicate LeadsTo(parts: seq<string>, below: Path) {
    forall base :: Resolve(base, parts) == base + below
  }

  lemma {:induction false} PlainResolves(base: seq<string>, path: seq<string>)
    requires AllPlain(path)
    ensures Resolve(base, path) == base + path
    decreases |path|
  {
    if path == [] {
      assert base + path == base;
    } else {
      PlainResolves(base + [path[0]], path[1..]);
      assert base + [path[0]] + path[1..] == base + path;
    }
  }

  /** From as many nameless directories as the path climbs, it leads to the names it ends in. */
  lemma {:induction false} ClimbingResolves(path: seq<string>) returns (up: nat)
    requires Climbing(path)
    ensures up <= |path| && (forall i | 0 <= i < up :: path[i] == "..") && AllPlain(path[up..])
    ensures Resolve(seq(up, _ => ""), path) == path[up..]
  {
    if path == [] || path[0] != ".." {
      if path != [] {
        LeadingPlain(path, |path|);
      }
      PlainResolves([], path);
      assert seq(0, _ => "") == [] && path[0..] == path && [] + path == path;
      up := 0;
    } else {
      assert forall i | 0 < i < |path[1..]| && path[1..][i] == ".." :: path[1..][i - 1] == "..";
      var rest := ClimbingResolves(path[1..]);
      up := rest + 1;
      assert seq(up, _ => "")[..rest] == seq(rest, _ => "");
      assert path[1..][rest..] == path[up..];
    }
  }

  /** A relative path is accepted exactly when it leads below `uploads`, and then it is cleaned to where it leads. */
  lemma AcceptedExactlyWhen(parts: seq<string>, below: Path)
    ensures CleanStoredUploadPath(RawPath(false, parts)) == Some(below) <==> Stored(below) && LeadsTo(parts, below)
  {
    var cleaned := Clean(false, [], parts);
    CleanedShape(false, [], parts);
    assert [] + parts == parts;
    forall base ensures Resolve(base, cleaned) == Resolve(base, parts) {
      CleanLeadsToTheSame(base, [], parts);
    }
    if CleanStoredUploadPath(RawPath(false, parts)) == Some(below) {
      forall base ensures Resolve(base, parts) == base + below {
        PlainResolves(base, cleaned);
      }
    }
    if Stored(below) && LeadsTo(parts, below) {
      var up := ClimbingResolves(cleaned);
      var base := seq(up, _ => "");
      assert base + below == cleaned[up..];
      assert up > 0 ==> !Plain((base + below)[0]);
      assert cleaned[0..] == cleaned && [] + below == below;
    }
  }

  /** filepath.Join(operation, original): the slot a staged file is kept in. */
  function SlotPath(area: string, token: string, original: Path): seq<string> {
    Clean(false, [], [area, token] + original)
  }

  /** strings.TrimPrefix(path, operation + "/") on the walked path. */
  function Unprefixed(area: string, token: string, walked: seq<string>): seq<string> {
    if |walked| >= 2 && walked[0] == area && walked[1] == token then walked[2..] else walked
  }

  /**
   * Recovery knows a slot only by its file name: what it reads back from the walk is the path the slot
   * was made for, so no slot can be resolved to another path or to one outside the uploads directory.
   */
  lemma WalkRecoversOriginal(area: string, token: string, original: Path)
    requires Plain(area) && Plain(token) && Stored(original)
    ensures var walked := SlotPath(area, token, original);
            && |walked| >= 2
            && walked[..2] == [area, token]
            && CleanStoredUploadPath(RawPath(false, Unprefixed(area, token, walked))) == Some(original)
  {
    CleanKeepsPlain(false, [], [area, token] + original);
    assert [] + ([area, token] + original) == [area, token] + original;
    assert ([area, token] + original)[2..] == original;
    StoredIsClean(original);
  }

  /** Cleaning twice is cleaning once, so a path read from a row always names the same file. */
  lemma CleanStoredIsIdempotent(value: RawPath)
    requires CleanStoredUploadPath(value).Some?
    ensures CleanStoredUploadPath(RawPath(false, CleanStoredUploadPath(value).value)) == CleanStoredUploadPath(value)
  {
    StoredIsClean(CleanStoredUploadPath(value).value);
  }

  /** storedUploadPaths: the clean paths of the rows, each once, in order; the first invalid one is an error. */
  method StoredUploadPaths(values: seq<Option<RawPath>>) returns (r: Option<seq<Path>>)
    ensures r.None? <==> exists i ::
              0 <= i < |values| && values[i].Some? && CleanStoredUploadPath(values[i].value).None?
    ensures r.Some? ==>
              && (forall i, j | 0 <= i < j < |r.value| :: r.value[i] != r.value[j])
              && (forall p :: p in r.value <==> exists i ::
                  0 <= i < |values| && values[i].Some? && CleanStoredUploadPath(values[i].value) == Some(p))
  {
    var paths: seq<Path> := [];
    for n := 0 to |values|
      invariant forall i | 0 <= i < n :: values[i].Some? ==> CleanStoredUploadPath(values[i].value).Some?
      invariant forall i, j | 0 <= i < j < |paths| :: paths[i] != paths[j]
      invariant forall p :: p in paths <==> exists i ::
                0 <= i < n && values[i].Some? && CleanStoredUploadPath(values[i].value) == Some(p)
    {
      if values[n].None? {
        continue;
      }
      var path := CleanStoredUploadPath(values[n].value);
      if path.None? {
        return None;
      }
      if path.value !in paths {
        paths := paths + [path.value];
      }
    }
    return Some(paths);
  }
}
