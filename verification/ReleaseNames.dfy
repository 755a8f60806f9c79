/** POSIX path names, as `pathlib` reads them, and the names a release is made of. */
module ReleaseNames {
  import opened Text

  type Path = seq<string>

  // --------------------------------------------------------------- strings and parts

  function PartEnd(s: string): (k: nat)
    ensures k <= |s| && (forall i :: 0 <= i < k ==> s[i] != '/') && (k < |s| ==> s[k] == '/')
  {
    if s == [] || s[0] == '/' then 0 else 1 + PartEnd(s[1..])
  }

  /** `Path(s).parts` of a relative name: empty parts and single dots disappear. */
  function Parts(s: string): Path
    decreases |s|
  {
    if s == [] then []
    else if s[0] == '/' then Parts(s[1..])
    else Kept(s[..PartEnd(s)]) + Parts(s[PartEnd(s)..])
  }

  function Kept(part: string): Path { if part == "." then [] else [part] }

  predicate Plain(part: string) { part != [] && '/' !in part && part != "." && part != ".." }

  predicate PlainPath(path: Path) { forall part :: part in path ==> Plain(part) }

  function Posix(path: Path): string { Join("/", path) }

  lemma {:induction false} PartEndUnique(s: string, k: nat)
    requires k <= |s| && (forall i :: 0 <= i < k ==> s[i] != '/') && (k < |s| ==> s[k] == '/')
    ensures PartEnd(s) == k
  {
    if s != [] && s[0] != '/' { PartEndUnique(s[1..], k - 1); }
  }

  lemma {:induction false} SlashSeparates(a: string, b: string)
    ensures Parts(a + "/" + b) == Parts(a) + Parts(b)
    decreases |a|
  {
    var s := a + "/" + b;
    if a == [] {
      assert s[1..] == b;
    } else if a[0] == '/' {
      assert s[1..] == a[1..] + "/" + b;
      SlashSeparates(a[1..], b);
    } else {
      FirstPart(a, b);
      SlashSeparates(a[PartEnd(a)..], b);
      Regroup(Kept(a[..PartEnd(a)]), Parts(a[PartEnd(a)..]), Parts(b));
    }
  }

  lemma Regroup(a: Path, b: Path, c: Path)
    ensures a + (b + c) == a + b + c
  {
  }

  lemma FirstPart(a: string, b: string)
    requires a != [] && a[0] != '/'
    ensures PartEnd(a) > 0
    ensures Parts(a + "/" + b) == Kept(a[..PartEnd(a)]) + Parts(a[PartEnd(a)..] + "/" + b)
  {
    var s, k := a + "/" + b, PartEnd(a);
    PartEndUnique(s, k);
    assert s[..k] == a[..k];
    assert s[k..] == a[k..] + "/" + b;
  }

  lemma PartAlone(part: string)
    requires Plain(part)
    ensures Parts(part) == [part]
  {
    assert part[..|part|] == part && part[|part|..] == [];
    PartEndUnique(part, |part|);
    assert part[0] in part;
  }

  /** Writing a path as a name and reading it back. */
  lemma {:induction false} PartsOfPosix(path: Path)
    requires PlainPath(path)
    ensures Parts(Posix(path)) == path
    ensures path != [] ==> Posix(path) != [] && Posix(path)[0] != '/'
  {
    if path != [] {
      var front, last := path[..|path| - 1], path[|path| - 1];
      assert path == front + [last] && Plain(last);
      PartAlone(last);
      assert last[0] in last;
      if front != [] {
        assert PlainPath(front);
        PartsOfPosix(front);
        JoinAppend("/", front, last);
        SlashSeparates(Posix(front), last);
      }
    }
  }

  lemma DotSlashChangesNothing(name: string)
    ensures Parts("./" + name) == Parts(name)
  {
    assert "./" + name == "." + "/" + name;
    SlashSeparates(".", name);
    PartEndUnique(".", 1);
    assert "."[..1] == "." && "."[1..] == [];
  }

  // ------------------------------------------------------------------ kinds of file

  function FileName(path: Path): string { if path == [] then "" else path[|path| - 1] }

  function LastDot(s: string): (i: int)
    ensures -1 <= i < |s|
  {
    if s == [] then -1 else if s[|s| - 1] == '.' then |s| - 1 else LastDot(s[..|s| - 1])
  }

  /** `PurePath.suffix`. */
  function Suffix(name: string): string
  {
    var i := LastDot(name);
    if 0 < i < |name| - 1 then name[i..] else ""
  }

  function LowerChar(c: char): char { if 'A' <= c <= 'Z' then c + 32 as char else c }

  function Lower(s: string): (r: string)
    ensures |r| == |s| && forall i :: 0 <= i < |s| ==> r[i] == LowerChar(s[i])
  {
    seq(|s|, i requires 0 <= i < |s| => LowerChar(s[i]))
  }

  predicate EndsWith(s: string, tail: string) { |tail| <= |s| && s[|s| - |tail|..] == tail }

  predicate IsInstaller(name: string) { Lower(Suffix(name)) in {".exe", ".msi"} }

  predicate IsSignature(name: string) { Lower(Suffix(name)) == ".sig" }

  predicate IsArtifact(name: string)
  {
    IsInstaller(name) || IsSignature(name) || name == "update.json"
    || EndsWith(Lower(name), ".zip") || EndsWith(Lower(name), ".tar.gz")
  }

  const SBOM_NAMES: seq<string> := ["sbom-npm.cdx.json", "sbom-python.cdx.json", "sbom-rust.cdx.json"]
  const MANIFEST := "release-manifest.json"
  const CHECKSUMS := "SHA256SUMS"

  lemma {:induction false} LastDotOf(stem: string, extension: string)
    requires '.' !in extension
    ensures LastDot(stem + "." + extension) == |stem|
  {
    var s := stem + "." + extension;
    if extension != [] {
      var shorter := extension[..|extension| - 1];
      assert extension == shorter + [extension[|extension| - 1]];
      assert s[..|s| - 1] == stem + "." + shorter && s[|s| - 1] == extension[|extension| - 1];
      LastDotOf(stem, shorter);
    }
  }

  lemma {:induction false} NoDot(s: string)
    requires '.' !in s
    ensures LastDot(s) == -1
  {
    if s != [] { NoDot(s[..|s| - 1]); }
  }

  /** The two files that a release writes are never among the files it lists. */
  lemma OwnFilesAreNotListed()
    ensures !IsArtifact(MANIFEST) && MANIFEST !in SBOM_NAMES
    ensures !IsArtifact(CHECKSUMS) && CHECKSUMS !in SBOM_NAMES
  {
    ManifestIsNoArtifact();
    ChecksumsAreNoArtifact();
    assert |MANIFEST| == 21 && |CHECKSUMS| == 10;
  }

  lemma ManifestIsNoArtifact()
    ensures !IsArtifact(MANIFEST)
  {
    LastDotOf("release-manifest", "json");
    assert MANIFEST == "release-manifest" + "." + "json";
    assert |Lower(Suffix(MANIFEST))| == 5;
    NotAnArchive(MANIFEST);
    assert |MANIFEST| == 21 && |"update.json"| == 11;
  }

  lemma ChecksumsAreNoArtifact()
    ensures !IsArtifact(CHECKSUMS)
  {
    NoDot(CHECKSUMS);
    assert |Lower(Suffix(CHECKSUMS))| == 0;
    NotAnArchive(CHECKSUMS);
    assert |CHECKSUMS| == 10 && |"update.json"| == 11;
  }

  lemma NotAnArchive(name: string)
    requires name != [] && LowerChar(name[|name| - 1]) != 'p' && LowerChar(name[|name| - 1]) != 'z'
    ensures !EndsWith(Lower(name), ".zip") && !EndsWith(Lower(name), ".tar.gz")
  {
    EndIsLast(Lower(name), ".zip");
    EndIsLast(Lower(name), ".tar.gz");
  }

  lemma EndIsLast(s: string, tail: string)
    requires s != [] && tail != []
    ensures EndsWith(s, tail) ==> s[|s| - 1] == tail[|tail| - 1]
  {
  }
}
