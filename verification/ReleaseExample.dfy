/** One small release: a package file, three SBOMs, an installer and its signature. */
module ReleaseExample {
  import opened Wrappers
  import opened Text
  import opened ReleaseNames
  import opened Release
  import opened ReleaseTheorems

  const PACKAGE: Path := ["package.json"]
  const INSTALLER: Path := ["b", "a.exe"]
  const SIGNATURE: Path := ["b", "a.sig"]
  const JOB := Job([], ["b"], ["m"], None)

  const FILES: Files := map[
    PACKAGE := "p", INSTALLER := "e", SIGNATURE := "g",
    ["m", SBOM_NAMES[0]] := "s", ["m", SBOM_NAMES[1]] := "s", ["m", SBOM_NAMES[2]] := "s"]

  /** Formats that read and write two manifests; every package file has version 1 and every
      SBOM is valid. */
  function Formats(once: Manifest, twice: Manifest): Codec
  {
    Codec((text: string) => text, (m: Manifest) => if m == once then "1" else "2",
          (text: string) => Some(if text == "1" then once else twice),
          (text: string) => Some("1"), (text: string) => true)
  }

  lemma FormatsReadBack(once: Manifest, twice: Manifest)
    ensures ReadsBack(Formats(once, twice), once) && ReadsBack(Formats(once, twice), twice)
  {
    assert "1" != "2";
  }

  lemma Kinds()
    ensures IsInstaller("a.exe") && IsSignature("a.sig")
  {
    LastDotOf("a", "exe");
    LastDotOf("a", "sig");
    assert "a.exe" == "a" + "." + "exe" && "a.sig" == "a" + "." + "sig";
    assert Suffix("a.exe") == ".exe" && Suffix("a.sig") == ".sig";
    assert Lower(".exe") == ".exe" && Lower(".sig") == ".sig";
  }

  predicate OneLine(part: string) { Plain(part) && '\n' !in part && '\r' !in part }

  lemma OneLinePath(a: string, b: string)
    requires OneLine(a) && OneLine(b)
    ensures PlainPath([a, b]) && RelativeName([a, b], []).Ok?
  {
    assert [a, b][0..] == [a, b] && [a, b][..1] == [a];
    JoinAppend("/", [a], b);
    assert [a] + [b] == [a, b];
  }

  lemma OneLineNames()
    ensures OneLine("b") && OneLine("m") && OneLine("a.exe") && OneLine("a.sig") && Plain("package.json")
    ensures forall i :: 0 <= i < 3 ==> OneLine(SBOM_NAMES[i])
  {
    assert |"."| == 1 && |".."| == 2;
  }

  lemma NoFileIsADirectory(p: Path, q: Path)
    requires p in FILES && q in FILES && p <= q
    ensures p == q
  {
    FileShape(p);
    FileShape(q);
    assert p[0] == q[0];
    assert |"package.json"| == 12 && |"b"| == 1 && |"m"| == 1;
    assert |p| == |q| ==> q[..|p|] == q;
  }

  lemma FileShape(p: Path)
    requires p in FILES
    ensures if p == PACKAGE then |p| == 1 else |p| == 2 && (p[0] == "b" || p[0] == "m")
  {
    assert |PACKAGE| == 1;
  }

  lemma FilesArePlain()
    ensures WellFormed(FILES)
    ensures forall p :: p in FILES && p != PACKAGE ==> RelativeName(p, []).Ok?
  {
    OneLineNames();
    OneLinePath("b", "a.exe");
    OneLinePath("b", "a.sig");
    OneLinePath("m", SBOM_NAMES[0]);
    OneLinePath("m", SBOM_NAMES[1]);
    OneLinePath("m", SBOM_NAMES[2]);
    assert PlainPath(PACKAGE);
    forall p, q | p in FILES && q in FILES && p <= q ensures p == q { NoFileIsADirectory(p, q); }
  }

  lemma SbomsArePresent(codec: Codec)
    requires forall text :: codec.isSbom(text)
    ensures SbomError(codec, FILES, ["m"]).None?
  {
    forall p | p in SbomPaths(["m"]) ensures p in FILES { SbomShape(p); }
  }

  lemma ArtifactsArePresent()
    ensures INSTALLER in Artifacts(FILES, JOB) && SIGNATURE in Artifacts(FILES, JOB)
    ensures PACKAGE !in Artifacts(FILES, JOB)
  {
    Kinds();
    assert ["b"] <= INSTALLER && ["b"] <= SIGNATURE;
    assert |"package.json"| == 12 && |"b"| == 1;
  }

  lemma FilesAreChosen()
    ensures ReleaseFiles(FILES, JOB, SbomPaths(["m"])).Ok?
  {
    ArtifactsArePresent();
    Kinds();
    assert FileName(INSTALLER) == "a.exe" && FileName(SIGNATURE) == "a.sig";
  }

  lemma SbomShape(p: Path)
    requires p in SbomPaths(["m"])
    ensures p in FILES && p != PACKAGE
  {
    var i :| 0 <= i < 3 && SbomPaths(["m"])[i] == p;
    assert p == ["m", SBOM_NAMES[i]] && |p| == 2 && |PACKAGE| == 1;
  }

  lemma ChosenAreNameable()
    ensures ReleaseFiles(FILES, JOB, SbomPaths(["m"])).Ok?
    ensures Nameable(FILES, [], ReleaseFiles(FILES, JOB, SbomPaths(["m"])).value)
  {
    FilesAreChosen();
    FilesArePlain();
    forall p | p in SbomPaths(["m"]) ensures p in FILES && p != PACKAGE { SbomShape(p); }
    ChosenAre(FILES, JOB, SbomPaths(["m"]));
    ArtifactsArePresent();
  }

  lemma ReleaseIsListed(once: Manifest, twice: Manifest)
    ensures WellFormed(FILES) && Listed(Formats(once, twice), FILES, JOB).Some?
  {
    FilesArePlain();
    SbomsArePresent(Formats(once, twice));
    ChosenAreNameable();
    assert [] + ["package.json"] == PACKAGE;
  }

  function Records(): seq<Record>
  {
    ChosenAreNameable();
    var paths := ReleaseFiles(FILES, JOB, SbomPaths(["m"])).value;
    seq(|paths|, i requires 0 <= i < |paths| => Record(RelativeName(paths[i], []).value, FILES[paths[i]], |FILES[paths[i]]|))
  }

  const ONCE := Manifest(SCHEMA, PRODUCT, "1", "", "", Records())

  lemma OnceIsGenerated(twice: Manifest)
    ensures Generated(Formats(ONCE, twice), FILES, JOB, ONCE)
  {
    var codec := Formats(ONCE, twice);
    ReleaseIsListed(ONCE, twice);
    var paths := Listed(codec, FILES, JOB).value;
    assert paths == ReleaseFiles(FILES, JOB, SbomPaths(["m"])).value;
    assert Records() == RecordsOf(codec, FILES, [], paths);
    assert [] + ["package.json"] == PACKAGE;
  }

  /** A tree whose manifest reads back and is accepted. */
  predicate VerifiedTree(codec: Codec, files: Files, m: Manifest)
  {
    ManifestAt(codec, files, ["m"] + [MANIFEST]) == Some(m) && Accepts(codec, files, [], ["m"], m)
  }

  lemma OnceVerifies(twice: Manifest)
    ensures VerifiedTree(Formats(ONCE, twice), Written(Formats(ONCE, twice), FILES, ["m"], ONCE), ONCE)
    ensures ONCE.artifacts != []
  {
    var codec := Formats(ONCE, twice);
    OnceIsGenerated(twice);
    RecordsAreComplete(codec, FILES, JOB, ONCE);
    FormatsReadBack(ONCE, twice);
    GeneratedIsAccepted(codec, FILES, JOB, ONCE);
    ManifestReadsBack(codec, FILES, ["m"], ONCE);
  }

  lemma TwiceVerifies(r: Record)
    requires r in ONCE.artifacts
    ensures var twice := WithSpelling(ONCE, r);
            && VerifiedTree(Formats(ONCE, twice), Written(Formats(ONCE, twice), FILES, ["m"], twice), twice)
            && EachFileOnce([], ONCE.artifacts) && !EachFileOnce([], twice.artifacts)
  {
    var twice := WithSpelling(ONCE, r);
    OnceIsGenerated(twice);
    FormatsReadBack(ONCE, twice);
    GeneratedCanBeRespelled(Formats(ONCE, twice), FILES, JOB, ONCE, r);
  }

  /** Two trees that `verify` accepts: in the second, the manifest lists a file twice. */
  lemma FileListedTwice() returns (codec: Codec, twice: Manifest, files: Files, files': Files)
    ensures VerifiedTree(codec, files, ONCE) && EachFileOnce([], ONCE.artifacts)
    ensures VerifiedTree(codec, files', twice) && !EachFileOnce([], twice.artifacts)
  {
    OnceVerifies(ONCE);
    twice := WithSpelling(ONCE, ONCE.artifacts[0]);
    codec := Formats(ONCE, twice);
    OnceVerifies(twice);
    TwiceVerifies(ONCE.artifacts[0]);
    files, files' := Written(codec, FILES, ["m"], ONCE), Written(codec, FILES, ["m"], twice);
  }
}
