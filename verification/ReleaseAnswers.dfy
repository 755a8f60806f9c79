/** When a release is generated and accepted, in terms of files, names and bytes alone. */
module ReleaseAnswers {
  import opened Wrappers
  import opened ReleaseNames
  import opened Release
  import opened ReleaseTheorems

  // ----------------------------------------------------------------- kinds of file

  /** In any case, the name ends in the extension and has something before it. */
  predicate HasExtension(name: string, extension: string)
  {
    |name| > |extension| && Lower(name[|name| - |extension|..]) == extension
  }

  lemma DotIsLast(stem: string, extension: string)
    requires extension != [] && extension[0] == '.' && '.' !in extension[1..]
    ensures LastDot(stem + extension) == |stem|
  {
    assert stem + extension == stem + "." + extension[1..];
    LastDotOf(stem, extension[1..]);
  }

  lemma SuffixIff(name: string, extension: string)
    requires |extension| >= 2 && extension[0] == '.' && '.' !in extension[1..]
    ensures Lower(Suffix(name)) == extension <==> HasExtension(name, extension)
  {
    if HasExtension(name, extension) {
      var stem, tail := name[..|name| - |extension|], name[|name| - |extension|..];
      assert name == stem + tail;
      assert LowerChar(tail[0]) == '.' && forall i :: 0 <= i < |tail| ==> LowerChar(tail[i]) == extension[i];
      assert forall c :: c in tail[1..] ==> c != '.' by {
        forall i | 1 <= i < |tail| ensures tail[i] != '.' { assert extension[i] in extension[1..]; }
      }
      DotIsLast(stem, tail);
    }
  }

  lemma InstallerIff(name: string)
    ensures IsInstaller(name) <==> HasExtension(name, ".exe") || HasExtension(name, ".msi")
  {
    SuffixIff(name, ".exe");
    SuffixIff(name, ".msi");
  }

  lemma SignatureIff(name: string)
    ensures IsSignature(name) <==> HasExtension(name, ".sig")
  {
    SuffixIff(name, ".sig");
  }

  /** Installers, signatures, the update file and archives are artifacts; nothing else is. */
  lemma ArtifactIff(name: string)
    ensures IsArtifact(name)
            <==> HasExtension(name, ".exe") || HasExtension(name, ".msi") || HasExtension(name, ".sig")
                 || name == "update.json" || EndsWith(Lower(name), ".zip") || EndsWith(Lower(name), ".tar.gz")
  {
    InstallerIff(name);
    SignatureIff(name);
  }

  // -------------------------------------------------------------------- acceptance

  /** A relative name that never goes up. */
  predicate StaysInside(name: string) { name != "" && name[0] != '/' && ".." !in Parts(name) }

  predicate HasBytes(codec: Codec, files: Files, path: Path, r: Record)
  {
    path in files && |files[path]| == r.size && codec.hash(files[path]) == r.sha256
  }

  /** Some record lists a file of that name. */
  predicate ListsFile(records: seq<Record>, name: string) { exists r :: r in records && FileName(Parts(r.path)) == name }

  predicate ListsKind(records: seq<Record>, extension: string)
  {
    exists r :: r in records && HasExtension(FileName(Parts(r.path)), extension)
  }

  predicate ListsEverything(records: seq<Record>)
  {
    && ListsFile(records, "sbom-npm.cdx.json")
    && ListsFile(records, "sbom-python.cdx.json")
    && ListsFile(records, "sbom-rust.cdx.json")
    && (ListsKind(records, ".exe") || ListsKind(records, ".msi"))
    && ListsKind(records, ".sig")
  }

  lemma NameListed(records: seq<Record>, n: string)
    ensures n in Names(records) <==> exists r :: r in records && r.path == n
  {
    if r :| r in records && r.path == n {
      var i :| 0 <= i < |records| && records[i] == r;
      assert records[i].path == n;
    }
  }

  lemma FileListed(records: seq<Record>, name: string)
    ensures ListsFile(records, name) <==> exists n :: n in Names(records) && FileName(Parts(n)) == name
  {
    if n :| n in Names(records) && FileName(Parts(n)) == name { NameListed(records, n); }
    if r :| r in records && FileName(Parts(r.path)) == name { NameListed(records, r.path); }
  }

  lemma KindListed(records: seq<Record>, extension: string)
    ensures ListsKind(records, extension) <==> exists n :: n in Names(records) && HasExtension(FileName(Parts(n)), extension)
  {
    if n :| n in Names(records) && HasExtension(FileName(Parts(n)), extension) { NameListed(records, n); }
    if r :| r in records && HasExtension(FileName(Parts(r.path)), extension) { NameListed(records, r.path); }
  }

  lemma SbomNamesAre(s: string)
    ensures s in SBOM_NAMES <==> s == "sbom-npm.cdx.json" || s == "sbom-python.cdx.json" || s == "sbom-rust.cdx.json"
  {
    assert SBOM_NAMES[0] == "sbom-npm.cdx.json" && SBOM_NAMES[1] == "sbom-python.cdx.json" && SBOM_NAMES[2] == "sbom-rust.cdx.json";
  }

  lemma SbomsListedIff(records: seq<Record>)
    ensures SbomsListed(Names(records))
            <==> ListsFile(records, "sbom-npm.cdx.json") && ListsFile(records, "sbom-python.cdx.json")
                 && ListsFile(records, "sbom-rust.cdx.json")
  {
    assert SBOM_NAMES == ["sbom-npm.cdx.json"] + ["sbom-python.cdx.json"] + ["sbom-rust.cdx.json"];
    SbomNamesAre("sbom-npm.cdx.json");
    SbomNamesAre("sbom-python.cdx.json");
    SbomNamesAre("sbom-rust.cdx.json");
    forall s | s in SBOM_NAMES
      ensures s == "sbom-npm.cdx.json" || s == "sbom-python.cdx.json" || s == "sbom-rust.cdx.json"
      ensures ListsFile(records, s) <==> exists n :: n in Names(records) && FileName(Parts(n)) == s
    {
      SbomNamesAre(s);
      FileListed(records, s);
    }
  }

  lemma InstallerListedIff(records: seq<Record>)
    ensures InstallerListed(Names(records)) <==> ListsKind(records, ".exe") || ListsKind(records, ".msi")
  {
    KindListed(records, ".exe");
    KindListed(records, ".msi");
    forall n: string ensures IsInstaller(FileName(Parts(n))) <==> HasExtension(FileName(Parts(n)), ".exe") || HasExtension(FileName(Parts(n)), ".msi") {
      InstallerIff(FileName(Parts(n)));
    }
  }

  lemma SignatureListedIff(records: seq<Record>)
    ensures SignatureListed(Names(records)) <==> ListsKind(records, ".sig")
  {
    KindListed(records, ".sig");
    forall n: string ensures IsSignature(FileName(Parts(n))) <==> HasExtension(FileName(Parts(n)), ".sig") {
      SignatureIff(FileName(Parts(n)));
    }
  }

  lemma CompleteIff(records: seq<Record>)
    ensures Complete(Names(records)) <==> ListsEverything(records)
  {
    SbomsListedIff(records);
    InstallerListedIff(records);
    SignatureListedIff(records);
  }

  lemma SafeIff(records: seq<Record>)
    ensures AllSafe(records) <==> forall r :: r in records ==> StaysInside(r.path)
  {
  }

  lemma DistinctIff(records: seq<Record>)
    ensures DistinctNames(PathsOf(records)) <==> forall i, j :: 0 <= i < j < |records| ==> records[i].path != records[j].path
  {
    if DistinctNames(PathsOf(records)) {
      forall i, j | 0 <= i < j < |records| ensures records[i].path != records[j].path {
        assert PathsOf(records)[i] != PathsOf(records)[j];
      }
    }
  }

  /** One line per record: digest, two blanks, name, newline. */
  predicate ListsLines(text: string, records: seq<Record>)
  {
    if records == [] then text == ""
    else
      var line := records[0].sha256 + "  " + records[0].path + "\n";
      line <= text && ListsLines(text[|line|..], records[1..])
  }

  lemma {:induction false} OneMoreChecksum(records: seq<Record>, r: Record)
    ensures Checksums(records + [r]) == Checksums(records) + Line(r)
  {
    assert (records + [r])[..|records|] == records;
  }

  lemma {:induction false} ChecksumsHead(records: seq<Record>)
    requires records != []
    ensures Checksums(records) == Line(records[0]) + Checksums(records[1..])
  {
    var tail := records[1..];
    if tail == [] {
      assert records == [] + [records[0]];
      OneMoreChecksum([], records[0]);
    } else {
      var front, last := records[..|records| - 1], records[|records| - 1];
      ChecksumsHead(front);
      assert tail == front[1..] + [last] && records == front + [last];
      OneMoreChecksum(front, last);
      OneMoreChecksum(front[1..], last);
    }
  }

  lemma LineFirst(text: string, line: string, rest: string)
    ensures text == line + rest <==> line <= text && text[|line|..] == rest
  {
  }

  lemma {:induction false} ListsLinesIff(text: string, records: seq<Record>)
    ensures ListsLines(text, records) <==> text == Checksums(records)
    decreases |records|
  {
    if records != [] {
      var line := records[0].sha256 + "  " + records[0].path + "\n";
      ChecksumsHead(records);
      LineFirst(text, line, Checksums(records[1..]));
      if line <= text { ListsLinesIff(text[|line|..], records[1..]); }
    }
  }

  predicate SumsAgree(files: Files, path: Path, records: seq<Record>)
  {
    path in files && ListsLines(files[path], records)
  }

  /** The package states the version. */
  predicate StatesVersion(codec: Codec, files: Files, root: Path, version: string)
  {
    root + ["package.json"] in files && codec.version(files[root + ["package.json"]]) == Some(version)
  }

  lemma CurrentIff(codec: Codec, files: Files, root: Path, m: Manifest)
    ensures Current(codec, files, root, m)
            <==> m.schema == "https://sentinel.local/schemas/release-manifest/v1" && m.product == "Sentinel"
                 && StatesVersion(codec, files, root, m.version) && m.artifacts != []
  {
  }

  lemma SumsAgreeIff(files: Files, directory: Path, records: seq<Record>)
    ensures ChecksumsAgree(files, directory, records) <==> SumsAgree(files, directory + ["SHA256SUMS"], records)
  {
    var path := directory + ["SHA256SUMS"];
    if path in files { ListsLinesIff(files[path], records); }
  }

  /** A manifest is accepted in the tree exactly if it is one of this product, states the
      package's version, lists distinct relative names of files with the recorded size and
      digest, among them the three SBOMs, an installer and a signature, and SHA256SUMS beside
      it holds the line of each record. */
  lemma AcceptsExactly(codec: Codec, files: Files, root: Path, directory: Path, m: Manifest)
    ensures Accepts(codec, files, root, directory, m) <==>
              && m.schema == "https://sentinel.local/schemas/release-manifest/v1" && m.product == "Sentinel"
              && StatesVersion(codec, files, root, m.version) && m.artifacts != []
              && (forall i, j :: 0 <= i < j < |m.artifacts| ==> m.artifacts[i].path != m.artifacts[j].path)
              && (forall r :: r in m.artifacts ==> StaysInside(r.path) && HasBytes(codec, files, root + Parts(r.path), r))
              && ListsEverything(m.artifacts) && SumsAgree(files, directory + ["SHA256SUMS"], m.artifacts)
  {
    AcceptsIff(codec, files, root, directory, m);
    CurrentIff(codec, files, root, m);
    DistinctIff(m.artifacts);
    SafeIff(m.artifacts);
    LocatedIff(codec, files, root, m.artifacts);
    CompleteIff(m.artifacts);
    SumsAgreeIff(files, directory, m.artifacts);
  }

  lemma LocatedIff(codec: Codec, files: Files, root: Path, records: seq<Record>)
    ensures AllLocated(codec, files, root, records)
            <==> forall r :: r in records ==> HasBytes(codec, files, root + Parts(r.path), r)
  {
    if AllLocated(codec, files, root, records) {
      forall r | r in records ensures HasBytes(codec, files, root + Parts(r.path), r) { assert Located(codec, files, root, r); }
    }
    if forall r :: r in records ==> HasBytes(codec, files, root + Parts(r.path), r) {
      forall r | r in records ensures Located(codec, files, root, r) { assert HasBytes(codec, files, root + Parts(r.path), r); }
    }
  }

  /** A download is accepted exactly if its manifest is one of this product and lists relative
      names, the three SBOMs, an installer and a signature, under file names that are present
      and distinct, each asset of that file name has the recorded size and digest, and
      SHA256SUMS holds the line of each record. */
  lemma AcceptsDownloadExactly(codec: Codec, files: Files, assets: Path, m: Manifest)
    ensures AcceptsDownload(codec, files, assets, m) <==>
              && m.schema == "https://sentinel.local/schemas/release-manifest/v1" && m.product == "Sentinel" && m.artifacts != []
              && (forall r :: r in m.artifacts ==>
                    StaysInside(r.path) && FileName(Parts(r.path)) != ""
                    && HasBytes(codec, files, assets + [FileName(Parts(r.path))], r))
              && (forall i, j :: 0 <= i < j < |m.artifacts| ==>
                    FileName(Parts(m.artifacts[i].path)) != FileName(Parts(m.artifacts[j].path)))
              && ListsEverything(m.artifacts) && SumsAgree(files, assets + ["SHA256SUMS"], m.artifacts)
  {
    var records := m.artifacts;
    SafeIff(records);
    CompleteIff(records);
    SumsAgreeIff(files, assets, records);
    UsableIff(records);
    AssetsIff(codec, files, assets, records);
  }

  lemma UsableIff(records: seq<Record>)
    ensures UsableBaseNames(records) <==>
              && (forall r :: r in records ==> FileName(Parts(r.path)) != "")
              && forall i, j :: 0 <= i < j < |records| ==> FileName(Parts(records[i].path)) != FileName(Parts(records[j].path))
  {
    var names := BaseNames(records);
    if UsableBaseNames(records) {
      forall r | r in records ensures FileName(Parts(r.path)) != "" {
        var i :| 0 <= i < |records| && records[i] == r;
        assert names[i] in names;
      }
      forall i, j | 0 <= i < j < |records| ensures FileName(Parts(records[i].path)) != FileName(Parts(records[j].path)) {
        assert names[i] != names[j];
      }
    }
  }

  lemma AssetsIff(codec: Codec, files: Files, assets: Path, records: seq<Record>)
    ensures AssetsAccepted(codec, files, assets, records, |records|)
            <==> forall r :: r in records ==> HasBytes(codec, files, assets + [FileName(Parts(r.path))], r)
  {
    forall r ensures AssetError(codec, files, assets, r).None? <==> HasBytes(codec, files, assets + [FileName(Parts(r.path))], r) {}
    if AssetsAccepted(codec, files, assets, records, |records|) {
      forall r | r in records ensures HasBytes(codec, files, assets + [FileName(Parts(r.path))], r) {
        var i :| 0 <= i < |records| && records[i] == r;
        assert AssetError(codec, files, assets, records[i]) == None;
      }
    }
  }

  // -------------------------------------------------------------------- generation

  /** A build product: named like one, and selected or, without a selection, below the
      build output. */
  predicate IsProduct(files: Files, job: Job, p: Path)
  {
    && p in files && IsArtifact(FileName(p))
    && (job.selected.Some? ==> p in job.selected.value)
    && (job.selected.None? ==> job.artifactRoot < p)
  }

  predicate IsSbomPath(metadata: Path, p: Path)
  {
    || p == metadata + ["sbom-npm.cdx.json"]
    || p == metadata + ["sbom-python.cdx.json"]
    || p == metadata + ["sbom-rust.cdx.json"]
  }

  lemma SbomPathIff(metadata: Path, p: Path)
    ensures p in SbomPaths(metadata) <==> IsSbomPath(metadata, p)
  {
    var paths := SbomPaths(metadata);
    assert |paths| == 3 && paths[0] == metadata + [SBOM_NAMES[0]] && paths[1] == metadata + [SBOM_NAMES[1]]
           && paths[2] == metadata + [SBOM_NAMES[2]];
    assert paths == [paths[0], paths[1], paths[2]];
  }

  predicate HasKind(files: Files, job: Job, extension: string)
  {
    exists p :: p in files && IsProduct(files, job, p) && HasExtension(FileName(p), extension)
  }

  /** The path lies at or below the root and its name has no line break. */
  predicate Writable(root: Path, p: Path)
  {
    root <= p && (p != root ==> '\n' !in Posix(p[|root|..]) && '\r' !in Posix(p[|root|..]))
  }

  lemma WritableIff(root: Path, p: Path)
    ensures RelativeName(p, root).Ok? <==> Writable(root, p)
  {
  }

  lemma ProductIff(files: Files, job: Job, p: Path)
    ensures p in Artifacts(files, job) <==> IsProduct(files, job, p)
  {
  }

  lemma InstallersIff(files: Files, job: Job)
    ensures (exists p :: p in Artifacts(files, job) && IsInstaller(FileName(p)))
            <==> HasKind(files, job, ".exe") || HasKind(files, job, ".msi")
  {
    forall p: Path ensures IsInstaller(FileName(p)) <==> HasExtension(FileName(p), ".exe") || HasExtension(FileName(p), ".msi") {
      InstallerIff(FileName(p));
    }
  }

  lemma SignaturesIff(files: Files, job: Job)
    ensures (exists p :: p in Artifacts(files, job) && IsSignature(FileName(p))) <==> HasKind(files, job, ".sig")
  {
    forall p: Path ensures IsSignature(FileName(p)) <==> HasExtension(FileName(p), ".sig") { SignatureIff(FileName(p)); }
  }

  /** Everything a release lists can be written down relative to the root. */
  predicate AllWritable(files: Files, job: Job)
  {
    (forall p :: p in files && IsProduct(files, job, p) ==> Writable(job.root, p))
    && Writable(job.root, job.metadata + ["sbom-npm.cdx.json"])
    && Writable(job.root, job.metadata + ["sbom-python.cdx.json"])
    && Writable(job.root, job.metadata + ["sbom-rust.cdx.json"])
  }

  predicate IsSbom(codec: Codec, files: Files, p: Path) { p in files && codec.isSbom(files[p]) }

  lemma SbomsIff(codec: Codec, files: Files, metadata: Path)
    ensures SbomError(codec, files, metadata).None?
            <==> IsSbom(codec, files, metadata + ["sbom-npm.cdx.json"]) && IsSbom(codec, files, metadata + ["sbom-python.cdx.json"])
                 && IsSbom(codec, files, metadata + ["sbom-rust.cdx.json"])
  {
    SbomPathIff(metadata, metadata + ["sbom-npm.cdx.json"]);
    SbomPathIff(metadata, metadata + ["sbom-python.cdx.json"]);
    SbomPathIff(metadata, metadata + ["sbom-rust.cdx.json"]);
    forall p | p in SbomPaths(metadata) ensures IsSbomPath(metadata, p) { SbomPathIff(metadata, p); }
  }

  /** The three SBOMs are there and valid, and the build has an installer and a signature. */
  predicate Buildable(codec: Codec, files: Files, job: Job)
  {
    && IsSbom(codec, files, job.metadata + ["sbom-npm.cdx.json"])
    && IsSbom(codec, files, job.metadata + ["sbom-python.cdx.json"])
    && IsSbom(codec, files, job.metadata + ["sbom-rust.cdx.json"])
    && (HasKind(files, job, ".exe") || HasKind(files, job, ".msi")) && HasKind(files, job, ".sig")
  }

  lemma BuildableIff(codec: Codec, files: Files, job: Job)
    ensures Buildable(codec, files, job)
            <==> SbomError(codec, files, job.metadata).None? && ReleaseFiles(files, job, SbomPaths(job.metadata)).Ok?
  {
    SbomsIff(codec, files, job.metadata);
    InstallersIff(files, job);
    SignaturesIff(files, job);
  }

  lemma ChosenExactly(codec: Codec, files: Files, job: Job)
    requires WellFormed(files) && Buildable(codec, files, job)
    ensures var chosen := ReleaseFiles(files, job, SbomPaths(job.metadata));
            && chosen.Ok? && (Nameable(files, job.root, chosen.value) <==> AllWritable(files, job))
            && forall p :: p in chosen.value <==> IsSbomPath(job.metadata, p) || IsProduct(files, job, p)
  {
    BuildableIff(codec, files, job);
    SbomsExist(codec, files, job.metadata);
    ChosenAre(files, job, SbomPaths(job.metadata));
    var chosen := ReleaseFiles(files, job, SbomPaths(job.metadata)).value;
    forall p ensures p in chosen <==> IsSbomPath(job.metadata, p) || IsProduct(files, job, p) {
      SbomPathIff(job.metadata, p);
      ProductIff(files, job, p);
    }
    NameableIff(files, job, chosen);
  }

  /** A release is generated exactly if its three SBOMs are there and valid, the build has an
      installer and a signature, the package states a version, and every listed file can be
      named; it then lists exactly the SBOMs and the build products. */
  lemma GeneratesExactly(codec: Codec, files: Files, job: Job)
    requires WellFormed(files)
    ensures Listed(codec, files, job).Some? <==>
              Buildable(codec, files, job) && PackageVersion(codec, files, job.root).Some? && AllWritable(files, job)
    ensures Listed(codec, files, job).Some? ==>
              forall p :: p in Listed(codec, files, job).value <==> IsSbomPath(job.metadata, p) || IsProduct(files, job, p)
  {
    BuildableIff(codec, files, job);
    if Buildable(codec, files, job) { ChosenExactly(codec, files, job); }
  }

  /** The paths are the build products and the SBOMs. */
  ghost predicate AreListed(files: Files, job: Job, paths: seq<Path>)
  {
    forall p :: p in paths <==> IsProduct(files, job, p) || IsSbomPath(job.metadata, p)
  }

  lemma NameableIff(files: Files, job: Job, paths: seq<Path>)
    requires AreListed(files, job, paths) && forall p :: p in paths ==> p in files
    ensures Nameable(files, job.root, paths) <==> AllWritable(files, job)
  {
    if Nameable(files, job.root, paths) {
      forall p | p in paths ensures Writable(job.root, p) { WritableIff(job.root, p); }
      ListedAreWritable(files, job, paths);
    }
    if AllWritable(files, job) {
      forall p | p in paths ensures RelativeName(p, job.root).Ok? { WritableIff(job.root, p); }
    }
  }

  lemma ListedAreWritable(files: Files, job: Job, paths: seq<Path>)
    requires AreListed(files, job, paths) && forall p :: p in paths ==> Writable(job.root, p)
    ensures AllWritable(files, job)
  {
    assert job.metadata + ["sbom-npm.cdx.json"] in paths;
    assert job.metadata + ["sbom-python.cdx.json"] in paths;
    assert job.metadata + ["sbom-rust.cdx.json"] in paths;
  }
}
