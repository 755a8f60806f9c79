/** Release manifest: generating it, verifying it in the tree and verifying a download. */
module Release {
  import opened Wrappers
  import opened ReleaseNames
  import Ordering

  type Files = map<Path, string>

  datatype Record = Record(path: string, sha256: string, size: int)

  datatype Manifest = Manifest(schema: string, product: string, version: string,
                               source: string, generatedAt: string, artifacts: seq<Record>)

  /** The digest and the document formats, as functions of a file's contents. */
  datatype Codec = Codec(
    hash: string -> string, render: Manifest -> string, parse: string -> Option<Manifest>,
    version: string -> Option<string>, isSbom: string -> bool)

  /** The manifest's document reads back. */
  predicate ReadsBack(codec: Codec, m: Manifest) { codec.parse(codec.render(m)) == Some(m) }

  datatype Error =
    | MissingSboms | BadSbom | NoInstaller | NoSignature | NoPackage | OutsideRoot | LineBreak
    | Unreadable | Unsupported | WrongVersion | NoArtifacts | UnsafePath(name: string) | Missing(name: string)
    | IntegrityFailed(name: string) | SbomNotListed | ChecksumsDiffer | AmbiguousNames

  datatype Result<T> = Ok(value: T) | Err(error: Error)

  /** Where a generation works: the repository root, the build output, the directory written,
      and the files selected by name, if any. */
  datatype Job = Job(root: Path, artifactRoot: Path, metadata: Path, selected: Option<seq<Path>>)

  const SCHEMA := "https://sentinel.local/schemas/release-manifest/v1"
  const PRODUCT := "Sentinel"

  /** Plain names, and no file is a directory of another. */
  predicate WellFormed(files: Files)
  {
    && (forall p :: p in files ==> PlainPath(p))
    && forall p, q :: p in files && q in files && p <= q ==> p == q
  }

  // ---------------------------------------------------------------------- collecting

  function SbomPaths(metadata: Path): seq<Path> { seq(|SBOM_NAMES|, i requires 0 <= i < |SBOM_NAMES| => metadata + [SBOM_NAMES[i]]) }

  function SbomError(codec: Codec, files: Files, metadata: Path): Option<Error>
  {
    if exists p :: p in SbomPaths(metadata) && p !in files then Some(MissingSboms)
    else if exists p :: p in SbomPaths(metadata) && p in files && !codec.isSbom(files[p]) then Some(BadSbom)
    else None
  }

  function Artifacts(files: Files, job: Job): set<Path>
  {
    set p | p in files && IsArtifact(FileName(p))
            && (if job.selected.Some? then p in job.selected.value else job.artifactRoot < p)
  }

  /** The files in the order of their names. */
  function SortedPaths(paths: set<Path>): seq<Path>
  {
    var names := Ordering.SortedSet(set p | p in paths :: Posix(p));
    seq(|names|, i requires 0 <= i < |names| => Parts(names[i]))
  }

  function ReleaseFiles(files: Files, job: Job, sboms: seq<Path>): Result<seq<Path>>
  {
    var artifacts := Artifacts(files, job);
    if !exists p :: p in artifacts && IsInstaller(FileName(p)) then Err(NoInstaller)
    else if !exists p :: p in artifacts && IsSignature(FileName(p)) then Err(NoSignature)
    else Ok(SortedPaths(artifacts + set p | p in sboms))
  }

  predicate Ascending(paths: seq<Path>)
  {
    forall i, j :: 0 <= i < j < |paths| ==> paths[i] != paths[j] && Ordering.Leq(Posix(paths[i]), Posix(paths[j]))
  }

  lemma SortedPathsAre(paths: set<Path>)
    requires forall p :: p in paths ==> PlainPath(p)
    ensures forall p :: p in SortedPaths(paths) <==> p in paths
    ensures Ascending(SortedPaths(paths))
  {
    var nameSet := set p | p in paths :: Posix(p);
    var names := Ordering.SortedSet(nameSet);
    forall i | 0 <= i < |names| ensures SortedPaths(paths)[i] in paths && Posix(SortedPaths(paths)[i]) == names[i] {
      assert names[i] in nameSet;
      var p :| p in paths && Posix(p) == names[i];
      PartsOfPosix(p);
    }
    forall p | p in paths ensures p in SortedPaths(paths) {
      assert Posix(p) in nameSet;
      var i :| 0 <= i < |names| && names[i] == Posix(p);
      PartsOfPosix(p);
      assert SortedPaths(paths)[i] == p;
    }
  }

  // ---------------------------------------------------------------------- generating

  function RelativeName(path: Path, root: Path): Result<string>
  {
    if !(root <= path) then Err(OutsideRoot)
    else
      var name := if path == root then "." else Posix(path[|root|..]);
      if '\n' in name || '\r' in name then Err(LineBreak) else Ok(name)
  }

  function RecordOf(codec: Codec, files: Files, root: Path, path: Path): Record
    requires path in files && RelativeName(path, root).Ok?
  {
    Record(RelativeName(path, root).value, codec.hash(files[path]), |files[path]|)
  }

  predicate Nameable(files: Files, root: Path, paths: seq<Path>)
  {
    forall p :: p in paths ==> p in files && RelativeName(p, root).Ok?
  }

  function RecordsOf(codec: Codec, files: Files, root: Path, paths: seq<Path>): seq<Record>
    requires Nameable(files, root, paths)
  {
    seq(|paths|, i requires 0 <= i < |paths| => RecordOf(codec, files, root, paths[i]))
  }

  function Line(r: Record): string { r.sha256 + "  " + r.path + "\n" }

  /** The text of SHA256SUMS. */
  function Checksums(records: seq<Record>): string
  {
    if records == [] then "" else Checksums(records[..|records| - 1]) + Line(records[|records| - 1])
  }

  function PackageVersion(codec: Codec, files: Files, root: Path): Option<string>
  {
    if root + ["package.json"] in files then codec.version(files[root + ["package.json"]]) else None
  }

  /** What a generation lists, or None when it raises. */
  function Listed(codec: Codec, files: Files, job: Job): Option<seq<Path>>
  {
    if SbomError(codec, files, job.metadata).Some? then None
    else
      var chosen := ReleaseFiles(files, job, SbomPaths(job.metadata));
      if chosen.Ok? && PackageVersion(codec, files, job.root).Some? && Nameable(files, job.root, chosen.value)
      then Some(chosen.value) else None
  }

  predicate IsManifestOf(codec: Codec, files: Files, root: Path, paths: seq<Path>, m: Manifest)
  {
    && m.schema == SCHEMA && m.product == PRODUCT && PackageVersion(codec, files, root) == Some(m.version)
    && Nameable(files, root, paths) && m.artifacts == RecordsOf(codec, files, root, paths)
  }

  function Written(codec: Codec, files: Files, metadata: Path, m: Manifest): Files
  {
    files[metadata + [MANIFEST] := codec.render(m)][metadata + [CHECKSUMS] := Checksums(m.artifacts)]
  }

  // ----------------------------------------------------------------------- verifying

  predicate Supported(m: Manifest) { m.schema == SCHEMA && m.product == PRODUCT }

  predicate Unsafe(name: string) { name == "" || name[0] == '/' || ".." in Parts(name) }

  function Names(records: seq<Record>): (r: set<string>)
    ensures forall n :: n in r <==> exists i :: 0 <= i < |records| && records[i].path == n
  {
    set i | 0 <= i < |records| :: records[i].path
  }

  predicate SbomsListed(names: set<string>)
  {
    forall s :: s in SBOM_NAMES ==> exists n :: n in names && FileName(Parts(n)) == s
  }

  predicate InstallerListed(names: set<string>) { exists n :: n in names && IsInstaller(FileName(Parts(n))) }

  predicate SignatureListed(names: set<string>) { exists n :: n in names && IsSignature(FileName(Parts(n))) }

  predicate Complete(names: set<string>) { SbomsListed(names) && InstallerListed(names) && SignatureListed(names) }

  predicate Matches(codec: Codec, content: string, r: Record) { |content| == r.size && codec.hash(content) == r.sha256 }

  /** What is wrong with record i, given the ones before it. */
  function RecordError(codec: Codec, files: Files, root: Path, records: seq<Record>, i: nat): Option<Error>
    requires i < |records|
  {
    var r := records[i];
    if r.path in Names(records[..i]) || Unsafe(r.path) then Some(UnsafePath(r.path))
    else if root + Parts(r.path) !in files then Some(Missing(r.path))
    else if !Matches(codec, files[root + Parts(r.path)], r) then Some(IntegrityFailed(r.path))
    else None
  }

  predicate RecordsAccepted(codec: Codec, files: Files, root: Path, records: seq<Record>, count: nat)
    requires count <= |records|
  {
    forall i :: 0 <= i < count ==> RecordError(codec, files, root, records, i) == None
  }

  /** The error of the first record that has one. */
  ghost predicate FirstFault(codec: Codec, files: Files, root: Path, records: seq<Record>, e: Error)
  {
    exists i :: 0 <= i < |records| && RecordsAccepted(codec, files, root, records, i)
             && RecordError(codec, files, root, records, i) == Some(e)
  }

  predicate Current(codec: Codec, files: Files, root: Path, m: Manifest)
  {
    Supported(m) && PackageVersion(codec, files, root) == Some(m.version) && m.artifacts != []
  }

  predicate ChecksumsAgree(files: Files, directory: Path, records: seq<Record>)
  {
    directory + [CHECKSUMS] in files && files[directory + [CHECKSUMS]] == Checksums(records)
  }

  function Parent(path: Path): Path { if path == [] then [] else path[..|path| - 1] }

  predicate Accepts(codec: Codec, files: Files, root: Path, directory: Path, m: Manifest)
  {
    && Current(codec, files, root, m)
    && RecordsAccepted(codec, files, root, m.artifacts, |m.artifacts|)
    && Complete(Names(m.artifacts)) && ChecksumsAgree(files, directory, m.artifacts)
  }

  function ManifestAt(codec: Codec, files: Files, path: Path): Option<Manifest>
  {
    if path in files then codec.parse(files[path]) else None
  }

  predicate DistinctNames(names: seq<string>) { forall i, j :: 0 <= i < j < |names| ==> names[i] != names[j] }

  function BaseNames(records: seq<Record>): seq<string>
  {
    seq(|records|, i requires 0 <= i < |records| => FileName(Parts(records[i].path)))
  }

  function AssetError(codec: Codec, files: Files, assets: Path, r: Record): Option<Error>
  {
    var name := FileName(Parts(r.path));
    if assets + [name] !in files then Some(Missing(name))
    else if !Matches(codec, files[assets + [name]], r) then Some(IntegrityFailed(name))
    else None
  }

  predicate AssetsAccepted(codec: Codec, files: Files, assets: Path, records: seq<Record>, count: nat)
    requires count <= |records|
  {
    forall i :: 0 <= i < count ==> AssetError(codec, files, assets, records[i]) == None
  }

  predicate AllSafe(records: seq<Record>) { forall r :: r in records ==> !Unsafe(r.path) }

  predicate UsableBaseNames(records: seq<Record>) { "" !in BaseNames(records) && DistinctNames(BaseNames(records)) }

  predicate AcceptsDownload(codec: Codec, files: Files, assets: Path, m: Manifest)
  {
    && Supported(m) && m.artifacts != [] && AllSafe(m.artifacts)
    && Complete(Names(m.artifacts)) && UsableBaseNames(m.artifacts)
    && AssetsAccepted(codec, files, assets, m.artifacts, |m.artifacts|)
    && ChecksumsAgree(files, assets, m.artifacts)
  }

  // ----------------------------------------------------------------------- the tool

  class ReleaseTree {
    const codec: Codec
    var files: Files

    constructor (codec: Codec, files: Files)
      ensures this.codec == codec && this.files == files
    {
      this.codec := codec;
      this.files := files;
    }

    method ValidateSboms(metadata: Path) returns (r: Result<seq<Path>>)
      ensures r == match SbomError(codec, files, metadata) case Some(e) => Err(e) case None => Ok(SbomPaths(metadata))
    {
      var paths := SbomPaths(metadata);
      if exists p :: p in paths && p !in files {
        return Err(MissingSboms);
      }
      for i := 0 to |paths|
        invariant forall j :: 0 <= j < i ==> codec.isSbom(files[paths[j]])
      {
        if !codec.isSbom(files[paths[i]]) {
          return Err(BadSbom);
        }
      }
      r := Ok(paths);
    }

    /** Writes the manifest and the checksums, or raises and leaves every file alone. */
    method Generate(job: Job, source: string, generatedAt: string) returns (r: Result<Path>)
      requires WellFormed(files)
      modifies this
      ensures r.Ok? <==> Listed(codec, old(files), job).Some?
      ensures r.Err? ==> files == old(files)
      ensures r.Ok? ==> r.value == job.metadata + [MANIFEST] && exists m ::
                && IsManifestOf(codec, old(files), job.root, Listed(codec, old(files), job).value, m)
                && m.source == source && m.generatedAt == generatedAt && files == Written(codec, old(files), job.metadata, m)
    {
      var sboms := ValidateSboms(job.metadata);
      if sboms.Err? {
        return Err(sboms.error);
      }
      var chosen := ReleaseFiles(files, job, sboms.value);
      if chosen.Err? {
        return Err(chosen.error);
      }
      var version := PackageVersion(codec, files, job.root);
      if version.None? {
        return Err(NoPackage);
      }
      ChosenAre(files, job, sboms.value);
      var records := RecordAll(job.root, chosen.value);
      if records.Err? {
        return Err(records.error);
      }
      var m := Manifest(SCHEMA, PRODUCT, version.value, source, generatedAt, records.value);
      assert IsManifestOf(codec, old(files), job.root, chosen.value, m);
      files := files[job.metadata + [MANIFEST] := codec.render(m)];
      files := files[job.metadata + [CHECKSUMS] := Checksums(records.value)];
      r := Ok(job.metadata + [MANIFEST]);
    }

    method RecordAll(root: Path, paths: seq<Path>) returns (r: Result<seq<Record>>)
      requires forall p :: p in paths ==> p in files
      ensures r.Ok? <==> Nameable(files, root, paths)
      ensures r.Ok? ==> r.value == RecordsOf(codec, files, root, paths)
    {
      var records := [];
      for i := 0 to |paths|
        invariant Nameable(files, root, paths[..i]) && records == RecordsOf(codec, files, root, paths[..i])
      {
        var name := RelativeName(paths[i], root);
        if name.Err? {
          return Err(name.error);
        }
        records := records + [Record(name.value, codec.hash(files[paths[i]]), |files[paths[i]]|)];
        assert paths[..i + 1] == paths[..i] + [paths[i]];
      }
      assert paths[..|paths|] == paths;
      r := Ok(records);
    }

    method CheckRecords(root: Path, records: seq<Record>) returns (r: Result<set<string>>)
      ensures r.Ok? ==> r.value == Names(records) && RecordsAccepted(codec, files, root, records, |records|)
      ensures r.Err? ==> FirstFault(codec, files, root, records, r.error)
    {
      var seen: set<string> := {};
      for i := 0 to |records|
        invariant seen == Names(records[..i]) && RecordsAccepted(codec, files, root, records, i)
      {
        var record := records[i];
        if record.path in seen || Unsafe(record.path) {
          return Err(UnsafePath(record.path));
        }
        seen := seen + {record.path};
        NamesGrow(records, i);
        var location := root + Parts(record.path);
        if location !in files {
          return Err(Missing(record.path));
        }
        if |files[location]| != record.size || codec.hash(files[location]) != record.sha256 {
          return Err(IntegrityFailed(record.path));
        }
      }
      assert records[..|records|] == records;
      r := Ok(seen);
    }

    method CheckComplete(names: set<string>) returns (r: Result<()>)
      ensures r.Ok? <==> Complete(names)
    {
      if !SbomsListed(names) {
        return Err(SbomNotListed);
      }
      if !InstallerListed(names) {
        return Err(NoInstaller);
      }
      if !SignatureListed(names) {
        return Err(NoSignature);
      }
      r := Ok(());
    }

    method Verify(root: Path, path: Path) returns (r: Result<()>)
      ensures var found := ManifestAt(codec, files, path);
              r.Ok? <==> found.Some? && Accepts(codec, files, root, Parent(path), found.value)
      ensures var found := ManifestAt(codec, files, path);
              found.Some? && Current(codec, files, root, found.value)
              && !RecordsAccepted(codec, files, root, found.value.artifacts, |found.value.artifacts|) ==>
                r.Err? && FirstFault(codec, files, root, found.value.artifacts, r.error)
    {
      var manifest := ManifestAt(codec, files, path);
      if manifest.None? {
        return Err(Unreadable);
      }
      var m := manifest.value;
      if !Supported(m) {
        return Err(Unsupported);
      }
      var version := PackageVersion(codec, files, root);
      if version.None? {
        return Err(NoPackage);
      }
      if m.version != version.value {
        return Err(WrongVersion);
      }
      if m.artifacts == [] {
        return Err(NoArtifacts);
      }
      var seen := CheckRecords(root, m.artifacts);
      if seen.Err? {
        FaultIsNotAccepted(codec, files, root, m.artifacts, seen.error);
        return Err(seen.error);
      }
      var complete := CheckComplete(seen.value);
      if complete.Err? {
        return Err(complete.error);
      }
      if Parent(path) + [CHECKSUMS] !in files {
        return Err(Unreadable);
      }
      if files[Parent(path) + [CHECKSUMS]] != Checksums(m.artifacts) {
        return Err(ChecksumsDiffer);
      }
      r := Ok(());
    }

    method CheckAssets(assets: Path, records: seq<Record>) returns (r: Result<()>)
      ensures r.Ok? <==> AssetsAccepted(codec, files, assets, records, |records|)
    {
      for i := 0 to |records|
        invariant AssetsAccepted(codec, files, assets, records, i)
      {
        var problem := AssetError(codec, files, assets, records[i]);
        if problem.Some? {
          return Err(problem.value);
        }
      }
      r := Ok(());
    }

    method VerifyDownloaded(path: Path, assets: Path) returns (r: Result<()>)
      ensures var found := ManifestAt(codec, files, path);
              r.Ok? <==> found.Some? && AcceptsDownload(codec, files, assets, found.value)
    {
      var manifest := ManifestAt(codec, files, path);
      if manifest.None? {
        return Err(Unreadable);
      }
      var records := manifest.value.artifacts;
      if !Supported(manifest.value) {
        return Err(Unsupported);
      }
      if records == [] {
        return Err(NoArtifacts);
      }
      if !AllSafe(records) {
        return Err(UnsafePath(""));
      }
      var complete := CheckComplete(Names(records));
      if complete.Err? {
        return Err(complete.error);
      }
      if !UsableBaseNames(records) {
        return Err(AmbiguousNames);
      }
      var checked := CheckAssets(assets, records);
      if checked.Err? {
        return checked;
      }
      if !ChecksumsAgree(files, assets, records) {
        return Err(ChecksumsDiffer);
      }
      r := Ok(());
    }
  }

  lemma FaultIsNotAccepted(codec: Codec, files: Files, root: Path, records: seq<Record>, e: Error)
    requires FirstFault(codec, files, root, records, e)
    ensures !RecordsAccepted(codec, files, root, records, |records|)
  {
  }

  lemma NamesGrow(records: seq<Record>, i: nat)
    requires i < |records|
    ensures Names(records[..i + 1]) == Names(records[..i]) + {records[i].path}
  {
    assert records[..i + 1] == records[..i] + [records[i]];
    forall n | n in Names(records[..i]) + {records[i].path} ensures n in Names(records[..i + 1]) {
      if n == records[i].path {
        assert records[..i + 1][i].path == n;
      } else {
        var j :| 0 <= j < i && records[..i][j].path == n;
        assert records[..i + 1][j].path == n;
      }
    }
  }

  /** The chosen files: each SBOM and artifact once, in the order of their names. */
  lemma ChosenAre(files: Files, job: Job, sboms: seq<Path>)
    requires WellFormed(files) && forall p :: p in sboms ==> p in files
    ensures var r := ReleaseFiles(files, job, sboms);
            r.Ok? ==> (forall p :: p in r.value <==> p in Artifacts(files, job) || p in sboms)
                      && Ascending(r.value)
  {
    SortedPathsAre(Artifacts(files, job) + set p | p in sboms);
  }
}
