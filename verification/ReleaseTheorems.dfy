/** What generated and verified release manifests guarantee. */
module ReleaseTheorems {
  import opened Wrappers
  import opened ReleaseNames
  import opened Release

  // -------------------------------------------------------- acceptance, record by record

  function PathsOf(records: seq<Record>): seq<string> { seq(|records|, i requires 0 <= i < |records| => records[i].path) }

  predicate Located(codec: Codec, files: Files, root: Path, r: Record)
  {
    root + Parts(r.path) in files && Matches(codec, files[root + Parts(r.path)], r)
  }

  predicate AllLocated(codec: Codec, files: Files, root: Path, records: seq<Record>)
  {
    forall r :: r in records ==> Located(codec, files, root, r)
  }

  lemma SeenBefore(records: seq<Record>, i: nat)
    requires i < |records|
    ensures records[i].path in Names(records[..i]) <==> exists j :: 0 <= j < i && PathsOf(records)[j] == PathsOf(records)[i]
  {
    var earlier := records[..i];
    if records[i].path in Names(earlier) {
      var j :| 0 <= j < |earlier| && earlier[j].path == records[i].path;
      assert PathsOf(records)[j] == PathsOf(records)[i];
    }
    if j :| 0 <= j < i && PathsOf(records)[j] == PathsOf(records)[i] { assert earlier[j].path == records[i].path; }
  }

  lemma RecordsAcceptedIff(codec: Codec, files: Files, root: Path, records: seq<Record>)
    ensures RecordsAccepted(codec, files, root, records, |records|) <==>
              DistinctNames(PathsOf(records)) && AllSafe(records) && AllLocated(codec, files, root, records)
  {
    forall i | 0 <= i < |records| ensures records[i].path in Names(records[..i])
                                    <==> exists j :: 0 <= j < i && PathsOf(records)[j] == PathsOf(records)[i] {
      SeenBefore(records, i);
    }
    if RecordsAccepted(codec, files, root, records, |records|) {
      forall r | r in records ensures !Unsafe(r.path) && Located(codec, files, root, r) {
        var i :| 0 <= i < |records| && records[i] == r;
        assert RecordError(codec, files, root, records, i) == None;
      }
      forall i, j | 0 <= i < j < |records| ensures PathsOf(records)[i] != PathsOf(records)[j] {
        assert RecordError(codec, files, root, records, j) == None;
      }
    } else {
      var i :| 0 <= i < |records| && RecordError(codec, files, root, records, i) != None;
      assert records[i] in records;
    }
  }

  /** An accepted manifest lists distinct, relative and present files of the recorded sizes
      and digests, every SBOM, an installer and a signature, and agrees with SHA256SUMS;
      nothing else is asked of the tree. */
  lemma AcceptsIff(codec: Codec, files: Files, root: Path, directory: Path, m: Manifest)
    ensures Accepts(codec, files, root, directory, m) <==>
              && Current(codec, files, root, m)
              && DistinctNames(PathsOf(m.artifacts)) && AllSafe(m.artifacts) && AllLocated(codec, files, root, m.artifacts)
              && Complete(Names(m.artifacts)) && ChecksumsAgree(files, directory, m.artifacts)
  {
    RecordsAcceptedIff(codec, files, root, m.artifacts);
  }

  /** The listed file is still there, with the size and the digest it had. */
  predicate Unchanged(codec: Codec, before: Files, after: Files, path: Path)
    requires path in before
  {
    path in after && |after[path]| == |before[path]| && codec.hash(after[path]) == codec.hash(before[path])
  }

  predicate ListedUnchanged(codec: Codec, before: Files, after: Files, root: Path, records: seq<Record>)
  {
    forall r :: r in records ==> root + Parts(r.path) in before && Unchanged(codec, before, after, root + Parts(r.path))
  }

  /** Once accepted, a manifest is accepted again exactly while every listed file keeps its
      size and digest, SHA256SUMS its text and package.json its version. */
  lemma TamperingIsCaught(codec: Codec, before: Files, after: Files, root: Path, directory: Path, m: Manifest)
    requires Accepts(codec, before, root, directory, m)
    ensures Accepts(codec, after, root, directory, m) <==>
              && ListedUnchanged(codec, before, after, root, m.artifacts)
              && PackageVersion(codec, after, root) == PackageVersion(codec, before, root)
              && directory + [CHECKSUMS] in after && after[directory + [CHECKSUMS]] == before[directory + [CHECKSUMS]]
  {
    AcceptsIff(codec, before, root, directory, m);
    AcceptsIff(codec, after, root, directory, m);
    forall r | r in m.artifacts
      ensures Located(codec, after, root, r) <==>
                root + Parts(r.path) in before && Unchanged(codec, before, after, root + Parts(r.path)) {
      assert Located(codec, before, root, r);
    }
  }

  // ------------------------------------------------------------------- the round trip

  lemma NameLocates(path: Path, root: Path)
    requires PlainPath(path) && root < path && RelativeName(path, root).Ok?
    ensures var name := RelativeName(path, root).value;
            root + Parts(name) == path && !Unsafe(name) && FileName(Parts(name)) == FileName(path)
  {
    var rest := path[|root|..];
    assert PlainPath(rest) && path == root + rest;
    PartsOfPosix(rest);
    assert !Plain("..");
  }

  lemma RootIsNoFile(codec: Codec, files: Files, root: Path)
    requires WellFormed(files) && PackageVersion(codec, files, root).Some?
    ensures root !in files
  {
    assert root <= root + ["package.json"];
  }

  lemma SbomsExist(codec: Codec, files: Files, metadata: Path)
    requires SbomError(codec, files, metadata).None?
    ensures forall p :: p in SbomPaths(metadata) ==> p in files
  {
  }

  /** The listed files: each SBOM and artifact once, in the order of their names. */
  lemma ListedIsSorted(codec: Codec, files: Files, job: Job)
    requires WellFormed(files) && Listed(codec, files, job).Some?
    ensures var paths := Listed(codec, files, job).value;
            && (forall p :: p in paths <==> p in SbomPaths(job.metadata) || p in Artifacts(files, job))
            && Ascending(paths) && Nameable(files, job.root, paths)
    ensures PackageVersion(codec, files, job.root).Some? && job.root !in files
  {
    SbomsExist(codec, files, job.metadata);
    ChosenAre(files, job, SbomPaths(job.metadata));
    RootIsNoFile(codec, files, job.root);
  }

  lemma SbomIsNamed(metadata: Path, p: Path)
    requires p in SbomPaths(metadata)
    ensures FileName(p) in SBOM_NAMES
  {
    var i :| 0 <= i < |SBOM_NAMES| && SbomPaths(metadata)[i] == p;
    assert FileName(p) == SBOM_NAMES[i];
  }

  /** What a generation lists: plain paths below the root, none of them one of its own files. */
  lemma ListedPaths(codec: Codec, files: Files, job: Job, p: Path)
    requires WellFormed(files) && Listed(codec, files, job).Some? && p in Listed(codec, files, job).value
    ensures p in files && PlainPath(p) && job.root < p && RelativeName(p, job.root).Ok?
    ensures FileName(p) in SBOM_NAMES || IsArtifact(FileName(p))
  {
    ListedIsSorted(codec, files, job);
    if p in SbomPaths(job.metadata) { SbomIsNamed(job.metadata, p); }
  }

  lemma NotOwnFile(p: Path, metadata: Path)
    requires FileName(p) in SBOM_NAMES || IsArtifact(FileName(p))
    ensures p != metadata + [MANIFEST] && p != metadata + [CHECKSUMS]
  {
    OwnFilesAreNotListed();
  }

  lemma PackageSurvives(codec: Codec, files: Files, root: Path, metadata: Path, m: Manifest)
    ensures PackageVersion(codec, Written(codec, files, metadata, m), root) == PackageVersion(codec, files, root)
  {
    assert |"package.json"| == 12 && |MANIFEST| == 21 && |CHECKSUMS| == 10;
    var p := root + ["package.json"];
    assert FileName(p) == "package.json";
    assert FileName(metadata + [MANIFEST]) == MANIFEST && FileName(metadata + [CHECKSUMS]) == CHECKSUMS;
  }

  lemma ManifestReadsBack(codec: Codec, files: Files, metadata: Path, m: Manifest)
    requires ReadsBack(codec, m)
    ensures ManifestAt(codec, Written(codec, files, metadata, m), metadata + [MANIFEST]) == Some(m)
  {
    assert |MANIFEST| == 21 && |CHECKSUMS| == 10;
    assert FileName(metadata + [MANIFEST]) == MANIFEST && FileName(metadata + [CHECKSUMS]) == CHECKSUMS;
  }

  predicate Generated(codec: Codec, files: Files, job: Job, m: Manifest)
  {
    WellFormed(files) && Listed(codec, files, job).Some?
    && IsManifestOf(codec, files, job.root, Listed(codec, files, job).value, m)
  }

  lemma ChecksumsAreWritten(codec: Codec, files: Files, metadata: Path, m: Manifest)
    ensures ChecksumsAgree(Written(codec, files, metadata, m), metadata, m.artifacts)
  {
  }

  lemma RecordIsLocated(codec: Codec, files: Files, job: Job, m: Manifest, p: Path)
    requires Generated(codec, files, job, m) && p in Listed(codec, files, job).value
    ensures p in files && RelativeName(p, job.root).Ok?
    ensures var r := RecordOf(codec, files, job.root, p);
            && !Unsafe(r.path) && job.root + Parts(r.path) == p && FileName(Parts(r.path)) == FileName(p)
            && Located(codec, Written(codec, files, job.metadata, m), job.root, r)
  {
    ListedPaths(codec, files, job, p);
    NameLocates(p, job.root);
    NotOwnFile(p, job.metadata);
  }

  lemma RecordsAreLocated(codec: Codec, files: Files, job: Job, m: Manifest)
    requires Generated(codec, files, job, m)
    ensures AllSafe(m.artifacts) && AllLocated(codec, Written(codec, files, job.metadata, m), job.root, m.artifacts)
  {
    var paths := Listed(codec, files, job).value;
    forall r | r in m.artifacts
      ensures !Unsafe(r.path) && Located(codec, Written(codec, files, job.metadata, m), job.root, r) {
      var i :| 0 <= i < |m.artifacts| && m.artifacts[i] == r;
      RecordIsLocated(codec, files, job, m, paths[i]);
    }
  }

  lemma RecordsAreDistinct(codec: Codec, files: Files, job: Job, m: Manifest)
    requires Generated(codec, files, job, m)
    ensures DistinctNames(PathsOf(m.artifacts))
  {
    var paths := Listed(codec, files, job).value;
    ListedIsSorted(codec, files, job);
    forall i, j | 0 <= i < j < |paths| ensures m.artifacts[i].path != m.artifacts[j].path {
      RecordIsLocated(codec, files, job, m, paths[i]);
      RecordIsLocated(codec, files, job, m, paths[j]);
    }
  }

  lemma ListedNameIsThere(codec: Codec, files: Files, job: Job, m: Manifest, p: Path)
    requires Generated(codec, files, job, m) && p in Listed(codec, files, job).value
    ensures exists n :: n in Names(m.artifacts) && FileName(Parts(n)) == FileName(p)
  {
    var paths := Listed(codec, files, job).value;
    var i :| 0 <= i < |paths| && paths[i] == p;
    RecordIsLocated(codec, files, job, m, p);
    assert m.artifacts[i].path in Names(m.artifacts);
  }

  lemma SbomsAreListed(codec: Codec, files: Files, job: Job, m: Manifest)
    requires Generated(codec, files, job, m)
    ensures SbomsListed(Names(m.artifacts))
  {
    ListedIsSorted(codec, files, job);
    forall i | 0 <= i < |SBOM_NAMES| ensures exists n :: n in Names(m.artifacts) && FileName(Parts(n)) == SBOM_NAMES[i] {
      var p := SbomPaths(job.metadata)[i];
      assert p in SbomPaths(job.metadata) && FileName(p) == SBOM_NAMES[i];
      ListedNameIsThere(codec, files, job, m, p);
    }
  }

  lemma SourcesExist(codec: Codec, files: Files, job: Job) returns (installer: Path, signature: Path)
    requires WellFormed(files) && Listed(codec, files, job).Some?
    ensures installer in Listed(codec, files, job).value && IsInstaller(FileName(installer))
    ensures signature in Listed(codec, files, job).value && IsSignature(FileName(signature))
  {
    ListedIsSorted(codec, files, job);
    installer :| installer in Artifacts(files, job) && IsInstaller(FileName(installer));
    signature :| signature in Artifacts(files, job) && IsSignature(FileName(signature));
  }

  lemma RecordsAreComplete(codec: Codec, files: Files, job: Job, m: Manifest)
    requires Generated(codec, files, job, m)
    ensures Complete(Names(m.artifacts)) && m.artifacts != []
  {
    SbomsAreListed(codec, files, job, m);
    var installer, signature := SourcesExist(codec, files, job);
    ListedNameIsThere(codec, files, job, m, installer);
    ListedNameIsThere(codec, files, job, m, signature);
  }

  lemma GeneratedIsAccepted(codec: Codec, files: Files, job: Job, m: Manifest)
    requires Generated(codec, files, job, m)
    ensures Accepts(codec, Written(codec, files, job.metadata, m), job.root, job.metadata, m)
  {
    ChecksumsAreWritten(codec, files, job.metadata, m);
    PackageSurvives(codec, files, job.root, job.metadata, m);
    RecordsAreLocated(codec, files, job, m);
    RecordsAreDistinct(codec, files, job, m);
    RecordsAreComplete(codec, files, job, m);
    AcceptsIff(codec, Written(codec, files, job.metadata, m), job.root, job.metadata, m);
  }

  /** The manifest that a generation has just written is accepted, as it reads back. */
  lemma GeneratedVerifies(codec: Codec, files: Files, job: Job, m: Manifest)
    requires Generated(codec, files, job, m) && ReadsBack(codec, m)
    ensures var after := Written(codec, files, job.metadata, m);
            && ManifestAt(codec, after, job.metadata + [MANIFEST]) == Some(m)
            && Parent(job.metadata + [MANIFEST]) == job.metadata
            && Accepts(codec, after, job.root, job.metadata, m)
  {
    ManifestReadsBack(codec, files, job.metadata, m);
    GeneratedIsAccepted(codec, files, job, m);
  }

  // -------------------------------------------------------------- distinct names only

  lemma NamesOfMore(records: seq<Record>, r: Record)
    ensures Names(records + [r]) == Names(records) + {r.path}
  {
    assert (records + [r])[..|records|] == records && (records + [r])[..|records| + 1] == records + [r];
    NamesGrow(records + [r], |records|);
  }

  lemma CompleteGrows(names: set<string>, name: string)
    requires Complete(names)
    ensures Complete(names + {name})
  {
    forall s | s in SBOM_NAMES ensures exists n :: n in names + {name} && FileName(Parts(n)) == s {
      var n :| n in names && FileName(Parts(n)) == s;
      assert n in names + {name};
    }
    var i :| i in names && IsInstaller(FileName(Parts(i)));
    var g :| g in names && IsSignature(FileName(Parts(g)));
    assert i in names + {name} && g in names + {name};
  }

  function Respelled(r: Record): Record { r.(path := "./" + r.path) }

  /** No listed file is one of the two that the manifest is written to. */
  predicate OwnFilesApart(root: Path, directory: Path, records: seq<Record>)
  {
    forall q :: q in records ==> root + Parts(q.path) != directory + [MANIFEST] && root + Parts(q.path) != directory + [CHECKSUMS]
  }

  function WithSpelling(m: Manifest, r: Record): Manifest { m.(artifacts := m.artifacts + [Respelled(r)]) }

  /** Names are compared as strings: the same file may be listed again under another spelling,
      in a manifest and a SHA256SUMS written anew. */
  lemma SecondSpellingPasses(codec: Codec, files: Files, root: Path, directory: Path, m: Manifest, r: Record)
    requires Accepts(codec, files, root, directory, m) && OwnFilesApart(root, directory, m.artifacts)
    requires r in m.artifacts && Respelled(r).path !in PathsOf(m.artifacts)
    ensures var twice := WithSpelling(m, r);
            Accepts(codec, Written(codec, files, directory, twice), root, directory, twice)
  {
    var twice := WithSpelling(m, r);
    var after := Written(codec, files, directory, twice);
    AcceptsIff(codec, files, root, directory, m);
    PackageSurvives(codec, files, root, directory, twice);
    ListedStays(codec, files, root, directory, m.artifacts, twice);
    RespelledIsLocated(codec, after, root, m.artifacts, r);
    MoreIsComplete(m.artifacts, Respelled(r));
    SpellingStaysDistinct(m.artifacts, Respelled(r));
    ChecksumsAreWritten(codec, files, directory, twice);
    AcceptsIff(codec, after, root, directory, twice);
  }

  lemma ListedStays(codec: Codec, files: Files, root: Path, directory: Path, records: seq<Record>, m: Manifest)
    requires AllLocated(codec, files, root, records) && OwnFilesApart(root, directory, records)
    ensures AllLocated(codec, Written(codec, files, directory, m), root, records)
  {
    forall q | q in records ensures Located(codec, Written(codec, files, directory, m), root, q) {
      assert Located(codec, files, root, q);
    }
  }

  lemma RespelledIsLocated(codec: Codec, files: Files, root: Path, records: seq<Record>, r: Record)
    requires AllSafe(records) && AllLocated(codec, files, root, records) && r in records
    ensures AllSafe(records + [Respelled(r)]) && AllLocated(codec, files, root, records + [Respelled(r)])
  {
    DotSlashChangesNothing(r.path);
    assert Located(codec, files, root, r);
  }

  lemma MoreIsComplete(records: seq<Record>, r: Record)
    requires Complete(Names(records))
    ensures Complete(Names(records + [r]))
  {
    NamesOfMore(records, r);
    CompleteGrows(Names(records), r.path);
  }

  lemma SpellingStaysDistinct(records: seq<Record>, r: Record)
    requires DistinctNames(PathsOf(records)) && r.path !in PathsOf(records)
    ensures DistinctNames(PathsOf(records + [r]))
  {
    var all := PathsOf(records + [r]);
    forall i, j | 0 <= i < j < |all| ensures all[i] != all[j] {
      assert all[i] == PathsOf(records)[i];
      if j < |records| { assert all[j] == PathsOf(records)[j]; }
    }
  }

  // -------------------------------------------------------------------- canonical names

  /** Written without empty parts, single dots or a trailing slash. */
  predicate Canonical(name: string) { Posix(Parts(name)) == name }

  predicate AllCanonical(records: seq<Record>) { forall r :: r in records ==> Canonical(r.path) }

  predicate EachFileOnce(root: Path, records: seq<Record>)
  {
    forall i, j :: 0 <= i < j < |records| ==> root + Parts(records[i].path) != root + Parts(records[j].path)
  }

  /** When all its names are canonical, an accepted manifest lists no file twice. */
  lemma CanonicalNamesAreFiles(codec: Codec, files: Files, root: Path, directory: Path, m: Manifest)
    requires Accepts(codec, files, root, directory, m) && AllCanonical(m.artifacts)
    ensures EachFileOnce(root, m.artifacts)
  {
    AcceptsIff(codec, files, root, directory, m);
    CanonicalAndDistinct(root, m.artifacts);
  }

  lemma CanonicalAndDistinct(root: Path, records: seq<Record>)
    requires DistinctNames(PathsOf(records)) && AllCanonical(records)
    ensures EachFileOnce(root, records)
  {
    forall i, j | 0 <= i < j < |records| ensures root + Parts(records[i].path) != root + Parts(records[j].path) {
      assert records[i] in records && records[j] in records && PathsOf(records)[i] != PathsOf(records)[j];
      SamePartsSameName(root, records[i].path, records[j].path);
    }
  }

  lemma SamePartsSameName(root: Path, a: string, b: string)
    requires Canonical(a) && Canonical(b)
    ensures root + Parts(a) == root + Parts(b) ==> a == b
  {
    assert (root + Parts(a))[|root|..] == Parts(a) && (root + Parts(b))[|root|..] == Parts(b);
  }

  /** Every name that a generation writes is canonical. */
  lemma GeneratedIsCanonical(codec: Codec, files: Files, job: Job, m: Manifest)
    requires Generated(codec, files, job, m)
    ensures AllCanonical(m.artifacts)
  {
    var paths := Listed(codec, files, job).value;
    forall r | r in m.artifacts ensures Canonical(r.path) {
      var i :| 0 <= i < |m.artifacts| && m.artifacts[i] == r;
      ListedPaths(codec, files, job, paths[i]);
      var rest := paths[i][|job.root|..];
      assert PlainPath(rest);
      PartsOfPosix(rest);
    }
  }

  /** Every accepted manifest with canonical names extends to an accepted one that lists a
      file twice. */
  lemma RespelledOnceMore(codec: Codec, files: Files, root: Path, directory: Path, m: Manifest, r: Record)
    requires Accepts(codec, files, root, directory, m) && OwnFilesApart(root, directory, m.artifacts)
    requires r in m.artifacts && AllCanonical(m.artifacts)
    ensures var twice := WithSpelling(m, r);
            && Accepts(codec, Written(codec, files, directory, twice), root, directory, twice)
            && !EachFileOnce(root, twice.artifacts)
  {
    DotSlashChangesNothing(r.path);
    assert !Canonical(Respelled(r).path);
    SecondSpellingPasses(codec, files, root, directory, m, r);
    ListedTwice(root, m.artifacts, r);
  }

  lemma ListedTwice(root: Path, records: seq<Record>, r: Record)
    requires r in records
    ensures !EachFileOnce(root, records + [Respelled(r)])
  {
    var i :| 0 <= i < |records| && records[i] == r;
    var more := records + [Respelled(r)];
    DotSlashChangesNothing(r.path);
    assert more[i] == r && more[|records|] == Respelled(r);
  }

  /** In particular, so does every manifest just generated: the tree with the longer manifest
      written over it reads that manifest back, accepts it, and lists a file twice. */
  lemma GeneratedCanBeRespelled(codec: Codec, files: Files, job: Job, m: Manifest, r: Record)
    requires Generated(codec, files, job, m) && r in m.artifacts
    requires ReadsBack(codec, WithSpelling(m, r))
    ensures EachFileOnce(job.root, m.artifacts)
    ensures var twice := WithSpelling(m, r);
            var after := Written(codec, files, job.metadata, twice);
            && ManifestAt(codec, after, job.metadata + [MANIFEST]) == Some(twice)
            && Accepts(codec, after, job.root, job.metadata, twice) && !EachFileOnce(job.root, twice.artifacts)
  {
    var once, twice := Written(codec, files, job.metadata, m), WithSpelling(m, r);
    GeneratedIsAccepted(codec, files, job, m);
    GeneratedIsCanonical(codec, files, job, m);
    CanonicalNamesAreFiles(codec, once, job.root, job.metadata, m);
    OwnFilesAreApart(codec, files, job, m);
    RespelledOnceMore(codec, once, job.root, job.metadata, m, r);
    WrittenOver(codec, files, job.metadata, m, twice);
    ManifestReadsBack(codec, files, job.metadata, twice);
  }

  lemma WrittenOver(codec: Codec, files: Files, metadata: Path, m: Manifest, later: Manifest)
    ensures Written(codec, Written(codec, files, metadata, m), metadata, later) == Written(codec, files, metadata, later)
  {
  }

  lemma OwnFilesAreApart(codec: Codec, files: Files, job: Job, m: Manifest)
    requires Generated(codec, files, job, m)
    ensures OwnFilesApart(job.root, job.metadata, m.artifacts)
  {
    var paths := Listed(codec, files, job).value;
    forall q | q in m.artifacts
      ensures job.root + Parts(q.path) != job.metadata + [MANIFEST] && job.root + Parts(q.path) != job.metadata + [CHECKSUMS] {
      var i :| 0 <= i < |m.artifacts| && m.artifacts[i] == q;
      RecordIsLocated(codec, files, job, m, paths[i]);
      ListedPaths(codec, files, job, paths[i]);
      NotOwnFile(paths[i], job.metadata);
    }
  }

  // ------------------------------------------------------------------ the checksum text

  predicate LineSafe(r: Record, width: nat) { |r.sha256| == width && '\n' !in r.sha256 && '\n' !in r.path }

  predicate EndsLine(s: string) { s == "" || s[|s| - 1] == '\n' }

  lemma {:induction false} ChecksumsEndLine(records: seq<Record>)
    ensures EndsLine(Checksums(records))
    ensures records != [] ==> Checksums(records) != ""
  {
  }

  lemma LastLinesAgree(a: string, b: string, x: string, y: string)
    requires EndsLine(a) && EndsLine(b) && '\n' !in x && '\n' !in y
    requires a + (x + "\n") == b + (y + "\n")
    ensures a == b && x == y
  {
    var s := a + (x + "\n");
    LongerLine(a, b, x, y);
    LongerLine(b, a, y, x);
    assert |a| == |b|;
    assert a == s[..|a|] && b == s[..|b|];
    assert x == s[|a|..|s| - 1] && y == s[|b|..|s| - 1];
  }

  lemma LongerLine(a: string, b: string, x: string, y: string)
    requires EndsLine(a) && '\n' !in y && a + (x + "\n") == b + (y + "\n")
    ensures |a| <= |b|
  {
    var s := b + (y + "\n");
    assert forall i :: |b| <= i < |s| - 1 ==> s[i] == y[i - |b|];
    assert a != "" ==> s[|a| - 1] == a[|a| - 1];
  }

  /** With digests of one width and names without line breaks, SHA256SUMS determines every
      digest and every name it was written from. */
  lemma {:induction false} ChecksumsAreInjective(a: seq<Record>, b: seq<Record>, width: nat)
    requires forall r :: r in a || r in b ==> LineSafe(r, width)
    requires Checksums(a) == Checksums(b)
    ensures |a| == |b| && forall i :: 0 <= i < |a| ==> a[i].sha256 == b[i].sha256 && a[i].path == b[i].path
  {
    ChecksumsEndLine(a);
    ChecksumsEndLine(b);
    if a != [] && b != [] {
      var x, y := a[|a| - 1], b[|b| - 1];
      var fronts := (Checksums(a[..|a| - 1]), Checksums(b[..|b| - 1]));
      ChecksumsEndLine(a[..|a| - 1]);
      ChecksumsEndLine(b[..|b| - 1]);
      var tx, ty := x.sha256 + "  " + x.path, y.sha256 + "  " + y.path;
      assert LineSafe(x, width) && LineSafe(y, width);
      LastLinesAgree(fronts.0, fronts.1, tx, ty);
      assert x.sha256 == tx[..width] && y.sha256 == ty[..width];
      assert x.path == tx[width + 2..] && y.path == ty[width + 2..];
      ChecksumsAreInjective(a[..|a| - 1], b[..|b| - 1], width);
    }
  }

  // ------------------------------------------------------------------- the download

  /** Every listed file copied beside SHA256SUMS, without its directories. */
  predicate Flattened(files: Files, root: Path, flat: Files, assets: Path, records: seq<Record>)
  {
    && ChecksumsAgree(flat, assets, records)
    && forall r :: r in records ==> root + Parts(r.path) in files && assets + [FileName(Parts(r.path))] in flat
                                    && flat[assets + [FileName(Parts(r.path))]] == files[root + Parts(r.path)]
  }

  lemma {:induction false} PartsAreNotEmpty(s: string)
    ensures "" !in Parts(s)
    decreases |s|
  {
    if s != [] {
      if s[0] == '/' { PartsAreNotEmpty(s[1..]); } else { PartsAreNotEmpty(s[PartEnd(s)..]); }
    }
  }

  /** A flattened copy of an accepted release passes exactly when no two listed files share a
      file name: the tree check does not ask for that. */
  lemma FlattenedPassesIff(codec: Codec, files: Files, root: Path, directory: Path, m: Manifest, flat: Files, assets: Path)
    requires WellFormed(files) && Accepts(codec, files, root, directory, m)
    requires Flattened(files, root, flat, assets, m.artifacts)
    ensures AcceptsDownload(codec, flat, assets, m) <==> DistinctNames(BaseNames(m.artifacts))
  {
    AcceptsIff(codec, files, root, directory, m);
    RootIsNoFile(codec, files, root);
    FlatRecordsPass(codec, files, root, m.artifacts, flat, assets);
  }

  lemma FlatRecordsPass(codec: Codec, files: Files, root: Path, records: seq<Record>, flat: Files, assets: Path)
    requires root !in files && AllLocated(codec, files, root, records)
    requires Flattened(files, root, flat, assets, records)
    ensures "" !in BaseNames(records) && AssetsAccepted(codec, flat, assets, records, |records|)
  {
    forall i | 0 <= i < |records|
      ensures BaseNames(records)[i] != "" && AssetError(codec, flat, assets, records[i]) == None {
      FlatRecord(codec, files, root, records, flat, assets, records[i]);
    }
  }

  lemma FlatRecord(codec: Codec, files: Files, root: Path, records: seq<Record>, flat: Files, assets: Path, r: Record)
    requires root !in files && AllLocated(codec, files, root, records) && r in records
    requires Flattened(files, root, flat, assets, records)
    ensures FileName(Parts(r.path)) != "" && AssetError(codec, flat, assets, r) == None
  {
    assert Located(codec, files, root, r);
    PartsAreNotEmpty(r.path);
    assert root + [] == root;
  }
}
