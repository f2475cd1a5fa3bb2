/** src/datasets/cq500.py: fetching the archives a manifest lists, converting every
    leaf folder of DICOM slices into one NIfTI volume, and copying the largest
    volume of each subject. The filesystem is explicit: `present` is the set of
    paths that exist (the loops add what they create); `isDir`, `listDir` and
    `size` stand for `os.path.isdir`, `os.listdir` and `os.path.getsize`. The
    download, the unzip, the DICOM reader and the copy are not modelled beyond the
    paths they create or are given. */
module Cq500 {
  import opened Python
  import opened Options

  // ---------------------------------------------------------------- get_data

  const ManifestName := "cq500_files.txt"

  /** `os.path.join(folder_path, url.split('/')[-1])` */
  function FetchTarget(folderPath: string, url: string): string {
    Join(folderPath, LastComponent(url))
  }

  /** `path.replace('.zip', '')`: every occurrence goes, not only the suffix. */
  function ExtractedPath(path: string): (r: string)
    ensures !Occurs(".zip", path) ==> r == path
    ensures |r| <= |path|
  {
    ReplaceAll(path, ".zip", "")
  }

  /** What a manifest line names, whatever already exists: the local file name,
      the download target, whether it is a `.zip`, the folder it would extract to,
      and whether it is one of the archives that `zipfile` rejects on opening. */
  datatype LineTarget = LineTarget(filename: string, path: string, archive: bool, dest: string, bad: bool)

  function TargetOfLine(folderPath: string, badArchives: set<string>, url: string): LineTarget {
    var path := FetchTarget(folderPath, url);
    LineTarget(LastComponent(url), path, EndsWith(path, ".zip"), ExtractedPath(path), path in badArchives)
  }

  /** The targets of all manifest lines, in order. */
  function Targets(folderPath: string, badArchives: set<string>, lines: seq<string>): (ts: seq<LineTarget>)
    ensures |ts| == |lines|
    ensures forall j :: 0 <= j < |lines| ==> ts[j] == TargetOfLine(folderPath, badArchives, lines[j])
  {
    seq(|lines|, j requires 0 <= j < |lines| => TargetOfLine(folderPath, badArchives, lines[j]))
  }

  datatype Extraction =
    | NotArchive                  // the path does not end in .zip
    | AlreadyExtracted(dest: string)
    | Extracted(dest: string)
    | BadArchive(dest: string)    // zipfile.BadZipfile: logged, loop goes on

  datatype FetchReport = FetchReport(filename: string, path: string, downloaded: bool, extraction: Extraction)

  datatype FetchState = FetchState(reports: seq<FetchReport>, present: set<string>)

  /** What happens to the downloaded file of a line, given the paths that exist. */
  function ExtractionAt(t: LineTarget, present: set<string>): Extraction {
    if !t.archive then NotArchive
    else if t.dest in present then AlreadyExtracted(t.dest)
    else if t.bad then BadArchive(t.dest)
    else Extracted(t.dest)
  }

  /** Extraction is attempted only for a path ending in `.zip`; it is skipped
      exactly when the path with every `.zip` removed exists, and it fails exactly
      on a bad archive. */
  lemma ExtractionOfLine(folderPath: string, badArchives: set<string>, url: string, present: set<string>)
    ensures var path := FetchTarget(folderPath, url);
      var e := ExtractionAt(TargetOfLine(folderPath, badArchives, url), present);
      && (e.NotArchive? <==> !EndsWith(path, ".zip"))
      && (!e.NotArchive? ==> e.dest == ReplaceAll(path, ".zip", ""))
      && (e.AlreadyExtracted? <==> EndsWith(path, ".zip") && ReplaceAll(path, ".zip", "") in present)
      && (e.BadArchive? <==> EndsWith(path, ".zip") && ReplaceAll(path, ".zip", "") !in present && path in badArchives)
      && (e.Extracted? <==> EndsWith(path, ".zip") && ReplaceAll(path, ".zip", "") !in present && path !in badArchives)
  {
  }

  /** One line of the manifest: download unless the file is there, then extract
      it unless it is not an archive or its folder already exists. */
  function FetchLine(st: FetchState, t: LineTarget): (st': FetchState)
    ensures |st'.reports| == |st.reports| + 1 && st'.reports[..|st.reports|] == st.reports
    ensures st.present <= st'.present
  {
    var present := st.present + {t.path};
    var report := FetchReport(t.filename, t.path, t.path !in st.present, ExtractionAt(t, present));
    var present' := if report.extraction.Extracted? then present + {t.dest} else present;
    assert (st.reports + [report])[..|st.reports|] == st.reports;
    FetchState(st.reports + [report], present')
  }

  /** The local name of a line is what follows its last `/`, that is its
      basename, and the file is downloaded to that name inside `folder_path`. */
  lemma TargetOfLineNames(folderPath: string, badArchives: set<string>, url: string)
    ensures var t := TargetOfLine(folderPath, badArchives, url);
      && t.filename == Basename(url) && '/' !in t.filename
      && t.path == Join(folderPath, t.filename) && EndsWith(t.path, t.filename)
  {
    LastComponentIsBasename(url);
  }

  /** The report of one line, and the paths it leaves behind. */
  lemma FetchLineReport(st: FetchState, t: LineTarget)
    ensures var st' := FetchLine(st, t);
      var r := st'.reports[|st.reports|];
      && r.filename == t.filename
      && r.path == t.path && r.path in st'.present
      && (r.downloaded <==> t.path !in st.present)
      && r.extraction == ExtractionAt(t, st.present + {t.path})
      && (r.extraction.Extracted? ==> t.dest in st'.present)
      && (forall x :: x in st'.present ==> x in st.present || x == t.path || (r.extraction.Extracted? && x == t.dest))
  {
  }

  /** The loop over the manifest lines from line `i` on. */
  function FetchFrom(targets: seq<LineTarget>, i: nat, st: FetchState): FetchState
    requires i <= |targets|
    decreases |targets| - i
  {
    if i == |targets| then st
    else FetchFrom(targets, i + 1, FetchLine(st, targets[i]))
  }

  /** `get_data(url, folder_path)`. `lines` are the manifest's lines (without their
      newline) and `badArchives` the downloaded archives that `zipfile` rejects on
      opening, before it writes anything. Every other archive is taken to extract
      completely and to hold at least one member, so its folder appears. */
  method GetData(url: string, folderPath: string, lines: seq<string>, badArchives: set<string>, present: set<string>)
    returns (manifestPath: string, reports: seq<FetchReport>, presentAfter: set<string>)
    ensures manifestPath == folderPath + ManifestName
    ensures FetchState(reports, presentAfter) ==
            FetchFrom(Targets(folderPath, badArchives, lines), 0, FetchState([], present + {folderPath, manifestPath}))
  {
    // The manifest path is a plain concatenation, not an os.path.join.
    manifestPath := folderPath + ManifestName;
    ghost var targets := Targets(folderPath, badArchives, lines);
    reports, presentAfter := [], present + {folderPath, manifestPath};
    for i := 0 to |lines|
      invariant FetchFrom(targets, i, FetchState(reports, presentAfter)) ==
                FetchFrom(targets, 0, FetchState([], present + {folderPath, manifestPath}))
    {
      var report;
      report, presentAfter := FetchOne(folderPath, badArchives, lines[i], presentAfter);
      reports := reports + [report];
    }
  }

  /** The body of the loop for one manifest line. */
  method FetchOne(folderPath: string, badArchives: set<string>, url: string, present: set<string>)
    returns (report: FetchReport, presentAfter: set<string>)
    ensures forall reports :: FetchLine(FetchState(reports, present), TargetOfLine(folderPath, badArchives, url)) ==
                              FetchState(reports + [report], presentAfter)
  {
    // t.filename is url.split('/')[-1], t.path its join to folder_path
    var t := TargetOfLine(folderPath, badArchives, url);
    presentAfter := present;
    var downloaded := false;
    if t.path !in presentAfter {
      downloaded := true;
      presentAfter := presentAfter + {t.path};
    }
    var extraction := NotArchive;
    if t.archive {
      if t.dest in presentAfter {
        extraction := AlreadyExtracted(t.dest);
      } else if t.bad {
        extraction := BadArchive(t.dest);
      } else {
        extraction := Extracted(t.dest);
        presentAfter := presentAfter + {t.dest};
      }
    }
    report := FetchReport(t.filename, t.path, downloaded, extraction);
  }

  /** A line is settled once its file exists and, if it is a sound archive, so
      does its extracted folder. */
  predicate LineSettled(t: LineTarget, present: set<string>) {
    t.path in present && (t.archive && !t.bad ==> t.dest in present)
  }

  /** A report of a line that had nothing left to do. */
  predicate Quiet(r: FetchReport) {
    !r.downloaded && !r.extraction.Extracted?
  }

  lemma {:induction false} FetchFromGrows(targets: seq<LineTarget>, i: nat, st: FetchState)
    requires i <= |targets|
    ensures var r := FetchFrom(targets, i, st);
      && st.present <= r.present
      && |r.reports| == |st.reports| + |targets| - i
      && r.reports[..|st.reports|] == st.reports
    decreases |targets| - i
  {
    if i < |targets| {
      var st1 := FetchLine(st, targets[i]);
      FetchFromGrows(targets, i + 1, st1);
      var r := FetchFrom(targets, i + 1, st1);
      assert r.reports[..|st.reports|] == r.reports[..|st1.reports|][..|st.reports|];
    }
  }

  /** Report `k` of the loop is about line `k`: its name and path, whether it is
      an archive and where it extracts to. */
  lemma {:induction false} FetchFromReportsLines(targets: seq<LineTarget>, i: nat, st: FetchState)
    requires i <= |targets|
    ensures var r := FetchFrom(targets, i, st);
      && |r.reports| == |st.reports| + |targets| - i
      && forall j :: i <= j < |targets| ==>
           var rep := r.reports[|st.reports| + j - i];
           && rep.filename == targets[j].filename && rep.path == targets[j].path
           && (rep.extraction.NotArchive? <==> !targets[j].archive)
           && (!rep.extraction.NotArchive? ==> rep.extraction.dest == targets[j].dest)
           && (rep.extraction.Extracted? ==> !targets[j].bad)
    decreases |targets| - i
  {
    FetchFromGrows(targets, i, st);
    if i < |targets| {
      var st1 := FetchLine(st, targets[i]);
      FetchFromReportsLines(targets, i + 1, st1);
      FetchFromGrows(targets, i + 1, st1);
      var r := FetchFrom(targets, i + 1, st1);
      assert r.reports[|st.reports|] == r.reports[..|st1.reports|][|st.reports|];
    }
  }

  /** Every line is settled once the loop has passed it. */
  lemma {:induction false} FetchFromSettles(targets: seq<LineTarget>, i: nat, st: FetchState)
    requires i <= |targets|
    ensures forall j :: i <= j < |targets| ==> LineSettled(targets[j], FetchFrom(targets, i, st).present)
    decreases |targets| - i
  {
    if i < |targets| {
      var st1 := FetchLine(st, targets[i]);
      FetchFromSettles(targets, i + 1, st1);
      FetchFromGrows(targets, i + 1, st1);
      assert LineSettled(targets[i], st1.present);
    }
  }

  /** From a state where every remaining line is settled, the loop downloads and
      extracts nothing. */
  lemma {:induction false} FetchFromQuiet(targets: seq<LineTarget>, i: nat, st: FetchState)
    requires i <= |targets|
    requires forall j :: i <= j < |targets| ==> LineSettled(targets[j], st.present)
    ensures var r := FetchFrom(targets, i, st);
      forall k :: |st.reports| <= k < |r.reports| ==> Quiet(r.reports[k])
    decreases |targets| - i
  {
    if i < |targets| {
      var st1 := FetchLine(st, targets[i]);
      assert Quiet(st1.reports[|st.reports|]);
      FetchFromQuiet(targets, i + 1, st1);
      FetchFromGrows(targets, i + 1, st1);
      var r := FetchFrom(targets, i + 1, st1);
      assert r.reports[|st.reports|] == r.reports[..|st1.reports|][|st.reports|];
    }
  }

  /** Running `get_data` a second time on what the first run left behind downloads
      nothing and extracts nothing (an archive that `zipfile` rejects on opening
      is tried again, and fails again). */
  lemma GetDataIdempotent(folderPath: string, badArchives: set<string>, lines: seq<string>, present: set<string>)
    ensures var manifest := folderPath + ManifestName;
      var targets := Targets(folderPath, badArchives, lines);
      var first := FetchFrom(targets, 0, FetchState([], present + {folderPath, manifest}));
      var second := FetchFrom(targets, 0, FetchState([], first.present + {folderPath, manifest}));
      forall k :: 0 <= k < |second.reports| ==> Quiet(second.reports[k])
  {
    var manifest := folderPath + ManifestName;
    var targets := Targets(folderPath, badArchives, lines);
    var first := FetchFrom(targets, 0, FetchState([], present + {folderPath, manifest}));
    FetchFromSettles(targets, 0, FetchState([], present + {folderPath, manifest}));
    FetchFromQuiet(targets, 0, FetchState([], first.present + {folderPath, manifest}));
  }

  /** After `get_data`, the file of every manifest line exists, and so does the
      extracted folder of every sound archive among them. */
  lemma GetDataSettles(folderPath: string, badArchives: set<string>, lines: seq<string>, present: set<string>)
    ensures var manifest := folderPath + ManifestName;
      var after := FetchFrom(Targets(folderPath, badArchives, lines), 0, FetchState([], present + {folderPath, manifest})).present;
      forall j :: 0 <= j < |lines| ==>
        var path := FetchTarget(folderPath, lines[j]);
        && path in after
        && (EndsWith(path, ".zip") && path !in badArchives ==> ExtractedPath(path) in after)
  {
    var manifest := folderPath + ManifestName;
    var targets := Targets(folderPath, badArchives, lines);
    FetchFromSettles(targets, 0, FetchState([], present + {folderPath, manifest}));
  }

  /** `.zip` has no proper prefix that is also a suffix. */
  lemma ZipBorderFree()
    ensures BorderFree(".zip")
  {
    forall k | 0 < k < 4 ensures ".zip"[..k] != ".zip"[4 - k..] {
      assert ".zip"[..k][0] == '.';
      assert ".zip"[4 - k..][0] != '.';
    }
  }

  /** The extracted folder of `p.zip` is `p` when `p` holds no other ".zip". */
  lemma ExtractedPathOfArchive(p: string)
    requires !Occurs(".zip", p)
    ensures ExtractedPath(p + ".zip") == p
  {
    ZipBorderFree();
    ReplaceAllSuffix(p, ".zip", "");
  }

  /** Every `.zip` goes, wherever it stands: a `.zip` after a clean prefix
      `a` is dropped and the rest of the path is processed in the same way. */
  lemma ExtractedPathStep(a: string, b: string)
    requires !Occurs(".zip", a)
    ensures ExtractedPath(a + ".zip" + b) == a + ExtractedPath(b)
  {
    var t := ".zip" + b;
    assert t[..4] == ".zip";
    assert t[4..] == b;
    ZipBorderFree();
    ReplaceAllAfterClean(a, t, ".zip", "");
    assert ReplaceAll(t, ".zip", "") == ReplaceAll(b, ".zip", "");
    assert a + ".zip" + b == a + t;
  }

  /** A concrete path: its first ".zip" is removed as well, not only the suffix. */
  lemma ExtractedPathDropsEveryZip()
    ensures ExtractedPath("a.zip/b.zip") == "a/b"
  {
    ZipBorderFree();
    ShortAbsent(".zip", "a");
    ShortAbsent(".zip", "/b");
    assert "a.zip/b.zip" == "a" + ".zip/b.zip";
    ReplaceAllAfterClean("a", ".zip/b.zip", ".zip", "");
    assert StartsWith(".zip/b.zip", ".zip");
    assert ".zip/b.zip"[4..] == "/b" + ".zip";
    ReplaceAllSuffix("/b", ".zip", "");
  }

  // ------------------------------------------------------------ convert_nifti

  /** One tuple of `os.walk(input_folder)`. */
  datatype WalkEntry = WalkEntry(root: string, dirs: seq<string>, files: seq<string>)

  /** `folder if given is not None else os.path.join(parent, name)`: the output
      folder of `convert_nifti` (`converted`) and of `select_imgs` (`selected`).
      Only `None` selects the default; a given folder is kept verbatim. */
  function DefaultedChild(parent: string, given: Option<string>, name: string): (r: string)
    requires IsName(name)
    ensures given.Some? ==> r == given.value
    ensures given.None? ==> Split(r) == (NormalizeHead(parent), name)
  {
    if given.None? then JoinThenSplit(parent, name); Join(parent, name)
    else given.value
  }

  /** The roots the walk skips: the output folder and everything below it. */
  predicate InOutputTree(root: string, outDir: string) {
    root == outDir || StartsWith(root, outDir + "/")
  }

  /** `len(files) > 0 and len(dirs) == 0` */
  predicate HoldsImages(e: WalkEntry) {
    |e.files| > 0 && |e.dirs| == 0
  }

  /** `os.path.relpath(root, input_folder)` for the roots `os.walk(input_folder)`
      yields, which all start with `input_folder`. */
  function RelPath(root: string, start: string): (r: string)
    ensures root == start ==> r == "."
    ensures !EndsWith(start, "/") && StartsWith(root, start + "/") && |root| > |start| + 1 ==> start + "/" + r == root
  {
    var prefix := if EndsWith(start, "/") then start else start + "/";
    if root == start then "."
    else if StartsWith(root, prefix) && |root| > |prefix| then root[|prefix|..]
    else if StartsWith(root, prefix) then "."
    else root
  }

  /** `rel_path.split('/')[0]`, the top-level subject folder. */
  function SubjectOf(relPath: string): (r: string)
    ensures '/' !in r && StartsWith(relPath, r)
    ensures |r| < |relPath| ==> relPath[|r|] == '/'
  {
    FirstFieldIsPrefix(relPath, '/');
    SplitOn(relPath, '/')[0]
  }

  /** `subj + '_' + os.path.split(root)[1] + '.nii.gz'` */
  function ImageName(subject: string, root: string): (r: string)
    requires '/' !in subject
    ensures IsName(r) && EndsWith(r, ".nii.gz")
  {
    var leaf := LastComponent(root);
    var r := subject + "_" + leaf + ".nii.gz";
    assert forall i :: 0 <= i < |subject| ==> subject[i] != '/';
    assert forall i :: 0 <= i < |leaf| ==> leaf[i] != '/';
    assert forall i :: 0 <= i < |r| ==> r[i] != '/';
    assert r[|r| - 7..] == ".nii.gz";
    r
  }

  /** `os.path.join(out_dir, subj)` */
  function SubjectFolder(inputFolder: string, outDir: string, root: string): string {
    Join(outDir, SubjectOf(RelPath(root, inputFolder)))
  }

  /** `os.path.join(os.path.join(out_dir, subj), file_name)`: the volume sits in a
      folder named after the subject and carries the subject and leaf names. */
  function ImagePath(inputFolder: string, outDir: string, root: string): (r: string)
    ensures EndsWith(r, ".nii.gz")
  {
    var subject := SubjectOf(RelPath(root, inputFolder));
    var name := ImageName(subject, root);
    EndsWithTrans(Join(Join(outDir, subject), name), name, ".nii.gz");
    Join(Join(outDir, subject), name)
  }

  /** `os.path.split` of a volume path gives back the subject folder (normalised
      as `split` does) and the name built from the subject and the leaf folder. */
  lemma ImagePathSplits(inputFolder: string, outDir: string, root: string)
    ensures Basename(ImagePath(inputFolder, outDir, root)) == ImageName(SubjectOf(RelPath(root, inputFolder)), root)
    ensures Dirname(ImagePath(inputFolder, outDir, root)) == NormalizeHead(SubjectFolder(inputFolder, outDir, root))
  {
    var subject := SubjectOf(RelPath(root, inputFolder));
    JoinThenSplit(Join(outDir, subject), ImageName(subject, root));
  }

  /** What a walked root is, whatever already exists: inside the output tree, not
      a leaf folder of files, or a leaf to be converted into a volume at `image`
      inside `subjectFolder`. */
  datatype RootTarget =
    | SkipOutputTree
    | SkipNotLeaf
    | Leaf(root: string, subjectFolder: string, image: string)

  function TargetOfRoot(inputFolder: string, outDir: string, e: WalkEntry): (t: RootTarget)
    ensures t.SkipOutputTree? <==> InOutputTree(e.root, outDir)
    ensures t.SkipNotLeaf? <==> !InOutputTree(e.root, outDir) && !HoldsImages(e)
    ensures t.Leaf? ==> t.root == e.root && EndsWith(t.image, ".nii.gz")
    ensures t.Leaf? ==> t.subjectFolder == SubjectFolder(inputFolder, outDir, e.root)
    ensures t.Leaf? ==> Dirname(t.image) == NormalizeHead(t.subjectFolder)
    ensures t.Leaf? ==> Basename(t.image) == ImageName(SubjectOf(RelPath(e.root, inputFolder)), e.root)
  {
    if InOutputTree(e.root, outDir) then SkipOutputTree
    else if !HoldsImages(e) then SkipNotLeaf
    else
      ImagePathSplits(inputFolder, outDir, e.root);
      Leaf(e.root, SubjectFolder(inputFolder, outDir, e.root), ImagePath(inputFolder, outDir, e.root))
  }

  /** The targets of all walked roots, in walk order. */
  function RootTargets(inputFolder: string, outDir: string, walk: seq<WalkEntry>): (ts: seq<RootTarget>)
    ensures |ts| == |walk|
    ensures forall j :: 0 <= j < |walk| ==> ts[j] == TargetOfRoot(inputFolder, outDir, walk[j])
  {
    seq(|walk|, j requires 0 <= j < |walk| => TargetOfRoot(inputFolder, outDir, walk[j]))
  }

  datatype Conversion =
    | InsideOutputTree
    | NotImageFolder
    | AlreadyConverted(image: string)
    | Converted(source: string, image: string)

  datatype ConvertState = ConvertState(reports: seq<Conversion>, present: set<string>)

  /** One root of the walk: the subject folder is created before the volume is
      looked for. */
  function ConvertEntry(st: ConvertState, t: RootTarget): (st': ConvertState)
    ensures |st'.reports| == |st.reports| + 1 && st'.reports[..|st.reports|] == st.reports
    ensures st.present <= st'.present
  {
    var c := match t
      case SkipOutputTree => InsideOutputTree
      case SkipNotLeaf => NotImageFolder
      case Leaf(root, subjectFolder, image) =>
        if image in st.present + {subjectFolder} then AlreadyConverted(image) else Converted(root, image);
    var present := if t.Leaf? then st.present + {t.subjectFolder} else st.present;
    assert (st.reports + [c])[..|st.reports|] == st.reports;
    ConvertState(st.reports + [c], if c.Converted? then present + {c.image} else present)
  }

  /** The walk from entry `i` on. */
  function ConvertFrom(targets: seq<RootTarget>, i: nat, st: ConvertState): ConvertState
    requires i <= |targets|
    decreases |targets| - i
  {
    if i == |targets| then st
    else ConvertFrom(targets, i + 1, ConvertEntry(st, targets[i]))
  }

  /** `convert_nifti(input_folder, out_dir)`; `walk` is what `os.walk` yields.
      Returns the output folder, as the source does. */
  method ConvertNifti(inputFolder: string, outDir: Option<string>, walk: seq<WalkEntry>, present: set<string>)
    returns (out: string, reports: seq<Conversion>, presentAfter: set<string>)
    ensures out == DefaultedChild(inputFolder, outDir, "converted")
    ensures ConvertState(reports, presentAfter) ==
            ConvertFrom(RootTargets(inputFolder, out, walk), 0, ConvertState([], present + {out}))
  {
    out := if outDir.None? then Join(inputFolder, "converted") else outDir.value;
    ghost var targets := RootTargets(inputFolder, out, walk);
    reports, presentAfter := [], present + {out};
    for i := 0 to |walk|
      invariant ConvertFrom(targets, i, ConvertState(reports, presentAfter)) ==
                ConvertFrom(targets, 0, ConvertState([], present + {out}))
    {
      var report;
      report, presentAfter := ConvertOne(inputFolder, out, walk[i], presentAfter);
      reports := reports + [report];
    }
  }

  /** The body of the walk for one root. */
  method ConvertOne(inputFolder: string, out: string, e: WalkEntry, present: set<string>)
    returns (report: Conversion, presentAfter: set<string>)
    ensures forall reports :: ConvertEntry(ConvertState(reports, present), TargetOfRoot(inputFolder, out, e)) ==
                              ConvertState(reports + [report], presentAfter)
  {
    presentAfter := present;
    if e.root == out || StartsWith(e.root, out + "/") {
      return InsideOutputTree, presentAfter;
    }
    if !(|e.files| > 0 && |e.dirs| == 0) {
      return NotImageFolder, presentAfter;
    }
    var relPath := RelPath(e.root, inputFolder);
    var subject := SubjectOf(relPath);
    var subjectFolder := Join(out, subject);
    presentAfter := presentAfter + {subjectFolder};
    var fileName := ImageName(subject, e.root);
    var imagePath := Join(subjectFolder, fileName);
    if imagePath in presentAfter {
      return AlreadyConverted(imagePath), presentAfter;
    }
    // the DICOM series of e.root is read and written to imagePath
    report := Converted(e.root, imagePath);
    presentAfter := presentAfter + {imagePath};
  }

  /** What the walk reports for one root, whatever else has happened. */
  predicate Classified(t: RootTarget, c: Conversion) {
    && (c == InsideOutputTree <==> t.SkipOutputTree?)
    && (c == NotImageFolder <==> t.SkipNotLeaf?)
    && (c.AlreadyConverted? ==> t.Leaf? && c.image == t.image)
    && (c.Converted? ==> t.Leaf? && c.source == t.root && c.image == t.image)
  }

  /** The volume of a leaf root exists. */
  predicate RootSettled(t: RootTarget, present: set<string>) {
    t.Leaf? ==> t.image in present
  }

  lemma ConvertEntryReport(st: ConvertState, t: RootTarget)
    ensures var st' := ConvertEntry(st, t);
      && Classified(t, st'.reports[|st.reports|])
      && RootSettled(t, st'.present)
      && (RootSettled(t, st.present) ==> !st'.reports[|st.reports|].Converted?)
      && (forall x :: x in st'.present ==> x in st.present || (t.Leaf? && (x == t.subjectFolder || x == t.image)))
  {
  }

  lemma {:induction false} ConvertFromGrows(targets: seq<RootTarget>, i: nat, st: ConvertState)
    requires i <= |targets|
    ensures var r := ConvertFrom(targets, i, st);
      && st.present <= r.present
      && |r.reports| == |st.reports| + |targets| - i
      && r.reports[..|st.reports|] == st.reports
    decreases |targets| - i
  {
    if i < |targets| {
      var st1 := ConvertEntry(st, targets[i]);
      ConvertFromGrows(targets, i + 1, st1);
      var r := ConvertFrom(targets, i + 1, st1);
      assert r.reports[..|st.reports|] == r.reports[..|st1.reports|][..|st.reports|];
    }
  }

  /** Report `k` of the walk is about root `k`. */
  lemma {:induction false} ConvertFromClassifies(targets: seq<RootTarget>, i: nat, st: ConvertState)
    requires i <= |targets|
    ensures var r := ConvertFrom(targets, i, st);
      && |r.reports| == |st.reports| + |targets| - i
      && forall j :: i <= j < |targets| ==> Classified(targets[j], r.reports[|st.reports| + j - i])
    decreases |targets| - i
  {
    ConvertFromGrows(targets, i, st);
    if i < |targets| {
      var st1 := ConvertEntry(st, targets[i]);
      ConvertEntryReport(st, targets[i]);
      ConvertFromClassifies(targets, i + 1, st1);
      ConvertFromGrows(targets, i + 1, st1);
      var r := ConvertFrom(targets, i + 1, st1);
      assert r.reports[|st.reports|] == r.reports[..|st1.reports|][|st.reports|];
    }
  }

  /** Every root's volume exists once the walk has passed it. */
  lemma {:induction false} ConvertFromSettles(targets: seq<RootTarget>, i: nat, st: ConvertState)
    requires i <= |targets|
    ensures forall j :: i <= j < |targets| ==> RootSettled(targets[j], ConvertFrom(targets, i, st).present)
    decreases |targets| - i
  {
    if i < |targets| {
      var st1 := ConvertEntry(st, targets[i]);
      ConvertEntryReport(st, targets[i]);
      ConvertFromSettles(targets, i + 1, st1);
      ConvertFromGrows(targets, i + 1, st1);
    }
  }

  /** From a state where every remaining root's volume exists, the walk converts
      nothing. */
  lemma {:induction false} ConvertFromQuiet(targets: seq<RootTarget>, i: nat, st: ConvertState)
    requires i <= |targets|
    requires forall j :: i <= j < |targets| ==> RootSettled(targets[j], st.present)
    ensures var r := ConvertFrom(targets, i, st);
      forall k :: |st.reports| <= k < |r.reports| ==> !r.reports[k].Converted?
    decreases |targets| - i
  {
    if i < |targets| {
      var st1 := ConvertEntry(st, targets[i]);
      ConvertEntryReport(st, targets[i]);
      ConvertFromQuiet(targets, i + 1, st1);
      ConvertFromGrows(targets, i + 1, st1);
      var r := ConvertFrom(targets, i + 1, st1);
      assert r.reports[|st.reports|] == r.reports[..|st1.reports|][|st.reports|];
    }
  }

  /** After the walk, the volume of every leaf root outside the output tree
      exists. */
  lemma ConvertNiftiSettles(inputFolder: string, outDir: string, walk: seq<WalkEntry>, present: set<string>)
    ensures var after := ConvertFrom(RootTargets(inputFolder, outDir, walk), 0, ConvertState([], present + {outDir})).present;
      forall j :: 0 <= j < |walk| && !InOutputTree(walk[j].root, outDir) && HoldsImages(walk[j]) ==>
        ImagePath(inputFolder, outDir, walk[j].root) in after
  {
    var targets := RootTargets(inputFolder, outDir, walk);
    ConvertFromSettles(targets, 0, ConvertState([], present + {outDir}));
  }

  /** A second conversion over the same walk, on what the first left behind,
      converts nothing: every volume is found and skipped. */
  lemma ConvertNiftiIdempotent(inputFolder: string, outDir: string, walk: seq<WalkEntry>, present: set<string>)
    ensures var targets := RootTargets(inputFolder, outDir, walk);
      var first := ConvertFrom(targets, 0, ConvertState([], present + {outDir}));
      var second := ConvertFrom(targets, 0, ConvertState([], first.present + {outDir}));
      forall k :: 0 <= k < |second.reports| ==> !second.reports[k].Converted?
  {
    var targets := RootTargets(inputFolder, outDir, walk);
    var first := ConvertFrom(targets, 0, ConvertState([], present + {outDir}));
    ConvertFromSettles(targets, 0, ConvertState([], present + {outDir}));
    ConvertFromQuiet(targets, 0, ConvertState([], first.present + {outDir}));
  }

  // -------------------------------------------------------------- select_imgs

  /** What `select_imgs` asks of the filesystem: `os.path.isdir`, `os.listdir`
      and `os.path.getsize`. */
  datatype Disk = Disk(isDir: string -> bool, listDir: string -> seq<string>, size: string -> nat)

  datatype CopyOp = CopyOp(source: string, destination: string)

  /** The copy made for one subject: its largest file (the first of them on a tie,
      as `ArgMax` states), copied under its own name into the output folder. The
      destination is not checked first: an existing file is overwritten. */
  function CopyFor(imgs: seq<string>, size: string -> nat, outputFolder: string): (op: CopyOp)
    requires |imgs| > 0
    ensures op.source in imgs
    ensures forall j :: 0 <= j < |imgs| ==> size(imgs[j]) <= size(op.source)
    ensures exists k :: 0 <= k < |imgs| && imgs[k] == op.source && forall j :: 0 <= j < k ==> size(imgs[j]) < size(imgs[k])
    ensures op.destination == Join(outputFolder, LastComponent(op.source))
  {
    var k := ArgMax(imgs, size);
    var biggest := imgs[k];
    CopyOp(biggest, Join(outputFolder, LastComponent(biggest)))
  }

  /** The copied file is one of the subject's entries, and its copy lands directly
      in the output folder under the same name. */
  lemma CopyKeepsName(subjectFolder: string, names: seq<string>, size: string -> nat, outputFolder: string)
    requires |names| > 0 && forall n :: n in names ==> IsName(n)
    ensures var op := CopyFor(JoinEach(subjectFolder, names), size, outputFolder);
      && Basename(op.source) in names
      && Dirname(op.source) == NormalizeHead(subjectFolder)
      && Split(op.destination) == (NormalizeHead(outputFolder), Basename(op.source))
  {
    var imgs := JoinEach(subjectFolder, names);
    var k := ArgMax(imgs, size);
    assert names[k] in names;
    JoinThenSplit(subjectFolder, names[k]);
    LastComponentIsBasename(imgs[k]);
    JoinThenSplit(outputFolder, names[k]);
  }

  lemma AbsoluteJoinIsAbsolute(a: string, n: string)
    requires StartsWith(a, "/") && IsName(n)
    ensures StartsWith(Join(a, n), "/")
  {
    assert n[0] != '/' by { assert n[0] in n; }
    assert !StartsWith(n, "/");
    var r := Join(a, n);
    assert r[..|a|] == a;
    assert r[0] == a[0] == '/';
    assert r[..1] == "/";
  }

  /** The copy as the source writes it: the source path is
      `os.path.join(subj_folder, biggest_file)`, although `biggest_file` already
      starts with `subj_folder`. */
  function CopyForAsWritten(subjectFolder: string, imgs: seq<string>, size: string -> nat, outputFolder: string): (op: CopyOp)
    requires |imgs| > 0
    ensures op.destination == CopyFor(imgs, size, outputFolder).destination
  {
    var biggest := imgs[ArgMax(imgs, size)];
    CopyOp(Join(subjectFolder, biggest), Join(outputFolder, LastComponent(biggest)))
  }

  /** For a relative subject folder the as-written source names no file of the
      listing, so the copy looks for a file that is not there. */
  lemma AsWrittenSourceMissesListing(subjectFolder: string, names: seq<string>, size: string -> nat, outputFolder: string)
    requires subjectFolder != "" && !StartsWith(subjectFolder, "/")
    requires |names| > 0 && forall n :: n in names ==> IsName(n)
    ensures CopyForAsWritten(subjectFolder, JoinEach(subjectFolder, names), size, outputFolder).source
            !in JoinEach(subjectFolder, names)
  {
    var imgs := JoinEach(subjectFolder, names);
    var k := ArgMax(imgs, size);
    var front := subjectFolder + Sep(subjectFolder);
    assert names[k] in names;
    assert !StartsWith(names[k], "/") by { assert names[k][0] in names[k]; }
    JoinRelative(subjectFolder, names[k]);
    assert imgs[k] == front + names[k];
    assert !StartsWith(imgs[k], "/") by { assert imgs[k][0] == subjectFolder[0]; }
    JoinRelative(subjectFolder, imgs[k]);
    var src := front + imgs[k];
    assert src[|front|..] == imgs[k];
    assert '/' in imgs[k] by {
      var c :| c in front && c == '/';
      assert imgs[k][..|front|] == front;
      assert c in imgs[k][..|front|];
    }
    forall j | 0 <= j < |imgs| ensures imgs[j] != src {
      assert names[j] in names;
      assert !StartsWith(names[j], "/") by { assert names[j][0] in names[j]; }
      JoinRelative(subjectFolder, names[j]);
      assert imgs[j][|front|..] == names[j];
    }
  }

  /** With an absolute subject folder the doubled join is harmless. */
  lemma AsWrittenAgreesWhenAbsolute(subjectFolder: string, names: seq<string>, size: string -> nat, outputFolder: string)
    requires StartsWith(subjectFolder, "/")
    requires |names| > 0 && forall n :: n in names ==> IsName(n)
    ensures CopyForAsWritten(subjectFolder, JoinEach(subjectFolder, names), size, outputFolder) ==
            CopyFor(JoinEach(subjectFolder, names), size, outputFolder)
  {
    var imgs := JoinEach(subjectFolder, names);
    var biggest := imgs[ArgMax(imgs, size)];
    assert biggest == Join(subjectFolder, names[ArgMax(imgs, size)]);
    AbsoluteJoinIsAbsolute(subjectFolder, names[ArgMax(imgs, size)]);
    assert Join(subjectFolder, biggest) == biggest;
  }

  /** The input that shows it: `select_imgs('imgs')` with subject `s1` holding
      `a.nii.gz` lists `imgs/s1/a.nii.gz` and then copies from
      `imgs/s1/imgs/s1/a.nii.gz`, a path that is not that file. */
  lemma AsWrittenSourceExample(size: string -> nat)
    ensures var image := "imgs/s1/a.nii.gz";
      && CopyForAsWritten("imgs/s1", [image], size, "imgs/selected").source == "imgs/s1/" + image
      && CopyForAsWritten("imgs/s1", [image], size, "imgs/selected").source != image
      && CopyFor([image], size, "imgs/selected").source == image
  {
    var folder, image := "imgs/s1", "imgs/s1/a.nii.gz";
    assert ArgMax([image], size) == 0;
    assert !StartsWith(image, "/") by { assert image[..1][0] == 'i'; }
    assert !EndsWith(folder, "/") by { assert folder[|folder| - 1..][0] == '1'; }
    assert folder + "/" == "imgs/s1/";
  }

  datatype SubjectStep = NotASubject | EmptySubject | Copy(op: CopyOp)

  /** One entry of `os.listdir(images_folder)`: a directory other than one named
      'selected' (whatever the output folder is called) is a subject; an empty
      one makes `max` raise. */
  function SelectSubject(imagesFolder: string, outputFolder: string, disk: Disk, subject: string): (step: SubjectStep)
    ensures step.NotASubject? <==> !disk.isDir(Join(imagesFolder, subject)) || subject == "selected"
    ensures step.EmptySubject? <==> !step.NotASubject? && disk.listDir(Join(imagesFolder, subject)) == []
  {
    var subjectFolder := Join(imagesFolder, subject);
    if !disk.isDir(subjectFolder) || subject == "selected" then NotASubject
    else if disk.listDir(subjectFolder) == [] then EmptySubject
    else Copy(CopyFor(JoinEach(subjectFolder, disk.listDir(subjectFolder)), disk.size, outputFolder))
  }

  /** `op` is the copy `select_imgs` makes for `subject`: a directory other than
      'selected', whose largest listed file is copied under its own name into
      the output folder. */
  predicate IsSubjectCopy(imagesFolder: string, outputFolder: string, disk: Disk, subject: string, op: CopyOp) {
    var folder := Join(imagesFolder, subject);
    var imgs := JoinEach(folder, disk.listDir(folder));
    && disk.isDir(folder) && subject != "selected"
    && op.source in imgs
    && (forall f :: f in imgs ==> disk.size(f) <= disk.size(op.source))
    && op.destination == Join(outputFolder, LastComponent(op.source))
  }

  /** The copies made, and the subject whose empty folder made `max` raise. */
  datatype SelectResult = SelectResult(copies: seq<CopyOp>, failedAt: Option<string>)

  /** What each entry of the listing leads to, entry by entry. */
  function Steps(imagesFolder: string, outputFolder: string, disk: Disk, subjects: seq<string>): (steps: seq<SubjectStep>)
    ensures |steps| == |subjects|
    ensures forall i :: 0 <= i < |subjects| ==> steps[i] == SelectSubject(imagesFolder, outputFolder, disk, subjects[i])
  {
    seq(|subjects|, i requires 0 <= i < |subjects| => SelectSubject(imagesFolder, outputFolder, disk, subjects[i]))
  }

  /** The loop over the listing from entry `i` on, `steps` being what each entry
      leads to: skip, copy, or stop at an empty subject folder. */
  function SelectFrom(subjects: seq<string>, steps: seq<SubjectStep>, i: nat, copies: seq<CopyOp>): SelectResult
    requires |steps| == |subjects| && i <= |subjects|
    decreases |subjects| - i
  {
    if i == |subjects| then SelectResult(copies, None)
    else match steps[i]
      case EmptySubject => SelectResult(copies, Some(subjects[i]))
      case NotASubject => SelectFrom(subjects, steps, i + 1, copies)
      case Copy(op) => SelectFrom(subjects, steps, i + 1, copies + [op])
  }

  /** `select_imgs(images_folder, output_folder)`, with the copy source corrected
      to the chosen file itself. Returns the output folder. */
  method SelectImgs(imagesFolder: string, outputFolder: Option<string>, disk: Disk)
    returns (out: string, result: SelectResult)
    ensures out == DefaultedChild(imagesFolder, outputFolder, "selected")
    ensures result == SelectFrom(disk.listDir(imagesFolder), Steps(imagesFolder, out, disk, disk.listDir(imagesFolder)), 0, [])
  {
    out := if outputFolder.None? then Join(imagesFolder, "selected") else outputFolder.value;
    var subjects := disk.listDir(imagesFolder);
    ghost var steps := Steps(imagesFolder, out, disk, subjects);
    var copies: seq<CopyOp> := [];
    for i := 0 to |subjects|
      invariant SelectFrom(subjects, steps, i, copies) == SelectFrom(subjects, steps, 0, [])
    {
      var subject := subjects[i];
      var subjectFolder := Join(imagesFolder, subject);
      assert steps[i] == SelectSubject(imagesFolder, out, disk, subject);
      if !disk.isDir(subjectFolder) || subject == "selected" {
        continue;
      }
      var imgs := JoinEach(subjectFolder, disk.listDir(subjectFolder));
      if |imgs| == 0 {
        // max() of an empty sequence raises ValueError, which ends the run
        return out, SelectResult(copies, Some(subject));
      }
      var op := CopyFor(imgs, disk.size, out);
      copies := copies + [op];
    }
    result := SelectResult(copies, None);
  }

  /** The copies one step adds. */
  function StepCopies(step: SubjectStep): seq<CopyOp> {
    if step.Copy? then [step.op] else []
  }

  /** Reference definition: the copies for the entries `lo` to `hi` (exclusive)
      of a listing, one per subject folder that holds files, in listing order. */
  function Chosen(steps: seq<SubjectStep>, lo: nat, hi: nat): seq<CopyOp>
    requires lo <= hi <= |steps|
    decreases hi - lo
  {
    if lo == hi then [] else StepCopies(steps[lo]) + Chosen(steps, lo + 1, hi)
  }

  /** A step that is not an empty subject folder lets the loop go on. */
  lemma SelectFromStep(subjects: seq<string>, steps: seq<SubjectStep>, i: nat, copies: seq<CopyOp>)
    requires |steps| == |subjects| && i < |subjects|
    requires !steps[i].EmptySubject?
    ensures SelectFrom(subjects, steps, i, copies) == SelectFrom(subjects, steps, i + 1, copies + StepCopies(steps[i]))
  {
    assert copies + [] == copies;
  }

  /** With no empty subject folder ahead, the run completes and copies what
      `Chosen` says. */
  lemma {:induction false} SelectFromCompletes(subjects: seq<string>, steps: seq<SubjectStep>, i: nat, copies: seq<CopyOp>)
    requires |steps| == |subjects| && i <= |subjects|
    requires forall m :: i <= m < |steps| ==> !steps[m].EmptySubject?
    ensures SelectFrom(subjects, steps, i, copies) == SelectResult(copies + Chosen(steps, i, |steps|), None)
    decreases |subjects| - i
  {
    if i == |subjects| {
      assert copies + [] == copies;
    } else {
      SelectFromStep(subjects, steps, i, copies);
      SelectFromCompletes(subjects, steps, i + 1, copies + StepCopies(steps[i]));
      assert copies + StepCopies(steps[i]) + Chosen(steps, i + 1, |steps|) == copies + Chosen(steps, i, |steps|);
    }
  }

  /** The run stops at the first empty subject folder, keeping the copies made
      for the entries before it. */
  lemma {:induction false} SelectFromStopsAt(subjects: seq<string>, steps: seq<SubjectStep>, i: nat, copies: seq<CopyOp>, j: nat)
    requires |steps| == |subjects| && i <= j < |subjects|
    requires steps[j].EmptySubject?
    requires forall m :: i <= m < j ==> !steps[m].EmptySubject?
    ensures SelectFrom(subjects, steps, i, copies) == SelectResult(copies + Chosen(steps, i, j), Some(subjects[j]))
    decreases j - i
  {
    if i == j {
      assert copies + [] == copies;
    } else {
      SelectFromStep(subjects, steps, i, copies);
      SelectFromStopsAt(subjects, steps, i + 1, copies + StepCopies(steps[i]), j);
      assert copies + StepCopies(steps[i]) + Chosen(steps, i + 1, j) == copies + Chosen(steps, i, j);
    }
  }

  /** The copy a subject folder leads to is `IsSubjectCopy`. */
  lemma SubjectCopy(imagesFolder: string, outputFolder: string, disk: Disk, subject: string)
    ensures var step := SelectSubject(imagesFolder, outputFolder, disk, subject);
      step.Copy? ==> IsSubjectCopy(imagesFolder, outputFolder, disk, subject, step.op)
  {
  }

  /** Each copy in `Chosen` is the copy of one step in the range. */
  lemma {:induction false} ChosenFromSteps(steps: seq<SubjectStep>, lo: nat, hi: nat, k: nat)
    requires lo <= hi <= |steps| && k < |Chosen(steps, lo, hi)|
    ensures exists m :: lo <= m < hi && steps[m] == Copy(Chosen(steps, lo, hi)[k])
    decreases hi - lo
  {
    var first := StepCopies(steps[lo]);
    if k >= |first| {
      ChosenFromSteps(steps, lo + 1, hi, k - |first|);
      assert Chosen(steps, lo, hi)[k] == Chosen(steps, lo + 1, hi)[k - |first|];
    }
  }

  /** Every copy of a completed run is the largest file of a subject folder,
      copied into the output folder under its own name. */
  lemma ChosenCopiesLargest(imagesFolder: string, outputFolder: string, disk: Disk,
                            subjects: seq<string>, lo: nat, hi: nat, k: nat)
    requires lo <= hi <= |subjects|
    requires k < |Chosen(Steps(imagesFolder, outputFolder, disk, subjects), lo, hi)|
    ensures var op := Chosen(Steps(imagesFolder, outputFolder, disk, subjects), lo, hi)[k];
      exists m :: lo <= m < hi && IsSubjectCopy(imagesFolder, outputFolder, disk, subjects[m], op)
  {
    var steps := Steps(imagesFolder, outputFolder, disk, subjects);
    ChosenFromSteps(steps, lo, hi, k);
    var m :| lo <= m < hi && steps[m] == Copy(Chosen(steps, lo, hi)[k]);
    SubjectCopy(imagesFolder, outputFolder, disk, subjects[m]);
  }
}
