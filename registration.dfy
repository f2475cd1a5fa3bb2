/** src/registration.py: `register_imgs(folder, fixed_image, output_dir)` lists
    `folder`, keeps the `.nii.gz` files other than the fixed image, and registers
    them to it with the engine. `listing` stands for `os.listdir(folder)`; the
    engine call is the value handed to it (the source discards the model). */
module Registration {
  import opened Python
  import opened Options
  import opened Deformetrica

  /** `cond(x)`: a NIfTI file that is not the fixed image, compared by name. */
  predicate Kept(name: string, fixedImage: string)
    ensures Kept(name, fixedImage) ==> name != fixedImage && |name| >= 7
  {
    EndsWith(name, ".nii.gz") && name != fixedImage
  }

  /** A bare `.nii.gz` name loses only `.gz` to `splitext`. */
  lemma NiftiStem(name: string)
    ensures EndsWith(name, ".nii.gz") && '/' !in name ==> Stem(name) == name[..|name| - 3]
  {
    if EndsWith(name, ".nii.gz") && '/' !in name {
      var x := name[..|name| - 7];
      assert name == x + ".nii.gz";
      assert x + ".nii" == name[..|name| - 3];
      StemOfNifti(x);
    }
  }

  /** `[f for f in os.listdir(folder) if cond(f)]` */
  function FileNames(listing: seq<string>, fixedImage: string): (r: seq<string>)
    ensures |r| <= |listing|
    ensures forall n :: n in r <==> n in listing && Kept(n, fixedImage)
  {
    if listing == [] then []
    else
      var rest := FileNames(listing[1..], fixedImage);
      assert forall n :: n in listing <==> n == listing[0] || n in listing[1..];
      if Kept(listing[0], fixedImage) then [listing[0]] + rest else rest
  }

  /** Each kept name appears as often as in the listing; the others not at all. */
  lemma {:induction false} FileNamesCounts(listing: seq<string>, fixedImage: string)
    ensures forall n :: multiset(FileNames(listing, fixedImage))[n] ==
                        if Kept(n, fixedImage) then multiset(listing)[n] else 0
  {
    if listing != [] {
      var rest := FileNames(listing[1..], fixedImage);
      FileNamesCounts(listing[1..], fixedImage);
      assert listing == [listing[0]] + listing[1..];
      assert multiset(listing) == multiset([listing[0]]) + multiset(listing[1..]);
      if Kept(listing[0], fixedImage) {
        assert multiset([listing[0]] + rest) == multiset([listing[0]]) + multiset(rest);
      }
    }
  }

  /** The filter keeps listing order: filtering a concatenation concatenates the
      filtered parts. */
  lemma {:induction false} FileNamesAppend(a: seq<string>, b: seq<string>, fixedImage: string)
    ensures FileNames(a + b, fixedImage) == FileNames(a, fixedImage) + FileNames(b, fixedImage)
  {
    if a == [] {
      assert a + b == b;
    } else {
      assert (a + b)[0] == a[0] && (a + b)[1..] == a[1..] + b;
      FileNamesAppend(a[1..], b, fixedImage);
    }
  }

  /** `[{'skull': ...}]` file groups and ids are built from the kept names. */
  function SubjectIds(names: seq<string>): (r: seq<Value>)
    ensures |r| == |names|
    ensures forall i :: 0 <= i < |names| ==> r[i] == VStr(names[i])
  {
    seq(|names|, i requires 0 <= i < |names| => VStr(names[i]))
  }

  /** The fixed image as the template: an image object read from `fixed_image`. */
  function TemplateSpecifications(fixedImage: string): Dict {
    map["skull" := VDict(map[
      "deformable_object_type" := VStr("image"),
      "kernel_type" := VStr("torch"),
      "kernel_width" := VFloat("20.0"),
      "noise_std" := VFloat("1.0"),
      "filename" := VStr(fixedImage),
      "attachment_type" := VStr("varifold")])]
  }

  function EstimatorOptions(): Dict {
    map["optimization_method_type" := VStr("GradientAscent"),
        "initial_step_size" := VFloat("1."),
        "max_iterations" := VInt(25),
        "max_line_search_iterations" := VInt(10)]
  }

  function ModelOptions(): Dict {
    map["deformation_kernel_type" := VStr("torch"),
        "deformation_kernel_width" := VFloat("40.0")]
  }

  /** `dataset_specifications`: the file groups and ids of the kept names. */
  function DatasetSpecifications(folder: string, names: seq<string>): Dict {
    map["dataset_filenames" := VList(DatasetFilenames(JoinEach(folder, names))),
        "subject_ids" := VList(SubjectIds(names))]
  }

  /** `register_imgs(folder, fixed_image, output_dir)`: the registration call on
      `Deformetrica(output_dir, verbosity='INFO')`. The engine is used directly,
      not through `deform_atlas_reg`: no output-folder guard, no defaults merged,
      no callback. */
  function RegisterImgs(folder: string, fixedImage: string, outputDir: string, listing: seq<string>): (call: EngineCall)
    ensures !ReportsToModuleLog(call.eopt)
  {
    EngineCall(Registration, outputDir, "INFO", false, TemplateSpecifications(fixedImage),
               DatasetSpecifications(folder, FileNames(listing, fixedImage)), ModelOptions(), EstimatorOptions())
  }

  /** The call is a registration on `output_dir` with verbosity INFO that creates
      no folder, and the template's `filename` is `fixed_image` verbatim. */
  lemma RegisterImgsCall(folder: string, fixedImage: string, outputDir: string, listing: seq<string>)
    ensures var call := RegisterImgs(folder, fixedImage, outputDir, listing);
      && call.estimator == Registration && call.outputPath == outputDir && call.verbosity == "INFO"
      && !call.createsOutputFolder
      && call.tmpl.Keys == {"skull"} && call.tmpl["skull"].VDict?
      && "filename" in call.tmpl["skull"].entries && call.tmpl["skull"].entries["filename"] == VStr(fixedImage)
  {
  }

  /** The dataset dict holds exactly the two lists. */
  lemma RegisterImgsDataset(folder: string, fixedImage: string, outputDir: string, listing: seq<string>)
    ensures RegisterImgs(folder, fixedImage, outputDir, listing).dtset.Keys == {"dataset_filenames", "subject_ids"}
  {
    DatasetKeys(folder, FileNames(listing, fixedImage));
  }

  /** The estimator options carry no `callback` at all, so the engine keeps its
      own default. */
  lemma RegisterImgsNoCallback(folder: string, fixedImage: string, outputDir: string, listing: seq<string>)
    ensures "callback" !in RegisterImgs(folder, fixedImage, outputDir, listing).eopt
  {
  }

  lemma DatasetKeys(folder: string, names: seq<string>)
    ensures DatasetSpecifications(folder, names).Keys == {"dataset_filenames", "subject_ids"}
  {
  }

  /** Entry `i` of the two dataset lists is about the same kept file: its file
      group reads `folder/name` and its id is `name`, extension included. */
  lemma RegisterImgsParallel(folder: string, fixedImage: string, outputDir: string, listing: seq<string>)
    ensures var call := RegisterImgs(folder, fixedImage, outputDir, listing);
      var names := FileNames(listing, fixedImage);
      var fns := call.dtset["dataset_filenames"].items;
      var ids := call.dtset["subject_ids"].items;
      && |fns| == |ids| == |names|
      && forall i :: 0 <= i < |names| ==>
           fns[i] == SkullGroup(Join(folder, names[i])) && ids[i] == VStr(names[i]) && Kept(names[i], fixedImage)
  {
    var names := FileNames(listing, fixedImage);
    forall i | 0 <= i < |names| ensures Kept(names[i], fixedImage) {
      assert names[i] in names;
    }
  }

  /** For listing entries (names without '/'), each file path splits back into the
      folder and the kept name. */
  lemma FilePathsSplit(folder: string, fixedImage: string, listing: seq<string>)
    requires forall n :: n in listing ==> IsName(n)
    ensures var names := FileNames(listing, fixedImage);
      forall i :: 0 <= i < |names| ==> Split(JoinEach(folder, names)[i]) == (NormalizeHead(folder), names[i])
  {
    var names := FileNames(listing, fixedImage);
    forall i | 0 <= i < |names| ensures Split(JoinEach(folder, names)[i]) == (NormalizeHead(folder), names[i]) {
      assert names[i] in names;
      JoinThenSplit(folder, names[i]);
    }
  }

  /** The exclusion compares bare names: a fixed image given as a path (with a
      '/') excludes nothing, so the fixed image is registered to itself. */
  lemma {:induction false} FixedPathExcludesNothing(listing: seq<string>, fixedImage: string)
    requires '/' in fixedImage
    requires forall n :: n in listing ==> '/' !in n
    ensures FileNames(listing, fixedImage) == FileNames(listing, "")
  {
    if listing != [] {
      assert listing[0] in listing;
      assert listing[0] != fixedImage;
      assert forall n :: n in listing[1..] ==> n in listing;
      FixedPathExcludesNothing(listing[1..], fixedImage);
    }
  }

  /** `os.path.splitext` of a NIfTI name strips only `.gz`. */
  lemma StemOfNifti(x: string)
    requires '/' !in x
    ensures Stem(x + ".nii.gz") == x + ".nii"
  {
    var stem := x + ".nii";
    assert stem + "." + "gz" == x + ".nii.gz";
    assert stem[|x| + 1] == 'n';
    assert forall i :: 0 <= i < |x| ==> x[i] != '/';
    assert forall i :: 0 <= i < |stem| ==> stem[i] != '/';
    SplitExtStripsLastOnly(stem, "gz");
  }

  /** Stem-based ids (as `deform_atlas_reg` builds them) and the full-name ids
      used here differ for every NIfTI file: `x.nii` against `x.nii.gz`. */
  lemma IdsKeepExtension(x: string)
    requires '/' !in x
    ensures Deformetrica.SubjectIds([x + ".nii.gz"]) == [VStr(x + ".nii")]
    ensures SubjectIds([x + ".nii.gz"]) == [VStr(x + ".nii.gz")]
  {
    var n := x + ".nii.gz";
    assert forall i :: 0 <= i < |x| ==> x[i] != '/';
    assert forall i :: 0 <= i < |n| ==> n[i] != '/';
    BasenameOfName(n);
    StemOfNifti(x);
  }
}
