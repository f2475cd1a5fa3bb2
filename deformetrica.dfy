/** src/deformetrica.py: the module-level status log filled by `estimator_callback`,
    and `deform_atlas_reg`, which names the output folder, refuses to overwrite a
    populated one, merges the user's option dicts over the defaults and hands the
    four dicts to the engine's atlas or registration estimator. The engine itself
    is opaque: what it is called with is recorded as an `EngineCall`, and the status
    records it would report once per iteration are an input. */
module Deformetrica {
  import opened Python
  import opened Options

  /** The module-level list `iteration_status_dictionaries`. One object stands for
      the module's lifetime: nothing ever empties it. */
  class StatusLog {
    var entries: seq<Dict>

    /** The module is imported with an empty list. */
    constructor ()
      ensures entries == []
    {
      entries := [];
    }

    /** `estimator_callback(status_dict)`: append the record, ask the engine to go on. */
    method EstimatorCallback(status: Dict) returns (keepGoing: bool)
      modifies this
      ensures entries == old(entries) + [status]
      ensures keepGoing
    {
      entries := entries + [status];
      keepGoing := true;
    }
  }

  datatype Estimator = DeterministicAtlas | Registration

  /** A call into the engine: which estimator, the `Deformetrica(output_path,
      verbosity)` it runs on, whether the output folder had to be created first,
      and the four dicts. It also stands for the (opaque) model the call returns. */
  datatype EngineCall = EngineCall(
    estimator: Estimator,
    outputPath: string,
    verbosity: string,
    createsOutputFolder: bool,
    tmpl: Dict,
    dtset: Dict,
    mopt: Dict,
    eopt: Dict)

  /** The arguments `deform_atlas_reg` shares with its two wrappers. */
  datatype Request = Request(
    templatePath: string,
    datasetPaths: seq<string>,
    outputPath: Option<string>,
    templateSpecifications: Option<Dict>,
    datasetSpecifications: Option<Dict>,
    modelOptions: Option<Dict>,
    estimatorOptions: Option<Dict>,
    verbosity: string,
    overwrite: bool)

  /** Python truthiness of `output_path`: `None` and `''` are false. */
  predicate Truthy(p: Option<string>) {
    p.Some? && p.value != ""
  }

  /** `'atlas_' if atlas_creation else 'reg_'` */
  function FolderPrefix(atlasCreation: bool): (p: string)
    ensures IsName(p)
  {
    if atlasCreation then "atlas_" else "reg_"
  }

  /** `('atlas_' if atlas_creation else 'reg_') + splitext(split(template_path)[1])[0]`:
      a single path component, the prefix followed by the template's file name
      with its last extension dropped. */
  function OutputFolderName(templatePath: string, atlasCreation: bool): (r: string)
    ensures IsName(r)
    ensures StartsWith(r, FolderPrefix(atlasCreation))
    ensures r[|FolderPrefix(atlasCreation)|..] + SplitExt(Basename(templatePath)).1 == Basename(templatePath)
  {
    var prefix := FolderPrefix(atlasCreation);
    var stem := Stem(Basename(templatePath));
    StemOfName(Basename(templatePath));
    NameConcat(prefix, stem);
    assert (prefix + stem)[..|prefix|] == prefix;
    assert (prefix + stem)[|prefix|..] == stem;
    prefix + stem
  }

  /** The output folder: `output_path` when it is truthy, otherwise a sibling of
      the template named after it. */
  function ResolveOutputPath(outputPath: Option<string>, templatePath: string, atlasCreation: bool): (r: string)
    ensures Truthy(outputPath) ==> r == outputPath.value
    ensures !Truthy(outputPath) ==> Dirname(r) == Dirname(templatePath)
    ensures !Truthy(outputPath) ==> Basename(r) == OutputFolderName(templatePath, atlasCreation)
  {
    if Truthy(outputPath) then outputPath.value
    else
      var dir := Dirname(templatePath);
      var name := OutputFolderName(templatePath, atlasCreation);
      JoinThenSplit(dir, name);
      DirnameIsNormal(templatePath);
      Join(dir, name)
  }

  /** The early return: the folder exists, overwriting is off and it already holds
      more than five entries. */
  predicate KeepsExistingOutput(pathExists: bool, overwrite: bool, entries: seq<string>) {
    pathExists && !overwrite && |entries| > 5
  }

  /** Default `tmpl`: one 'skull' object read from the template path. */
  function DefaultTemplateSpecifications(templatePath: string): (d: Dict)
    ensures d.Keys == {"skull"} && d["skull"].VDict?
    ensures "filename" in d["skull"].entries && d["skull"].entries["filename"] == VStr(templatePath)
  {
    map["skull" := VDict(map[
      "deformable_object_type" := VStr("SurfaceMesh"),
      "kernel_type" := VStr("torch"),
      "kernel_width" := VFloat("20.0"),
      "noise_std" := VFloat("10.0"),
      "filename" := VStr(templatePath),
      "attachment_type" := VStr("current")])]
  }

  /** `[[{'skull': f}] for f in dataset_paths]` */
  function DatasetFilenames(paths: seq<string>): (r: seq<Value>)
    ensures |r| == |paths|
    ensures forall i :: 0 <= i < |paths| ==> r[i] == SkullGroup(paths[i])
  {
    if paths == [] then [] else [SkullGroup(paths[0])] + DatasetFilenames(paths[1..])
  }

  /** `[splitext(split(f)[1])[0] for f in dataset_paths]`: each id is the file name
      with its last extension removed. */
  function SubjectIds(paths: seq<string>): (r: seq<Value>)
    ensures |r| == |paths|
    ensures forall i :: 0 <= i < |paths| ==> r[i] == VStr(Stem(Basename(paths[i])))
    ensures forall i :: 0 <= i < |paths| ==>
      r[i].VStr? && r[i].s + SplitExt(Basename(paths[i])).1 == Basename(paths[i])
  {
    if paths == [] then [] else [VStr(Stem(Basename(paths[0])))] + SubjectIds(paths[1..])
  }

  /** Default `dtset`. */
  function DefaultDatasetSpecifications(paths: seq<string>): (d: Dict)
    ensures d.Keys == {"dataset_filenames", "subject_ids"}
    ensures d["dataset_filenames"].VList? && |d["dataset_filenames"].items| == |paths|
    ensures d["subject_ids"].VList? && |d["subject_ids"].items| == |paths|
  {
    map["dataset_filenames" := VList(DatasetFilenames(paths)),
        "subject_ids" := VList(SubjectIds(paths))]
  }

  /** Default `mopt`. */
  function DefaultModelOptions(): (d: Dict)
    ensures d.Keys == {"deformation_kernel_type", "deformation_kernel_width", "dtype"}
  {
    map["deformation_kernel_type" := VStr("torch"),
        "deformation_kernel_width" := VFloat("40.0"),
        "dtype" := VStr("float32")]
  }

  /** Default `eopt`: gradient ascent reporting to `estimator_callback`. */
  function DefaultEstimatorOptions(): (d: Dict)
    ensures ReportsToModuleLog(d)
  {
    map["optimization_method_type" := VStr("GradientAscent"),
        "initial_step_size" := VFloat("1."),
        "max_iterations" := VInt(25),
        "max_line_search_iterations" := VInt(10),
        "callback" := VCallback(ModuleEstimatorCallback)]
  }

  /** `tmpl` after `if template_specifications: tmpl.update(template_specifications)` */
  function MergedTemplate(rq: Request): Dict {
    Update(DefaultTemplateSpecifications(rq.templatePath), rq.templateSpecifications)
  }

  /** `dtset` after the user's `dataset_specifications` */
  function MergedDataset(rq: Request): Dict {
    Update(DefaultDatasetSpecifications(rq.datasetPaths), rq.datasetSpecifications)
  }

  /** `mopt` after the user's `model_options` */
  function MergedModelOptions(rq: Request): Dict {
    Update(DefaultModelOptions(), rq.modelOptions)
  }

  /** `eopt` after the user's `estimator_options` */
  function MergedEstimatorOptions(rq: Request): Dict {
    Update(DefaultEstimatorOptions(), rq.estimatorOptions)
  }

  function EstimatorFor(atlasCreation: bool): Estimator {
    if atlasCreation then DeterministicAtlas else Registration
  }

  /** What `deform_atlas_reg` does with its arguments: nothing (the early return),
      or one engine call. */
  function Plan(rq: Request, atlasCreation: bool, pathExists: string -> bool, listDir: string -> seq<string>): (r: Option<EngineCall>)
    ensures r.None? ==> !rq.overwrite && pathExists(ResolveOutputPath(rq.outputPath, rq.templatePath, atlasCreation))
    ensures r.Some? ==> "callback" in r.value.eopt && "skull" in r.value.tmpl
  {
    var out := ResolveOutputPath(rq.outputPath, rq.templatePath, atlasCreation);
    if KeepsExistingOutput(pathExists(out), rq.overwrite, listDir(out)) then None
    else Some(EngineCall(EstimatorFor(atlasCreation), out, rq.verbosity, !pathExists(out),
                         MergedTemplate(rq), MergedDataset(rq), MergedModelOptions(rq), MergedEstimatorOptions(rq)))
  }

  /** True when the engine is told to report to the module's own callback. */
  predicate ReportsToModuleLog(eopt: Dict) {
    "callback" in eopt && eopt["callback"] == VCallback(ModuleEstimatorCallback)
  }

  /** The records that end up in the module log: the engine's reports, when the
      call happened and its callback is `estimator_callback`. */
  function CallbackRecords(model: Option<EngineCall>, reported: seq<Dict>): seq<Dict> {
    if model.Some? && ReportsToModuleLog(model.value.eopt) then reported else []
  }

  /** `deform_atlas_reg`. `pathExists` and `listDir` stand for `os.path.exists` and
      `os.listdir`; `reported` for the status records the engine passes to its
      callback, one per iteration. */
  method DeformAtlasReg(log: StatusLog, rq: Request, atlasCreation: bool,
                        pathExists: string -> bool, listDir: string -> seq<string>,
                        reported: seq<Dict>)
    returns (model: Option<EngineCall>)
    modifies log
    ensures model == Plan(rq, atlasCreation, pathExists, listDir)
    ensures log.entries == old(log.entries) + CallbackRecords(model, reported)
  {
    var outputPath := ResolveOutputPath(rq.outputPath, rq.templatePath, atlasCreation);
    if pathExists(outputPath) && !rq.overwrite {
      if |listDir(outputPath)| > 5 {
        return None;
      }
    }
    var createsOutputFolder := !pathExists(outputPath);
    var tmpl, dtset, mopt, eopt := MergeOptions(rq);
    var call := EngineCall(EstimatorFor(atlasCreation), outputPath, rq.verbosity, createsOutputFolder, tmpl, dtset, mopt, eopt);
    assert Plan(rq, atlasCreation, pathExists, listDir) == Some(call);

    RunEngine(log, call, reported);
    model := Some(call);
  }

  /** `Deformetrica(...).estimate_...(tmpl, dtset, model_options=mopt,
      estimator_options=eopt)`: the engine reports every iteration to the
      callback it was given, so the module log grows only when that callback is
      `estimator_callback`. */
  method RunEngine(log: StatusLog, call: EngineCall, reported: seq<Dict>)
    modifies log
    ensures log.entries == old(log.entries) + CallbackRecords(Some(call), reported)
  {
    if ReportsToModuleLog(call.eopt) {
      ReportIterations(log, reported);
    }
  }

  /** The four dicts of `deform_atlas_reg`: each starts from its defaults and
      takes the user's dict, when one is given, with `dict.update`. */
  method MergeOptions(rq: Request) returns (tmpl: Dict, dtset: Dict, mopt: Dict, eopt: Dict)
    ensures tmpl == MergedTemplate(rq) && dtset == MergedDataset(rq)
    ensures mopt == MergedModelOptions(rq) && eopt == MergedEstimatorOptions(rq)
  {
    tmpl := UpdateWith(DefaultTemplateSpecifications(rq.templatePath), rq.templateSpecifications);
    dtset := UpdateWith(DefaultDatasetSpecifications(rq.datasetPaths), rq.datasetSpecifications);
    mopt := UpdateWith(DefaultModelOptions(), rq.modelOptions);
    eopt := UpdateWith(DefaultEstimatorOptions(), rq.estimatorOptions);
  }

  /** The engine calling `estimator_callback` once per iteration. */
  method ReportIterations(log: StatusLog, reported: seq<Dict>)
    modifies log
    ensures log.entries == old(log.entries) + reported
  {
    for i := 0 to |reported|
      invariant log.entries == old(log.entries) + reported[..i]
    {
      var _ := log.EstimatorCallback(reported[i]);
    }
    assert reported[..|reported|] == reported;
  }

  /** `estimate_registration`: `deform_atlas_reg` with `atlas_creation=False`.
      (The Python wrapper drops the model; it is returned here to state the forwarding.) */
  method EstimateRegistration(log: StatusLog, rq: Request,
                              pathExists: string -> bool, listDir: string -> seq<string>,
                              reported: seq<Dict>)
    returns (model: Option<EngineCall>)
    modifies log
    ensures model == Plan(rq, false, pathExists, listDir)
    ensures log.entries == old(log.entries) + CallbackRecords(model, reported)
  {
    model := DeformAtlasReg(log, rq, false, pathExists, listDir, reported);
  }

  /** `estimate_atlas`: `deform_atlas_reg` with `atlas_creation=True`. */
  method EstimateAtlas(log: StatusLog, rq: Request,
                       pathExists: string -> bool, listDir: string -> seq<string>,
                       reported: seq<Dict>)
    returns (model: Option<EngineCall>)
    modifies log
    ensures model == Plan(rq, true, pathExists, listDir)
    ensures log.entries == old(log.entries) + CallbackRecords(model, reported)
  {
    model := DeformAtlasReg(log, rq, true, pathExists, listDir, reported);
  }

  /** Two runs in one process: the second run's records follow the first's, which
      are still there. Both runs see the same `pathExists` and `listDir`, so the
      output folder the first run creates and fills is not visible to the second. */
  method TwoRuns(log: StatusLog, first: Request, second: Request,
                 pathExists: string -> bool, listDir: string -> seq<string>,
                 reported1: seq<Dict>, reported2: seq<Dict>)
    returns (m1: Option<EngineCall>, m2: Option<EngineCall>)
    modifies log
    ensures m1 == Plan(first, true, pathExists, listDir) && m2 == Plan(second, false, pathExists, listDir)
    ensures log.entries == old(log.entries) + CallbackRecords(m1, reported1) + CallbackRecords(m2, reported2)
  {
    m1 := EstimateAtlas(log, first, pathExists, listDir, reported1);
    m2 := EstimateRegistration(log, second, pathExists, listDir, reported2);
  }

  /** The early return happens exactly when the chosen folder pathExists, overwriting is
      off and the folder holds more than five entries; five or fewer never stop a run. */
  lemma PlanStopsIff(rq: Request, atlasCreation: bool, pathExists: string -> bool, listDir: string -> seq<string>)
    ensures var out := ResolveOutputPath(rq.outputPath, rq.templatePath, atlasCreation);
      && (Plan(rq, atlasCreation, pathExists, listDir).None? <==> pathExists(out) && !rq.overwrite && |listDir(out)| > 5)
      && (|listDir(out)| <= 5 ==> Plan(rq, atlasCreation, pathExists, listDir).Some?)
  {
  }

  /** Atlas and registration differ only in the estimator they select (and the
      default folder prefix): the same four dicts reach the engine either way. */
  lemma PlanDispatch(rq: Request, pathExists: string -> bool, listDir: string -> seq<string>)
    ensures Plan(rq, true, pathExists, listDir).Some? ==> Plan(rq, true, pathExists, listDir).value.estimator == DeterministicAtlas
    ensures Plan(rq, false, pathExists, listDir).Some? ==> Plan(rq, false, pathExists, listDir).value.estimator == Registration
    ensures Plan(rq, true, pathExists, listDir).Some? && Plan(rq, false, pathExists, listDir).Some? ==>
      var a, r := Plan(rq, true, pathExists, listDir).value, Plan(rq, false, pathExists, listDir).value;
      a.tmpl == r.tmpl && a.dtset == r.dtset && a.mopt == r.mopt && a.eopt == r.eopt
  {
    PlanFields(rq, true, pathExists, listDir);
    PlanFields(rq, false, pathExists, listDir);
  }

  /** The estimator and the four dicts of a call `Plan` makes. */
  lemma PlanFields(rq: Request, atlasCreation: bool, pathExists: string -> bool, listDir: string -> seq<string>)
    ensures var p := Plan(rq, atlasCreation, pathExists, listDir);
      p.Some? ==>
        && p.value.estimator == EstimatorFor(atlasCreation)
        && p.value.tmpl == MergedTemplate(rq) && p.value.dtset == MergedDataset(rq)
        && p.value.mopt == MergedModelOptions(rq) && p.value.eopt == MergedEstimatorOptions(rq)
  {
  }

  /** 'callback' is always set: the user's one when `estimator_options` has it,
      `estimator_callback` otherwise. */
  lemma PlanCallback(rq: Request, atlasCreation: bool, pathExists: string -> bool, listDir: string -> seq<string>)
    ensures var p := Plan(rq, atlasCreation, pathExists, listDir);
      p.Some? ==>
      && "callback" in p.value.eopt
      && p.value.eopt["callback"] ==
         if rq.estimatorOptions.Some? && "callback" in rq.estimatorOptions.value
         then rq.estimatorOptions.value["callback"]
         else VCallback(ModuleEstimatorCallback)
  {
  }

  /** The dataset lists are parallel to `dataset_paths` unless the user replaces them. */
  lemma PlanDatasetLists(rq: Request, atlasCreation: bool, pathExists: string -> bool, listDir: string -> seq<string>)
    requires Plan(rq, atlasCreation, pathExists, listDir).Some?
    requires rq.datasetSpecifications.None?
    ensures var d := Plan(rq, atlasCreation, pathExists, listDir).value.dtset;
      && d.Keys == {"dataset_filenames", "subject_ids"}
      && d["dataset_filenames"].VList? && d["subject_ids"].VList?
      && |d["dataset_filenames"].items| == |d["subject_ids"].items| == |rq.datasetPaths|
      && forall i :: 0 <= i < |rq.datasetPaths| ==>
           d["dataset_filenames"].items[i] == SkullGroup(rq.datasetPaths[i]) &&
           d["subject_ids"].items[i] == VStr(Stem(Basename(rq.datasetPaths[i])))
  {
  }

  /** The override is shallow: a user 'skull' entry replaces the whole default
      record, so keys it does not mention (here 'kernel_type') are gone. */
  lemma ShallowSkullOverride(templatePath: string, s: Value, k: string)
    ensures var tmpl := Update(DefaultTemplateSpecifications(templatePath), Some(map["skull" := s]));
      && tmpl.Keys == {"skull"} && tmpl["skull"] == s
      && (s.VDict? && k !in s.entries ==> k !in tmpl["skull"].entries)
  {
  }

  /** A call that passes only `template_path` and `dataset_paths`: every other
      parameter takes its default (`verbosity='INFO'`, `overwrite=True`). */
  function DefaultRequest(templatePath: string, datasetPaths: seq<string>): Request {
    Request(templatePath, datasetPaths, None, None, None, None, None, "INFO", true)
  }

  /** With the defaults the guard never fires: the engine always runs, at INFO,
      with the default dictionaries unchanged and the default output folder. */
  lemma DefaultRequestRuns(templatePath: string, datasetPaths: seq<string>, atlasCreation: bool,
                           pathExists: string -> bool, listDir: string -> seq<string>)
    ensures var p := Plan(DefaultRequest(templatePath, datasetPaths), atlasCreation, pathExists, listDir);
      && p.Some? && p.value.verbosity == "INFO"
      && p.value.outputPath == ResolveOutputPath(None, templatePath, atlasCreation)
      && p.value.tmpl == DefaultTemplateSpecifications(templatePath)
      && p.value.dtset == DefaultDatasetSpecifications(datasetPaths)
      && p.value.mopt == DefaultModelOptions()
      && p.value.eopt == DefaultEstimatorOptions()
  {
  }
}
