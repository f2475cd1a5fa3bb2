# mesh-skull-reconstruction: a verified model of the data-preparation and registration scripts

The repository prepares the CQ500 head-CT dataset and runs deformable
registration on it with Deformetrica. This project models the logic the scripts
own and proves properties of it in Dafny. Downloads, archives, DICOM decoding
and the registration mathematics belong to foreign libraries. The model takes
their results as inputs.

- `python.dfy` (module `Python`) writes out the Python behaviour the scripts
  depend on:
  - POSIX `os.path.split`, `splitext` (only the last extension goes) and `join`
    (an absolute second argument wins);
  - `str.split` with a one-character separator;
  - `str.replace`, which replaces every occurrence;
  - `max(..., key=)`, where the first largest element wins.
- `options.dfy` (module `Options`) models the option dictionaries handed to the
  engine and the shallow `dict.update` merge.
- `deformetrica.dfy` (module `Deformetrica`) models
  `src/deformetrica.py`:
  - the module-level status list fed by `estimator_callback`, as the class
    `StatusLog`;
  - `deform_atlas_reg`: the default output folder, the guard against a
    populated folder, the four default-then-user dictionaries, the per-subject
    lists and the choice of estimator;
  - the two wrappers around it.

  The engine call is recorded as an `EngineCall` value. The status records the
  engine would pass to its callback are an input.
- `cq500.dfy` (module `Cq500`) models the three loops of
  `src/datasets/cq500.py`:
  - `get_data` over the manifest lines;
  - `convert_nifti` over the `os.walk` roots;
  - `select_imgs` over the subject folders.

  Each loop is a method with a `for` loop. Each method is proved equal to a
  recursive specification function (`FetchFrom`, `ConvertFrom`, `SelectFrom`).
  The lemmas about those functions state:
  - which files are downloaded, extracted, converted and copied;
  - for `get_data` and `convert_nifti`, that a second run over what the first
    left behind does nothing new (`select_imgs` copies unconditionally, so a
    second run copies again).

  The filesystem is explicit. The loops grow a set of existing paths, and
  `isDir`, `listDir` and `size` are given as functions.
- `registration.dfy` (module `Registration`) models `register_imgs` in
  `src/registration.py`:
  - the `.nii.gz` filter that excludes the fixed image;
  - the parallel dataset lists;
  - the template built from the fixed image.

`get_data` builds the manifest path by plain concatenation
(`folder_path + 'cq500_files.txt'`), not by `os.path.join`, and the model does
the same. `register_imgs` uses whole file names as subject ids, while
`deform_atlas_reg` uses stems. `Registration.IdsKeepExtension` shows that the
two differ for every NIfTI file.

## Model

| member | source | states |
|---|---|---|
| Python.Split | src/deformetrica.py:76 | `os.path.split`: the tail holds no `/` and ends the path, and a `/` precedes it when the tail is not the whole path. The head is what precedes the tail with its trailing `/` stripped, unless it is all slashes |
| Python.SplitExt | src/deformetrica.py:76 | `os.path.splitext`: the two parts concatenate to the path, and the extension is empty or a single dot-led run with no further dot and no `/` |
| Python.SplitExtStripsLastOnly | src/deformetrica.py:107 | only the last extension is stripped: `stem + "." + e` splits into `stem` and `"." + e` whatever dots `stem` holds |
| Python.Join | src/datasets/cq500.py:40 | `os.path.join(a, b)`: an absolute `b` is returned as is; otherwise the result starts with `a`; either way it ends with `b` |
| Python.JoinEach | src/registration.py:21 | the joined list has one entry per name, and entry i is `join(folder, names[i])` |
| Python.JoinThenSplit | src/datasets/cq500.py:137 | splitting `join(a, n)` for a name `n` gives back the normalised head of `a` and `n` itself |
| Python.SplitOn | src/datasets/cq500.py:84 | `str.split(c)` yields at least one field, and no field contains `c` |
| Python.JoinOnSplitOn | src/datasets/cq500.py:84 | joining the fields of `s.split(c)` with `c` gives back `s` |
| Python.LastComponent | src/datasets/cq500.py:36 | `url.split('/')[-1]` contains no `/` |
| Python.LastComponentIsBasename | src/datasets/cq500.py:36 | the last `/`-field of a string is its `os.path.basename` |
| Python.ReplaceAll | src/datasets/cq500.py:49 | `str.replace`: a string with no occurrence of the pattern comes back unchanged, and a replacement no longer than the pattern never lengthens it |
| Python.ReplaceAllAfterClean | src/datasets/cq500.py:49 | `str.replace` leaves alone a prefix that holds no occurrence of a border-free pattern, when what follows starts with one |
| Python.ReplaceAllSuffix | src/datasets/cq500.py:49 | replacing a border-free pattern in `p + pat`, where `p` holds no occurrence, replaces only the suffix |
| Python.ArgMax | src/datasets/cq500.py:133 | `max(xs, key=)`: the chosen index has the largest key, and every earlier element has a strictly smaller one (the first maximum wins) |
| Options.Update | src/deformetrica.py:101-102 | the shallow `if u: d.update(u)`: without user dict nothing changes; the keys become the union; user values win; defaults the user does not name survive (the same rule is used at lines 110-111, 117-118 and 125-126) |
| Options.UpdateWith | src/deformetrica.py:101-102 | the statement `if u: d.update(u)` leaves the dict `Options.Update` describes |
| Deformetrica.StatusLog.constructor | src/deformetrica.py:4 | the module-level status list starts empty |
| Deformetrica.StatusLog.EstimatorCallback | src/deformetrica.py:7-9 | the new list is the old list with exactly `status_dict` appended, and the callback returns True |
| Deformetrica.ReportIterations | src/deformetrica.py:123 | the engine calling the callback once per iteration appends the reported records, in order, after the earlier entries |
| Deformetrica.DefaultTemplateSpecifications | src/deformetrica.py:94-100 | the default `tmpl` holds exactly one object, `skull`, whose `filename` is the template path |
| Deformetrica.DefaultDatasetSpecifications | src/deformetrica.py:104-109 | the default `dtset` holds exactly `dataset_filenames` and `subject_ids`, each with one entry per dataset path |
| Deformetrica.DefaultModelOptions | src/deformetrica.py:113-116 | the default `mopt` holds exactly the kernel type, the kernel width and `dtype` |
| Deformetrica.DefaultEstimatorOptions | src/deformetrica.py:120-124 | the default `eopt` makes the engine report to `estimator_callback` |
| Deformetrica.Plan | src/deformetrica.py:74-135 | the early return happens only when `overwrite` is off and the output folder exists; every engine call carries a `callback` option and a `skull` template object |
| Deformetrica.OutputFolderName | src/deformetrica.py:75-76 | the default folder name is a single path component: `atlas_` or `reg_`, then the template's file name without its last extension |
| Deformetrica.ResolveOutputPath | src/deformetrica.py:74-79 | a truthy `output_path` is kept; otherwise the folder sits in the template's directory and its name is `OutputFolderName` |
| Deformetrica.DatasetFilenames | src/deformetrica.py:105 | one file group per dataset path; entry i is `[{'skull': dataset_paths[i]}]` |
| Deformetrica.SubjectIds | src/deformetrica.py:106-108 | one id per dataset path; entry i is the basename minus its last extension, and adding that extension back gives the basename |
| Deformetrica.MergeOptions | src/deformetrica.py:94-126 | each of `tmpl`, `dtset`, `mopt` and `eopt` is its defaults updated with the user's dict, as `Options.Update` describes |
| Deformetrica.DeformAtlasReg | src/deformetrica.py:57-137 | the engine call (or the early return) is the one `Plan` describes, and the status log grows by exactly the records reported to the module callback |
| Deformetrica.RunEngine | src/deformetrica.py:128-135 | running the engine appends the reported records to the module log exactly when the call's estimator options carry `estimator_callback`, and leaves it unchanged otherwise |
| Deformetrica.EstimateRegistration | src/deformetrica.py:12-32 | the same as `deform_atlas_reg` with `atlas_creation` False |
| Deformetrica.EstimateAtlas | src/deformetrica.py:35-54 | the same as `deform_atlas_reg` with `atlas_creation` True |
| Deformetrica.TwoRuns | src/deformetrica.py:4-9 | each run's result is its `Plan`, and the list is never reset: the records of a second run follow those of the first |
| Deformetrica.PlanStopsIff | src/deformetrica.py:82-86 | no engine call iff the output folder exists, overwriting is off and it holds more than five entries; five or fewer never stop the run |
| Deformetrica.PlanDispatch | src/deformetrica.py:128-135 | atlas creation selects the deterministic atlas estimator and otherwise the registration estimator; both receive the same four dicts |
| Deformetrica.PlanCallback | src/deformetrica.py:120-126 | `callback` is always present: it is the user's one if `estimator_options` has one, otherwise `estimator_callback` |
| Deformetrica.PlanDatasetLists | src/deformetrica.py:104-109 | without a user `dataset_specifications`, the two lists are as long as `dataset_paths`, and entry i is the file group and the stem of path i |
| Deformetrica.ShallowSkullOverride | src/deformetrica.py:94-102 | for every user `skull` value, the merged `tmpl` holds only `skull` and it is the user's value: a default key the user's record omits is gone |
| Deformetrica.DefaultRequestRuns | src/deformetrica.py:57-60 | with every parameter at its default (`verbosity='INFO'`, `overwrite=True`) the guard never fires: the engine runs at INFO with the four default dicts and the default output folder |
| Cq500.ExtractedPath | src/datasets/cq500.py:49 | a path with no `.zip` in it is its own extraction folder, and the folder name is never longer than the path |
| Cq500.TargetOfLineNames | src/datasets/cq500.py:36-40 | the local file name of a line is what follows its last `/` (its basename), and the download target is that name joined to `folder_path` |
| Cq500.ExtractionOfLine | src/datasets/cq500.py:47-60 | extraction is attempted only for `.zip` paths. It is skipped exactly when the path with every `.zip` removed exists. Otherwise it fails exactly on a bad archive, and the loop goes on |
| Cq500.FetchLine | src/datasets/cq500.py:34-60 | one manifest line adds one report and removes no path |
| Cq500.FetchLineReport | src/datasets/cq500.py:36-60 | the download happens iff the target is missing; the target then exists; the extraction is `ExtractionAt` with the target present. Only the target and an extracted folder are new |
| Cq500.FetchOne | src/datasets/cq500.py:34-60 | the loop body for one line does what `FetchLine` describes |
| Cq500.GetData | src/datasets/cq500.py:15-60 | the manifest path is `folder_path + 'cq500_files.txt'`, and the reports and paths left behind are those of `FetchFrom` over the manifest lines |
| Cq500.FetchFromGrows | src/datasets/cq500.py:34-60 | the loop keeps earlier reports, adds one per line and removes no path |
| Cq500.FetchFromReportsLines | src/datasets/cq500.py:34-60 | report k is about line k: its file name and path, whether it is an archive, and the folder it extracts to |
| Cq500.FetchFromSettles | src/datasets/cq500.py:34-60 | after the loop every line's file exists, and so does the extracted folder of every sound archive |
| Cq500.FetchFromQuiet | src/datasets/cq500.py:41-52 | once all remaining lines are settled, nothing is downloaded or extracted |
| Cq500.GetDataSettles | src/datasets/cq500.py:34-60 | after `get_data`, the target of every manifest line exists, and so does the folder of every sound `.zip` |
| Cq500.GetDataIdempotent | src/datasets/cq500.py:15-60 | a second `get_data` over what the first left behind downloads nothing and extracts nothing |
| Cq500.ExtractedPathOfArchive | src/datasets/cq500.py:49 | the target folder of `p.zip` is `p` when `p` holds no other `.zip` |
| Cq500.ExtractedPathStep | src/datasets/cq500.py:49 | every `.zip` goes, not only the suffix: for any prefix `a` without `.zip`, `a + '.zip' + b` extracts to `a` followed by the extraction of `b` |
| Cq500.ExtractedPathDropsEveryZip | src/datasets/cq500.py:49 | a concrete input: `a.zip/b.zip` extracts to `a/b`, so a `.zip` that is not the suffix goes too (the general statement is `Cq500.ExtractedPathStep`) |
| Cq500.DefaultedChild | src/datasets/cq500.py:69-70 | the output folder of `convert_nifti` (and, with `selected`, of `select_imgs` at lines 122-123): a given folder is used verbatim, since only `None` selects the default; otherwise the folder is the named child directly inside the parent |
| Cq500.RelPath | src/datasets/cq500.py:80 | the walked root itself is `.`; a root below `input_folder + '/'` is `input_folder`, a `/` and its relative path |
| Cq500.SubjectOf | src/datasets/cq500.py:84 | the subject is the longest `/`-free prefix of the relative path |
| Cq500.ImageName | src/datasets/cq500.py:89 | the volume name is a single component ending in `.nii.gz` |
| Cq500.ImagePath | src/datasets/cq500.py:85-90 | the volume path ends in `.nii.gz` |
| Cq500.ImagePathSplits | src/datasets/cq500.py:85-90 | the volume path splits into the subject folder `out_dir/subj` and the name `subj_leaf.nii.gz` |
| Cq500.TargetOfRoot | src/datasets/cq500.py:75-90 | a root is skipped iff it is `out_dir` or lies below `out_dir + '/'`. Otherwise it is ignored iff it has no files or has subfolders. A leaf's volume is named `subj_leaf.nii.gz` and sits in `out_dir/subj` |
| Cq500.ConvertEntry | src/datasets/cq500.py:73-108 | one walked root adds one report and removes no path |
| Cq500.ConvertEntryReport | src/datasets/cq500.py:75-95 | the report of a root matches its target. Afterwards a leaf's volume exists, and a leaf whose volume already existed is not converted again. Only the subject folder and the volume are new |
| Cq500.ConvertOne | src/datasets/cq500.py:73-107 | the loop body for one root does what `ConvertEntry` describes |
| Cq500.ConvertNifti | src/datasets/cq500.py:63-109 | the returned folder is `out_dir` or `input_folder/converted`, and the reports and paths are those of `ConvertFrom` over the walk |
| Cq500.ConvertFromGrows | src/datasets/cq500.py:73-108 | the walk keeps earlier reports, adds one per root and removes no path |
| Cq500.ConvertFromClassifies | src/datasets/cq500.py:73-95 | report k is about root k: skipped, ignored, found at or converted to that root's volume path |
| Cq500.ConvertFromSettles | src/datasets/cq500.py:86-107 | after the walk, every leaf root's volume exists |
| Cq500.ConvertFromQuiet | src/datasets/cq500.py:92-95 | once every remaining root's volume exists, nothing is converted |
| Cq500.ConvertNiftiSettles | src/datasets/cq500.py:73-107 | after `convert_nifti`, the volume of every leaf root outside the output tree exists |
| Cq500.ConvertNiftiIdempotent | src/datasets/cq500.py:63-109 | a second conversion over what the first left behind converts nothing |
| Cq500.CopyFor | src/datasets/cq500.py:132-137 | the copied file is one of the subject's files and no file is larger; every file before it in listing order is strictly smaller; the destination is the output folder joined with the file's basename |
| Cq500.CopyKeepsName | src/datasets/cq500.py:132-137 | the copied file lies directly in the subject folder under a listed name, and its copy lands directly in the output folder under the same name |
| Cq500.CopyForAsWritten | src/datasets/cq500.py:135-137 | the copy as written has the same destination as the corrected one |
| Cq500.AsWrittenSourceMissesListing | src/datasets/cq500.py:135-140 | for a relative, non-empty subject folder the as-written copy source is none of the listed files |
| Cq500.AsWrittenAgreesWhenAbsolute | src/datasets/cq500.py:135 | for an absolute subject folder the as-written copy equals the corrected one |
| Cq500.AsWrittenSourceExample | src/datasets/cq500.py:132-140 | for `imgs/s1/a.nii.gz` the as-written source is `imgs/s1/imgs/s1/a.nii.gz`, while the chosen file is `imgs/s1/a.nii.gz` |
| Cq500.SelectSubject | src/datasets/cq500.py:126-133 | an entry is skipped iff it is not a directory or is literally named `selected`, whatever the output folder is; a subject folder with no entries is the case where `max` raises |
| Cq500.SelectImgs | src/datasets/cq500.py:112-142 | the returned folder is `output_folder` or `images_folder/selected`, and the copies and the failure are those of `SelectFrom` over the listing |
| Cq500.SelectFromStep | src/datasets/cq500.py:126-140 | a subject that is skipped or copied lets the loop go on with its copy appended |
| Cq500.SelectFromCompletes | src/datasets/cq500.py:126-142 | with no empty subject folder the run completes with one copy per non-empty subject folder, in listing order |
| Cq500.SelectFromStopsAt | src/datasets/cq500.py:132-133 | the run stops at the first empty subject folder, keeping the copies made before it |
| Cq500.SubjectCopy | src/datasets/cq500.py:126-140 | the copy made for a subject is from a directory not named `selected`, is its largest file, and keeps its name |
| Cq500.ChosenCopiesLargest | src/datasets/cq500.py:126-140 | every copy of a run is the largest file of some subject folder in the listing, copied under its own name into the output folder |
| Registration.Kept | src/registration.py:19 | `cond`: a kept name ends in `.nii.gz` and is never the fixed image, so it is at least seven characters long |
| Registration.NiftiStem | src/registration.py:19-23 | the stem of a bare kept name drops only `.gz`: `splitext` leaves the `.nii` on |
| Registration.FileNames | src/registration.py:19-20 | a name is kept iff it is in the listing, ends in `.nii.gz` and differs from `fixed_image` |
| Registration.FileNamesCounts | src/registration.py:20 | a kept name appears as often as in the listing; other names do not appear |
| Registration.FileNamesAppend | src/registration.py:20 | the filter keeps listing order: filtering a concatenation concatenates the filtered parts |
| Registration.SubjectIds | src/registration.py:23 | id i is file name i, extension included |
| Registration.RegisterImgs | src/registration.py:8-48 | the engine is handed no callback, so a `register_imgs` run never adds to the module status list |
| Registration.RegisterImgsCall | src/registration.py:16-48 | the call is a registration on `output_dir` with verbosity INFO, without creating the folder, and the template `filename` is `fixed_image` verbatim |
| Registration.RegisterImgsDataset | src/registration.py:20-26 | the dataset dict holds exactly `dataset_filenames` and `subject_ids` |
| Registration.RegisterImgsNoCallback | src/registration.py:37-48 | the estimator options carry no `callback` key at all |
| Registration.RegisterImgsParallel | src/registration.py:20-26 | the file groups and ids have the length of the kept names; entry i is `[{'skull': join(folder, name_i)}]` and `name_i` |
| Registration.FilePathsSplit | src/registration.py:21 | each file path splits back into the folder and the kept name |
| Registration.FixedPathExcludesNothing | src/registration.py:19 | a fixed image given with a `/` equals no bare listing name, so nothing is excluded |
| Registration.StemOfNifti | src/registration.py:23 | the stem of `x.nii.gz` is `x.nii` |
| Registration.IdsKeepExtension | src/registration.py:23 | the ids here are `x.nii.gz` where `deform_atlas_reg` would use `x.nii` |

## Left out

- Downloads (`urllib`), archive extraction (`zipfile`), DICOM reading and NIfTI writing (SimpleITK), `shutil.copyfile`, `os.makedirs`, `os.walk` and `os.listdir` are I/O and foreign codecs. Their effects are modelled only as paths added to the set of existing paths. Their results (manifest lines, walk tuples, listings, sizes, which archives are bad) are inputs.
- The Deformetrica engine itself (`Deformetrica(...)`, `estimate_registration`, `estimate_deterministic_atlas`) is a foreign library. A call is recorded as the `EngineCall` it receives, and the status records it reports are an input.
- Numeric hyperparameters (kernel widths, `noise_std`, step size) are opaque literals. The code does no arithmetic on them.
- `print` output is not modelled.
- Paths are compared as strings and never normalised: two spellings of one path (a trailing `/`, `./`, `//`) are different paths to the model. For example, a blank manifest line (or a URL ending in `/`) given to `get_data(url, "data")` has the file name `""` and the target `join("data", "")`, which is `"data/"`. The source finds that path present, because `os.makedirs("data")` ran at line 26, so it skips the download; the model holds `"data"` but not `"data/"` and reports a download. Likewise an `out_dir` spelled `"data/converted/"` is not excluded by the check at line 75, as in the source, but the lazy `os.walk` of the source would then also walk the subject folders the run creates, which a fixed walk cannot contain.
- `os.path.relpath` is modelled only for the roots `os.walk(input_folder)` yields, which all start with `input_folder`. Normalisation of `..` and repeated separators is not modelled.
- `select_imgs` creates its output folder (line 124) before it lists `images_folder` (line 126), so a non-default output folder directly inside `images_folder` under a name other than `selected` is listed and treated as a subject, and what it holds depends on the copies made earlier in the same loop. The model takes `isDir`, `listDir` and `size` as a fixed `Disk` given before the loop: it does not track the folder it creates or the copies it makes, so it cannot capture that interaction.
- Failures of foreign calls other than a bad zip are not modelled. In the source each one raises and ends the whole function, leaving the remaining lines, roots or subjects unprocessed: `urlretrieve` (`src/datasets/cq500.py:29` and `:44`), SimpleITK's `reader.Execute()` on a leaf folder without a readable DICOM series (`:103`) and `WriteImage` (`:107`), and `shutil.copyfile` (`:140`), which raises FileNotFoundError (see Findings) and SameFileError when the output folder is the subject folder, so source and destination coincide. The model lets every such call succeed, so `Cq500.GetDataSettles`, `Cq500.FetchFromSettles`, `Cq500.ConvertNiftiSettles`, `Cq500.ConvertFromSettles` and `Cq500.SelectFromCompletes` describe runs that return normally.
- The `ValueError` that `max` raises on an empty subject folder ends `select_imgs`. It is modelled as the `failedAt` field of the result, not as an exception.
- Cq500.FetchLineReport: the extraction folder is all or nothing. `badArchives` are the archives `zipfile` rejects on opening, before anything is written, so a failed extraction leaves no folder. An archive whose central directory reads but whose member is corrupt (a bad local header or CRC-32) makes `extractall` create `extracted_path` and then raise BadZipFile (caught at `src/datasets/cq500.py:59`). The source then skips that archive on every later run (lines 50-52), but the model neither adds the folder nor stops retrying.
- Cq500.FetchFromSettles: assumes every archive not in `badArchives` holds at least one member. `extractall` creates `extracted_path` only when it writes a member, so an archive with no members leaves no folder, and the source extracts it again on every run.
- Cq500.GetDataSettles: states that the folder of every `.zip` outside `badArchives` exists afterwards. This rests on the same assumption: it does not hold for an archive with no members.
- Cq500.GetDataIdempotent: a second run extracts nothing only under the same two assumptions. An archive with no members would be extracted again, and an archive that fails part-way would be skipped rather than retried.
- Cq500.SelectImgs: copies from the chosen file itself. The source copies from `join(subj_folder, biggest_file)`, which is modelled by `Cq500.CopyForAsWritten`; see Findings.
- Registration.RegisterImgs: returns the engine call `register_imgs` makes. `register_imgs` itself returns None and drops the model; the value is kept so the call can be stated.
- Deformetrica.EstimateRegistration and Deformetrica.EstimateAtlas: return the engine call. The Python wrappers return None.
- Deformetrica.PlanDatasetLists: states the lists only when no `dataset_specifications` is given. With one, `Options.Update` states the merge.
- Override lists (preselected, in observation, excluded) and a slice-count threshold do not appear in the code. `select_imgs` picks purely by file size, and so does the model.

## Findings

| source | as written | input that shows it | evidently intended | confidence | as-written member | corrected member |
|---|---|---|---|---|---|---|
| src/datasets/cq500.py:135-140 | the copy source is `os.path.join(subj_folder, biggest_file)`, but `biggest_file` already starts with `subj_folder` (line 132) | `select_imgs('imgs')` with subject `s1` holding `a.nii.gz` chooses `imgs/s1/a.nii.gz` and then copies from `imgs/s1/imgs/s1/a.nii.gz`, which does not exist | copy `biggest_file` itself (equal to the as-written path only when `images_folder` is absolute) | not executed | Cq500.CopyForAsWritten (shown by Cq500.AsWrittenSourceMissesListing and Cq500.AsWrittenSourceExample) | Cq500.CopyFor |
