# julia-buildbot packaging: a verified model of the naming layer

This project models the naming and metadata core of the julia-buildbot
packager, `master/package.py`. It covers these parts:

- the branch gate that decides which branches get packaged;
- the two parsers that turn command output into build properties (the
  julia version line and commit, and the `git log` commit metadata);
- the local file name that `make binary-dist` leaves on the worker, with
  its marker path and its three legacy per-platform templates;
- the canonical upload file name, the object-store keys ("versioned" and
  "latest") and the public download URL;
- `munge_artifact_filename`, the step that writes `local_filename` and
  `upload_filename` into the build's property bag;
- the command renderers: the julia version query, the two upload commands
  and the macOS app packaging command.

The modules follow the program's layers:

- `Wrappers`: `Option`.
- `Text`: the Python 2 string primitives the code relies on: `strip`,
  `split`, `rfind` and slicing with clamping and negative indices.
- `Parse`: `parse_julia_version` and `parse_git_log`.
- `Naming`: `should_build_branch` and the `gen_*` functions, over a
  `BuildProps` record.
- `Properties`: the property bag as a class with a `map` field, and the
  munge step as a method on it.
- `Commands`: the renderers.

The platform predicates `is_mac` and `is_windows` become an `Os` value.
`get_os_name` becomes a string parameter `hostOs`. A property that a
`str.format(**props)` template names but the bag lacks raises `KeyError`,
and so does a line `split('\n')` does not produce (IndexError). Both are
modelled as `None`.

Three behaviours of the code are easy to miss, and the model keeps them:

- The marker path appends the extension with no dot (`julia-1.2.3tar.gz`).
- The latest name keeps the shortcommit (`julia-latest-abc1234567-linux64.tar.gz`).
- The legacy Windows name uses the version and `tar_arch`, and no commit.

## Model

| member | source | states |
|---|---|---|
| Naming.ShouldBuildBranch | master/package.py:11-16 | a branch is built exactly when it is `master` or `sf/buildbot_testing`, or starts with `release-` |
| Naming.ShouldBuildBranchExamples | master/package.py:11-16 | `release-1.2` and the bare `release-` are built; `feature/x`, `release` and the empty name are not |
| Text.Strip | master/package.py:37-38 | `str.strip()` leaves the infix between the leading and the trailing ASCII whitespace, and that infix neither starts nor ends with whitespace |
| Text.StripPadded | master/package.py:55 | whitespace around a core with no whitespace at its ends strips to exactly that core |
| Text.StripIdempotent | master/package.py:37-38 | stripping twice equals stripping once |
| Text.RFind | master/package.py:36 | `rfind` returns the index of the last occurrence, or -1 when there is none |
| Text.Split | master/package.py:34 | `split` always returns at least one piece |
| Text.SplitCount | master/package.py:34 | a split has one more piece than the string has separators |
| Text.SplitPiecesSepFree | master/package.py:42 | no piece holds the separator |
| Text.JoinSplit | master/package.py:42 | joining the pieces with the separator gives back the string |
| Text.SplitJoin | master/package.py:42 | splitting a join of separator-free pieces gives back the pieces |
| Text.SplitSnoc | master/package.py:42 | splitting `x + sep + y` for a separator-free `y` adds `y` as the last piece after the pieces of `x` |
| Text.SplitPrefix | master/package.py:34 | a separator-free prefix joins the first piece of what follows it |
| Text.SplitCons | master/package.py:34 | a separator-free first line followed by a separator is the first piece, and the rest splits on its own |
| Parse.Majmin | master/package.py:36 | majmin is everything before the last dot; without a dot, the line minus its last character |
| Parse.MajminIsPrefix | master/package.py:36 | majmin is a prefix of the version line |
| Parse.StripKeepsOut | master/package.py:37-38 | stripping adds no character |
| Parse.ParseJuliaVersion | master/package.py:33-39 | parsing succeeds exactly when the output has a second line; majmin is then a prefix of the output, and version and shortcommit are stripped single lines |
| Parse.ParseJuliaVersionOfOutput | master/package.py:21-39 | round trip: a version line and a commit line, followed by anything on later lines, parse back to majmin, the stripped version and the stripped commit |
| Parse.MajminExamples | master/package.py:36 | `1.7.2` gives `1.7`; `1234`, with no dot, gives `123` |
| Parse.JuliaVersionExample | master/package.py:33-39 | the output `1.7.2\nabcdef1234\n` parses to majmin `1.7`, version `1.7.2`, shortcommit `abcdef1234` |
| Parse.JuliaVersionWithoutDot | master/package.py:33-39 | output whose first line has no dot still parses, and majmin loses the last character |
| Parse.ParseGitLog | master/package.py:41-49 | parsing succeeds exactly when the output holds at least four newlines; the message is a prefix of the output and no field holds a newline |
| Parse.ParseGitLogOfOutput | master/package.py:41-49 | round trip: five newline-free fields joined by newlines, followed by anything on later lines, parse back to the same five fields, in order; later lines are ignored |
| Naming.GenLocalFilename | master/package.py:51-70 | both branches give a name that ends with the package extension and is longer than it |
| Naming.MarkerTestIsPrefix | master/package.py:58 | comparing the first 26 characters with the marker is a prefix test for `JULIA_BINARYDIST_FILENAME=` |
| Naming.LocalFilenameMarkerBranch | master/package.py:55-59 | when the stripped output starts with the marker and has more after it, the name is the rest after the 26 marker characters followed directly by the extension |
| Naming.LocalFilenameFromMarker | master/package.py:55-59 | a marker followed by a payload, with any surrounding whitespace, gives the payload followed directly by the extension |
| Naming.LocalFilenameMarkerExample | master/package.py:58-59 | `JULIA_BINARYDIST_FILENAME=julia-1.2.3` with extension `tar.gz` gives `julia-1.2.3` + `tar.gz`, with no dot between them |
| Naming.LocalFilenameFallback | master/package.py:58-70 | no marker, or a marker with nothing after it, selects the legacy per-platform name, which is never empty |
| Naming.LocalFilenameArmRemap | master/package.py:66-69 | a Linux build for `armv7l` without a marker is named `julia-<shortcommit>-Linux-arm.<ext>` |
| Naming.GenUploadFilename | master/package.py:73-75 | the upload name starts with `julia-` and ends with `.` plus the extension |
| Naming.UploadFilenameIgnoresLocalNaming | master/package.py:73-75 | the upload name depends only on shortcommit, os_name, bits and os_pkg_ext |
| Naming.GenUploadPath | master/package.py:78-83 | the key starts with `julianightlies/test/bin/` and ends with `/` plus the upload name |
| Naming.UploadPathSegments | master/package.py:78-83 | after the fixed prefix, the key splits on `/` into the OS name, up_arch, majmin and the upload name |
| Naming.UploadPathsDistinct | master/package.py:78-83 | builds that differ in OS name, architecture, majmin or upload name get different keys |
| Naming.LatestName | master/package.py:88-89 | a name starting with `julia-` has that prefix replaced by `julia-latest-`; any other name is kept |
| Naming.LatestNameOfPrefixed | master/package.py:88-89 | `julia-` followed by any rest becomes `julia-latest-` followed by the same rest |
| Naming.LatestNameOfUploadFilename | master/package.py:88-89 | every generated upload name is rewritten, and the rewrite keeps its shortcommit |
| Naming.LatestNameExample | master/package.py:88-89 | `julia-abc1234567-linux64.tar.gz` becomes `julia-latest-abc1234567-linux64.tar.gz` |
| Naming.LatestNameInjective | master/package.py:88-89 | two different upload names never share a latest name |
| Naming.LatestNameSlashFree | master/package.py:88-89 | the rewrite introduces no `/` |
| Naming.GenLatestUploadPath | master/package.py:85-91 | the latest key starts with the same prefix and ends with `/` plus the rewritten name |
| Naming.LatestUploadPathSegments | master/package.py:85-91 | after the fixed prefix, the latest key splits into the OS name, up_arch and the rewritten name, with no majmin segment |
| Naming.UploadAndLatestPathsDiffer | master/package.py:78-91 | the versioned key and the latest key of a build are never equal |
| Naming.GenDownloadUrl | master/package.py:94-96 | the URL is `https://s3.amazonaws.com/` followed by exactly the upload key |
| Naming.DownloadUrlsDistinct | master/package.py:94-96 | different upload keys give different URLs |
| Properties.LocalKeys | master/package.py:55-70 | every local naming template needs the package extension |
| Properties.LocalFilenameReadsOnlyLocalKeys | master/package.py:51-70 | two bags that agree on `artifact_filename` and on the properties `LocalKeys` names for it get the same local file name, so the listed keys are all that the chosen template reads |
| Properties.Munge | master/package.py:109-116 | munging fails exactly when a property the templates name is missing; otherwise exactly `local_filename` and `upload_filename` are set to the two generated names and every other property is unchanged |
| Properties.PropertyBag.constructor | master/package.py:109 | a bag holds the given properties and platform |
| Properties.PropertyBag.SetProperty | master/package.py:114-115 | `setProperty` overwrites one property and leaves the rest |
| Properties.PropertyBag.MungeArtifactFilename | master/package.py:109-116 | the step succeeds exactly when both names can be formatted; it then returns `["true"]` and the bag is the munged map; on failure the bag is unchanged |
| Properties.MungeReadsOnlyNeeded | master/package.py:109-112 | two bags that agree on the properties the chosen templates read get the same two names |
| Properties.NamesIgnoreOutputs | master/package.py:51-75 | neither name reads `local_filename` or `upload_filename` |
| Properties.MungeIdempotent | master/package.py:109-116 | running the step a second time leaves the bag as the first run left it |
| Properties.MungeFeedsUploadPaths | master/package.py:109-116 | after munging, the versioned key ends with the stored upload name and the latest key ends with its `julia-latest-` form |
| Commands.MakeJuliaVersionCommand | master/package.py:21-30 | the command is `usr/bin/julia -e <snippet>`, and the program name carries `.exe` exactly on Windows |
| Commands.PutScript | master/package.py:122 | after the fixed `try_thrice aws put` start, the script holds exactly two words when neither holds a space: the key, then the staged file |
| Commands.UploadPathSpaceFree | master/package.py:78-83 | the versioned key holds a space only if one of its parts does |
| Commands.LatestUploadPathSpaceFree | master/package.py:85-91 | the latest key holds a space only if one of its parts does |
| Commands.RenderUploadCommand | master/package.py:119-122 | a `bash -c` command whose two words are the upload key and `/tmp/julia_package/<upload_filename>` |
| Commands.RenderLatestUploadCommand | master/package.py:125-128 | a `bash -c` command whose two words are the latest key and the same staged file |
| Commands.UploadCommandsShareFile | master/package.py:119-128 | both upload commands stage the same file, and their scripts differ |
| Commands.RenderMakeApp | master/package.py:135-149 | rendering fails exactly when `flags` or `local_filename` is missing; otherwise the script starts by unlocking the keychain and running `make <flags> app`, and ends by moving the image to `local_filename` |
| Commands.MakeAppAfterMunge | master/package.py:135-149 | once munging has run and `flags` is set, the app command renders and moves the image to the computed local file name |

## Left out

- The build step list, the schedulers, `julia_package_env` and `master/separated_testing.py`. They are framework wiring, with no logic of this module's own.
- Running commands, reading their output, and uploading. The parsers take the output as a parameter and ignore the return code and stderr.
- `is_mac`, `is_windows`, `get_os_name`, `props_obj_to_dict` and `should_upload` are not part of this model. The first two become the `Os` value. The OS name is a parameter. The property dictionary is the `View` of the bag's map.
- `render_download_url` only returns `gen_download_url`, so `Naming.GenDownloadUrl` stands for both.
- Text.Strip: strips ASCII whitespace only, as `str.strip()` does on a byte string. That holds for the `artifact_filename` template, which formats into a byte string. For the command output given to `parse_julia_version`, it is an assumption that the output is a byte string. On a unicode string `strip()` also removes `\x1c` to `\x1f`, `\x85`, `\xa0` and other Unicode spaces, which the model does not.
- Property values are all strings. Non-string values such as a numeric `bits` are not modelled, and neither are `setProperty`'s source label or non-ASCII text.
- Naming.GenUploadPath, Naming.GenLatestUploadPath: take the properties as given, so a missing property is not modelled. There `getProperty` returns `None`. `%s` formats a missing `up_arch` or `majmin`, and a missing `upload_filename` in `gen_upload_path`, as the text `None`. In `gen_latest_upload_path` a missing `upload_filename` is sliced first (package.py:88), which raises TypeError.
- Naming.LegacyLocalFilename: line 68 of `package.py` compares a bare name `tar_arch`, not the `tar_arch` property. The model compares the property, which is evidently what is meant.
- Naming.GenLocalFilename: its contract states the extension suffix only. The exact names are stated by LocalFilenameFromMarker, LocalFilenameFallback and LocalFilenameArmRemap.
- Commands.RenderMakeApp: the middle of the script (the `|| (make ... -C contrib/mac/app && mv contrib/mac/app/*.dmg` part) is not stated in the contract; only its start and its end are.
