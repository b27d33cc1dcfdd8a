# Screenshot sweep and extra-tool registrar, in Dafny

This project models two extras of a browser-automation tool server.

- **`browser_screenshot_sweep`** captures one screenshot per viewport, in order, into
  numbered files. The model covers:
  - its pure helpers: `sanitizeFileSegment`, `timestampSlug`, the preset table, the
    capture options, the prefix rule, the viewport expansion and the artifact-name template;
  - its `handle` sequence over an abstract tab. The tab keeps its viewport, its pending
    modal states and an ordered log of what was done to it: navigations, resizes, waits,
    captures and file writes.
- **`registerExtraTools`** adds the sweep tool and the storage-state tool to a shared,
  mutable tool list. It is guarded by a process-wide flag, and each append happens only
  when no entry with that tool's name is listed.

Modules:

| file | module | what it holds |
|---|---|---|
| `Wrappers.dfy` | `Wrappers` | `Option`, for JavaScript's absent values |
| `Seqs.dfy` | `Seqs` | two concatenation facts that proofs cite |
| `Text.dfy` | `Text` | ASCII classes, `String(n)`, `padStart`, decimal parsing |
| `FileNames.dfy` | `FileNames` | `sanitizeFileSegment`, `timestampSlug` and their properties |
| `SweepPlan.dfy` | `SweepPlan` | presets, viewport expansion, capture options, prefix, artifact names |
| `SweepEffects.dfy` | `SweepEffects` | a sweep's events, files, images and final viewport, as functions of its parameters |
| `ScreenshotSweep.dfy` | `ScreenshotSweep` | the classes `Tab` and `Response`, and the imperative `handle`, proved to produce exactly what `SweepEffects` specifies |
| `ExtraTools.dfy` | `ExtraTools` | the registrar: a value-level specification and the class `ProcessRegistry` |
| `Scenarios.dfy` | `Scenarios` | concrete sweeps and registrations, stated against the general model |

How the sweep ends, as the code has it:

- The check for an empty capture list runs after the initial size is sampled and after
  any navigation (`extras/browser_screenshot_sweep.js:67-85`). `SweepEffects.SweepLog`
  therefore keeps the navigation event when the sweep fails. `Scenarios.UnknownPresetOnlyFails`
  shows that such a sweep neither resizes, captures nor writes.
- A modal state makes `handle` record an error and return normally. It does not throw,
  so `ScreenshotSweep.Handle` returns `Completed` with the error in the response.
- An empty capture list throws, and the model returns `Failed("No viewports to capture. …")`.

## Model

| member | source | states |
|---|---|---|
| FileNames.SanitizeYieldsCleanSegment | extras/browser_screenshot_sweep.js:12-15 | every result of `sanitizeFileSegment` is non-empty, over `[a-z0-9-]`, with no hyphen at either end and no `--` |
| FileNames.SanitizeKeepsAlnum | extras/browser_screenshot_sweep.js:12-15 | input whose lower-cased form has no `[a-z0-9]` gives `screenshot`; otherwise the result keeps exactly the input's lower-cased alphanumerics, in order |
| FileNames.SanitizeIdempotent | extras/browser_screenshot_sweep.js:12-15 | sanitizing twice gives the same result as sanitizing once |
| FileNames.SanitizeFixedPointIffClean | extras/browser_screenshot_sweep.js:12-15 | a string is left unchanged by the sanitizer exactly when it is a clean segment |
| FileNames.CleanSegmentIsFixedPoint | extras/browser_screenshot_sweep.js:12-15 | a clean segment passes through trim, lower-casing, run-collapsing and hyphen-stripping unchanged |
| FileNames.StripHyphensYieldsClean | extras/browser_screenshot_sweep.js:14 | stripping leading and trailing hyphens from a `[a-z0-9-]` string without `--` leaves nothing or a clean segment |
| FileNames.CollapseRunsChars | extras/browser_screenshot_sweep.js:13 | `replace(/[^a-z0-9]+/g, '-')` yields only `[a-z0-9-]` and is empty only for empty input |
| FileNames.CollapseRunsNoDoubleHyphen | extras/browser_screenshot_sweep.js:13 | the collapsed string never holds `--`, and starts with `-` exactly when the input starts outside `[a-z0-9]` |
| FileNames.CollapseRunsKeepsAlnum | extras/browser_screenshot_sweep.js:13 | collapsing keeps every alphanumeric, in order |
| FileNames.LowerTrimKeepsAlnum | extras/browser_screenshot_sweep.js:13 | `trim()` and `toLowerCase()` do not change which lower-cased alphanumerics remain |
| FileNames.OnlyHyphensLeft | extras/browser_screenshot_sweep.js:14 | a `[a-z0-9-]` string without alphanumerics is stripped to nothing, so the fallback applies |
| FileNames.TrimStartShape | extras/browser_screenshot_sweep.js:13 | the start trim removes a leading run of whitespace and stops at a non-blank character |
| FileNames.TrimEndShape | extras/browser_screenshot_sweep.js:13 | the end trim removes a trailing run of whitespace and stops at a non-blank character |
| FileNames.ToLowerAt | extras/browser_screenshot_sweep.js:13 | lower-casing keeps the length and maps each character on its own |
| FileNames.TrimLeadingHyphensShape | extras/browser_screenshot_sweep.js:14 | `replace(/^-+/, '')` removes exactly the leading hyphens |
| FileNames.TrimTrailingHyphensShape | extras/browser_screenshot_sweep.js:14 | `replace(/-+$/, '')` removes exactly the trailing hyphens |
| FileNames.SanitizeFileSegment | extras/browser_screenshot_sweep.js:12-15 | defines `sanitizeFileSegment` as trim, lower-case, collapse each run outside `[a-z0-9]` to `-`, strip end hyphens, fall back to `screenshot`; its properties are the `Sanitize…` rows |
| FileNames.SanitizeJoinsWords | extras/browser_screenshot_sweep.js:12-15 | the result is the maximal `[a-z0-9]` runs of the lower-cased input (`Words`) joined by single hyphens, or `screenshot` when there are none |
| FileNames.WordsSeparated | extras/browser_screenshot_sweep.js:13 | a non-empty gap without letters or digits separates the words on its two sides, so each gap between two words becomes exactly one hyphen |
| FileNames.WordsOfRun | extras/browser_screenshot_sweep.js:13 | a run of `[a-z0-9]` characters is a single word |
| FileNames.WordsAfterGap | extras/browser_screenshot_sweep.js:13-14 | a leading gap without letters or digits adds no word, so it leaves no hyphen |
| FileNames.WordsBeforeGap | extras/browser_screenshot_sweep.js:13-14 | a trailing gap without letters or digits adds no word, so it leaves no hyphen |
| FileNames.CollapseJoinsWords | extras/browser_screenshot_sweep.js:13-14 | on input that starts with a word, collapsing the gaps and stripping the trailing hyphen joins the words with single hyphens |
| FileNames.LeadingStripOfCollapse | extras/browser_screenshot_sweep.js:13-14 | stripping leading hyphens after the collapse removes exactly the hyphen of a leading gap |
| FileNames.LowerTrimKeepsWords | extras/browser_screenshot_sweep.js:13 | `trim()` removes only blanks, so the words of the lower-cased label are unchanged |
| FileNames.TrimSplit | extras/browser_screenshot_sweep.js:13 | `trim()` leaves the input minus a blank prefix and a blank suffix |
| FileNames.TwoWordsJoined | extras/browser_screenshot_sweep.js:12-15 | two words separated by any gap without letters or digits come out as `w1-w2` |
| FileNames.TimestampSlug | extras/browser_screenshot_sweep.js:17-19 | defines the slug of a given ISO-8601 instant; `TimestampSlugAt` and `TimestampSlugIsFileSafe` state its properties |
| FileNames.TimestampSlugAt | extras/browser_screenshot_sweep.js:17-19 | the slug has the instant's length; each `:` or `.` has become `-`, and every other character is unchanged |
| FileNames.TimestampSlugIsFileSafe | extras/browser_screenshot_sweep.js:17-19 | the slug holds no `:` and no `.` |
| Text.NatToString | extras/browser_screenshot_sweep.js:98 | `String(n)` is a non-empty digit string: a single digit below 10, with no leading zero from 10 on |
| Text.NatToStringWidth | extras/browser_screenshot_sweep.js:98 | `String(n)` has at most two digits below 100 and at least three from 100 on |
| Text.NatToStringRoundTrip | extras/browser_screenshot_sweep.js:98 | reading `String(n)` back as decimal gives `n` |
| Text.LeadingZerosIgnored | extras/browser_screenshot_sweep.js:98 | the zeros added by `padStart(2, '0')` do not change the value read back |
| SweepPlan.Preset | extras/browser_screenshot_sweep.js:6-10 | defines `VIEWPORT_PRESETS`: desktop 1440x900, tablet 820x1180, mobile 390x844, each named by its key and carrying its table title; `PresetViewportsFollowKeys` states how the first loop uses it |
| SweepPlan.CustomViewportSpec | extras/browser_screenshot_sweep.js:82 | defines the entry of a custom viewport; `CustomViewportDefaults` states its defaults |
| SweepPlan.LabelOf | extras/browser_screenshot_sweep.js:89 | defines `viewport.name || WxH`; `SafeLabelsAt` and `PlannedViewportsNamed` state its use |
| SweepPlan.Ordinal | extras/browser_screenshot_sweep.js:98 | defines `String(i + 1).padStart(2, '0')` for a given ordinal; `OrdinalRoundTrip` states its properties |
| SweepPlan.ArtifactName | extras/browser_screenshot_sweep.js:98 | defines the name template; `ArtifactNameFrame` and `ArtifactNamesDistinct` state its properties |
| SweepPlan.OrdinalRoundTrip | extras/browser_screenshot_sweep.js:98 | the ordinal field is all digits, exactly two characters below 100, `String(n)` unpadded from 100 on, and reads back as the ordinal |
| SweepPlan.PresetViewportsFollowKeys | extras/browser_screenshot_sweep.js:76-80 | the first loop yields the table entry of each known key, in the order listed, duplicates kept, unknown keys skipped |
| SweepPlan.KnownKeysAppend | extras/browser_screenshot_sweep.js:76-80 | one more key adds itself to the known keys exactly when the preset table has it |
| SweepPlan.KnownKeysEmpty | extras/browser_screenshot_sweep.js:76-80 | no key is known exactly when no listed key names a preset |
| SweepPlan.CustomViewportsAt | extras/browser_screenshot_sweep.js:81-82 | the second loop yields one entry per custom viewport, in order |
| SweepPlan.CustomViewportDefaults | extras/browser_screenshot_sweep.js:82 | a custom entry keeps its size, is named by its name or else `WxH` (also when the name is empty), and is always titled `WxH` |
| SweepPlan.PlannedViewportsLength | extras/browser_screenshot_sweep.js:75-82 | the capture list holds one entry per known key plus one per custom viewport |
| SweepPlan.CustomViewportAt | extras/browser_screenshot_sweep.js:75-82 | the j-th custom viewport comes right after all the presets |
| SweepPlan.PlannedViewportsEmptyIff | extras/browser_screenshot_sweep.js:75-85 | the capture list is empty, which is the "No viewports to capture" error, exactly when no key names a preset and no custom viewport was given |
| SweepPlan.PlannedViewportsNamed | extras/browser_screenshot_sweep.js:79-99 | every planned entry has a non-empty name and title, so the `WxH` fallbacks at capture time are never taken |
| SweepPlan.ResolveCaptureOptions | extras/browser_screenshot_sweep.js:56-62 | the type defaults to png; quality is absent exactly for png and is 90 for jpeg; scale is `css`; `fullPage` is forwarded exactly as given, an explicit `false` included |
| SweepPlan.ResolvePrefix | extras/browser_screenshot_sweep.js:65 | the prefix is always a clean segment: `sweep` when absent or empty, and the sanitized value otherwise |
| SweepPlan.SymbolPrefixFallsBack | extras/browser_screenshot_sweep.js:65 | a supplied prefix without letters or digits becomes `screenshot`, not `sweep` |
| SweepPlan.SafeLabelsAt | extras/browser_screenshot_sweep.js:89-97 | the k-th label is the sanitized name of the k-th viewport, or of `WxH` when the name is empty |
| SweepPlan.SweepFileNamesAt | extras/browser_screenshot_sweep.js:87-98 | the k-th name (from 0) is `{prefix}-{stamp}-{pad2(k+1)}-{label_k}.{type}` |
| SweepPlan.OrdinalSeparates | extras/browser_screenshot_sweep.js:98 | names that agree up to the ordinal differ when the ordinals differ |
| SweepPlan.ArtifactNamesDistinct | extras/browser_screenshot_sweep.js:98 | two artifacts of one sweep with different ordinals never share a name, whatever their labels |
| SweepPlan.ArtifactNameFrame | extras/browser_screenshot_sweep.js:98 | every name starts with `{prefix}-{stamp}-` and ends with `.{type}` |
| SweepPlan.SweepFileNamesFramed | extras/browser_screenshot_sweep.js:87-98 | every name of a sweep shares the head `{prefix}-{stamp}-` and ends with the type's extension |
| SweepPlan.SweepFileNamesOrdinal | extras/browser_screenshot_sweep.js:87-98 | right after the shared head, the k-th name carries the ordinal field of k + 1 |
| SweepPlan.SweepFileNamesDistinct | extras/browser_screenshot_sweep.js:87-98 | the names of one sweep are pairwise distinct, even when labels repeat |
| SweepEffects.CaptureLogAt | extras/browser_screenshot_sweep.js:87-104 | iteration k fills its own block of the log: resize to viewport k, a wait when the delay is non-zero, a capture with the sweep's options, then the write of name k |
| SweepEffects.StepEventsShape | extras/browser_screenshot_sweep.js:91-104 | one iteration is resize, an optional wait, capture, write |
| SweepEffects.CaptureLogCounts | extras/browser_screenshot_sweep.js:87-112 | the loop resizes, captures and writes once per viewport, waits once per viewport only for a non-zero delay, and never navigates |
| SweepEffects.SweepLogCount | extras/browser_screenshot_sweep.js:70-122 | the events of each kind are those of the navigation, then of the loop, then of the restoration |
| SweepEffects.SweepLogCounts | extras/browser_screenshot_sweep.js:70-122 | a sweep navigates at most once, and only to a non-empty URL. It resizes once per viewport plus one restoring resize, which needs the option and a recorded size. It captures and writes once per viewport. An empty capture list leaves only the navigation |
| SweepEffects.Reason | extras/browser_screenshot_sweep.js:99 | defines `Screenshot: {title or label}`; `FileEntriesAt` states its use |
| SweepEffects.FileEntriesAt | extras/browser_screenshot_sweep.js:99 | the k-th registered file is the k-th name, with reason `Screenshot: {title or label}` |
| SweepEffects.SweepImagesContent | extras/browser_screenshot_sweep.js:106-111 | embedding adds one image per capture, all of the format's content type; otherwise none |
| ScreenshotSweep.Handle | extras/browser_screenshot_sweep.js:47-123 | with a modal state pending: only the modal states and one error are reported, and the tab's log and viewport are untouched. Otherwise the tab goes through exactly `SweepLog` and ends at `FinalViewport`; the response gains exactly `FileEntries` and `SweepImages`; the outcome fails exactly when the capture list is empty |
| ScreenshotSweep.Sweep | extras/browser_screenshot_sweep.js:56-122 | the body after the modal check, with the same guarantees as the second case of `Handle` |
| ScreenshotSweep.SampleInitialSize | extras/browser_screenshot_sweep.js:67-68 | the reported viewport is kept; the inner size is sampled only when there is no reported viewport; the restore target is the reported viewport, else the sample |
| ScreenshotSweep.Navigate | extras/browser_screenshot_sweep.js:70-73 | the tab navigates once, with the requested wait policy, exactly when a non-empty URL was given |
| ScreenshotSweep.ExpandViewports | extras/browser_screenshot_sweep.js:75-82 | the two loops build exactly the planned capture list |
| ScreenshotSweep.PushPresets | extras/browser_screenshot_sweep.js:76-80 | the first loop yields the preset entries of the known keys |
| ScreenshotSweep.PushCustoms | extras/browser_screenshot_sweep.js:81-82 | the second loop appends one defaulted entry per custom viewport |
| ScreenshotSweep.CaptureViewports | extras/browser_screenshot_sweep.js:87-112 | the loop appends exactly `CaptureLog` to the tab's log and one file entry per viewport (and one image each when embedding), and leaves the tab at the last viewport's size |
| ScreenshotSweep.SuggestedFileName | extras/browser_screenshot_sweep.js:89-98 | the name built in iteration i is the sweep's i-th artifact name |
| ScreenshotSweep.CaptureOne | extras/browser_screenshot_sweep.js:89-111 | one iteration: resize, optional wait, register the file, capture, write, optional embed |
| ScreenshotSweep.RestoreViewport | extras/browser_screenshot_sweep.js:114-122 | with restoration requested, resizes to the reported viewport, else to the sampled inner size, else does nothing |
| ScreenshotSweep.Tab.ViewportSize | extras/browser_screenshot_sweep.js:67 | reports the tab's current viewport, or none |
| ScreenshotSweep.Tab.EvaluateInnerSize | extras/browser_screenshot_sweep.js:68 | reports the sampled inner window size, or none when the evaluation fails |
| ScreenshotSweep.Tab.Goto | extras/browser_screenshot_sweep.js:72 | a navigation is logged with its URL and wait policy |
| ScreenshotSweep.Tab.WaitForTimeout | extras/browser_screenshot_sweep.js:94 | a wait is logged with its duration |
| ScreenshotSweep.Tab.Screenshot | extras/browser_screenshot_sweep.js:102 | a capture is logged with its options |
| ScreenshotSweep.Tab.WriteFile | extras/browser_screenshot_sweep.js:104 | a write is logged with its file name |
| ScreenshotSweep.Response.SetIncludeModalStates | extras/browser_screenshot_sweep.js:51 | the response reports exactly the given modal states |
| ScreenshotSweep.Response.AddError | extras/browser_screenshot_sweep.js:52 | appends exactly one error |
| ScreenshotSweep.Response.AddImage | extras/browser_screenshot_sweep.js:107-110 | appends exactly one image with the given content type |
| ScreenshotSweep.Tab.SetViewportSize | extras/browser_screenshot_sweep.js:91 | a resize sets the viewport and is logged |
| ScreenshotSweep.Response.AddFile | extras/browser_screenshot_sweep.js:99 | registers the file with its reason and returns the suggested name |
| ExtraTools.ListedIffCounted | extras/register-extra-tools.js:10-12 | `browserTools.some(...)` holds exactly when some entry carries the name |
| ExtraTools.AppendIfAbsent | extras/register-extra-tools.js:10-13 | defines the name-checked append; `AppendIfAbsentCounts` states its properties |
| ExtraTools.AfterRegister | extras/register-extra-tools.js:1-14 | defines one call on the flag and the list; `RegisterCounts`, `RegisterAppendsInOrder` and `RegisterRepeated` state its properties |
| ExtraTools.AppendIfAbsentCounts | extras/register-extra-tools.js:10-13 | an append-if-absent keeps the old list as a prefix, brings the tool's name to `max(count, 1)` and leaves other names' counts alone |
| ExtraTools.RegisterCounts | extras/register-extra-tools.js:1-14 | after a call the flag is set. A call with the flag already set changes nothing. Otherwise the two tool names reach `max(count, 1)` and every other name's count is unchanged |
| ExtraTools.RegisterAppendsInOrder | extras/register-extra-tools.js:10-13 | nothing is removed or reordered; the sweep tool is added when its name was missing, then the storage-state tool when its name was missing, in that order |
| ExtraTools.RegisterRepeated | extras/register-extra-tools.js:2-4 | any positive number of calls has the effect of the first one |
| ExtraTools.RegisterCountsAfterCalls | extras/register-extra-tools.js:1-14 | from an unset flag, after any positive number of calls, each of the two names is listed `max(initial count, 1)` times |
| ExtraTools.ProcessRegistry.HasToolNamed | extras/register-extra-tools.js:10-12 | the scan reports a match exactly when some entry carries the name |
| ExtraTools.ProcessRegistry.RegisterExtraTools | extras/register-extra-tools.js:1-14 | the new flag and list are exactly `AfterRegister` of the old ones |
| Scenarios.TwoPresetsTwoArtifacts | extras/browser_screenshot_sweep.js:75-98 | desktop then mobile give two distinct names with the head `sweep-{stamp}-` and the ordinals `01`, then `02` |
| Scenarios.RestoresInitialViewport | extras/browser_screenshot_sweep.js:114-117 | a sweep starting at 800x600 with restoration ends at 800x600 |
| Scenarios.NoRestoreWithoutRecordedSize | extras/browser_screenshot_sweep.js:114-122 | with no reported viewport and a failed inner-size sample there is no restoring resize, and the tab stays at the last captured size |
| Scenarios.UnknownPresetOnlyFails | extras/browser_screenshot_sweep.js:76-85 | a sweep with an unknown preset and no custom viewports fails with "No viewports to capture", without resizing, capturing, writing or registering files |
| Scenarios.RegisterTwiceFromScratch | extras/register-extra-tools.js:1-14 | registering twice against a list without either tool leaves exactly one entry per name |

## Left out

- Upstream failures are not modelled. Every tab primitive (`goto`, `setViewportSize`, `waitForTimeout`, `screenshot`) and every file write succeeds in the model. A thrown error that stops the sweep part-way, leaving earlier files in place, is not represented.
- The `evaluate` call is not modelled as code. The inner size it returns, or its failure, is the tab's `innerSample`, and a failed sample is `None`.
- Rendering is not modelled. The tab does not update `innerSample` on a resize, because the sample is read only before the first resize.
- Screenshot bytes and the image data are not modelled. A capture is logged with its options, and an embedded image is recorded by its content type.
- `mkdirIfNeeded` and the mapping from suggested name to path in `response.addFile` are external. `addFile` returns the suggested name, and a write is a `Written` log event.
- `response.addCode` transcript lines and `formatObject` only inform and are not modelled.
- Schema validation and defaulting are not modelled. Parameters arrive already defaulted. An absent `presets` or `viewports` list is the empty list.
- Widths, heights and delays are integers. `${width}` for fractional, exponent-form or NaN values is not modelled.
- The clock is a parameter. `timestampSlug` takes the ISO-8601 string that `new Date().toISOString()` would return.
- `trim()` and `toLowerCase()` are modelled on ASCII only: the ASCII blanks and `A`-`Z`. Unicode spaces and non-ASCII case mappings are not covered.
- The preset lookup knows only `desktop`, `tablet` and `mobile`. Inherited object keys such as `constructor` would be truthy in JavaScript. The input schema rules them out.
- `context.ensureTab()` is not modelled: `Handle` is given an existing tab.
- `async`/`await`, `require`, module loading and `globalThis` are not modelled. The guard flag is a field of `ProcessRegistry`, and the two tool modules appear only as their schema names.
- `extras/browser_storage_state_save.js` is not part of this model, apart from its tool name in the registrar.
