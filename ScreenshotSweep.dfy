/**
 * The `handle` of `browser_screenshot_sweep` over an abstract tab. The tab keeps
 * its viewport, its pending modal states and an ordered log of what was done to
 * it (navigation, resizes, waits, captures, and the file writes that follow each
 * capture); the response keeps what the tool reported back.
 */
module ScreenshotSweep {
  import opened Wrappers
  import opened Seqs
  import opened FileNames
  import opened SweepPlan
  import opened SweepEffects

  /** A pending dialog or file chooser; its details do not matter here. */
  datatype ModalState = ModalState(description: string)

  const ModalStateMessage: string := "Error: Tool \"browser_screenshot_sweep\" does not handle the modal state."

  class Tab {
    /** `page.viewportSize()`: absent when the page has no fixed viewport. */
    var viewport: Option<Size>
    /** What evaluating `window.innerWidth`/`innerHeight` yields; absent when the evaluation fails. */
    var innerSample: Option<Size>
    var modalStates: seq<ModalState>
    var log: seq<Event>

    constructor (viewport: Option<Size>, innerSample: Option<Size>, modalStates: seq<ModalState>)
      ensures this.viewport == viewport && this.innerSample == innerSample
      ensures this.modalStates == modalStates && log == []
    {
      this.viewport := viewport;
      this.innerSample := innerSample;
      this.modalStates := modalStates;
      log := [];
    }

    method ModalStates() returns (states: seq<ModalState>)
      ensures states == modalStates
    {
      states := modalStates;
    }

    method ViewportSize() returns (size: Option<Size>)
      ensures size == viewport
    {
      size := viewport;
    }

    method EvaluateInnerSize() returns (size: Option<Size>)
      ensures size == innerSample
    {
      size := innerSample;
    }

    method Goto(url: string, waitUntil: WaitUntil)
      modifies this`log
      ensures log == old(log) + [Navigated(url, waitUntil)]
    {
      log := log + [Navigated(url, waitUntil)];
    }

    method SetViewportSize(size: Size)
      modifies this`viewport, this`log
      ensures viewport == Some(size)
      ensures log == old(log) + [Resized(size)]
    {
      viewport := Some(size);
      log := log + [Resized(size)];
    }

    method WaitForTimeout(ms: int)
      modifies this`log
      ensures log == old(log) + [Waited(ms)]
    {
      log := log + [Waited(ms)];
    }

    method Screenshot(options: CaptureOptions)
      modifies this`log
      ensures log == old(log) + [Captured(options)]
    {
      log := log + [Captured(options)];
    }

    /** The file write of the last capture (after creating its directory). */
    method WriteFile(fileName: string)
      modifies this`log
      ensures log == old(log) + [Written(fileName)]
    {
      log := log + [Written(fileName)];
    }
  }

  class Response {
    var includedModalStates: seq<ModalState>
    var errors: seq<string>
    var files: seq<FileEntry>
    /** The content type of each embedded image. */
    var images: seq<string>

    constructor ()
      ensures includedModalStates == [] && errors == [] && files == [] && images == []
    {
      includedModalStates, errors, files, images := [], [], [], [];
    }

    method SetIncludeModalStates(states: seq<ModalState>)
      modifies this`includedModalStates
      ensures includedModalStates == states
    {
      includedModalStates := states;
    }

    method AddError(message: string)
      modifies this`errors
      ensures errors == old(errors) + [message]
    {
      errors := errors + [message];
    }

    /** Registers an output file; the name it returns is the suggested one. */
    method AddFile(suggested: string, reason: string) returns (fileName: string)
      modifies this`files
      ensures files == old(files) + [FileEntry(suggested, reason)]
      ensures fileName == suggested
    {
      files := files + [FileEntry(suggested, reason)];
      fileName := suggested;
    }

    method AddImage(contentType: string)
      modifies this`images
      ensures images == old(images) + [contentType]
    {
      images := images + [contentType];
    }
  }

  /** The two loops that build the capture list: presets first, then custom viewports. */
  method ExpandViewports(presets: seq<string>, customs: seq<CustomViewport>) returns (viewports: seq<ViewportSpec>)
    ensures viewports == PlannedViewports(presets, customs)
  {
    viewports := PushPresets(presets);
    viewports := PushCustoms(viewports, customs);
  }

  /** The first loop: the table entry of each known preset key, in the order listed. */
  method PushPresets(presets: seq<string>) returns (viewports: seq<ViewportSpec>)
    ensures viewports == PresetViewports(presets)
  {
    viewports := [];
    for i := 0 to |presets|
      invariant viewports == PresetViewports(presets[..i])
    {
      assert presets[..i + 1][..i] == presets[..i];
      var p := Preset(presets[i]);
      if p.Some? {
        viewports := viewports + [p.value];
      }
    }
    assert presets[..|presets|] == presets;
  }

  /** The second loop: one entry per custom viewport, appended in order. */
  method PushCustoms(start: seq<ViewportSpec>, customs: seq<CustomViewport>) returns (viewports: seq<ViewportSpec>)
    ensures viewports == start + CustomViewports(customs)
  {
    viewports := start;
    for j := 0 to |customs|
      invariant viewports == start + CustomViewports(customs[..j])
    {
      assert customs[..j + 1][..j] == customs[..j];
      var vp := customs[j];
      AppendAssoc(start, CustomViewports(customs[..j]), [CustomViewportSpec(vp)]);
      viewports := viewports + [CustomViewportSpec(vp)];
    }
    assert customs[..|customs|] == customs;
  }

  /** The suggested file name of the i-th capture (from 0): ordinal i + 1 and the viewport's
      label (its name, or `WxH`), sanitized. */
  method SuggestedFileName(prefix: string, sweepStamp: string, viewports: seq<ViewportSpec>, i: nat, t: ImageType)
    returns (suggested: string)
    requires i < |viewports|
    ensures suggested == SweepFileNames(SafeLabels(viewports), prefix, sweepStamp, t)[i]
  {
    var vp := viewports[i];
    var viewportLabel := LabelOf(vp);
    var safeLabel := SanitizeFileSegment(viewportLabel);
    suggested := ArtifactName(prefix, sweepStamp, i + 1, safeLabel, Extension(t));
    SafeLabelsAt(viewports, i);
    SweepFileNamesAt(SafeLabels(viewports), prefix, sweepStamp, t, i);
  }

  /** One iteration of the capture loop: resize, wait when the delay is non-zero, register
      the file under its suggested name, capture, write, and embed on request. */
  method CaptureOne(tab: Tab, response: Response, vp: ViewportSpec, params: SweepParams,
                    options: CaptureOptions, suggested: string)
    modifies tab`log, tab`viewport, response`files, response`images
    ensures tab.log == old(tab.log) + StepEvents(vp, params.delayMs, options, suggested)
    ensures tab.viewport == Some(vp.Dimensions())
    ensures response.files == old(response.files) + [FileEntry(suggested, Reason(vp))]
    ensures response.images == old(response.images) + (if params.embedImages then [ContentType(FileType(params))] else [])
  {
    tab.SetViewportSize(vp.Dimensions());
    if params.delayMs != 0 {
      tab.WaitForTimeout(params.delayMs);
    }
    var fileName := response.AddFile(suggested, Reason(vp));
    tab.Screenshot(options);
    tab.WriteFile(fileName);
    if params.embedImages {
      response.AddImage(ContentType(FileType(params)));
    }
  }

  /** The capture loop of `handle`: the viewports in order, the k-th (from 0) written to the
      artifact name with ordinal k + 1 and that viewport's sanitized label. */
  method CaptureViewports(tab: Tab, response: Response, viewports: seq<ViewportSpec>, params: SweepParams,
                          options: CaptureOptions, prefix: string, sweepStamp: string)
    requires viewports != []
    modifies tab`log, tab`viewport, response`files, response`images
    ensures var names := SweepFileNames(SafeLabels(viewports), prefix, sweepStamp, FileType(params));
      && tab.log == old(tab.log) + CaptureLog(viewports, names, params.delayMs, options)
      && response.files == old(response.files) + FileEntries(viewports, names)
      && response.images == old(response.images) + SweepImages(params, |viewports|)
    ensures tab.viewport == Some(viewports[|viewports| - 1].Dimensions())
  {
    ghost var names := SweepFileNames(SafeLabels(viewports), prefix, sweepStamp, FileType(params));
    var i := 0;
    while i < |viewports|
      invariant 0 <= i <= |viewports|
      invariant tab.log == old(tab.log) + CaptureLog(viewports[..i], names[..i], params.delayMs, options)
      invariant response.files == old(response.files) + FileEntries(viewports[..i], names[..i])
      invariant response.images == old(response.images) + SweepImages(params, i)
      invariant i > 0 ==> tab.viewport == Some(viewports[i - 1].Dimensions())
    {
      var vp := viewports[i];
      var suggested := SuggestedFileName(prefix, sweepStamp, viewports, i, FileType(params));
      CaptureOne(tab, response, vp, params, options, suggested);
      CaptureLogSnoc(viewports, names, params.delayMs, options, i);
      AppendAssoc(old(tab.log), CaptureLog(viewports[..i], names[..i], params.delayMs, options),
                  StepEvents(vp, params.delayMs, options, suggested));
      SweepImagesSnoc(params, i);
      AppendAssoc(old(response.images), SweepImages(params, i),
                  if params.embedImages then [ContentType(FileType(params))] else []);
      FileEntriesSnoc(viewports, names, i);
      AppendAssoc(old(response.files), FileEntries(viewports[..i], names[..i]), [FileEntry(suggested, Reason(vp))]);
      i := i + 1;
    }
    assert viewports[..i] == viewports && names[..i] == names;
  }

  /** The viewport reported at the start and, only when there is none, the sampled inner
      window size. */
  method SampleInitialSize(tab: Tab) returns (initialViewport: Option<Size>, initialInner: Option<Size>)
    ensures initialViewport == tab.viewport
    ensures initialViewport.Some? ==> initialInner.None?
    ensures RestoreTarget(initialViewport, initialInner) == RestoreTarget(tab.viewport, tab.innerSample)
  {
    initialViewport := tab.ViewportSize();
    initialInner := None;
    if initialViewport.None? {
      initialInner := tab.EvaluateInnerSize();
    }
  }

  /** Navigates when a non-empty URL was given. */
  method Navigate(tab: Tab, params: SweepParams)
    modifies tab`log
    ensures tab.log == old(tab.log) + NavigationEvents(params)
  {
    if params.url.Some? && params.url.value != "" {
      tab.Goto(params.url.value, params.waitUntil);
    } else {
      AppendEmpty(tab.log);
    }
  }

  /** On request, resizes back to the viewport reported at the start, or else to the sampled
      inner window size; with neither, nothing happens. */
  method RestoreViewport(tab: Tab, restore: bool, initialViewport: Option<Size>, initialInner: Option<Size>)
    modifies tab`log, tab`viewport
    ensures tab.log == old(tab.log) + RestoreEvents(restore, RestoreTarget(initialViewport, initialInner))
    ensures tab.viewport == (if restore && RestoreTarget(initialViewport, initialInner).Some?
                             then RestoreTarget(initialViewport, initialInner) else old(tab.viewport))
  {
    if restore {
      if initialViewport.Some? {
        tab.SetViewportSize(initialViewport.value);
      } else if initialInner.Some? {
        tab.SetViewportSize(initialInner.value);
      } else {
        AppendEmpty(tab.log);
      }
    } else {
      AppendEmpty(tab.log);
    }
  }

  /** `handle(context, params, response)` for the tab `tab`, started at the ISO instant `now`.
      A modal state leaves the tab alone and reports an error; otherwise the sweep runs. */
  method Handle(tab: Tab, params: SweepParams, now: string, response: Response) returns (outcome: Outcome)
    modifies tab, response
    ensures tab.modalStates == old(tab.modalStates) && tab.innerSample == old(tab.innerSample)
    ensures old(tab.modalStates) != [] ==>
      && outcome == Completed
      && tab.log == old(tab.log) && tab.viewport == old(tab.viewport)
      && response.includedModalStates == old(tab.modalStates)
      && response.errors == old(response.errors) + [ModalStateMessage]
      && response.files == old(response.files) && response.images == old(response.images)
    ensures old(tab.modalStates) == [] ==>
      var vps, names := Viewports(params), Names(params, now);
      var target := RestoreTarget(old(tab.viewport), old(tab.innerSample));
      && |names| == |vps|
      && outcome == SweepOutcome(params)
      && tab.log == old(tab.log) + SweepLog(params, names, target)
      && tab.viewport == FinalViewport(params, old(tab.viewport), target)
      && response.files == old(response.files) + FileEntries(vps, names)
      && response.images == old(response.images) + SweepImages(params, |vps|)
      && response.includedModalStates == old(response.includedModalStates)
      && response.errors == old(response.errors)
  {
    var modalStates := tab.ModalStates();
    if |modalStates| > 0 {
      response.SetIncludeModalStates(modalStates);
      response.AddError(ModalStateMessage);
      return Completed;
    }
    outcome := Sweep(tab, params, now, response);
  }

  /** The body of `handle` once no modal state is pending: the tab goes through exactly the
      events of `SweepLog`, ends at `FinalViewport`, and the response lists one file per
      capture (and one image per capture when embedding). An empty capture list fails with
      "No viewports to capture" after any navigation and before any resize. */
  method Sweep(tab: Tab, params: SweepParams, now: string, response: Response) returns (outcome: Outcome)
    modifies tab`log, tab`viewport, response`files, response`images
    ensures var vps, names := Viewports(params), Names(params, now);
      var target := RestoreTarget(old(tab.viewport), old(tab.innerSample));
      && |names| == |vps|
      && outcome == SweepOutcome(params)
      && tab.log == old(tab.log) + SweepLog(params, names, target)
      && tab.viewport == FinalViewport(params, old(tab.viewport), target)
      && response.files == old(response.files) + FileEntries(vps, names)
      && response.images == old(response.images) + SweepImages(params, |vps|)
  {
    var options := ResolveCaptureOptions(params.imageType, params.fullPage);
    var sweepStamp := TimestampSlug(now);
    var prefix := ResolvePrefix(params.prefix);

    var initialViewport, initialInner := SampleInitialSize(tab);
    ghost var target := RestoreTarget(initialViewport, initialInner);

    Navigate(tab, params);

    var viewports := ExpandViewports(params.presets, params.viewports);
    ghost var names := Names(params, now);
    SweepLogPhases(old(tab.log), params, names, target);
    if |viewports| == 0 {
      AppendEmpty(old(response.images));
      return Failed(NoViewportsMessage);
    }

    CaptureViewports(tab, response, viewports, params, options, prefix, sweepStamp);

    RestoreViewport(tab, params.restoreViewport, initialViewport, initialInner);
    outcome := Completed;
  }
}
