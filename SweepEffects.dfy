/**
 * What one call of `browser_screenshot_sweep`'s `handle` does to the outside
 * world, as a function of its parameters: the ordered list of tab and file
 * events, the files it registers with the response, the images it embeds and
 * the tab's viewport afterwards. The imperative `handle` in ScreenshotSweep is
 * proved to produce exactly these.
 */
module SweepEffects {
  import opened Wrappers
  import opened Seqs
  import opened FileNames
  import opened SweepPlan

  datatype WaitUntil = Load | DomContentLoaded | NetworkIdle

  /** The tool's parameters after schema defaulting. `viewports` absent is the empty list. */
  datatype SweepParams = SweepParams(
    url: Option<string>,
    presets: seq<string>,
    viewports: seq<CustomViewport>,
    fullPage: Option<bool>,
    imageType: Option<ImageType>,
    prefix: Option<string>,
    waitUntil: WaitUntil,
    delayMs: int,
    embedImages: bool,
    restoreViewport: bool)

  /** An externally visible effect, in the order it happens. */
  datatype Event =
    | Navigated(url: string, waitUntil: WaitUntil)
    | Resized(size: Size)
    | Waited(ms: int)
    | Captured(options: CaptureOptions)
    | Written(fileName: string)

  /** A file registered with the response: its suggested name and the stated reason. */
  datatype FileEntry = FileEntry(name: string, reason: string)

  datatype Outcome = Completed | Failed(message: string)

  const NoViewportsMessage: string := "No viewports to capture. Provide presets and/or viewports."

  // ---------------------------------------------------------------------------
  // The per-sweep values
  // ---------------------------------------------------------------------------

  function FileType(p: SweepParams): ImageType { p.imageType.GetOr(Png) }

  function Options(p: SweepParams): CaptureOptions { ResolveCaptureOptions(p.imageType, p.fullPage) }

  function Viewports(p: SweepParams): seq<ViewportSpec> { PlannedViewports(p.presets, p.viewports) }

  /** The artifact names of the sweep started at the ISO instant `now`. */
  function Names(p: SweepParams, now: string): seq<string> {
    SweepFileNames(SafeLabels(Viewports(p)), ResolvePrefix(p.prefix), TimestampSlug(now), FileType(p))
  }

  /** The size restored at the end: the viewport reported at the start, else the sampled
      inner window size, else nothing. */
  function RestoreTarget(initialViewport: Option<Size>, innerSample: Option<Size>): Option<Size> {
    if initialViewport.Some? then initialViewport else innerSample
  }

  // ---------------------------------------------------------------------------
  // Events
  // ---------------------------------------------------------------------------

  function NavigationEvents(p: SweepParams): seq<Event> {
    if p.url.Some? && p.url.value != "" then [Navigated(p.url.value, p.waitUntil)] else []
  }

  /** One iteration: resize, the settle delay when it is non-zero, capture, write. */
  function StepEvents(vp: ViewportSpec, delayMs: int, options: CaptureOptions, fileName: string): seq<Event> {
    [Resized(vp.Dimensions())] + (if delayMs != 0 then [Waited(delayMs)] else []) +
    [Captured(options), Written(fileName)]
  }

  /** The iterations over `vps`, the k-th written to `names[k]`. */
  function CaptureLog(vps: seq<ViewportSpec>, names: seq<string>, delayMs: int, options: CaptureOptions): seq<Event>
    requires |vps| == |names|
  {
    if vps == [] then []
    else
      CaptureLog(vps[..|vps| - 1], names[..|names| - 1], delayMs, options) +
      StepEvents(vps[|vps| - 1], delayMs, options, names[|names| - 1])
  }

  function RestoreEvents(restore: bool, target: Option<Size>): seq<Event> {
    if restore && target.Some? then [Resized(target.value)] else []
  }

  /** Everything a sweep without an open modal state does, in order, when its captures are
      written to `names`. The navigation comes before the check for an empty capture list,
      so it happens even when that check fails. */
  function SweepLog(p: SweepParams, names: seq<string>, target: Option<Size>): seq<Event>
    requires |names| == |Viewports(p)|
  {
    NavigationEvents(p) +
    if Viewports(p) == [] then []
    else CaptureLog(Viewports(p), names, p.delayMs, Options(p)) + RestoreEvents(p.restoreViewport, target)
  }

  /** The tab's viewport after a sweep that started with viewport `before`. */
  function FinalViewport(p: SweepParams, before: Option<Size>, target: Option<Size>): Option<Size> {
    var vps := Viewports(p);
    if vps == [] then before
    else if p.restoreViewport && target.Some? then target
    else Some(vps[|vps| - 1].Dimensions())
  }

  function Reason(vp: ViewportSpec): string {
    "Screenshot: " + (if vp.title != "" then vp.title else LabelOf(vp))
  }

  /** The files registered for the captures over `vps`, the k-th under `names[k]`. */
  function FileEntries(vps: seq<ViewportSpec>, names: seq<string>): (r: seq<FileEntry>)
    requires |vps| == |names|
    ensures |r| == |vps|
  {
    if vps == [] then []
    else FileEntries(vps[..|vps| - 1], names[..|names| - 1]) + [FileEntry(names[|names| - 1], Reason(vps[|vps| - 1]))]
  }

  /** One content type per capture when images are embedded, none otherwise. */
  function SweepImages(p: SweepParams, captures: nat): seq<string> {
    if captures == 0 then []
    else SweepImages(p, captures - 1) + (if p.embedImages then [ContentType(FileType(p))] else [])
  }

  function SweepOutcome(p: SweepParams): Outcome {
    if Viewports(p) == [] then Failed(NoViewportsMessage) else Completed
  }

  // ---------------------------------------------------------------------------
  // Properties of the event log
  // ---------------------------------------------------------------------------

  function Stride(delayMs: int): nat { if delayMs != 0 then 4 else 3 }

  lemma StepEventsShape(vp: ViewportSpec, delayMs: int, options: CaptureOptions, fileName: string)
    ensures var s := StepEvents(vp, delayMs, options, fileName);
      && |s| == Stride(delayMs)
      && s[0] == Resized(vp.Dimensions())
      && (delayMs != 0 ==> s[1] == Waited(delayMs))
      && s[|s| - 2] == Captured(options)
      && s[|s| - 1] == Written(fileName)
  {
  }

  /** The k-th iteration occupies its own block of the log: resize to the k-th viewport,
      then (with a delay) a wait, then the capture, then the write of the k-th name. */
  lemma {:induction false} CaptureLogAt(vps: seq<ViewportSpec>, names: seq<string>, delayMs: int, options: CaptureOptions, k: nat)
    requires |vps| == |names| && k < |vps|
    ensures |CaptureLog(vps, names, delayMs, options)| == |vps| * Stride(delayMs)
    ensures var log, b, s := CaptureLog(vps, names, delayMs, options), k * Stride(delayMs), Stride(delayMs);
      && log[b] == Resized(vps[k].Dimensions())
      && (delayMs != 0 ==> log[b + 1] == Waited(delayMs))
      && log[b + s - 2] == Captured(options)
      && log[b + s - 1] == Written(names[k])
    decreases |vps|
  {
    var n, s := |vps|, Stride(delayMs);
    var init, initNames := vps[..n - 1], names[..n - 1];
    var step := StepEvents(vps[n - 1], delayMs, options, names[n - 1]);
    StepEventsShape(vps[n - 1], delayMs, options, names[n - 1]);
    CaptureLogLength(init, initNames, delayMs, options);
    assert (n - 1) * s + s == n * s;
    var log := CaptureLog(vps, names, delayMs, options);
    assert log == CaptureLog(init, initNames, delayMs, options) + step;
    if k < n - 1 {
      CaptureLogAt(init, initNames, delayMs, options, k);
      assert k * s + s <= (n - 1) * s by {
        assert k + 1 <= n - 1;
        MulMono(k + 1, n - 1, s);
      }
    } else {
      assert k * s == (n - 1) * s;
    }
  }

  /** Extending the iterations by one viewport appends that viewport's step. */
  lemma CaptureLogSnoc(vps: seq<ViewportSpec>, names: seq<string>, delayMs: int, options: CaptureOptions, i: nat)
    requires |vps| == |names| && i < |vps|
    ensures CaptureLog(vps[..i + 1], names[..i + 1], delayMs, options)
         == CaptureLog(vps[..i], names[..i], delayMs, options) + StepEvents(vps[i], delayMs, options, names[i])
  {
    assert vps[..i + 1][..i] == vps[..i];
    assert names[..i + 1][..i] == names[..i];
  }

  /** The log of a sweep, from the log before it, as the three phases happen one after another. */
  lemma SweepLogPhases(before: seq<Event>, p: SweepParams, names: seq<string>, target: Option<Size>)
    requires |names| == |Viewports(p)|
    ensures Viewports(p) == [] ==> before + SweepLog(p, names, target) == before + NavigationEvents(p)
    ensures Viewports(p) != [] ==>
      (before + SweepLog(p, names, target) ==
       ((before + NavigationEvents(p)) + CaptureLog(Viewports(p), names, p.delayMs, Options(p))) + RestoreEvents(p.restoreViewport, target))
  {
    var nav := NavigationEvents(p);
    if Viewports(p) == [] {
      AppendEmpty(nav);
    } else {
      var cap, restore := CaptureLog(Viewports(p), names, p.delayMs, Options(p)), RestoreEvents(p.restoreViewport, target);
      AppendAssoc(before, nav, cap + restore);
      AppendAssoc(before + nav, cap, restore);
    }
  }

  lemma FileEntriesSnoc(vps: seq<ViewportSpec>, names: seq<string>, i: nat)
    requires |vps| == |names| && i < |vps|
    ensures FileEntries(vps[..i + 1], names[..i + 1]) == FileEntries(vps[..i], names[..i]) + [FileEntry(names[i], Reason(vps[i]))]
  {
    assert vps[..i + 1][..i] == vps[..i];
    assert names[..i + 1][..i] == names[..i];
  }

  /** The k-th registered file is the k-th name, with the k-th viewport's reason. */
  lemma {:induction false} FileEntriesAt(vps: seq<ViewportSpec>, names: seq<string>, k: nat)
    requires |vps| == |names| && k < |vps|
    ensures FileEntries(vps, names)[k] == FileEntry(names[k], Reason(vps[k]))
    decreases |vps|
  {
    if k < |vps| - 1 {
      FileEntriesAt(vps[..|vps| - 1], names[..|names| - 1], k);
    }
  }

  /** Embedding adds one image per capture, all of the sweep's content type; otherwise none. */
  lemma {:induction false} SweepImagesContent(p: SweepParams, captures: nat)
    ensures |SweepImages(p, captures)| == (if p.embedImages then captures else 0)
    ensures forall i :: 0 <= i < |SweepImages(p, captures)| ==> SweepImages(p, captures)[i] == ContentType(FileType(p))
  {
    if captures > 0 {
      SweepImagesContent(p, captures - 1);
    }
  }

  lemma SweepImagesSnoc(p: SweepParams, i: nat)
    ensures SweepImages(p, i + 1) == SweepImages(p, i) + (if p.embedImages then [ContentType(FileType(p))] else [])
  {
  }

  lemma MulMono(a: nat, b: nat, s: nat)
    requires a <= b
    ensures a * s <= b * s
  {
  }

  lemma {:induction false} CaptureLogLength(vps: seq<ViewportSpec>, names: seq<string>, delayMs: int, options: CaptureOptions)
    requires |vps| == |names|
    ensures |CaptureLog(vps, names, delayMs, options)| == |vps| * Stride(delayMs)
    decreases |vps|
  {
    if vps != [] {
      CaptureLogLength(vps[..|vps| - 1], names[..|names| - 1], delayMs, options);
      StepEventsShape(vps[|vps| - 1], delayMs, options, names[|names| - 1]);
    }
  }

  // ---------------------------------------------------------------------------
  // Counting events
  // ---------------------------------------------------------------------------

  datatype EventKind = Navigation | Resize | Wait | Capture | Write

  function KindOf(e: Event): EventKind {
    match e
    case Navigated(_, _) => Navigation
    case Resized(_) => Resize
    case Waited(_) => Wait
    case Captured(_) => Capture
    case Written(_) => Write
  }

  /** How many events of the given kind the log holds. */
  function Count(log: seq<Event>, kind: EventKind): nat {
    if log == [] then 0
    else Count(log[..|log| - 1], kind) + (if KindOf(log[|log| - 1]) == kind then 1 else 0)
  }

  lemma {:induction false} CountAppend(a: seq<Event>, b: seq<Event>, kind: EventKind)
    ensures Count(a + b, kind) == Count(a, kind) + Count(b, kind)
    decreases |b|
  {
    if b == [] {
      assert a + b == a;
    } else {
      assert (a + b)[..|a + b| - 1] == a + b[..|b| - 1];
      CountAppend(a, b[..|b| - 1], kind);
    }
  }

  /** Whether one iteration produces an event of the kind (it produces at most one). */
  predicate InStep(kind: EventKind, delayMs: int) {
    match kind
    case Navigation => false
    case Wait => delayMs != 0
    case _ => true
  }

  lemma StepEventsCount(vp: ViewportSpec, delayMs: int, options: CaptureOptions, fileName: string, kind: EventKind)
    ensures Count(StepEvents(vp, delayMs, options, fileName), kind) == if InStep(kind, delayMs) then 1 else 0
  {
    var resize := [Resized(vp.Dimensions())];
    var wait := if delayMs != 0 then [Waited(delayMs)] else [];
    var tail := [Captured(options), Written(fileName)];
    CountAppend(resize + wait, tail, kind);
    CountAppend(resize, wait, kind);
    assert tail[..1] == [Captured(options)];
  }

  /** Each iteration resizes once, captures once and writes once; it waits once exactly when
      the delay is non-zero; it never navigates. */
  lemma {:induction false} CaptureLogCounts(vps: seq<ViewportSpec>, names: seq<string>, delayMs: int, options: CaptureOptions, kind: EventKind)
    requires |vps| == |names|
    ensures Count(CaptureLog(vps, names, delayMs, options), kind) == if InStep(kind, delayMs) then |vps| else 0
    decreases |vps|
  {
    if vps != [] {
      var n := |vps|;
      CaptureLogCounts(vps[..n - 1], names[..n - 1], delayMs, options, kind);
      CountAppend(CaptureLog(vps[..n - 1], names[..n - 1], delayMs, options),
                  StepEvents(vps[n - 1], delayMs, options, names[n - 1]), kind);
      StepEventsCount(vps[n - 1], delayMs, options, names[n - 1], kind);
    }
  }

  lemma SumCounts(nav: seq<Event>, captures: seq<Event>, restore: seq<Event>, kind: EventKind)
    ensures Count(nav + (captures + restore), kind) == Count(nav, kind) + Count(captures, kind) + Count(restore, kind)
  {
    CountAppend(nav, captures + restore, kind);
    CountAppend(captures, restore, kind);
  }

  lemma NavigationCount(p: SweepParams, kind: EventKind)
    ensures Count(NavigationEvents(p), kind) == (if kind == Navigation && p.url.Some? && p.url.value != "" then 1 else 0)
  {
    if p.url.Some? && p.url.value != "" {
      assert [Navigated(p.url.value, p.waitUntil)][..0] == [];
    }
  }

  lemma RestoreCount(restore: bool, target: Option<Size>, kind: EventKind)
    ensures Count(RestoreEvents(restore, target), kind) == (if kind == Resize then |RestoreEvents(restore, target)| else 0)
  {
    if restore && target.Some? {
      assert [Resized(target.value)][..0] == [];
    }
  }

  /** The events of one kind in a sweep: those of the navigation, then of the iterations,
      then of the restore. */
  lemma SweepLogCount(p: SweepParams, names: seq<string>, target: Option<Size>, kind: EventKind)
    requires |names| == |Viewports(p)|
    ensures Count(SweepLog(p, names, target), kind) ==
      Count(NavigationEvents(p), kind) +
      (if Viewports(p) == [] then 0
       else (if InStep(kind, p.delayMs) then |Viewports(p)| else 0) + Count(RestoreEvents(p.restoreViewport, target), kind))
  {
    var vps, nav := Viewports(p), NavigationEvents(p);
    if vps == [] {
      AppendEmpty(nav);
    } else {
      var captures := CaptureLog(vps, names, p.delayMs, Options(p));
      SumCounts(nav, captures, RestoreEvents(p.restoreViewport, target), kind);
      CaptureLogCounts(vps, names, p.delayMs, Options(p), kind);
    }
  }

  /** A sweep navigates at most once, and only to a non-empty URL; it resizes once per
      viewport plus once to restore (only when asked to and a size was recorded); it captures
      and writes once per viewport, and waits once per viewport only for a non-zero delay.
      With an empty capture list it does nothing but the navigation. */
  lemma SweepLogCounts(p: SweepParams, names: seq<string>, target: Option<Size>)
    requires |names| == |Viewports(p)|
    ensures var log, n := SweepLog(p, names, target), |Viewports(p)|;
      && Count(log, Navigation) == (if p.url.Some? && p.url.value != "" then 1 else 0)
      && Count(log, Resize) == (if n == 0 then 0 else n + |RestoreEvents(p.restoreViewport, target)|)
      && Count(log, Capture) == n
      && Count(log, Write) == n
      && Count(log, Wait) == (if p.delayMs != 0 then n else 0)
  {
    var kinds := [Navigation, Resize, Capture, Write, Wait];
    forall k | 0 <= k < |kinds|
      ensures Count(SweepLog(p, names, target), kinds[k]) ==
        (if kinds[k] == Navigation && p.url.Some? && p.url.value != "" then 1 else 0) +
        (if Viewports(p) == [] then 0
         else (if InStep(kinds[k], p.delayMs) then |Viewports(p)| else 0) +
              (if kinds[k] == Resize then |RestoreEvents(p.restoreViewport, target)| else 0))
    {
      SweepLogCount(p, names, target, kinds[k]);
      NavigationCount(p, kinds[k]);
      RestoreCount(p.restoreViewport, target, kinds[k]);
    }
    assert kinds[0] == Navigation && kinds[1] == Resize && kinds[2] == Capture && kinds[3] == Write && kinds[4] == Wait;
  }
}
