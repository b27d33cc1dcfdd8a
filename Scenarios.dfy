/**
 * Concrete sweeps and registrations, checked against the general model.
 */
module Scenarios {
  import opened Wrappers
  import opened FileNames
  import opened SweepPlan
  import opened SweepEffects
  import opened ExtraTools

  /** A sweep over the given presets with no custom viewports, default options otherwise. */
  function PresetSweep(presets: seq<string>, restore: bool): SweepParams {
    SweepParams(None, presets, [], Some(true), None, None, Load, 250, false, restore)
  }

  const Desktop: ViewportSpec := ViewportSpec("desktop", 1440, 900, "Desktop (1440x900)")
  const Mobile: ViewportSpec := ViewportSpec("mobile", 390, 844, "Mobile (390x844)")

  lemma DesktopThenMobile(restore: bool)
    ensures Viewports(PresetSweep(["desktop", "mobile"], restore)) == [Desktop, Mobile]
  {
    assert ["desktop", "mobile"][..1] == ["desktop"];
    assert ["desktop"][..0] == [];
  }

  /** Two captures are named with the ordinals `01` and `02`, in that order, after one shared
      head `{prefix}-{stamp}-`, and the names differ. */
  lemma TwoNames(labels: seq<string>, prefix: string, stamp: string, t: ImageType)
    requires |labels| == 2
    ensures var names, head := SweepFileNames(labels, prefix, stamp, t), prefix + "-" + stamp + "-";
      && |names| == 2
      && names[0] != names[1]
      && |names[0]| >= |head| + 2 && names[0][..|head|] == head && names[0][|head|..|head| + 2] == "01"
      && |names[1]| >= |head| + 2 && names[1][..|head|] == head && names[1][|head|..|head| + 2] == "02"
  {
    SweepFileNamesDistinct(labels, prefix, stamp, t);
    SweepFileNamesOrdinal(labels, prefix, stamp, t, 0);
    SweepFileNamesOrdinal(labels, prefix, stamp, t, 1);
    assert Ordinal(1) == "01" && Ordinal(2) == "02";
  }

  /** Desktop then mobile (no prefix, default type) gives two captures whose names share the
      head `sweep-{stamp}-` and carry the ordinals `01` and `02`, in that order. */
  lemma TwoPresetsTwoArtifacts(p: SweepParams, now: string)
    requires p.presets == ["desktop", "mobile"] && p.viewports == []
    requires p.prefix == None && p.imageType == None
    ensures var names, head := Names(p, now), DefaultPrefix + "-" + TimestampSlug(now) + "-";
      && |names| == 2
      && names[0] != names[1]
      && |names[0]| >= |head| + 2 && names[0][..|head|] == head && names[0][|head|..|head| + 2] == "01"
      && |names[1]| >= |head| + 2 && names[1][..|head|] == head && names[1][|head|..|head| + 2] == "02"
  {
    assert ["desktop", "mobile"][..1] == ["desktop"];
    assert ["desktop"][..0] == [];
    TwoNames(SafeLabels(Viewports(p)), DefaultPrefix, TimestampSlug(now), Png);
  }

  /** Starting at 800x600 and sweeping desktop then mobile with restoration ends at 800x600. */
  lemma RestoresInitialViewport(inner: Option<Size>)
    ensures var p := PresetSweep(["desktop", "mobile"], true);
      var before := Some(Size(800, 600));
      FinalViewport(p, before, RestoreTarget(before, inner)) == Some(Size(800, 600))
  {
    DesktopThenMobile(true);
  }

  /** With no viewport reported and the inner-size sample failing, restoration is skipped
      silently: no extra resize, and the tab stays at the last captured size. */
  lemma NoRestoreWithoutRecordedSize(names: seq<string>)
    requires |names| == 2
    ensures var p := PresetSweep(["desktop", "mobile"], true);
      && RestoreEvents(p.restoreViewport, RestoreTarget(None, None)) == []
      && FinalViewport(p, None, RestoreTarget(None, None)) == Some(Mobile.Dimensions())
      && |Viewports(p)| == 2
      && Count(SweepLog(p, names, RestoreTarget(None, None)), Resize) == 2
  {
    var p := PresetSweep(["desktop", "mobile"], true);
    DesktopThenMobile(true);
    SweepLogCounts(p, names, RestoreTarget(None, None));
  }

  /** Only unknown preset keys and no custom viewports: the sweep fails with "No viewports to
      capture", and neither resizes, captures, writes nor registers a file. */
  lemma UnknownPresetOnlyFails(target: Option<Size>)
    ensures var p, names := PresetSweep(["widescreen"], true), [];
      && |names| == |Viewports(p)|
      && SweepOutcome(p) == Failed(NoViewportsMessage)
      && Count(SweepLog(p, names, target), Resize) == 0
      && Count(SweepLog(p, names, target), Capture) == 0
      && Count(SweepLog(p, names, target), Write) == 0
      && FileEntries(Viewports(p), names) == []
  {
    var p := PresetSweep(["widescreen"], true);
    assert ["widescreen"][..0] == [];
    assert Viewports(p) == [];
    SweepLogCounts(p, [], target);
  }

  /** Registering twice against a list without either tool leaves exactly one entry per name. */
  lemma RegisterTwiceFromScratch(tools: seq<Tool>)
    requires !Listed(tools, Some(SweepToolName)) && !Listed(tools, Some(StorageStateSaveToolName))
    ensures var after := RegisterN(Registry(false, tools), 2).tools;
      && CountNamed(after, Some(SweepToolName)) == 1
      && CountNamed(after, Some(StorageStateSaveToolName)) == 1
  {
    ListedIffCounted(tools, Some(SweepToolName));
    ListedIffCounted(tools, Some(StorageStateSaveToolName));
    RegisterCountsAfterCalls(Registry(false, tools), 2);
  }
}
