/**
 * The pure decisions of `browser_screenshot_sweep`: the preset table, how the
 * requested presets and custom viewports expand into the ordered capture list,
 * the screenshot options, the file-name prefix and the artifact-name template.
 */
module SweepPlan {
  import opened Wrappers
  import opened Seqs
  import opened Text
  import opened FileNames

  datatype Size = Size(width: int, height: int)

  /** One entry of the capture list: `{ name, width, height, title }`. */
  datatype ViewportSpec = ViewportSpec(name: string, width: int, height: int, title: string) {
    function Dimensions(): Size { Size(width, height) }
  }

  /** A caller-supplied custom viewport `{ name?, width, height }`. */
  datatype CustomViewport = CustomViewport(name: Option<string>, width: int, height: int)

  datatype ImageType = Png | Jpeg

  /** The screenshot options object: `{ type, quality, scale, fullPage? }`. */
  datatype CaptureOptions = CaptureOptions(
    imageType: ImageType,
    quality: Option<int>,
    scale: string,
    fullPage: Option<bool>)

  /** The file extension, which is the type's own name. */
  function Extension(t: ImageType): string {
    match t
    case Png => "png"
    case Jpeg => "jpeg"
  }

  function ContentType(t: ImageType): string {
    match t
    case Png => "image/png"
    case Jpeg => "image/jpeg"
  }

  /** `${width}x${height}` */
  function SizeLabel(width: int, height: int): string {
    IntToString(width) + "x" + IntToString(height)
  }

  // ---------------------------------------------------------------------------
  // Presets and viewport expansion
  // ---------------------------------------------------------------------------

  /** `VIEWPORT_PRESETS[key]`, completed with `name: key`; absent for unknown keys. */
  function Preset(key: string): Option<ViewportSpec> {
    if key == "desktop" then Some(ViewportSpec(key, 1440, 900, "Desktop (1440x900)"))
    else if key == "tablet" then Some(ViewportSpec(key, 820, 1180, "Tablet (820x1180)"))
    else if key == "mobile" then Some(ViewportSpec(key, 390, 844, "Mobile (390x844)"))
    else None
  }

  /** What the first loop of `handle` pushes for the preset keys, in order. */
  function PresetViewports(keys: seq<string>): seq<ViewportSpec> {
    if keys == [] then []
    else
      PresetViewports(keys[..|keys| - 1]) +
      (match Preset(keys[|keys| - 1])
       case Some(p) => [p]
       case None => [])
  }

  /** What the second loop pushes for one custom viewport: the name defaults to `WxH`
      (also when empty) and the title is always `WxH`. */
  function CustomViewportSpec(vp: CustomViewport): ViewportSpec {
    var wxh := SizeLabel(vp.width, vp.height);
    ViewportSpec(if vp.name.Some? && vp.name.value != "" then vp.name.value else wxh,
                 vp.width, vp.height, wxh)
  }

  function CustomViewports(vps: seq<CustomViewport>): (r: seq<ViewportSpec>)
    ensures |r| == |vps|
  {
    if vps == [] then []
    else CustomViewports(vps[..|vps| - 1]) + [CustomViewportSpec(vps[|vps| - 1])]
  }

  /** The second loop keeps the custom viewports' order, one entry each. */
  lemma {:induction false} CustomViewportsAt(vps: seq<CustomViewport>, j: nat)
    requires j < |vps|
    ensures CustomViewports(vps)[j] == CustomViewportSpec(vps[j])
    decreases |vps|
  {
    if j < |vps| - 1 {
      CustomViewportsAt(vps[..|vps| - 1], j);
    }
  }

  /** The whole capture list: known presets in the order given, then the custom viewports. */
  function PlannedViewports(keys: seq<string>, customs: seq<CustomViewport>): seq<ViewportSpec> {
    PresetViewports(keys) + CustomViewports(customs)
  }

  /** Reference definition: the keys of the preset table among `keys`, in order, duplicates kept. */
  function KnownKeys(keys: seq<string>): seq<string> {
    if keys == [] then []
    else (if Preset(keys[0]).Some? then [keys[0]] else []) + KnownKeys(keys[1..])
  }

  lemma {:induction false} KnownKeysAppend(keys: seq<string>, k: string)
    ensures KnownKeys(keys + [k]) == KnownKeys(keys) + (if Preset(k).Some? then [k] else [])
    decreases |keys|
  {
    if keys == [] {
      assert keys + [k] == [k];
      assert KnownKeys([k]) == (if Preset(k).Some? then [k] else []) + KnownKeys([]);
      AppendEmpty(if Preset(k).Some? then [k] else []);
    } else {
      assert (keys + [k])[1..] == keys[1..] + [k];
      KnownKeysAppend(keys[1..], k);
      AppendAssoc(if Preset(keys[0]).Some? then [keys[0]] else [], KnownKeys(keys[1..]), if Preset(k).Some? then [k] else []);
    }
  }

  /** The preset part of the capture list is the preset of each known key, in the order the
      keys were listed; unknown keys contribute nothing. */
  lemma {:induction false} PresetViewportsFollowKeys(keys: seq<string>)
    ensures |PresetViewports(keys)| == |KnownKeys(keys)|
    ensures forall i :: 0 <= i < |KnownKeys(keys)| ==>
      Preset(KnownKeys(keys)[i]) == Some(PresetViewports(keys)[i])
    decreases |keys|
  {
    if keys != [] {
      var init, k := keys[..|keys| - 1], keys[|keys| - 1];
      assert keys == init + [k];
      PresetViewportsFollowKeys(init);
      KnownKeysAppend(init, k);
    }
  }

  /** `KnownKeys` is empty exactly when no key names a preset. */
  lemma {:induction false} KnownKeysEmpty(keys: seq<string>)
    ensures KnownKeys(keys) == [] <==> forall i :: 0 <= i < |keys| ==> Preset(keys[i]).None?
    decreases |keys|
  {
    if keys != [] {
      KnownKeysEmpty(keys[1..]);
      assert forall i :: 1 <= i < |keys| ==> keys[i] == keys[1..][i - 1];
    }
  }

  /** The capture list is empty (the "No viewports to capture" error) exactly when no key
      names a preset and no custom viewport was given. */
  lemma PlannedViewportsEmptyIff(keys: seq<string>, customs: seq<CustomViewport>)
    ensures PlannedViewports(keys, customs) == [] <==>
      customs == [] && forall i :: 0 <= i < |keys| ==> Preset(keys[i]).None?
  {
    PresetViewportsFollowKeys(keys);
    KnownKeysEmpty(keys);
  }

  /** A custom viewport is named by its name when one is given and by `WxH` otherwise,
      and is always titled `WxH`. */
  lemma CustomViewportDefaults(c: CustomViewport)
    ensures CustomViewportSpec(c).Dimensions() == Size(c.width, c.height)
    ensures CustomViewportSpec(c).title == SizeLabel(c.width, c.height)
    ensures c.name == None || c.name == Some("") ==> CustomViewportSpec(c).name == SizeLabel(c.width, c.height)
    ensures c.name.Some? && c.name.value != "" ==> CustomViewportSpec(c).name == c.name.value
  {
  }

  /** The capture list holds one entry per known key and one per custom viewport. */
  lemma PlannedViewportsLength(keys: seq<string>, customs: seq<CustomViewport>)
    ensures |PlannedViewports(keys, customs)| == |KnownKeys(keys)| + |customs|
  {
    PresetViewportsFollowKeys(keys);
  }

  /** The j-th custom viewport comes right after the presets, in the order given. */
  lemma CustomViewportAt(keys: seq<string>, customs: seq<CustomViewport>, j: nat)
    requires j < |customs|
    ensures |KnownKeys(keys)| + j < |PlannedViewports(keys, customs)|
    ensures PlannedViewports(keys, customs)[|KnownKeys(keys)| + j] == CustomViewportSpec(customs[j])
  {
    PresetViewportsFollowKeys(keys);
    CustomViewportsAt(customs, j);
  }

  /** The label used for a viewport's file name: its name, or `WxH` when the name is empty. */
  function LabelOf(vp: ViewportSpec): string {
    if vp.name != "" then vp.name else SizeLabel(vp.width, vp.height)
  }

  lemma {:induction false} PresetViewportsNamed(keys: seq<string>)
    ensures forall v :: v in PresetViewports(keys) ==> v.name != "" && v.title != ""
    decreases |keys|
  {
    if keys != [] { PresetViewportsNamed(keys[..|keys| - 1]); }
  }

  /** Every planned viewport already has a non-empty name and title, so the `WxH` fallback
      when labelling a capture is never taken. */
  lemma PlannedViewportsNamed(keys: seq<string>, customs: seq<CustomViewport>)
    ensures forall v :: v in PlannedViewports(keys, customs) ==>
      v.name != "" && v.title != "" && LabelOf(v) == v.name
  {
    PresetViewportsNamed(keys);
    forall k | 0 <= k < |customs|
      ensures CustomViewports(customs)[k].name != "" && CustomViewports(customs)[k].title != ""
    {
      CustomViewportsAt(customs, k);
      assert |NatToString(if customs[k].width < 0 then -customs[k].width else customs[k].width)| >= 1;
    }
  }

  // ---------------------------------------------------------------------------
  // Capture options and prefix
  // ---------------------------------------------------------------------------

  /** The options object built from `type` and `fullPage`. */
  function ResolveCaptureOptions(requested: Option<ImageType>, fullPage: Option<bool>): (o: CaptureOptions)
    ensures o.imageType == requested.GetOr(Png)
    ensures o.quality.None? <==> o.imageType == Png
    ensures o.imageType == Jpeg ==> o.quality == Some(90)
    ensures o.fullPage == fullPage
    ensures o.scale == "css"
  {
    var t := requested.GetOr(Png);
    CaptureOptions(t, if t == Png then None else Some(90), "css", fullPage)
  }

  const DefaultPrefix: string := "sweep"

  /** `params.prefix ? sanitizeFileSegment(params.prefix) : 'sweep'` */
  function ResolvePrefix(prefix: Option<string>): (r: string)
    ensures IsCleanSegment(r)
    ensures prefix == None || prefix == Some("") ==> r == DefaultPrefix
    ensures prefix.Some? && prefix.value != "" ==> r == SanitizeFileSegment(prefix.value)
  {
    if prefix.Some? && prefix.value != "" then
      SanitizeYieldsCleanSegment(prefix.value);
      SanitizeFileSegment(prefix.value)
    else
      assert forall i :: 0 <= i < |DefaultPrefix| ==> 'a' <= DefaultPrefix[i] <= 'z';
      DefaultPrefix
  }

  /** A supplied prefix without any letter or digit yields the sanitizer's fallback, not the
      default prefix. */
  lemma SymbolPrefixFallsBack(prefix: string)
    requires prefix != ""
    requires AlnumOf(ToLower(prefix)) == []
    ensures ResolvePrefix(Some(prefix)) == Fallback
  {
    SanitizeKeepsAlnum(prefix);
  }

  // ---------------------------------------------------------------------------
  // Artifact names
  // ---------------------------------------------------------------------------

  /** `String(n).padStart(2, '0')` */
  function Ordinal(n: nat): string {
    PadStart(NatToString(n), 2, '0')
  }

  /** The ordinal field has at least two digits, exactly two below 100 and no padding from
      100 on, and reads back as the ordinal. */
  lemma OrdinalRoundTrip(n: nat)
    ensures |Ordinal(n)| >= 2 && AllDigits(Ordinal(n))
    ensures n < 100 ==> |Ordinal(n)| == 2
    ensures n >= 100 ==> Ordinal(n) == NatToString(n)
    ensures ParseDecimal(Ordinal(n)) == n
  {
    var s := NatToString(n);
    NatToStringRoundTrip(n);
    NatToStringWidth(n);
    if |s| < 2 {
      LeadingZerosIgnored(2 - |s|, s);
    }
  }

  /** `{prefix}-{stamp}-{ordinal}-{safeLabel}.{type}`, where the caller has already passed
      the label through `sanitizeFileSegment`. */
  function ArtifactName(prefix: string, stamp: string, ordinal: nat, safeLabel: string, ext: string): string {
    prefix + "-" + stamp + "-" + Ordinal(ordinal) + "-" + safeLabel + "." + ext
  }

  /** The sanitized label of each viewport, in capture order. */
  function SafeLabels(vps: seq<ViewportSpec>): (r: seq<string>)
    ensures |r| == |vps|
  {
    if vps == [] then []
    else SafeLabels(vps[..|vps| - 1]) + [SanitizeFileSegment(LabelOf(vps[|vps| - 1]))]
  }

  lemma {:induction false} SafeLabelsAt(vps: seq<ViewportSpec>, k: nat)
    requires k < |vps|
    ensures SafeLabels(vps)[k] == SanitizeFileSegment(LabelOf(vps[k]))
    decreases |vps|
  {
    if k < |vps| - 1 {
      SafeLabelsAt(vps[..|vps| - 1], k);
    }
  }

  /** The names of one sweep, given the sanitized labels: the k-th capture (from 0) gets
      ordinal k + 1. */
  function SweepFileNames(safeLabels: seq<string>, prefix: string, stamp: string, t: ImageType): (r: seq<string>)
    ensures |r| == |safeLabels|
  {
    if safeLabels == [] then []
    else
      SweepFileNames(safeLabels[..|safeLabels| - 1], prefix, stamp, t) +
      [ArtifactName(prefix, stamp, |safeLabels|, safeLabels[|safeLabels| - 1], Extension(t))]
  }

  /** The k-th name (from 0) carries ordinal k + 1 and the k-th label. */
  lemma {:induction false} SweepFileNamesAt(safeLabels: seq<string>, prefix: string, stamp: string, t: ImageType, k: nat)
    requires k < |safeLabels|
    ensures SweepFileNames(safeLabels, prefix, stamp, t)[k] == ArtifactName(prefix, stamp, k + 1, safeLabels[k], Extension(t))
    decreases |safeLabels|
  {
    if k < |safeLabels| - 1 {
      SweepFileNamesAt(safeLabels[..|safeLabels| - 1], prefix, stamp, t, k);
    }
  }

  /** Names that share everything before the ordinal and continue with a hyphen after it
      differ when the ordinals differ. */
  lemma {:induction false} OrdinalSeparates(head: string, i: nat, j: nat, x: string, y: string)
    requires i != j
    requires x != [] && x[0] == '-' && y != [] && y[0] == '-'
    ensures head + (Ordinal(i) + x) != head + (Ordinal(j) + y)
  {
    OrdinalRoundTrip(i);
    OrdinalRoundTrip(j);
    if head + (Ordinal(i) + x) == head + (Ordinal(j) + y) {
      assert Ordinal(i) + x == (head + (Ordinal(i) + x))[|head|..];
      assert Ordinal(j) + y == (head + (Ordinal(j) + y))[|head|..];
      DigitFieldsAgree(Ordinal(i), x, Ordinal(j), y);
    }
  }

  /** Two artifacts of one sweep with different ordinals never share a name, whatever
      their labels. */
  lemma ArtifactNamesDistinct(prefix: string, stamp: string, i: nat, j: nat, l1: string, l2: string, ext: string)
    requires i != j
    ensures ArtifactName(prefix, stamp, i, l1, ext) != ArtifactName(prefix, stamp, j, l2, ext)
  {
    var head := prefix + "-" + stamp + "-";
    var x := "-" + l1 + "." + ext;
    var y := "-" + l2 + "." + ext;
    assert ArtifactName(prefix, stamp, i, l1, ext) == head + (Ordinal(i) + x);
    assert ArtifactName(prefix, stamp, j, l2, ext) == head + (Ordinal(j) + y);
    OrdinalSeparates(head, i, j, x, y);
  }

  /** Every name starts with `{prefix}-{stamp}-` and ends with `.{type}`. */
  lemma ArtifactNameFrame(prefix: string, stamp: string, ordinal: nat, safeLabel: string, ext: string)
    ensures var name := ArtifactName(prefix, stamp, ordinal, safeLabel, ext);
      var head, tail := prefix + "-" + stamp + "-", "." + ext;
      |name| >= |head| + |tail| && name[..|head|] == head && name[|name| - |tail|..] == tail
  {
    var head, tail := prefix + "-" + stamp + "-", "." + ext;
    var mid := Ordinal(ordinal) + "-" + safeLabel;
    assert ArtifactName(prefix, stamp, ordinal, safeLabel, ext) == head + mid + tail;
  }

  /** All names of one sweep start with the shared `{prefix}-{stamp}-` and end with the
      type's extension. */
  lemma SweepFileNamesFramed(safeLabels: seq<string>, prefix: string, stamp: string, t: ImageType, k: nat)
    requires k < |safeLabels|
    ensures var name := SweepFileNames(safeLabels, prefix, stamp, t)[k];
      var head, tail := prefix + "-" + stamp + "-", "." + Extension(t);
      |name| >= |head| + |tail| && name[..|head|] == head && name[|name| - |tail|..] == tail
  {
    SweepFileNamesAt(safeLabels, prefix, stamp, t, k);
    ArtifactNameFrame(prefix, stamp, k + 1, safeLabels[k], Extension(t));
  }

  /** The k-th name (from 0) has the ordinal field of k + 1 right after the shared head. */
  lemma SweepFileNamesOrdinal(safeLabels: seq<string>, prefix: string, stamp: string, t: ImageType, k: nat)
    requires k < |safeLabels|
    ensures var name, head := SweepFileNames(safeLabels, prefix, stamp, t)[k], prefix + "-" + stamp + "-";
      var field := Ordinal(k + 1);
      |name| >= |head| + |field| && name[..|head|] == head && name[|head|..|head| + |field|] == field
  {
    SweepFileNamesAt(safeLabels, prefix, stamp, t, k);
    var head, field := prefix + "-" + stamp + "-", Ordinal(k + 1);
    var rest := "-" + safeLabels[k] + "." + Extension(t);
    assert ArtifactName(prefix, stamp, k + 1, safeLabels[k], Extension(t)) == head + field + rest;
  }

  /** The names of one sweep are pairwise distinct, even when labels repeat. */
  lemma SweepFileNamesDistinct(safeLabels: seq<string>, prefix: string, stamp: string, t: ImageType)
    ensures forall k1, k2 :: 0 <= k1 < k2 < |safeLabels| ==>
      SweepFileNames(safeLabels, prefix, stamp, t)[k1] != SweepFileNames(safeLabels, prefix, stamp, t)[k2]
  {
    var names := SweepFileNames(safeLabels, prefix, stamp, t);
    forall k1, k2 | 0 <= k1 < k2 < |safeLabels| ensures names[k1] != names[k2] {
      SweepFileNamesAt(safeLabels, prefix, stamp, t, k1);
      SweepFileNamesAt(safeLabels, prefix, stamp, t, k2);
      ArtifactNamesDistinct(prefix, stamp, k1 + 1, k2 + 1, safeLabels[k1], safeLabels[k2], Extension(t));
    }
  }
}
