/**
 * `registerExtraTools`: adds the screenshot-sweep and storage-state-save tools to the
 * shared, mutable `browserTools` list, each only when no entry with its schema name is
 * listed yet, and at most once per process thanks to a process-wide guard flag.
 */
module ExtraTools {
  import opened Wrappers

  /** An entry of `browserTools`, seen through `t?.schema?.name`: a missing entry, a missing
      schema and a missing name all read as `None`. */
  datatype Tool = Tool(schemaName: Option<string>)

  const SweepToolName: string := "browser_screenshot_sweep"
  const StorageStateSaveToolName: string := "browser_storage_state_save"

  const SweepTool: Tool := Tool(Some(SweepToolName))
  const StorageStateSaveTool: Tool := Tool(Some(StorageStateSaveToolName))

  /** `tools.some(t => t?.schema?.name === name)` */
  predicate Listed(tools: seq<Tool>, name: Option<string>) {
    exists i :: 0 <= i < |tools| && tools[i].schemaName == name
  }

  /** Appends `tool` unless an entry with its name is already listed. */
  function AppendIfAbsent(tools: seq<Tool>, tool: Tool): seq<Tool> {
    if Listed(tools, tool.schemaName) then tools else tools + [tool]
  }

  /** The guard flag and the tool list, as one value. */
  datatype Registry = Registry(registered: bool, tools: seq<Tool>)

  /** What one call of `registerExtraTools` makes of the registry. */
  function AfterRegister(s: Registry): Registry {
    if s.registered then s
    else Registry(true, AppendIfAbsent(AppendIfAbsent(s.tools, SweepTool), StorageStateSaveTool))
  }

  /** The registry after `n` calls. */
  function RegisterN(s: Registry, n: nat): Registry {
    if n == 0 then s else AfterRegister(RegisterN(s, n - 1))
  }

  // ---------------------------------------------------------------------------
  // Counting entries by name
  // ---------------------------------------------------------------------------

  /** How many entries carry the name. */
  function CountNamed(tools: seq<Tool>, name: Option<string>): nat {
    if tools == [] then 0
    else CountNamed(tools[..|tools| - 1], name) + (if tools[|tools| - 1].schemaName == name then 1 else 0)
  }

  /** An entry with the name is listed exactly when the count is positive. */
  lemma {:induction false} ListedIffCounted(tools: seq<Tool>, name: Option<string>)
    ensures Listed(tools, name) <==> CountNamed(tools, name) > 0
    decreases |tools|
  {
    if tools != [] {
      var init := tools[..|tools| - 1];
      ListedIffCounted(init, name);
      if Listed(init, name) {
        var i :| 0 <= i < |init| && init[i].schemaName == name;
        assert tools[i] == init[i];
      }
      if Listed(tools, name) && tools[|tools| - 1].schemaName != name {
        var i :| 0 <= i < |tools| && tools[i].schemaName == name;
        assert init[i] == tools[i];
      }
    }
  }

  /** After appending-if-absent, the appended name is counted `max(old count, 1)` times and
      every other name's count is unchanged; the old list is kept as a prefix. */
  lemma AppendIfAbsentCounts(tools: seq<Tool>, tool: Tool, name: Option<string>)
    ensures var r := AppendIfAbsent(tools, tool);
      && |r| >= |tools| && r[..|tools|] == tools
      && CountNamed(r, name) == (if name == tool.schemaName && CountNamed(tools, name) == 0 then 1 else CountNamed(tools, name))
  {
    ListedIffCounted(tools, tool.schemaName);
    var r := AppendIfAbsent(tools, tool);
    if !Listed(tools, tool.schemaName) {
      assert r[..|r| - 1] == tools;
    }
  }

  /** One call from an unset flag brings each of the two names to `max(old count, 1)` and
      leaves every other name's count alone; a call with the flag set changes nothing. */
  lemma RegisterCounts(s: Registry, name: Option<string>)
    ensures AfterRegister(s).registered
    ensures s.registered ==> AfterRegister(s) == s
    ensures !s.registered ==>
      (CountNamed(AfterRegister(s).tools, name) ==
       if (name == Some(SweepToolName) || name == Some(StorageStateSaveToolName)) && CountNamed(s.tools, name) == 0
       then 1 else CountNamed(s.tools, name))
  {
    if !s.registered {
      var mid := AppendIfAbsent(s.tools, SweepTool);
      AppendIfAbsentCounts(s.tools, SweepTool, name);
      AppendIfAbsentCounts(mid, StorageStateSaveTool, name);
      if name == Some(StorageStateSaveToolName) {
        assert name != SweepTool.schemaName by {
          assert SweepToolName[9] != StorageStateSaveToolName[9];
        }
      }
    }
  }

  /** Entries are never removed or reordered; a call adds the sweep tool when its name was not
      listed and then the storage-state tool when its name was not listed, in that order. */
  lemma RegisterAppendsInOrder(s: Registry)
    requires !s.registered
    ensures var r := AfterRegister(s).tools;
      && |r| >= |s.tools| && r[..|s.tools|] == s.tools
      && r[|s.tools|..] ==
         (if CountNamed(s.tools, SweepTool.schemaName) == 0 then [SweepTool] else []) +
         (if CountNamed(s.tools, StorageStateSaveTool.schemaName) == 0 then [StorageStateSaveTool] else [])
  {
    var mid := AppendIfAbsent(s.tools, SweepTool);
    ListedIffCounted(s.tools, SweepTool.schemaName);
    ListedIffCounted(s.tools, StorageStateSaveTool.schemaName);
    ListedIffCounted(mid, StorageStateSaveTool.schemaName);
    AppendIfAbsentCounts(s.tools, SweepTool, StorageStateSaveTool.schemaName);
    assert SweepTool.schemaName != StorageStateSaveTool.schemaName by {
      assert SweepToolName[9] != StorageStateSaveToolName[9];
    }
  }

  /** Any positive number of calls has the effect of the first one. */
  lemma {:induction false} RegisterRepeated(s: Registry, n: nat)
    requires n >= 1
    ensures RegisterN(s, n) == AfterRegister(s)
  {
    if n > 1 {
      RegisterRepeated(s, n - 1);
    }
  }

  /** From an unset flag, after any positive number of calls each of the two names is
      listed `max(initial count, 1)` times. */
  lemma RegisterCountsAfterCalls(s: Registry, n: nat)
    requires !s.registered && n >= 1
    ensures CountNamed(RegisterN(s, n).tools, Some(SweepToolName)) == if CountNamed(s.tools, Some(SweepToolName)) == 0 then 1 else CountNamed(s.tools, Some(SweepToolName))
    ensures CountNamed(RegisterN(s, n).tools, Some(StorageStateSaveToolName)) ==
      if CountNamed(s.tools, Some(StorageStateSaveToolName)) == 0 then 1 else CountNamed(s.tools, Some(StorageStateSaveToolName))
  {
    RegisterRepeated(s, n);
    RegisterCounts(s, Some(SweepToolName));
    RegisterCounts(s, Some(StorageStateSaveToolName));
  }

  // ---------------------------------------------------------------------------
  // The process-wide state
  // ---------------------------------------------------------------------------

  /** The guard flag on `globalThis` and the shared `browserTools` array. */
  class ProcessRegistry {
    var extraToolsRegistered: bool
    var browserTools: seq<Tool>

    constructor (browserTools: seq<Tool>)
      ensures !extraToolsRegistered && this.browserTools == browserTools
    {
      extraToolsRegistered := false;
      this.browserTools := browserTools;
    }

    function State(): Registry
      reads this
    {
      Registry(extraToolsRegistered, browserTools)
    }

    /** `browserTools.some(t => t?.schema?.name === name)`, stopping at the first match. */
    method HasToolNamed(name: Option<string>) returns (found: bool)
      ensures found <==> Listed(browserTools, name)
    {
      found := false;
      var i := 0;
      while i < |browserTools| && !found
        invariant 0 <= i <= |browserTools|
        invariant found <==> exists j :: 0 <= j < i && browserTools[j].schemaName == name
      {
        found := browserTools[i].schemaName == name;
        i := i + 1;
      }
    }

    /** `registerExtraTools()` */
    method RegisterExtraTools()
      modifies this
      ensures State() == AfterRegister(old(State()))
    {
      if extraToolsRegistered {
        return;
      }
      extraToolsRegistered := true;
      var hasSweep := HasToolNamed(SweepTool.schemaName);
      if !hasSweep {
        browserTools := browserTools + [SweepTool];
      }
      var hasStorage := HasToolNamed(StorageStateSaveTool.schemaName);
      if !hasStorage {
        browserTools := browserTools + [StorageStateSaveTool];
      }
    }
  }
}
