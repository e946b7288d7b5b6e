/**
 The delivery contract registry: which contract a WorkItem's lifecycle role selects, and the
 structural validation of a whole plan, with its table of already claimed staged outputs.
 */
module DeliveryRegistry {
  import opened Graphs
  import opened WorkItems

  /** The two shapes of slot pattern the registry uses: a plain name, or a name and a star. */
  datatype SlotPattern = Exactly(name: string) | StartsWith(prefix: string)

  datatype Contract = Contract(
    kind: string,
    requiredTools: seq<string>,
    outputKind: string,
    slotPattern: Option<SlotPattern>,
    validator: string)

  function Architecture(kind: string, tool: string, pattern: Option<SlotPattern>, validator: string): Contract {
    Contract(kind, ["load_architecture_input", tool],
             if validator == "MarkdownArchitecturePackage" then "architecture_markdown" else "architecture_design",
             pattern, validator)
  }

  predicate HasSuffix(s: string, suffix: string) {
    |s| >= |suffix| && s[|s| - |suffix|..] == suffix
  }

  function PartitionContract(slot: string): Option<Contract> {
    if slot in {"design", "baseline", "api", "data", "frontend"} then
      Some(Architecture("architecture.markdown_package", "write_staged_architecture", Some(Exactly(slot)),
                        "MarkdownArchitecturePackage"))
    else if slot == "blueprint" then
      Some(Architecture("architecture.blueprint", "write_architecture_blueprint", Some(Exactly("blueprint")),
                        "ArchitectureBlueprint"))
    else if slot == "module" || "module-" <= slot then
      Some(Architecture("architecture.module_design", "write_module_design", Some(StartsWith("module-")),
                        "ModuleDesign"))
    else if slot == "implementation" || "implementation-" <= slot then
      Some(Architecture("architecture.implementation_design", "write_implementation_design",
                        Some(StartsWith("implementation-")), "ImplementationDesign"))
    else
      None
  }

  function ContractFor(item: WorkItem): Option<Contract> {
    if item.agentId != "architecture_agent" then
      None
    else if item.mode == Partitioned then
      PartitionContract(item.slot.GetOr(""))
    else if item.mode == Integration && item.stageId == Some("architecture_markdown_integration") then
      Some(Architecture("architecture.markdown_integration", "create_architecture_candidate", None,
                        "MarkdownArchitecturePackage"))
    else if item.mode == Integration
            && (item.stageId == Some("architecture_integration")
                || (item.stageId == None
                    && (HasSuffix(item.id, "architecture-layered-integration")
                        || item.publishTarget == Some("architecture")))) then
      Some(Architecture("architecture.integration", "integrate_architecture_designs", None, "ArchitectureDesignBundle"))
    else
      None
  }

  predicate Matches(slot: string, pattern: SlotPattern) {
    match pattern
    case Exactly(name) => slot == name
    case StartsWith(prefix) => prefix <= slot
  }

  datatype RegistryError =
    | WrongTools(item: Id)
    | WrongSlot(item: Id)
    | OutputTaken(key: OutputKey, owner: Id, claimant: Id)

  function ItemErrors(item: WorkItem): seq<RegistryError> {
    match ContractFor(item)
    case None => []
    case Some(contract) =>
      (if item.requiredTools != contract.requiredTools then [WrongTools(item.id)] else [])
      + (if contract.slotPattern.Some? && !Matches(item.slot.GetOr(""), contract.slotPattern.value)
          then [WrongSlot(item.id)] else [])
  }

  /**
   The contract table against its own slot patterns: a partitioned architecture item that has a
   contract passes the slot check except for the two bare names `module` and `implementation`,
   which the table accepts as roles and its `-*` patterns then reject.
   */
  lemma BareSlotsNeverPass(item: WorkItem)
    requires item.mode == Partitioned && ContractFor(item).Some?
    ensures WrongSlot(item.id) in ItemErrors(item) <==> item.slot.GetOr("") in {"module", "implementation"}
  {
    var slot := item.slot.GetOr("");
    var contract := ContractFor(item).value;
    SlotsOfPartitions(slot);
    var tools: seq<RegistryError> := if item.requiredTools != contract.requiredTools then [WrongTools(item.id)] else [];
    var slots: seq<RegistryError> := if !Matches(slot, contract.slotPattern.value) then [WrongSlot(item.id)] else [];
    assert ItemErrors(item) == tools + slots;
    assert WrongSlot(item.id) in tools + slots <==> WrongSlot(item.id) in slots;
  }

  lemma SlotsOfPartitions(slot: string)
    requires PartitionContract(slot).Some?
    ensures PartitionContract(slot).value.slotPattern.Some?
    ensures Matches(slot, PartitionContract(slot).value.slotPattern.value) <==> slot !in {"module", "implementation"}
  {
    assert "module-" <= slot ==> slot[6] == '-';
    assert "implementation-" <= slot ==> slot[14] == '-';
  }

  // ---- Unique staged outputs ----

  datatype OutputKey = OutputKey(artifactKey: string, identity: string, stage: string)

  /** The files an item owns, or its slot when it lists none. */
  function Identities(item: WorkItem): seq<string> {
    if item.ownedFiles != [] then item.ownedFiles else [item.slot.GetOr("")]
  }

  predicate Claims(item: WorkItem) {
    item.mode == Partitioned && item.artifactKey != "" && item.slot.GetOr("") != ""
  }

  predicate ClaimsKey(item: WorkItem, key: OutputKey) {
    && Claims(item)
    && key.artifactKey == item.artifactKey && key.stage == item.stageId.GetOr("")
    && key.identity in Identities(item)
  }

  /** No staged output belongs to two differently named items. */
  ghost predicate UniqueOutputs(items: seq<WorkItem>) {
    forall i, j, key :: 0 <= i < |items| && 0 <= j < |items| && ClaimsKey(items[i], key) && ClaimsKey(items[j], key)
      ==> items[i].id == items[j].id
  }

  ghost predicate ContractsRespected(items: seq<WorkItem>) {
    && (forall i :: 0 <= i < |items| ==> ItemErrors(items[i]) == [])
    && UniqueOutputs(items)
  }

  /** What the claim table knows after the items of `done`. */
  ghost predicate TableFor(seen: map<OutputKey, Id>, done: seq<WorkItem>) {
    && (forall key :: key in seen ==> exists i :: 0 <= i < |done| && ClaimsKey(done[i], key) && done[i].id == seen[key])
    && (forall key, i :: 0 <= i < |done| && ClaimsKey(done[i], key) ==> key in seen)
  }

  method ClaimOutputs(item: WorkItem, seen: map<OutputKey, Id>)
    returns (errors: seq<RegistryError>, seen': map<OutputKey, Id>)
    ensures errors == [] <==> forall key :: ClaimsKey(item, key) && key in seen ==> seen[key] == item.id
    ensures forall e :: e in errors
              ==> e.OutputTaken? && ClaimsKey(item, e.key) && e.key in seen && seen[e.key] == e.owner != item.id
    ensures forall key :: key in seen' <==> key in seen || ClaimsKey(item, key)
    ensures forall key :: key in seen' ==> seen'[key] == if key in seen then seen[key] else item.id
  {
    errors, seen' := [], seen;
    if !Claims(item) {
      return;
    }
    var identities := Identities(item);
    for i := 0 to |identities|
      invariant errors == [] <==> forall k :: 0 <= k < i ==>
        var key := OutputKey(item.artifactKey, identities[k], item.stageId.GetOr(""));
        key in seen ==> seen[key] == item.id
      invariant forall e :: e in errors
                  ==> e.OutputTaken? && ClaimsKey(item, e.key) && e.key in seen && seen[e.key] == e.owner != item.id
      invariant forall key :: key in seen' <==>
        key in seen || (key.artifactKey == item.artifactKey && key.stage == item.stageId.GetOr("")
            && key.identity in identities[..i])
      invariant forall key :: key in seen' ==> seen'[key] == if key in seen then seen[key] else item.id
    {
      var key := OutputKey(item.artifactKey, identities[i], item.stageId.GetOr(""));
      assert identities[..i + 1] == identities[..i] + [identities[i]];
      if key in seen' && seen'[key] != item.id {
        errors := errors + [OutputTaken(key, seen'[key], item.id)];
      } else {
        seen' := seen'[key := item.id];
      }
    }
  }

  lemma NoErrors(a: seq<RegistryError>, b: seq<RegistryError>)
    ensures a + b == [] <==> a == [] && b == []
  {
    assert |a + b| == |a| + |b|;
  }

  /** The errors of one more item, and the table with its claims. */
  method ValidateItem(ghost before: seq<WorkItem>, item: WorkItem, seen: map<OutputKey, Id>)
    returns (errors: seq<RegistryError>, seen': map<OutputKey, Id>)
    requires TableFor(seen, before)
    ensures ContractsRespected(before + [item]) <==> ContractsRespected(before) && errors == []
    ensures TableFor(seen', before + [item])
  {
    var taken;
    taken, seen' := ClaimOutputs(item, seen);
    ExtendContracts(before, item, seen, taken == []);
    ExtendTable(before, item, seen, seen');
    NoErrors(ItemErrors(item), taken);
    errors := ItemErrors(item) + taken;
  }

  /** The registry accepts a plan exactly when every item meets its contract and no staged output is claimed twice. */
  method ValidatePlan(items: seq<WorkItem>) returns (errors: seq<RegistryError>)
    ensures errors == [] <==> ContractsRespected(items)
  {
    errors := [];
    var seen: map<OutputKey, Id> := map[];
    ghost var done: seq<WorkItem> := [];
    NothingClaimed();
    for i := 0 to |items|
      invariant done == items[..i]
      invariant errors == [] <==> ContractsRespected(done)
      invariant TableFor(seen, done)
    {
      var found;
      found, seen := ValidateItem(done, items[i], seen);
      NoErrors(errors, found);
      errors := errors + found;
      done := done + [items[i]];
    }
    assert done == items;
  }

  lemma NothingClaimed()
    ensures ContractsRespected([]) && TableFor(map[], [])
  {
  }

  lemma ExtendTable(before: seq<WorkItem>, item: WorkItem, seen: map<OutputKey, Id>, seen': map<OutputKey, Id>)
    requires TableFor(seen, before)
    requires forall key :: key in seen' <==> key in seen || ClaimsKey(item, key)
    requires forall key :: key in seen' ==> seen'[key] == if key in seen then seen[key] else item.id
    ensures TableFor(seen', before + [item])
  {
    var after := before + [item];
    forall key | key in seen'
      ensures exists i :: 0 <= i < |after| && ClaimsKey(after[i], key) && after[i].id == seen'[key]
    {
      if key in seen {
        var i :| 0 <= i < |before| && ClaimsKey(before[i], key) && before[i].id == seen[key];
        assert after[i] == before[i];
      } else {
        assert after[|before|] == item;
      }
    }
  }

  lemma ExtendContracts(before: seq<WorkItem>, item: WorkItem, seen: map<OutputKey, Id>, free: bool)
    requires TableFor(seen, before)
    requires free <==> forall key :: ClaimsKey(item, key) && key in seen ==> seen[key] == item.id
    ensures ContractsRespected(before + [item]) <==> ContractsRespected(before) && ItemErrors(item) == [] && free
  {
    var after := before + [item];
    assert forall i :: 0 <= i < |before| ==> after[i] == before[i];
    assert after[|before|] == item;
    if UniqueOutputs(after) {
      UniqueMeansFree(before, item, seen);
    }
    if UniqueOutputs(before) && free {
      FreeMeansUnique(before, item, seen);
    }
  }

  lemma UniqueMeansFree(before: seq<WorkItem>, item: WorkItem, seen: map<OutputKey, Id>)
    requires TableFor(seen, before) && UniqueOutputs(before + [item])
    ensures UniqueOutputs(before) && forall key :: ClaimsKey(item, key) && key in seen ==> seen[key] == item.id
  {
    var after := before + [item];
    assert after[|before|] == item && forall i :: 0 <= i < |before| ==> after[i] == before[i];
    forall key | ClaimsKey(item, key) && key in seen ensures seen[key] == item.id {
      var i :| 0 <= i < |before| && ClaimsKey(before[i], key) && before[i].id == seen[key];
      assert after[i] == before[i];
    }
  }

  lemma FreeMeansUnique(before: seq<WorkItem>, item: WorkItem, seen: map<OutputKey, Id>)
    requires TableFor(seen, before) && UniqueOutputs(before)
    requires forall key :: ClaimsKey(item, key) && key in seen ==> seen[key] == item.id
    ensures UniqueOutputs(before + [item])
  {
    forall i, key | 0 <= i < |before| && ClaimsKey(before[i], key) && ClaimsKey(item, key)
      ensures before[i].id == item.id
    {
      var j :| 0 <= j < |before| && ClaimsKey(before[j], key) && before[j].id == seen[key];
    }
  }

  // ---- What contracts and claims mean ----

  /** A partition has a contract exactly for the slots of the two layers, and only packages deliver markdown. */
  lemma PartitionContractIff(item: WorkItem)
    requires item.mode == Partitioned
    ensures ContractFor(item).Some? <==>
      && item.agentId == "architecture_agent" && item.slot.Some?
      && (item.slot.value in {"design", "baseline", "api", "data", "frontend", "blueprint", "module", "implementation"}
          || "module-" <= item.slot.value || "implementation-" <= item.slot.value)
    ensures ContractFor(item).Some? ==>
      (ContractFor(item).value.outputKind == "architecture_markdown"
       <==> item.slot.value in {"design", "baseline", "api", "data", "frontend"})
  {
    var slot := item.slot.GetOr("");
    assert slot == "" ==> !("module-" <= slot) && !("implementation-" <= slot);
    assert slot in {"design", "baseline", "api", "data", "frontend"} ==> slot != "blueprint" && slot != "module";
  }

  /** An integration has a contract for its two stages; without a stage, by its name or its target. */
  lemma IntegrationContractIff(item: WorkItem)
    requires item.mode == Integration
    ensures ContractFor(item).Some? <==>
      && item.agentId == "architecture_agent"
      && (item.stageId == Some("architecture_markdown_integration") || item.stageId == Some("architecture_integration")
          || (item.stageId == None
              && (item.publishTarget == Some("architecture")
                  || exists a :: item.id == a + "architecture-layered-integration")))
    ensures ContractFor(item).Some? ==>
      (ContractFor(item).value.outputKind == "architecture_markdown"
       <==> item.stageId == Some("architecture_markdown_integration"))
  {
    SuffixIff(item.id, "architecture-layered-integration");
  }

  lemma SuffixIff(s: string, suffix: string)
    ensures HasSuffix(s, suffix) <==> exists a :: s == a + suffix
  {
    if HasSuffix(s, suffix) {
      assert s == s[..|s| - |suffix|] + suffix;
    }
    if a :| s == a + suffix {
      assert s[|s| - |suffix|..] == suffix;
    }
  }

  lemma OtherModesHaveNoContract(item: WorkItem)
    requires item.mode == Exclusive || item.mode == QualityGate
    ensures ContractFor(item) == None && ItemErrors(item) == []
  {
  }

  /** The partition delivers this: a file it lists, or its slot if it lists none. */
  predicate Delivers(item: WorkItem, output: string) {
    output in item.ownedFiles || (item.ownedFiles == [] && item.slot == Some(output))
  }

  /** Two partitions of the same artifact and stage deliver one output. */
  ghost predicate ClaimOneOutput(a: WorkItem, b: WorkItem) {
    && a.mode == Partitioned && b.mode == Partitioned
    && a.artifactKey != "" && a.artifactKey == b.artifactKey
    && a.slot.GetOr("") != "" && b.slot.GetOr("") != ""
    && a.stageId.GetOr("") == b.stageId.GetOr("")
    && exists output :: Delivers(a, output) && Delivers(b, output)
  }

  /** A plan respects the registry exactly when no item has an error and no two different ones claim one output. */
  lemma ContractsRespectedIff(items: seq<WorkItem>)
    ensures ContractsRespected(items) <==>
      && (forall item :: item in items ==> ItemErrors(item) == [])
      && (forall a, b :: a in items && b in items && a.id != b.id ==> !ClaimOneOutput(a, b))
  {
    forall a, b | a in items && b in items && ClaimOneOutput(a, b) && UniqueOutputs(items) ensures a.id == b.id {
      var output :| Delivers(a, output) && Delivers(b, output);
      var key := OutputKey(a.artifactKey, output, a.stageId.GetOr(""));
      assert ClaimsKey(a, key) && ClaimsKey(b, key);
      var i, j :| 0 <= i < |items| && 0 <= j < |items| && items[i] == a && items[j] == b;
    }
    forall i, j, key | 0 <= i < |items| && 0 <= j < |items| && ClaimsKey(items[i], key) && ClaimsKey(items[j], key)
      ensures ClaimOneOutput(items[i], items[j])
    {
      assert Delivers(items[i], key.identity) && Delivers(items[j], key.identity);
    }
  }

  /** The tool by which a partition of this slot delivers. */
  function PartitionTool(slot: string): string {
    if slot == "blueprint" then "write_architecture_blueprint"
    else if slot == "module" || "module-" <= slot then "write_module_design"
    else if slot == "implementation" || "implementation-" <= slot then "write_implementation_design"
    else "write_staged_architecture"
  }

  /** The tool by which an item with a contract delivers, by its role. */
  function DeliveringTool(item: WorkItem): string {
    if item.mode != Integration then PartitionTool(item.slot.GetOr(""))
    else if item.stageId == Some("architecture_markdown_integration") then "create_architecture_candidate"
    else "integrate_architecture_designs"
  }

  lemma PartitionTools(slot: string)
    requires PartitionContract(slot).Some?
    ensures PartitionContract(slot).value.requiredTools == ["load_architecture_input", PartitionTool(slot)]
  {
    RolePrefixes(slot);
  }

  lemma ContractTools(item: WorkItem)
    requires ContractFor(item).Some?
    ensures ContractFor(item).value.requiredTools == ["load_architecture_input", DeliveringTool(item)]
  {
    if item.mode == Partitioned {
      PartitionTools(item.slot.GetOr(""));
    }
  }

  lemma RolePrefixes(slot: string)
    ensures "module-" <= slot ==> slot != "blueprint" && !("implementation-" <= slot) && slot != "implementation"
    ensures "implementation-" <= slot ==> slot != "blueprint" && slot != "module"
    ensures slot in {"design", "baseline", "api", "data", "frontend"}
      ==> !("module-" <= slot) && !("implementation-" <= slot)
  {
    assert "module-" <= slot ==> slot[0] == 'm';
    assert "implementation-" <= slot ==> slot[0] == 'i';
  }

  /** An item with a contract is in error exactly if it does not list the input tool and then that of its role. */
  lemma ToolErrorIff(item: WorkItem)
    ensures WrongTools(item.id) in ItemErrors(item)
      <==> ContractFor(item).Some? && item.requiredTools != ["load_architecture_input", DeliveringTool(item)]
  {
    if ContractFor(item).Some? {
      ContractTools(item);
    }
  }
}
