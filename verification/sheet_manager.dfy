/**
 * The sheet-name registry a Sheet talks to (`SheetManager`).  Its source,
 * src/Writer/Common/Manager/SheetManager.php, is not part of this model; what
 * is modelled is the contract a Sheet relies on: names are registered per
 * workbook id and sheet index, a name is accepted when it satisfies a rule on
 * the name alone and no other sheet of the same workbook holds it, and
 * registering a name records it for the sheet's index.
 */
module SheetNaming {
  import opened Wrappers
  import opened Errors

  /** Names in use: workbook id -> sheet index -> name. */
  type Registry = map<string, map<nat, string>>

  /** The names registered for one workbook; none when the workbook is unknown. */
  function NamesIn(registry: Registry, workbookId: string): map<nat, string> {
    if workbookId in registry then registry[workbookId] else map[]
  }

  /** No sheet of the workbook other than `index` holds `name`. */
  predicate NameAvailable(registry: Registry, workbookId: string, index: nat, name: string) {
    var names := NamesIn(registry, workbookId);
    forall other :: other in names && other != index ==> names[other] != name
  }

  /** Within every workbook, no two sheets hold the same name. */
  predicate Unique(registry: Registry) {
    forall workbookId, i, j ::
      workbookId in registry && i in registry[workbookId] && j in registry[workbookId] && i != j ==>
        registry[workbookId][i] != registry[workbookId][j]
  }

  /**
   * `markWorkbookIdAsUsed` on a value: the workbook gets an (empty) entry if it
   * had none; the names of every workbook stay as they were.
   */
  function WithWorkbook(registry: Registry, workbookId: string): (r: Registry)
    ensures workbookId in r
    ensures forall id :: NamesIn(r, id) == NamesIn(registry, id)
    ensures forall id :: id != workbookId ==> (id in r <==> id in registry)
  {
    if workbookId in registry then registry else registry[workbookId := map[]]
  }

  /**
   * `markSheetNameAsUsed` on a value: `index` now holds `name` in its workbook;
   * every other entry of that workbook and every other workbook is kept.
   */
  function Registered(registry: Registry, workbookId: string, index: nat, name: string): (r: Registry)
    ensures NamesIn(r, workbookId) == NamesIn(registry, workbookId)[index := name]
    ensures forall id :: id != workbookId ==> NamesIn(r, id) == NamesIn(registry, id)
  {
    registry[workbookId := NamesIn(registry, workbookId)[index := name]]
  }

  /**
   * Once a sheet has registered a name, every other sheet of the same
   * workbook is refused it, and the sheet itself may set it again.
   */
  lemma RegisteredNameTaken(registry: Registry, workbookId: string, index: nat, name: string, other: nat)
    requires NameAvailable(registry, workbookId, index, name)
    ensures var r := Registered(registry, workbookId, index, name);
      NameAvailable(r, workbookId, other, name) <==> other == index
  {
    var r := Registered(registry, workbookId, index, name);
    if other != index {
      assert index in NamesIn(r, workbookId) && NamesIn(r, workbookId)[index] == name;
    }
  }

  /** Registering a name the registry accepts keeps every workbook free of duplicates. */
  lemma RegisterKeepsUnique(registry: Registry, workbookId: string, index: nat, name: string)
    ensures Unique(registry) && NameAvailable(registry, workbookId, index, name) ==>
      Unique(Registered(registry, workbookId, index, name))
  {
  }

  /**
   * The registry object.  `nameRule` stands for the checks on the name alone
   * (blank, length, forbidden characters), which are not part of this model.
   */
  class SheetManager {
    var registry: Registry
    const nameRule: string -> bool

    /** The registry accepts the name for a sheet: the rule holds and the name is free. */
    predicate Accepts(workbookId: string, index: nat, name: string)
      reads this
    {
      nameRule(name) && NameAvailable(registry, workbookId, index, name)
    }

    /** No workbook holds a name twice. */
    predicate Valid()
      reads this
    {
      Unique(registry)
    }

    constructor(nameRule: string -> bool)
      ensures registry == map[] && this.nameRule == nameRule
      ensures Valid()
    {
      registry := map[];
      this.nameRule := nameRule;
    }

    /** Called by the Sheet constructor: makes the workbook known. */
    method MarkWorkbookIdAsUsed(workbookId: string)
      modifies this`registry
      ensures registry == WithWorkbook(old(registry), workbookId)
      ensures Valid() == old(Valid())
    {
      if workbookId !in registry {
        registry := registry[workbookId := map[]];
      }
    }

    /** Called by `setName` before the name is stored: fails exactly when the name is refused. */
    method ThrowIfNameIsInvalid(workbookId: string, index: nat, name: string) returns (o: Outcome<WriterError>)
      ensures o.Pass? <==> Accepts(workbookId, index, name)
      ensures o.Fail? ==> o.error == InvalidSheetName
    {
      if !nameRule(name) || !NameAvailable(registry, workbookId, index, name) {
        return Fail(InvalidSheetName);
      }
      return Pass;
    }

    /** Called by `setName` after the name is stored: records it for the sheet's index. */
    method MarkSheetNameAsUsed(workbookId: string, index: nat, name: string)
      modifies this`registry
      ensures registry == Registered(old(registry), workbookId, index, name)
      ensures old(Valid()) && NameAvailable(old(registry), workbookId, index, name) ==> Valid()
    {
      RegisterKeepsUnique(registry, workbookId, index, name);
      registry := Registered(registry, workbookId, index, name);
    }
  }
}
