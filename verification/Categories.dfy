/** Categories of one user: creation, deletion, and the scope of a budget. */
module Categories {
  import opened Wrappers

  type Id = nat

  datatype Kind = ExpenseKind | IncomeKind | TransferKind

  /** A system category carries the key of its label; a name given by the user goes before it. */
  datatype Category = Category(
    parentId: Option<Id>, kind: Kind, isSystem: bool, deleted: bool, name: Option<string>, i18nKey: Option<string>)

  /** The labels in the language of the user, and how names are compared. */
  datatype Naming = Naming(labels: map<string, string>, lower: string -> string)

  datatype Error =
    | CategoryNotFound | MaxDepthExceeded | KindMismatch | NameTaken | SystemNotDeletable | ReassignRequired | DuplicateId

  predicate IsLive(categories: map<Id, Category>, id: Id) {
    id in categories && !categories[id].deleted
  }

  /** The name a category shows. */
  function ResolvedName(naming: Naming, category: Category): string {
    if category.name.Some? && category.name.value != "" then category.name.value
    else
      match category.i18nKey
      case None => ""
      case Some(key) => if key != "" && key in naming.labels then naming.labels[key] else key
  }

  /** A live category of the same parent, other than `except`, shows that name. */
  predicate NameTakenAt(categories: map<Id, Category>, naming: Naming, parentId: Option<Id>, name: string,
          except: Option<Id>) {
    exists x :: x in categories && IsLive(categories, x) && categories[x].parentId == parentId && except != Some(x)
                && naming.lower(ResolvedName(naming, categories[x])) == naming.lower(name)
  }

  function NewCategory(parentId: Option<Id>, kind: Kind, name: string): Category {
    Category(parentId, kind, false, false, Some(name), None)
  }

  /** A live id is a replay; the id of a deleted row cannot be created again. */
  function Create(categories: map<Id, Category>, naming: Naming, id: Id, parentId: Option<Id>, kind: Kind, name: string)
    : Result<map<Id, Category>, Error>
  {
    if IsLive(categories, id) then Success(categories)
    else if parentId.Some? && !IsLive(categories, parentId.value) then Failure(CategoryNotFound)
    else if parentId.Some? && categories[parentId.value].parentId.Some? then Failure(MaxDepthExceeded)
    else if parentId.Some? && categories[parentId.value].kind != kind then Failure(KindMismatch)
    else if NameTakenAt(categories, naming, parentId, name, None) then Failure(NameTaken)
    else if id in categories then Failure(DuplicateId)
    else Success(categories[id := NewCategory(parentId, kind, name)])
  }

  /** An update that may give a new name. */
  function Rename(categories: map<Id, Category>, naming: Naming, id: Id, name: Option<string>): Result<map<Id,
          Category>, Error> {
    if !IsLive(categories, id) then Failure(CategoryNotFound)
    else if name.Some? && name.value != "" && NameTakenAt(categories, naming, categories[id].parentId, name.value, Some(id))
    then Failure(NameTaken)
    else Success(categories[id := categories[id].(name := if name.Some? then name else categories[id].name)])
  }

  /** A category in use needs a target for its transactions. */
  function Remove(categories: map<Id, Category>, id: Id, used: bool, reassignTo: Option<Id>): Result<map<Id,
          Category>, Error> {
    if !IsLive(categories, id) then Failure(CategoryNotFound)
    else if categories[id].isSystem then Failure(SystemNotDeletable)
    else if used && reassignTo == None then Failure(ReassignRequired)
    else if reassignTo.Some? && !IsLive(categories, reassignTo.value) then Failure(CategoryNotFound)
    else if reassignTo.Some? && categories[reassignTo.value].kind != categories[id].kind then Failure(KindMismatch)
    else Success(categories[id := categories[id].(deleted := true)])
  }

  // ----- the transactions of a deleted category -----

  /** The transactions filed under the category; `filed` holds the live transactions that have one. */
  function FiledUnder(filed: map<Id, Id>, id: Id): set<Id> {
    set t | t in filed && filed[t] == id
  }

  function Refiled(filed: map<Id, Id>, id: Id, reassignTo: Option<Id>): map<Id, Id> {
    map t | t in filed :: if filed[t] == id then reassignTo.GetOr(id) else filed[t]
  }

  predicate FiledLive(categories: map<Id, Category>, filed: map<Id, Id>) {
    forall t :: t in filed ==> IsLive(categories, filed[t])
  }

  /** After a deletion every transaction is filed under a live category, unless the transactions of the deleted category
      were reassigned to that same category, which no check prevents. */
  lemma RemovalLeavesNoOrphan(categories: map<Id, Category>, filed: map<Id, Id>, id: Id, reassignTo: Option<Id>)
    requires FiledLive(categories, filed)
    requires Remove(categories, id, FiledUnder(filed, id) != {}, reassignTo).Success?
    ensures FiledLive(Remove(categories, id, FiledUnder(filed, id) != {}, reassignTo).value, Refiled(filed, id, reassignTo))
       <==> !(FiledUnder(filed, id) != {} && reassignTo == Some(id))
  {
    var after := Remove(categories, id, FiledUnder(filed, id) != {}, reassignTo).value;
    if FiledUnder(filed, id) != {} {
      var t :| t in FiledUnder(filed, id);
      assert Refiled(filed, id, reassignTo)[t] == reassignTo.value;
    } else {
      assert forall t :: t in filed ==> t !in FiledUnder(filed, id);
    }
  }

  /** One transaction, its category deleted with itself as the target: the transaction is left under a deleted category. */
  lemma SelfReassignmentOrphans(t: Id, id: Id)
    ensures var categories := map[id := NewCategory(None, ExpenseKind, "")];
      var removed := Remove(categories, id, FiledUnder(map[t := id], id) != {}, Some(id));
      removed.Success? && !FiledLive(removed.value, Refiled(map[t := id], id, Some(id)))
  {
    var categories := map[id := NewCategory(None, ExpenseKind, "")];
    assert t in FiledUnder(map[t := id], id);
    RemovalLeavesNoOrphan(categories, map[t := id], id, Some(id));
  }

  // ----- the depth rule -----

  /** Every parent, deleted or not, is a top-level category of the same kind. */
  predicate DepthOk(categories: map<Id, Category>) {
    forall id :: id in categories && categories[id].parentId.Some? ==>
      var parent := categories[id].parentId.value;
      parent in categories && categories[parent].parentId == None && categories[parent].kind == categories[id].kind
  }

  lemma CreateKeepsDepth(categories: map<Id, Category>, naming: Naming, id: Id, parentId: Option<Id>, kind: Kind,
          name: string)
    requires DepthOk(categories)
    ensures var r := Create(categories, naming, id, parentId, kind, name); r.Success? ==> DepthOk(r.value)
  {
  }

  lemma RemoveKeepsDepth(categories: map<Id, Category>, id: Id, used: bool, reassignTo: Option<Id>)
    requires DepthOk(categories)
    ensures var r := Remove(categories, id, used, reassignTo); r.Success? ==> DepthOk(r.value)
  {
  }

  // ----- the names -----

  /** No two live categories of one parent show the same name. */
  ghost predicate NamesUnique(categories: map<Id, Category>, naming: Naming) {
    forall x, y ::
      (IsLive(categories, x) && IsLive(categories, y) && x != y && categories[x].parentId == categories[y].parentId) ==>
      naming.lower(ResolvedName(naming, categories[x])) != naming.lower(ResolvedName(naming, categories[y]))
  }

  lemma CreateKeepsNames(categories: map<Id, Category>, naming: Naming, id: Id, parentId: Option<Id>, kind: Kind,
          name: string)
    requires NamesUnique(categories, naming)
    ensures var r := Create(categories, naming, id, parentId, kind, name); r.Success? ==> NamesUnique(r.value, naming)
  {
    assert ResolvedName(naming, NewCategory(parentId, kind, name)) == name;
  }

  /** The request schema admits no empty name. */
  lemma RenameKeepsNames(categories: map<Id, Category>, naming: Naming, id: Id, name: Option<string>)
    requires NamesUnique(categories, naming) && name != Some("")
    ensures var r := Rename(categories, naming, id, name); r.Success? ==> NamesUnique(r.value, naming)
  {
  }

  lemma RemoveKeepsNames(categories: map<Id, Category>, naming: Naming, id: Id, used: bool, reassignTo: Option<Id>)
    requires NamesUnique(categories, naming)
    ensures var r := Remove(categories, id, used, reassignTo); r.Success? ==> NamesUnique(r.value, naming)
  {
  }

  datatype CategoryOp =
    | CreateOp(id: Id, parentId: Option<Id>, kind: Kind, name: string)
    | RenameOp(id: Id, newName: Option<string>)
    | RemoveOp(id: Id, used: bool, reassignTo: Option<Id>)

  function Attempted(categories: map<Id, Category>, naming: Naming, op: CategoryOp): Result<map<Id, Category>, Error> {
    match op
    case CreateOp(id, parentId, kind, name) => Create(categories, naming, id, parentId, kind, name)
    case RenameOp(id, newName) => Rename(categories, naming, id, newName)
    case RemoveOp(id, used, reassignTo) => Remove(categories, id, used, reassignTo)
  }

  /** A refused operation changes nothing. */
  function RunOps(categories: map<Id, Category>, naming: Naming, ops: seq<CategoryOp>): map<Id, Category>
    decreases |ops|
  {
    if ops == [] then categories
    else
      var r := Attempted(categories, naming, ops[0]);
      RunOps(if r.Success? then r.value else categories, naming, ops[1..])
  }

  predicate NoEmptyName(op: CategoryOp) {
    op.RenameOp? ==> op.newName != Some("")
  }

  /** Every run in one language keeps the names of siblings distinct and the depth rule. */
  lemma {:induction false} RunKeepsNamesAndDepth(categories: map<Id, Category>, naming: Naming, ops: seq<CategoryOp>)
    requires NamesUnique(categories, naming) && DepthOk(categories) && forall i :: 0 <= i < |ops| ==> NoEmptyName(ops[i])
    ensures NamesUnique(RunOps(categories, naming, ops), naming) && DepthOk(RunOps(categories, naming, ops))
    decreases |ops|
  {
    if ops != [] {
      match ops[0] {
        case CreateOp(id, parentId, kind, name) => CreateKeepsNames(categories, naming, id, parentId, kind, name);
        case RenameOp(id, newName) => RenameKeepsNames(categories, naming, id, newName);
        case RemoveOp(id, used, reassignTo) => RemoveKeepsNames(categories, naming, id, used, reassignTo);
      }
      var r := Attempted(categories, naming, ops[0]);
      RunKeepsNamesAndDepth(if r.Success? then r.value else categories, naming, ops[1..]);
    }
  }

  /** A system category, and a category named by the user as the other language labels it: allowed in one language, the same
      name twice in the other. */
  lemma LanguageSwitchCollides(key: string, system: Id, own: Id, shown: string, other: string, lower: string -> string)
    requires key != "" && system != own && lower(shown) != lower(other)
    ensures var categories := map[system := Category(None, ExpenseKind, true, false, None, Some(key))];
      var one, two := Naming(map[key := shown], lower), Naming(map[key := other], lower);
      var created := Create(categories, one, own, None, ExpenseKind, other);
      created.Success? && NamesUnique(created.value, one) && !NamesUnique(created.value, two)
  {
    var categories := map[system := Category(None, ExpenseKind, true, false, None, Some(key))];
    var one, two := Naming(map[key := shown], lower), Naming(map[key := other], lower);
    CreateKeepsNames(categories, one, own, None, ExpenseKind, other);
    var created := Create(categories, one, own, None, ExpenseKind, other).value;
    assert IsLive(created, system) && IsLive(created, own);
    assert ResolvedName(two, created[system]) == other && ResolvedName(two, created[own]) == other;
  }

  // ----- descendants -----

  /** The category and its live children. */
  function DescendantIds(categories: map<Id, Category>, root: Id): set<Id> {
    {root} + set id | id in categories && !categories[id].deleted && categories[id].parentId == Some(root)
  }

  /** `id` leads to `root` over `steps` parent links of live categories. */
  ghost predicate LeadsTo(categories: map<Id, Category>, id: Id, root: Id, steps: nat)
    decreases steps
  {
    if steps == 0 then id == root
    else
      IsLive(categories, id) && categories[id].parentId.Some?
      && LeadsTo(categories, categories[id].parentId.value, root, steps - 1)
  }

  ghost predicate Descends(categories: map<Id, Category>, id: Id, root: Id) {
    exists steps: nat :: LeadsTo(categories, id, root, steps)
  }

  lemma NoGrandchildren(categories: map<Id, Category>, id: Id, root: Id, steps: nat)
    requires DepthOk(categories) && LeadsTo(categories, id, root, steps)
    ensures steps <= 1
  {
  }

  /** The one-level lookup finds every descendant, however deep the search. */
  lemma DescendantIdsIsClosure(categories: map<Id, Category>, root: Id, id: Id)
    requires DepthOk(categories)
    ensures id in DescendantIds(categories, root) <==> Descends(categories, id, root)
  {
    if id in DescendantIds(categories, root) {
      if id == root {
        assert LeadsTo(categories, id, root, 0);
      } else {
        assert LeadsTo(categories, root, root, 0);
        assert LeadsTo(categories, id, root, 1);
      }
    }
    if Descends(categories, id, root) {
      var steps: nat :| LeadsTo(categories, id, root, steps);
      NoGrandchildren(categories, id, root, steps);
      if steps == 1 {
        assert LeadsTo(categories, categories[id].parentId.value, root, 0);
      }
    }
  }
}
