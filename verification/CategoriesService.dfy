/** The category service: rows created and soft-deleted one at a time, with the filing of the live transactions. */
module CategoriesService {
  import opened Wrappers
  import opened MapSums
  import opened Categories

  class CategoriesService {
    var categories: map<Id, Category>
    var filed: map<Id, Id>

    constructor ()
      ensures categories == map[] && filed == map[] && DepthOk(categories)
    {
      categories, filed := map[], map[];
    }

    /** The siblings are looked at one by one. */
    method NameIsTaken(naming: Naming, parentId: Option<Id>, name: string, except: Option<Id>) returns (taken: bool)
      ensures taken <==> NameTakenAt(categories, naming, parentId, name, except)
    {
      var rest := categories;
      while rest != map[]
        invariant rest.Keys <= categories.Keys
        invariant forall x :: x in categories && x !in rest ==> !ShowsName(x, naming, parentId, name, except)
        decreases |rest|
      {
        var x := RowIn(rest);
        if ShowsName(x, naming, parentId, name, except) {
          return true;
        }
        rest := rest - {x};
      }
      return false;
    }

    predicate ShowsName(x: Id, naming: Naming, parentId: Option<Id>, name: string, except: Option<Id>)
      reads this
      requires x in categories
    {
      IsLive(categories, x) && categories[x].parentId == parentId && except != Some(x)
      && naming.lower(ResolvedName(naming, categories[x])) == naming.lower(name)
    }

    method Create(naming: Naming, id: Id, parentId: Option<Id>, kind: Kind, name: string) returns (error: Option<Error>)
      requires DepthOk(categories)
      modifies this`categories
      ensures DepthOk(categories)
      ensures match Categories.Create(old(categories), naming, id, parentId, kind, name)
              case Success(after) => error == None && categories == after
              case Failure(e) => error == Some(e) && categories == old(categories)
    {
      if IsLive(categories, id) {
        return None;
      }
      if parentId.Some? {
        if !IsLive(categories, parentId.value) {
          return Some(CategoryNotFound);
        }
        var parent := categories[parentId.value];
        if parent.parentId.Some? {
          return Some(MaxDepthExceeded);
        }
        if parent.kind != kind {
          return Some(KindMismatch);
        }
      }
      var taken := NameIsTaken(naming, parentId, name, None);
      if taken {
        return Some(NameTaken);
      }
      if id in categories {
        return Some(DuplicateId);
      }
      categories := categories[id := NewCategory(parentId, kind, name)];
      return None;
    }

    method Update(naming: Naming, id: Id, name: Option<string>) returns (error: Option<Error>)
      modifies this`categories
      ensures match Rename(old(categories), naming, id, name)
              case Success(after) => error == None && categories == after
              case Failure(e) => error == Some(e) && categories == old(categories)
    {
      if !IsLive(categories, id) {
        return Some(CategoryNotFound);
      }
      if name.Some? && name.value != "" {
        var taken := NameIsTaken(naming, categories[id].parentId, name.value, Some(id));
        if taken {
          return Some(NameTaken);
        }
      }
      categories := categories[id := categories[id].(name := if name.Some? then name else categories[id].name)];
      return None;
    }

    method Remove(id: Id, reassignTo: Option<Id>) returns (error: Option<Error>, movedCount: nat)
      requires DepthOk(categories)
      modifies this
      ensures DepthOk(categories)
      ensures match Categories.Remove(old(categories), id, FiledUnder(old(filed), id) != {}, reassignTo)
              case Success(after) =>
                && error == None && categories == after && filed == Refiled(old(filed), id, reassignTo)
                && movedCount == |FiledUnder(old(filed), id)|
              case Failure(e) => error == Some(e) && categories == old(categories) && filed == old(filed) && movedCount == 0
    {
      if !IsLive(categories, id) {
        return Some(CategoryNotFound), 0;
      }
      if categories[id].isSystem {
        return Some(SystemNotDeletable), 0;
      }
      var used := FiledUnder(filed, id);
      var usedCount := |used|;
      assert usedCount > 0 <==> used != {};
      assert used == {} ==> forall t :: t in filed ==> t !in used;
      if usedCount > 0 && reassignTo == None {
        return Some(ReassignRequired), 0;
      }
      if reassignTo.Some? {
        if !IsLive(categories, reassignTo.value) {
          return Some(CategoryNotFound), 0;
        }
        if categories[reassignTo.value].kind != categories[id].kind {
          return Some(KindMismatch), 0;
        }
      }
      movedCount := 0;
      if reassignTo.Some? && usedCount > 0 {
        filed := map t | t in filed :: if filed[t] == id then reassignTo.value else filed[t];
        movedCount := usedCount;
      }
      categories := categories[id := categories[id].(deleted := true)];
      return None, movedCount;
    }
  }
}
