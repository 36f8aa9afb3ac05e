/** The catalog store itself: the map behind `Catalog`'s steps, updated in
    place, and the file it is written to. */
module CatalogStore {
  import opened Wrappers
  import opened Names
  import opened Catalog

  class Store {
    var models: Models

    constructor InMemory()
      ensures models == map[] && Unambiguous(models)
    {
      models := map[];
    }

    /** Whether `raw` may become the alias of `forId`; the checks run in this
        order and an error names a model that is in the way. */
    method CheckAlias(raw: string, forId: Option<string>) returns (r: Result<string, CatalogError>)
      ensures r.Ok? ==> Some(r.value) == AcceptedAlias(models, raw, forId)
      ensures r.Err? ==> AcceptedAlias(models, raw, forId).None?
      ensures r.Err? ==>
                match r.error
                case InvalidAlias(alias, problem) => alias == raw && ValidateAlias(raw) == Err(problem)
                case AliasIsModelId(alias, id) =>
                  && ValidateAlias(raw) == Ok(alias)
                  && exists k :: k in models && models[k].id == id && SameName(id, alias)
                case AliasInUse(alias, owner) =>
                  && ValidateAlias(raw) == Ok(alias) && !IsModelId(models, alias)
                  && exists k :: k in models && models[k].id == owner && Some(owner) != forId && Holds(models[k], alias)
                case _ => false
    {
      hide LookupKey;
      match ValidateAlias(raw) {
        case Err(problem) => return Err(InvalidAlias(raw, problem));
        case Ok(alias) =>
          if IsModelId(models, alias) {
            var k :| k in models && SameName(models[k].id, alias);
            return Err(AliasIsModelId(alias, models[k].id));
          }
          if HeldByOther(models, alias, forId) {
            var k :| k in models && Some(models[k].id) != forId && Holds(models[k], alias);
            return Err(AliasInUse(alias, models[k].id));
          }
          return Ok(alias);
      }
    }

    method EnsureIdUnaliased(id: string) returns (refusal: Option<CatalogError>)
      ensures refusal.Some? <==> HeldByOther(models, id, Some(id))
      ensures refusal.Some? ==>
                && refusal.value.ModelIdIsAlias? && refusal.value.id == id
                && exists k :: k in models && models[k].id == refusal.value.owner != id && Holds(models[k], id)
                               && models[k].alias == Some(refusal.value.alias)
    {
      hide LookupKey;
      if HeldByOther(models, id, Some(id)) {
        var k :| k in models && Some(models[k].id) != Some(id) && Holds(models[k], id);
        return Some(ModelIdIsAlias(id, models[k].alias.value, models[k].id));
      }
      return None;
    }

    method SetAlias(id: string, alias: Option<string>) returns (r: Result<InstalledModel, CatalogError>)
      modifies this
      ensures models == Step(old(models), Op.SetAlias(id, alias))
      ensures old(Unambiguous(models)) ==> Unambiguous(models)
      ensures r.Ok? <==> id in models && (alias.None? || AcceptedAlias(old(models), alias.value, Some(id)).Some?)
      ensures r.Ok? ==> models[id] == r.value && r.value == old(models)[id].(alias := r.value.alias)
      ensures r.Ok? ==> r.value.alias == if alias.Some? then Some(Trim(alias.value)) else None
      ensures r.Err? ==> models == old(models)
    {
      hide LookupKey;
      hide ValidateAlias;
      hide Unambiguous;
      if Unambiguous(models) {
        SetAliasKeepsNames(models, id, alias);
      }
      if id !in models {
        return Err(UnknownModel(id));
      }
      var accepted: Option<string> := None;
      if alias.Some? {
        var checked := CheckAlias(alias.value, Some(id));
        if checked.Err? {
          return Err(checked.error);
        }
        ValidAliasIsFixed(alias.value);
        accepted := Some(checked.value);
      }
      models := models[id := models[id].(alias := accepted)];
      r := Ok(models[id]);
    }

    /** The suffix loop ends by the pigeonhole bound, so it has no fallback. */
    method FindFreeId(base: string) returns (id: string)
      ensures IsFreeId(models, base, id) && !IsTaken(models, id)
    {
      hide IsTaken;
      hide Candidate;
      if !IsTaken(models, base) {
        return base;
      }
      ghost var bound := FirstFreeSuffixExists(models, base);
      var n := 2;
      while IsTaken(models, Candidate(base, n))
        invariant 2 <= n <= bound
        invariant forall m :: 2 <= m < n ==> IsTaken(models, Candidate(base, m))
        decreases bound - n
      {
        n := n + 1;
      }
      assert FirstFreeSuffix(models, base, n) && n <= 2 * |models| + 2;
      return Candidate(base, n);
    }

    method Insert(model: InstalledModel) returns (refusal: Option<CatalogError>)
      modifies this
      ensures refusal.Some? <==> model.id in old(models)
      ensures models == if model.id in old(models) then old(models) else old(models)[model.id := model]
    {
      if model.id in models {
        return Some(DuplicateModel(model.id));
      }
      models := models[model.id := model];
      return None;
    }

    method Replace(model: InstalledModel) returns (previous: Option<InstalledModel>)
      modifies this
      ensures models == old(models)[model.id := model]
      ensures previous == if model.id in old(models) then Some(old(models)[model.id]) else None
    {
      previous := if model.id in models then Some(models[model.id]) else None;
      models := models[model.id := model];
    }

    method Remove(id: string) returns (r: Result<InstalledModel, CatalogError>)
      modifies this
      ensures models == Step(old(models), Op.Remove(id))
      ensures old(Unambiguous(models)) ==> Unambiguous(models)
      ensures r == if id in old(models) then Ok(old(models)[id]) else Err(UnknownModel(id))
    {
      if Unambiguous(models) {
        StepKeepsNames(models, Op.Remove(id));
      }
      hide Unambiguous;
      r := if id in models then Ok(models[id]) else Err(UnknownModel(id));
      models := models - {id};
    }

    /** Put a scanned file into the catalog. An import of bytes already there
        answers with a record that has them and changes nothing. */
    method Commit(scanned: Scanned) returns (r: Result<InstalledModel, CatalogError>)
      modifies this
      ensures models == Step(old(models), Op.Commit(scanned))
      ensures old(Unambiguous(models)) ==> Unambiguous(models)
      ensures r.Err? <==> scanned.id.Some? && HeldByOther(old(models), scanned.id.value, scanned.id)
      ensures r.Ok? ==> exists k :: k in models && models[k] == r.value
      ensures r.Ok? ==> Lower(r.value.sha256) == Lower(scanned.sha256)
      ensures r.Ok? && scanned.id.Some? ==> r.value.id == scanned.id.value
      ensures r.Ok? && scanned.id.None? && !HasDigest(old(models), scanned.sha256) ==>
                !IsTaken(old(models), r.value.id) && r.value == Fresh(r.value.id, None, scanned)
      ensures r.Err? ==> models == old(models)
    {
      if Unambiguous(models) {
        CommitKeepsNames(models, scanned);
      }
      hide Unambiguous;
      hide LookupKey;
      hide Slug;
      if scanned.id.None? && HasDigest(models, scanned.sha256) {
        var k :| k in models && Lower(models[k].sha256) == Lower(scanned.sha256);
        return Ok(models[k]);
      }
      var id: string;
      if scanned.id.Some? {
        id := scanned.id.value;
        var refusal := EnsureIdUnaliased(id);
        if refusal.Some? {
          return Err(refusal.value);
        }
        var record := Fresh(id, if id in models then models[id].alias else None, scanned);
        var previous := Replace(record);
        assert id in models && models[id] == record;
        r := Ok(record);
      } else {
        id := FindFreeId(Slug(scanned.stem));
        FreeIdIsFree(models, Slug(scanned.stem), id);
        var record := Fresh(id, None, scanned);
        var refusal := Insert(record);
        assert refusal.None?;  // a free id is never a duplicate
        assert id in models && models[id] == record;
        r := Ok(record);
      }
    }

    method Resolve(name: string) returns (r: Option<InstalledModel>)
      ensures r.Some? ==> exists id :: MayResolve(models, name, id) && models[id] == r.value
      ensures r.None? ==> forall id :: !MayResolve(models, name, id)
    {
      hide LookupKey;
      hide Trim;
      var selector := ParseSelector(Some(name));
      if selector.Default? {
        return None;
      }
      if IsAlias(models, selector.name) {
        var id :| id in models && Holds(models[id], selector.name);
        assert MayResolve(models, name, id);
        return Some(models[id]);
      }
      if selector.name in models {
        assert MayResolve(models, name, selector.name);
        return Some(models[selector.name]);
      }
      return None;
    }
  }

  // ------------------------------------------------------------- on disk

  /** What a file can hold: a complete catalog document, or a partial write. */
  datatype Content = Document(models: seq<InstalledModel>) | Torn

  type Disk = map<string, Content>

  function TempSibling(path: string): string { path + ".tmp" }

  datatype Opened = Catalog(models: Models) | Unreadable

  /** Collecting the document's records by id, later ones winning. */
  function Collect(records: seq<InstalledModel>): Models {
    if records == [] then map[]
    else Collect(records[..|records| - 1])[records[|records| - 1].id := records[|records| - 1]]
  }

  /** A missing file is an empty catalog; an unparsable one is an error. */
  function Open(disk: Disk, path: string): Opened {
    if path !in disk then Catalog(map[])
    else match disk[path]
      case Torn => Unreadable
      case Document(records) => Catalog(Collect(records))
  }

  /** Only a missing file opens as an empty catalog unasked; one that does not parse
      is refused, never taken for empty. */
  lemma OpenRefusesIff(disk: Disk, path: string)
    ensures Open(disk, path) == Unreadable <==> path in disk && disk[path] == Torn
    ensures Open(disk, path) == Catalog(map[]) <==> path !in disk || disk[path] == Document([])
  {
    if path in disk && disk[path].Document? && disk[path].models != [] {
      var records := disk[path].models;
      assert records[|records| - 1].id in Collect(records);
    }
  }

  /** The values of a map, each once, in some order. */
  ghost predicate Lists(records: seq<InstalledModel>, models: Models) {
    && |records| == |models|
    && (forall id :: id in models ==> models[id] in records)
    && (forall r :: r in records ==> r.id in models && models[r.id] == r)
    && DistinctIds(records)
  }

  /** The states a save passes through: nothing done, the temporary written in
      part, written whole, renamed, or the rename refused and the temporary
      removed. A crash can stop at any of them. */
  ghost predicate SavePoint(before: Disk, path: string, records: seq<InstalledModel>, now: Disk) {
    var temp := TempSibling(path);
    || now == before
    || now == before[temp := Torn]
    || now == before[temp := Document(records)]
    || now == (before - {temp})[path := Document(records)]
    || now == before - {temp}
  }

  ghost predicate DistinctIds(records: seq<InstalledModel>) {
    forall i, j :: 0 <= i < j < |records| ==> records[i].id != records[j].id
  }

  /** The records under some of the keys, each once, in some order. */
  ghost predicate ListsKeys(records: seq<InstalledModel>, models: Models, keys: set<string>) {
    && |records| == |keys|
    && (forall id :: id in keys ==> id in models && models[id] in records)
    && (forall r :: r in records ==> r.id in keys && r.id in models && models[r.id] == r)
    && DistinctIds(records)
  }

  lemma DistinctIdsGrow(first: InstalledModel, rest: seq<InstalledModel>)
    requires DistinctIds(rest) && forall r :: r in rest ==> r.id != first.id
    ensures DistinctIds([first] + rest)
  {
    forall k | 0 <= k < |rest| ensures rest[k].id != first.id {
      assert rest[k] in rest;
    }
  }

  lemma ListingGrows(models: Models, keys: set<string>, id: string, rest: seq<InstalledModel>)
    requires ListsKeys(rest, models, keys) && id !in keys && id in models && models[id].id == id
    ensures ListsKeys([models[id]] + rest, models, keys + {id})
  {
    var records := [models[id]] + rest;
    assert forall r :: r in rest ==> r.id != id;
    DistinctIdsGrow(models[id], rest);
    hide DistinctIds;
    assert forall r :: r in records <==> r == models[id] || r in rest;
    assert |records| == |keys + {id}|;
  }

  lemma {:induction false} KeysCanBeListed(models: Models, keys: set<string>) returns (records: seq<InstalledModel>)
    requires forall id :: id in keys ==> id in models && models[id].id == id
    ensures ListsKeys(records, models, keys)
  {
    if keys == {} {
      records := [];
    } else {
      var id :| id in keys;
      hide ListsKeys;
      var rest := KeysCanBeListed(models, keys - {id});
      ListingGrows(models, keys - {id}, id, rest);
      assert keys - {id} + {id} == keys;
      records := [models[id]] + rest;
    }
  }

  /** Every catalog whose keys are its ids can be written out. */
  lemma ListingExists(models: Models) returns (records: seq<InstalledModel>)
    requires forall id :: id in models ==> models[id].id == id
    ensures Lists(records, models)
  {
    records := KeysCanBeListed(models, models.Keys);
    hide DistinctIds;
    assert |models.Keys| == |models|;
  }

  lemma {:induction false} CollectHolds(records: seq<InstalledModel>, k: nat)
    requires DistinctIds(records) && k < |records|
    ensures records[k].id in Collect(records) && Collect(records)[records[k].id] == records[k]
  {
    var init, last := records[..|records| - 1], records[|records| - 1];
    if k < |init| {
      assert forall i :: 0 <= i < |init| ==> init[i] == records[i];
      CollectHolds(init, k);
    }
  }

  lemma {:induction false} CollectOnly(records: seq<InstalledModel>, id: string)
    requires id in Collect(records)
    ensures Collect(records)[id] in records && Collect(records)[id].id == id
  {
    var init, last := records[..|records| - 1], records[|records| - 1];
    if id == last.id {
    } else {
      CollectOnly(init, id);
    }
  }

  /** Reopening a completed save gives back the catalog, for every catalog
      whose keys are its records' ids and every order of writing them. */
  lemma OpenAfterSave(models: Models, records: seq<InstalledModel>, disk: Disk, path: string)
    requires Lists(records, models)
    requires forall id :: id in models ==> models[id].id == id
    ensures Open(disk[path := Document(records)], path) == Catalog(models)
  {
    var got := Collect(records);
    forall id | id in got ensures id in models && models[id] == got[id] {
      CollectOnly(records, id);
    }
    forall id | id in models ensures id in got {
      var k :| 0 <= k < |records| && records[k] == models[id];
      CollectHolds(records, k);
    }
    assert got == models;
  }

  /** At every crash point of a save, reopening yields the old catalog or the
      new one, never a mixture and never an unreadable file that was readable. */
  lemma CrashLeavesOldOrNew(models: Models, records: seq<InstalledModel>, before: Disk, path: string, now: Disk)
    requires Lists(records, models)
    requires forall id :: id in models ==> models[id].id == id
    requires SavePoint(before, path, records, now)
    ensures Open(now, path) == Open(before, path) || Open(now, path) == Catalog(models)
  {
    assert TempSibling(path) != path by {
      assert |TempSibling(path)| == |path| + 4;
    }
    OpenAfterSave(models, records, before - {TempSibling(path)}, path);
  }

  /** A catalog reached by any run, saved and reopened, still resolves the same
      names to the same models. */
  lemma ReopenedCatalogIsUnambiguous(ops: seq<Op>, records: seq<InstalledModel>, disk: Disk, path: string)
    requires Lists(records, Run(map[], ops))
    ensures Open(disk[path := Document(records)], path) == Catalog(Run(map[], ops))
    ensures Unambiguous(Open(disk[path := Document(records)], path).models)
  {
    EveryReachableCatalogIsUnambiguous(ops);
    OpenAfterSave(Run(map[], ops), records, disk, path);
  }
}
