/** The catalog's name space: one name means one model, along every run of
    commits, aliasings, removals and load marks. */
module Catalog {
  import opened Wrappers
  import opened Names

  /** What a file contributes to its record; never read by naming. */
  datatype FileFacts = FileFacts(path: string, bytes: nat, integrity: string, source: string, header: string)

  datatype InstalledModel = InstalledModel(id: string, alias: Option<string>, sha256: string, facts: FileFacts,
                                           lastNCtx: Option<nat>)

  type Models = map<string, InstalledModel>

  datatype CatalogError =
    | InvalidAlias(alias: string, problem: AliasProblem)
    | AliasIsModelId(alias: string, id: string)
    | AliasInUse(alias: string, owner: string)
    | ModelIdIsAlias(id: string, alias: string, owner: string)
    | UnknownModel(id: string)
    | DuplicateModel(id: string)

  /** A file on disk, hashed. `id` is the one a download already has; an import
      has none and `stem` is what its id is derived from. */
  datatype Scanned = Scanned(id: Option<string>, stem: Option<string>, sha256: string, facts: FileFacts)

  // --------------------------------------------------------- reading the map

  predicate Holds(model: InstalledModel, name: string) {
    model.alias.Some? && SameName(model.alias.value, name)
  }

  predicate IsAlias(models: Models, name: string) { exists id :: id in models && Holds(models[id], name) }

  predicate IsModelId(models: Models, name: string) { exists id :: id in models && SameName(models[id].id, name) }

  predicate HeldByOther(models: Models, name: string, forId: Option<string>) {
    exists id :: id in models && Some(models[id].id) != forId && Holds(models[id], name)
  }

  predicate IsTaken(models: Models, name: string) {
    (exists id :: id in models && SameName(id, name)) || IsAlias(models, name)
  }

  predicate HasDigest(models: Models, sha256: string) {
    exists id :: id in models && Lower(models[id].sha256) == Lower(sha256)
  }

  /** The alias `check_alias` would accept. */
  function AcceptedAlias(models: Models, raw: string, forId: Option<string>): Option<string> {
    match ValidateAlias(raw)
    case Err(_) => None
    case Ok(alias) =>
      if IsModelId(models, alias) || HeldByOther(models, alias, forId) then None else Some(alias)
  }

  /** What `resolve` may return, whatever order the models are walked in. */
  predicate MayResolve(models: Models, name: string, id: string) {
    match ParseSelector(Some(name))
    case Default => false
    case Named(t) =>
      id in models && if IsAlias(models, t) then Holds(models[id], t) else id == t
  }

  // ----------------------------------------------------------------- free ids

  function TakenKeys(models: Models): set<string> {
    (set id | id in models :: LookupKey(id))
    + (set id | id in models && models[id].alias.Some? :: LookupKey(models[id].alias.value))
  }

  lemma TakenIsKey(models: Models, name: string)
    ensures IsTaken(models, name) <==> LookupKey(name) in TakenKeys(models)
  {
  }

  lemma {:induction false} ImageNoLarger<T(!new)>(s: set<string>, image: set<T>, f: string -> T)
    requires forall t :: t in image ==> exists x :: x in s && f(x) == t
    ensures |image| <= |s|
  {
    if image == {} {
    } else {
      var t :| t in image;
      var x :| x in s && f(x) == t;
      var s', image' := s - {x}, image - {t};
      forall u | u in image' ensures exists y :: y in s' && f(y) == u {
        var y :| y in s && f(y) == u;
        assert y in s';
      }
      ImageNoLarger(s', image', f);
    }
  }

  lemma TakenKeysBound(models: Models)
    ensures |TakenKeys(models)| <= 2 * |models|
  {
    var ids := set id | id in models :: LookupKey(id);
    var aliases := set id | id in models && models[id].alias.Some? :: LookupKey(models[id].alias.value);
    ImageNoLarger(models.Keys, ids, id => LookupKey(id));
    var aliasKey := (id: string) =>
      if id in models && models[id].alias.Some? then LookupKey(models[id].alias.value) else "";
    forall t | t in aliases ensures exists id :: id in models.Keys && aliasKey(id) == t {
      var id :| id in models && models[id].alias.Some? && LookupKey(models[id].alias.value) == t;
      assert aliasKey(id) == t;
    }
    ImageNoLarger(models.Keys, aliases, aliasKey);
    assert |models.Keys| == |models|;
    UnionBound(ids, aliases);
  }

  lemma UnionBound(a: set<string>, b: set<string>)
    ensures |a + b| <= |a| + |b|
  {
    assert a + b == a + (b - a);
    assert |a + b| == |a| + |b - a|;
    SubsetBound(b - a, b);
  }

  lemma {:induction false} SubsetBound(a: set<string>, b: set<string>)
    requires a <= b
    ensures |a| <= |b|
  {
    assert b == a + (b - a);
  }

  /** The keys of the suffixed names 2, ..., last. */
  function SuffixKeys(base: string, last: nat): set<string>
    requires last >= 1
    decreases last
  {
    if last == 1 then {} else SuffixKeys(base, last - 1) + {LookupKey(Candidate(base, last))}
  }

  lemma {:induction false} SuffixKeysDistinct(base: string, last: nat)
    requires last >= 1
    ensures |SuffixKeys(base, last)| == last - 1
    ensures forall k :: k in SuffixKeys(base, last) ==>
              exists n :: 2 <= n <= last && LookupKey(Candidate(base, n)) == k
  {
    hide LookupKey;
    hide Candidate;
    if last == 1 {
    } else {
      SuffixKeysDistinct(base, last - 1);
      var key := LookupKey(Candidate(base, last));
      if key in SuffixKeys(base, last - 1) {
        var n :| 2 <= n <= last - 1 && LookupKey(Candidate(base, n)) == key;
        CandidatesDiffer(base, n, last);
      }
    }
  }

  /** Pigeonhole: among the first `2 * |models| + 1` suffixes one is free. */
  lemma FreeSuffixExists(models: Models, base: string)
    ensures exists n :: 2 <= n <= 2 * |models| + 2 && !IsTaken(models, Candidate(base, n))
  {
    var last := 2 * |models| + 2;
    SuffixKeysDistinct(base, last);
    TakenKeysBound(models);
    if SuffixKeys(base, last) <= TakenKeys(models) {
      SubsetBound(SuffixKeys(base, last), TakenKeys(models));
      assert false;
    }
    var k :| k in SuffixKeys(base, last) && k !in TakenKeys(models);
    var n :| 2 <= n <= last && LookupKey(Candidate(base, n)) == k;
    TakenIsKey(models, Candidate(base, n));
  }

  /** The first number from `n` on with a property, given that `bound` has it. */
  ghost function FirstWhere(p: nat -> bool, n: nat, bound: nat): (r: nat)
    requires n <= bound && p(bound)
    ensures n <= r <= bound && p(r)
    ensures forall m :: n <= m < r ==> !p(m)
    decreases bound - n
  {
    if p(n) then n else FirstWhere(p, n + 1, bound)
  }

  ghost predicate FirstFreeSuffix(models: Models, base: string, n: nat) {
    && 2 <= n
    && !IsTaken(models, Candidate(base, n))
    && forall m :: 2 <= m < n ==> IsTaken(models, Candidate(base, m))
  }

  /** The id an import gets: its slug, or the slug with the first free suffix. */
  ghost predicate IsFreeId(models: Models, base: string, id: string) {
    if !IsTaken(models, base) then id == base
    else exists n: nat :: FirstFreeSuffix(models, base, n) && n <= 2 * |models| + 2 && id == Candidate(base, n)
  }

  lemma FirstFreeSuffixExists(models: Models, base: string) returns (n: nat)
    ensures FirstFreeSuffix(models, base, n) && n <= 2 * |models| + 2
  {
    FreeSuffixExists(models, base);
    hide IsTaken;
    hide Candidate;
    var bound :| 2 <= bound <= 2 * |models| + 2 && !IsTaken(models, Candidate(base, bound));
    var free := (m: nat) => !IsTaken(models, Candidate(base, m));
    assert free(bound);
    n := FirstWhere(free, 2, bound);
    forall m: nat | 2 <= m < n ensures IsTaken(models, Candidate(base, m)) {
      assert !free(m);
    }
    assert free(n);
  }

  lemma FreeIdExists(models: Models, base: string)
    ensures exists id :: IsFreeId(models, base, id)
  {
    hide IsTaken;
    hide Candidate;
    if IsTaken(models, base) {
      var n := FirstFreeSuffixExists(models, base);
      assert IsFreeId(models, base, Candidate(base, n));
    } else {
      assert IsFreeId(models, base, base);
    }
  }

  ghost function FreeId(models: Models, base: string): (id: string)
    ensures IsFreeId(models, base, id)
  {
    FreeIdExists(models, base);
    var id :| IsFreeId(models, base, id);
    id
  }

  /** The id is neither an id nor an alias in any casing, the search for it
      never passes suffix `2 * |models| + 2`, and there is one answer. */
  lemma FreeIdIsFree(models: Models, base: string, id: string)
    requires IsFreeId(models, base, id)
    ensures !IsTaken(models, id)
    ensures id == FreeId(models, base)
  {
    hide IsTaken;
    hide Candidate;
    if IsTaken(models, base) {
      var n: nat :| FirstFreeSuffix(models, base, n) && n <= 2 * |models| + 2 && id == Candidate(base, n);
      var free := FreeId(models, base);
      var m: nat :| FirstFreeSuffix(models, base, m) && m <= 2 * |models| + 2 && free == Candidate(base, m);
      assert !(n < m) && !(m < n);
    }
  }

  // ------------------------------------------------------ one step of a run

  datatype Op =
    | Commit(scanned: Scanned)
    | SetAlias(id: string, alias: Option<string>)
    | Remove(id: string)
    | MarkLoaded(id: string, nCtx: nat)

  function Fresh(id: string, alias: Option<string>, scanned: Scanned): InstalledModel {
    InstalledModel(id, alias, scanned.sha256, scanned.facts, None)
  }

  ghost function Committed(models: Models, scanned: Scanned): Models {
    match scanned.id
    case Some(id) =>
      if HeldByOther(models, id, Some(id)) then models
      else models[id := Fresh(id, if id in models then models[id].alias else None, scanned)]
    case None =>
      if HasDigest(models, scanned.sha256) then models
      else
        var id := FreeId(models, Slug(scanned.stem));
        if id in models then models else models[id := Fresh(id, None, scanned)]
  }

  /** The catalog after an operation; a refused one changes nothing. */
  ghost function Step(models: Models, op: Op): Models {
    match op
    case Commit(scanned) => Committed(models, scanned)
    case SetAlias(id, alias) =>
      if id !in models then models
      else if alias.None? then models[id := models[id].(alias := None)]
      else
        var accepted := AcceptedAlias(models, alias.value, Some(id));
        if accepted.None? then models else models[id := models[id].(alias := accepted)]
    case Remove(id) => models - {id}
    case MarkLoaded(id, nCtx) =>
      if id !in models then models else models[id := models[id].(lastNCtx := Some(nCtx))]
  }

  ghost function Run(models: Models, ops: seq<Op>): Models
    decreases |ops|
  {
    if ops == [] then models else Run(Step(models, ops[0]), ops[1..])
  }

  /** One name means one model. */
  ghost predicate Unambiguous(models: Models) {
    && (forall id :: id in models ==> models[id].id == id)
    && (forall id :: id in models && models[id].alias.Some? ==>
          ValidateAlias(models[id].alias.value) == Ok(models[id].alias.value))
    && (forall a, b :: a in models && b in models && a != b && models[a].alias.Some? && models[b].alias.Some? ==>
          !SameName(models[a].alias.value, models[b].alias.value))
    && (forall a, b :: a in models && b in models && models[a].alias.Some? ==>
          !SameName(models[a].alias.value, b))
  }

  lemma CommitKeepsNames(models: Models, scanned: Scanned)
    requires Unambiguous(models)
    ensures Unambiguous(Committed(models, scanned))
  {
    hide LookupKey;
    hide ValidateAlias;
    hide Slug;
    var after := Committed(models, scanned);
    if after != models {
      FreeIdIsFree(models, Slug(scanned.stem), FreeId(models, Slug(scanned.stem)));
      var id := if scanned.id.Some? then scanned.id.value else FreeId(models, Slug(scanned.stem));
      assert after == models[id := after[id]];
      forall a | a in models && models[a].alias.Some? ensures !SameName(models[a].alias.value, id) {
        if scanned.id.Some? {
          assert a != id ==> !Holds(models[a], id);
        } else {
          assert !Holds(models[a], id);
        }
      }
    }
  }

  lemma SetAliasKeepsNames(models: Models, id: string, alias: Option<string>)
    requires Unambiguous(models)
    ensures Unambiguous(Step(models, SetAlias(id, alias)))
  {
    hide LookupKey;
    hide Trim;
    hide ValidateAlias;
    var after := Step(models, SetAlias(id, alias));
    if id in models && alias.Some? && AcceptedAlias(models, alias.value, Some(id)).Some? {
      var name := AcceptedAlias(models, alias.value, Some(id)).value;
      ValidAliasIsFixed(alias.value);
      forall a | a in models ensures !SameName(name, a) {
        assert !SameName(models[a].id, name);
      }
      forall a | a in models && a != id && models[a].alias.Some? ensures !SameName(models[a].alias.value, name) {
        assert !Holds(models[a], name);
      }
    }
  }

  lemma StepKeepsNames(models: Models, op: Op)
    requires Unambiguous(models)
    ensures Unambiguous(Step(models, op))
  {
    match op {
      case Commit(scanned) => CommitKeepsNames(models, scanned);
      case SetAlias(id, alias) => SetAliasKeepsNames(models, id, alias);
      case Remove(id) =>
      case MarkLoaded(id, nCtx) =>
    }
  }

  /** Every run from the empty catalog stays unambiguous. */
  lemma {:induction false} RunKeepsNames(models: Models, ops: seq<Op>)
    requires Unambiguous(models)
    ensures Unambiguous(Run(models, ops))
    decreases |ops|
  {
    if ops == [] {
    } else {
      StepKeepsNames(models, ops[0]);
      RunKeepsNames(Step(models, ops[0]), ops[1..]);
    }
  }

  lemma EveryReachableCatalogIsUnambiguous(ops: seq<Op>)
    ensures Unambiguous(Run(map[], ops))
  {
    RunKeepsNames(map[], ops);
  }

  // -------------------------------------------------------- what a name means

  /** No name resolves to two models: the walk order never matters. */
  lemma ResolvesToOneModel(ops: seq<Op>, name: string, a: string, b: string)
    requires MayResolve(Run(map[], ops), name, a) && MayResolve(Run(map[], ops), name, b)
    ensures a == b
  {
    EveryReachableCatalogIsUnambiguous(ops);
  }

  /** A model's own id resolves to it exactly when the id is trimmed, non-empty
      and not the reserved selector. */
  lemma ResolveById(models: Models, id: string)
    requires Unambiguous(models) && id in models
    ensures MayResolve(models, id, id) <==> Trimmed(id) && id != "" && !IsReserved(id)
  {
    ParseKeepsKey(id);
    TrimTrims(id);
    if ParseSelector(Some(id)).Named? {
      assert !IsAlias(models, Trim(id));
    }
  }

  /** The boundary is reachable: a file called `default.gguf` is installed under
      an id that no request can name. */
  lemma DefaultFileIsUnreachableById() returns (ops: seq<Op>)
    ensures "default" in Run(map[], ops)
    ensures forall name :: !MayResolve(Run(map[], ops), name, "default")
  {
    var scanned := Scanned(None, Some("default"), "", FileFacts("", 0, "", "", ""));
    ops := [Commit(scanned)];
    FirstImportGetsItsSlug(scanned);
    SlugOfDefault();
    hide *;
    OneStep(Commit(scanned));
    LoneDefault(Fresh("default", None, scanned));
  }

  lemma OneStep(op: Op)
    ensures Run(map[], [op]) == Step(map[], op)
  {
    hide Step;
    assert [op][1..] == [];
  }

  lemma LoneDefault(m: InstalledModel)
    requires m.alias.None?
    ensures forall name :: !MayResolve(map["default" := m], name, "default")
  {
    forall name ensures !MayResolve(map["default" := m], name, "default") {
      DefaultIsNeverNamed(name);
      hide ParseSelector;
      hide LookupKey;
      hide Trim;
    }
  }

  lemma FirstImportGetsItsSlug(scanned: Scanned)
    requires scanned.id.None?
    ensures var id := Slug(scanned.stem); Committed(map[], scanned) == map[id := Fresh(id, None, scanned)]
  {
    hide Slug;
    hide LookupKey;
    assert !IsTaken(map[], Slug(scanned.stem));
  }

  lemma DefaultIsNeverNamed(name: string)
    ensures ParseSelector(Some(name)) != Named("default")
  {
    ParseKeepsKey(name);
    TrimTrims("default");
  }

  predicate SlugId(id: string) { id != "" && forall c :: c in id ==> SlugChar(c) }

  /** Every download in the run carries an id of the shape `plan` gives it. */
  ghost predicate PlannedIds(ops: seq<Op>) {
    forall op :: op in ops && op.Commit? && op.scanned.id.Some? ==> SlugId(op.scanned.id.value)
  }

  lemma StepKeepsSlugIds(models: Models, op: Op)
    requires forall id :: id in models ==> SlugId(id)
    requires op.Commit? && op.scanned.id.Some? ==> SlugId(op.scanned.id.value)
    ensures forall id :: id in Step(models, op) ==> SlugId(id)
  {
    hide LookupKey;
    hide ValidateAlias;
    if op.Commit? && op.scanned.id.None? {
      var base := Slug(op.scanned.stem);
      var id := FreeId(models, base);
      if id != base {
        var n: nat :| id == Candidate(base, n);
      }
      assert SlugId(id);
    }
  }

  lemma {:induction false} RunKeepsSlugIds(models: Models, ops: seq<Op>)
    requires forall id :: id in models ==> SlugId(id)
    requires PlannedIds(ops)
    ensures forall id :: id in Run(models, ops) ==> SlugId(id)
    decreases |ops|
  {
    if ops == [] {
    } else {
      assert ops[0] in ops;
      assert forall op :: op in ops[1..] ==> op in ops;
      StepKeepsSlugIds(models, ops[0]);
      RunKeepsSlugIds(Step(models, ops[0]), ops[1..]);
    }
  }

  /** In every catalog a run can reach, each model is found under its own id,
      with the single exception of the id `default`. */
  lemma EveryModelIsFoundByIdButDefault(ops: seq<Op>, id: string)
    requires PlannedIds(ops) && id in Run(map[], ops)
    ensures MayResolve(Run(map[], ops), id, id) <==> id != "default"
  {
    EveryReachableCatalogIsUnambiguous(ops);
    RunKeepsSlugIds(map[], ops);
    SlugIsItsOwnKey(id);
    ResolveById(Run(map[], ops), id);
  }

  lemma SlugOfDefault()
    ensures Slug(Some("default")) == "default"
  {
    var s := "default";
    assert s[1..] == "efault" && "efault"[1..] == "fault" && "fault"[1..] == "ault" && "ault"[1..] == "ult"
        && "ult"[1..] == "lt" && "lt"[1..] == "t" && "t"[1..] == "";
    assert SlugChars("t") == "t";
    assert SlugChars("lt") == "lt";
    assert SlugChars("ult") == "ult";
    assert SlugChars("ault") == "ault";
    assert SlugChars("fault") == "fault";
    assert SlugChars("efault") == "efault";
    assert SlugChars(s) == s;
    assert TrimDashes(s) == s;
  }

  /** An alias, in any casing and with blanks around it, resolves to its model. */
  lemma ResolveByAlias(models: Models, id: string, name: string)
    requires Unambiguous(models) && id in models && Holds(models[id], name)
    ensures MayResolve(models, name, id)
  {
    var alias := models[id].alias.value;
    ParseKeepsKey(alias);
    ParseKeepsKey(name);
    TrimTrims(alias);
    assert Holds(models[id], Trim(name)) by {
      TrimTrims(name);
    }
  }

  /** After an alias is set, changed or cleared, the previous one resolves to
      its model exactly when the new one is the same name, and to nothing else. */
  lemma RetiredAliasStopsResolving(models: Models, id: string, alias: Option<string>, was: string, other: string)
    requires Unambiguous(models) && id in models && models[id].alias == Some(was)
    ensures var after := Step(models, SetAlias(id, alias));
            id in after && (MayResolve(after, was, other) <==> other == id && Holds(after[id], was))
  {
    hide LookupKey;
    hide Trim;
    hide ValidateAlias;
    hide ParseSelector;
    var after := Step(models, SetAlias(id, alias));
    SetAliasKeepsNames(models, id, alias);
    if Holds(after[id], was) {
      ResolveByAlias(after, id, was);
    } else {
      ParseKeepsKey(was);
      TrimTrims(was);
      forall a | a in after ensures !Holds(after[a], Trim(was)) {
        assert a != id ==> after[a] == models[a];
      }
      assert !IsAlias(after, Trim(was));
    }
  }

  /** A removed model's alias and (trimmed) id stop resolving to anything. */
  lemma RemovedNamesStopResolving(models: Models, id: string, name: string, other: string)
    requires Unambiguous(models) && id in models
    requires (name == id && Trimmed(id)) || Holds(models[id], name)
    ensures !MayResolve(Step(models, Remove(id)), name, other)
  {
    hide LookupKey;
    hide Trim;
    hide ValidateAlias;
    hide ParseSelector;
    var after := models - {id};
    ParseKeepsKey(name);
    TrimTrims(name);
    forall a | a in after ensures !Holds(after[a], Trim(name)) {
    }
    assert !IsAlias(after, Trim(name));
  }

  // ------------------------------------------------- what an operation answers

  /** In an unambiguous catalog a name resolves to a model exactly when it is not
      empty or `default` and is the model's alias in any casing, blanks around it
      aside, or, trimmed, its id. */
  lemma ResolvesIff(models: Models, name: string, id: string)
    requires Unambiguous(models)
    ensures MayResolve(models, name, id) <==>
              && id in models && LookupKey(name) != "" && LookupKey(name) != "default"
              && ((models[id].alias.Some? && LookupKey(models[id].alias.value) == LookupKey(name)) || Trim(name) == id)
  {
    ParseKeepsKey(name);
    hide LookupKey;
    hide ValidateAlias;
    hide Trim;
    hide ParseSelector;
    if id in models && Trim(name) == id {
      assert !IsAlias(models, Trim(name));
    }
  }

  /** A name somebody already has, as an id or as an alias. */
  ghost predicate InUse(models: Models, name: string) {
    exists m :: m in models && (LookupKey(m) == LookupKey(name)
                                || (models[m].alias.Some? && LookupKey(models[m].alias.value) == LookupKey(name)))
  }

  /** An alias may be given to a model exactly when it is valid, no model's id is
      the same name, and no other model's alias is. */
  lemma AliasAcceptedIff(models: Models, raw: string, id: string)
    requires Unambiguous(models) && id in models
    ensures AcceptedAlias(models, raw, Some(id)).Some? <==>
              && ValidateAlias(raw).Ok?
              && forall m :: m in models ==>
                   && LookupKey(m) != LookupKey(raw)
                   && (m != id && models[m].alias.Some? ==> LookupKey(models[m].alias.value) != LookupKey(raw))
    ensures AcceptedAlias(models, raw, Some(id)).Some? ==> AcceptedAlias(models, raw, Some(id)).value == Trim(raw)
  {
    ParseKeepsKey(raw);
    if ValidateAlias(raw).Ok? {
      ValidAliasIsFixed(raw);
    }
    hide LookupKey;
    hide ValidateAlias;
    hide Trim;
    if AcceptedAlias(models, raw, Some(id)).Some? {
      forall m | m in models
        ensures LookupKey(m) != LookupKey(raw)
        ensures m != id && models[m].alias.Some? ==> LookupKey(models[m].alias.value) != LookupKey(raw)
      {
        assert !SameName(models[m].id, Trim(raw));
        assert m != id ==> !Holds(models[m], Trim(raw));
      }
    }
  }

  /** Setting an alias: an accepted one is stored trimmed and from then on resolves
      to the model as it was typed; `None` clears it; a refused one and an unknown
      model change nothing. No other record and no other field is touched. */
  lemma SetAliasAnswers(models: Models, id: string, alias: Option<string>)
    requires Unambiguous(models)
    ensures var after := Step(models, SetAlias(id, alias));
            && after.Keys == models.Keys
            && (forall other :: other in models && other != id ==> after[other] == models[other])
            && (id in models && alias.None? ==> after[id] == models[id].(alias := None))
            && (id in models && alias.Some? ==>
                  if AcceptedAlias(models, alias.value, Some(id)).Some?
                  then after[id] == models[id].(alias := Some(Trim(alias.value))) && MayResolve(after, alias.value, id)
                  else after == models)
  {
    hide LookupKey;
    hide ValidateAlias;
    hide Trim;
    hide MayResolve;
    var after := Step(models, SetAlias(id, alias));
    if id in models && alias.Some? && AcceptedAlias(models, alias.value, Some(id)).Some? {
      AliasAcceptedIff(models, alias.value, id);
      SetAliasKeepsNames(models, id, alias);
      ParseKeepsKey(alias.value);
      assert Holds(after[id], alias.value);
      ResolveByAlias(after, id, alias.value);
    }
  }

  /** Removing takes away one record, and marking a load changes one field of one. */
  lemma RemoveAndMarkAnswer(models: Models, id: string, nCtx: nat)
    ensures var after := Step(models, Remove(id));
            && after.Keys == models.Keys - {id}
            && forall other :: other in after ==> after[other] == models[other]
    ensures var after := Step(models, MarkLoaded(id, nCtx));
            && after.Keys == models.Keys
            && (forall other :: other in models && other != id ==> after[other] == models[other])
            && (id in models ==>
                  after[id] == InstalledModel(models[id].id, models[id].alias, models[id].sha256, models[id].facts,
                                              Some(nCtx)))
  {
  }

  /** Some other model's alias is the same name as this id. */
  ghost predicate AliasElsewhere(models: Models, id: string) {
    exists m :: m in models && m != id && models[m].alias.Some? && LookupKey(models[m].alias.value) == LookupKey(id)
  }

  lemma AliasElsewhereIsHeld(models: Models, id: string)
    requires forall m :: m in models ==> models[m].id == m
    ensures AliasElsewhere(models, id) <==> HeldByOther(models, id, Some(id))
  {
    hide LookupKey;
    if AliasElsewhere(models, id) {
      var m :| m in models && m != id && models[m].alias.Some? && LookupKey(models[m].alias.value) == LookupKey(id);
      assert Holds(models[m], id);
    }
    if HeldByOther(models, id, Some(id)) {
      var m :| m in models && Some(models[m].id) != Some(id) && Holds(models[m], id);
      assert LookupKey(models[m].alias.value) == LookupKey(id);
    }
  }

  /** A download is refused exactly when its id is another model's alias; otherwise
      its record takes the id's place, with the alias that was there, and no other
      record is touched. */
  lemma DownloadAnswers(models: Models, scanned: Scanned)
    requires Unambiguous(models) && scanned.id.Some?
    ensures var id, after := scanned.id.value, Committed(models, scanned);
            if AliasElsewhere(models, id) then after == models
            else && after.Keys == models.Keys + {id}
                 && after[id] == InstalledModel(id, if id in models then models[id].alias else None,
                                                scanned.sha256, scanned.facts, None)
                 && forall other :: other in models && other != id ==> after[other] == models[other]
  {
    AliasElsewhereIsHeld(models, scanned.id.value);
    hide LookupKey;
    hide AliasElsewhere;
    hide HeldByOther;
    hide Unambiguous;
  }

  /** An import of bytes some model has, in any casing of the digest, changes
      nothing; any other adds one record, under the file's slug when nobody has
      that name and else under the slug with the first free number from 2. */
  lemma ImportAnswers(models: Models, scanned: Scanned) returns (id: string)
    requires scanned.id.None?
    ensures var slug, after := Slug(scanned.stem), Committed(models, scanned);
            if exists m :: m in models && Lower(models[m].sha256) == Lower(scanned.sha256)
            then after == models
            else && id !in models && !InUse(models, id)
                 && after == models[id := InstalledModel(id, None, scanned.sha256, scanned.facts, None)]
                 && if !InUse(models, slug) then id == slug else FirstNumbered(models, slug, id)
  {
    hide LookupKey;
    hide Slug;
    hide Lower;
    hide Candidate;
    var slug := Slug(scanned.stem);
    id := FreeId(models, slug);
    FreeIdIsFree(models, slug, id);
    InUseIsTaken(models, id);
    InUseIsTaken(models, slug);
    if IsTaken(models, slug) {
      var n: nat :| FirstFreeSuffix(models, slug, n) && id == Candidate(slug, n);
      NumberedFrom(models, slug, n);
    }
    assert id !in models;
  }

  ghost predicate FirstNumbered(models: Models, slug: string, id: string) {
    exists n: nat ::
      && n >= 2 && id == slug + "-" + Decimal(n)
      && forall m :: 2 <= m < n ==> InUse(models, slug + "-" + Decimal(m))
  }

  lemma InUseIsTaken(models: Models, name: string)
    ensures InUse(models, name) <==> IsTaken(models, name)
  {
    hide LookupKey;
    if IsTaken(models, name) {
      if IsAlias(models, name) {
        var m :| m in models && Holds(models[m], name);
        assert LookupKey(models[m].alias.value) == LookupKey(name);
      } else {
        var m :| m in models && SameName(m, name);
        assert LookupKey(m) == LookupKey(name);
      }
    }
    if InUse(models, name) {
      var m :| m in models && (LookupKey(m) == LookupKey(name)
                               || (models[m].alias.Some? && LookupKey(models[m].alias.value) == LookupKey(name)));
      assert SameName(m, name) || Holds(models[m], name);
    }
  }

  lemma NumberedFrom(models: Models, slug: string, n: nat)
    requires FirstFreeSuffix(models, slug, n)
    ensures FirstNumbered(models, slug, Candidate(slug, n))
  {
    hide LookupKey;
    hide Decimal;
    forall m: nat | 2 <= m < n ensures InUse(models, slug + "-" + Decimal(m)) {
      assert Candidate(slug, m) == slug + "-" + Decimal(m);
      InUseIsTaken(models, Candidate(slug, m));
    }
    assert Candidate(slug, n) == slug + "-" + Decimal(n);
  }

  // ------------------------------------------------------------ the same bytes

  /** No two models have the same bytes. */
  ghost predicate DistinctBytes(models: Models) {
    forall a, b :: a in models && b in models && Lower(models[a].sha256) == Lower(models[b].sha256) ==> a == b
  }

  /** Some model other than `id` has these bytes. */
  predicate HeldElsewhere(models: Models, sha256: string, id: string) {
    exists other :: other in models && other != id && Lower(models[other].sha256) == Lower(sha256)
  }

  /** A commit keeps one model per file exactly when it is an import, is refused,
      or downloads bytes that no other model has: only an import looks. */
  lemma CommitKeepsBytesIff(models: Models, scanned: Scanned)
    requires DistinctBytes(models)
    ensures DistinctBytes(Committed(models, scanned)) <==>
              || scanned.id.None?
              || HeldByOther(models, scanned.id.value, scanned.id)
              || !HeldElsewhere(models, scanned.sha256, scanned.id.value)
  {
    hide LookupKey;
    hide Slug;
    hide Lower;
    var after := Committed(models, scanned);
    if scanned.id.Some? && !HeldByOther(models, scanned.id.value, scanned.id) {
      var id := scanned.id.value;
      assert id in after && after[id].sha256 == scanned.sha256;
      assert forall a :: a in after && a != id ==> a in models && after[a] == models[a];
      if HeldElsewhere(models, scanned.sha256, id) {
        var other :| other in models && other != id && Lower(models[other].sha256) == Lower(scanned.sha256);
        assert after[other] == models[other];
      }
    }
  }

  /** Two downloads of the same bytes under two ids are two models. */
  lemma DownloadsCanDuplicate(first: string, second: string) returns (ops: seq<Op>)
    requires first != second
    ensures !DistinctBytes(Run(map[], ops)) && {first, second} <= Run(map[], ops).Keys
  {
    hide LookupKey;
    hide Lower;
    var facts := FileFacts("", 0, "", "", "");
    var a, b := Scanned(Some(first), None, "", facts), Scanned(Some(second), None, "", facts);
    ops := [Commit(a), Commit(b)];
    var one := map[first := Fresh(first, None, a)];
    assert Step(map[], Commit(a)) == one;
    assert !HeldByOther(one, second, Some(second));
    var both := Step(one, Commit(b));
    assert both == one[second := Fresh(second, None, b)];
    assert ops[1..] == [Commit(b)] && ops[1..][1..] == [];
    assert Run(one, ops[1..]) == both;
    assert both[first].sha256 == both[second].sha256;
  }

  /** Every operation but a download keeps it. */
  lemma {:induction false} ImportsNeverDuplicate(models: Models, ops: seq<Op>)
    requires DistinctBytes(models) && forall op :: op in ops && op.Commit? ==> op.scanned.id.None?
    ensures DistinctBytes(Run(models, ops))
    decreases |ops|
  {
    if ops == [] {
    } else {
      hide Lower;
      hide LookupKey;
      assert ops[0] in ops && forall op :: op in ops[1..] ==> op in ops;
      if ops[0].Commit? {
        CommitKeepsBytesIff(models, ops[0].scanned);
      } else {
        OthersKeepBytes(models, ops[0]);
      }
      hide DistinctBytes;
      ImportsNeverDuplicate(Step(models, ops[0]), ops[1..]);
    }
  }

  lemma OthersKeepBytes(models: Models, op: Op)
    requires DistinctBytes(models) && !op.Commit?
    ensures DistinctBytes(Step(models, op))
  {
    hide Lower;
    hide LookupKey;
    hide AcceptedAlias;
    var after := Step(models, op);
    assert forall a :: a in after ==> a in models && after[a].sha256 == models[a].sha256;
  }

  /** New bytes under a known id keep the name the user gave the model. */
  lemma RedownloadKeepsAlias(models: Models, scanned: Scanned)
    requires Unambiguous(models) && scanned.id.Some? && scanned.id.value in models
    ensures var after := Committed(models, scanned);
            && scanned.id.value in after
            && after[scanned.id.value].alias == models[scanned.id.value].alias
            && after[scanned.id.value].sha256 == scanned.sha256
            && after.Keys == models.Keys
            && (forall other :: other in models && other != scanned.id.value ==> after[other] == models[other])
  {
    hide LookupKey;
    assert forall a :: a in models && models[a].alias.Some? ==> !SameName(models[a].alias.value, scanned.id.value);
  }
}
