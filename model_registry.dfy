/** The destination model registry as the model importer uses it: registered models
    with tags, a description and their versions. The registry numbers the versions of
    a model itself, 1, 2, 3, ... in creation order: version `n` is `versions[n - 1]`. */
module Registry {
  import opened Common

  const NoStage: string := "None"

  datatype RegistryVersion = RegistryVersion(
    source: string,
    runId: string,
    description: string,
    tags: map<string, string>,
    stage: string)

  datatype RegisteredModel = RegisteredModel(
    tags: map<string, string>,
    description: Option<string>,
    versions: seq<RegistryVersion>)

  datatype CreateOutcome = Created | AlreadyExists

  /** `AlreadyInStage` is the "Cannot update model version to its current stage" error. */
  datatype TransitionOutcome = Transitioned | AlreadyInStage | VersionNotFound

  /** A version entry of `e["key"]`/`e["value"]` tag pairs, as the export lists them. */
  datatype Tag = Tag(key: string, value: string)

  /** `{ e["key"]: e["value"] for e in entries }`: a later entry wins on a repeated key. */
  function TagMap(entries: seq<Tag>): (m: map<string, string>)
    ensures forall k :: k in m <==> exists i :: 0 <= i < |entries| && entries[i].key == k
  {
    if entries == [] then map[]
    else
      var last := entries[|entries| - 1];
      var m := TagMap(entries[..|entries| - 1])[last.key := last.value];
      assert forall i :: 0 <= i < |entries| - 1 ==> entries[..|entries| - 1][i] == entries[i];
      m
  }

  /** The value of a key in the tag map is that of the last entry carrying the key. */
  lemma {:induction false} TagMapLastWins(entries: seq<Tag>, i: nat)
    requires i < |entries|
    requires forall j :: i < j < |entries| ==> entries[j].key != entries[i].key
    ensures entries[i].key in TagMap(entries) && TagMap(entries)[entries[i].key] == entries[i].value
    decreases |entries|
  {
    if i < |entries| - 1 {
      var init := entries[..|entries| - 1];
      assert forall j :: i < j < |init| ==> init[j] == entries[j];
      TagMapLastWins(init, i);
    }
  }

  /** The models `_import_model` leaves: a new model is registered with the exported tags
      and description; an existing one gets the exported tags set on it. */
  function RegisterModel(models: map<string, RegisteredModel>, name: string, tags: map<string, string>,
                         description: Option<string>): (r: map<string, RegisteredModel>)
    ensures name in r && r.Keys == models.Keys + {name}
    ensures forall other :: other in models && other != name ==> r[other] == models[other]
  {
    if name in models then models[name := models[name].(tags := models[name].tags + tags)]
    else models[name := RegisteredModel(tags, description, [])]
  }

  /** Registering is idempotent: importing the same model a second time changes nothing
      more, and an existing model keeps its versions and description. */
  lemma RegisterModelIdempotent(models: map<string, RegisteredModel>, name: string, tags: map<string, string>,
                                description: Option<string>)
    ensures var once := RegisterModel(models, name, tags, description);
            RegisterModel(once, name, tags, description) == once
    ensures name in models ==> RegisterModel(models, name, tags, description)[name].versions == models[name].versions
    ensures name in models ==> RegisterModel(models, name, tags, description)[name].description == models[name].description
  {
    var once := RegisterModel(models, name, tags, description);
    var t := once[name].tags;
    assert t + tags == t;
    assert once[name].(tags := t) == once[name];
  }

  class ModelRegistry {
    var models: map<string, RegisteredModel>

    constructor ()
      ensures models == map[]
    {
      models := map[];
    }

    /** `delete_model`: the model goes away with its versions; version numbering
        starts again at 1 if it is registered again. `delete_registered_model` raises
        when the registry does not hold the name, which `found` reports. */
    method DeleteModel(name: string) returns (found: bool)
      modifies this
      ensures found <==> name in old(models)
      ensures models == old(models) - {name}
    {
      found := name in models;
      models := models - {name};
    }

    /** `create_registered_model`, which fails when the name is taken. */
    method CreateRegisteredModel(name: string, tags: map<string, string>, description: Option<string>)
      returns (outcome: CreateOutcome)
      modifies this
      ensures name in old(models) ==> outcome == AlreadyExists && models == old(models)
      ensures name !in old(models) ==> outcome == Created && models == old(models)[name := RegisteredModel(tags, description, [])]
    {
      if name in models {
        outcome := AlreadyExists;
      } else {
        models := models[name := RegisteredModel(tags, description, [])];
        outcome := Created;
      }
    }

    /** `set_registered_model_tag` */
    method SetRegisteredModelTag(name: string, key: string, value: string)
      requires name in models
      modifies this
      ensures models == old(models)[name := old(models)[name].(tags := old(models)[name].tags[key := value])]
    {
      models := models[name := models[name].(tags := models[name].tags[key := value])];
    }

    /** `create_model_version`: the registry numbers the new version one above the
        model's last one; a new version has no stage. A model the registry does not
        hold gets no version (`None`). */
    method CreateModelVersion(name: string, source: string, runId: string, description: string,
                              tags: map<string, string>)
      returns (version: Option<nat>)
      modifies this
      ensures name !in old(models) ==> version == None && models == old(models)
      ensures name in old(models) ==> version == Some(|old(models)[name].versions| + 1)
      ensures name in old(models) ==>
                models == old(models)[name := old(models)[name].(versions := old(models)[name].versions +
                                      [RegistryVersion(source, runId, description, tags, NoStage)])]
    {
      if name !in models {
        return None;
      }
      var model := models[name];
      models := models[name := model.(versions := model.versions + [RegistryVersion(source, runId, description, tags, NoStage)])];
      version := Some(|model.versions| + 1);
    }

    /** `transition_model_version_stage`: fails when the version does not exist or is
        already in the stage. */
    method TransitionModelVersionStage(name: string, version: nat, stage: string)
      returns (outcome: TransitionOutcome)
      modifies this
      ensures !(name in old(models) && 1 <= version <= |old(models)[name].versions|) ==>
                outcome == VersionNotFound && models == old(models)
      ensures name in old(models) && 1 <= version <= |old(models)[name].versions| ==>
                var vs := old(models)[name].versions;
                if vs[version - 1].stage == stage then outcome == AlreadyInStage && models == old(models)
                else outcome == Transitioned &&
                     models == old(models)[name := old(models)[name].(versions := vs[version - 1 := vs[version - 1].(stage := stage)])]
    {
      if name !in models || !(1 <= version <= |models[name].versions|) {
        return VersionNotFound;
      }
      var model := models[name];
      if model.versions[version - 1].stage == stage {
        return AlreadyInStage;
      }
      models := models[name := model.(versions := model.versions[version - 1 := model.versions[version - 1].(stage := stage)])];
      return Transitioned;
    }
  }

  /** `_import_model`'s tag update of an existing model: `set_registered_model_tag` for
      each `tags.items()`, in the dict's (unspecified) order. */
  method SetTags(registry: ModelRegistry, name: string, tags: map<string, string>)
    requires name in registry.models
    modifies registry
    ensures registry.models == old(registry.models)[name := old(registry.models)[name].(tags := old(registry.models)[name].tags + tags)]
  {
    ghost var before := registry.models;
    ghost var model := before[name];
    ghost var done: map<string, string> := map[];
    var remaining := tags.Keys;
    assert model.tags + done == model.tags;
    while remaining != {}
      invariant remaining <= tags.Keys
      invariant done.Keys == tags.Keys - remaining
      invariant forall k :: k in done ==> done[k] == tags[k]
      invariant registry.models == before[name := model.(tags := model.tags + done)]
      decreases |remaining|
    {
      var key :| key in remaining;
      SetNextTag(registry, name, before, model, done, key, tags[key]);
      done := done[key := tags[key]];
      remaining := remaining - {key};
    }
    assert done == tags;
  }

  /** One iteration of the tag loop: `done` are the tags already set. */
  method SetNextTag(registry: ModelRegistry, name: string, ghost before: map<string, RegisteredModel>,
                    ghost model: RegisteredModel, ghost done: map<string, string>, key: string, value: string)
    requires registry.models == before[name := model.(tags := model.tags + done)]
    modifies registry
    ensures registry.models == before[name := model.(tags := model.tags + done[key := value])]
  {
    assert (model.tags + done)[key := value] == model.tags + done[key := value];
    registry.SetRegisteredModelTag(name, key, value);
  }

  /** What `_import_model` does to the models, or `None` when it raises: asked to delete
      a model the registry does not hold, `delete_model` raises before anything is
      registered. A deleted model is registered anew, with no versions; otherwise the
      model is registered, or its tags are set. */
  function Registration(models: map<string, RegisteredModel>, name: string, tags: map<string, string>,
                        description: Option<string>, deleteModel: bool): (r: Option<map<string, RegisteredModel>>)
    ensures r.None? <==> deleteModel && name !in models
    ensures r.Some? && deleteModel ==> r.value == models[name := RegisteredModel(tags, description, [])]
    ensures r.Some? && !deleteModel ==> r.value == RegisterModel(models, name, tags, description)
  {
    if deleteModel && name !in models then None
    else Some(RegisterModel(if deleteModel then models - {name} else models, name, tags, description))
  }

  /** `_import_model`: deletes the model first when asked, then registers it with the
      exported tags and description, or sets the tags on the model of that name. `ok` is
      false when the delete raised, and then nothing changed. */
  method ImportRegisteredModel(registry: ModelRegistry, name: string, tagEntries: seq<Tag>, description: Option<string>,
                               deleteModel: bool)
    returns (ok: bool)
    modifies registry
    ensures var r := Registration(old(registry.models), name, TagMap(tagEntries), description, deleteModel);
            ok == r.Some? && registry.models == (if ok then r.value else old(registry.models))
  {
    if deleteModel {
      var found := registry.DeleteModel(name);
      if !found {
        return false;
      }
    }
    var tags := TagMap(tagEntries);
    var outcome := registry.CreateRegisteredModel(name, tags, description);
    if outcome == AlreadyExists {
      SetTags(registry, name, tags);
    }
    return true;
  }
}
