/** `ResourceService`: a session over the tables, run with nothing else beside it. */
module ResourceServices {
  import opened Options
  import opened Accounts
  import opened UserServices

  class ResourceService {
    const store: Store

    constructor (store: Store)
      ensures this.store == store
    {
      this.store := store;
    }

    method ListResources(tenant: Option<Uuid>, includeAll: bool) returns (rows: set<Resource>)
      ensures forall r :: r in rows <==>
                r in store.db.resources.Values && (tenant.None? || includeAll || r.tenant == tenant.value)
    {
      rows := store.db.resources.Values;
      if tenant.Some? && !includeAll {
        rows := set r | r in rows && r.tenant == tenant.value;
      }
    }

    method GetResource(id: Uuid) returns (row: Option<Resource>)
      requires Consistent(store.db)
      ensures row.Some? <==> id in store.db.resources
      ensures row.Some? ==> row.value == store.db.resources[id] && row.value.id == id
    {
      row := if id in store.db.resources then Some(store.db.resources[id]) else None;
    }

    method CreateResource(name: string, data: string, url: Option<string>, tenant: Uuid, owner: string, uid: Uuid)
        returns (result: Result<Resource>)
      modifies store
      ensures result.Clash? <==> ResourceClashes(old(store.db), Resource(uid, tenant, owner, name, data, url))
      ensures result.Ok? <==> !result.Clash?
      ensures result.Clash? ==> store.db == old(store.db)
      ensures result.Ok? ==>
                && result.value.id == uid && result.value.tenant == tenant && result.value.owner == owner
                && result.value.name == name && result.value.data == data && result.value.url == url
                && uid !in old(store.db.resources)
                && store.db == old(store.db).(resources := old(store.db.resources)[uid := result.value])
    {
      var resource := Resource(uid, tenant, owner, name, data, url);
      InsertResourceClashes(store.db, resource);
      var written := InsertResource(store.db, resource);
      if !written.Wrote? {
        return Clash;
      }
      store.db := written.db;
      result := Ok(store.db.resources[uid]);
    }

    // `draft` is what the given fields leave, the last value of a field winning.
    method UpdateRow(resource: Resource, fields: seq<ResourceField>) returns (result: Result<Resource>)
      requires Consistent(store.db) && resource.id in store.db.resources
      requires store.db.resources[resource.id] == resource
      modifies store
      ensures result.Ok? <==> !result.Clash?
      ensures result.Clash? ==> store.db == old(store.db)
      ensures forall draft :: ResourceFieldsLeave(ResourceDraftOf(resource), fields, draft) ==>
                && (result.Clash? <==> ResourceUpdateClashes(old(store.db), resource, draft))
                && (result.Ok? ==>
                      && draft.name == Some(result.value.name) && draft.data == result.value.data
                      && draft.url == result.value.url)
      ensures result.Ok? ==>
                && result.value.id == resource.id && result.value.tenant == resource.tenant
                && result.value.owner == resource.owner
                && store.db == old(store.db).(resources := old(store.db.resources)[resource.id := result.value])
    {
      var draft := ResourceDraftOf(resource);
      for i := 0 to |fields|
        invariant draft == SetResourceFields(ResourceDraftOf(resource), fields[..i])
      {
        draft := SetResourceField(draft, fields[i]);
        assert fields[..i + 1][..i] == fields[..i];
      }
      assert fields[..|fields|] == fields;
      forall after: ResourceDraft
        ensures ResourceFieldsLeave(ResourceDraftOf(resource), fields, after) ==> after == draft
      {
        ResourceFieldsDetermine(ResourceDraftOf(resource), fields, after);
      }
      UpdateResourceClashes(store.db, resource, draft);
      var written := UpdateResource(store.db, resource, draft);
      if !written.Wrote? {
        return Clash;
      }
      store.db := written.db;
      result := Ok(store.db.resources[resource.id]);
    }

    method DeleteRow(resource: Resource)
      modifies store
      ensures store.db == old(store.db).(resources := old(store.db).resources - {resource.id})
    {
      store.db := DeleteResource(store.db, resource.id);
    }
  }
}
