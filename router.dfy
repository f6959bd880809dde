/** The routing hooks of `DynamicDbRouter`. Django calls them on every query;
    they read the current context's alias cells and never change anything. */
module DynamicDbRouter {
  import opened Db

  /** `db_for_read`: the alias a read query goes to is the current read cell,
      whatever model and hints the query carries. */
  function DbForRead(current: Cells, model: ModelClass, hints: Hints): (r: Alias)
    ensures r == current.read
  {
    current.read
  }

  /** `db_for_write`: the alias a write query goes to is the current write
      cell, whatever model and hints the query carries. */
  function DbForWrite(current: Cells, model: ModelClass, hints: Hints): (r: Alias)
    ensures r == current.write
  {
    current.write
  }

  /** `allow_relation`: relations between objects of any two databases are
      allowed. */
  function AllowRelation(obj1: ModelInstance, obj2: ModelInstance, hints: Hints): (r: bool)
    ensures r
  {
    true
  }

  /** `allow_syncdb`: no opinion (None), so Django falls back to its default. */
  function AllowSyncdb(db: Alias, model: ModelClass): (r: Option<bool>)
    ensures r.None?
  {
    None
  }

  /** `allow_migrate`: no opinion (None), so Django falls back to its default. */
  function AllowMigrate(db: Alias, appLabel: string, modelName: Option<string>, hints: Hints): (r: Option<bool>)
    ensures r.None?
  {
    None
  }
}
