/** mnemonic/core/db_routers.py: `DBRouter`, which sends every query of a
    model to the database alias the model names in its `use_db` attribute. */
module DbRouters {
  import opened Wrappers
  import opened PyValues

  /** A model class as `getattr` sees it: the attributes it has, inherited
      ones included. */
  datatype ModelClass = ModelClass(attrs: map<string, Value>)

  const UseDbAttr := "use_db"
  const DefaultDb := "default"

  /** `getattr(model, name, default)` */
  function GetAttr(model: ModelClass, name: string, default: Value): (r: Value)
    ensures name in model.attrs ==> r == model.attrs[name]
    ensures name !in model.attrs ==> r == default
  {
    if name in model.attrs then model.attrs[name] else default
  }

  /** `db_for_read`: the model's `use_db`, or None (no opinion, so Django
      falls back to the next router or to `'default'`). The hints are not
      looked at. */
  function DbForRead(model: ModelClass, hints: map<string, Value>): (r: Value)
    ensures UseDbAttr in model.attrs ==> r == model.attrs[UseDbAttr]
    ensures UseDbAttr !in model.attrs ==> r == VNone
  {
    GetAttr(model, UseDbAttr, VNone)
  }

  /** `db_for_write` gives the same answer as `db_for_read`, so reads and
      writes of one model always go to one database. */
  function DbForWrite(model: ModelClass, hints: map<string, Value>): (r: Value)
    ensures UseDbAttr in model.attrs ==> r == model.attrs[UseDbAttr]
    ensures UseDbAttr !in model.attrs ==> r == VNone
  {
    GetAttr(model, UseDbAttr, VNone)
  }

  lemma ReadAndWriteAgree(model: ModelClass, readHints: map<string, Value>, writeHints: map<string, Value>)
    ensures DbForWrite(model, writeHints) == DbForRead(model, readHints)
  {
  }

  /** `allow_migrate`: migrations run on the default database only, whatever
      the app, the model or the hints. */
  function AllowMigrate(db: string, appLabel: string, modelName: Option<string>, hints: map<string, Value>): (r: bool)
    ensures r <==> db == DefaultDb
  {
    db == DefaultDb
  }

  /** A model routed to another database is never migrated there. */
  lemma RoutedModelsAreNotMigratedThere(model: ModelClass, hints: map<string, Value>, appLabel: string)
    requires DbForWrite(model, hints).VStr? && DbForWrite(model, hints).s != DefaultDb
    ensures !AllowMigrate(DbForWrite(model, hints).s, appLabel, None, hints)
  {
  }
}
