/** `prisma.extension.ts`: the filters the tenant client adds, and what a read through it returns. */
module TenantView {
  import opened Store

  /** A column value; `Null` for a column that is not set. */
  datatype Value = Null | Text(text: string)

  type Row = map<string, Value>

  /** One key of a `where` object. A key present with the value `undefined` constrains nothing. */
  datatype Condition = Undefined | Equals(value: Value) | Not(value: Value) | OneOf(values: set<Value>)

  /** A `where` object: column conditions, and what its other keys (AND, OR, NOT, relations) ask besides. */
  datatype Where = Where(columns: map<string, Condition>, rest: Row -> bool)

  const EVERYTHING: Where := Where(map[], (r: Row) => true)

  predicate Meets(v: Value, c: Condition) {
    match c
    case Undefined => true
    case Equals(x) => v == x
    case Not(x) => v != x
    case OneOf(xs) => v in xs
  }

  predicate Matches(r: Row, w: Where) {
    && (forall k | k in w.columns :: Meets(if k in r then r[k] else Null, w.columns[k]))
    && w.rest(r)
  }

  const TENANT_SOFT_DELETE_MODELS := {"Product", "Category", "Supplier", "SalesOrder", "PurchaseOrder", "TenantUser"}
  const SOFT_DELETE_ONLY_MODELS := {"PlatformAdmin", "PlatformUser", "Tenant"}
  const TENANT_ONLY_MODELS := {"SalesReturn", "StockTransaction"}

  predicate IsSoftDeleteModel(model: string) {
    model in TENANT_SOFT_DELETE_MODELS || model in SOFT_DELETE_ONLY_MODELS
  }

  predicate IsTenantModel(model: string) {
    model in TENANT_SOFT_DELETE_MODELS || model in TENANT_ONLY_MODELS
  }

  /** `where[key] !== undefined`. */
  predicate Names(w: Where, key: string) {
    key in w.columns && w.columns[key] != Undefined
  }

  /** A key the caller left out, or left undefined, is set; one the caller named is not touched. */
  function AddFilter(w: Option<Where>, key: string, value: Value): Where {
    if w.None? then EVERYTHING.(columns := map[key := Equals(value)])
    else if Names(w.value, key) then w.value
    else w.value.(columns := w.value.columns[key := Equals(value)])
  }

  function AddSoftDeleteFilter(w: Option<Where>): Where {
    AddFilter(w, "deletedAt", Null)
  }

  function AddTenantFilter(w: Option<Where>, tenantId: string): Where {
    AddFilter(w, "tenantId", Text(tenantId))
  }

  /** The `args` object of a query, whose `where` the extension overwrites. */
  class Args {
    var filter: Option<Where>

    constructor (filter: Option<Where>)
      ensures this.filter == filter
    {
      this.filter := filter;
    }

    method ApplySoftDelete(model: string)
      modifies this
      ensures filter == if model in {"Product", "Category", "Supplier", "SalesOrder", "PurchaseOrder", "TenantUser",
                                     "PlatformAdmin", "PlatformUser", "Tenant"}
                        then Some(AddSoftDeleteFilter(Some(Asked(old(filter))))) else old(filter)
    {
      if IsSoftDeleteModel(model) {
        if filter == None { filter := Some(EVERYTHING); }
        filter := Some(AddSoftDeleteFilter(filter));
      }
    }

    /** An absent or empty tenant id leaves the arguments alone. */
    method ApplyTenantFilter(model: string, tenantId: string)
      modifies this
      ensures filter == if tenantId != "" && model in {"Product", "Category", "Supplier", "SalesOrder", "PurchaseOrder",
                                                       "TenantUser", "SalesReturn", "StockTransaction"}
                        then Some(AddTenantFilter(Some(Asked(old(filter))), tenantId)) else old(filter)
    {
      if tenantId == "" { return; }
      if model in TENANT_SOFT_DELETE_MODELS || model in TENANT_ONLY_MODELS {
        if filter == None { filter := Some(EVERYTHING); }
        filter := Some(AddTenantFilter(filter, tenantId));
      }
    }

    /** The read path of `findMany`, `findFirst`, `count`, `aggregate` and `groupBy`. */
    method PrepareRead(model: string, tenantId: string)
      modifies this
      ensures Asked(filter) == ReadFilter(model, tenantId, Asked(old(filter)))
    {
      ApplySoftDelete(model);
      ApplyTenantFilter(model, tenantId);
    }
  }

  /** What the caller asked for: a missing `where` asks for everything. */
  function Asked(w: Option<Where>): Where {
    if w.Some? then w.value else EVERYTHING
  }

  /** The filter a read reaches the database with. */
  function ReadFilter(model: string, tenantId: string, asked: Where): Where {
    var live := if IsSoftDeleteModel(model) then AddSoftDeleteFilter(Some(asked)) else asked;
    if tenantId != "" && IsTenantModel(model) then AddTenantFilter(Some(live), tenantId) else live
  }

  function Read(table: set<Row>, model: string, tenantId: string, asked: Where): set<Row> {
    set r | r in table && Matches(r, ReadFilter(model, tenantId, asked))
  }

  function Column(r: Row, key: string): Value {
    if key in r then r[key] else Null
  }

  /** Adding a key is asking for one thing more, unless the caller already named it. */
  lemma AddFilterMatches(w: Where, key: string, value: Value, r: Row)
    ensures Matches(r, AddFilter(Some(w), key, value)) <==> Matches(r, w) && (Names(w, key) || Column(r, key) == value)
  {
  }

  /** What one column condition asks of a row: a missing column counts as null, and `undefined` asks nothing. */
  lemma ConditionsMean(key: string, value: Value, values: set<Value>, r: Row)
    ensures var all := (x: Row) => true;
            var found := if key in r then r[key] else Null;
            && Matches(r, Where(map[key := Undefined], all))
            && (Matches(r, Where(map[key := Equals(value)], all)) <==> found == value)
            && (Matches(r, Where(map[key := Not(value)], all)) <==> found != value)
            && (Matches(r, Where(map[key := OneOf(values)], all)) <==> found in values)
  {
  }

  /** For any model and any filter: a read returns the rows the caller asked for, live ones only where rows are deleted
      softly and the caller did not name `deletedAt`, and the tenant's only where rows have a tenant, the client has one
      and the caller did not name `tenantId`. */
  lemma ReadReturnsExactly(table: set<Row>, model: string, tenantId: string, asked: Where, r: Row)
    ensures r in Read(table, model, tenantId, asked) <==>
              && r in table && Matches(r, asked)
              && (model in {"Product", "Category", "Supplier", "SalesOrder", "PurchaseOrder", "TenantUser",
                            "PlatformAdmin", "PlatformUser", "Tenant"} ==>
                    Names(asked, "deletedAt") || Column(r, "deletedAt") == Null)
              && (tenantId != "" && model in {"Product", "Category", "Supplier", "SalesOrder", "PurchaseOrder",
                                              "TenantUser", "SalesReturn", "StockTransaction"} ==>
                    Names(asked, "tenantId") || Column(r, "tenantId") == Text(tenantId))
  {
    var live := if IsSoftDeleteModel(model) then AddSoftDeleteFilter(Some(asked)) else asked;
    AddFilterMatches(asked, "deletedAt", Null, r);
    AddFilterMatches(live, "tenantId", Text(tenantId), r);
  }

  /** When the filter names neither key, model by model. The tenant's live rows: */
  lemma PlainReadSeesOwnLiveRows(table: set<Row>, model: string, tenantId: string, asked: Where)
    requires model in {"Product", "Category", "Supplier", "SalesOrder", "PurchaseOrder", "TenantUser"}
    requires tenantId != "" && !Names(asked, "tenantId") && !Names(asked, "deletedAt")
    ensures Read(table, model, tenantId, asked)
         == set r | r in table && Matches(r, asked)
                    && Column(r, "deletedAt") == Null && Column(r, "tenantId") == Text(tenantId)
  {
    forall r ensures r in Read(table, model, tenantId, asked) <==>
                       r in table && Matches(r, asked) && Column(r, "deletedAt") == Null
                           && Column(r, "tenantId") == Text(tenantId)
    {
      ReadReturnsExactly(table, model, tenantId, asked, r);
    }
  }

  /** the tenant's rows: */
  lemma PlainReadSeesOwnRows(table: set<Row>, model: string, tenantId: string, asked: Where)
    requires model in {"SalesReturn", "StockTransaction"}
    requires tenantId != "" && !Names(asked, "tenantId")
    ensures Read(table, model, tenantId, asked)
         == set r | r in table && Matches(r, asked) && Column(r, "tenantId") == Text(tenantId)
  {
    forall r ensures r in Read(table, model, tenantId, asked) <==>
                       r in table && Matches(r, asked) && Column(r, "tenantId") == Text(tenantId)
    {
      ReadReturnsExactly(table, model, tenantId, asked, r);
    }
  }

  /** or the live rows of all, as a client without a tenant also sees them. */
  lemma PlainReadSeesLiveRows(table: set<Row>, model: string, tenantId: string, asked: Where)
    requires || model in {"PlatformAdmin", "PlatformUser", "Tenant"}
             || (tenantId == ""
                 && model in {"Product", "Category", "Supplier", "SalesOrder", "PurchaseOrder", "TenantUser"})
    requires !Names(asked, "deletedAt")
    ensures Read(table, model, tenantId, asked)
         == set r | r in table && Matches(r, asked) && Column(r, "deletedAt") == Null
  {
    forall r ensures r in Read(table, model, tenantId, asked) <==>
                       r in table && Matches(r, asked) && Column(r, "deletedAt") == Null
    {
      ReadReturnsExactly(table, model, tenantId, asked, r);
    }
  }

  /** And with no filter at all: every row of the table that is live and the tenant's is read, and no other. */
  lemma EmptyFilterSeesOwnLiveRows(table: set<Row>, tenantId: string)
    requires tenantId != ""
    ensures Read(table, "SalesOrder", tenantId, EVERYTHING)
         == set r | r in table && Column(r, "deletedAt") == Null && Column(r, "tenantId") == Text(tenantId)
    ensures Read(table, "SalesReturn", tenantId, EVERYTHING)
         == set r | r in table && Column(r, "tenantId") == Text(tenantId)
  {
    PlainReadSeesOwnLiveRows(table, "SalesOrder", tenantId, EVERYTHING);
    PlainReadSeesOwnRows(table, "SalesReturn", tenantId, EVERYTHING);
  }

  /** A caller that names the tenant itself is taken at its word: the client's tenant then plays no part. */
  lemma NamedTenantIsKept(table: set<Row>, model: string, tenantId: string, asked: Where)
    requires IsTenantModel(model) && Names(asked, "tenantId")
    ensures Read(table, model, tenantId, asked) == Read(table, model, "", asked)
  {
  }

  /** Applying the read filters twice is applying them once. */
  lemma ReadFilterIsIdempotent(model: string, tenantId: string, asked: Where)
    ensures ReadFilter(model, tenantId, ReadFilter(model, tenantId, asked)) == ReadFilter(model, tenantId, asked)
  {
  }
}
