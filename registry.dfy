/**
 * The block registry: `sql_params['funcs']`, a dictionary from block name
 * to a metadata dictionary. Each metadata dictionary is modelled as a
 * record with one optional field per key the compiler ever writes; an
 * absent key is `None`.
 */
module Registry {
  import opened Wrappers

  /** The exceptions the compiler and its generators raise. */
  datatype Error =
    | KeyError(key: string)              // a dictionary lookup of a missing key
    | AttributeError(attr: string)       // `None.update(...)` and the like
    | SyntaxError(expected: string)      // the token stream's TemplateSyntaxError
    | OutOfScope(name: string, owner: string)          // a conditional called directly
    | NotProperCondition(cond: string, owner: string)  // a conditional passed to a foreign block
    | RenderError(detail: string)        // raised inside the template engine or a guard filter

  /**
   * One block's metadata. `note` is doubly optional because the key is
   * written with the value None when the block declared no note.
   */
  datatype Entry = Entry(
    rawSql: Option<string>,
    sql: Option<string>,
    note: Option<Option<string>>,
    isCond: Option<bool>,
    condFor: Option<string>,
    conds: Option<seq<string>>)

  type Funcs = map<string, Entry>

  /** The entry registration writes: a dictionary holding only `raw_sql`. */
  function OnlyRaw(raw: string): Entry {
    Entry(Some(raw), None, None, None, None, None)
  }

  /** Python truthiness of a metadata dictionary: false iff it has no key. */
  predicate IsEmpty(e: Entry) {
    e.rawSql.None? && e.sql.None? && e.note.None? && e.isCond.None?
    && e.condFor.None? && e.conds.None?
  }

  /** `setdefault('conds', [])`, read as a list. */
  function CondsOf(e: Entry): seq<string> {
    e.conds.GetOr([])
  }
}
