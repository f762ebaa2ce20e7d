/**
 * The `sql` block tag (`JinjaSQLExtension`) and the scratch state it and
 * the loader write (`environment.sql_params`): the header grammar, the
 * registration at parse time, and the metadata update at render time.
 */
module Extension {
  import opened Wrappers
  import opened Text
  import opened Registry

  /** The header tokens of `{% sql ... %}`, after the tag name. Expressions
      are string literals. */
  datatype Token = Str(value: string) | Name(id: string) | Comma | Assign | BlockEnd

  /** The one optional modifier a header may carry. */
  datatype Modifier = NoModifier | Note(text: string) | CondFor(owner: string)

  /** The arguments the tag passes to `_sql_process`: `func` and at most
      one of `note` and `cond_for`. */
  datatype Header = Header(name: string, modifier: Modifier)

  /** A header written out in the canonical way. */
  function Spelled(h: Header): seq<Token> {
    [Str(h.name)]
    + (match h.modifier
       case NoModifier => []
       case Note(t) => [Comma, Name("note"), Assign, Str(t)]
       case CondFor(o) => [Comma, Name("cond_for"), Assign, Str(o)])
    + [BlockEnd]
  }

  /** `parse_statements` first demands the end of the opening tag. */
  function AtBlockEnd(ts: seq<Token>, h: Header): Result<Header, Error> {
    if ts != [] && ts[0] == BlockEnd then Success(h)
    else Failure(SyntaxError("end of statement block"))
  }

  /**
   * The header grammar of `parse`: a name expression, then an optional
   * comma, then, if the next token is the name `note` or `cond_for`, an
   * `=` and an expression, then the end of the tag. Tokens after the end
   * of the tag (the body) are not looked at.
   */
  function ParseHeader(ts: seq<Token>): (r: Result<Header, Error>)
    ensures r.Success? ==>
              || Spelled(r.value) <= ts
              || (r.value.modifier.NoModifier? && [Str(r.value.name), Comma, BlockEnd] <= ts)
  {
    if ts == [] || !ts[0].Str? then Failure(SyntaxError("expression"))
    else
      var name := ts[0].value;
      if |ts| > 1 && ts[1] == Comma then
        var rest := ts[2..];
        if rest != [] && rest[0].Name? && rest[0].id in {"note", "cond_for"} then
          if |rest| < 2 || rest[1] != Assign then Failure(SyntaxError("assign"))
          else if |rest| < 3 || !rest[2].Str? then Failure(SyntaxError("expression"))
          else
            var m := if rest[0].id == "note" then Note(rest[2].value) else CondFor(rest[2].value);
            assert |ts| >= 6 && ts[5] == BlockEnd ==> Spelled(Header(name, m)) == ts[..6];
            AtBlockEnd(rest[3..], Header(name, m))
        else
          AtBlockEnd(rest, Header(name, NoModifier))
      else
        assert |ts| > 1 && ts[1] == BlockEnd ==> Spelled(Header(name, NoModifier)) == ts[..2];
        AtBlockEnd(ts[1..], Header(name, NoModifier))
  }

  /** Every header parses back from its spelling, whatever body follows. */
  lemma ParseSpelled(h: Header, body: seq<Token>)
    ensures ParseHeader(Spelled(h) + body) == Success(h)
  {
  }

  /** A lone comma before the end of the tag is skipped. */
  lemma TrailingComma(name: string, body: seq<Token>)
    ensures ParseHeader([Str(name), Comma, BlockEnd] + body) == Success(Header(name, NoModifier))
  {
  }

  /** A comma followed by anything other than `note`/`cond_for` is skipped
      only if the tag ends right there. */
  lemma StrayAfterComma(name: string, t: Token, body: seq<Token>)
    requires t != BlockEnd && !(t.Name? && t.id in {"note", "cond_for"})
    ensures ParseHeader([Str(name), Comma, t] + body) == Failure(SyntaxError("end of statement block"))
  {
    var ts := [Str(name), Comma, t] + body;
    assert ts[0] == Str(name) && ts[1] == Comma;
    assert ts[2..] == [t] + body;
  }

  /** `kwargs.get('note')` as `_sql_process` sees it. */
  function NoteOf(h: Header): Option<string> {
    if h.modifier.Note? then Some(h.modifier.text) else None
  }

  /**
   * `' '.join(raw_template[lineno:close_lineno - 1])`. `openLine` is the
   * 1-based line of the `sql` keyword token, and `closeLine` the line of
   * the `%}` that closes `{% endsql %}`, which is the current token once
   * the body is parsed. The result joins by spaces the stripped lines after
   * the `sql` keyword's line and before the `%}`'s line. An opening tag
   * spread over several lines therefore brings its later lines with it
   * (`{% sql 'a',` / `note = 'x' %}` / `SELECT 1` / `{% endsql %}` gives
   * `note = 'x' %} SELECT 1`). The result is empty when those two lines
   * are the same or adjacent.
   */
  function RawSql(lines: seq<string>, openLine: int, closeLine: int): (r: string)
    ensures 1 <= openLine < closeLine <= |lines| + 1 ==> r == Join(" ", lines[openLine..closeLine - 1])
    ensures 1 <= closeLine <= openLine + 1 ==> r == ""
  {
    var between := PySlice(lines, openLine, closeLine - 1);
    assert 1 <= openLine < closeLine <= |lines| + 1 ==> between == lines[openLine..closeLine - 1];
    Join(" ", between)
  }

  /** Registration: the block's entry becomes one holding only `raw_sql`;
      every other entry is kept. */
  function Registered(funcs: Option<Funcs>, name: string, raw: string): (r: Funcs)
    ensures r.Keys == funcs.GetOr(map[]).Keys + {name}
    ensures r[name] == OnlyRaw(raw)
    ensures forall k :: k in funcs.GetOr(map[]) && k != name ==> r[k] == funcs.GetOr(map[])[k]
  {
    funcs.GetOr(map[])[name := OnlyRaw(raw)]
  }

  /**
   * The `cond_for` link: when the owner is registered (with a non-empty
   * entry) its `conds` list grows by exactly one element, the owner's own
   * name as passed in `cond_for`; otherwise nothing changes.
   */
  function LinkCond(funcs: Funcs, owner: string): (r: Funcs)
    ensures r.Keys == funcs.Keys
    ensures forall k :: k in funcs && k != owner ==> r[k] == funcs[k]
    ensures owner !in funcs || IsEmpty(funcs[owner]) ==> r == funcs
    ensures owner in funcs && !IsEmpty(funcs[owner]) ==>
              && r[owner].(conds := None) == funcs[owner].(conds := None)
              && |CondsOf(r[owner])| == |CondsOf(funcs[owner])| + 1
              && CondsOf(r[owner])[..|CondsOf(funcs[owner])|] == CondsOf(funcs[owner])
              && CondsOf(r[owner])[|CondsOf(funcs[owner])|] == owner
  {
    if owner in funcs && !IsEmpty(funcs[owner]) then
      var e := funcs[owner];
      funcs[owner := e.(conds := Some(CondsOf(e) + [owner]))]
    else funcs
  }

  /** The link step as `_sql_process` runs it for header `h`. */
  function Linked(funcs: Funcs, h: Header): Funcs {
    if h.modifier.CondFor? then LinkCond(funcs, h.modifier.owner) else funcs
  }

  /**
   * `origin.update(...)` and the conditional `cond_for` write: `raw_sql`
   * and `conds` are kept, `sql`, `note` and `is_cond` are set, and
   * `cond_for` is set exactly when the header declared an owner (an
   * earlier `cond_for` key is otherwise left in place).
   */
  function Updated(e: Entry, sql: string, h: Header): (r: Entry)
    ensures r.rawSql == e.rawSql && r.conds == e.conds
    ensures r.sql == Some(sql) && r.note == Some(NoteOf(h))
    ensures r.isCond == Some(h.modifier.CondFor?)
    ensures r.isCond == Some(true) ==> r.condFor == Some(h.modifier.owner)
    ensures r.isCond == Some(false) ==> r.condFor == e.condFor
  {
    var isCond := h.modifier.CondFor?;
    var e1 := e.(sql := Some(sql), note := Some(NoteOf(h)), isCond := Some(isCond));
    if isCond then e1.(condFor := Some(h.modifier.owner)) else e1
  }

  /**
   * A block registered and then processed once: its entry holds the
   * source, the collapsed body, its note and flag, `cond_for` exactly
   * when it is conditional, and `conds` only if it names itself as owner.
   */
  lemma RegisterThenProcess(funcs: Option<Funcs>, h: Header, raw: string, body: string)
    ensures var m := Linked(Registered(funcs, h.name, raw), h);
            var e := Updated(m[h.name], Collapse(body), h);
            && e.rawSql == Some(raw)
            && e.sql.Some? && Collapsed(e.sql.value)
            && e.note == Some(NoteOf(h))
            && e.isCond == Some(h.modifier.CondFor?)
            && (e.condFor.Some? <==> e.isCond == Some(true))
            && e.conds == (if h.modifier == CondFor(h.name) then Some([h.name]) else None)
  {
  }

  /**
   * `environment.sql_params`: the stripped source lines of each loaded
   * template (`'raws'`) and the block registry (`'funcs'`); a key that was
   * never set is None.
   */
  class SqlParams {
    var raws: Option<map<string, seq<string>>>
    var funcs: Option<Funcs>

    /** `extend(sql_params={})` */
    constructor ()
      ensures raws == None && funcs == None
    {
      raws := None;
      funcs := None;
    }

    /** The line-stripping step of `RawFileSystemLoader.get_source`, given
        the template's lines. */
    method StoreSource(template: string, lines: seq<string>)
      modifies this
      ensures raws == Some(old(raws).GetOr(map[])[template := StripLines(lines)])
      ensures funcs == old(funcs)
    {
      raws := Some(raws.GetOr(map[])[template := StripLines(lines)]);
    }

    /**
     * `parse`: reads the header, then registers the block under its name
     * with the raw source of the lines between the tags.
     */
    method Parse(template: string, ts: seq<Token>, openLine: int, closeLine: int)
      returns (r: Result<Header, Error>)
      modifies this
      ensures raws == old(raws)
      ensures ParseHeader(ts).Failure? ==> r == ParseHeader(ts) && funcs == old(funcs)
      ensures ParseHeader(ts).Success? && old(raws).None? ==>
                r == Failure(KeyError("raws")) && funcs == old(funcs)
      ensures ParseHeader(ts).Success? && old(raws).Some? && template !in old(raws).value ==>
                r == Failure(KeyError(template)) && funcs == old(funcs)
      ensures ParseHeader(ts).Success? && old(raws).Some? && template in old(raws).value ==>
                && r == ParseHeader(ts)
                && funcs == Some(Registered(old(funcs), r.value.name,
                                            RawSql(old(raws).value[template], openLine, closeLine)))
    {
      var h :- ParseHeader(ts);
      if raws.None? {
        return Failure(KeyError("raws"));
      }
      if template !in raws.value {
        return Failure(KeyError(template));
      }
      var raw := RawSql(raws.value[template], openLine, closeLine);
      funcs := Some(Registered(funcs, h.name, raw));
      r := Success(h);
    }

    /**
     * `_sql_process`: collapses the rendered body, links a conditional to
     * its owner, then updates the block's own entry. Returns the collapsed
     * body. A block with no entry fails after the link is made.
     */
    method Process(h: Header, body: string) returns (r: Result<string, Error>)
      modifies this
      ensures raws == old(raws)
      ensures old(funcs).None? ==> r == Failure(KeyError("funcs")) && funcs == None
      ensures old(funcs).Some? && h.name !in Linked(old(funcs).value, h) ==>
                r == Failure(AttributeError("update")) && funcs == Some(Linked(old(funcs).value, h))
      ensures old(funcs).Some? && h.name in Linked(old(funcs).value, h) ==>
                var m := Linked(old(funcs).value, h);
                && r == Success(Collapse(body))
                && funcs == Some(m[h.name := Updated(m[h.name], Collapse(body), h)])
    {
      if funcs.None? {
        return Failure(KeyError("funcs"));
      }
      var sql := Collapse(body);
      if h.modifier.CondFor? {
        funcs := Some(LinkCond(funcs.value, h.modifier.owner));
      }
      var m := funcs.value;
      if h.name !in m {
        return Failure(AttributeError("update"));
      }
      funcs := Some(m[h.name := Updated(m[h.name], sql, h)]);
      r := Success(sql);
    }
  }
}
