/** The symbol table that interns symbolic atoms. In a value model a symbol is
    identified by its name, so interning is name equality plus the set of names
    the table already holds. */
module Symbols {
  import opened SExpressions

  type Table = set<string>

  /** `getFromTable`: the symbol named `name`, created and recorded on first use. */
  function GetFromTable(table: Table, name: string): (r: (SExpr, Table))
    ensures r.0 == Sym(name) && IsSymbol(r.0)
    ensures name in r.1 && r.1 == table + {name}
  {
    if name in table then (Sym(name), table) else (Sym(name), table + {name})
  }

  /** Asking twice for the same name gives the same node and leaves the table
      as the first request left it; two requests give the same node exactly
      when they ask for the same name. */
  lemma InterningIsIdentity(table: Table, a: string, b: string)
    ensures var (first, table') := GetFromTable(table, a);
            GetFromTable(table', a) == (first, table')
    ensures GetFromTable(table, a).0 == GetFromTable(table, b).0 <==> a == b
  {
  }
}
