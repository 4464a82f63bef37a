/** The names that PostgreSQL takes for tables and columns when they are not quoted. */
module SqlNames {
  predicate Letter(c: char) {
    'a' <= c <= 'z' || c == '_'
  }

  predicate Digit(c: char) {
    '0' <= c <= '9'
  }

  /** Lower-case letters, digits and underscores, not more than an identifier keeps. */
  predicate Spelled(w: string) {
    0 < |w| <= 63 && forall i | 0 <= i < |w| :: Letter(w[i]) || Digit(w[i])
  }

  /** The key words marked as reserved in appendix C of the PostgreSQL documentation, also those that may name
      a function or type. */
  predicate Reserved(w: string) {
    w in {"all", "analyse", "analyze", "and", "any", "array", "as", "asc", "asymmetric", "authorization", "binary",
          "both", "case", "cast", "check", "collate", "collation", "column", "concurrently", "constraint", "create",
          "cross", "current_catalog", "current_date", "current_role", "current_schema", "current_time",
          "current_timestamp", "current_user", "default", "deferrable", "desc", "distinct", "do", "else", "end",
          "except", "false", "fetch", "for", "foreign", "freeze", "from", "full", "grant", "group", "having", "ilike",
          "in", "initially", "inner", "intersect", "into", "is", "isnull", "join", "lateral", "leading", "left", "like",
          "limit", "localtime", "localtimestamp", "natural", "not", "notnull", "null", "offset", "on", "only", "or",
          "order", "outer", "overlaps", "placing", "primary", "references", "returning", "right", "select",
          "session_user", "similar", "some", "symmetric", "table", "tablesample", "then", "to", "trailing", "true",
          "union", "unique", "user", "using", "variadic", "verbose", "when", "where", "window", "with"}
  }

  /** Where a value is expected these stand for one themselves, as a number does. */
  predicate TakenForValue(w: string) {
    (w != "" && Digit(w[0])) ||
    w in {"current_catalog", "current_date", "current_role", "current_schema", "current_time", "current_timestamp",
          "current_user", "false", "localtime", "localtimestamp", "null", "session_user", "true", "user"}
  }

  predicate Identifier(w: string) {
    Spelled(w) && !Digit(w[0])
  }

  predicate ColumnName(w: string) {
    Identifier(w) && !Reserved(w)
  }

  /** The parts of a name between its dots. */
  function Parts(w: string): (p: seq<string>)
    ensures p != []
  {
    if w == "" then [""]
    else
      var rest := Parts(w[1..]);
      if w[0] == '.' then [""] + rest else [[w[0]] + rest[0]] + rest[1..]
  }

  /** Database, schema and table, the first two optional; only the first part may not be a reserved word. */
  predicate TableName(w: string) {
    var parts := Parts(w);
    |parts| <= 3 && !Reserved(parts[0]) && forall i | 0 <= i < |parts| :: Identifier(parts[i])
  }
}
