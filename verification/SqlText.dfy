/** The text of the statements, and a lexer that reads it back. */
module SqlText {
  import opened Options
  import opened Catalog

  // ----- quoting -----

  /** strings.ReplaceAll(s, q, qq) */
  function Doubled(s: string, q: char): string {
    if s == [] then [] else (if s[0] == q then [q, q] else [s[0]]) + Doubled(s[1..], q)
  }

  function Identifier(name: string): string { "\"" + Doubled(name, '"') + "\"" }
  function QuotedSQLValue(value: string): string { "'" + Doubled(value, '\'') + "'" }

  /** What follows an opening quote, up to the quote that closes it (a doubled one does not), and the rest. */
  function ReadQuoted(s: string, q: char): Option<(string, string)>
    decreases |s|
  {
    if s == [] then None
    else if s[0] != q then
      match ReadQuoted(s[1..], q)
      case None => None
      case Some(r) => Some(([s[0]] + r.0, r.1))
    else if |s| > 1 && s[1] == q then
      match ReadQuoted(s[2..], q)
      case None => None
      case Some(r) => Some(([q] + r.0, r.1))
    else Some(([], s[1..]))
  }

  /** Whatever a name or value contains, quoting it and reading it back gives it again, and stops where it ended. */
  lemma {:induction false} QuotedReadsBack(s: string, q: char, rest: string)
    requires rest == [] || rest[0] != q
    ensures ReadQuoted(Doubled(s, q) + [q] + rest, q) == Some((s, rest))
    decreases |s|
  {
    var text := Doubled(s, q) + [q] + rest;
    if s == [] {
      assert text == [q] + rest;
    } else {
      var tail := Doubled(s[1..], q) + [q] + rest;
      QuotedReadsBack(s[1..], q, rest);
      if s[0] == q {
        assert text == [q, q] + tail;
      } else {
        assert text == [s[0]] + tail;
      }
      assert s == [s[0]] + s[1..];
    }
  }

  // ----- tokens -----

  datatype Token = Word(text: string) | Name(text: string) | Value(text: string) | Comma

  /** A word is a key word or a plain identifier: a letter or an underscore, then letters, digits and underscores. */
  predicate WordStart(c: char) { 'a' <= c <= 'z' || 'A' <= c <= 'Z' || c == '_' }
  predicate WordChar(c: char) { WordStart(c) || '0' <= c <= '9' }
  predicate PlainWord(w: string) { |w| > 0 && WordStart(w[0]) && forall i :: 0 <= i < |w| ==> WordChar(w[i]) }

  function Show(t: Token): string {
    match t
    case Word(w) => w
    case Name(n) => Identifier(n)
    case Value(v) => QuotedSQLValue(v)
    case Comma => ","
  }

  /** The tokens with a blank between them, but none in front of a comma. */
  function Text(ts: seq<Token>): string {
    if ts == [] then ""
    else if |ts| == 1 then Show(ts[0])
    else Show(ts[0]) + ((if ts[1].Comma? then "" else " ") + Text(ts[1..]))
  }

  /** The leading run of word characters. */
  function WordPart(s: string): (w: string)
    ensures |w| <= |s| && w == s[..|w|]
  {
    if s == [] || !WordChar(s[0]) then [] else [s[0]] + WordPart(s[1..])
  }

  lemma {:induction false} WordPartOf(w: string, rest: string)
    requires (forall i :: 0 <= i < |w| ==> WordChar(w[i])) && (rest == [] || !WordChar(rest[0]))
    ensures WordPart(w + rest) == w
    decreases |w|
  {
    if w == [] {
      assert w + rest == rest;
    } else {
      WordPartOf(w[1..], rest);
      assert (w + rest)[1..] == w[1..] + rest;
    }
  }

  lemma ReadQuotedShrinks(s: string, q: char)
    ensures match ReadQuoted(s, q) case None => true case Some(r) => |r.1| < |s|
  {
  }

  /**
   Blanks separate; a double quote starts a delimited identifier, a single quote a string constant.
   Anything else but a word or a comma, such as a semicolon, an operator or a comment, is not read.
   */
  function Lex(s: string): Option<seq<Token>>
    decreases |s|
  {
    if s == [] then Some([])
    else if s[0] == ' ' then Lex(s[1..])
    else if s[0] == '"' || s[0] == '\'' then
      ReadQuotedShrinks(s[1..], s[0]);
      match ReadQuoted(s[1..], s[0])
      case None => None
      case Some(r) => Push(if s[0] == '"' then Name(r.0) else Value(r.0), Lex(r.1))
    else if s[0] == ',' then Push(Comma, Lex(s[1..]))
    else if !WordStart(s[0]) then None
    else Push(Word(WordPart(s)), Lex(s[|WordPart(s)|..]))
  }

  function Push(t: Token, ts: Option<seq<Token>>): Option<seq<Token>> {
    match ts
    case None => None
    case Some(r) => Some([t] + r)
  }

  ghost predicate Plain(ts: seq<Token>) { forall i :: 0 <= i < |ts| && ts[i].Word? ==> PlainWord(ts[i].text) }

  /** Where a token may end. */
  predicate Separated(rest: string) { rest == [] || rest[0] == ' ' || rest[0] == ',' }

  lemma LexWord(w: string, rest: string)
    requires PlainWord(w) && Separated(rest)
    ensures Lex(w + rest) == Push(Word(w), Lex(rest))
  {
    var s := w + rest;
    WordPartOf(w, rest);
    assert WordChar(s[0]);
    assert s[|w|..] == rest;
  }

  lemma LexQuoted(text: string, q: char, rest: string)
    requires (q == '"' || q == '\'') && Separated(rest)
    ensures Lex([q] + Doubled(text, q) + [q] + rest) == Push(if q == '"' then Name(text) else Value(text), Lex(rest))
  {
    var s := [q] + Doubled(text, q) + [q] + rest;
    QuotedReadsBack(text, q, rest);
    assert s[1..] == Doubled(text, q) + [q] + rest;
  }

  lemma LexComma(rest: string)
    ensures Lex("," + rest) == Push(Comma, Lex(rest))
  {
    assert ("," + rest)[1..] == rest;
  }

  /** One token in front of nothing, a blank or a comma. */
  lemma LexOne(t: Token, rest: string)
    requires (t.Word? ==> PlainWord(t.text)) && Separated(rest)
    ensures Lex(Show(t) + rest) == Push(t, Lex(rest))
  {
    hide Lex;
    match t
    case Word(w) => LexWord(w, rest);
    case Name(n) => LexQuoted(n, '"', rest);
    case Value(v) => LexQuoted(v, '\'', rest);
    case Comma => LexComma(rest);
  }

  lemma CommaFirst(ts: seq<Token>)
    requires ts != [] && ts[0].Comma?
    ensures Text(ts) != [] && Text(ts)[0] == ','
  {
  }

  /** Any printed list of tokens lexes back to itself, whatever the names and values contain. */
  lemma {:induction false} LexText(ts: seq<Token>)
    requires Plain(ts)
    ensures Lex(Text(ts)) == Some(ts)
    decreases |ts|
  {
    hide Lex, Show, PlainWord, Text;
    if |ts| == 0 {
      LexNothing();
    } else {
      LexText(ts[1..]);
      LexFirst(ts);
    }
  }

  lemma LexNothing()
    ensures Lex(Text([])) == Some([])
  {
  }

  lemma LexFirst(ts: seq<Token>)
    requires ts != [] && (ts[0].Word? ==> PlainWord(ts[0].text)) && Lex(Text(ts[1..])) == Some(ts[1..])
    ensures Lex(Text(ts)) == Some(ts)
  {
    hide Lex, Show, PlainWord, Text;
    if |ts| == 1 {
      LexLast(ts[0]);
      TextOfOne(ts[0]);
      assert ts == [ts[0]];
    } else {
      GapLexes(ts[1..]);
      LexOne(ts[0], (if ts[1].Comma? then "" else " ") + Text(ts[1..]));
      TextStep(ts);
      assert ts == [ts[0]] + ts[1..];
    }
  }

  lemma TextOfOne(t: Token)
    ensures Text([t]) == Show(t)
  {
    hide Show;
  }

  lemma LexLast(t: Token)
    requires t.Word? ==> PlainWord(t.text)
    ensures Lex(Show(t)) == Some([t])
  {
    hide Show, PlainWord;
    LexOne(t, "");
    assert Show(t) + "" == Show(t) && [t] + [] == [t];
  }

  lemma TextStep(ts: seq<Token>)
    requires |ts| > 1
    ensures Text(ts) == Show(ts[0]) + ((if ts[1].Comma? then "" else " ") + Text(ts[1..]))
  {
    hide Show;
  }

  lemma GapLexes(ts: seq<Token>)
    requires ts != []
    ensures var rest := (if ts[0].Comma? then "" else " ") + Text(ts);
      Separated(rest) && Lex(rest) == Lex(Text(ts))
  {
    if ts[0].Comma? {
      CommaFirst(ts);
      assert "" + Text(ts) == Text(ts);
    } else {
      hide Text;
      assert (" " + Text(ts))[1..] == Text(ts);
    }
  }

  // ----- the statements -----

  function Words(words: seq<string>): (ts: seq<Token>)
    ensures |ts| == |words| && forall i :: 0 <= i < |ts| ==> ts[i] == Word(words[i])
  {
    seq(|words|, i requires 0 <= i < |words| => Word(words[i]))
  }

  /** `expiry` renders a point in time. */
  function RoleTokens(r: string, a: RoleAlter, expiry: int -> string): seq<Token> {
    match a
    case SetOption(opt) => Words(["ALTER", "ROLE"]) + [Name(r)] + Words(["WITH", opt])
    case SetValidUntil(until) =>
      Words(["ALTER", "ROLE"]) + [Name(r)] + Words(["VALID", "UNTIL"]) +
          [Value(if until.At? then expiry(until.micros) else "infinity")]
    case SetPassword(text) => Words(["ALTER", "ROLE"]) + [Name(r)] + Words(["WITH", "ENCRYPTED", "PASSWORD"]) +
        [Value(text)]
    case ResetPassword => Words(["ALTER", "USER"]) + [Name(r)] + Words(["WITH", "PASSWORD", "NULL"])
  }

  function PrivilegeTokens(ps: set<Privilege>): seq<Token> {
    if ps == {Select} then [Word("SELECT")]
    else [Word("SELECT"), Comma, Word("INSERT"), Comma, Word("UPDATE"), Comma, Word("DELETE"), Comma, Word("TRUNCATE")]
  }

  function GrantOn(ts: seq<Token>, sc: string, grantee: string): seq<Token> {
    [Word("GRANT")] + ts + [Word("ON"), Word("ALL"), Word("TABLES"), Word("IN"), Word("SCHEMA"), Name(sc), Word("TO"),
      Name(grantee)]
  }

  function DbTokens(d: string, s: DbStmt): seq<Token> {
    match s
    case AlterOwner(owner) => Words(["ALTER", "DATABASE"]) + [Name(d)] + Words(["OWNER", "TO"]) + [Name(owner)]
    case CreateSchema(sc) => Words(["CREATE", "SCHEMA"]) + [Name(sc)]
    case DropSchema(sc) => Words(["DROP", "SCHEMA"]) + [Name(sc)]
    case AlterSchemaOwner(sc, owner) => Words(["ALTER", "SCHEMA"]) + [Name(sc)] + Words(["OWNER", "TO"]) + [Name(owner)]
    case CreateExtension(e, sc, v) =>
      Words(["CREATE", "EXTENSION", "IF", "NOT", "EXISTS"]) + [Name(e)]
      + (if sc == "" then [] else [Word("SCHEMA"), Name(sc)])
      + (if v == "" then [] else [Word("VERSION"), Name(v)])
    case DropExtension(e) => Words(["DROP", "EXTENSION", "IF", "EXISTS"]) + [Name(e)]
    case AlterExtensionSchema(e, sc) => Words(["ALTER", "EXTENSION"]) + [Name(e)] + Words(["SET", "SCHEMA"]) +
        [Name(sc)]
    case AlterExtensionVersion(e, v) => Words(["ALTER", "EXTENSION"]) + [Name(e)] + Words(["UPDATE", "TO"]) + [Value(v)]
    case GrantTables(sc, grantee, ps) =>
      GrantOn(PrivilegeTokens(ps), sc, grantee)
  }

  /** The tokens of a statement; slot calls pass their name as a parameter and print none. */
  function Tokens(s: Stmt, expiry: int -> string): seq<Token> {
    match s
    case CreateRole(r) => Words(["CREATE", "ROLE"]) + [Name(r)]
    case AlterRole(r, a) => RoleTokens(r, a, expiry)
    case GrantRole(granted, grantee) => [Word("GRANT"), Name(granted), Word("TO"), Name(grantee)]
    case CreateDatabase(d) => Words(["CREATE", "DATABASE"]) + [Name(d)]
    case InDatabase(d, ds) => DbTokens(d, ds)
    case CreateSlot(_) => Words(["SELECT", "pg_create_physical_replication_slot($1)"])
    case DropDatabase(d) => Words(["DROP", "DATABASE"]) + [Name(d)]
    case RevokeRole(granted, grantee) => [Word("REVOKE"), Name(granted), Word("FROM"), Name(grantee)]
    case ReassignOwned(_, r, to) => Words(["REASSIGN", "OWNED", "BY"]) + [Name(r), Word("TO"), Name(to)]
    case DropRole(r) => Words(["DROP", "ROLE"]) + [Name(r)]
    case DropSlot(_) => Words(["SELECT", "pg_drop_replication_slot($1)"])
  }

  function Print(s: Stmt, expiry: int -> string): string { Text(Tokens(s, expiry)) }

  // ----- and back -----

  /** Token i is this keyword. */
  predicate At(ts: seq<Token>, i: nat, w: string) { i < |ts| && ts[i] == Word(w) }

  predicate NamedAt(ts: seq<Token>, i: nat) { i < |ts| && ts[i].Name? }
  predicate ValueAt(ts: seq<Token>, i: nat) { i < |ts| && ts[i].Value? }
  predicate CommaAt(ts: seq<Token>, i: nat) { i < |ts| && ts[i].Comma? }

  function ReadAlterRole(ts: seq<Token>, readTime: string -> int): Option<Stmt> {
    if !NamedAt(ts, 2) then None
    else if At(ts, 1, "USER") then
      if |ts| == 6 && At(ts, 3, "WITH") && At(ts, 4, "PASSWORD") && At(ts, 5, "NULL") then
        Some(AlterRole(ts[2].text, ResetPassword))
      else None
    else if !At(ts, 1, "ROLE") then None
    else if |ts| == 6 && At(ts, 3, "VALID") && At(ts, 4, "UNTIL") && ValueAt(ts, 5) then
      Some(AlterRole(ts[2].text,
          SetValidUntil(if ts[5].text == "infinity" then Infinity else Expiry.At(readTime(ts[5].text)))))
    else if |ts| == 5 && At(ts, 3, "WITH") && ts[4].Word? then Some(AlterRole(ts[2].text, SetOption(ts[4].text)))
    else if |ts| == 7 && At(ts, 3, "WITH") && At(ts, 4, "ENCRYPTED") && At(ts, 5, "PASSWORD") && ValueAt(ts, 6) then
      Some(AlterRole(ts[2].text, SetPassword(ts[6].text)))
    else None
  }

  function ReadAlterOther(ts: seq<Token>, db: string): Option<Stmt> {
    if |ts| != 6 || !NamedAt(ts, 2) then None
    else if At(ts, 3, "OWNER") && At(ts, 4, "TO") && NamedAt(ts, 5) then
      if At(ts, 1, "DATABASE") then Some(InDatabase(ts[2].text, AlterOwner(ts[5].text)))
      else if At(ts, 1, "SCHEMA") then Some(InDatabase(db, AlterSchemaOwner(ts[2].text, ts[5].text)))
      else None
    else if !At(ts, 1, "EXTENSION") then None
    else if At(ts, 3, "SET") && At(ts, 4, "SCHEMA") && NamedAt(ts, 5) then
      Some(InDatabase(db, AlterExtensionSchema(ts[2].text, ts[5].text)))
    else if At(ts, 3, "UPDATE") && At(ts, 4, "TO") && ValueAt(ts, 5) then
      Some(InDatabase(db, AlterExtensionVersion(ts[2].text, ts[5].text)))
    else None
  }

  function ReadCreateExtension(ts: seq<Token>, db: string): Option<Stmt> {
    if !At(ts, 2, "IF") || !At(ts, 3, "NOT") || !At(ts, 4, "EXISTS") || !NamedAt(ts, 5) then None
    else if |ts| == 6 then Some(InDatabase(db, CreateExtension(ts[5].text, "", "")))
    else if !NamedAt(ts, 7) then None
    else if |ts| == 8 && At(ts, 6, "SCHEMA") then
      Some(InDatabase(db, CreateExtension(ts[5].text, ts[7].text, "")))
    else if |ts| == 8 && At(ts, 6, "VERSION") then Some(InDatabase(db, CreateExtension(ts[5].text, "", ts[7].text)))
    else if |ts| == 10 && At(ts, 6, "SCHEMA") && At(ts, 8, "VERSION") && NamedAt(ts, 9) then
      Some(InDatabase(db, CreateExtension(ts[5].text, ts[7].text, ts[9].text)))
    else None
  }

  function ReadCreate(ts: seq<Token>, db: string): Option<Stmt> {
    if At(ts, 1, "EXTENSION") then ReadCreateExtension(ts, db)
    else if |ts| != 3 || !NamedAt(ts, 2) then None
    else if At(ts, 1, "ROLE") then Some(CreateRole(ts[2].text))
    else if At(ts, 1, "DATABASE") then Some(CreateDatabase(ts[2].text))
    else if At(ts, 1, "SCHEMA") then Some(InDatabase(db, CreateSchema(ts[2].text)))
    else None
  }

  function ReadDrop(ts: seq<Token>, db: string): Option<Stmt> {
    if At(ts, 1, "EXTENSION") then
      if |ts| == 5 && At(ts, 2, "IF") && At(ts, 3, "EXISTS") && NamedAt(ts, 4) then
        Some(InDatabase(db, DropExtension(ts[4].text)))
      else None
    else if |ts| != 3 || !NamedAt(ts, 2) then None
    else if At(ts, 1, "ROLE") then Some(DropRole(ts[2].text))
    else if At(ts, 1, "DATABASE") then Some(DropDatabase(ts[2].text))
    else if At(ts, 1, "SCHEMA") then Some(InDatabase(db, DropSchema(ts[2].text)))
    else None
  }

  /** From token i on: ON ALL TABLES IN SCHEMA, a name, TO, a name, and nothing more. */
  predicate OnAllTables(ts: seq<Token>, i: nat) {
    && |ts| == i + 8 && At(ts, i, "ON") && At(ts, i + 1, "ALL") && At(ts, i + 2, "TABLES") && At(ts, i + 3, "IN")
    && At(ts, i + 4, "SCHEMA") && NamedAt(ts, i + 5) && At(ts, i + 6, "TO") && NamedAt(ts, i + 7)
  }

  function ReadGrant(ts: seq<Token>, db: string): Option<Stmt> {
    if |ts| == 4 && NamedAt(ts, 1) && At(ts, 2, "TO") && NamedAt(ts, 3) then Some(GrantRole(ts[1].text, ts[3].text))
    else if !At(ts, 1, "SELECT") then None
    else if OnAllTables(ts, 2) then Some(InDatabase(db, GrantTables(ts[7].text, ts[9].text, {Select})))
    else if CommaAt(ts, 2) && At(ts, 3, "INSERT") && CommaAt(ts, 4) && At(ts, 5, "UPDATE") && CommaAt(ts, 6)
        && At(ts, 7, "DELETE") && CommaAt(ts, 8) && At(ts, 9, "TRUNCATE") && OnAllTables(ts, 10) then
      Some(InDatabase(db, GrantTables(ts[15].text, ts[17].text, {Select, Insert, Update, Delete, Truncate})))
    else None
  }

  /** The statement a list of tokens stands for, on a connection to this database; every token counts. */
  function Read(ts: seq<Token>, db: string, readTime: string -> int): Option<Stmt> {
    if At(ts, 0, "ALTER") then
      if At(ts, 1, "ROLE") || At(ts, 1, "USER") then ReadAlterRole(ts, readTime) else ReadAlterOther(ts, db)
    else if At(ts, 0, "CREATE") then ReadCreate(ts, db)
    else if At(ts, 0, "DROP") then ReadDrop(ts, db)
    else if At(ts, 0, "GRANT") then ReadGrant(ts, db)
    else if |ts| == 4 && At(ts, 0, "REVOKE") && NamedAt(ts, 1) && At(ts, 2, "FROM") && NamedAt(ts, 3) then
      Some(RevokeRole(ts[1].text, ts[3].text))
    else if |ts| == 6 && At(ts, 0, "REASSIGN") && At(ts, 1, "OWNED") && At(ts, 2, "BY") && NamedAt(ts, 3)
        && At(ts, 4, "TO") && NamedAt(ts, 5) then
      Some(ReassignOwned(db, ts[3].text, ts[5].text))
    else None
  }

  /** Statements as the reconciler issues them on a connection to db. */
  predicate Issued(s: Stmt, db: string) {
    match s
    case AlterRole(_, SetValidUntil(until)) => until != Never
    case AlterRole(_, SetOption(opt)) => PlainWord(opt)
    case InDatabase(d, AlterOwner(_)) => true
    case InDatabase(d, GrantTables(_, _, ps)) =>
      d == db && (ps == {Select} || ps == {Select, Insert, Update, Delete, Truncate})
    case InDatabase(d, _) => d == db
    case ReassignOwned(d, _, _) => d == db
    case CreateSlot(_) => false
    case DropSlot(_) => false
    case _ => true
  }

  lemma ReadAlterRoleTokens(r: string, a: RoleAlter, db: string, expiry: int -> string, readTime: string -> int)
    requires Issued(AlterRole(r, a), db)
    requires a.SetValidUntil? && a.until.At? ==>
      expiry(a.until.micros) != "infinity" && readTime(expiry(a.until.micros)) == a.until.micros
    ensures Read(Tokens(AlterRole(r, a), expiry), db, readTime) == Some(AlterRole(r, a))
  {
  }

  lemma ReadSchemaTokens(d: string, s: DbStmt, db: string, expiry: int -> string, readTime: string -> int)
    requires Issued(InDatabase(d, s), db)
    requires s.AlterOwner? || s.CreateSchema? || s.DropSchema? || s.AlterSchemaOwner?
    ensures Read(Tokens(InDatabase(d, s), expiry), db, readTime) == Some(InDatabase(d, s))
  {
  }

  lemma ReadGrantTokens(d: string, s: DbStmt, db: string, expiry: int -> string, readTime: string -> int)
    requires Issued(InDatabase(d, s), db) && s.GrantTables?
    ensures Read(Tokens(InDatabase(d, s), expiry), db, readTime) == Some(InDatabase(d, s))
  {
    var ts := PrivilegeTokens(s.privileges);
    if s.privileges == {Select} {
      ReadSelect(ts, s.schema, s.grantee, db);
    } else {
      ReadAllFive(ts, s.schema, s.grantee, db);
    }
    hide ReadGrant;
  }

  lemma ReadSelect(ts: seq<Token>, sc: string, grantee: string, db: string)
    requires ts == [Word("SELECT")]
    ensures ReadGrant(GrantOn(ts, sc, grantee), db) == Some(InDatabase(db, GrantTables(sc, grantee, {Select})))
  {
  }

  lemma ReadAllFive(ts: seq<Token>, sc: string, grantee: string, db: string)
    requires ts == [Word("SELECT"), Comma, Word("INSERT"), Comma, Word("UPDATE"), Comma, Word("DELETE"), Comma,
      Word("TRUNCATE")]
    ensures ReadGrant(GrantOn(ts, sc, grantee), db)
        == Some(InDatabase(db, GrantTables(sc, grantee, {Select, Insert, Update, Delete, Truncate})))
  {
  }

  lemma ReadExtensionTokens(d: string, s: DbStmt, db: string, expiry: int -> string, readTime: string -> int)
    requires Issued(InDatabase(d, s), db)
    requires s.CreateExtension? || s.DropExtension? || s.AlterExtensionSchema? || s.AlterExtensionVersion?
    ensures Read(Tokens(InDatabase(d, s), expiry), db, readTime) == Some(InDatabase(d, s))
  {
  }

  lemma ReadTokens(s: Stmt, db: string, expiry: int -> string, readTime: string -> int)
    requires Issued(s, db)
    requires s.AlterRole? && s.alter.SetValidUntil? && s.alter.until.At? ==>
      expiry(s.alter.until.micros) != "infinity" && readTime(expiry(s.alter.until.micros)) == s.alter.until.micros
    ensures Read(Tokens(s, expiry), db, readTime) == Some(s)
  {
    match s
    case AlterRole(r, a) => ReadAlterRoleTokens(r, a, db, expiry, readTime);
    case InDatabase(d, ds) =>
      if ds.CreateExtension? || ds.DropExtension? || ds.AlterExtensionSchema? || ds.AlterExtensionVersion? {
        ReadExtensionTokens(d, ds, db, expiry, readTime);
      } else if ds.GrantTables? {
        ReadGrantTokens(d, ds, db, expiry, readTime);
      } else {
        ReadSchemaTokens(d, ds, db, expiry, readTime);
      }
    case _ =>
  }

  /** The keywords the statements are made of. */
  const KEYWORDS: set<string> := {
    "ALTER", "ROLE", "WITH", "VALID", "UNTIL", "ENCRYPTED", "PASSWORD", "USER", "NULL", "DATABASE", "OWNER", "TO",
    "CREATE", "SCHEMA", "DROP", "EXTENSION", "IF", "NOT", "EXISTS", "VERSION", "SET", "UPDATE", "GRANT", "ON", "ALL",
    "TABLES", "IN", "SELECT", "INSERT", "DELETE", "TRUNCATE", "REVOKE", "FROM", "REASSIGN", "OWNED", "BY"}

  lemma KeywordsArePlain(w: string)
    requires w in KEYWORDS
    ensures PlainWord(w)
  {
  }

  /** Every word among the tokens is a keyword, or the one extra word. */
  ghost predicate Vocabulary(ts: seq<Token>, extra: string) {
    forall i :: 0 <= i < |ts| && ts[i].Word? ==> ts[i].text in KEYWORDS || ts[i].text == extra
  }

  lemma RoleVocabulary(r: string, a: RoleAlter, expiry: int -> string)
    ensures Vocabulary(RoleTokens(r, a, expiry), if a.SetOption? then a.opt else "ROLE")
  {
  }

  lemma DbVocabulary(d: string, s: DbStmt)
    ensures Vocabulary(DbTokens(d, s), "ROLE")
  {
    if s.GrantTables? {
      GrantTablesVocabulary(s.schema, s.grantee, s.privileges);
    } else if s.CreateExtension? {
      CreateExtensionVocabulary(s.ext, s.schema, s.version);
    } else {
      PlainDbVocabulary(d, s);
    }
  }

  lemma PlainDbVocabulary(d: string, s: DbStmt)
    requires !s.GrantTables? && !s.CreateExtension?
    ensures Vocabulary(DbTokens(d, s), "ROLE")
  {
  }

  lemma CreateExtensionVocabulary(e: string, sc: string, v: string)
    ensures Vocabulary(DbTokens("", CreateExtension(e, sc, v)), "ROLE")
  {
  }

  lemma GrantTablesVocabulary(sc: string, grantee: string, ps: set<Privilege>)
    ensures Vocabulary(DbTokens("", GrantTables(sc, grantee, ps)), "ROLE")
  {
    GrantVocabulary(ps);
    hide PrivilegeTokens;
  }

  lemma GrantVocabulary(ps: set<Privilege>)
    ensures forall i :: 0 <= i < |PrivilegeTokens(ps)| && PrivilegeTokens(ps)[i].Word? ==>
      PrivilegeTokens(ps)[i].text in KEYWORDS
  {
  }

  lemma VocabularyIsPlain(ts: seq<Token>, extra: string)
    requires Vocabulary(ts, extra) && PlainWord(extra)
    ensures Plain(ts)
  {
    forall i | 0 <= i < |ts| && ts[i].Word? ensures PlainWord(ts[i].text) {
      if ts[i].text in KEYWORDS { KeywordsArePlain(ts[i].text); }
    }
  }

  lemma TokensArePlain(s: Stmt, db: string, expiry: int -> string)
    requires Issued(s, db)
    ensures Plain(Tokens(s, expiry))
  {
    hide PlainWord, Vocabulary;
    KeywordsArePlain("ROLE");
    match s
    case AlterRole(r, a) =>
      RoleVocabulary(r, a, expiry);
      VocabularyIsPlain(Tokens(s, expiry), if a.SetOption? then a.opt else "ROLE");
    case InDatabase(d, ds) =>
      DbVocabulary(d, ds);
      VocabularyIsPlain(Tokens(s, expiry), "ROLE");
    case _ =>
      OtherVocabulary(s, db, expiry);
      VocabularyIsPlain(Tokens(s, expiry), "ROLE");
  }

  lemma OtherVocabulary(s: Stmt, db: string, expiry: int -> string)
    requires Issued(s, db) && !s.AlterRole? && !s.InDatabase?
    ensures Vocabulary(Tokens(s, expiry), "ROLE")
  {
  }

  /**
   Whatever names and values it contains, a printed statement lexes, and what it lexes to stands for
   that statement and no other. Only a role option goes into the text unquoted.
   */
  lemma PrintReadsBack(s: Stmt, db: string, expiry: int -> string, readTime: string -> int)
    requires Issued(s, db)
    requires s.AlterRole? && s.alter.SetValidUntil? && s.alter.until.At? ==>
      expiry(s.alter.until.micros) != "infinity" && readTime(expiry(s.alter.until.micros)) == s.alter.until.micros
    ensures var ts := Lex(Print(s, expiry));
      ts.Some? && Read(ts.value, db, readTime) == Some(s)
  {
    hide Lex, Read, Tokens, Text, Plain;
    TokensArePlain(s, db, expiry);
    LexText(Tokens(s, expiry));
    ReadTokens(s, db, expiry, readTime);
  }

  lemma {:induction false} WordPartIsPlain(s: string)
    ensures forall i :: 0 <= i < |WordPart(s)| ==> WordChar(WordPart(s)[i])
    ensures s != [] && WordStart(s[0]) ==> PlainWord(WordPart(s))
    decreases |s|
  {
    if s != [] && WordChar(s[0]) { WordPartIsPlain(s[1..]); }
  }

  /** Words that were read are plain, whatever the text. */
  lemma {:induction false} LexedIsPlain(s: string)
    requires Lex(s).Some?
    ensures Plain(Lex(s).value)
    decreases |s|
  {
    if s == [] {
    } else if s[0] == ' ' || s[0] == ',' {
      LexedIsPlain(s[1..]);
    } else if s[0] == '"' || s[0] == '\'' {
      ReadQuotedShrinks(s[1..], s[0]);
      LexedIsPlain(ReadQuoted(s[1..], s[0]).value.1);
    } else {
      WordPartIsPlain(s);
      LexedIsPlain(s[|WordPart(s)|..]);
    }
  }

  /** The one place where text goes in unquoted: an option is read back if and only if it is a single word. */
  lemma OptionReadsBackIff(r: string, opt: string, db: string, expiry: int -> string, readTime: string -> int)
    ensures var s := AlterRole(r, SetOption(opt));
      (Lex(Print(s, expiry)).Some? && Read(Lex(Print(s, expiry)).value, db, readTime) == Some(s)) <==> PlainWord(opt)
  {
    var s := AlterRole(r, SetOption(opt));
    if PlainWord(opt) {
      PrintReadsBack(s, db, expiry, readTime);
    }
    hide PlainWord, Lex, Print;
    if Lex(Print(s, expiry)).Some? && Read(Lex(Print(s, expiry)).value, db, readTime) == Some(s) {
      LexedIsPlain(Print(s, expiry));
      ReadOptionIsWord(Lex(Print(s, expiry)).value, db, readTime, s);
    }
  }

  lemma ReadOptionIsWord(ts: seq<Token>, db: string, readTime: string -> int, s: Stmt)
    requires Plain(ts) && Read(ts, db, readTime) == Some(s) && s.AlterRole? && s.alter.SetOption?
    ensures PlainWord(s.alter.opt)
  {
    hide PlainWord;
    assert |ts| == 5 && ts[4].Word? && ts[4].text == s.alter.opt;
  }
}
