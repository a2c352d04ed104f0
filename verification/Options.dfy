/**
 Role options as they travel through the program: a configuration word, the condition it is checked
 with, and the keyword it is altered with.
 */
module Options {
  datatype Option<+T> = None | Some(value: T)

  /** A role option is free text in the source; only `Validate` restricts it. */
  type RoleOption = string

  const LOGIN: RoleOption := "LOGIN"
  const CREATEDB: RoleOption := "CREATEDB"

  /** The boolean columns of pg_roles that an option can talk about. */
  datatype Column = IsSuper | CanLogin | CanCreateRole | CanCreateDb | Inherits | Replicates | BypassesRls

  /** What a condition or a keyword says: this column is on, or off. */
  datatype Meaning = Meaning(column: Column, on: bool)

  const NORMAL_OPTIONS: set<RoleOption> :=
    {"SUPERUSER", "LOGIN", "CREATEROLE", "CREATEDB", "INHERIT", "REPLICATION", "BYPASSRLS"}
  const INVERTED_OPTIONS: set<RoleOption> :=
    {"NOSUPERUSER", "NOLOGIN", "NOCREATEROLE", "NOCREATEDB", "NOINHERIT", "NOREPLICATION", "NOBYPASSRLS"}

  predicate Validate(opt: RoleOption) { opt in NORMAL_OPTIONS || opt in INVERTED_OPTIONS }

  predicate Enabled(opt: RoleOption) { !("NO" <= opt) }

  function Absolute(opt: RoleOption): RoleOption {
    if "NO" <= opt then opt[2..] else opt
  }

  function Invert(opt: RoleOption): RoleOption {
    if "NO" <= opt then opt[2..] else "NO" + opt
  }

  function LowerChar(c: char): char {
    if 'A' <= c <= 'Z' then c - 'A' + 'a' else c
  }

  function Lower(s: string): (l: string)
    ensures |l| == |s| && forall i :: 0 <= i < |s| ==> l[i] == LowerChar(s[i])
  {
    seq(|s|, i requires 0 <= i < |s| => LowerChar(s[i]))
  }

  /** The condition the reconciler puts after "rolname = $1 AND". */
  function SQL(opt: RoleOption): string
    decreases |opt|
  {
    if Enabled(opt) then
      if opt == "SUPERUSER" then "rolsuper"
      else if opt == "LOGIN" then "rolcanlogin"
      else "rol" + Lower(opt)
    else "not " + SQL(Invert(opt))
  }

  // ----- the server's side -----

  function ColumnNamed(text: string): Option<Column> {
    if text == "rolsuper" then Some(IsSuper)
    else if text == "rolcanlogin" then Some(CanLogin)
    else if text == "rolcreaterole" then Some(CanCreateRole)
    else if text == "rolcreatedb" then Some(CanCreateDb)
    else if text == "rolinherit" then Some(Inherits)
    else if text == "rolreplication" then Some(Replicates)
    else if text == "rolbypassrls" then Some(BypassesRls)
    else None
  }

  /** How the server reads a condition; None is a query error. */
  function Condition(sql: string): Option<Meaning>
    decreases |sql|
  {
    if "not " <= sql then
      match Condition(sql[4..])
      case None => None
      case Some(m) => Some(Meaning(m.column, !m.on))
    else
      match ColumnNamed(sql)
      case None => None
      case Some(c) => Some(Meaning(c, true))
  }

  function Keyword(word: string): Option<Column> {
    if word == "superuser" then Some(IsSuper)
    else if word == "login" then Some(CanLogin)
    else if word == "createrole" then Some(CanCreateRole)
    else if word == "createdb" then Some(CanCreateDb)
    else if word == "inherit" then Some(Inherits)
    else if word == "replication" then Some(Replicates)
    else if word == "bypassrls" then Some(BypassesRls)
    else None
  }

  /** How the server reads ALTER ROLE ... WITH opt (keywords are case-insensitive); None is a syntax error. */
  function Altered(opt: RoleOption): Option<Meaning> {
    var word := Lower(opt);
    match Keyword(word)
    case Some(c) => Some(Meaning(c, true))
    case None =>
      if "no" <= word then
        match Keyword(word[2..])
        case Some(c) => Some(Meaning(c, false))
        case None => None
      else None
  }

  /** What the reconciler checks for an option. */
  function Checked(opt: RoleOption): Option<Meaning> { Condition(SQL(opt)) }

  // ----- properties -----

  lemma ConditionOfColumn(text: string)
    requires !("not " <= text)
    ensures Condition(text) == match ColumnNamed(text) case None => None case Some(c) => Some(Meaning(c, true))
  {
  }

  /** A check on an option without a NO prefix reads one column, wanted on. */
  lemma CheckedEnabled(opt: RoleOption)
    requires Enabled(opt)
    ensures Checked(opt) == match ColumnNamed(SQL(opt)) case None => None case Some(c) => Some(Meaning(c, true))
  {
    assert SQL(opt)[0] == 'r';
    ConditionOfColumn(SQL(opt));
  }

  /** A check on a NO option is the negated check of the option without NO. */
  lemma CheckedInverted(opt: RoleOption)
    requires !Enabled(opt)
    ensures Checked(opt) == match Checked(Invert(opt)) case None => None case Some(m) => Some(Meaning(m.column, !m.on))
  {
    var rest := SQL(Invert(opt));
    assert SQL(opt) == "not " + rest;
    assert SQL(opt)[4..] == rest;
  }

  /** Among the words with a column of their own name, no keyword gets a column other than its own. */
  lemma KeywordColumn(word: string)
    requires ColumnNamed("rol" + word).Some?
    ensures Keyword(word).Some? ==> Keyword(word) == ColumnNamed("rol" + word)
    ensures !("no" <= word)
  {
    var text := "rol" + word;
    assert word == text[3..];
    if text == "rolsuper" {
      assert word[0] == 's';
      assert |word| == 5;
    } else if text == "rolcanlogin" {
      assert word == "canlogin";
      assert word[0] == 'c';
    } else if text == "rolcreaterole" {
      assert word == "createrole";
      assert word[0] == 'c';
    } else if text == "rolcreatedb" {
      assert word == "createdb";
      assert word[0] == 'c';
    } else if text == "rolinherit" {
      assert word == "inherit";
      assert word[0] == 'i';
    } else if text == "rolreplication" {
      assert word == "replication";
      assert word[0] == 'r';
    } else {
      assert word == "bypassrls";
      assert word[0] == 'b';
    }
  }

  lemma KeywordStart(word: string)
    ensures Keyword(word).Some? ==> |word| > 0 && word[0] != 'n'
  {
  }

  lemma LowerNo(opt: RoleOption)
    ensures !Enabled(opt) ==>
      |opt| >= 2 && "no" <= Lower(opt) && Lower(opt)[0] == 'n' && Lower(opt)[2..] == Lower(opt[2..])
  {
    if !Enabled(opt) {
      assert opt[0] == 'N' && opt[1] == 'O';
    }
  }

  lemma AlterSatisfiesEnabledCheck(opt: RoleOption)
    requires Enabled(opt) && Checked(opt).Some? && Altered(opt).Some?
    ensures Checked(opt) == Altered(opt)
  {
    CheckedEnabled(opt);
    var word := Lower(opt);
    if opt == "SUPERUSER" {
      assert word == "superuser";
    } else if opt == "LOGIN" {
      assert word == "login";
    } else {
      KeywordColumn(word);
    }
  }

  /**
   Whatever text an option is: if the server accepts it both as a check and as an ALTER keyword, the
   ALTER sets exactly what the check looks for.
   */
  lemma AlterSatisfiesCheck(opt: RoleOption)
    requires Checked(opt).Some? && Altered(opt).Some?
    ensures Checked(opt) == Altered(opt)
  {
    if Enabled(opt) {
      AlterSatisfiesEnabledCheck(opt);
    } else {
      var rest := Invert(opt);
      CheckedInverted(opt);
      var word := Lower(opt);
      assert word[0] == 'n' && word[1] == 'o';
      assert "no" <= word;
      assert word[2..] == Lower(rest);
      assert Keyword(word) == None;
      assert Keyword(Lower(rest)).Some?;
      KeywordStart(Lower(rest));
      LowerNo(rest);
      AlterSatisfiesEnabledCheck(rest);
    }
  }

  /** An option spelled `word` in lower case that has a column of its own name is checked on that column. */
  lemma Spelling(opt: RoleOption, word: string)
    requires |opt| == |word| && forall i :: 0 <= i < |opt| ==> LowerChar(opt[i]) == word[i]
    requires Keyword(word).Some?
    requires opt != "SUPERUSER" && opt != "LOGIN" ==> ColumnNamed("rol" + word) == Keyword(word)
    ensures Keyword(Lower(opt)) == Keyword(word)
    ensures Enabled(opt) && (opt != "SUPERUSER" && opt != "LOGIN" ==> ColumnNamed(SQL(opt)) == Keyword(word))
  {
    assert Lower(opt) == word;
    LowerNo(opt);
    KeywordStart(word);
  }

  /** The lower-case spelling of the option is a keyword, and the check reads that keyword's column. */
  predicate WellSpelled(opt: RoleOption) {
    Enabled(opt) && Keyword(Lower(opt)).Some? && ColumnNamed(SQL(opt)) == Keyword(Lower(opt))
  }

  lemma SpelledSuperuser()
    ensures WellSpelled("SUPERUSER")
  {
    Spelling("SUPERUSER", "superuser");
  }

  lemma SpelledLogin()
    ensures WellSpelled("LOGIN")
  {
    Spelling("LOGIN", "login");
  }

  lemma SpelledCreateRole()
    ensures WellSpelled("CREATEROLE")
  {
    assert "rol" + "createrole" == "rolcreaterole";
    Spelling("CREATEROLE", "createrole");
  }

  lemma SpelledCreateDb()
    ensures WellSpelled("CREATEDB")
  {
    assert "rol" + "createdb" == "rolcreatedb";
    Spelling("CREATEDB", "createdb");
  }

  lemma SpelledInherit()
    ensures WellSpelled("INHERIT")
  {
    assert "rol" + "inherit" == "rolinherit";
    Spelling("INHERIT", "inherit");
  }

  lemma SpelledReplication()
    ensures WellSpelled("REPLICATION")
  {
    assert "rol" + "replication" == "rolreplication";
    Spelling("REPLICATION", "replication");
  }

  lemma SpelledBypassRls()
    ensures WellSpelled("BYPASSRLS")
  {
    assert "rol" + "bypassrls" == "rolbypassrls";
    Spelling("BYPASSRLS", "bypassrls");
  }

  lemma NormalSpelling(opt: RoleOption)
    requires opt in NORMAL_OPTIONS
    ensures WellSpelled(opt)
  {
    SpelledSuperuser();
    SpelledLogin();
    SpelledCreateRole();
    SpelledCreateDb();
    SpelledInherit();
    SpelledReplication();
    SpelledBypassRls();
  }

  lemma NormalOption(opt: RoleOption)
    requires opt in NORMAL_OPTIONS
    ensures Enabled(opt) && Checked(opt).Some? && Checked(opt) == Altered(opt) && Checked(opt).value.on
  {
    NormalSpelling(opt);
    CheckedEnabled(opt);
  }

  lemma InvertedOption(opt: RoleOption)
    requires opt in INVERTED_OPTIONS
    ensures "NO" <= opt && opt[2..] in NORMAL_OPTIONS
  {
    assert "NO" + "SUPERUSER" == "NOSUPERUSER" && "NOSUPERUSER"[2..] == "SUPERUSER";
    assert "NOLOGIN"[2..] == "LOGIN";
    assert "NOCREATEROLE"[2..] == "CREATEROLE";
    assert "NOCREATEDB"[2..] == "CREATEDB";
    assert "NOINHERIT"[2..] == "INHERIT";
    assert "NOREPLICATION"[2..] == "REPLICATION";
    assert "NOBYPASSRLS"[2..] == "BYPASSRLS";
  }

  /**
   Every option that passes validation is understood both as a check and as a keyword, NO turns its
   column off, and stripping NO (`Absolute`) turns a demand for off into a demand for on.
   */
  lemma ValidOptions(opt: RoleOption)
    requires Validate(opt)
    ensures Checked(opt).Some? && Checked(opt) == Altered(opt)
    ensures Checked(opt).value.on == Enabled(opt)
    ensures Absolute(opt) in NORMAL_OPTIONS
    ensures Checked(Absolute(opt)) == Some(Meaning(Checked(opt).value.column, true))
  {
    if opt in INVERTED_OPTIONS {
      InvertedOption(opt);
      NormalOption(opt[2..]);
      NormalSpelling(opt[2..]);
      CheckedInverted(opt);
      LowerNo(opt);
      KeywordStart(Lower(opt));
    } else {
      NormalOption(opt);
    }
  }
}
