/** Printing connection parameters, and reading them back as a keyword/value connection string. */
module Dsn {
  import opened Options
  import opened Servers

  type Params = map<string, string>

  // ----- values -----

  /** strings.ReplaceAll(s, "'", "\'") */
  function Escaped(s: string): string {
    if s == [] then [] else (if s[0] == '\'' then ['\\', '\''] else [s[0]]) + Escaped(s[1..])
  }

  function ConnectStringValue(value: string): string { "'" + Escaped(value) + "'" }

  /** What follows an opening quote: a backslash takes the next character as it is, a quote ends the value. */
  function ReadValue(s: string): Option<(string, string)>
    decreases |s|
  {
    if s == [] then None
    else if s[0] == '\'' then Some(([], s[1..]))
    else if s[0] == '\\' then
      if |s| == 1 then None
      else
        match ReadValue(s[2..])
        case None => None
        case Some(r) => Some(([s[1]] + r.0, r.1))
    else
      match ReadValue(s[1..])
      case None => None
      case Some(r) => Some(([s[0]] + r.0, r.1))
  }

  lemma {:induction false} ValueReadsBack(v: string, rest: string)
    requires '\\' !in v
    ensures ReadValue(Escaped(v) + "'" + rest) == Some((v, rest))
    decreases |v|
  {
    if v == [] {
      assert Escaped(v) + "'" + rest == "'" + rest;
    } else {
      var tail := Escaped(v[1..]) + "'" + rest;
      ValueReadsBack(v[1..], rest);
      assert v == [v[0]] + v[1..];
      if v[0] == '\'' {
        assert Escaped(v) + "'" + rest == ['\\', '\''] + tail;
      } else {
        assert Escaped(v) + "'" + rest == [v[0]] + tail;
      }
    }
  }

  /** c in front of what is read from the rest. */
  function Then(c: char, r: Option<(string, string)>): Option<(string, string)> {
    match r
    case None => None
    case Some(x) => Some(([c] + x.0, x.1))
  }

  lemma ReadEscape(c: char, rest: string)
    ensures ReadValue(['\\', c] + rest) == Then(c, ReadValue(rest))
  {
    assert (['\\', c] + rest)[2..] == rest;
  }

  lemma ReadEnd(rest: string)
    ensures ReadValue(['\''] + rest) == Some(([], rest))
  {
    assert (['\''] + rest)[1..] == rest;
  }

  lemma EscapedStep(v: string)
    requires |v| > 0
    ensures v[0] != '\'' ==> Escaped(v) == [v[0]] + Escaped(v[1..])
    ensures v[0] == '\'' ==> Escaped(v) == ['\\', '\''] + Escaped(v[1..])
  {
  }

  /** A backslash in a value takes the next printed character, be it the value's own, an escape or the closing quote. */
  lemma BackslashTakesNext(v: string)
    requires |v| > 0 && v[0] == '\\'
    ensures |v| == 1 ==> ReadValue(Escaped(v) + "'") == None
    ensures |v| > 1 && v[1] == '\'' ==> ReadValue(Escaped(v) + "'") == Some((['\\'], Escaped(v[2..]) + "'"))
    ensures |v| > 1 && v[1] != '\'' ==> ReadValue(Escaped(v) + "'") == Then(v[1], ReadValue(Escaped(v[2..]) + "'"))
  {
    if |v| == 1 {
      BackslashAtEnd(v);
    } else {
      BackslashInside(v);
    }
  }

  lemma BackslashAtEnd(v: string)
    requires v == ['\\']
    ensures ReadValue(Escaped(v) + "'") == None
  {
    EscapedStep(v);
    assert v[1..] == [];
    assert Escaped(v) + "'" == ['\\', '\''] + [];
    ReadEscape('\'', []);
  }

  lemma BackslashInside(v: string)
    requires |v| > 1 && v[0] == '\\'
    ensures v[1] == '\'' ==> ReadValue(Escaped(v) + "'") == Some((['\\'], Escaped(v[2..]) + "'"))
    ensures v[1] != '\'' ==> ReadValue(Escaped(v) + "'") == Then(v[1], ReadValue(Escaped(v[2..]) + "'"))
  {
    hide ReadValue, Escaped;
    EscapedStep(v);
    EscapedStep(v[1..]);
    assert v[1..][1..] == v[2..];
    var text, tail := Escaped(v) + "'", Escaped(v[2..]) + "'";
    if v[1] == '\'' {
      assert text == ['\\', '\\'] + (['\''] + tail);
      ReadEscape('\\', ['\''] + tail);
      ReadEnd(tail);
      assert ['\\'] + "" == ['\\'];
    } else {
      assert text == ['\\', v[1]] + tail;
      ReadEscape(v[1], tail);
    }
  }

  /** Any other character is read as it is. */
  lemma OtherIsTaken(v: string)
    requires |v| > 0 && v[0] != '\\'
    ensures ReadValue(Escaped(v) + "'") == Then(v[0], ReadValue(Escaped(v[1..]) + "'"))
  {
    var text, tail := Escaped(v) + "'", Escaped(v[1..]) + "'";
    if v[0] == '\'' {
      assert text == ['\\', '\''] + tail;
      assert text[2..] == tail;
    } else {
      assert text == [v[0]] + tail;
      assert text[1..] == tail;
    }
  }

  /** Reading a printed value never gives more characters than were printed from. */
  lemma {:induction false} ReadIsNoLonger(v: string)
    ensures match ReadValue(Escaped(v) + "'") case None => true case Some(r) => |r.0| <= |v|
    decreases |v|
  {
    hide ReadValue;
    if v == [] {
      ValueReadsBack("", "");
      assert Escaped("") + "'" + "" == Escaped(v) + "'";
    } else if v[0] == '\\' {
      BackslashTakesNext(v);
      if |v| > 1 { ReadIsNoLonger(v[2..]); }
    } else {
      OtherIsTaken(v);
      ReadIsNoLonger(v[1..]);
    }
  }

  /** A value is read back exactly when it holds no backslash: backslashes are printed as they are. */
  lemma {:induction false} ValueReadsBackIff(v: string)
    ensures ReadValue(Escaped(v) + "'") == Some((v, [])) <==> '\\' !in v
    decreases |v|
  {
    hide ReadValue, Escaped;
    if '\\' !in v {
      ValueReadsBack(v, []);
      assert Escaped(v) + "'" + [] == Escaped(v) + "'";
    } else if v[0] == '\\' {
      BackslashTakesNext(v);
      if |v| > 1 { ReadIsNoLonger(v[2..]); }
    } else {
      OtherIsTaken(v);
      ValueReadsBackIff(v[1..]);
      assert v == [v[0]] + v[1..];
    }
  }

  // ----- the whole string -----

  /** A keyword as libpq takes it: no blank, equals sign, quote or backslash. */
  predicate BareWord(k: string) {
    |k| > 0 && forall i :: 0 <= i < |k| ==> k[i] != ' ' && k[i] != '=' && k[i] != '\'' && k[i] != '\\'
  }

  function Pair(k: string, v: string): string { k + "=" + ConnectStringValue(v) }

  /** strings.Join(pairs, " ") */
  function Join(pairs: seq<string>): string {
    if pairs == [] then "" else if |pairs| == 1 then pairs[0] else pairs[0] + " " + Join(pairs[1..])
  }

  function Pairs(keys: seq<string>, dsn: Params): (r: seq<string>)
    requires forall k :: k in keys ==> k in dsn
    ensures |r| == |keys| && forall i :: 0 <= i < |r| ==> r[i] == Pair(keys[i], dsn[keys[i]])
  {
    seq(|keys|, i requires 0 <= i < |keys| => Pair(keys[i], dsn[keys[i]]))
  }

  /** The pairs in this order, joined by blanks. */
  function Printed(keys: seq<string>, dsn: Params): string
    requires forall k :: k in keys ==> k in dsn
  {
    Join(Pairs(keys, dsn))
  }

  function SkipBlanks(s: string): (r: string)
    ensures |r| <= |s|
  {
    if s != [] && s[0] == ' ' then SkipBlanks(s[1..]) else s
  }

  /** The text up to a blank or an equals sign. */
  function Keyword(s: string): (k: string)
    ensures |k| <= |s| && k == s[..|k|]
  {
    if s == [] || s[0] == ' ' || s[0] == '=' then [] else [s[0]] + Keyword(s[1..])
  }

  /** An unquoted value ends at a blank; a backslash takes the next character as it is. */
  function ReadBare(s: string): (r: (string, string))
    ensures |r.1| <= |s|
    decreases |s|
  {
    if s == [] || s[0] == ' ' then ([], s)
    else if s[0] == '\\' && |s| > 1 then var r := ReadBare(s[2..]); ([s[1]] + r.0, r.1)
    else if s[0] == '\\' then ([], [])
    else var r := ReadBare(s[1..]); ([s[0]] + r.0, r.1)
  }

  lemma ReadValueShrinks(s: string)
    ensures match ReadValue(s) case None => true case Some(r) => |r.1| < |s|
  {
  }

  /** Section 34.1.1.1 of the PostgreSQL 16 manual; a later setting of a keyword replaces an earlier one. */
  function Parse(s: string, settings: Params): Option<Params>
    decreases |s|
  {
    var t := SkipBlanks(s);
    if t == [] then Some(settings)
    else
      var k := Keyword(t);
      var afterKey := SkipBlanks(t[|k|..]);
      if afterKey == [] || afterKey[0] != '=' then None
      else
        var v := SkipBlanks(afterKey[1..]);
        if v != [] && v[0] == '\'' then
          ReadValueShrinks(v[1..]);
          match ReadValue(v[1..])
          case None => None
          case Some(r) => Parse(r.1, settings[k := r.0])
        else
          var r := ReadBare(v);
          Parse(r.1, settings[k := r.0])
  }

  lemma {:induction false} KeywordOf(k: string, rest: string)
    requires (forall i :: 0 <= i < |k| ==> k[i] != ' ' && k[i] != '=') && rest != [] && rest[0] == '='
    ensures Keyword(k + rest) == k
    decreases |k|
  {
    if k == [] {
      assert k + rest == rest;
    } else {
      KeywordOf(k[1..], rest);
      assert (k + rest)[1..] == k[1..] + rest;
    }
  }

  /** One printed pair in front of anything. */
  lemma ParsePair(k: string, v: string, rest: string, settings: Params)
    requires BareWord(k) && '\\' !in v
    ensures Parse(Pair(k, v) + rest, settings) == Parse(rest, settings[k := v])
  {
    hide Parse, ReadValue, Escaped, BareWord;
    var tail := Escaped(v) + "'" + rest;
    assert Pair(k, v) + rest == k + ("=" + ("'" + tail));
    ParseQuoted(k, tail, settings);
    ValueReadsBack(v, rest);
  }

  lemma ParseQuoted(k: string, tail: string, settings: Params)
    requires BareWord(k)
    ensures Parse(k + ("=" + ("'" + tail)), settings) == match ReadValue(tail)
                                                         case None => None
                                                         case Some(r) => Parse(r.1, settings[k := r.0])
  {
    hide ReadValue, ReadBare, Keyword;
    var s := k + ("=" + ("'" + tail));
    KeywordOf(k, "=" + ("'" + tail));
    assert s[|k|..] == "=" + ("'" + tail);
    assert (s[|k|..])[1..] == "'" + tail;
    assert ("'" + tail)[1..] == tail;
  }

  ghost predicate Clean(dsn: Params) {
    forall k :: k in dsn ==> BareWord(k) && '\\' !in dsn[k]
  }

  function Restricted(dsn: Params, keys: seq<string>): Params { map k | k in dsn && k in keys :: dsn[k] }

  lemma RestrictedStep(dsn: Params, keys: seq<string>, settings: Params)
    requires keys != [] && keys[0] in dsn
    ensures settings[keys[0] := dsn[keys[0]]] + Restricted(dsn, keys[1..]) == settings + Restricted(dsn, keys)
  {
    assert keys == [keys[0]] + keys[1..];
  }

  lemma NothingParses(dsn: Params, settings: Params)
    ensures Printed([], dsn) == "" && Parse("", settings) == Some(settings + Restricted(dsn, []))
  {
    assert settings + Restricted(dsn, []) == settings;
  }

  lemma PrintedStep(keys: seq<string>, dsn: Params)
    requires keys != [] && forall k :: k in keys ==> k in dsn
    ensures Printed(keys, dsn) == Pair(keys[0], dsn[keys[0]])
                                  + if |keys| == 1 then "" else " " + Printed(keys[1..], dsn)
  {
    hide Pair;
    var pairs := Pairs(keys, dsn);
    assert pairs[1..] == Pairs(keys[1..], dsn);
    if |keys| == 1 {
      assert pairs[0] + "" == pairs[0];
    } else {
      assert pairs[0] + " " + Join(pairs[1..]) == pairs[0] + (" " + Join(pairs[1..]));
    }
  }

  /** Bare keywords and values without backslashes come back, whatever the order of printing. */
  lemma {:induction false} PrintedParses(keys: seq<string>, dsn: Params, settings: Params)
    requires Clean(dsn) && forall k :: k in keys ==> k in dsn
    ensures Parse(Printed(keys, dsn), settings) == Some(settings + Restricted(dsn, keys))
    decreases |keys|
  {
    hide Parse, Restricted, Pair, BareWord, Printed;
    if keys == [] {
      NothingParses(dsn, settings);
    } else {
      var k := keys[0];
      var more := settings[k := dsn[k]];
      PrintedStep(keys, dsn);
      PrintedParses(keys[1..], dsn, more);
      RestrictedStep(dsn, keys, settings);
      var tail := Printed(keys[1..], dsn);
      if |keys| == 1 {
        ParsePair(k, dsn[k], "", settings);
        assert keys[1..] == [];
        NothingParses(dsn, more);
      } else {
        ParsePair(k, dsn[k], " " + tail, settings);
        ParseSkipsBlank(tail, more);
      }
    }
  }

  lemma ParseSkipsBlank(s: string, settings: Params)
    ensures Parse(" " + s, settings) == Parse(s, settings)
  {
    assert (" " + s)[1..] == s;
  }

  // ----- sorted keys -----

  predicate Less(a: string, b: string) {
    if b == [] then false
    else if a == [] then true
    else if a[0] != b[0] then a[0] < b[0]
    else Less(a[1..], b[1..])
  }

  /** Equal up to some index, where a ends and b does not, or a has the smaller character. */
  ghost predicate DiffersFirst(a: string, b: string, i: nat) {
    && i <= |a| && i < |b| && a[..i] == b[..i]
    && (i < |a| ==> a[i] < b[i])
  }

  /** The order of keys is the byte order of strings. */
  lemma {:induction false} LessIff(a: string, b: string)
    ensures Less(a, b) <==> exists i: nat :: DiffersFirst(a, b, i)
    decreases |a|
  {
    if a != [] && b != [] && a[0] == b[0] {
      LessIff(a[1..], b[1..]);
      forall i: nat | DiffersFirst(a[1..], b[1..], i) ensures DiffersFirst(a, b, i + 1) {
        assert a[..i + 1] == [a[0]] + a[1..][..i] && b[..i + 1] == [b[0]] + b[1..][..i];
      }
      forall i: nat | DiffersFirst(a, b, i) ensures i > 0 && DiffersFirst(a[1..], b[1..], i - 1) {
        assert a[1..][..i - 1] == a[..i][1..] && b[1..][..i - 1] == b[..i][1..];
      }
    } else if b != [] {
      if a == [] || a[0] < b[0] {
        assert DiffersFirst(a, b, 0);
      } else {
        forall i: nat ensures !DiffersFirst(a, b, i) {
          if 0 < i <= |a| && i < |b| { assert a[..i][0] == a[0] && b[..i][0] == b[0]; }
        }
      }
    }
  }

  lemma LessTotal(a: string, b: string)
    ensures a == b || Less(a, b) || Less(b, a)
    ensures !(Less(a, b) && Less(b, a)) && !Less(a, a)
  {
    if a != [] && b != [] && a[0] == b[0] {
      LessTotal(a[1..], b[1..]);
      assert a == [a[0]] + a[1..] && b == [b[0]] + b[1..];
    }
  }

  lemma LessTransitive(a: string, b: string, c: string)
    requires Less(a, b) && Less(b, c)
    ensures Less(a, c)
  {
  }

  ghost predicate Sorted(keys: seq<string>) {
    forall i, j :: 0 <= i < j < |keys| ==> Less(keys[i], keys[j])
  }

  lemma HeadIsLeast(keys: seq<string>, k: string)
    requires Sorted(keys) && keys != [] && k in keys
    ensures k == keys[0] || Less(keys[0], k)
    ensures Sorted(keys[1..]) && keys[0] !in keys[1..] && (k in keys[1..] <==> k != keys[0])
  {
    LessTotal(keys[0], keys[0]);
    var i :| 0 <= i < |keys| && keys[i] == k;
    assert i > 0 ==> keys[1..][i - 1] == k;
  }

  /** A set of keys has one sorted listing, so the printed text depends on the map alone. */
  lemma {:induction false} SortedListingIsUnique(a: seq<string>, b: seq<string>)
    requires Sorted(a) && Sorted(b) && forall k :: k in a <==> k in b
    ensures a == b
    decreases |a|
  {
    hide Sorted, Less;
    if a != [] && b != [] {
      assert a[0] in b && b[0] in a;
      HeadIsLeast(a, b[0]);
      HeadIsLeast(b, a[0]);
      LessTotal(a[0], b[0]);
      forall k | k in a ensures k in a[1..] <==> k in b[1..] {
        HeadIsLeast(a, k);
        HeadIsLeast(b, k);
      }
      SortedListingIsUnique(a[1..], b[1..]);
      assert a == [a[0]] + a[1..] && b == [b[0]] + b[1..];
    } else {
      EmptyTogether(a, b);
      EmptyTogether(b, a);
    }
  }

  lemma EmptyTogether(a: seq<string>, b: seq<string>)
    requires forall k :: k in a <==> k in b
    ensures |b| > 0 ==> |a| > 0
  {
    if |b| > 0 {
      assert b[0] in a;
    }
  }

  /** slices.Sorted */
  method SortKeys(keys: set<string>) returns (sorted: seq<string>)
    ensures Sorted(sorted) && forall k :: k in sorted <==> k in keys
  {
    hide Less;
    var order := InSomeOrder(keys);
    sorted := [];
    for i := 0 to |order|
      invariant Sorted(sorted) && forall k :: k in sorted <==> k in order[..i]
    {
      assert order[i] !in order[..i];
      sorted := InsertKey(sorted, order[i]);
      assert order[..i + 1] == order[..i] + [order[i]];
    }
    assert order[..|order|] == order;
  }

  method InsertKey(keys: seq<string>, k: string) returns (r: seq<string>)
    requires Sorted(keys) && k !in keys
    ensures Sorted(r) && forall x :: x in r <==> x in keys || x == k
  {
    hide Less;
    var at := 0;
    while at < |keys| && Less(keys[at], k)
      invariant 0 <= at <= |keys| && forall i :: 0 <= i < at ==> Less(keys[i], k)
    {
      at := at + 1;
    }
    forall i | at <= i < |keys| ensures Less(k, keys[i]) {
      LessTotal(keys[at], k);
      if i > at { LessTransitive(k, keys[at], keys[i]); }
    }
    r := keys[..at] + [k] + keys[at..];
    forall x ensures x in r <==> x in keys || x == k {
      assert keys == keys[..at] + keys[at..];
    }
  }

  /** The connection string: the pairs by sorted key, joined by blanks. */
  method ConnectionString(dsn: Params) returns (text: string, ghost keys: seq<string>)
    ensures Sorted(keys) && (forall k :: k in keys <==> k in dsn) && text == Printed(keys, dsn)
    ensures Clean(dsn) ==> Parse(text, map[]) == Some(dsn)
  {
    hide Sorted, Parse;
    var sorted := SortKeys(dsn.Keys);
    keys := sorted;
    var pairs := [];
    for i := 0 to |sorted|
      invariant pairs == Pairs(sorted, dsn)[..i]
    {
      pairs := pairs + [Pair(sorted[i], dsn[sorted[i]])];
    }
    assert pairs == Pairs(sorted, dsn);
    text := Join(pairs);
    if Clean(dsn) {
      PrintedParses(sorted, dsn, map[]);
      assert map[] + Restricted(dsn, sorted) == dsn;
    }
  }

  /** Printing is a function of the map. */
  lemma TextIsDetermined(dsn: Params, a: seq<string>, b: seq<string>)
    requires Sorted(a) && Sorted(b) && (forall k :: k in a <==> k in dsn) && (forall k :: k in b <==> k in dsn)
    ensures Printed(a, dsn) == Printed(b, dsn)
  {
    SortedListingIsUnique(a, b);
  }
}
