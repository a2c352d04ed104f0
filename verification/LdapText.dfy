/** Recognising distinguished names, and the leaf name an id stands for. */
module LdapText {
  predicate IsLetter(c: char) { 'a' <= c <= 'z' || 'A' <= c <= 'Z' }
  predicate IsAlnum(c: char) { IsLetter(c) || '0' <= c <= '9' }
  predicate Letters(s: string) { |s| > 0 && forall i :: 0 <= i < |s| ==> IsLetter(s[i]) }
  predicate Alnums(s: string) { |s| > 0 && forall i :: 0 <= i < |s| ==> IsAlnum(s[i]) }

  /** The text before the first separator: strings.Split(s, sep)[0]. */
  function Before(s: string, sep: char): (b: string)
    ensures |b| <= |s| && b == s[..|b|] && sep !in b
    ensures sep in s ==> |b| < |s| && s[|b|] == sep
    ensures sep !in s ==> b == s
  {
    if s == [] then []
    else if s[0] == sep then []
    else [s[0]] + Before(s[1..], sep)
  }

  /** The text after the first separator; for a text with one separator, strings.Split(s, sep)[1]. */
  function After(s: string, sep: char): string
    requires sep in s
  {
    s[|Before(s, sep)| + 1..]
  }

  predicate ValidPair(s: string) {
    '=' in s && Letters(Before(s, '=')) && Alnums(After(s, '='))
  }

  predicate ValidDN(s: string)
    decreases |s|
  {
    if ',' in s then ValidPair(Before(s, ',')) && ValidDN(After(s, ',')) else ValidPair(s)
  }

  // ----- the regular expressions -----

  lemma {:induction false} BeforeSplit(a: string, sep: char, b: string)
    requires sep !in a
    ensures sep in a + [sep] + b
    ensures Before(a + [sep] + b, sep) == a && After(a + [sep] + b, sep) == b
    decreases |a|
  {
    var s := a + [sep] + b;
    assert s[|a|] == sep;
    if a != [] {
      BeforeSplit(a[1..], sep, b);
      assert s[1..] == a[1..] + [sep] + b;
    }
  }

  /** ^[a-zA-Z]+=[a-zA-Z0-9]+$ */
  lemma ValidPairIff(s: string)
    ensures ValidPair(s) <==> exists key, value :: Letters(key) && Alnums(value) && s == key + ['='] + value
  {
    if ValidPair(s) {
      assert s == Before(s, '=') + ['='] + After(s, '=');
    }
    if key, value :| Letters(key) && Alnums(value) && s == key + ['='] + value {
      assert '=' !in key;
      BeforeSplit(key, '=', value);
      assert s[|key|] == '=';
    }
  }

  function Joined(parts: seq<string>): string
    requires |parts| > 0
  {
    if |parts| == 1 then parts[0] else parts[0] + [','] + Joined(parts[1..])
  }

  ghost predicate AllPairs(parts: seq<string>) { forall i :: 0 <= i < |parts| ==> ValidPair(parts[i]) }

  lemma PairHasNoComma(s: string)
    requires ValidPair(s)
    ensures ',' !in s
  {
    assert s == Before(s, '=') + ['='] + After(s, '=');
  }

  /** ^([a-zA-Z]+=[a-zA-Z0-9]+,)*[a-zA-Z]+=[a-zA-Z0-9]+$ : one pair or more, joined by commas. */
  lemma {:induction false} ValidDNParts(s: string) returns (parts: seq<string>)
    requires ValidDN(s)
    ensures |parts| > 0 && AllPairs(parts) && s == Joined(parts) && parts[0] == Before(s, ',')
    decreases |s|
  {
    hide ValidPair, Before;
    if ',' in s {
      var rest := ValidDNParts(After(s, ','));
      parts := [Before(s, ',')] + rest;
      assert parts[1..] == rest;
      assert s == Before(s, ',') + [','] + After(s, ',');
    } else {
      parts := [s];
    }
  }

  lemma {:induction false} JoinedIsValid(parts: seq<string>)
    requires |parts| > 0 && AllPairs(parts)
    ensures ValidDN(Joined(parts))
    decreases |parts|
  {
    PairHasNoComma(parts[0]);
    if |parts| > 1 {
      JoinedIsValid(parts[1..]);
      BeforeSplit(parts[0], ',', Joined(parts[1..]));
      assert Joined(parts)[|parts[0]|] == ',';
    }
  }

  lemma ValidDNIff(s: string)
    ensures ValidDN(s) <==> exists parts :: |parts| > 0 && AllPairs(parts) && s == Joined(parts)
  {
    if ValidDN(s) {
      var parts := ValidDNParts(s);
    }
    if parts :| |parts| > 0 && AllPairs(parts) && s == Joined(parts) {
      JoinedIsValid(parts);
    }
  }

  // ----- the identity behind an id -----

  /** The leaf name: the value of a DN's first pair, or the id itself if it is no DN. */
  function LeafName(id: string): string {
    if ValidDN(id) then After(Before(id, ','), '=') else id
  }

  lemma FirstPair(id: string)
    requires ValidDN(id)
    ensures ValidPair(Before(id, ',')) && Before(id, ',') != "" && '=' in Before(id, ',')
  {
  }

  lemma PlainValue(value: string)
    requires Alnums(value)
    ensures value != "" && '=' !in value && ',' !in value
  {
  }

  lemma IdHasEquals(id: string)
    requires '=' !in id && ',' !in id
    ensures !ValidPair(id) && !ValidDN(id)
  {
    hide Letters, Alnums;
  }

  /** A leaf name is never mistaken for a pair or a DN, so its key in an index is its own. */
  lemma LeafNameIsPlain(id: string)
    requires id != ""
    ensures LeafName(id) != "" && !ValidDN(LeafName(id)) && !ValidPair(LeafName(id))
  {
    hide Letters, Alnums;
    if ValidDN(id) {
      FirstPair(id);
      PlainValue(LeafName(id));
      IdHasEquals(LeafName(id));
    } else if ValidPair(id) {
      PairHasNoComma(id);
    }
  }
}
