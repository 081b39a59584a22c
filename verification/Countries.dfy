/** Country codes out of free text: an explicit code, a port code, a country's name, or an alias; otherwise nothing. */
module Countries {
  import opened Outcomes
  import opened Texts

  datatype Country = Country(code: string, name: string)

  /** Names and aliases are in lower case here, as they are compared. */
  datatype Table = Table(countries: seq<Country>, aliases: seq<Country>)

  const COUNTRIES := [
    Country("TZ", "tanzania"), Country("KE", "kenya"), Country("UG", "uganda"), Country("RW", "rwanda"),
    Country("BI", "burundi"), Country("CD", "dr congo"), Country("ZM", "zambia"), Country("MW", "malawi"),
    Country("MZ", "mozambique"), Country("ZA", "south africa"), Country("CN", "china"), Country("IN", "india"),
    Country("AE", "united arab emirates"), Country("SA", "saudi arabia"), Country("TR", "turkey"),
    Country("SG", "singapore"), Country("MY", "malaysia"), Country("ID", "indonesia"), Country("JP", "japan"),
    Country("KR", "south korea"), Country("US", "united states"), Country("GB", "united kingdom"),
    Country("DE", "germany"), Country("NL", "netherlands"), Country("BE", "belgium"), Country("IT", "italy"),
    Country("FR", "france"), Country("EG", "egypt"), Country("BR", "brazil"), Country("AU", "australia"),
    Country("ET", "ethiopia"), Country("QA", "qatar"), Country("OM", "oman"), Country("PK", "pakistan"),
    Country("TH", "thailand"), Country("VN", "vietnam"), Country("ES", "spain"), Country("PT", "portugal"),
    Country("PL", "poland")]

  const ALIASES := [
    Country("AE", "uae"), Country("AE", "emirates"), Country("US", "usa"), Country("US", "u.s.a"),
    Country("US", "america"), Country("GB", "uk"), Country("GB", "england"), Country("GB", "britain"),
    Country("NL", "holland"), Country("CD", "drc"), Country("CD", "congo"), Country("KR", "korea"),
    Country("ZA", "rsa")]

  // ----- Letters ---------------------------------------------------------------------------------

  function UpperChar(c: char): char {
    if 'a' <= c <= 'z' then c - 'a' + 'A' else c
  }

  function LowerChar(c: char): char {
    if 'A' <= c <= 'Z' then c - 'A' + 'a' else c
  }

  function Upper(s: string): (r: string)
    ensures |r| == |s| && forall i | 0 <= i < |s| :: r[i] == UpperChar(s[i])
  {
    if s == "" then "" else [UpperChar(s[0])] + Upper(s[1..])
  }

  function Lower(s: string): (r: string)
    ensures |r| == |s| && forall i | 0 <= i < |s| :: r[i] == LowerChar(s[i])
  {
    if s == "" then "" else [LowerChar(s[0])] + Lower(s[1..])
  }

  predicate IsUpper(c: char) {
    'A' <= c <= 'Z'
  }

  predicate IsWord(c: char) {
    'a' <= c <= 'z' || 'A' <= c <= 'Z' || '0' <= c <= '9' || c == '_'
  }

  // ----- Looking up ------------------------------------------------------------------------------

  predicate TwoLetters(s: string) {
    |s| == 2 && IsUpper(s[0]) && IsUpper(s[1])
  }

  predicate PortCode(s: string) {
    |s| == 5 && IsUpper(s[0]) && IsUpper(s[1]) && forall i | 2 <= i < 5 :: IsUpper(s[i]) || '0' <= s[i] <= '9'
  }

  predicate Listed(cs: seq<Country>, code: string) {
    exists c | c in cs :: c.code == code
  }

  /** The name stands at this place, with no word character on either side of it. */
  predicate StandsAt(text: string, name: string, at: nat) {
    && at + |name| <= |text| && text[at..at + |name|] == name
    && (at == 0 || !IsWord(text[at - 1]))
    && (at + |name| == |text| || !IsWord(text[at + |name|]))
  }

  predicate Mentions(text: string, name: string) {
    exists at | 0 <= at <= |text| :: StandsAt(text, name, at)
  }

  /** Stable insertion of a country that came before all of `cs`, into order of falling name length. */
  function InsertByLength(c: Country, cs: seq<Country>): seq<Country> {
    if cs == [] || |cs[0].name| <= |c.name| then [c] + cs else [cs[0]] + InsertByLength(c, cs[1..])
  }

  function ByLength(cs: seq<Country>): seq<Country> {
    if cs == [] then [] else InsertByLength(cs[0], ByLength(cs[1..]))
  }

  function FirstMentioned(cs: seq<Country>, text: string): Option<Country> {
    if cs == [] then None else if Mentions(text, cs[0].name) then Some(cs[0]) else FirstMentioned(cs[1..], text)
  }

  function FromTrimmed(t: string, table: Table): Option<string> {
    var bare := Upper(t);
    if t == "" then None
    else if TwoLetters(bare) && Listed(table.countries, bare) then Some(bare)
    else if PortCode(bare) then (if Listed(table.countries, bare[..2]) then Some(bare[..2]) else None)
    else
      var byName := FirstMentioned(ByLength(table.countries), Lower(t));
      if byName.Some? then Some(byName.value.code)
      else match FirstMentioned(table.aliases, Lower(t)) case None => None case Some(a) => Some(a.code)
  }

  function CodeFromText(text: Option<string>, table: Table): Option<string> {
    if text.None? then None else FromTrimmed(Trim(text.value), table)
  }

  // ----- What it promises ------------------------------------------------------------------------

  lemma SameLetter(a: char, b: char)
    requires UpperChar(a) == UpperChar(b)
    ensures LowerChar(a) == LowerChar(b)
  {
  }

  lemma FoldedAlike(a: string, b: string)
    requires Upper(a) == Upper(b)
    ensures Lower(a) == Lower(b) && (a == "" <==> b == "")
  {
    SameUpperLetters(a, b);
    SameLowerLetters(a, b);
  }

  lemma SameUpperLetters(a: string, b: string)
    requires Upper(a) == Upper(b)
    ensures |a| == |b| && forall i | 0 <= i < |a| :: LowerChar(a[i]) == LowerChar(b[i])
  {
    assert |a| == |Upper(a)| == |Upper(b)| == |b|;
    forall i | 0 <= i < |a| ensures LowerChar(a[i]) == LowerChar(b[i]) {
      assert Upper(a)[i] == Upper(b)[i];
      SameLetter(a[i], b[i]);
    }
  }

  lemma {:induction false} SameLowerLetters(a: string, b: string)
    requires |a| == |b| && forall i | 0 <= i < |a| :: LowerChar(a[i]) == LowerChar(b[i])
    ensures Lower(a) == Lower(b)
  {
    if a != "" {
      assert LowerChar(a[0]) == LowerChar(b[0]);
      SameLowerLetters(a[1..], b[1..]);
    }
  }

  /** White space around a text and the case of its letters make no difference. */
  lemma CaseAndSpaceIrrelevant(s: string, t: string, table: Table)
    requires Upper(Trim(s)) == Upper(Trim(t))
    ensures CodeFromText(Some(s), table) == CodeFromText(Some(t), table)
  {
    FoldedAlike(Trim(s), Trim(t));
    SameFolded(Trim(s), Trim(t), table);
  }

  lemma SameFolded(a: string, b: string, table: Table)
    requires Upper(a) == Upper(b) && Lower(a) == Lower(b) && (a == "" <==> b == "")
    ensures FromTrimmed(a, table) == FromTrimmed(b, table)
  {
  }

  ghost predicate LongestFirst(cs: seq<Country>) {
    cs == [] || ((forall c | c in cs[1..] :: |c.name| <= |cs[0].name|) && LongestFirst(cs[1..]))
  }

  lemma {:induction false} InsertKeepsOrder(c: Country, cs: seq<Country>)
    requires LongestFirst(cs)
    ensures LongestFirst(InsertByLength(c, cs))
    ensures forall d :: d in InsertByLength(c, cs) <==> d == c || d in cs
  {
    if cs != [] {
      assert forall d :: d in cs <==> d == cs[0] || d in cs[1..];
      if |cs[0].name| <= |c.name| {
        assert ([c] + cs)[1..] == cs;
      } else {
        InsertKeepsOrder(c, cs[1..]);
        assert ([cs[0]] + InsertByLength(c, cs[1..]))[1..] == InsertByLength(c, cs[1..]);
      }
    }
  }

  lemma {:induction false} ByLengthSorts(cs: seq<Country>)
    ensures LongestFirst(ByLength(cs)) && forall d :: d in ByLength(cs) <==> d in cs
  {
    if cs != [] {
      ByLengthSorts(cs[1..]);
      InsertKeepsOrder(cs[0], ByLength(cs[1..]));
      assert forall d :: d in cs <==> d == cs[0] || d in cs[1..];
    }
  }

  lemma {:induction false} FirstMentionedFacts(cs: seq<Country>, text: string)
    ensures var r := FirstMentioned(cs, text);
            && (r.Some? ==> r.value in cs && Mentions(text, r.value.name))
            && (r.None? ==> forall c | c in cs :: !Mentions(text, c.name))
            && (LongestFirst(cs) && r.Some? ==>
                  forall c | c in cs && Mentions(text, c.name) :: |c.name| <= |r.value.name|)
  {
    if cs != [] {
      FirstMentionedFacts(cs[1..], text);
      assert forall d :: d in cs <==> d == cs[0] || d in cs[1..];
    }
  }

  /**
   * A text that is no code and no port code resolves by name exactly when it mentions a listed name as whole
   * words, and then to a country whose name is the longest of those it mentions. Otherwise the first alias it mentions
   * decides, and with neither it is not resolved.
   */
  lemma LongestNameWins(t: string, table: Table)
    requires t != "" && !(TwoLetters(Upper(t)) && Listed(table.countries, Upper(t))) && !PortCode(Upper(t))
    ensures if exists c | c in table.countries :: Mentions(Lower(t), c.name) then
              exists c :: c in table.countries && Mentions(Lower(t), c.name) && FromTrimmed(t, table) == Some(c.code)
                          && forall d | d in table.countries && Mentions(Lower(t), d.name) :: |d.name| <= |c.name|
            else if exists i :: IsFirstMentioned(table.aliases, Lower(t), i) then
              exists i :: IsFirstMentioned(table.aliases, Lower(t), i)
                  && FromTrimmed(t, table) == Some(table.aliases[i].code)
            else FromTrimmed(t, table) == None
  {
    ByLengthSorts(table.countries);
    FirstMentionedFacts(ByLength(table.countries), Lower(t));
    FirstMentionedAt(table.aliases, Lower(t));
  }

  ghost predicate IsFirstMentioned(cs: seq<Country>, text: string, i: int) {
    0 <= i < |cs| && Mentions(text, cs[i].name) && forall j | 0 <= j < i :: !Mentions(text, cs[j].name)
  }

  lemma {:induction false} FirstMentionedAt(cs: seq<Country>, text: string)
    ensures FirstMentioned(cs, text).Some? <==> exists i :: IsFirstMentioned(cs, text, i)
    ensures forall i | IsFirstMentioned(cs, text, i) :: FirstMentioned(cs, text) == Some(cs[i])
  {
    if cs != [] {
      FirstMentionedAt(cs[1..], text);
      if Mentions(text, cs[0].name) {
        assert IsFirstMentioned(cs, text, 0);
      } else {
        forall i | IsFirstMentioned(cs[1..], text, i) ensures IsFirstMentioned(cs, text, i + 1) {
          assert forall j | 0 < j < i + 1 :: cs[j] == cs[1..][j - 1];
        }
        forall i | IsFirstMentioned(cs, text, i) ensures i > 0 && IsFirstMentioned(cs[1..], text, i - 1) {
          assert forall j | 0 <= j < i - 1 :: cs[1..][j] == cs[j + 1];
        }
      }
    }
  }

  /**
   * Only listed codes come out. A text shaped like a port code answers with its first two letters or not at
   * all, even when it is a listed country's name.
   */
  lemma OnlyListedCodes(t: string, table: Table)
    requires forall a | a in table.aliases :: Listed(table.countries, a.code)
    ensures var r := FromTrimmed(t, table);
            && (r.Some? ==> Listed(table.countries, r.value))
            && (PortCode(Upper(t)) ==>
                  r == if Listed(table.countries, Upper(t)[..2]) then Some(Upper(t)[..2]) else None)
  {
    ByLengthSorts(table.countries);
    FirstMentionedFacts(ByLength(table.countries), Lower(t));
    FirstMentionedFacts(table.aliases, Lower(t));
  }

  /** The text is the name between two ends that neither end nor begin with a letter, digit or underscore. */
  predicate Between(text: string, name: string, a: string, b: string) {
    text == a + name + b && (a == "" || !WordCharacter(a[|a| - 1])) && (b == "" || !WordCharacter(b[0]))
  }

  lemma StandsBetween(text: string, name: string, at: nat)
    requires StandsAt(text, name, at)
    ensures Between(text, name, text[..at], text[at + |name|..])
  {
  }

  lemma BetweenStands(text: string, name: string, a: string, b: string)
    requires Between(text, name, a, b)
    ensures StandsAt(text, name, |a|)
  {
    assert text[|a|..|a| + |name|] == name;
    assert a != "" ==> text[|a| - 1] == a[|a| - 1];
    assert b != "" ==> text[|a| + |name|] == b[0];
  }

  /** Mentioning a name is holding it as whole words. */
  lemma MentionsIff(text: string, name: string)
    ensures Mentions(text, name) <==> exists a, b :: Between(text, name, a, b)
  {
    if at :| 0 <= at <= |text| && StandsAt(text, name, at) {
      StandsBetween(text, name, at);
    }
    if a, b :| Between(text, name, a, b) {
      BetweenStands(text, name, a, b);
    }
  }

  predicate WordCharacter(c: char) {
    Letter(c) || 48 <= c as int <= 57 || c as int == 95
  }

  predicate Letter(c: char) {
    65 <= c as int <= 90 || 97 <= c as int <= 122
  }

  /**
   * Five characters, two letters and three letters or digits, in any case: the first two are the country, or there
   * is none.
   */
  lemma PortCodeFindsPrefix(t: string, table: Table)
    requires |t| == 5 && Letter(t[0]) && Letter(t[1])
    requires forall i | 2 <= i < 5 :: Letter(t[i]) || 48 <= t[i] as int <= 57
    ensures var prefix := [UpperChar(t[0]), UpperChar(t[1])];
            FromTrimmed(t, table) == if Listed(table.countries, prefix) then Some(prefix) else None
  {
    assert Upper(t)[..2] == [UpperChar(t[0]), UpperChar(t[1])];
    assert PortCode(Upper(t));
  }

  /** A listed two-letter code, in any case, answers with itself, before anything else is looked at. */
  lemma CodeFindsItself(t: string, table: Table)
    requires |t| == 2 && Listed(table.countries, Upper(t)) && forall i | 0 <= i < 2 :: IsUpper(UpperChar(t[i]))
    ensures FromTrimmed(t, table) == Some(Upper(t))
  {
  }

  /** An empty or missing text is not resolved. */
  lemma NothingIsNotFound(table: Table)
    ensures CodeFromText(None, table) == None && FromTrimmed("", table) == None
  {
  }

  /** The place in the country list of each alias's country. */
  const ALIASED := [12, 12, 20, 20, 20, 21, 21, 21, 23, 5, 5, 19, 9]

  lemma AliasStandsFor(i: nat)
    requires i < |ALIASES|
    ensures |ALIASES| == |ALIASED| && 0 <= ALIASED[i] < |COUNTRIES| && COUNTRIES[ALIASED[i]].code == ALIASES[i].code
  {
  }

  /** Every alias stands for a listed country, so the shipped tables keep to the list. */
  lemma ShippedTableAnswersFromTheList(t: string)
    ensures var r := FromTrimmed(t, Table(COUNTRIES, ALIASES)); r.Some? ==> Listed(COUNTRIES, r.value)
  {
    var table := Table(COUNTRIES, ALIASES);
    forall a | a in table.aliases ensures Listed(table.countries, a.code) {
      var i :| 0 <= i < |ALIASES| && ALIASES[i] == a;
      AliasStandsFor(i);
    }
    OnlyListedCodes(t, table);
  }

  // ----- A country's own name --------------------------------------------------------------------

  lemma OnlyItselfFits(text: string, name: string)
    requires |text| <= |name| && Mentions(text, name)
    ensures text == name
  {
  }

  ghost predicate NamedOnce(c: Country, table: Table) {
    forall d | d in table.countries && d.name == c.name :: d == c
  }

  /**
   * A listed name by itself, in lower case, resolves to its own country exactly when it does not look like a port code
   * or happens to start with the country's code.
   */
  lemma NameFindsItselfIff(c: Country, table: Table)
    requires c in table.countries && c.name != "" && Lower(c.name) == c.name
    requires NamedOnce(c, table)
    requires !TwoLetters(Upper(c.name))
    ensures FromTrimmed(c.name, table) == Some(c.code) <==> !PortCode(Upper(c.name)) || Upper(c.name)[..2] == c.code
  {
    if !PortCode(Upper(c.name)) {
      assert StandsAt(c.name, c.name, 0);
      LongestNameWins(c.name, table);
      var d :| d in table.countries && Mentions(c.name, d.name) && FromTrimmed(c.name, table) == Some(d.code)
               && forall e | e in table.countries && Mentions(c.name, e.name) :: |e.name| <= |d.name|;
      OnlyItselfFits(c.name, d.name);
    }
  }

  /** A lower-case name of letters and inner spaces; one of five characters has no space. */
  predicate Plain(name: string) {
    && |name| > 2 && name[0] != ' ' && name[1] != ' ' && name[|name| - 1] != ' '
    && (forall i | 0 <= i < |name| :: name[i] == ' ' || 'a' <= name[i] <= 'z')
    && (|name| == 5 ==> name[2] != ' ' && name[3] != ' ')
  }

  lemma PlainNames1(i: nat)
    requires i < 7
    ensures Plain(COUNTRIES[i].name)
  {
  }

  lemma PlainNames2(i: nat)
    requires 7 <= i < 12
    ensures Plain(COUNTRIES[i].name)
  {
  }

  lemma PlainNames3(i: nat)
    requires 12 <= i < 16
    ensures Plain(COUNTRIES[i].name)
  {
  }

  lemma PlainNames4(i: nat)
    requires 16 <= i < 21
    ensures Plain(COUNTRIES[i].name)
  {
  }

  lemma PlainNames5(i: nat)
    requires 21 <= i < 28
    ensures Plain(COUNTRIES[i].name)
  {
  }

  lemma PlainNames6(i: nat)
    requires 28 <= i < 34
    ensures Plain(COUNTRIES[i].name)
  {
  }

  lemma PlainNames7(i: nat)
    requires 34 <= i < |COUNTRIES|
    ensures Plain(COUNTRIES[i].name)
  {
  }

  /** Length and first two letters of a name: no two names of the list share all three. */
  function Sign(name: string): int
    requires |name| > 2
  {
    |name| * 10_000 + (name[0] as int - 'a' as int) * 100 + (name[1] as int - 'a' as int)
  }

  const SIGNS := [
    81900, 51004, 62006, 61722, 70120, 80317, 62500, 61200, 101214, 121814,
    50207, 50813, 202013, 121800, 61920, 91808, 81200, 90813, 50900, 111814,
    132013, 142013, 70604, 111304, 70104, 50819, 60517, 50406, 60117, 90020,
    80419, 51600, 41412, 81500, 81907, 72108, 51815, 81514, 61514]

  lemma SignOf1(i: nat)
    requires i < 16
    ensures |COUNTRIES[i].name| > 2 && Sign(COUNTRIES[i].name) == SIGNS[i]
  {
  }

  lemma SignOf2(i: nat)
    requires 16 <= i < |COUNTRIES|
    ensures |COUNTRIES[i].name| > 2 && Sign(COUNTRIES[i].name) == SIGNS[i]
  {
  }

  lemma SignOf(i: nat)
    requires i < |COUNTRIES|
    ensures |COUNTRIES[i].name| > 2 && Sign(COUNTRIES[i].name) == SIGNS[i]
  {
    if i < 16 { SignOf1(i); } else { SignOf2(i); }
  }

  lemma SignsDiffer1(i: nat, j: nat)
    requires i < j < |SIGNS| && i < 6
    ensures SIGNS[i] != SIGNS[j]
  {
  }

  lemma SignsDiffer2(i: nat, j: nat)
    requires 6 <= i < j < |SIGNS| && i < 14
    ensures SIGNS[i] != SIGNS[j]
  {
  }

  lemma SignsDiffer3(i: nat, j: nat)
    requires 14 <= i < j < |SIGNS|
    ensures SIGNS[i] != SIGNS[j]
  {
  }

  lemma PlainNames(i: nat)
    requires i < |COUNTRIES|
    ensures Plain(COUNTRIES[i].name)
  {
    if i < 7 { PlainNames1(i); }
    else if i < 12 { PlainNames2(i); }
    else if i < 16 { PlainNames3(i); }
    else if i < 21 { PlainNames4(i); }
    else if i < 28 { PlainNames5(i); }
    else if i < 34 { PlainNames6(i); }
    else { PlainNames7(i); }
  }

  lemma NamesDiffer(i: nat, j: nat)
    requires i < j < |COUNTRIES|
    ensures COUNTRIES[i].name != COUNTRIES[j].name
  {
    SignOf(i);
    SignOf(j);
    if i < 6 { SignsDiffer1(i, j); } else if i < 14 { SignsDiffer2(i, j); } else { SignsDiffer3(i, j); }
  }

  lemma PlaceOf(cs: seq<Country>, c: Country) returns (j: nat)
    requires c in cs
    ensures j < |cs| && cs[j] == c
  {
    j :| j < |cs| && cs[j] == c;
  }

  lemma NameIsUnique(i: nat, d: Country)
    requires i < |COUNTRIES| && d in COUNTRIES && d.name == COUNTRIES[i].name
    ensures d == COUNTRIES[i]
  {
    var j := PlaceOf(COUNTRIES, d);
    if i < j {
      NamesDiffer(i, j);
    } else if j < i {
      NamesDiffer(j, i);
    }
  }

  lemma PlainIsFolded(name: string)
    requires Plain(name)
    ensures Lower(name) == name && Trim(name) == name
  {
    PlainIsLower(name);
    PlainIsTrimmed(name);
  }

  lemma PlainIsTrimmed(name: string)
    requires Plain(name)
    ensures Trim(name) == name
  {
    assert name[0] == ' ' || 'a' <= name[0] <= 'z';
    assert name[|name| - 1] == ' ' || 'a' <= name[|name| - 1] <= 'z';
    TrimmedAlready(name);
  }

  lemma PlainIsLower(name: string)
    requires Plain(name)
    ensures Lower(name) == name
  {
    forall i | 0 <= i < |name| ensures LowerChar(name[i]) == name[i] {
      assert name[i] == ' ' || 'a' <= name[i] <= 'z';
    }
    LowerAlready(name);
  }

  lemma {:induction false} LowerAlready(s: string)
    requires forall i | 0 <= i < |s| :: LowerChar(s[i]) == s[i]
    ensures Lower(s) == s
  {
    if s != "" {
      assert LowerChar(s[0]) == s[0];
      LowerAlready(s[1..]);
    }
  }

  lemma PlainCodes(name: string)
    requires Plain(name)
    ensures !TwoLetters(Upper(name)) && (PortCode(Upper(name)) <==> |name| == 5)
  {
    if |name| == 5 {
      forall i | 0 <= i < 5 ensures IsUpper(Upper(name)[i]) {
        LetterIsUpper(name, i);
      }
    }
  }

  lemma LetterIsUpper(name: string, i: nat)
    requires Plain(name) && i < |name| && name[i] != ' '
    ensures IsUpper(Upper(name)[i])
  {
    assert name[i] == ' ' || 'a' <= name[i] <= 'z';
  }

  lemma CodeOfTrimmed(text: string, table: Table)
    requires Trim(text) == text
    ensures CodeFromText(Some(text), table) == FromTrimmed(text, table)
  {
  }

  lemma FoldedNameFindsItselfIff(c: Country, table: Table)
    requires c in table.countries && c.name != "" && Lower(c.name) == c.name && NamedOnce(c, table)
    requires !TwoLetters(Upper(c.name)) && (PortCode(Upper(c.name)) <==> |c.name| == 5)
    ensures FromTrimmed(c.name, table) == Some(c.code) <==> |c.name| != 5 || Upper(c.name)[..2] == c.code
  {
    NameFindsItselfIff(c, table);
  }

  lemma PlainNameFindsItselfIff(c: Country, table: Table)
    requires c in table.countries && Plain(c.name) && NamedOnce(c, table)
    ensures FromTrimmed(c.name, table) == Some(c.code) <==> |c.name| != 5 || Upper(c.name)[..2] == c.code
  {
    assert Lower(c.name) == c.name by { PlainIsFolded(c.name); }
    PlainCodes(c.name);
    FoldedNameFindsItselfIff(c, table);
  }

  lemma ShippedNameIff(i: nat)
    requires i < |COUNTRIES|
    ensures var c := COUNTRIES[i];
            FromTrimmed(c.name, Table(COUNTRIES, ALIASES)) == Some(c.code) <==>
            |c.name| != 5 || Upper(c.name)[..2] == c.code
  {
    PlainNames(i);
    forall d | d in COUNTRIES && d.name == COUNTRIES[i].name ensures d == COUNTRIES[i] {
      NameIsUnique(i, d);
    }
    PlainNameFindsItselfIff(COUNTRIES[i], Table(COUNTRIES, ALIASES));
  }

  lemma ShippedNameIsTrimmed(i: nat, text: string)
    requires i < |COUNTRIES| && text == COUNTRIES[i].name
    ensures CodeFromText(Some(text), Table(COUNTRIES, ALIASES)) == FromTrimmed(text, Table(COUNTRIES, ALIASES))
  {
    PlainNames(i);
    PlainIsFolded(text);
    CodeOfTrimmed(text, Table(COUNTRIES, ALIASES));
  }

  /**
   * Of the shipped countries, a name finds its own country exactly when it has not five letters or they start with
   * its code.
   */
  lemma ShippedNameFindsItselfIff(i: nat)
    requires i < |COUNTRIES|
    ensures var c := COUNTRIES[i];
            CodeFromText(Some(c.name), Table(COUNTRIES, ALIASES)) == Some(c.code) <==>
            |c.name| != 5 || Upper(c.name)[..2] == c.code
  {
    ShippedNameIff(i);
    ShippedNameIsTrimmed(i, COUNTRIES[i].name);
  }

  lemma NoCodeCH(i: nat)
    requires i < |COUNTRIES|
    ensures COUNTRIES[i].code != "CH"
  {
  }

  lemma UnlistedPrefix(name: string, table: Table)
    requires Plain(name) && |name| == 5
    requires forall c | c in table.countries :: c.code != Upper(name)[..2]
    ensures FromTrimmed(name, table) == None
  {
    PlainCodes(name);
  }

  lemma PrefixCH(name: string)
    requires |name| >= 2 && name[0] == 'c' && name[1] == 'h'
    ensures Upper(name)[..2] == "CH"
  {
  }

  lemma China()
    ensures COUNTRIES[10].code == "CN"
    ensures var name := COUNTRIES[10].name; |name| == 5 && name[0] == 'c' && name[1] == 'h' && name == "china"
  {
  }

  lemma ChinaByName()
    ensures FromTrimmed(COUNTRIES[10].name, Table(COUNTRIES, ALIASES)) == None
  {
    var name := COUNTRIES[10].name;
    China();
    PlainNames(10);
    PrefixCH(name);
    forall c | c in COUNTRIES ensures c.code != Upper(name)[..2] {
      var i :| 0 <= i < |COUNTRIES| && COUNTRIES[i] == c;
      NoCodeCH(i);
    }
    UnlistedPrefix(name, Table(COUNTRIES, ALIASES));
  }

  /** "China" is listed, and is not found, however it is spaced and in whatever case. */
  lemma ChinaIsNotFound(text: string)
    requires Upper(Trim(text)) == Upper(Trim(COUNTRIES[10].name))
    ensures COUNTRIES[10] == Country("CN", "china")
    ensures CodeFromText(Some(text), Table(COUNTRIES, ALIASES)) == None
  {
    China();
    ChinaByName();
    ShippedNameIsTrimmed(10, COUNTRIES[10].name);
    CaseAndSpaceIrrelevant(text, COUNTRIES[10].name, Table(COUNTRIES, ALIASES));
  }
}
