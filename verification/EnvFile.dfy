/** The production settings file: written once with every value in single quotes, read back line by line. */
module EnvFile {
  import opened Outcomes

  datatype Setting = Setting(key: string, value: string)

  datatype Problem = BadKey | BadQuoting

  // ----- Writing ---------------------------------------------------------------------------------

  function SettingLine(s: Setting): string {
    s.key + "='" + s.value + "'"
  }

  function SettingLines(settings: seq<Setting>): string {
    if settings == [] then "" else SettingLine(settings[0]) + "\n" + SettingLines(settings[1..])
  }

  /** The file opens with a line of comment. */
  function FileText(comment: string, settings: seq<Setting>): string {
    "#" + comment + "\n" + SettingLines(settings)
  }

  // ----- Reading ---------------------------------------------------------------------------------

  /** Where splitlines breaks. */
  predicate IsBreak(c: char) {
    var n := c as int;
    10 <= n <= 13 || 28 <= n <= 30 || n == 0x85 || n == 0x2028 || n == 0x2029
  }

  /** What strip removes. */
  predicate IsSpace(c: char) {
    var n := c as int;
    || 9 <= n <= 13 || 28 <= n <= 32 || n == 0x85 || n == 0xA0 || n == 0x1680 || 0x2000 <= n <= 0x200A
    || n == 0x2028 || n == 0x2029 || n == 0x202F || n == 0x205F || n == 0x3000
  }

  function LineLength(s: string): (n: nat)
    ensures n <= |s| && (n < |s| ==> IsBreak(s[n])) && forall i | 0 <= i < n :: !IsBreak(s[i])
  {
    if s == "" || IsBreak(s[0]) then 0 else 1 + LineLength(s[1..])
  }

  /** The lines of a text, without their breaks; a carriage return and line feed are one break. */
  function Lines(s: string): seq<string>
    decreases |s|
  {
    if s == "" then []
    else
      var n := LineLength(s);
      if n == |s| then [s]
      else if s[n] == '\r' && n + 1 < |s| && s[n + 1] == '\n' then [s[..n]] + Lines(s[n + 2..])
      else [s[..n]] + Lines(s[n + 1..])
  }

  function SkipSpace(s: string): string {
    if s != "" && IsSpace(s[0]) then SkipSpace(s[1..]) else s
  }

  predicate Skipped(line: string) {
    var t := SkipSpace(line);
    t == "" || t[0] == '#'
  }

  predicate ValidKey(key: string) {
    key != "" && 'A' <= key[0] <= 'Z' && forall c | c in key :: 'A' <= c <= 'Z' || '0' <= c <= '9' || c == '_'
  }

  /** The place of the first equals sign, or the length when there is none. */
  function EqualsAt(line: string): (n: nat)
    ensures n <= |line| && (n < |line| ==> line[n] == '=') && forall i | 0 <= i < n :: line[i] != '='
  {
    if line == "" || line[0] == '=' then 0 else 1 + EqualsAt(line[1..])
  }

  /** A value that needs no escape inside single quotes, on one line. */
  predicate Plain(value: string) {
    forall c | c in value :: c != '\'' && c != '"' && c != '\\' && c != '\0' && !IsBreak(c)
  }

  /** Evaluates a quoted value; `eval` stands for Python's reading of any literal with more to it than its quotes. */
  function Unquoted(value: string, eval: string -> Option<string>): Option<string> {
    if value == "" || (value[0] != '\'' && value[0] != '"') then Some(value)
    else if |value| >= 2 && value[|value| - 1] == value[0] && Plain(value[1..|value| - 1]) then
        Some(value[1..|value| - 1])
    else eval(value)
  }

  function ReadLine(line: string, values: map<string, string>, eval: string -> Option<string>)
    : Result<map<string, string>, Problem>
  {
    if Skipped(line) then Ok(values)
    else
      var n := EqualsAt(line);
      if n == |line| || !ValidKey(line[..n]) || line[..n] in values then Err(BadKey)
      else match Unquoted(line[n + 1..], eval) case None => Err(BadQuoting) case Some(v) => Ok(values[line[..n] := v])
  }

  function ReadLines(lines: seq<string>, values: map<string, string>, eval: string -> Option<string>)
    : Result<map<string, string>, Problem>
    decreases |lines|
  {
    if lines == [] then Ok(values)
    else match ReadLine(lines[0], values, eval) case Err(p) => Err(p) case Ok(v) => ReadLines(lines[1..], v, eval)
  }

  // ----- What is written -------------------------------------------------------------------------

  /** A line of comment, then each setting on a line of its own with its value in single quotes. */
  lemma {:induction false} WrittenByLine(comment: string, a: seq<Setting>, b: seq<Setting>, s: Setting)
    ensures FileText(comment, a) == "#" + comment + "\n" + SettingLines(a)
    ensures SettingLines([]) == "" && SettingLines([s]) == s.key + "='" + s.value + "'\n"
    ensures SettingLines(a + b) == SettingLines(a) + SettingLines(b)
  {
    assert [s][1..] == [];
    if a == [] {
      assert a + b == b;
    } else {
      assert (a + b)[0] == a[0] && (a + b)[1..] == a[1..] + b;
      WrittenByLine(comment, a[1..], b, s);
    }
  }

  // ----- Lines and values ------------------------------------------------------------------------

  /** A text is cut at each break, and a carriage return with its line feed is one. */
  lemma {:induction false} LinesAtBreak(line: string, c: char, rest: string)
    requires (forall x | x in line :: !IsBreak(x)) && IsBreak(c)
    ensures Lines("") == [] && (line != "" ==> Lines(line) == [line])
    ensures Lines(line + [c] + rest)
            == [line] + Lines(if c == '\r' && rest != "" && rest[0] == '\n' then rest[1..] else rest)
  {
    var s := line + [c] + rest;
    LengthToBreak(line, c, rest);
    WholeLine(line);
    assert s[..|line|] == line && s[|line|] == c && s[|line| + 1..] == rest;
    assert rest != "" ==> s[|line| + 1] == rest[0] && s[|line| + 2..] == rest[1..];
  }

  lemma {:induction false} LengthToBreak(line: string, c: char, rest: string)
    requires (forall x | x in line :: !IsBreak(x)) && IsBreak(c)
    ensures LineLength(line + [c] + rest) == |line|
  {
    var s := line + [c] + rest;
    if line != "" {
      assert line[0] in line && forall x | x in line[1..] :: x in line;
      LengthToBreak(line[1..], c, rest);
      assert s[0] == line[0] && s[1..] == line[1..] + [c] + rest;
    } else {
      assert s[0] == c;
    }
  }

  lemma {:induction false} WholeLine(line: string)
    requires forall x | x in line :: !IsBreak(x)
    ensures LineLength(line) == |line|
  {
    if line != "" {
      assert line[0] in line && forall x | x in line[1..] :: x in line;
      WholeLine(line[1..]);
    }
  }

  /** A line is skipped when there is nothing in it but white space, or nothing but that before a number sign. */
  lemma {:induction false} SkippedIff(line: string)
    ensures Skipped(line) <==>
            || (forall i | 0 <= i < |line| :: IsSpace(line[i]))
            || (exists k :: HashAt(line, k))
  {
    if line != "" && IsSpace(line[0]) {
      var rest := line[1..];
      SkippedIff(rest);
      assert forall i | 0 < i < |line| :: line[i] == rest[i - 1];
      if k :| HashAt(rest, k) { assert HashAt(line, k + 1); }
      if k :| HashAt(line, k) { assert k > 0 && HashAt(rest, k - 1); }
    } else if line != "" && line[0] == '#' {
      assert HashAt(line, 0);
    }
  }

  predicate HashAt(line: string, k: int) {
    0 <= k < |line| && line[k] == '#' && forall i | 0 <= i < k :: IsSpace(line[i])
  }

  /** A key is a capital and then capitals, digits and underscores. */
  lemma KeyShape(key: string)
    ensures ValidKey(key) <==>
            && key != "" && 65 <= key[0] as int <= 90
            && forall i | 1 <= i < |key| ::
                 65 <= key[i] as int <= 90 || 48 <= key[i] as int <= 57 || key[i] as int == 95
  {
    assert forall i | 0 <= i < |key| :: key[i] in key;
    forall c | c in key && key != "" && 65 <= key[0] as int <= 90
               && forall i | 1 <= i < |key| ::
                    65 <= key[i] as int <= 90 || 48 <= key[i] as int <= 57 || key[i] as int == 95
      ensures 'A' <= c <= 'Z' || '0' <= c <= '9' || c == '_'
    {
      var i :| 0 <= i < |key| && key[i] == c;
    }
  }

  /**
   * A value that does not open with a quote is taken as it stands; a plain one in quotes, single or double,
   * without them.
   */
  lemma ValueRead(value: string, eval: string -> Option<string>)
    ensures (value == "" || value[0] !in "'\"") ==> Unquoted(value, eval) == Some(value)
    ensures Plain(value) ==> Unquoted("'" + value + "'", eval) == Some(value) == Unquoted("\"" + value + "\"", eval)
  {
    assert ("'" + value + "'")[1..|value| + 1] == value && ("\"" + value + "\"")[1..|value| + 1] == value;
  }

  // ----- When a file is accepted -----------------------------------------------------------------

  /** A line with a valid key, an equals sign and a value that is unquoted or quoted as it should be. */
  predicate GoodLine(line: string, eval: string -> Option<string>) {
    var n := EqualsAt(line);
    n < |line| && ValidKey(line[..n]) && Unquoted(line[n + 1..], eval).Some?
  }

  function KeyOf(line: string): string {
    line[..EqualsAt(line)]
  }

  /** Every line that is not skipped is good, and no two of them, nor any before them, have one key. */
  ghost predicate GoodLines(lines: seq<string>, taken: set<string>, eval: string -> Option<string>) {
    && (forall i | 0 <= i < |lines| && !Skipped(lines[i]) :: GoodLine(lines[i], eval) && KeyOf(lines[i]) !in taken)
    && (forall i, j | 0 <= i < j < |lines| && !Skipped(lines[i]) && !Skipped(lines[j]) ::
          KeyOf(lines[i]) != KeyOf(lines[j]))
  }

  predicate Has(values: map<string, string>, key: string, value: string) {
    key in values && values[key] == value
  }

  predicate GivenBy(line: string, key: string, value: string, eval: string -> Option<string>) {
    !Skipped(line) && GoodLine(line, eval) && KeyOf(line) == key
    && Unquoted(line[EqualsAt(line) + 1..], eval) == Some(value)
  }

  ghost predicate Given(lines: seq<string>, key: string, value: string, eval: string -> Option<string>) {
    exists i :: 0 <= i < |lines| && GivenBy(lines[i], key, value, eval)
  }

  lemma GoodLinesUnfold(lines: seq<string>, taken: set<string>, eval: string -> Option<string>)
    requires lines != []
    ensures GoodLines(lines, taken, eval) <==>
            if Skipped(lines[0]) then GoodLines(lines[1..], taken, eval)
            else GoodLine(lines[0], eval) && KeyOf(lines[0]) !in taken
                 && GoodLines(lines[1..], taken + {KeyOf(lines[0])}, eval)
  {
    var rest := lines[1..];
    assert forall i | 0 < i < |lines| :: lines[i] == rest[i - 1];
    assert forall i | 0 <= i < |rest| :: rest[i] == lines[i + 1];
  }

  lemma GivenUnfolds(lines: seq<string>, key: string, value: string, eval: string -> Option<string>)
    requires lines != []
    ensures Given(lines, key, value, eval) <==>
            GivenBy(lines[0], key, value, eval) || Given(lines[1..], key, value, eval)
  {
    assert forall i | 0 < i < |lines| :: lines[i] == lines[1..][i - 1];
    assert forall i | 0 <= i < |lines[1..]| :: lines[1..][i] == lines[i + 1];
  }

  lemma LineGives(line: string, values: map<string, string>, eval: string -> Option<string>)
    ensures var r := ReadLine(line, values, eval);
            && (r.Ok? <==> Skipped(line) || (GoodLine(line, eval) && KeyOf(line) !in values))
            && (r.Ok? ==> r.value.Keys == values.Keys + if Skipped(line) then {} else {KeyOf(line)})
            && (r.Ok? ==> forall k, v ::
                  Has(r.value, k, v) <==> Has(values, k, v) || GivenBy(line, k, v, eval))
  {
  }

  /**
   * A file is accepted exactly when every line that is not skipped has a valid key, used once, and readable
   * quoting; it is then read to the keys of those lines with the values beside them, and nothing else.
   */
  lemma {:induction false} AcceptedIffGoodLines(lines: seq<string>, values: map<string, string>,
                                                eval: string -> Option<string>)
    ensures ReadLines(lines, values, eval).Ok? <==> GoodLines(lines, values.Keys, eval)
    ensures var r := ReadLines(lines, values, eval);
            r.Ok? ==> forall k, v ::
              Has(r.value, k, v) <==> Has(values, k, v) || Given(lines, k, v, eval)
    decreases |lines|
  {
    if lines != [] {
      LineGives(lines[0], values, eval);
      GoodLinesUnfold(lines, values.Keys, eval);
      var first := ReadLine(lines[0], values, eval);
      if first.Ok? {
        AcceptedIffGoodLines(lines[1..], first.value, eval);
        assert Skipped(lines[0]) ==> first.value.Keys == values.Keys;
        var r := ReadLines(lines, values, eval);
        assert r == ReadLines(lines[1..], first.value, eval);
        forall k, v | r.Ok?
          ensures Has(r.value, k, v) <==> Has(values, k, v) || Given(lines, k, v, eval)
        {
          GivenUnfolds(lines, k, v, eval);
        }
      }
    }
  }

  /** Reads a settings file, refusing it at the first bad line. */
  method ReadSettings(text: string, eval: string -> Option<string>) returns (r: Result<map<string, string>, Problem>)
    ensures r == ReadLines(Lines(text), map[], eval)
    ensures r.Ok? <==> GoodLines(Lines(text), {}, eval)
    ensures r.Ok? ==> forall k, v :: Has(r.value, k, v) <==> Given(Lines(text), k, v, eval)
  {
    AcceptedIffGoodLines(Lines(text), map[], eval);
    var values: map<string, string> := map[];
    var lines := Lines(text);
    for i := 0 to |lines|
      invariant ReadLines(lines[i..], values, eval) == ReadLines(lines, map[], eval)
    {
      var line := lines[i];
      assert lines[i..][0] == line && lines[i..][1..] == lines[i + 1..];
      if Skipped(line) {
        continue;
      }
      var n := EqualsAt(line);
      if n == |line| || !ValidKey(line[..n]) || line[..n] in values {
        return Err(BadKey);
      }
      var value := Unquoted(line[n + 1..], eval);
      if value.None? {
        return Err(BadQuoting);
      }
      values := values[line[..n] := value.value];
    }
    r := Ok(values);
  }

  // ----- The round trip --------------------------------------------------------------------------

  ghost predicate Writable(settings: seq<Setting>) {
    && (forall i | 0 <= i < |settings| :: ValidKey(settings[i].key) && Plain(settings[i].value))
    && (forall i, j | 0 <= i < j < |settings| :: settings[i].key != settings[j].key)
  }

  function AsMap(settings: seq<Setting>): map<string, string> {
    if settings == [] then map[]
    else AsMap(settings[..|settings| - 1])[settings[|settings| - 1].key := settings[|settings| - 1].value]
  }

  lemma {:induction false} FirstLine(line: string, rest: string)
    requires forall c | c in line :: !IsBreak(c)
    ensures LineLength(line + "\n" + rest) == |line|
  {
    var s := line + "\n" + rest;
    if line == "" {
      assert s[0] == '\n';
    } else {
      assert line[0] in line && forall c | c in line[1..] :: c in line;
      FirstLine(line[1..], rest);
      assert s[1..] == line[1..] + "\n" + rest;
    }
  }

  lemma LinesUnfold(line: string, rest: string)
    requires forall c | c in line :: !IsBreak(c)
    ensures Lines(line + "\n" + rest) == [line] + Lines(rest)
  {
    FirstLine(line, rest);
    var s := line + "\n" + rest;
    assert s[..|line|] == line && s[|line| + 1..] == rest && s[|line|] == '\n';
  }

  lemma {:induction false} EqualsAfterKey(key: string, rest: string)
    requires '=' !in key
    ensures EqualsAt(key + "=" + rest) == |key|
  {
    var s := key + "=" + rest;
    if key == "" {
      assert s[0] == '=';
    } else {
      EqualsAfterKey(key[1..], rest);
      assert s[1..] == key[1..] + "=" + rest;
    }
  }

  lemma SettingLineReads(s: Setting, values: map<string, string>, eval: string -> Option<string>)
    requires ValidKey(s.key) && Plain(s.value) && s.key !in values
    ensures forall c | c in SettingLine(s) :: !IsBreak(c)
    ensures ReadLine(SettingLine(s), values, eval) == Ok(values[s.key := s.value])
  {
    var line, quoted := SettingLine(s), "'" + s.value + "'";
    LineParts(s);
    QuotedReads(s.value, eval);
    assert ReadLine(line, values, eval) == Ok(values[s.key := s.value]) by {
      assert !Skipped(line) && EqualsAt(line) == |s.key|;
    }
  }

  lemma LineParts(s: Setting)
    requires ValidKey(s.key)
    ensures var line, quoted := SettingLine(s), "'" + s.value + "'";
            && !Skipped(line) && EqualsAt(line) == |s.key| && |s.key| < |line|
            && line[..|s.key|] == s.key && line[|s.key| + 1..] == quoted
  {
    var line, quoted := SettingLine(s), "'" + s.value + "'";
    assert line == s.key + "=" + quoted;
    assert line[0] == s.key[0] && SkipSpace(line) == line;
    EqualsAfterKey(s.key, quoted);
  }

  lemma QuotedReads(value: string, eval: string -> Option<string>)
    requires Plain(value)
    ensures Unquoted("'" + value + "'", eval) == Some(value)
  {
    var quoted := "'" + value + "'";
    assert quoted[1..|quoted| - 1] == value;
  }

  lemma ReadOneMore(line: string, rest: string, values: map<string, string>, next: map<string, string>,
                    eval: string -> Option<string>)
    requires (forall c | c in line :: !IsBreak(c)) && ReadLine(line, values, eval) == Ok(next)
    ensures ReadLines(Lines(line + "\n" + rest), values, eval) == ReadLines(Lines(rest), next, eval)
  {
    LinesUnfold(line, rest);
    assert ([line] + Lines(rest))[1..] == Lines(rest);
  }

  lemma {:induction false} SettingsRead(before: seq<Setting>, rest: seq<Setting>, eval: string -> Option<string>)
    requires Writable(before + rest)
    ensures ReadLines(Lines(SettingLines(rest)), AsMap(before), eval) == Ok(AsMap(before + rest))
    decreases |rest|
  {
    if rest == [] {
      assert before + rest == before;
    } else {
      var s, more := rest[0], before + [rest[0]];
      assert more + rest[1..] == before + rest;
      assert (before + rest)[|before|] == s;
      AsMapKeys(before, s.key, before + rest);
      SettingLineReads(s, AsMap(before), eval);
      assert more[..|more| - 1] == before;
      ReadOneMore(SettingLine(s), SettingLines(rest[1..]), AsMap(before), AsMap(more), eval);
      SettingsRead(more, rest[1..], eval);
    }
  }

  lemma {:induction false} AsMapKeys(before: seq<Setting>, key: string, all: seq<Setting>)
    requires before <= all && |before| < |all| && all[|before|].key == key
    requires forall i, j | 0 <= i < j < |all| :: all[i].key != all[j].key
    ensures key !in AsMap(before)
  {
    KeysOf(before);
    assert forall i | 0 <= i < |before| :: before[i] == all[i];
  }

  lemma {:induction false} KeysOf(settings: seq<Setting>)
    ensures forall k :: k in AsMap(settings) <==> exists i :: 0 <= i < |settings| && settings[i].key == k
  {
    if settings != [] {
      var init := settings[..|settings| - 1];
      KeysOf(init);
      assert settings[|settings| - 1].key in AsMap(settings);
    }
  }

  /** Settings with valid, distinct keys and plain values are read back as they were written, with no error. */
  lemma EnvRoundTrip(comment: string, settings: seq<Setting>, eval: string -> Option<string>)
    requires Writable(settings) && forall c | c in comment :: !IsBreak(c)
    ensures ReadLines(Lines(FileText(comment, settings)), map[], eval) == Ok(AsMap(settings))
  {
    var line := "#" + comment;
    assert SkipSpace(line) == line;
    ReadOneMore(line, SettingLines(settings), map[], map[], eval);
    assert [] + settings == settings;
    SettingsRead([], settings, eval);
  }
}
