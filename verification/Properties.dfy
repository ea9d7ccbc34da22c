// The property printers and splitters: what they print can be read back, and
// what they split can be joined again.
module Properties {
  import opened Kubernetes
  import opened Strings

  // ---- strings.Split with a one-character separator ----

  function Split(s: string, sep: char): (parts: seq<string>)
    ensures parts != []
  {
    if s == "" then [""]
    else
      var rest := Split(s[1..], sep);
      if s[0] == sep then [""] + rest else [[s[0]] + rest[0]] + rest[1..]
  }

  function Join(parts: seq<string>, sep: char): string
    requires parts != []
  {
    if |parts| == 1 then parts[0] else parts[0] + [sep] + Join(parts[1..], sep)
  }

  function Count(s: string, c: char): nat {
    if s == "" then 0 else (if s[0] == c then 1 else 0) + Count(s[1..], c)
  }

  // Joining the parts gives the string back; no part holds the separator, and
  // there is one part more than separators.
  lemma {:induction false} SplitThenJoin(s: string, sep: char)
    ensures Join(Split(s, sep), sep) == s
    ensures forall p <- Split(s, sep) :: sep !in p
    ensures |Split(s, sep)| == Count(s, sep) + 1
  {
    if s == "" {
    } else {
      SplitThenJoin(s[1..], sep);
      var rest, parts := Split(s[1..], sep), Split(s, sep);
      if s[0] == sep {
        assert parts[1..] == rest;
        assert s == [sep] + s[1..];
      } else {
        assert parts[1..] == rest[1..];
        assert Join(parts, sep) == [s[0]] + Join(rest, sep);
        assert rest[0] in rest;
      }
    }
  }

  lemma {:induction false} SplitAtFirst(a: string, sep: char, b: string)
    requires sep !in a
    ensures Split(a + [sep] + b, sep) == [a] + Split(b, sep)
  {
    var s := a + [sep] + b;
    if a == "" {
      assert s[1..] == b;
    } else {
      assert s[1..] == a[1..] + [sep] + b;
      SplitAtFirst(a[1..], sep, b);
      assert a == [a[0]] + a[1..];
    }
  }

  lemma {:induction false} SplitWhole(a: string, sep: char)
    requires sep !in a
    ensures Split(a, sep) == [a]
  {
    if a == "" {
    } else {
      SplitWhole(a[1..], sep);
      assert a == [a[0]] + a[1..];
    }
  }

  // Splitting gives back any parts that were joined and hold no separator.
  lemma {:induction false} JoinThenSplit(parts: seq<string>, sep: char)
    requires parts != [] && forall p <- parts :: sep !in p
    ensures Split(Join(parts, sep), sep) == parts
  {
    assert parts[0] in parts;
    if |parts| == 1 {
      SplitWhole(parts[0], sep);
    } else {
      JoinThenSplit(parts[1..], sep);
      SplitAtFirst(parts[0], sep, Join(parts[1..], sep));
      assert parts == [parts[0]] + parts[1..];
    }
  }

  // ---- key and value of one entry ----

  function SplitPair(s: string, sep: char): Option<(string, string)> {
    var splited := Split(s, sep);
    if |splited| != 2 then None else Some((splited[0], splited[1]))
  }

  function SplitDynamicArgs(argsKeyValues: string): Option<(string, string)> {
    SplitPair(argsKeyValues, '=')
  }

  function SplitDynamicConfigs(argsKeyValues: string): Option<(string, string)> {
    SplitPair(argsKeyValues, ':')
  }

  function SplitDynamicConfigsArgs(argsKeyValues: string): seq<string> {
    Split(argsKeyValues, ';')
  }

  // A pair comes out exactly when the separator occurs once, and then the
  // pair is the two sides of it.
  lemma PairExactly(s: string, sep: char, k: string, v: string)
    ensures SplitPair(s, sep) == Some((k, v)) <==> s == k + [sep] + v && sep !in k && sep !in v
    ensures SplitPair(s, sep).Some? <==> Count(s, sep) == 1
  {
    SplitThenJoin(s, sep);
    var parts := Split(s, sep);
    if SplitPair(s, sep) == Some((k, v)) {
      assert parts == [k, v] && parts[1..] == [v];
      assert k in parts && v in parts;
    }
    if s == k + [sep] + v && sep !in k && sep !in v {
      SplitAtFirst(k, sep, v);
      SplitWhole(v, sep);
    }
  }

  lemma DynamicArgsExactly(s: string, k: string, v: string)
    ensures SplitDynamicArgs(s) == Some((k, v)) <==> s == k + "=" + v && '=' !in k && '=' !in v
    ensures SplitDynamicArgs(s).Some? <==> Count(s, '=') == 1
  {
    PairExactly(s, '=', k, v);
  }

  lemma DynamicConfigsExactly(s: string, k: string, v: string)
    ensures SplitDynamicConfigs(s) == Some((k, v)) <==> s == k + ":" + v && ':' !in k && ':' !in v
    ensures SplitDynamicConfigs(s).Some? <==> Count(s, ':') == 1
  {
    PairExactly(s, ':', k, v);
  }

  lemma DynamicConfigsArgsRejoin(s: string)
    ensures Join(SplitDynamicConfigsArgs(s), ';') == s
    ensures forall p <- SplitDynamicConfigsArgs(s) :: ';' !in p
  {
    SplitThenJoin(s, ';');
  }

  // ---- Lines ----

  // Every part followed by a newline.
  function Lines(parts: seq<string>): string {
    if parts == [] then "" else parts[0] + "\n" + Lines(parts[1..])
  }

  lemma {:induction false} LinesSnoc(parts: seq<string>, p: string)
    ensures Lines(parts + [p]) == Lines(parts) + p + "\n"
  {
    if parts == [] {
      assert parts + [p] == [p];
    } else {
      assert (parts + [p])[1..] == parts[1..] + [p];
      LinesSnoc(parts[1..], p);
    }
  }

  lemma {:induction false} LinesAreJoined(parts: seq<string>)
    requires parts != []
    ensures Lines(parts) == Join(parts, '\n') + "\n"
  {
    if |parts| == 1 {
      assert parts[1..] == [];
    } else {
      LinesAreJoined(parts[1..]);
    }
  }

  lemma {:induction false} SplitLines(parts: seq<string>)
    requires forall p <- parts :: '\n' !in p
    ensures Split(Lines(parts), '\n') == parts + [""]
  {
    if parts == [] {
    } else {
      assert parts[0] in parts;
      SplitLines(parts[1..]);
      SplitAtFirst(parts[0], '\n', Lines(parts[1..]));
      assert parts + [""] == [parts[0]] + (parts[1..] + [""]);
    }
  }

  method WriteLines(keys: seq<string>) returns (text: string)
    ensures text == Lines(keys)
  {
    text := "";
    for i := 0 to |keys|
      invariant text == Lines(keys[..i])
    {
      assert keys[..i + 1] == keys[..i] + [keys[i]];
      LinesSnoc(keys[..i], keys[i]);
      text := text + keys[i] + "\n";
    }
    assert keys[..|keys|] == keys;
  }

  // Splitting at newlines and printing the lines only adds a final newline.
  method GetPropertiesStrings(properties: string) returns (text: string)
    ensures text == properties + "\n"
  {
    var keys := Split(properties, '\n');
    text := WriteLines(keys);
    LinesAreJoined(keys);
    SplitThenJoin(properties, '\n');
  }

  // ---- Whitespace fields ----

  // unicode.IsSpace.
  predicate IsSpace(c: char) {
    var n := c as int;
    || 9 <= n <= 13 || n == 0x20 || n == 0x85 || n == 0xA0 || n == 0x1680 || 0x2000 <= n <= 0x200A
    || n == 0x2028 || n == 0x2029 || n == 0x202F || n == 0x205F || n == 0x3000
  }

  function TokenLength(s: string): (n: nat)
    ensures n <= |s| && (forall i :: 0 <= i < n ==> !IsSpace(s[i])) && (n < |s| ==> IsSpace(s[n]))
  {
    if s == "" || IsSpace(s[0]) then 0 else 1 + TokenLength(s[1..])
  }

  // strings.Fields.
  function Fields(s: string): seq<string>
    decreases |s|
  {
    if s == "" then []
    else if IsSpace(s[0]) then Fields(s[1..])
    else
      var n := TokenLength(s);
      [s[..n]] + Fields(s[n..])
  }

  predicate IsToken(t: string) {
    t != "" && forall i :: 0 <= i < |t| ==> !IsSpace(t[i])
  }

  lemma {:induction false} FieldsAreTokens(s: string)
    ensures forall t <- Fields(s) :: IsToken(t)
    decreases |s|
  {
    if s == "" {
    } else {
      if IsSpace(s[0]) { FieldsAreTokens(s[1..]); } else { FieldsAreTokens(s[TokenLength(s)..]); }
    }
  }

  predicate IsGap(gap: string) {
    forall i :: 0 <= i < |gap| ==> IsSpace(gap[i])
  }

  // A gap, a token, a gap, and so on to the last gap.
  function Weave(gaps: seq<string>, tokens: seq<string>): string
    requires |gaps| == |tokens| + 1
  {
    if tokens == [] then gaps[0] else gaps[0] + tokens[0] + Weave(gaps[1..], tokens[1..])
  }

  // Gaps are white, and those between two tokens are not empty.
  predicate Apart(gaps: seq<string>) {
    && (forall i :: 0 <= i < |gaps| ==> IsGap(gaps[i]))
    && (forall i :: 0 < i < |gaps| - 1 ==> gaps[i] != "")
  }

  ghost predicate MadeOf(s: string, tokens: seq<string>) {
    && (forall t <- tokens :: IsToken(t))
    && exists gaps :: |gaps| == |tokens| + 1 && Apart(gaps) && Weave(gaps, tokens) == s
  }

  lemma {:induction false} GapsSkipped(gap: string, s: string)
    requires IsGap(gap)
    ensures Fields(gap + s) == Fields(s)
  {
    if gap == "" {
      assert gap + s == s;
    } else {
      assert (gap + s)[0] == gap[0] && (gap + s)[1..] == gap[1..] + s;
      GapsSkipped(gap[1..], s);
    }
  }

  lemma TokenFirst(t: string, s: string)
    requires IsToken(t) && (s == "" || IsSpace(s[0]))
    ensures Fields(t + s) == [t] + Fields(s)
  {
    var n := TokenLength(t + s);
    assert forall i :: 0 <= i < |t| ==> (t + s)[i] == t[i];
    assert s != "" ==> (t + s)[|t|] == s[0];
    assert n == |t| && (t + s)[..n] == t && (t + s)[n..] == s;
  }

  lemma {:induction false} WovenFields(gaps: seq<string>, tokens: seq<string>)
    requires |gaps| == |tokens| + 1 && Apart(gaps) && forall t <- tokens :: IsToken(t)
    ensures Fields(Weave(gaps, tokens)) == tokens
  {
    if tokens == [] {
      GapsSkipped(gaps[0], "");
      assert gaps[0] + "" == gaps[0];
    } else {
      var rest := Weave(gaps[1..], tokens[1..]);
      assert forall i :: 0 <= i < |gaps| - 1 ==> gaps[1..][i] == gaps[i + 1];
      assert tokens[0] in tokens;
      WovenFields(gaps[1..], tokens[1..]);
      assert rest == "" || IsSpace(rest[0]) by { WhiteAhead(gaps[1..], tokens[1..]); }
      TokenFirst(tokens[0], rest);
      GapsSkipped(gaps[0], tokens[0] + rest);
      assert gaps[0] + (tokens[0] + rest) == gaps[0] + tokens[0] + rest;
    }
  }

  lemma WhiteAhead(gaps: seq<string>, tokens: seq<string>)
    requires |gaps| == |tokens| + 1 && IsGap(gaps[0]) && (tokens != [] ==> gaps[0] != "")
    ensures var s := Weave(gaps, tokens); s == "" || IsSpace(s[0])
  {
  }

  lemma WiderGap(c: char, gaps: seq<string>, tokens: seq<string>) returns (wider: seq<string>)
    requires |gaps| == |tokens| + 1 && Apart(gaps) && IsSpace(c)
    ensures |wider| == |gaps| && Apart(wider) && wider[0] != "" && Weave(wider, tokens) == [c] + Weave(gaps, tokens)
  {
    hide IsSpace;
    wider := [[c] + gaps[0]] + gaps[1..];
    assert wider[1..] == gaps[1..];
    forall i | 0 <= i < |wider| ensures IsGap(wider[i]) {
      assert i > 0 ==> wider[i] == gaps[i];
    }
  }

  lemma OneMoreToken(t: string, gaps: seq<string>, tokens: seq<string>) returns (more: seq<string>)
    requires |gaps| == |tokens| + 1 && Apart(gaps) && (tokens != [] ==> gaps[0] != "")
    ensures |more| == |gaps| + 1 && Apart(more) && Weave(more, [t] + tokens) == t + Weave(gaps, tokens)
  {
    hide IsSpace;
    more := [""] + gaps;
    assert more[1..] == gaps && ([t] + tokens)[1..] == tokens;
    forall i | 0 <= i < |more| ensures IsGap(more[i]) {
      assert i > 0 ==> more[i] == gaps[i - 1];
    }
  }

  lemma {:induction false} FieldsWoven(s: string) returns (gaps: seq<string>)
    ensures |gaps| == |Fields(s)| + 1 && Apart(gaps) && Weave(gaps, Fields(s)) == s
    ensures s != "" && IsSpace(s[0]) ==> gaps[0] != ""
    decreases |s|
  {
    hide IsSpace, Apart, Weave;
    if s == "" {
      gaps := [""];
      assert Apart(gaps) && Weave(gaps, []) == "" by { NoTokens(); }
    } else if IsSpace(s[0]) {
      gaps := FieldsWoven(s[1..]);
      gaps := WiderGap(s[0], gaps, Fields(s[1..]));
      assert s == [s[0]] + s[1..];
    } else {
      var n := TokenLength(s);
      gaps := FieldsWoven(s[n..]);
      gaps := OneMoreToken(s[..n], gaps, Fields(s[n..]));
      assert s == s[..n] + s[n..];
    }
  }

  lemma NoTokens()
    ensures Apart([""]) && Weave([""], []) == ""
  {
  }

  // The fields of s are the one way to read it as tokens apart from each other.
  lemma FieldsExactly(s: string, tokens: seq<string>)
    ensures tokens == Fields(s) <==> MadeOf(s, tokens)
  {
    if tokens == Fields(s) {
      FieldsAreTokens(s);
      var gaps := FieldsWoven(s);
    }
    if MadeOf(s, tokens) {
      var gaps :| |gaps| == |tokens| + 1 && Apart(gaps) && Weave(gaps, tokens) == s;
      WovenFields(gaps, tokens);
    }
  }

  lemma LineAhead(t: string, rest: string)
    requires IsToken(t)
    ensures Fields(t + "\n" + rest) == [t] + Fields(rest)
  {
    hide Fields;
    TokenFirst(t, "\n" + rest);
    GapsSkipped("\n", rest);
    assert t + "\n" + rest == t + ("\n" + rest);
  }

  lemma {:induction false} FieldsOfLines(tokens: seq<string>)
    requires forall t <- tokens :: IsToken(t)
    ensures Fields(Lines(tokens)) == tokens
  {
    if tokens == [] {
    } else {
      assert tokens[0] in tokens;
      FieldsOfLines(tokens[1..]);
      LineAhead(tokens[0], Lines(tokens[1..]));
    }
  }

  method GetPropertiesFields(properties: string) returns (text: string)
    ensures text == Lines(Fields(properties))
  {
    var keys := Fields(properties);
    text := WriteLines(keys);
  }

  // A normal form: printing again changes nothing, the tokens are kept, and
  // two inputs print alike exactly when their token sequences are equal.
  lemma FieldsNormalForm(s: string, t: string)
    ensures Fields(Lines(Fields(s))) == Fields(s)
    ensures Lines(Fields(Lines(Fields(s)))) == Lines(Fields(s))
    ensures Lines(Fields(s)) == Lines(Fields(t)) <==> Fields(s) == Fields(t)
  {
    FieldsAreTokens(s);
    FieldsAreTokens(t);
    FieldsOfLines(Fields(s));
    FieldsOfLines(Fields(t));
  }

  // ---- Printing a map and reading it back ----

  function Entries(keys: seq<string>, m: map<string, string>): seq<string>
    requires forall k <- keys :: k in m
  {
    if keys == [] then [] else [keys[0] + "=" + m[keys[0]]] + Entries(keys[1..], m)
  }

  // One key=value line per entry, keys ascending.
  ghost function TextOf(m: map<string, string>): string {
    KeysListed(m);
    Lines(Entries(OrderedKeys(m.Keys), m))
  }

  lemma {:induction false} EntriesSnoc(keys: seq<string>, k: string, m: map<string, string>)
    requires (forall q <- keys :: q in m) && k in m
    ensures Entries(keys + [k], m) == Entries(keys, m) + [k + "=" + m[k]]
  {
    if keys == [] {
      assert keys + [k] == [k] && [k][1..] == [];
    } else {
      assert (keys + [k])[1..] == keys[1..] + [k];
      EntriesSnoc(keys[1..], k, m);
    }
  }

  function LineOf(m: map<string, string>, k: string): string {
    k + "=" + if k in m then m[k] else ""
  }

  // One key=value line per key, in ascending order of the keys.
  ghost predicate Printed(m: map<string, string>, text: string) {
    exists keys: seq<string> ::
      && Ascending(keys) && (forall k :: k in m <==> k in keys)
      && text == Lines(seq(|keys|, i requires 0 <= i < |keys| => LineOf(m, keys[i])))
  }

  lemma {:induction false} EntriesListed(keys: seq<string>, m: map<string, string>)
    requires forall k <- keys :: k in m
    ensures Entries(keys, m) ==
      seq(|keys|, i requires 0 <= i < |keys| => LineOf(m, keys[i]))
  {
    if keys == [] {
    } else {
      assert keys[0] in keys;
      EntriesListed(keys[1..], m);
    }
  }

  lemma PrintedExactly(m: map<string, string>, text: string)
    ensures text == TextOf(m) <==> Printed(m, text)
  {
    var ordered := OrderedKeys(m.Keys);
    KeysListed(m);
    OrderedKeysAscend(ordered, m.Keys);
    EntriesListed(ordered, m);
    hide Ascending, OrderedKeys, Lines;
    if keys: seq<string> :|
      && Ascending(keys) && (forall k :: k in m <==> k in keys)
      && text == Lines(seq(|keys|, i requires 0 <= i < |keys| => LineOf(m, keys[i])))
    {
      OrderedKeysAscend(keys, m.Keys);
    }
  }

  method GetProperties(properties: map<string, string>) returns (text: string)
    ensures text == TextOf(properties) && Printed(properties, text)
  {
    PrintedExactly(properties, TextOf(properties));
    hide Printed;
    var keys := SortedKeys(properties);
    KeysListed(properties);
    hide OrderedKeys, Lines, Entries, IsOrdered;
    text := "";
    assert text == Lines(Entries([], properties)) by { NoEntries(properties); }
    for i := 0 to |keys|
      invariant text == Lines(Entries(keys[..i], properties))
    {
      var line := keys[i] + "=" + properties[keys[i]];
      assert keys[..i + 1] == keys[..i] + [keys[i]];
      EntriesSnoc(keys[..i], keys[i], properties);
      LinesSnoc(Entries(keys[..i], properties), line);
      text := text + line + "\n";
    }
    assert keys[..|keys|] == keys;
  }

  lemma NoEntries(m: map<string, string>)
    ensures Lines(Entries([], m)) == ""
  {
  }

  // Reads the non-empty lines, each with splitDynamicArgs.
  function ReadLines(lines: seq<string>): Option<map<string, string>> {
    if lines == [] then Some(map[])
    else
      var rest := ReadLines(lines[1..]);
      if lines[0] == "" then rest
      else
        var pair := SplitDynamicArgs(lines[0]);
        if pair.None? || rest.None? then None else Some(map[pair.value.0 := pair.value.1] + rest.value)
  }

  function ReadProperties(text: string): Option<map<string, string>> {
    ReadLines(Split(text, '\n'))
  }

  predicate PlainText(s: string) {
    '=' !in s && '\n' !in s
  }

  predicate Plain(m: map<string, string>) {
    forall k <- m :: PlainText(k) && PlainText(m[k])
  }

  // The entries of m under the listed keys.
  function Among(m: map<string, string>, keys: seq<string>): map<string, string> {
    map k | k in m && k in keys :: m[k]
  }

  lemma AmongNone(m: map<string, string>)
    ensures Among(m, []) == map[]
  {
  }

  lemma AmongMore(m: map<string, string>, keys: seq<string>)
    requires keys != [] && keys[0] in m
    ensures Among(m, keys) == map[keys[0] := m[keys[0]]] + Among(m, keys[1..])
  {
  }

  lemma {:induction false} ReadEntries(keys: seq<string>, m: map<string, string>)
    requires (forall k <- keys :: k in m) && Plain(m)
    ensures ReadLines(Entries(keys, m) + [""]) == Some(Among(m, keys))
    ensures forall e <- Entries(keys, m) :: '\n' !in e
  {
    var lines := Entries(keys, m) + [""];
    if keys == [] {
      assert lines == [""] && lines[1..] == [];
      AmongNone(m);
    } else {
      var k := keys[0];
      assert k in m && PlainText(k) && PlainText(m[k]);
      hide Among;
      ReadEntries(keys[1..], m);
      assert lines[1..] == Entries(keys[1..], m) + [""];
      DynamicArgsExactly(lines[0], k, m[k]);
      AmongMore(m, keys);
    }
  }

  // Whatever is read back is plain.
  lemma {:induction false} ReadingGivesPlain(lines: seq<string>)
    requires forall l <- lines :: '\n' !in l
    ensures ReadLines(lines).Some? ==> Plain(ReadLines(lines).value)
  {
    if lines == [] || ReadLines(lines).None? {
    } else {
      ReadingGivesPlain(lines[1..]);
      if lines[0] != "" {
        var pair := SplitDynamicArgs(lines[0]).value;
        DynamicArgsExactly(lines[0], pair.0, pair.1);
        assert lines[0] in lines;
        assert forall c <- pair.0 :: c in lines[0];
        assert forall c <- pair.1 :: c in lines[0];
      }
    }
  }

  // Print then read gives the map back exactly when its keys and values hold
  // neither '=' nor a newline.
  lemma PrintThenRead(m: map<string, string>)
    ensures ReadProperties(TextOf(m)) == Some(m) <==> Plain(m)
  {
    var keys := OrderedKeys(m.Keys);
    KeysListed(m);
    if Plain(m) {
      ReadEntries(keys, m);
      SplitLines(Entries(keys, m));
      assert Among(m, keys) == m;
    }
    if ReadProperties(TextOf(m)) == Some(m) {
      SplitThenJoin(TextOf(m), '\n');
      ReadingGivesPlain(Split(TextOf(m), '\n'));
    }
  }

  // Hence different plain maps print differently.
  lemma PrintingIsInjective(m: map<string, string>, n: map<string, string>)
    requires Plain(m) && Plain(n)
    ensures TextOf(m) == TextOf(n) <==> m == n
  {
    PrintThenRead(m);
    PrintThenRead(n);
  }
}
