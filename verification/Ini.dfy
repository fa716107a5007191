/** The settings files of lib/ini.cc: `key = value` lines in the order of their keys. */
module Ini {
  datatype Option<T> = None | Some(value: T)

  predicate IsSpace(c: char) {
    c == ' ' || c == '\t' || c == '\n' || c == '\U{0b}' || c == '\U{0c}' || c == '\r'
  }

  predicate IsAlpha(c: char) {
    'a' <= c <= 'z' || 'A' <= c <= 'Z'
  }

  // ---------------------------------------------------------------- reading

  datatype ParserState = KeyStart | Key | KeyEnd | ValueStart | Value | ValueWhitespace | ValueEnd | Broken

  /** The variables of `deserialize`; Broken stands for its having returned nothing. */
  datatype Parser = Parser(state: ParserState, key: string, value: string, space: string, result: map<string, string>)

  const START: Parser := Parser(KeyStart, "", "", "", map[])

  function Commit(p: Parser): Parser {
    Parser(KeyStart, "", "", "", p.result[p.key := p.value])
  }

  function Step(p: Parser, c: char): Parser {
    match p.state
    case KeyStart =>
      if IsSpace(c) then p
      else if IsAlpha(c) then p.(key := p.key + [c], state := Key)
      else p.(state := Broken)
    case Key =>
      if c == '=' then p.(state := ValueStart)
      else if IsSpace(c) then p.(state := KeyEnd)
      else if IsAlpha(c) then p.(key := p.key + [c])
      else p.(state := Broken)
    case KeyEnd =>
      if c == '=' then p.(state := ValueStart) else if !IsSpace(c) then p.(state := Broken) else p
    case ValueStart =>
      if !IsSpace(c) then p.(value := p.value + [c], state := Value) else p
    case Value =>
      if c == '\r' then p.(state := ValueEnd)
      else if c == '\n' then Commit(p)
      else if IsSpace(c) then p.(space := p.space + [c], state := ValueWhitespace)
      else p.(value := p.value + [c])
    case ValueWhitespace =>
      if c == '\r' then p.(space := "", state := ValueEnd)
      else if c == '\n' then Commit(p)
      else if IsSpace(c) then p.(space := p.space + [c])
      else p.(value := p.value + p.space + [c], space := "", state := Value)
    case ValueEnd =>
      if c == '\n' then Commit(p) else p.(state := Broken)
    case Broken => p
  }

  function Run(p: Parser, s: string): Parser
    decreases |s|
  {
    if s == "" then p else Run(Step(p, s[0]), s[1..])
  }

  function Finished(p: Parser): Option<map<string, string>> {
    if p.state == ValueStart || p.state == Value || p.state == ValueWhitespace then Some(p.result[p.key := p.value])
    else if p.state == KeyStart then Some(p.result)
    else None
  }

  function Parsed(contents: string): Option<map<string, string>> {
    Finished(Run(START, contents))
  }

  method Deserialize(contents: string) returns (r: Option<map<string, string>>)
    ensures r == Parsed(contents)
  {
    var p := START;
    var i := 0;
    assert contents[0..] == contents;
    while i < |contents|
      invariant 0 <= i <= |contents| && Run(p, contents[i..]) == Run(START, contents)
    {
      assert contents[i..][1..] == contents[i + 1..];
      p := Step(p, contents[i]);
      hide Step;
      i := i + 1;
      if p.state == Broken {
        StaysBroken(p, contents[i..]);
        return None;
      }
    }
    if p.state == ValueStart || p.state == Value || p.state == ValueWhitespace {
      p := p.(result := p.result[p.key := p.value], state := KeyStart);
    }
    if p.state != KeyStart {
      return None;
    }
    return Some(p.result);
  }

  lemma {:induction false} StaysBroken(p: Parser, s: string)
    requires p.state == Broken
    ensures Run(p, s) == p
    decreases |s|
  {
    if s != "" {
      StaysBroken(p, s[1..]);
    }
  }

  lemma {:induction false} RunSplit(p: Parser, s: string, t: string)
    ensures Run(p, s + t) == Run(Run(p, s), t)
    decreases |s|
  {
    if s == "" {
      assert s + t == t;
    } else {
      assert (s + t)[0] == s[0] && (s + t)[1..] == s[1..] + t;
      hide Step;
      RunSplit(Step(p, s[0]), s[1..], t);
    }
  }

  // ---------------------------------------------------------------- what can come out

  /** Letters only, and at least one. */
  predicate CleanKey(k: string) {
    k != "" && forall i :: 0 <= i < |k| ==> IsAlpha(k[i])
  }

  /** No line ends, and no white space at either end. */
  predicate CleanValue(v: string) {
    && (forall i :: 0 <= i < |v| ==> v[i] != '\r' && v[i] != '\n')
    && (v != "" ==> !IsSpace(v[0]) && !IsSpace(v[|v| - 1]))
  }

  predicate CleanMap(m: map<string, string>) {
    forall k :: k in m ==> CleanKey(k) && CleanValue(m[k])
  }

  predicate Blank(s: string) {
    forall i :: 0 <= i < |s| ==> IsSpace(s[i]) && s[i] != '\r' && s[i] != '\n'
  }

  /** What holds of the parser's variables between two characters. */
  predicate Sound(p: Parser) {
    && CleanMap(p.result) && CleanValue(p.value) && Blank(p.space)
    && (p.state == KeyStart ==> p.key == "" && p.value == "" && p.space == "")
    && (p.state == Key || p.state == KeyEnd || p.state == ValueStart
        ==> CleanKey(p.key) && p.value == "" && p.space == "")
    && (p.state == Value || p.state == ValueEnd ==> CleanKey(p.key) && p.value != "" && p.space == "")
    && (p.state == ValueWhitespace ==> CleanKey(p.key) && p.value != "")
  }

  lemma LongerKey(k: string, c: char)
    requires (k == "" || CleanKey(k)) && IsAlpha(c)
    ensures CleanKey(k + [c])
  {
    hide IsAlpha;
  }

  lemma LongerValue(v: string, s: string, c: char)
    requires CleanValue(v) && Blank(s) && (v == "" ==> s == "") && !IsSpace(c)
    ensures CleanValue(v + s + [c])
  {
    var w := v + s + [c];
    assert w[|w| - 1] == c && (v != "" ==> w[0] == v[0]);
    forall i | 0 <= i < |w| ensures w[i] != '\r' && w[i] != '\n' {
      if i < |v| {
        assert w[i] == v[i];
      } else if i < |v| + |s| {
        assert w[i] == s[i - |v|];
      }
    }
  }

  lemma EmptyIsClean()
    ensures CleanValue("") && Blank("")
  {
  }

  lemma LongerSpace(s: string, c: char)
    requires Blank(s) && IsSpace(c) && c != '\r' && c != '\n'
    ensures Blank(s + [c])
  {
    hide IsSpace;
  }

  lemma CommitSound(p: Parser)
    requires CleanMap(p.result) && CleanKey(p.key) && CleanValue(p.value)
    ensures Sound(Commit(p))
  {
    EmptyIsClean();
    hide CleanKey;
    hide CleanValue;
  }

  lemma KeyStepSound(p: Parser, c: char)
    requires Sound(p) && (p.state == KeyStart || p.state == Key || p.state == KeyEnd)
    ensures Sound(Step(p, c))
  {
    if IsAlpha(c) && p.state != KeyEnd {
      LongerKey(p.key, c);
    }
    hide CleanKey;
    hide CleanValue;
    hide CleanMap;
    hide Blank;
    hide IsAlpha;
    hide IsSpace;
  }

  lemma ValueStepSound(p: Parser, c: char)
    requires Sound(p) && (p.state == ValueStart || p.state == Value || p.state == ValueWhitespace) && c != '\r'
             && c != '\n'
    ensures Sound(Step(p, c))
  {
    EmptyIsClean();
    if IsSpace(c) {
      LongerSpace(p.space, c);
    } else {
      LongerValue(p.value, p.space, c);
      assert p.value + "" == p.value;
    }
    hide CleanKey;
    hide CleanValue;
    hide CleanMap;
    hide Blank;
    hide IsSpace;
  }

  lemma StepSound(p: Parser, c: char)
    requires Sound(p)
    ensures Sound(Step(p, c))
  {
    if p.state == KeyStart || p.state == Key || p.state == KeyEnd {
      KeyStepSound(p, c);
      hide *;
    } else if p.state == ValueStart || ((p.state == Value || p.state == ValueWhitespace) && c != '\r' && c != '\n') {
      SpaceIs(c);
      if c != '\r' && c != '\n' {
        ValueStepSound(p, c);
      }
      hide IsSpace;
      hide Sound;
    } else {
      EmptyIsClean();
      if p.state != Broken {
        CommitSound(p);
      }
      hide CleanKey;
      hide CleanValue;
      hide CleanMap;
      hide Blank;
      hide Commit;
    }
  }

  lemma SpaceIs(c: char)
    ensures c == '\r' || c == '\n' ==> IsSpace(c)
  {
  }

  lemma {:induction false} RunSound(p: Parser, s: string)
    requires Sound(p)
    ensures Sound(Run(p, s))
    decreases |s|
  {
    if s != "" {
      StepSound(p, s[0]);
      hide Step;
      hide Sound;
      RunSound(Step(p, s[0]), s[1..]);
    }
  }

  /** Whatever is read, the keys are letters and the values neither contain line ends nor begin or end in space. */
  lemma OnlyCleanMaps(contents: string)
    ensures Parsed(contents).Some? ==> CleanMap(Parsed(contents).value)
  {
    assert Sound(START);
    RunSound(START, contents);
    hide Run;
    hide CleanKey;
    hide CleanValue;
  }

  // ---------------------------------------------------------------- the order of strings

  /** The order of std::string. */
  predicate Less(a: string, b: string) {
    if b == "" then false
    else if a == "" then true
    else a[0] < b[0] || (a[0] == b[0] && Less(a[1..], b[1..]))
  }

  lemma {:induction false} LessTransitive(a: string, b: string, c: string)
    requires Less(a, b) && Less(b, c)
    ensures Less(a, c)
  {
    if a != "" && a[0] == b[0] == c[0] {
      LessTransitive(a[1..], b[1..], c[1..]);
    }
  }

  lemma {:induction false} LessTotal(a: string, b: string)
    ensures Less(a, b) || a == b || Less(b, a)
    ensures !(Less(a, b) && Less(b, a)) && !Less(a, a)
  {
    if a != "" && b != "" {
      LessTotal(a[1..], b[1..]);
      assert a == [a[0]] + a[1..] && b == [b[0]] + b[1..];
    }
    if a != "" {
      LessTotal(a[1..], a[1..]);
    }
  }

  predicate Sorted(ks: seq<string>) {
    |ks| <= 1 || (Less(ks[0], ks[1]) && Sorted(ks[1..]))
  }

  lemma {:induction false} FirstIsLeast(ks: seq<string>, k: string)
    requires Sorted(ks) && ks != [] && k in ks[1..]
    ensures Less(ks[0], k)
    decreases |ks|
  {
    hide Less;
    if k != ks[1] {
      var t := ks[1..];
      assert k in t[1..];
      FirstIsLeast(t, k);
      LessTransitive(ks[0], ks[1], k);
    }
  }

  /** Two sorted lists of the same keys are the same list. */
  lemma {:induction false} SortedUnique(a: seq<string>, b: seq<string>)
    requires Sorted(a) && Sorted(b) && forall k :: k in a <==> k in b
    ensures a == b
    decreases |a|
  {
    assert a != [] ==> a[0] in b;
    assert b != [] ==> b[0] in a;
    if a != [] {
      SameFirst(a, b);
      TailKeys(a, b);
      SortedUnique(a[1..], b[1..]);
      assert a == [a[0]] + a[1..] && b == [b[0]] + b[1..];
    }
  }

  lemma SameFirst(a: seq<string>, b: seq<string>)
    requires Sorted(a) && Sorted(b) && a != [] && b != [] && a[0] in b && b[0] in a
    ensures a[0] == b[0]
  {
    hide Less;
    hide Sorted;
    if a[0] != b[0] {
      FirstIsLeast(a, b[0]);
      FirstIsLeast(b, a[0]);
      LessTotal(a[0], b[0]);
    }
  }

  lemma TailKeys(a: seq<string>, b: seq<string>)
    requires Sorted(a) && Sorted(b) && a != [] && b != [] && a[0] == b[0] && forall k :: k in a <==> k in b
    ensures forall k :: k in a[1..] <==> k in b[1..]
    ensures Sorted(a[1..]) && Sorted(b[1..])
  {
    hide Less;
    forall k ensures k in a[1..] <==> k in b[1..] {
      if k in a[1..] {
        FirstIsLeast(a, k);
        LessTotal(k, k);
        assert k in a && k != a[0];
      }
      if k in b[1..] {
        FirstIsLeast(b, k);
        LessTotal(k, k);
        assert k in b && k != b[0];
      }
    }
  }

  // ---------------------------------------------------------------- writing

  function Line(key: string, value: string): string {
    key + " = " + value + "\r\n"
  }

  function Lines(ks: seq<string>, m: map<string, string>): string
    requires forall k :: k in ks ==> k in m
    decreases |ks|
  {
    if ks == [] then "" else Line(ks[0], m[ks[0]]) + Lines(ks[1..], m)
  }

  /** The keys of a map in order. */
  ghost predicate Listing(ks: seq<string>, m: map<string, string>) {
    Sorted(ks) && forall k :: k in ks <==> k in m
  }

  function Insert(ks: seq<string>, k: string): seq<string> {
    if ks == [] || Less(k, ks[0]) then [k] + ks else [ks[0]] + Insert(ks[1..], k)
  }

  lemma {:induction false} InsertSorts(ks: seq<string>, k: string)
    requires Sorted(ks) && k !in ks
    ensures Sorted(Insert(ks, k))
    ensures forall x :: x in Insert(ks, k) <==> x == k || x in ks
    ensures Insert(ks, k)[0] == k || (ks != [] && Insert(ks, k)[0] == ks[0])
    decreases |ks|
  {
    hide Less;
    if ks != [] && !Less(k, ks[0]) {
      LessTotal(k, ks[0]);
      InsertSorts(ks[1..], k);
      var t := Insert(ks[1..], k);
      assert ([ks[0]] + t)[1..] == t;
    } else {
      assert ([k] + ks)[1..] == ks;
    }
  }

  /** The text does not depend on the order in which the hash map yields its keys. */
  method Serialize(m: map<string, string>) returns (text: string, ghost ks: seq<string>)
    ensures Listing(ks, m) && text == Lines(ks, m)
  {
    var sortedKeys: seq<string> := [];
    var left := m.Keys;
    while left != {}
      invariant left <= m.Keys
      invariant Sorted(sortedKeys) && forall k :: k in sortedKeys <==> k in m.Keys - left
      decreases |left|
    {
      var k :| k in left;
      InsertSorts(sortedKeys, k);
      hide Insert;
      hide Sorted;
      sortedKeys := Insert(sortedKeys, k);
      left := left - {k};
    }
    ks := sortedKeys;
    text := "";
    var i := 0;
    assert ks[0..] == ks;
    while i < |sortedKeys|
      invariant 0 <= i <= |sortedKeys|
      invariant forall k :: k in ks ==> k in m
      invariant text + Lines(sortedKeys[i..], m) == Lines(ks, m)
    {
      var key := sortedKeys[i];
      assert key in ks;
      assert sortedKeys[i..][1..] == sortedKeys[i + 1..];
      text := text + (key + " = " + m[key] + "\r\n");
      hide Line;
      i := i + 1;
    }
  }

  lemma OneText(m: map<string, string>, ks: seq<string>, ks': seq<string>)
    requires Listing(ks, m) && Listing(ks', m)
    ensures Lines(ks, m) == Lines(ks', m)
  {
    SortedUnique(ks, ks');
  }

  // ---------------------------------------------------------------- reading what was written

  predicate Letters(k: string) {
    forall i :: 0 <= i < |k| ==> IsAlpha(k[i])
  }

  predicate NoLineEnds(v: string) {
    forall i :: 0 <= i < |v| ==> v[i] != '\r' && v[i] != '\n'
  }

  lemma AlphaIsPlain(c: char)
    requires IsAlpha(c)
    ensures !IsSpace(c) && c != '=' && c != '\r' && c != '\n'
  {
  }

  lemma RestOf(s: string)
    requires s != ""
    ensures Letters(s) ==> Letters(s[1..]) && IsAlpha(s[0])
    ensures NoLineEnds(s) ==> NoLineEnds(s[1..]) && s[0] != '\r' && s[0] != '\n'
  {
    hide IsAlpha;
    assert forall i :: 0 <= i < |s[1..]| ==> s[1..][i] == s[i + 1];
  }

  lemma {:induction false} KeyRun(p: Parser, k: string)
    requires Letters(k) && (p.state == KeyStart || p.state == Key)
    ensures Run(p, k) == p.(state := if k == "" then p.state else Key, key := p.key + k)
    decreases |k|
  {
    if k == "" {
      assert p.key + "" == p.key;
    } else {
      RestOf(k);
      AlphaIsPlain(k[0]);
      var q := p.(state := Key, key := p.key + [k[0]]);
      assert Step(p, k[0]) == q;
      hide Step;
      hide Letters;
      KeyRun(q, k[1..]);
      assert p.key + [k[0]] + k[1..] == p.key + k;
    }
  }

  /** Inside a value: white space is pending exactly in the state for it. */
  predicate InValue(p: Parser) {
    (p.state == Value && p.space == "") || (p.state == ValueWhitespace && p.space != "")
  }

  lemma ValueStep(p: Parser, c: char)
    requires InValue(p) && c != '\r' && c != '\n'
    ensures var q := Step(p, c);
            && InValue(q) && q.key == p.key && q.result == p.result
            && q.value + q.space == p.value + p.space + [c]
            && (q.state == Value <==> !IsSpace(c))
  {
    hide IsSpace;
    assert p.value + [c] + "" == p.value + "" + [c];
    assert p.value + p.space + [c] + "" == p.value + p.space + [c];
    assert p.value + (p.space + [c]) == p.value + p.space + [c];
  }

  lemma {:induction false} ValueRun(p: Parser, v: string)
    requires InValue(p) && NoLineEnds(v)
    ensures var q := Run(p, v);
            && InValue(q) && q.key == p.key && q.result == p.result
            && q.value + q.space == p.value + p.space + v
            && (v != "" ==> (q.state == Value <==> !IsSpace(v[|v| - 1])))
    decreases |v|
  {
    if v == "" {
      assert p.value + p.space + "" == p.value + p.space;
    } else {
      RestOf(v);
      ValueStep(p, v[0]);
      hide Step;
      hide InValue;
      hide NoLineEnds;
      hide IsSpace;
      var q := Step(p, v[0]);
      ValueRun(q, v[1..]);
      if |v| == 1 {
        assert v[1..] == "" && Run(q, "") == q;
      }
      assert p.value + p.space + [v[0]] + v[1..] == p.value + p.space + v;
    }
  }

  lemma RunThree(p: Parser, a: char, b: char, c: char)
    ensures Run(p, [a, b, c]) == Step(Step(Step(p, a), b), c)
  {
    hide Step;
    assert [a, b, c][1..] == [b, c] && [b, c][1..] == [c] && [c][1..] == "";
    assert Run(Step(p, a), [b, c]) == Run(Step(Step(p, a), b), [c]);
  }

  lemma RunTwo(p: Parser, a: char, b: char)
    ensures Run(p, [a, b]) == Step(Step(p, a), b)
  {
    hide Step;
    assert [a, b][1..] == [b] && [b][1..] == "";
    assert Run(Step(p, a), [b]) == Run(Step(Step(p, a), b), "");
  }

  /** The separator after a key, and inside a value. */
  lemma EqualsRun(p: Parser)
    ensures p.state == Key ==> Run(p, " = ") == p.(state := ValueStart)
    ensures p.state == Value && p.space == "" ==>
              Run(p, " = ") == p.(state := ValueWhitespace, value := p.value + " =", space := " ")
  {
    RunThree(p, ' ', '=', ' ');
    assert " = " == [' ', '=', ' '];
    hide Run;
    assert "" + [' '] == " " && p.value + " " + ['='] == p.value + " =";
  }

  /** The end of a line: it completes a value, but does not even end an empty one. */
  lemma EndRun(p: Parser)
    ensures InValue(p) ==> Run(p, "\r\n") == Commit(p)
    ensures p.state == ValueStart ==> Run(p, "\r\n") == p
  {
    RunTwo(p, '\r', '\n');
    assert "\r\n" == ['\r', '\n'];
    hide Run;
  }

  /** The four parts of a line, one after the other. */
  lemma LineParts(p: Parser, key: string, value: string)
    ensures Run(p, Line(key, value)) == Run(Run(Run(Run(p, key), " = "), value), "\r\n")
  {
    RunSplit(p, key + " = " + value, "\r\n");
    RunSplit(p, key + " = ", value);
    RunSplit(p, key, " = ");
    hide Run;
  }

  function Ready(result: map<string, string>): Parser {
    Parser(KeyStart, "", "", "", result)
  }

  lemma CleanKeyIs(k: string)
    ensures CleanKey(k) <==> k != "" && Letters(k)
  {
  }

  lemma FirstOfValue(p: Parser, v: string)
    requires p.state == ValueStart && p.value == "" && p.space == "" && v != "" && !IsSpace(v[0]) && NoLineEnds(v)
    ensures var q := Run(p, v);
            && InValue(q) && q.key == p.key && q.result == p.result && q.value + q.space == v
            && (q.state == Value <==> !IsSpace(v[|v| - 1]))
  {
    RestOf(v);
    var q := p.(state := Value, value := [v[0]]);
    assert Step(p, v[0]) == q by { assert "" + [v[0]] == [v[0]]; }
    hide Step;
    ValueRun(q, v[1..]);
    hide NoLineEnds;
    hide IsSpace;
    assert [v[0]] + "" + v[1..] == v;
    if |v| == 1 {
      assert v[1..] == "" && Run(q, "") == q;
    }
  }

  /** A line with a value is read as an assignment. */
  lemma LineRun(result: map<string, string>, key: string, value: string)
    requires CleanKey(key) && CleanValue(value) && value != ""
    ensures Run(Ready(result), Line(key, value)) == Ready(result[key := value])
  {
    var p := Ready(result);
    LineParts(p, key, value);
    CleanKeyIs(key);
    KeyRun(p, key);
    var p1 := Run(p, key);
    assert "" + key == key;
    EqualsRun(p1);
    var p2 := Run(p1, " = ");
    FirstOfValue(p2, value);
    var p3 := Run(p2, value);
    EndRun(p3);
    assert p3.value + "" == p3.value;
    hide Run;
    hide Step;
    hide CleanKey;
    hide CleanValue;
    hide IsSpace;
  }

  /** A line without a value leaves the parser looking for one. */
  lemma EmptyLineRun(result: map<string, string>, key: string)
    requires CleanKey(key)
    ensures Run(Ready(result), Line(key, "")) == Parser(ValueStart, key, "", "", result)
  {
    var p := Ready(result);
    LineParts(p, key, "");
    CleanKeyIs(key);
    KeyRun(p, key);
    assert "" + key == key;
    var p1 := Run(p, key);
    EqualsRun(p1);
    var p2 := Run(p1, " = ");
    assert Run(p2, "") == p2;
    EndRun(p2);
    hide Run;
    hide Step;
    hide CleanKey;
  }

  /** ... which it then finds in the next line, all of it. */
  lemma SwallowRun(result: map<string, string>, key: string, next: string, value: string)
    requires CleanKey(next) && CleanValue(value)
    ensures var w := if value == "" then next + " =" else next + " = " + value;
            Run(Parser(ValueStart, key, "", "", result), Line(next, value)) == Ready(result[key := w])
  {
    var p := Parser(ValueStart, key, "", "", result);
    LineParts(p, next, value);
    CleanKeyIs(next);
    AlphaIsPlain(next[0]);
    AlphaIsPlain(next[|next| - 1]);
    LettersNoEnds(next);
    FirstOfValue(p, next);
    var p1 := Run(p, next);
    assert p1.value + "" == p1.value;
    EqualsRun(p1);
    var p2 := Run(p1, " = ");
    ValueRun(p2, value);
    var p3 := Run(p2, value);
    assert next + " =" + " " + value == next + " = " + value;
    EndRun(p3);
    assert Run(p2, "") == p2;
    hide Run;
    hide Step;
    hide CleanKey;
    hide IsSpace;
    assert value != "" ==> p3.value + "" == p3.value;
  }

  lemma LettersNoEnds(k: string)
    requires Letters(k)
    ensures NoLineEnds(k)
  {
    forall i | 0 <= i < |k| ensures k[i] != '\r' && k[i] != '\n' {
      AlphaIsPlain(k[i]);
    }
  }

  /** The assignments of some keys, one after the other. */
  function Added(r: map<string, string>, ks: seq<string>, m: map<string, string>): map<string, string>
    requires forall k :: k in ks ==> k in m
    decreases |ks|
  {
    if ks == [] then r else Added(r[ks[0] := m[ks[0]]], ks[1..], m)
  }

  lemma {:induction false} AddedIs(r: map<string, string>, ks: seq<string>, m: map<string, string>)
    requires forall k :: k in ks ==> k in m
    ensures forall k :: k in Added(r, ks, m) <==> k in r || k in ks
    ensures forall k :: k in Added(r, ks, m) ==> Added(r, ks, m)[k] == if k in ks then m[k] else r[k]
    decreases |ks|
  {
    if ks != [] {
      AddedIs(r[ks[0] := m[ks[0]]], ks[1..], m);
      assert forall k :: k in ks <==> k == ks[0] || k in ks[1..];
    }
  }

  /** Only the last of these keys may have an empty value. */
  predicate OnlyLastEmpty(ks: seq<string>, m: map<string, string>)
    requires forall k :: k in ks ==> k in m
  {
    forall i :: 0 <= i < |ks| - 1 ==> m[ks[i]] != ""
  }

  lemma RestKeys(ks: seq<string>, m: map<string, string>)
    requires ks != [] && forall k :: k in ks ==> k in m
    ensures ks[0] in m && forall k :: k in ks[1..] ==> k in m
    ensures OnlyLastEmpty(ks, m) <==> (|ks| > 1 ==> m[ks[0]] != "") && OnlyLastEmpty(ks[1..], m)
  {
    assert ks[0] in ks;
    assert forall i :: 0 <= i < |ks[1..]| ==> ks[1..][i] == ks[i + 1];
    if (|ks| > 1 ==> m[ks[0]] != "") && OnlyLastEmpty(ks[1..], m) {
      forall i | 0 <= i < |ks| - 1 ensures m[ks[i]] != "" {
        if i > 0 {
          assert ks[1..][i - 1] == ks[i];
        }
      }
    }
    if OnlyLastEmpty(ks, m) {
      forall i | 0 <= i < |ks[1..]| - 1 ensures m[ks[1..][i]] != "" {
        assert ks[1..][i] == ks[i + 1];
      }
    }
  }

  /** The lines are read back when only the last value may be empty. */
  lemma {:induction false} LinesRead(r: map<string, string>, ks: seq<string>, m: map<string, string>)
    requires (forall k :: k in ks ==> k in m) && CleanMap(m) && OnlyLastEmpty(ks, m)
    ensures Finished(Run(Ready(r), Lines(ks, m))) == Some(Added(r, ks, m))
    decreases |ks|
  {
    if ks != [] {
      var k, t := ks[0], ks[1..];
      RestKeys(ks, m);
      RunSplit(Ready(r), Line(k, m[k]), Lines(t, m));
      hide CleanKey;
      hide CleanValue;
      hide Line;
      hide OnlyLastEmpty;
      hide Run;
      if m[k] != "" {
        LineRun(r, k, m[k]);
        LinesRead(r[k := m[k]], t, m);
      } else {
        assert t == [];
        EmptyLineRun(r, k);
        NothingMore(Parser(ValueStart, k, "", "", r), m);
      }
    } else {
      NothingMore(Ready(r), m);
    }
  }

  lemma NothingMore(p: Parser, m: map<string, string>)
    ensures Run(p, Lines([], m)) == p
  {
  }

  /** Lines for other keys do not change what a key has been given. */
  lemma {:induction false} OthersUntouched(r: map<string, string>, ks: seq<string>, m: map<string, string>, x: string)
    requires (forall k :: k in ks ==> k in m) && CleanMap(m) && x in r && x !in ks
    ensures var f := Finished(Run(Ready(r), Lines(ks, m))); f.Some? ==> x in f.value && f.value[x] == r[x]
    decreases |ks|
  {
    if ks != [] {
      var k, t := ks[0], ks[1..];
      RestKeys(ks, m);
      RunSplit(Ready(r), Line(k, m[k]), Lines(t, m));
      hide CleanKey;
      hide CleanValue;
      hide Line;
      hide OnlyLastEmpty;
      if m[k] != "" {
        LineRun(r, k, m[k]);
        hide Run;
        OthersUntouched(r[k := m[k]], t, m, x);
      } else {
        EmptyLineRun(r, k);
        hide Run;
        if t == [] {
          NothingMore(Parser(ValueStart, k, "", "", r), m);
        } else {
          var w := Swallowed(r, k, t, m);
          OthersUntouched(r[k := w], t[1..], m, x);
        }
      }
    } else {
      NothingMore(Ready(r), m);
    }
  }

  /** After an empty value the next line is swallowed: the value becomes something else. */
  lemma Swallowed(r: map<string, string>, k: string, t: seq<string>, m: map<string, string>) returns (w: string)
    requires t != [] && (forall k' :: k' in t ==> k' in m) && CleanMap(m)
    ensures w != ""
    ensures forall k' :: k' in t[1..] ==> k' in m
    ensures Run(Parser(ValueStart, k, "", "", r), Lines(t, m)) == Run(Ready(r[k := w]), Lines(t[1..], m))
  {
    RestKeys(t, m);
    var next := t[0];
    var p := Parser(ValueStart, k, "", "", r);
    w := if m[next] == "" then next + " =" else next + " = " + m[next];
    SwallowRun(r, k, next, m[next]);
    RunSplit(p, Line(next, m[next]), Lines(t[1..], m));
    hide CleanKey;
    hide CleanValue;
    hide Run;
    hide Line;
  }

  /** An empty value that is not the last one does not come back. */
  lemma {:induction false} EmptyValueLost(r: map<string, string>, ks: seq<string>, m: map<string, string>)
    requires (forall k :: k in ks ==> k in m) && Sorted(ks) && CleanMap(m) && !OnlyLastEmpty(ks, m)
    ensures Finished(Run(Ready(r), Lines(ks, m))) != Some(m)
    decreases |ks|
  {
    var k, t := ks[0], ks[1..];
    RestKeys(ks, m);
    RunSplit(Ready(r), Line(k, m[k]), Lines(t, m));
    if k in t {
      FirstIsLeast(ks, k);
      LessTotal(k, k);
    }
    assert Sorted(t);
    hide Less;
    hide Sorted;
    hide CleanKey;
    hide CleanValue;
    hide Line;
    if m[k] != "" {
      LineRun(r, k, m[k]);
      hide Run;
      EmptyValueLost(r[k := m[k]], t, m);
    } else {
      EmptyLineRun(r, k);
      assert t != [];
      hide Run;
      hide OnlyLastEmpty;
      var w := Swallowed(r, k, t, m);
      assert k !in t[1..];
      OthersUntouched(r[k := w], t[1..], m, k);
    }
  }

  /**
   * A map comes back from its text exactly when its keys are letters, its values contain no line ends and
   * neither begin nor end in white space, and no value but that of the greatest key is empty.
   */
  lemma RoundTripExactly(ks: seq<string>, m: map<string, string>)
    requires Listing(ks, m)
    ensures Parsed(Lines(ks, m)) == Some(m) <==> CleanMap(m) && OnlyLastEmpty(ks, m)
  {
    OnlyCleanMaps(Lines(ks, m));
    if CleanMap(m) {
      if OnlyLastEmpty(ks, m) {
        LinesRead(map[], ks, m);
        AddedIs(map[], ks, m);
        assert Added(map[], ks, m) == m;
      } else {
        EmptyValueLost(map[], ks, m);
      }
    }
    hide Run;
    hide Lines;
    hide Sorted;
    hide CleanMap;
    hide OnlyLastEmpty;
  }

  // ---------------------------------------------------------------- the grammar

  /**
   * The pieces of an entry: white space, key, white space, "=", white space, value, blanks, and the end of the line.
   * The end of a text may lack the later ones.
   */
  datatype Entry = Entry(lead: string, key: string, before: string, eq: string, after: string, value: string,
                         trail: string, end: string)

  const NOTHING: Entry := Entry("", "", "", "", "", "", "", "")

  function Text(e: Entry): string {
    e.lead + e.key + e.before + e.eq + e.after + e.value + e.trail + e.end
  }

  /** Tabs, line ends, form feeds and spaces: the codes 9 to 13, and 32. */
  predicate Spaces(s: string) {
    forall i :: 0 <= i < |s| ==> 9 <= s[i] as int <= 13 || s[i] as int == 32
  }

  /** An entry with a value, up to the end of its line, if that is there. */
  predicate Started(e: Entry) {
    && Spaces(e.lead) && CleanKey(e.key) && Spaces(e.before) && e.eq == "=" && Spaces(e.after)
    && CleanValue(e.value) && Blank(e.trail) && (e.value == "" ==> e.trail == "")
  }

  predicate IsEntry(e: Entry) {
    Started(e) && e.value != "" && (e.end == "\r\n" || e.end == "\n")
  }

  predicate Entries(es: seq<Entry>) {
    forall i :: 0 <= i < |es| ==> IsEntry(es[i])
  }

  function Texts(es: seq<Entry>): string {
    if es == [] then "" else Texts(es[..|es| - 1]) + Text(es[|es| - 1])
  }

  function Assigned(es: seq<Entry>): map<string, string> {
    if es == [] then map[]
    else Assigned(es[..|es| - 1])[es[|es| - 1].key := es[|es| - 1].value]
  }

  /** Entries, and then white space, or an entry whose line does not end; it may lack its value. */
  predicate Document(es: seq<Entry>, last: Entry, m: map<string, string>) {
    && Entries(es)
    && if Started(last) && last.end == "" then m == Assigned(es)[last.key := last.value]
       else Spaces(last.lead) && last == NOTHING.(lead := last.lead) && m == Assigned(es)
  }

  /** The characters that count as white space, and as letters. */
  lemma CharacterClasses(c: char)
    ensures IsSpace(c) <==> 9 <= c as int <= 13 || c as int == 32
    ensures IsAlpha(c) <==> 65 <= c as int <= 90 || 97 <= c as int <= 122
  {
  }

  lemma SpacesMore(s: string, c: char)
    requires Spaces(s)
    ensures Spaces(s + [c]) <==> IsSpace(c)
  {
    CharacterClasses(c);
    var t := s + [c];
    assert t[|s|] == c && forall i :: 0 <= i < |s| ==> t[i] == s[i];
  }

  lemma {:induction false} Skips(p: Parser, s: string)
    requires Spaces(s) && (p.state == KeyStart || p.state == KeyEnd || p.state == ValueStart)
    ensures Run(p, s) == p
    decreases |s|
  {
    if s != "" {
      CharacterClasses(s[0]);
      SpacesNotEqual(s[0]);
      assert Step(p, s[0]) == p;
      hide Step;
      assert forall i :: 0 <= i < |s[1..]| ==> s[1..][i] == s[i + 1];
      Skips(p, s[1..]);
    }
  }

  lemma SpacesNotEqual(c: char)
    ensures IsSpace(c) ==> c != '='
  {
  }

  /** The blanks behind a key, and the sign. */
  lemma SignRun(p: Parser, s: string)
    requires Spaces(s) && p.state == Key
    ensures Run(p, s + "=") == p.(state := ValueStart)
  {
    RunSplit(p, s, "=");
    if s != "" {
      var q := p.(state := KeyEnd);
      CharacterClasses(s[0]);
      SpacesNotEqual(s[0]);
      assert Step(p, s[0]) == q;
      assert forall i :: 0 <= i < |s[1..]| ==> s[1..][i] == s[i + 1];
      Skips(q, s[1..]);
      assert Run(p, s) == q;
      OneRun(q, '=');
    } else {
      OneRun(p, '=');
    }
    assert ['='] == "=";
    hide Spaces;
    hide IsSpace;
  }

  lemma OneRun(p: Parser, c: char)
    ensures Run(p, [c]) == Step(p, c)
  {
    assert [c][1..] == "" && Run(Step(p, c), "") == Step(p, c);
    hide Step;
  }

  /** Blanks behind a value are kept for the case that more of it follows. */
  lemma {:induction false} TrailRun(p: Parser, s: string)
    requires Blank(s) && InValue(p)
    ensures Run(p, s) == p.(state := if s == "" then p.state else ValueWhitespace, space := p.space + s)
    decreases |s|
  {
    if s == "" {
      assert p.space + "" == p.space;
    } else {
      var q := p.(state := ValueWhitespace, space := p.space + [s[0]]);
      assert Step(p, s[0]) == q;
      hide Step;
      hide IsSpace;
      assert forall i :: 0 <= i < |s[1..]| ==> s[1..][i] == s[i + 1];
      TrailRun(q, s[1..]);
      assert p.space + [s[0]] + s[1..] == p.space + s;
    }
  }

  /** What the parser has read of an entry whose line has not ended. */
  function ValueOf(result: map<string, string>, e: Entry): Parser {
    Parser(if e.value == "" then ValueStart else if e.trail == "" then Value else ValueWhitespace,
           e.key, e.value, e.trail, result)
  }

  lemma PiecesRun(p: Parser, e: Entry)
    ensures Run(p, Text(e))
            == Run(Run(Run(Run(Run(Run(Run(p, e.lead), e.key), e.before + e.eq), e.after), e.value), e.trail), e.end)
  {
    var a := e.lead + e.key;
    var b := a + (e.before + e.eq);
    assert Text(e) == b + e.after + e.value + e.trail + e.end;
    hide *;
    RunSplit(p, e.lead, e.key);
    RunSplit(p, a, e.before + e.eq);
    RunSplit(p, b, e.after);
    RunSplit(p, b + e.after, e.value);
    RunSplit(p, b + e.after + e.value, e.trail);
    RunSplit(p, b + e.after + e.value + e.trail, e.end);
  }

  lemma HeadRun(result: map<string, string>, e: Entry)
    requires Started(e)
    ensures Run(Run(Run(Run(Ready(result), e.lead), e.key), e.before + e.eq), e.after)
            == Parser(ValueStart, e.key, "", "", result)
  {
    var p := Ready(result);
    CleanKeyIs(e.key);
    assert "" + e.key == e.key;
    hide Run;
    hide Spaces;
    hide CleanKey;
    hide CleanValue;
    hide Blank;
    Skips(p, e.lead);
    KeyRun(p, e.key);
    SignRun(p.(state := Key, key := e.key), e.before);
    Skips(Parser(ValueStart, e.key, "", "", result), e.after);
  }

  lemma StartedRun(result: map<string, string>, e: Entry)
    requires Started(e) && e.end == ""
    ensures Run(Ready(result), Text(e)) == ValueOf(result, e)
  {
    PiecesRun(Ready(result), e);
    HeadRun(result, e);
    var p := Parser(ValueStart, e.key, "", "", result);
    RunNothing(p);
    RunNothing(ValueOf(result, e));
    if e.value != "" {
      ValueThere(p, e.value);
      TrailRun(Parser(Value, e.key, e.value, "", result), e.trail);
      assert "" + e.trail == e.trail;
    }
    hide Run;
    hide Blank;
    hide CleanKey;
    hide CleanValue;
    hide Spaces;
  }

  lemma ValueThere(p: Parser, v: string)
    requires p.state == ValueStart && p.value == "" && p.space == "" && v != "" && CleanValue(v)
    ensures Run(p, v) == p.(state := Value, value := v)
  {
    FirstOfValue(p, v);
    assert Run(p, v).value + "" == Run(p, v).value;
    hide Run;
  }

  lemma RunNothing(p: Parser)
    ensures Run(p, "") == p
  {
  }

  /** An entry is read as its assignment, whichever way its line ends. */
  lemma EntryRun(result: map<string, string>, e: Entry)
    requires IsEntry(e)
    ensures Run(Ready(result), Text(e)) == Ready(result[e.key := e.value])
  {
    var e0 := e.(end := "");
    StartedRun(result, e0);
    var p := ValueOf(result, e);
    assert Text(e) == Text(e0) + e.end by { assert Text(e0) + e.end == Text(e); }
    RunSplit(Ready(result), Text(e0), e.end);
    EndRun(p);
    OneRun(p, '\n');
    assert ['\n'] == "\n";
    hide Run;
    hide Text;
    hide IsSpace;
  }

  lemma {:induction false} EntriesRun(es: seq<Entry>)
    requires Entries(es)
    ensures Run(START, Texts(es)) == Ready(Assigned(es))
    decreases |es|
  {
    if es != [] {
      var init, e := es[..|es| - 1], es[|es| - 1];
      EntriesRun(init);
      EntryRun(Assigned(init), e);
      RunSplit(START, Texts(init), Text(e));
      hide Run;
      hide IsEntry;
    }
  }

  /** Every document is read as what it says. */
  lemma DocumentRead(es: seq<Entry>, last: Entry, m: map<string, string>)
    requires Document(es, last, m)
    ensures Parsed(Texts(es) + Text(last)) == Some(m)
  {
    var r := Assigned(es);
    EntriesRun(es);
    RunSplit(START, Texts(es), Text(last));
    if Started(last) && last.end == "" {
      StartedRun(r, last);
    } else {
      Skips(Ready(r), last.lead);
      assert Text(last) == last.lead;
    }
    hide Run;
    hide Started;
    hide Texts;
    hide Text;
  }

  /** The pieces read so far are those of the parser's variables, and the state says how far they go. */
  predicate Pieces(p: Parser, e: Entry) {
    && Spaces(e.lead) && e.key == p.key && e.value == p.value
    && (p.state != Broken)
    && (p.state == KeyStart || p.state == Key ==> e.before == "")
    && (p.state == KeyStart || p.state == Key || p.state == KeyEnd ==> e.eq == "" && e.after == "")
    && (p.state == ValueStart || p.state == Value || p.state == ValueWhitespace || p.state == ValueEnd ==> e.eq == "=")
    && Spaces(e.before) && Spaces(e.after) && Blank(e.trail)
    && (p.state != ValueEnd ==> e.trail == p.space && e.end == "")
    && (p.state == ValueEnd ==> e.end == "\r")
  }

  /** A character more in one of the pieces, when those behind it are empty. */
  lemma LongerHead(e: Entry, c: char)
    requires e.eq == e.after == e.value == e.trail == e.end == ""
    ensures e.key == e.before == "" ==> Text(e.(lead := e.lead + [c])) == Text(e) + [c]
    ensures e.before == "" ==> Text(e.(key := e.key + [c])) == Text(e) + [c]
    ensures Text(e.(before := e.before + [c])) == Text(e) + [c] && Text(e.(eq := [c])) == Text(e) + [c]
  {
  }

  lemma LongerTail(e: Entry, c: char)
    ensures e.value == e.trail == e.end == "" ==> Text(e.(after := e.after + [c])) == Text(e) + [c]
    ensures e.end == "" ==> Text(e.(value := e.value + e.trail + [c], trail := "")) == Text(e) + [c]
    ensures e.end == "" ==> Text(e.(trail := e.trail + [c])) == Text(e) + [c]
    ensures Text(e.(end := e.end + [c])) == Text(e) + [c]
  {
  }

  lemma SoundVariables(p: Parser)
    requires Sound(p)
    ensures p.state == KeyStart ==> p.key == ""
    ensures p.state == KeyStart || p.state == Key || p.state == KeyEnd || p.state == ValueStart
            ==> p.value == p.space == ""
    ensures p.state == Value || p.state == ValueEnd ==> p.space == ""
    ensures p.state == Value || p.state == ValueWhitespace || p.state == ValueEnd ==> CleanKey(p.key) && p.value != ""
    ensures CleanValue(p.value) && Blank(p.space)
  {
    hide CleanKey;
    hide CleanValue;
    hide CleanMap;
    hide Blank;
  }

  /** One character more, up to the sign. */
  lemma KeyPieces(p: Parser, e: Entry, c: char) returns (e': Entry)
    requires Sound(p) && Pieces(p, e) && Step(p, c).state != Broken
    requires p.state == KeyStart || p.state == Key || p.state == KeyEnd
    ensures var q := Step(p, c); Text(e') == Text(e) + [c] && Pieces(q, e') && q.result == p.result
  {
    SoundVariables(p);
    hide Sound;
    hide Text;
    LongerHead(e, c);
    SpacesMore(e.lead, c);
    SpacesMore(e.before, c);
    SpacesNotEqual(c);
    hide Spaces;
    hide Blank;
    hide CleanValue;
    hide CleanKey;
    hide IsAlpha;
    hide IsSpace;
    e' := if c == '=' then e.(eq := [c])
          else if IsSpace(c) && p.state == KeyStart then e.(lead := e.lead + [c])
          else if IsSpace(c) then e.(before := e.before + [c])
          else e.(key := e.key + [c]);
  }

  /** One character more, behind the sign. */
  lemma AfterPieces(p: Parser, e: Entry, c: char) returns (e': Entry)
    requires Sound(p) && Pieces(p, e) && p.state == ValueStart
    ensures var q := Step(p, c); Text(e') == Text(e) + [c] && Pieces(q, e') && q.result == p.result
  {
    SoundVariables(p);
    hide Sound;
    hide Text;
    LongerTail(e, c);
    SpacesMore(e.after, c);
    hide Spaces;
    hide Blank;
    hide CleanValue;
    hide CleanKey;
    hide IsSpace;
    assert "" + "" + [c] == "" + [c];
    e' := if IsSpace(c) then e.(after := e.after + [c]) else e.(value := e.value + e.trail + [c], trail := "");
  }

  /** One character more, in the value or behind it; `done` is the end of the line. */
  lemma ValuePieces(p: Parser, e: Entry, c: char) returns (e': Entry, done: bool)
    requires Sound(p) && Pieces(p, e) && Step(p, c).state != Broken
    requires p.state == Value || p.state == ValueWhitespace || p.state == ValueEnd
    ensures var q := Step(p, c);
            && Text(e') == Text(e) + [c]
            && (!done ==> Pieces(q, e') && q.result == p.result)
            && (done ==> IsEntry(e') && q == Ready(p.result[e'.key := e'.value]))
  {
    SoundVariables(p);
    hide Sound;
    hide Text;
    LongerTail(e, c);
    EmptyIsClean();
    done := c == '\n';
    if c == '\n' || c == '\r' {
      e' := e.(end := e.end + [c]);
    } else if IsSpace(c) {
      LongerSpace(e.trail, c);
      e' := e.(trail := e.trail + [c]);
    } else {
      e' := e.(value := e.value + e.trail + [c], trail := "");
      assert e.value + "" + [c] == e.value + [c];
    }
    assert "" + [c] == [c] && "\r" + ['\n'] == "\r\n";
    hide Spaces;
    hide Blank;
    hide CleanKey;
    hide CleanValue;
    hide IsSpace;
  }

  /** What the parser has read: entries, and the pieces of one more. */
  lemma {:induction false} PrefixRead(text: string) returns (es: seq<Entry>, e: Entry)
    requires Run(START, text).state != Broken
    ensures var p := Run(START, text);
            Entries(es) && p.result == Assigned(es) && Sound(p) && Pieces(p, e) && text == Texts(es) + Text(e)
    decreases |text|
  {
    hide *;
    if text == "" {
      es, e := [], NOTHING;
      NothingRead();
    } else {
      var init, c := text[..|text| - 1], text[|text| - 1];
      assert text == init + [c];
      RunSplit(START, init, [c]);
      var p := Run(START, init);
      OneRun(p, c);
      if p.state == Broken {
        StaysBroken(p, [c]);
      }
      es, e := PrefixRead(init);
      StepSound(p, c);
      if p.state == KeyStart || p.state == Key || p.state == KeyEnd {
        var e' := KeyPieces(p, e, c);
        assert Texts(es) + (Text(e) + [c]) == text;
        e := e';
      } else if p.state == ValueStart {
        var e' := AfterPieces(p, e, c);
        assert Texts(es) + (Text(e) + [c]) == text;
        e := e';
      } else {
        var e', done := ValuePieces(p, e, c);
        assert Texts(es) + (Text(e) + [c]) == text;
        if done {
          OneEntryMore(es, e');
          es, e := es + [e'], NOTHING;
          assert text + "" == text;
        } else {
          e := e';
        }
      }
    }
  }

  lemma NothingRead()
    ensures Entries([]) && Assigned([]) == map[] == START.result && Run(START, "") == START && Sound(START)
    ensures Pieces(START, NOTHING) && "" == Texts([]) + Text(NOTHING)
  {
    EmptyIsClean();
    NothingInPieces();
    NoEntries();
    hide Text;
    hide Texts;
    hide CleanKey;
    hide CleanValue;
  }

  lemma NothingInPieces()
    ensures Text(NOTHING) == "" && Pieces(START, NOTHING)
  {
  }

  lemma NoEntries()
    ensures Entries([]) && Assigned([]) == map[] && Texts([]) == "" && Run(START, "") == START
  {
  }

  lemma OneEntryMore(es: seq<Entry>, e: Entry)
    requires Entries(es) && IsEntry(e)
    ensures Entries(es + [e]) && Texts(es + [e]) == Texts(es) + Text(e)
    ensures Ready(Assigned(es)[e.key := e.value]).result == Assigned(es + [e])
    ensures Pieces(Ready(Assigned(es)[e.key := e.value]), NOTHING) && Text(NOTHING) == ""
  {
    assert (es + [e])[..|es|] == es;
    hide IsEntry;
  }

  lemma ReadDocument(contents: string, m: map<string, string>) returns (es: seq<Entry>, last: Entry)
    requires Parsed(contents) == Some(m)
    ensures Document(es, last, m) && contents == Texts(es) + Text(last)
  {
    es, last := PrefixRead(contents);
    hide Texts;
    hide Text;
    hide Run;
    hide Entries;
    hide Assigned;
    hide Spaces;
    hide CleanKey;
    hide CleanValue;
    hide CleanMap;
    hide Blank;
    KeyNotEmpty("");
  }

  lemma KeyNotEmpty(k: string)
    ensures CleanKey(k) ==> k != ""
  {
  }

  /** The parser accepts exactly the documents, and reads them as what they say. */
  lemma ParsedExactly(contents: string, m: map<string, string>)
    ensures Parsed(contents) == Some(m)
            <==> exists es, last :: Document(es, last, m) && contents == Texts(es) + Text(last)
  {
    hide *;
    if Parsed(contents) == Some(m) {
      var es, last := ReadDocument(contents, m);
    }
    forall es, last | Document(es, last, m) && contents == Texts(es) + Text(last) ensures Parsed(contents) == Some(m) {
      DocumentRead(es, last, m);
    }
  }
}
