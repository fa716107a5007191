/**
 * The path functions of lib/pathutils.cc: splitting a path into components, joining them, and resolving one
 * path against another, for POSIX and for Windows (EPOC) paths.
 */
module Paths {
  datatype Format = POSIX | Windows

  function Separator(format: Format): char {
    match format
    case POSIX => '/'
    case Windows => '\\'
  }

  predicate IsAlpha(c: char) {
    'a' <= c <= 'z' || 'A' <= c <= 'Z'
  }

  function ToUpper(c: char): char {
    if 'a' <= c <= 'z' then c - 'a' + 'A' else c
  }

  predicate IsDrive(component: string) {
    |component| == 2 && IsAlpha(component[0]) && component[1] == ':'
  }

  // ---------------------------------------------------------------- splitting

  /** The position of the first separator, or the length. */
  function IndexOf(s: string, sep: char): (i: nat)
    ensures i <= |s| && (i < |s| ==> s[i] == sep)
  {
    if s == "" || s[0] == sep then 0 else 1 + IndexOf(s[1..], sep)
  }

  predicate NoSeparator(s: string, sep: char) {
    s == "" || (s[0] != sep && NoSeparator(s[1..], sep))
  }

  lemma {:induction false} NoneBefore(s: string, sep: char)
    ensures NoSeparator(s[..IndexOf(s, sep)], sep)
    ensures !EndsWith(s[..IndexOf(s, sep)], sep)
  {
    var i := IndexOf(s, sep);
    if i > 0 {
      NoneBefore(s[1..], sep);
      assert s[..i][1..] == s[1..][..i - 1];
    }
  }

  /** The components behind the root; `marker` says whether a separator other than the root was found. */
  function Rest(s: string, sep: char, marker: bool): seq<string>
    decreases |s|
  {
    var i := IndexOf(s, sep);
    if i == |s| then if s != "" || marker then [s] else []
    else (if i > 0 then [s[..i]] else []) + Rest(s[i + 1..], sep, true)
  }

  /** The components of a path without drive. */
  function Parts(s: string, sep: char): seq<string> {
    if s != "" && s[0] == sep then [[sep]] + Rest(s[1..], sep, false) else Rest(s, sep, false)
  }

  /** The length of the drive at the start of a path. */
  function DriveLength(path: string, format: Format): (n: nat)
    ensures n <= |path|
  {
    if format == Windows && |path| >= 2 && IsDrive(path[..2]) then 2 else 0
  }

  function Split(path: string, format: Format): seq<string> {
    var n := DriveLength(path, format);
    (if n > 0 then [path[..n]] else []) + Parts(path[n..], Separator(format))
  }

  method SplitPath(path: string, format: Format) returns (result: seq<string>)
    ensures result == Split(path, format)
  {
    var separator := Separator(format);
    result := [];
    var start := 0;
    if format == Windows && |path| >= 2 && IsDrive(path[..2]) {
      result := result + [path[..2]];
      start := 2;
    }
    ghost var goal := Split(path, format);
    assert Splitting(path[start..], true, false, separator, result, goal);
    result := SplitFrom(path, start, separator, result, goal);
  }

  /** The loop over the separators from index `start`. */
  method SplitFrom(path: string, start: nat, separator: char, drive: seq<string>, ghost goal: seq<string>)
    returns (result: seq<string>)
    requires start <= |path| && Splitting(path[start..], true, false, separator, drive, goal)
    ensures result == goal
  {
    hide *;
    var previous, found := start, false;
    result := drive;
    while previous + IndexOf(path[previous..], separator) < |path|
      invariant start <= previous <= |path|
      invariant Splitting(path[previous..], previous == start, found, separator, result, goal)
      decreases |path| - previous
    {
      var index := previous + IndexOf(path[previous..], separator);
      NextComponent(path, previous, index, previous == start, found, separator, result, goal);
      if index == start {
        result := result + [path[index..index + 1]];
      } else {
        found := true;
      }
      var length := index - previous;
      if length > 0 {
        result := result + [path[previous..index]];
      }
      previous := index + 1;
    }
    SplittingEnd(path[previous..], previous == start, found, separator, result, goal);
    if previous < |path| || found {
      result := result + [path[previous..]];
    }
  }

  /** One turn of the loop. */
  lemma NextComponent(path: string, previous: nat, index: nat, atStart: bool, found: bool, sep: char,
                      result: seq<string>, goal: seq<string>)
    requires previous <= index < |path| && index == previous + IndexOf(path[previous..], sep)
    requires Splitting(path[previous..], atStart, found, sep, result, goal)
    ensures Splitting(path[index + 1..], false, found || !(atStart && index == previous), sep,
                      if index > previous then result + [path[previous..index]]
                      else if atStart then result + [path[index..index + 1]] else result, goal)
  {
    hide *;
    SplittingStep(path[previous..], atStart, found, sep, result, goal);
    Slices(path, previous, index);
    Pushed(path, previous, index, atStart, sep, result);
  }

  lemma Slices(path: string, previous: nat, index: nat)
    requires previous <= index < |path|
    ensures path[previous..][..index - previous] == path[previous..index]
    ensures path[previous..][index - previous + 1..] == path[index + 1..]
  {
  }

  /** The component that the next separator completes: the root, or a name, or none between two separators. */
  function Found(t: string, atStart: bool, sep: char): seq<string> {
    var i := IndexOf(t, sep);
    if atStart && i == 0 then [[sep]] else if i > 0 then [t[..i]] else []
  }

  lemma Pushed(path: string, previous: nat, index: nat, atStart: bool, sep: char, result: seq<string>)
    requires previous <= index < |path| && index == previous + IndexOf(path[previous..], sep)
    ensures result + Found(path[previous..], atStart, sep)
         == if index > previous then result + [path[previous..index]]
            else if atStart then result + [path[index..index + 1]] else result
  {
    Slices(path, previous, index);
    assert path[index] == sep;
    assert path[index..index + 1] == [sep];
    hide IndexOf;
  }

  /** The components of what is left, at the start of the path or behind it. */
  function Left(t: string, atStart: bool, found: bool, sep: char): seq<string> {
    if atStart then Parts(t, sep) else Rest(t, sep, found)
  }

  /** The components found so far, and those of what is left, make up the goal. */
  ghost predicate Splitting(t: string, atStart: bool, found: bool, sep: char, result: seq<string>, goal: seq<string>) {
    (atStart ==> !found) && result + Left(t, atStart, found, sep) == goal
  }

  lemma NextFound(t: string, atStart: bool, found: bool, sep: char)
    requires IndexOf(t, sep) < |t| && (atStart ==> !found)
    ensures var i := IndexOf(t, sep);
            Left(t, atStart, found, sep)
            == Found(t, atStart, sep) + Left(t[i + 1..], false, found || !(atStart && i == 0), sep)
  {
  }

  lemma SplittingStep(t: string, atStart: bool, found: bool, sep: char, result: seq<string>, goal: seq<string>)
    requires Splitting(t, atStart, found, sep, result, goal) && IndexOf(t, sep) < |t|
    ensures var i := IndexOf(t, sep);
            Splitting(t[i + 1..], false, found || !(atStart && i == 0), sep, result + Found(t, atStart, sep), goal)
  {
    var i, found' := IndexOf(t, sep), found || !(atStart && IndexOf(t, sep) == 0);
    var x, y := Found(t, atStart, sep), Left(t[i + 1..], false, found', sep);
    SplittingIs(t, atStart, found, sep, result, goal);
    SplittingIs(t[i + 1..], false, found', sep, result + x, goal);
    hide *;
    NextFound(t, atStart, found, sep);
    Regroup(result, Left(t, atStart, found, sep), x, y, goal);
  }

  lemma SplittingIs(t: string, atStart: bool, found: bool, sep: char, result: seq<string>, goal: seq<string>)
    ensures Splitting(t, atStart, found, sep, result, goal)
            <==> (atStart ==> !found) && result + Left(t, atStart, found, sep) == goal
  {
  }

  lemma Regroup(a: seq<string>, l: seq<string>, b: seq<string>, c: seq<string>, goal: seq<string>)
    requires a + l == goal && l == b + c
    ensures a + b + c == goal
  {
  }

  lemma SplittingEnd(t: string, atStart: bool, found: bool, sep: char, result: seq<string>, goal: seq<string>)
    requires Splitting(t, atStart, found, sep, result, goal) && IndexOf(t, sep) == |t|
    ensures (if t != "" || found then result + [t] else result) == goal
  {
    assert atStart ==> Parts(t, sep) == Rest(t, sep, false);
  }

  // ---------------------------------------------------------------- joining

  predicate EndsWith(s: string, c: char) {
    s != "" && s[|s| - 1] == c
  }

  /** The path after one more component. */
  function Appended(path: string, first: bool, component: string, sep: char): string {
    var p := if !first && !EndsWith(path, sep) then path + [sep] else path;
    (if component == "" && p == "" then ['.', sep] else p) + component
  }

  function Joined(path: string, first: bool, components: seq<string>, sep: char): string
    decreases |components|
  {
    if components == [] then path
    else Joined(Appended(path, first, components[0], sep), false, components[1..], sep)
  }

  function Join(components: seq<string>, format: Format): string {
    if format == Windows && components != [] && IsDrive(components[0])
    then components[0] + Joined("", true, components[1..], Separator(format))
    else Joined("", true, components, Separator(format))
  }

  method JoinPath(components: seq<string>, format: Format) returns (r: string)
    ensures r == Join(components, format)
  {
    var drive, begin := "", 0;
    if format == Windows && |components| >= 1 && IsDrive(components[0]) {
      drive := drive + components[0];
      begin := begin + 1;
    }
    var path := "";
    var separator := Separator(format);
    ghost var goal := Joined("", true, components[begin..], separator);
    var i := begin;
    while i < |components|
      invariant begin <= i <= |components|
      invariant Joined(path, i == begin, components[i..], separator) == goal
    {
      var component := components[i];
      assert components[i..][1..] == components[i + 1..];
      ghost var before := path;
      if i != begin && !EndsWith(path, separator) {
        path := path + [separator];
      }
      if component == "" && path == "" {
        path := path + ".";
        path := path + [separator];
      }
      path := path + component;
      assert path == Appended(before, i == begin, component, separator);
      hide Appended;
      i := i + 1;
    }
    assert components[0..] == components;
    r := drive + path;
  }

  // ---------------------------------------------------------------- join after split

  /** A string with every run of separators made one. */
  function Collapse(s: string, sep: char): string {
    if s == "" then ""
    else if s[0] == sep && |s| > 1 && s[1] == sep then Collapse(s[1..], sep)
    else [s[0]] + Collapse(s[1..], sep)
  }

  lemma {:induction false} CollapseWord(w: string, t: string, sep: char)
    requires NoSeparator(w, sep)
    ensures Collapse(w + t, sep) == w + Collapse(t, sep)
  {
    if w == "" {
      assert w + t == t;
    } else {
      assert (w + t)[1..] == w[1..] + t && (w + t)[0] == w[0];
      CollapseWord(w[1..], t, sep);
      assert [w[0]] + (w[1..] + Collapse(t, sep)) == w + Collapse(t, sep);
    }
  }

  /** A separator before something that is empty or starts with none is kept. */
  lemma CollapseSeparator(s: string, sep: char)
    ensures Collapse([sep] + s, sep) == if s != "" && s[0] == sep then Collapse(s, sep) else [sep] + Collapse(s, sep)
  {
    assert ([sep] + s)[1..] == s;
  }

  /**
   * Joining the components behind a separator: `path` is `base`, to which a separator is yet to be added, or
   * base and a separator.
   */
  lemma {:induction false} RestJoins(base: string, path: string, s: string, sep: char, marker: bool)
    requires !EndsWith(base, sep) && (path == base + [sep] || (path == base && base != "" && marker))
    ensures Joined(path, false, Rest(s, sep, marker), sep) == base + Collapse([sep] + s, sep)
    decreases |s|
  {
    var i := IndexOf(s, sep);
    if i == |s| {
      LastJoins(base, path, s, sep, marker);
    } else if i == 0 {
      FirstSeparator(s, sep, marker);
      hide *;
      RestJoins(base, path, s[1..], sep, true);
    } else {
      WordJoins(base, path, s, i, sep, marker);
      WordCollapses(s, i, sep);
      hide *;
      var w, t := s[..i], s[i + 1..];
      RestJoins(base + [sep] + w, base + [sep] + w, t, sep, true);
      Associates(base, [sep], w, Collapse([sep] + t, sep));
    }
  }

  lemma Associates(a: string, b: string, c: string, d: string)
    ensures a + b + c + d == a + (b + (c + d))
  {
  }

  lemma FirstSeparator(s: string, sep: char, marker: bool)
    requires s != "" && s[0] == sep
    ensures Collapse([sep] + s, sep) == Collapse([sep] + s[1..], sep)
    ensures Rest(s, sep, marker) == Rest(s[1..], sep, true)
  {
    CollapseSeparator(s, sep);
    hide Collapse;
    assert s == [sep] + s[1..];
    assert IndexOf(s, sep) == 0;
    assert [] + Rest(s[1..], sep, true) == Rest(s[1..], sep, true);
  }

  lemma LastJoins(base: string, path: string, s: string, sep: char, marker: bool)
    requires !EndsWith(base, sep) && (path == base + [sep] || (path == base && base != "" && marker))
    requires IndexOf(s, sep) == |s|
    ensures Joined(path, false, Rest(s, sep, marker), sep) == base + Collapse([sep] + s, sep)
  {
    LastCollapses(s, sep);
    LastRest(s, sep, marker);
    hide Collapse;
    hide Rest;
    hide IndexOf;
    if s != "" || marker {
      LastAppended(base, path, s, sep);
      OneJoined(path, s, sep);
      hide *;
      assert base + [sep] + s == base + ([sep] + s);
    }
  }

  lemma LastRest(s: string, sep: char, marker: bool)
    requires IndexOf(s, sep) == |s|
    ensures Rest(s, sep, marker) == if s != "" || marker then [s] else []
  {
  }

  lemma LastAppended(base: string, path: string, s: string, sep: char)
    requires !EndsWith(base, sep) && (path == base + [sep] || (path == base && base != ""))
    ensures Appended(path, false, s, sep) == base + [sep] + s
  {
  }

  lemma OneJoined(path: string, s: string, sep: char)
    ensures Joined(path, false, [s], sep) == Appended(path, false, s, sep)
  {
    hide Appended;
    assert [s][1..] == [];
  }

  lemma LastCollapses(s: string, sep: char)
    requires IndexOf(s, sep) == |s|
    ensures Collapse([sep] + s, sep) == [sep] + s
  {
    CollapseSeparator(s, sep);
    NoneBefore(s, sep);
    assert s[..|s|] == s;
    CollapseWord(s, "", sep);
    assert s + "" == s;
  }

  lemma WordCollapses(s: string, i: nat, sep: char)
    requires 0 < i == IndexOf(s, sep) < |s|
    ensures Collapse([sep] + s, sep) == [sep] + (s[..i] + Collapse([sep] + s[i + 1..], sep))
  {
    assert s[0] != sep;
    NoneBefore(s, sep);
    CollapseSeparator(s, sep);
    hide IndexOf;
    hide Collapse;
    hide NoSeparator;
    Around(s, i, sep);
    CollapseWord(s[..i], [sep] + s[i + 1..], sep);
  }

  lemma Around(s: string, i: nat, sep: char)
    requires i < |s| && s[i] == sep
    ensures s[..i] + ([sep] + s[i + 1..]) == s
  {
  }

  lemma WordJoins(base: string, path: string, s: string, i: nat, sep: char, marker: bool)
    requires !EndsWith(base, sep) && (path == base + [sep] || (path == base && base != ""))
    requires 0 < i == IndexOf(s, sep) < |s|
    ensures var base' := base + [sep] + s[..i];
            && !EndsWith(base', sep)
            && Joined(path, false, Rest(s, sep, marker), sep) == Joined(base', false, Rest(s[i + 1..], sep, true), sep)
  {
    var w := s[..i];
    assert Rest(s, sep, marker) == [w] + Rest(s[i + 1..], sep, true);
    assert ([w] + Rest(s[i + 1..], sep, true))[1..] == Rest(s[i + 1..], sep, true);
    NoneBefore(s, sep);
  }

  lemma PartsJoin(s: string, sep: char)
    ensures Joined("", true, Parts(s, sep), sep) == Collapse(s, sep)
  {
    var i := IndexOf(s, sep);
    if s == "" {
      assert Parts(s, sep) == [];
    } else if i == 0 {
      RootJoins(s[1..], sep);
      assert [sep] + s[1..] == s;
      hide Joined;
      hide Collapse;
    } else {
      FirstJoins(s, sep);
    }
  }

  lemma RootJoins(t: string, sep: char)
    ensures Joined("", true, [[sep]] + Rest(t, sep, false), sep) == Collapse([sep] + t, sep)
  {
    var rest := Rest(t, sep, false);
    assert Appended("", true, [sep], sep) == [sep];
    RestJoins("", [sep], t, sep, false);
    hide Rest;
    hide Collapse;
    hide Appended;
    assert ([[sep]] + rest)[1..] == rest;
    assert Joined("", true, [[sep]] + rest, sep) == Joined([sep], false, rest, sep);
    hide Joined;
    assert "" + Collapse([sep] + t, sep) == Collapse([sep] + t, sep);
  }

  lemma FirstJoins(s: string, sep: char)
    requires s != "" && s[0] != sep
    ensures Joined("", true, Rest(s, sep, false), sep) == Collapse(s, sep)
  {
    var i := IndexOf(s, sep);
    NoneBefore(s, sep);
    if i == |s| {
      assert s[..i] == s;
      LastRest(s, sep, false);
      hide Rest;
      hide IndexOf;
      OneFirst(s, [], sep);
      CollapseWord(s, "", sep);
      assert s + "" == s && [s] + [] == [s];
    } else {
      FirstRest(s, sep);
      hide Rest;
      WordThenRest(s[..i], s[i + 1..], sep);
      Around(s, i, sep);
      hide *;
    }
  }

  lemma FirstRest(s: string, sep: char)
    requires 0 < IndexOf(s, sep) < |s|
    ensures Rest(s, sep, false) == [s[..IndexOf(s, sep)]] + Rest(s[IndexOf(s, sep) + 1..], sep, true)
  {
  }

  /** The first component stands as it is. */
  lemma OneFirst(w: string, rest: seq<string>, sep: char)
    requires w != ""
    ensures Joined("", true, [w] + rest, sep) == Joined(w, false, rest, sep)
    ensures rest == [] ==> Joined(w, false, rest, sep) == w
  {
    assert ([w] + rest)[1..] == rest;
    assert Appended("", true, w, sep) == w;
    hide Appended;
  }

  lemma WordThenRest(w: string, t: string, sep: char)
    requires w != "" && NoSeparator(w, sep) && !EndsWith(w, sep)
    ensures Joined("", true, [w] + Rest(t, sep, true), sep) == Collapse(w + ([sep] + t), sep)
  {
    hide *;
    OneFirst(w, Rest(t, sep, true), sep);
    RestJoins(w, w, t, sep, true);
    CollapseWord(w, [sep] + t, sep);
  }

  /** Only the first component of a path can be its drive, and then `split` has cut it off. */
  lemma FirstPartIsNoDrive(path: string, sep: char)
    requires |path| < 2 || !IsDrive(path[..2])
    requires sep != ':'
    ensures Parts(path, sep) != [] ==> !IsDrive(Parts(path, sep)[0])
  {
    var i := IndexOf(path, sep);
    if i == |path| {
      assert path[..|path|] == path;
    }
  }

  /** `join(split(p))` is p with every run of separators made one, in both formats, drives included. */
  lemma JoinAfterSplit(path: string, format: Format)
    ensures Join(Split(path, format), format) == Collapse(path, Separator(format))
  {
    var sep, n := Separator(format), DriveLength(path, format);
    PartsJoin(path[n..], sep);
    if n > 0 {
      assert Split(path, format)[1..] == Parts(path[n..], sep);
      assert path == path[..2] + path[2..];
      assert path[..2][1..] == [':'] && [':'][1..] == "";
      CollapseWord(path[..2], path[2..], sep);
    } else {
      assert path[0..] == path;
      assert Split(path, format) == Parts(path, sep);
      if format == Windows {
        FirstPartIsNoDrive(path, sep);
      }
    }
    hide Parts;
    hide Joined;
    hide Collapse;
  }

  lemma {:induction false} CollapsedTwice(s: string, sep: char)
    ensures Collapse(Collapse(s, sep), sep) == Collapse(s, sep)
    ensures s != "" ==> Collapse(s, sep) != "" && Collapse(s, sep)[0] == s[0]
  {
    if s != "" {
      CollapsedTwice(s[1..], sep);
      if !(s[0] == sep && |s| > 1 && s[1] == sep) {
        var c := Collapse(s[1..], sep);
        assert ([s[0]] + c)[1..] == c;
      }
    }
  }

  /** Splitting and joining normalises: doing it again changes nothing. */
  lemma NormalisesOnce(path: string, format: Format)
    ensures var normal := Join(Split(path, format), format); Join(Split(normal, format), format) == normal
  {
    JoinAfterSplit(path, format);
    JoinAfterSplit(Join(Split(path, format), format), format);
    CollapsedTwice(path, Separator(format));
  }

  // ---------------------------------------------------------------- resolving

  predicate IsSeparator(component: string, format: Format) {
    component == [Separator(format)]
  }

  predicate IsAbsolute(components: seq<string>, format: Format) {
    match format
    case POSIX => |components| >= 1 && components[0] == "/"
    case Windows => |components| >= 2 && IsDrive(components[0]) && components[1] == "\\"
  }

  predicate IsRooted(components: seq<string>, format: Format) {
    match format
    case POSIX => |components| >= 1 && components[0] == "/"
    case Windows => IsAbsolute(components, format) || (|components| >= 1 && components[0] == "\\")
  }

  /** The drive, in upper case, or nothing. */
  function DriveComponent(components: seq<string>, format: Format): string {
    if format != Windows || components == [] || !IsDrive(components[0]) then ""
    else [ToUpper(components[0][0])] + components[0][1..]
  }

  /** How many components name the drive and the root. */
  function RootLength(components: seq<string>, format: Format): (n: nat)
    ensures n <= |components|
  {
    if components == [] then 0
    else
      var n := if format == Windows && IsDrive(components[0]) then 1 else 0;
      if n == |components| then n else if IsSeparator(components[n], format) then n + 1 else n
  }

  function Last(components: seq<string>): string
    requires components != []
  {
    components[|components| - 1]
  }

  /** Without the directory markers at the end. */
  function Trimmed(components: seq<string>): seq<string> {
    if components != [] && Last(components) == "" then Trimmed(components[..|components| - 1]) else components
  }

  function FoldOne(stack: seq<string>, component: string): seq<string> {
    var s := Trimmed(stack);
    if component == ".." && s != [] && Last(s) != ".." then s[..|s| - 1] else s + [component]
  }

  function Fold(stack: seq<string>, components: seq<string>): seq<string>
    decreases |components|
  {
    if components == [] then stack else Fold(FoldOne(stack, components[0]), components[1..])
  }

  function Resolve(path: string, base: string, format: Format): string {
    var ps, bs := Split(path, format), Split(base, format);
    var drive := DriveComponent(ps, format);
    if IsAbsolute(ps, format) then path
    else if drive != "" && drive != DriveComponent(bs, format) && !IsRooted(ps, format) then path
    else
      var n := RootLength(bs, format);
      var sep := [Separator(format)];
      var root := if IsRooted(ps, format) && (n == 0 || bs[n - 1] != sep) then bs[..n] + [sep] else bs[..n];
      var rootless := if IsRooted(ps, format) then ps[1..] else Fold(bs[n..], ps);
      var resolved := Join(root + rootless, format);
      if resolved == "" then "." else resolved
  }

  method FoldComponent(before: seq<string>, component: string) returns (stack: seq<string>)
    ensures stack == FoldOne(before, component)
  {
    stack := before;
    while stack != [] && Last(stack) == ""
      invariant Trimmed(stack) == Trimmed(before)
      decreases |stack|
    {
      stack := stack[..|stack| - 1];
    }
    if component == ".." {
      if stack == [] || Last(stack) == ".." {
        stack := stack + [".."];
      } else {
        stack := stack[..|stack| - 1];
      }
    } else {
      stack := stack + [component];
    }
  }

  method FoldPath(start: seq<string>, components: seq<string>) returns (stack: seq<string>)
    ensures stack == Fold(start, components)
  {
    stack := start;
    var i := 0;
    assert components[0..] == components;
    while i < |components|
      invariant 0 <= i <= |components| && Fold(stack, components[i..]) == Fold(start, components)
    {
      hide FoldOne;
      assert components[i..][1..] == components[i + 1..];
      stack := FoldComponent(stack, components[i]);
      i := i + 1;
    }
  }

  method ResolvePath(path: string, basePath: string, format: Format) returns (r: string)
    ensures r == Resolve(path, basePath, format)
  {
    hide Split;
    hide Join;
    hide Fold;
    hide DriveComponent;
    var pathComponents := SplitPath(path, format);
    var baseComponents := SplitPath(basePath, format);
    if IsAbsolute(pathComponents, format) {
      return path;
    }
    var pathDrive, baseDrive := DriveComponent(pathComponents, format), DriveComponent(baseComponents, format);
    if pathDrive != "" && pathDrive != baseDrive && !IsRooted(pathComponents, format) {
      return path;
    }
    var begin := RootLength(baseComponents, format);
    var root, rootless := baseComponents[..begin], baseComponents[begin..];
    if IsRooted(pathComponents, format) {
      var pathSeparator := [Separator(format)];
      if root == [] || Last(root) != pathSeparator {
        root := root + [pathSeparator];
      }
      rootless := pathComponents[1..];
    } else {
      rootless := FoldPath(rootless, pathComponents);
    }
    var resolved := JoinPath(root + rootless, format);
    if resolved == "" {
      return ".";
    }
    return resolved;
  }

  // ---------------------------------------------------------------- where a path leads

  /** A place, seen from the root or from where one stands: some levels up, then down by name. */
  datatype Place = Place(rooted: bool, ups: nat, names: seq<string>)

  function Walk(p: Place, component: string): Place {
    if component == "" || component == "." then p
    else if component == ".." then
      if p.names == [] then p.(ups := p.ups + 1) else p.(names := p.names[..|p.names| - 1])
    else p.(names := p.names + [component])
  }

  function WalkAll(p: Place, components: seq<string>): Place
    decreases |components|
  {
    if components == [] then p else WalkAll(Walk(p, components[0]), components[1..])
  }

  /** Where a path without drive leads. */
  function PlaceOf(path: string, sep: char): Place {
    var cs := Parts(path, sep);
    if cs != [] && cs[0] == [sep] then WalkAll(Place(true, 0, []), cs[1..]) else WalkAll(Place(false, 0, []), cs)
  }

  lemma {:induction false} WalkSplit(p: Place, xs: seq<string>, ys: seq<string>)
    ensures WalkAll(p, xs + ys) == WalkAll(WalkAll(p, xs), ys)
    decreases |xs|
  {
    if xs == [] {
      assert xs + ys == ys;
    } else {
      assert (xs + ys)[0] == xs[0] && (xs + ys)[1..] == xs[1..] + ys;
      hide Walk;
      WalkSplit(Walk(p, xs[0]), xs[1..], ys);
    }
  }

  lemma WalkOneMore(p: Place, xs: seq<string>, c: string)
    ensures WalkAll(p, xs + [c]) == Walk(WalkAll(p, xs), c)
  {
    WalkSplit(p, xs, [c]);
    var q := WalkAll(p, xs);
    assert [c][1..] == [];
    hide Walk;
    assert WalkAll(q, [c]) == Walk(q, c);
  }

  lemma {:induction false} TrimmedSamePlace(p: Place, cs: seq<string>)
    ensures WalkAll(p, Trimmed(cs)) == WalkAll(p, cs)
    ensures Trimmed(cs) != [] ==> Last(Trimmed(cs)) != ""
    decreases |cs|
  {
    if cs != [] && Last(cs) == "" {
      var t := cs[..|cs| - 1];
      TrimmedSamePlace(p, t);
      WalkOneMore(p, t, "");
      assert t + [""] == cs;
    }
  }

  /** How often a ".." of the path takes away a "." instead of a name. */
  function DotsPopped(stack: seq<string>, components: seq<string>): nat
    decreases |components|
  {
    if components == [] then 0
    else
      var s := Trimmed(stack);
      (if components[0] == ".." && s != [] && Last(s) == "." then 1 else 0)
      + DotsPopped(FoldOne(stack, components[0]), components[1..])
  }

  /** How far down a place is. */
  function Depth(p: Place): int {
    |p.names| - p.ups
  }

  lemma WalkDepth(p: Place, c: string)
    ensures Depth(Walk(p, c)) == Depth(p) + if c == "" || c == "." then 0 else if c == ".." then -1 else 1
  {
  }

  /** Folding one component in is walking one step, but when it pops a ".": then it stays one level deeper. */
  lemma FoldOneWalks(p: Place, stack: seq<string>, c: string)
    ensures var s := Trimmed(stack);
            if c == ".." && s != [] && Last(s) == "." then WalkAll(p, FoldOne(stack, c)) == WalkAll(p, stack)
            else WalkAll(p, FoldOne(stack, c)) == Walk(WalkAll(p, stack), c)
  {
    var s := Trimmed(stack);
    TrimmedSamePlace(p, stack);
    if c == ".." && s != [] && Last(s) != ".." {
      var t := s[..|s| - 1];
      assert t + [Last(s)] == s;
      WalkOneMore(p, t, Last(s));
      UndoName(WalkAll(p, t), Last(s));
      hide Walk;
      hide WalkAll;
    } else {
      WalkOneMore(p, s, c);
      hide Walk;
      hide WalkAll;
    }
  }

  lemma UndoName(p: Place, name: string)
    ensures name != "" && name != "." && name != ".." ==> Walk(Walk(p, name), "..") == p
    ensures Walk(p, ".") == p
  {
    assert (p.names + [name])[..|p.names|] == p.names;
  }

  lemma {:induction false} FoldWalks(p: Place, stack: seq<string>, components: seq<string>)
    ensures DotsPopped(stack, components) == 0
            ==> WalkAll(p, Fold(stack, components)) == WalkAll(WalkAll(p, stack), components)
    decreases |components|
  {
    if components != [] {
      FoldOneWalks(p, stack, components[0]);
      FoldWalks(p, FoldOne(stack, components[0]), components[1..]);
      hide FoldOne;
      hide Walk;
    }
  }

  lemma {:induction false} SameSteps(p: Place, q: Place, components: seq<string>)
    ensures Depth(WalkAll(p, components)) - Depth(p) == Depth(WalkAll(q, components)) - Depth(q)
    decreases |components|
  {
    if components != [] {
      WalkDepth(p, components[0]);
      WalkDepth(q, components[0]);
      hide Walk;
      hide Depth;
      SameSteps(Walk(p, components[0]), Walk(q, components[0]), components[1..]);
    }
  }

  lemma {:induction false} FoldDepth(p: Place, stack: seq<string>, components: seq<string>)
    ensures Depth(WalkAll(p, Fold(stack, components)))
         == Depth(WalkAll(WalkAll(p, stack), components)) + DotsPopped(stack, components)
    decreases |components|
  {
    if components != [] {
      var c := components[0];
      var here := WalkAll(p, stack);
      FoldOneWalks(p, stack, c);
      WalkDepth(here, c);
      FoldDepth(p, FoldOne(stack, c), components[1..]);
      SameSteps(WalkAll(p, FoldOne(stack, c)), Walk(here, c), components[1..]);
      hide FoldOne;
      hide Walk;
      hide Depth;
    }
  }

  /** Folding leads where walking leads exactly when no "." is popped. */
  lemma FoldIsWalking(p: Place, stack: seq<string>, components: seq<string>)
    ensures WalkAll(p, Fold(stack, components)) == WalkAll(WalkAll(p, stack), components)
            <==> DotsPopped(stack, components) == 0
  {
    FoldWalks(p, stack, components);
    FoldDepth(p, stack, components);
    hide WalkAll;
    hide Fold;
    hide DotsPopped;
  }

  // ---------------------------------------------------------------- the resolved path as a string

  /** Components behind a root: names without separators, and perhaps a directory marker at the end. */
  predicate Words(cs: seq<string>, sep: char) {
    forall i :: 0 <= i < |cs| ==> NoSeparator(cs[i], sep) && (i < |cs| - 1 ==> cs[i] != "")
  }

  lemma MoreWords(c: string, cs: seq<string>, sep: char)
    requires NoSeparator(c, sep) && c != "" && Words(cs, sep)
    ensures Words([c] + cs, sep)
  {
    hide NoSeparator;
    assert forall i :: 0 < i < |[c] + cs| ==> ([c] + cs)[i] == cs[i - 1];
  }

  lemma FewerWords(cs: seq<string>, sep: char)
    requires Words(cs, sep) && cs != []
    ensures Words(cs[1..], sep) && NoSeparator(cs[0], sep) && (|cs| > 1 ==> cs[0] != "")
    ensures Words(cs[..|cs| - 1], sep)
  {
    hide NoSeparator;
    assert forall i :: 0 <= i < |cs[1..]| ==> cs[1..][i] == cs[i + 1];
  }

  lemma {:induction false} RestWords(s: string, sep: char, marker: bool)
    ensures Words(Rest(s, sep, marker), sep)
    decreases |s|
  {
    var i := IndexOf(s, sep);
    NoneBefore(s, sep);
    if i == |s| {
      assert s[..i] == s;
      LastRest(s, sep, marker);
      hide Rest;
    } else {
      RestWords(s[i + 1..], sep, true);
      if i > 0 {
        MoreWords(s[..i], Rest(s[i + 1..], sep, true), sep);
      } else {
        FirstSeparator(s, sep, marker);
      }
      hide Words;
    }
  }

  lemma {:induction false} TrimmedWords(cs: seq<string>, sep: char)
    requires Words(cs, sep)
    ensures Words(Trimmed(cs), sep)
    ensures Trimmed(cs) != [] ==> Last(Trimmed(cs)) != ""
    decreases |cs|
  {
    if cs != [] && Last(cs) == "" {
      FewerWords(cs, sep);
      TrimmedWords(cs[..|cs| - 1], sep);
    }
  }

  lemma FoldOneWords(stack: seq<string>, c: string, sep: char)
    requires Words(stack, sep) && NoSeparator(c, sep)
    ensures Words(FoldOne(stack, c), sep)
  {
    var s := Trimmed(stack);
    TrimmedWords(stack, sep);
    hide NoSeparator;
    if c == ".." && s != [] && Last(s) != ".." {
      FewerWords(s, sep);
    } else {
      forall i | 0 <= i < |s + [c]|
        ensures NoSeparator((s + [c])[i], sep) && (i < |s + [c]| - 1 ==> (s + [c])[i] != "")
      {
        if i < |s| {
          assert (s + [c])[i] == s[i];
        }
      }
    }
  }

  lemma {:induction false} FoldWords(stack: seq<string>, components: seq<string>, sep: char)
    requires Words(stack, sep) && Words(components, sep)
    ensures Words(Fold(stack, components), sep)
    decreases |components|
  {
    if components != [] {
      FewerWords(components, sep);
      FoldOneWords(stack, components[0], sep);
      hide Words;
      hide NoSeparator;
      hide FoldOne;
      FoldWords(FoldOne(stack, components[0]), components[1..], sep);
    }
  }

  /** Components with separators between them. */
  function Glue(cs: seq<string>, sep: char): string {
    if cs == [] then "" else if |cs| == 1 then cs[0] else cs[0] + [sep] + Glue(cs[1..], sep)
  }

  lemma {:induction false} NoEndSeparator(w: string, sep: char)
    requires NoSeparator(w, sep)
    ensures !EndsWith(w, sep) && IndexOf(w, sep) == |w|
    decreases |w|
  {
    if w != "" {
      NoEndSeparator(w[1..], sep);
    }
  }

  lemma WordEnds(base: string, w: string, sep: char)
    requires w != "" && !EndsWith(w, sep)
    ensures !EndsWith(base + [sep] + w, sep) && base + [sep] + w != ""
  {
  }

  lemma {:induction false} GlueJoins(base: string, path: string, cs: seq<string>, sep: char)
    requires !EndsWith(base, sep) && (path == base + [sep] || (path == base && base != ""))
    requires cs != [] && Words(cs, sep)
    ensures Joined(path, false, cs, sep) == base + [sep] + Glue(cs, sep)
    decreases |cs|
  {
    hide *;
    var c := cs[0];
    FewerWords(cs, sep);
    LastAppended(base, path, c, sep);
    GlueFirst(cs, sep);
    if |cs| == 1 {
      assert cs == [c];
      OneJoined(path, c, sep);
    } else {
      NoEndSeparator(c, sep);
      WordEnds(base, c, sep);
      JoinedNext(path, cs, sep);
      var base' := base + [sep] + c;
      GlueJoins(base', base', cs[1..], sep);
      Associates(base + [sep], c, [sep], Glue(cs[1..], sep));
    }
  }

  lemma GlueFirst(cs: seq<string>, sep: char)
    requires cs != []
    ensures Glue(cs, sep) == if |cs| == 1 then cs[0] else cs[0] + [sep] + Glue(cs[1..], sep)
  {
  }

  lemma JoinedNext(path: string, cs: seq<string>, sep: char)
    requires cs != []
    ensures Joined(path, false, cs, sep) == Joined(Appended(path, false, cs[0], sep), false, cs[1..], sep)
  {
    hide Appended;
  }

  lemma {:induction false} FirstAfter(w: string, t: string, sep: char)
    requires NoSeparator(w, sep)
    ensures IndexOf(w + [sep] + t, sep) == |w|
  {
    if w == "" {
      assert w + [sep] + t == [sep] + t;
    } else {
      assert (w + [sep] + t)[1..] == w[1..] + [sep] + t;
      FirstAfter(w[1..], t, sep);
    }
  }

  lemma {:induction false} GlueSplits(cs: seq<string>, sep: char, marker: bool)
    requires cs != [] && Words(cs, sep) && (cs != [""] || marker)
    ensures Rest(Glue(cs, sep), sep, marker) == cs
    decreases |cs|
  {
    var c := cs[0];
    FewerWords(cs, sep);
    if |cs| == 1 {
      NoEndSeparator(c, sep);
      assert cs == [c];
      LastRest(c, sep, marker);
      hide Rest;
    } else {
      var t := Glue(cs[1..], sep);
      FirstAfter(c, t, sep);
      WordFirst(c, t, sep, marker);
      hide Rest;
      hide IndexOf;
      hide Words;
      hide NoSeparator;
      GlueSplits(cs[1..], sep, true);
    }
  }

  lemma WordFirst(c: string, t: string, sep: char, marker: bool)
    requires c != "" && IndexOf(c + [sep] + t, sep) == |c|
    ensures Rest(c + [sep] + t, sep, marker) == [c] + Rest(t, sep, true)
  {
    var s := c + [sep] + t;
    assert s[..|c|] == c && s[|c| + 1..] == t;
    assert Rest(s, sep, marker) == [s[..|c|]] + Rest(s[|c| + 1..], sep, true);
  }

  /** The root component, if there is one. */
  function Root(rooted: bool, sep: char): seq<string> {
    if rooted then [[sep]] else []
  }

  function OrDot(s: string): string {
    if s == "" then "." else s
  }

  lemma DotPlaces(sep: char)
    requires sep != '.'
    ensures PlaceOf(".", sep) == Place(false, 0, []) == PlaceOf(['.', sep], sep)
    ensures PlaceOf([sep], sep) == Place(true, 0, []) && PlaceOf("", sep) == Place(false, 0, [])
  {
    var dot := ['.', sep];
    assert "."[1..] == "" && IndexOf(".", sep) == 1;
    assert Parts(".", sep) == ["."];
    assert ["."][1..] == [];
    assert dot[1..] == [sep] && IndexOf([sep], sep) == 0 && IndexOf(dot, sep) == 1 && dot[2..] == "" && dot[..1] == ".";
    assert IndexOf("", sep) == 0;
    assert Rest("", sep, true) == [""];
    assert Parts(dot, sep) == [".", ""];
    assert [".", ""][1..] == [""] && [""][1..] == [];
    assert Parts([sep], sep) == [[sep]] by { assert [sep][1..] == ""; }
    assert [[sep]][1..] == [];
  }

  lemma RelativeString(cs: seq<string>, sep: char)
    requires Words(cs, sep) && cs != [] && cs[0] != ""
    ensures Joined("", true, cs, sep) == Glue(cs, sep) != ""
  {
    var c := cs[0];
    FewerWords(cs, sep);
    NoEndSeparator(c, sep);
    assert Appended("", true, c, sep) == c;
    hide Appended;
    assert Joined("", true, cs, sep) == Joined(c, false, cs[1..], sep);
    if |cs| > 1 {
      GlueJoins(c, c, cs[1..], sep);
    } else {
      assert cs[1..] == [];
    }
    hide Words;
  }

  lemma RootedString(cs: seq<string>, sep: char)
    requires Words(cs, sep) && cs != []
    ensures Joined("", true, [[sep]] + cs, sep) == [sep] + Glue(cs, sep)
  {
    assert ([[sep]] + cs)[1..] == cs && ([[sep]] + cs)[0] == [sep];
    assert Appended("", true, [sep], sep) == [sep];
    GlueJoins("", [sep], cs, sep);
    hide Words;
    hide Appended;
    assert "" + [sep] + Glue(cs, sep) == [sep] + Glue(cs, sep);
  }

  /** The string made of a root and components leads where the components lead. */
  lemma StringLeadsThere(rooted: bool, cs: seq<string>, sep: char)
    requires Words(cs, sep) && sep != '.'
    ensures var r := Joined("", true, Root(rooted, sep) + cs, sep);
            PlaceOf(OrDot(r), sep) == PlaceOf(r, sep) == WalkAll(Place(rooted, 0, []), cs)
  {
    DotPlaces(sep);
    if cs == [] {
      NothingJoined(sep);
      assert Root(rooted, sep) + cs == Root(rooted, sep);
      hide PlaceOf;
      hide Joined;
    } else if rooted {
      RootedString(cs, sep);
      RootedGlue(cs, sep);
      hide PlaceOf;
      hide Joined;
      hide WalkAll;
    } else if cs[0] == "" {
      MarkerJoined(sep);
      assert cs == [""];
      assert [] + cs == cs;
      assert [""][1..] == [];
      hide PlaceOf;
      hide Joined;
    } else {
      RelativeString(cs, sep);
      RelativeGlue(cs, sep);
      assert [] + cs == cs;
      hide PlaceOf;
      hide Joined;
      hide WalkAll;
    }
  }

  lemma NothingJoined(sep: char)
    ensures Joined("", true, [], sep) == "" && Joined("", true, [[sep]], sep) == [sep]
  {
    assert Joined("", true, [[sep]], sep) == Joined([sep], false, [], sep) by { assert [[sep]][1..] == []; }
  }

  lemma MarkerJoined(sep: char)
    ensures Joined("", true, [""], sep) == ['.', sep]
  {
    assert [""][1..] == [];
    assert Joined("", true, [""], sep) == Joined(['.', sep], false, [], sep);
  }

  lemma RelativeGlue(cs: seq<string>, sep: char)
    requires Words(cs, sep) && cs != [] && cs[0] != ""
    ensures PlaceOf(Glue(cs, sep), sep) == WalkAll(Place(false, 0, []), cs)
  {
    var g := Glue(cs, sep);
    FewerWords(cs, sep);
    GlueSplits(cs, sep, false);
    assert g[0] == cs[0][0] != sep;
    assert Parts(g, sep) == cs;
    hide Rest;
    hide Glue;
    hide WalkAll;
    hide Words;
  }

  lemma RootedGlue(cs: seq<string>, sep: char)
    requires Words(cs, sep) && cs != []
    ensures PlaceOf([sep] + Glue(cs, sep), sep) == WalkAll(Place(true, 0, []), cs)
  {
    var g := [sep] + Glue(cs, sep);
    assert g[1..] == Glue(cs, sep);
    var rest := Rest(g[1..], sep, false);
    assert Parts(g, sep) == [[sep]] + rest;
    assert ([[sep]] + rest)[1..] == rest;
    if cs == [""] {
      assert [""][1..] == [];
      assert IndexOf("", sep) == 0;
      assert rest == [];
      assert WalkAll(Place(true, 0, []), [""]) == WalkAll(Place(true, 0, []), []);
    } else {
      GlueSplits(cs, sep, false);
    }
    hide Rest;
    hide Glue;
    hide WalkAll;
    hide Words;
  }

  /** Whether a path without drive starts at the root, and its components behind the root. */
  predicate Rooted(path: string, sep: char) {
    path != "" && path[0] == sep
  }

  function Rootless(path: string, sep: char): seq<string> {
    if Rooted(path, sep) then Rest(path[1..], sep, false) else Rest(path, sep, false)
  }

  /** The components of a path without drive, root apart. */
  lemma PartsWords(path: string, sep: char)
    ensures var cs, rooted, rest := Parts(path, sep), Rooted(path, sep), Rootless(path, sep);
            && cs == Root(rooted, sep) + rest && Words(rest, sep)
            && (cs != [] && cs[0] == [sep] <==> rooted)
            && PlaceOf(path, sep) == WalkAll(Place(rooted, 0, []), rest)
  {
    var cs, rest := Parts(path, sep), Rootless(path, sep);
    if Rooted(path, sep) {
      RestWords(path[1..], sep, false);
      hide Rest;
      assert cs[1..] == rest;
    } else {
      RestWords(path, sep, false);
      hide Rest;
      assert cs == [] + rest;
      if cs != [] {
        FewerWords(cs, sep);
      }
    }
    hide Words;
    hide WalkAll;
  }

  /** The components of a POSIX path, root apart. */
  lemma SplitWords(path: string)
    ensures var cs, rooted := Split(path, POSIX), Rooted(path, '/');
            && IsRooted(cs, POSIX) == IsAbsolute(cs, POSIX) == rooted
            && RootLength(cs, POSIX) == (if rooted then 1 else 0)
            && cs[RootLength(cs, POSIX)..] == Rootless(path, '/')
            && cs[..RootLength(cs, POSIX)] == Root(rooted, '/')
  {
    hide *;
    PartsWords(path, '/');
    PosixSplit(path);
    PosixRoot(Split(path, POSIX));
    RootThenRest(Rooted(path, '/'), Rootless(path, '/'));
  }

  lemma PosixSplit(path: string)
    ensures Split(path, POSIX) == Parts(path, '/')
  {
    assert path[0..] == path;
    hide Parts;
  }

  lemma PosixRoot(cs: seq<string>)
    ensures IsRooted(cs, POSIX) == IsAbsolute(cs, POSIX) == (cs != [] && cs[0] == ['/'])
    ensures RootLength(cs, POSIX) == if cs != [] && cs[0] == ['/'] then 1 else 0
  {
  }

  lemma RootThenRest(rooted: bool, rest: seq<string>)
    ensures var cs, n := Root(rooted, '/') + rest, if rooted then 1 else 0;
            |Root(rooted, '/')| == n <= |cs| && cs[n..] == rest && cs[..n] == Root(rooted, '/')
  {
  }

  /** An absolute path is returned as it is. */
  lemma AbsoluteStays(path: string, base: string, format: Format)
    requires IsAbsolute(Split(path, format), format)
    ensures Resolve(path, base, format) == path
  {
  }

  /**
   * A relative POSIX path resolved against another leads where one gets by walking first the base and then
   * the path -- exactly when no ".." of the path meets a "." at the end of what it is to shorten.
   */
  lemma ResolveIsWalking(path: string, base: string)
    requires path == "" || path[0] != '/'
    ensures var ps, bs := Split(path, POSIX), Split(base, POSIX);
            PlaceOf(Resolve(path, base, POSIX), '/') == WalkAll(PlaceOf(base, '/'), ps)
            <==> DotsPopped(bs[RootLength(bs, POSIX)..], ps) == 0
  {
    var ps, rooted, stack := Split(path, POSIX), Rooted(base, '/'), Rootless(base, '/');
    PartsWords(path, '/');
    PartsWords(base, '/');
    SplitWords(path);
    SplitWords(base);
    assert ps[0..] == ps;
    ResolveRelative(path, base);
    FoldLeads(rooted, stack, ps, '/');
    hide *;
  }

  /** The components of the path folded into those of the base, and what the string of the result leads to. */
  lemma FoldLeads(rooted: bool, stack: seq<string>, components: seq<string>, sep: char)
    requires Words(stack, sep) && Words(components, sep) && sep != '.'
    ensures var f := Fold(stack, components);
            var r := Joined("", true, Root(rooted, sep) + f, sep);
            && Words(f, sep)
            && (PlaceOf(r, sep) == WalkAll(WalkAll(Place(rooted, 0, []), stack), components)
                <==> DotsPopped(stack, components) == 0)
            && PlaceOf(OrDot(r), sep) == PlaceOf(r, sep)
  {
    hide *;
    FoldWords(stack, components, sep);
    StringLeadsThere(rooted, Fold(stack, components), sep);
    FoldIsWalking(Place(rooted, 0, []), stack, components);
  }

  lemma ResolveRelative(path: string, base: string)
    requires path == "" || path[0] != '/'
    ensures Resolve(path, base, POSIX)
         == OrDot(Joined("", true, Root(Rooted(base, '/'), '/') + Fold(Rootless(base, '/'), Split(path, POSIX)), '/'))
  {
    SplitWords(path);
    SplitWords(base);
    hide Split;
    hide Joined;
    hide Fold;
    hide Rootless;
  }

  /** Paths that do not use "." are always resolved right. */
  lemma ResolveWithoutDots(path: string, base: string)
    requires path == "" || path[0] != '/'
    requires "." !in Split(path, POSIX) && "." !in Split(base, POSIX)
    ensures PlaceOf(Resolve(path, base, POSIX), '/') == WalkAll(PlaceOf(base, '/'), Split(path, POSIX))
  {
    var ps, bs := Split(path, POSIX), Split(base, POSIX);
    ResolveIsWalking(path, base);
    NoDotsPopped(bs[RootLength(bs, POSIX)..], ps);
  }

  /** The same walk from the root, where ".." at the root stays there. */
  function Clamped(names: seq<string>, component: string): seq<string> {
    if component == "" || component == "." then names
    else if component == ".." then (if names == [] then [] else names[..|names| - 1])
    else names + [component]
  }

  function ClampedAll(names: seq<string>, components: seq<string>): seq<string>
    decreases |components|
  {
    if components == [] then names else ClampedAll(Clamped(names, components[0]), components[1..])
  }

  /** Levels counted above the start do not change the names below it. */
  lemma {:induction false} ClampedNames(p: Place, components: seq<string>)
    ensures ClampedAll(p.names, components) == WalkAll(p, components).names
    decreases |components|
  {
    if components != [] {
      ClampedNames(Walk(p, components[0]), components[1..]);
    }
  }

  /** With ".." clamped at the root, too, paths that do not use "." are resolved right. */
  lemma ResolveClamped(path: string, base: string)
    requires path == "" || path[0] != '/'
    requires "." !in Split(path, POSIX) && "." !in Split(base, POSIX)
    ensures PlaceOf(Resolve(path, base, POSIX), '/').names == ClampedAll(PlaceOf(base, '/').names, Split(path, POSIX))
  {
    ResolveWithoutDots(path, base);
    ClampedNames(PlaceOf(base, '/'), Split(path, POSIX));
  }

  lemma {:induction false} TrimmedIsPrefix(cs: seq<string>)
    ensures Trimmed(cs) <= cs
    decreases |cs|
  {
    if cs != [] && Last(cs) == "" {
      TrimmedIsPrefix(cs[..|cs| - 1]);
    }
  }

  lemma {:induction false} NoDotsPopped(stack: seq<string>, components: seq<string>)
    requires "." !in stack && "." !in components
    ensures DotsPopped(stack, components) == 0
    decreases |components|
  {
    if components != [] {
      TrimmedIsPrefix(stack);
      assert "." !in FoldOne(stack, components[0]);
      hide FoldOne;
      hide Trimmed;
      NoDotsPopped(FoldOne(stack, components[0]), components[1..]);
    }
  }

  lemma TwoComponents(w: string, v: string, sep: char)
    requires w != "" && v != "" && NoSeparator(w, sep) && NoSeparator(v, sep)
    ensures Parts(w + [sep] + v, sep) == [w, v] == Parts(w + [sep, sep] + v, sep)
  {
    FirstAfter(w, v, sep);
    FirstAfter(w, [sep] + v, sep);
    assert w + [sep, sep] + v == w + [sep] + ([sep] + v);
    WordFirst(w, v, sep, false);
    WordFirst(w, [sep] + v, sep, false);
    FirstSeparator([sep] + v, sep, true);
    assert ([sep] + v)[1..] == v;
    NoEndSeparator(v, sep);
    LastRest(v, sep, true);
    hide Rest;
    hide IndexOf;
  }

  /** `split` is not injective: a run of separators is forgotten. */
  lemma SplitForgetsRuns(w: string, v: string)
    requires w != "" && v != "" && NoSeparator(w, '/') && NoSeparator(v, '/')
    ensures Split(w + "/" + v, POSIX) == Split(w + "//" + v, POSIX) && w + "/" + v != w + "//" + v
  {
    TwoComponents(w, v, '/');
    var s, t := w + "/" + v, w + "//" + v;
    assert s[0..] == s && t[0..] == t && |s| != |t|;
    hide Parts;
  }

  /** ".." against "w/." gives "w", where walking leads to where w is. */
  lemma DotTakenForAName(w: string)
    requires w != "" && NoSeparator(w, '/') && w != "." && w != ".."
    ensures Resolve("..", w + "/.", POSIX) == w
    ensures PlaceOf(w, '/') == Place(false, 0, [w]) && WalkAll(PlaceOf(w + "/.", '/'), [".."]) == Place(false, 0, [])
  {
    DotComponents(w);
    FoldsOverDot(w);
    WalkSteps(w);
    OneComponent(w);
    OneComponent("..");
    hide Split;
    hide Fold;
    hide WalkAll;
    assert [w, "."][..0] == [] && [w, "."][0..] == [w, "."] && [w][0..] == [w];
    assert [] + [w] == [w];
    assert Join([w], POSIX) == w by { OneFirst(w, [], '/'); assert [w] + [] == [w]; }
    hide Join;
  }

  lemma DotComponents(w: string)
    requires w != "" && NoSeparator(w, '/')
    ensures Split(w + "/.", POSIX) == [w, "."] && w != "/" && NoSeparator("..", '/')
  {
    var base := w + "/.";
    assert NoSeparator(".", '/') by { assert "."[1..] == ""; }
    assert NoSeparator("..", '/') by { assert ".."[1..] == "." && "."[1..] == ""; }
    TwoComponents(w, ".", '/');
    assert base == w + ['/'] + "." && base[0..] == base;
    hide Parts;
  }

  lemma FoldsOverDot(w: string)
    ensures Fold([w, "."], [".."]) == [w]
  {
    assert [w, "."][..1] == [w] && [".."][1..] == [];
    assert FoldOne([w, "."], "..") == [w];
    hide FoldOne;
    assert Fold([w], []) == [w];
  }

  lemma OneComponent(w: string)
    requires w != "" && NoSeparator(w, '/')
    ensures Split(w, POSIX) == [w] && w[0] != '/'
  {
    NoEndSeparator(w, '/');
    LastRest(w, '/', false);
    assert w[0..] == w;
  }

  lemma WalkSteps(w: string)
    requires w != "" && w != "." && w != ".."
    ensures var p := Place(false, 0, []);
            && WalkAll(p, [w]) == Place(false, 0, [w])
            && WalkAll(WalkAll(p, [w, "."]), [".."]) == p
  {
    var p := Place(false, 0, []);
    assert [w][1..] == [] && [w, "."][1..] == ["."] && ["."][1..] == [] && [".."][1..] == [];
    var q := Place(false, 0, [w]);
    assert Walk(p, w) == q && Walk(q, ".") == q && Walk(q, "..") == p;
    hide Walk;
    assert WalkAll(q, ["."]) == WalkAll(q, []) == q;
    assert WalkAll(p, [w, "."]) == WalkAll(q, ["."]);
    assert WalkAll(q, [".."]) == WalkAll(p, []) == p;
    assert WalkAll(p, [w]) == WalkAll(q, []);
  }

  // ---------------------------------------------------------------- Windows paths

  /** The drive of a Windows path as it is written, or nothing, and what is behind it. */
  function Drive(path: string): string {
    path[..DriveLength(path, Windows)]
  }

  function Driveless(path: string): string {
    path[DriveLength(path, Windows)..]
  }

  function DriveParts(path: string): seq<string> {
    if Drive(path) != "" then [Drive(path)] else []
  }

  /** The components of a Windows path: drive, root, and the rest. */
  lemma WindowsSplit(path: string)
    ensures var cs, t := Split(path, Windows), Driveless(path);
            var n, rooted := RootLength(cs, Windows), Rooted(t, '\\');
            && cs[..n] == DriveParts(path) + Root(rooted, '\\') && cs[n..] == Rootless(t, '\\')
            && IsRooted(cs, Windows) == rooted && IsAbsolute(cs, Windows) == (rooted && Drive(path) != "")
            && (DriveComponent(cs, Windows) == "" <==> Drive(path) == "")
  {
    var t := Driveless(path);
    PartsWords(t, '\\');
    hide Rootless;
    hide Words;
    hide PlaceOf;
    hide WalkAll;
    if Drive(path) == "" {
      assert path[0..] == path;
      FirstPartIsNoDrive(path, '\\');
    }
    hide Parts;
  }

  /** The components of a relative path; its drive, if it has one, is among them. */
  lemma RelativeWords(path: string)
    requires !Rooted(Driveless(path), '\\')
    ensures Split(path, Windows) == DriveParts(path) + Rootless(Driveless(path), '\\')
    ensures Words(Split(path, Windows), '\\')
  {
    var t := Driveless(path);
    PartsWords(t, '\\');
    var rest := Rootless(t, '\\');
    hide Rootless;
    hide Words;
    hide PlaceOf;
    hide WalkAll;
    assert [] + rest == rest;
    if Drive(path) != "" {
      DriveIsWord(Drive(path));
      hide NoSeparator;
      MoreWords(Drive(path), rest, '\\');
    }
    hide Parts;
  }

  lemma DriveIsWord(d: string)
    requires IsDrive(d)
    ensures NoSeparator(d, '\\') && DriveLength(d, Windows) == 2
  {
    assert d[1..][1..] == "" && d[..2] == d;
  }

  /** Where a Windows path leads: its drive, and the place there. */
  function PlaceIn(path: string): (string, Place) {
    (Drive(path), PlaceOf(Driveless(path), '\\'))
  }

  /** A path that names neither drive nor root of its own would start with what is a drive. */
  predicate StartsWithDrive(base: string, folded: seq<string>) {
    && Drive(base) == "" && !Rooted(Driveless(base), '\\')
    && folded != [] && DriveLength(folded[0], Windows) > 0
  }

  lemma DriveInFront(d: string, j: string)
    requires IsDrive(d)
    ensures Drive(d + j) == d && Driveless(d + j) == j
  {
    assert (d + j)[..2] == d && (d + j)[2..] == j;
  }

  lemma NoDriveInFront(j: string)
    requires DriveLength(j, Windows) == 0
    ensures Drive(j) == "" && Driveless(j) == j
  {
  }

  /** Whether the string made of a root and components starts with a drive. */
  lemma JoinedDrive(rooted: bool, cs: seq<string>)
    requires Words(cs, '\\')
    ensures var j := Joined("", true, Root(rooted, '\\') + cs, '\\');
            DriveLength(j, Windows) == if rooted || cs == [] then 0 else DriveLength(cs[0], Windows)
  {
    NothingJoined('\\');
    if cs == [] {
      assert Root(rooted, '\\') + cs == Root(rooted, '\\');
      hide Joined;
    } else if rooted {
      RootedString(cs, '\\');
      hide Joined;
      hide Glue;
    } else if cs[0] == "" {
      MarkerJoined('\\');
      assert cs == [""] && [] + cs == cs;
      hide Joined;
    } else {
      RelativeString(cs, '\\');
      assert [] + cs == cs;
      hide Joined;
      GlueDrive(cs);
    }
  }

  lemma GlueDrive(cs: seq<string>)
    requires cs != [] && cs[0] != ""
    ensures DriveLength(Glue(cs, '\\'), Windows) == DriveLength(cs[0], Windows)
  {
    var c, g := cs[0], Glue(cs, '\\');
    var t := if |cs| > 1 then ['\\'] + Glue(cs[1..], '\\') else "";
    assert g == c + t;
    hide Glue;
    if |c| >= 2 {
      assert g[..2] == c[..2];
    } else if |g| >= 2 {
      assert g[1] == t[0] == '\\';
      assert g[..2][1] == g[1];
    }
  }

  /** A relative path, if on a drive then on that of the base. */
  predicate OnDriveOf(path: string, base: string) {
    var ps, bs := Split(path, Windows), Split(base, Windows);
    && !IsRooted(ps, Windows)
    && (Drive(path) == "" || DriveComponent(ps, Windows) == DriveComponent(bs, Windows))
  }

  /** Two drives of the same letter, in upper case (codes 65 to 90) or lower case (97 to 122). */
  predicate SameLetter(d: string, e: string) {
    && d != "" && e != ""
    && (d[0] == e[0] || d[0] as int + 32 == e[0] as int || e[0] as int + 32 == d[0] as int)
  }

  lemma DriveIs(path: string)
    ensures Drive(path) != "" <==> && |path| >= 2 && path[1] == ':'
                                   && (65 <= path[0] as int <= 90 || 97 <= path[0] as int <= 122)
    ensures Drive(path) != "" ==> Drive(path) == [path[0], ':']
  {
    if |path| >= 2 {
      assert path[..2] == [path[0], path[1]];
    }
  }

  lemma ComponentIs(path: string)
    ensures DriveComponent(Split(path, Windows), Windows)
            == if Drive(path) == "" then "" else [ToUpper(path[0]), ':']
  {
    WindowsSplit(path);
    DriveIs(path);
    hide Drive;
    hide Rootless;
    hide ToUpper;
    hide RootLength;
    if Drive(path) != "" {
      assert Split(path, Windows)[0] == Drive(path);
    }
  }

  /** What counts as a drive, and when two drives are the same one. */
  lemma DrivesCompare(path: string, base: string)
    ensures Drive(path) != "" <==> && |path| >= 2 && path[1] == ':'
                                   && (65 <= path[0] as int <= 90 || 97 <= path[0] as int <= 122)
    ensures Drive(path) != "" ==> Drive(path) == path[..2]
    ensures Drive(path) != "" ==> (DriveComponent(Split(path, Windows), Windows)
                                   == DriveComponent(Split(base, Windows), Windows)
                                   <==> SameLetter(Drive(path), Drive(base)))
    ensures OnDriveOf(path, base) <==> && !Rooted(Driveless(path), '\\')
                                       && (Drive(path) == "" || SameLetter(Drive(path), Drive(base)))
  {
    DriveIs(path);
    DriveIs(base);
    ComponentIs(path);
    ComponentIs(base);
    WindowsSplit(path);
    hide Split;
    hide DriveComponent;
    hide Rootless;
    hide Drive;
    hide Driveless;
    if Drive(path) != "" && Drive(base) != "" {
      UpperSame(path[0], base[0]);
      hide ToUpper;
      assert [ToUpper(path[0]), ':'] == [ToUpper(base[0]), ':'] <==> ToUpper(path[0]) == ToUpper(base[0]);
    }
  }

  lemma UpperSame(a: char, b: char)
    requires IsAlpha(a) && IsAlpha(b)
    ensures ToUpper(a) == ToUpper(b) <==> a == b || a as int + 32 == b as int || b as int + 32 == a as int
  {
  }

  /** A path that names another drive than the base, or a drive where the base has none, and no root, stays as it is. */
  lemma OtherDriveStays(path: string, base: string)
    requires Drive(path) != "" && !Rooted(Driveless(path), '\\') && !SameLetter(Drive(path), Drive(base))
    ensures Resolve(path, base, Windows) == path
  {
    DrivesCompare(path, base);
    WindowsSplit(path);
    hide Split;
    hide Join;
    hide Fold;
  }

  lemma WindowsResolved(path: string, base: string)
    requires OnDriveOf(path, base)
    ensures var f := Fold(Rootless(Driveless(base), '\\'), Split(path, Windows));
            var j := Join(DriveParts(base) + Root(Rooted(Driveless(base), '\\'), '\\') + f, Windows);
            Resolve(path, base, Windows) == OrDot(j)
  {
    WindowsSplit(path);
    WindowsSplit(base);
    hide Split;
    hide Join;
    hide Fold;
    hide Rootless;
    hide Driveless;
    hide Drive;
  }

  /** Joining puts the drive in front. */
  lemma WindowsJoin(base: string, cs: seq<string>)
    requires Words(cs, '\\')
    ensures var rooted := Rooted(Driveless(base), '\\');
            var j := Joined("", true, Root(rooted, '\\') + cs, '\\');
            var r := Join(DriveParts(base) + Root(rooted, '\\') + cs, Windows);
            && (Drive(base) != "" ==> r == Drive(base) + j)
            && (Drive(base) == "" && !StartsWithDrive(base, cs) ==> r == j && DriveLength(j, Windows) == 0)
            && (StartsWithDrive(base, cs) ==> DriveLength(r, Windows) > 0)
  {
    var rooted := Rooted(Driveless(base), '\\');
    var tail := Root(rooted, '\\') + cs;
    JoinedDrive(rooted, cs);
    if Drive(base) != "" {
      assert DriveParts(base) + Root(rooted, '\\') + cs == [Drive(base)] + tail;
      assert ([Drive(base)] + tail)[1..] == tail;
    } else {
      assert DriveParts(base) + Root(rooted, '\\') + cs == tail;
      if StartsWithDrive(base, cs) {
        assert tail == cs;
        if IsDrive(cs[0]) {
          DriveInFront(cs[0], Joined("", true, cs[1..], '\\'));
        }
      } else if tail != [] && IsDrive(tail[0]) {
        DriveIsWord(tail[0]);
        assert false;
      }
    }
    hide Joined;
    hide Words;
  }

  /**
   * A relative Windows path resolved against a base on its drive, or on any drive if it names none, leads where one
   * gets by walking first the base and then the path, on the drive of the base -- except where the POSIX function
   * fails, too, or where the outcome of two paths without drive or root starts with what looks like a drive.  But
   * the components that are walked include the drive of the path: it is taken for the name of a directory.
   */
  lemma WindowsResolveIsWalking(path: string, base: string)
    requires OnDriveOf(path, base)
    ensures var ps, stack := Split(path, Windows), Rootless(Driveless(base), '\\');
            PlaceIn(Resolve(path, base, Windows)) == (Drive(base), WalkAll(PlaceIn(base).1, ps))
            <==> DotsPopped(stack, ps) == 0 && !StartsWithDrive(base, Fold(stack, ps))
  {
    hide *;
    WindowsSplit(path);
    var t, ps := Driveless(base), Split(path, Windows);
    var rooted, stack := Rooted(t, '\\'), Rootless(t, '\\');
    IsRelative(path, base);
    RelativeWords(path);
    PartsWords(t, '\\');
    WindowsResolved(path, base);
    FoldLeads(rooted, stack, ps, '\\');
    var f := Fold(stack, ps);
    WindowsJoin(base, f);
    WindowsLeads(base, Joined("", true, Root(rooted, '\\') + f, '\\'),
                 Join(DriveParts(base) + Root(rooted, '\\') + f, Windows), f);
    BaseIn(base);
  }

  lemma IsRelative(path: string, base: string)
    requires OnDriveOf(path, base)
    ensures !Rooted(Driveless(path), '\\')
  {
    WindowsSplit(path);
    hide Split;
    hide Driveless;
  }

  lemma BaseIn(base: string)
    ensures PlaceIn(base) == (Drive(base), PlaceOf(Driveless(base), '\\'))
  {
  }

  /** Where the joined string, or "." for the empty one, leads. */
  lemma WindowsLeads(base: string, j: string, r: string, cs: seq<string>)
    requires Drive(base) != "" ==> r == Drive(base) + j
    requires Drive(base) == "" && !StartsWithDrive(base, cs) ==> r == j && DriveLength(j, Windows) == 0
    requires StartsWithDrive(base, cs) ==> DriveLength(r, Windows) > 0
    requires PlaceOf(OrDot(j), '\\') == PlaceOf(j, '\\')
    ensures if StartsWithDrive(base, cs) then PlaceIn(OrDot(r)).0 != Drive(base)
            else PlaceIn(OrDot(r)) == (Drive(base), PlaceOf(j, '\\'))
  {
    hide PlaceOf;
    if Drive(base) != "" {
      assert |base[..2]| == 2;
      DriveInFront(Drive(base), j);
    } else if !StartsWithDrive(base, cs) {
      NoDriveInFront(OrDot(j));
    }
  }

  /** "C:w" against "C:\\b" gives "C:\\b\\C:\\w": a relative path on the drive of the base leads astray. */
  lemma DriveTakenForAName(d: string, w: string, b: string)
    requires IsDrive(d) && w != "" && NoSeparator(w, '\\') && w != ".."
    requires b != "" && NoSeparator(b, '\\')
    ensures Resolve(d + w, d + ['\\'] + b, Windows) == d + ['\\'] + b + ['\\'] + d + ['\\'] + w
  {
    var path, base := d + w, d + ['\\'] + b;
    DriveWord(d, w);
    DriveRoot(d, b);
    FoldsNames(b, d, w);
    NamesJoined(b, d, w);
    hide *;
    WindowsSplit(path);
    WindowsSplit(base);
    SameDrive(path, base);
    WindowsResolved(path, base);
    WindowsJoin(base, [b, d, w]);
    DriveThenNames(b, d, w);
  }

  lemma DriveThenNames(b: string, d: string, w: string)
    ensures d + (['\\'] + b + ['\\'] + d + ['\\'] + w) == d + ['\\'] + b + ['\\'] + d + ['\\'] + w
  {
  }

  /** The components of a drive and a name. */
  lemma DriveWord(d: string, w: string)
    requires IsDrive(d) && w != "" && NoSeparator(w, '\\')
    ensures Drive(d + w) == d != "" && !Rooted(Driveless(d + w), '\\') && Split(d + w, Windows) == [d, w]
  {
    DriveInFront(d, w);
    NoEndSeparator(w, '\\');
    LastRest(w, '\\', false);
    assert [d] + [w] == [d, w];
    hide Rest;
  }

  lemma DriveRoot(d: string, b: string)
    requires IsDrive(d) && b != "" && NoSeparator(b, '\\')
    ensures var base := d + ['\\'] + b;
            Drive(base) == d && Rooted(Driveless(base), '\\') && Rootless(Driveless(base), '\\') == [b]
  {
    var t := ['\\'] + b;
    assert d + ['\\'] + b == d + t;
    DriveInFront(d, t);
    assert t[1..] == b;
    NoEndSeparator(b, '\\');
    LastRest(b, '\\', false);
    hide Rest;
  }

  lemma FoldsNames(b: string, d: string, w: string)
    requires b != "" && w != ".." && d != ".." && d != ""
    ensures Fold([b], [d, w]) == [b, d, w]
  {
    assert [d, w][1..] == [w] && [w][1..] == [];
    assert [b] + [d] == [b, d] && [b, d] + [w] == [b, d, w];
    assert FoldOne([b], d) == [b, d] && FoldOne([b, d], w) == [b, d, w];
    hide FoldOne;
    assert Fold([b, d], [w]) == Fold([b, d, w], []);
  }

  lemma NamesJoined(b: string, d: string, w: string)
    requires b != "" && NoSeparator(b, '\\') && IsDrive(d) && NoSeparator(w, '\\')
    ensures Words([b, d, w], '\\')
    ensures Joined("", true, Root(true, '\\') + [b, d, w], '\\') == ['\\'] + b + ['\\'] + d + ['\\'] + w
  {
    DriveIsWord(d);
    var cs := [b, d, w];
    assert Words(cs, '\\') by { hide NoSeparator; }
    RootedString(cs, '\\');
    assert cs[1..] == [d, w] && [d, w][1..] == [w];
    assert Glue([w], '\\') == w && Glue([d, w], '\\') == d + ['\\'] + w;
    assert Glue(cs, '\\') == b + ['\\'] + (d + ['\\'] + w);
    hide Glue;
    hide Joined;
    hide Words;
  }

  lemma SameDrive(path: string, base: string)
    requires Drive(path) == Drive(base) != "" && !Rooted(Driveless(path), '\\')
    ensures OnDriveOf(path, base)
  {
    WindowsSplit(path);
    hide Driveless;
    hide Parts;
  }

  /** A path from the root of no drive leads there, on the drive of the base. */
  lemma RootedResolve(path: string, base: string)
    requires Drive(path) == "" && Rooted(path, '\\')
    ensures PlaceIn(Resolve(path, base, Windows)) == (Drive(base), PlaceOf(path, '\\'))
  {
    NoDriveInFront(path);
    WindowsSplit(path);
    PartsWords(path, '\\');
    RootedResolved(path, base);
    hide *;
    var rest := Rootless(path, '\\');
    RootedJoin(base, rest);
    StringLeadsThere(true, rest, '\\');
    JoinedDrive(true, rest);
    PlacedIn(Drive(base), Joined("", true, Root(true, '\\') + rest, '\\'));
  }

  lemma PlacedIn(d: string, j: string)
    requires (d == "" || IsDrive(d)) && DriveLength(j, Windows) == 0
    ensures PlaceIn(d + j) == (d, PlaceOf(j, '\\'))
  {
    hide PlaceOf;
    if d == "" {
      assert d + j == j;
      NoDriveInFront(j);
    } else {
      DriveInFront(d, j);
    }
  }

  lemma RootedJoin(base: string, cs: seq<string>)
    requires Words(cs, '\\')
    ensures var j := Joined("", true, Root(true, '\\') + cs, '\\');
            && j != "" && (Drive(base) == "" || IsDrive(Drive(base)))
            && Join(DriveParts(base) + Root(true, '\\') + cs, Windows) == Drive(base) + j
  {
    var tail := Root(true, '\\') + cs;
    NothingJoined('\\');
    if cs == [] {
      assert tail == ["\\"];
    } else {
      RootedString(cs, '\\');
    }
    hide Joined;
    if Drive(base) != "" {
      assert DriveParts(base) + Root(true, '\\') + cs == [Drive(base)] + tail;
      assert ([Drive(base)] + tail)[1..] == tail;
    } else {
      assert DriveParts(base) + Root(true, '\\') + cs == tail;
    }
  }

  lemma RootedResolved(path: string, base: string)
    requires Drive(path) == "" && Rooted(path, '\\')
    ensures Resolve(path, base, Windows)
         == OrDot(Join(DriveParts(base) + Root(true, '\\') + Rootless(path, '\\'), Windows))
  {
    NoDriveInFront(path);
    WindowsSplit(path);
    WindowsSplit(base);
    var ps, bs := Split(path, Windows), Split(base, Windows);
    var n := RootLength(bs, Windows);
    assert ps[1..] == Rootless(path, '\\');
    hide Split;
    hide Join;
    hide Rootless;
    hide Fold;
    if Rooted(Driveless(base), '\\') {
      assert bs[..n][n - 1] == "\\";
    } else {
      assert DriveParts(base) + [] == DriveParts(base);
      assert n > 0 ==> bs[..n][n - 1] == Drive(base);
    }
  }
}
