/** The PHP string functions the package relies on, over strings as sequences of
    characters: str_starts_with, str_ends_with, strtolower, ltrim/rtrim/trim with a
    single character, and the basename/extension/dirname parts of pathinfo. */
module Strings {

  /** str_starts_with: an empty prefix always matches. */
  predicate StartsWith(s: string, prefix: string) {
    |prefix| <= |s| && s[..|prefix|] == prefix
  }

  /** str_ends_with. */
  predicate EndsWith(s: string, suffix: string) {
    |suffix| <= |s| && s[|s| - |suffix|..] == suffix
  }

  /** strtolower (PHP 8: ASCII letters only, independent of the locale). */
  function LowerChar(ch: char): char {
    if 'A' <= ch <= 'Z' then (ch as int + ('a' as int - 'A' as int)) as char else ch
  }

  function Lower(s: string): (r: string)
    ensures |r| == |s|
  {
    if s == [] then [] else [LowerChar(s[0])] + Lower(s[1..])
  }

  /** strtolower maps each character on its own. */
  lemma {:induction false} LowerChars(s: string)
    ensures forall i :: 0 <= i < |s| ==> Lower(s)[i] == LowerChar(s[i])
  {
    if s != [] {
      LowerChars(s[1..]);
    }
  }

  /** Lower-casing twice is lower-casing once. */
  lemma LowerIdempotent(s: string)
    ensures Lower(Lower(s)) == Lower(s)
  {
    LowerChars(s);
    LowerChars(Lower(s));
    assert forall i :: 0 <= i < |s| ==> Lower(Lower(s))[i] == Lower(s)[i];
  }

  /** array_map('strtolower', $list). */
  function LowerAll(list: seq<string>): (r: seq<string>)
    ensures |r| == |list|
    ensures forall i :: 0 <= i < |list| ==> r[i] == Lower(list[i])
  {
    if list == [] then [] else [Lower(list[0])] + LowerAll(list[1..])
  }

  /** ltrim($s, $ch): drops every leading `ch`. */
  function TrimLeft(s: string, ch: char): (r: string)
    ensures |r| <= |s|
  {
    if s != [] && s[0] == ch then TrimLeft(s[1..], ch) else s
  }

  /** ltrim keeps a suffix, drops only `ch`, and stops at the first other
      character. */
  lemma {:induction false} TrimLeftKeepsSuffix(s: string, ch: char)
    ensures var r := TrimLeft(s, ch);
      && r == s[|s| - |r|..]
      && (forall i :: 0 <= i < |s| - |r| ==> s[i] == ch)
      && (r == [] || r[0] != ch)
  {
    if s != [] && s[0] == ch {
      TrimLeftKeepsSuffix(s[1..], ch);
    }
  }

  /** rtrim($s, $ch): drops every trailing `ch`. */
  function TrimRight(s: string, ch: char): (r: string)
    ensures |r| <= |s|
  {
    if s != [] && s[|s| - 1] == ch then TrimRight(s[..|s| - 1], ch) else s
  }

  /** rtrim keeps a prefix, drops only `ch`, and stops at the last other
      character. */
  lemma {:induction false} TrimRightKeepsPrefix(s: string, ch: char)
    ensures var r := TrimRight(s, ch);
      && r == s[..|r|]
      && (forall i :: |r| <= i < |s| ==> s[i] == ch)
      && (r == [] || r[|r| - 1] != ch)
  {
    if s != [] && s[|s| - 1] == ch {
      TrimRightKeepsPrefix(s[..|s| - 1], ch);
    }
  }

  /** trim($s, $ch). */
  function Trim(s: string, ch: char): (r: string)
    ensures r == [] || (r[0] != ch && r[|r| - 1] != ch)
  {
    var l := TrimLeft(s, ch);
    var r := TrimRight(l, ch);
    TrimLeftKeepsSuffix(s, ch);
    TrimRightKeepsPrefix(l, ch);
    assert r != [] ==> r[0] == l[0];
    r
  }

  /** array_map(fn($d) => trim($d, $ch), $list). */
  function TrimAll(list: seq<string>, ch: char): (r: seq<string>)
    ensures |r| == |list|
    ensures forall i :: 0 <= i < |list| ==> r[i] == Trim(list[i], ch)
  {
    if list == [] then [] else [Trim(list[0], ch)] + TrimAll(list[1..], ch)
  }

  /** The text after the last `ch`; the whole string when `ch` does not occur. */
  function AfterLast(s: string, ch: char): (r: string)
    ensures |r| <= |s|
  {
    if s == [] then []
    else if s[|s| - 1] == ch then []
    else AfterLast(s[..|s| - 1], ch) + [s[|s| - 1]]
  }

  /** The text after the last `ch` is a suffix free of `ch`, shorter than the
      string exactly when `ch` occurs, and preceded by `ch` then. */
  lemma {:induction false} AfterLastIsLastSegment(s: string, ch: char)
    ensures var r := AfterLast(s, ch);
      && ch !in r
      && r == s[|s| - |r|..]
      && (ch in s <==> |r| < |s|)
      && (|r| < |s| ==> s[|s| - |r| - 1] == ch)
  {
    if s != [] && s[|s| - 1] != ch {
      var init := s[..|s| - 1];
      AfterLastIsLastSegment(init, ch);
      var r := AfterLast(init, ch);
      assert init[|init| - |r|..] == s[|s| - 1 - |r|..|s| - 1];
      assert s == init + [s[|s| - 1]];
      assert ch in s <==> ch in init;
    }
  }

  /** The text before the last `ch`; requires that `ch` occurs. */
  function BeforeLast(s: string, ch: char): (r: string)
    requires ch in s
    ensures |r| < |s|
  {
    var tail := AfterLast(s, ch);
    AfterLastIsLastSegment(s, ch);
    s[..|s| - |tail| - 1]
  }

  /** The text before the last `ch` is a prefix followed by `ch`, and no `ch`
      comes after that one. */
  lemma BeforeLastIsPrefix(s: string, ch: char)
    requires ch in s
    ensures var r := BeforeLast(s, ch);
      r == s[..|r|] && s[|r|] == ch && ch !in s[|r| + 1..]
  {
    AfterLastIsLastSegment(s, ch);
    var tail := AfterLast(s, ch);
    assert s[|BeforeLast(s, ch)| + 1..] == tail;
  }

  /** pathinfo($p, PATHINFO_BASENAME): trailing separators dropped, then the
      component after the last '/'. */
  function Basename(path: string): string {
    AfterLast(TrimRight(path, '/'), '/')
  }

  /** A base name holds no '/'. */
  lemma BasenameHasNoSlash(path: string)
    ensures '/' !in Basename(path)
  {
    AfterLastIsLastSegment(TrimRight(path, '/'), '/');
  }

  /** pathinfo($p, PATHINFO_EXTENSION): the text after the last '.' of the
      basename, or "" when the basename has no '.'. */
  function Extension(path: string): string {
    var base := Basename(path);
    var tail := AfterLast(base, '.');
    if |tail| < |base| then tail else ""
  }

  /** An extension holds neither '.' nor '/', and is non-empty only when the
      base name has a '.'. */
  lemma ExtensionOfBasename(path: string)
    ensures '.' !in Extension(path) && '/' !in Extension(path)
    ensures Extension(path) != "" ==> '.' in Basename(path)
  {
    var base := Basename(path);
    BasenameHasNoSlash(path);
    AfterLastIsLastSegment(base, '.');
    var tail := AfterLast(base, '.');
    if |tail| < |base| {
      assert forall i :: 0 <= i < |tail| ==> tail[i] == base[|base| - |tail| + i];
    }
  }

  /** pathinfo($p, PATHINFO_DIRNAME): "" for "", "/" for a path of separators
      only, "." for a bare file name, otherwise the part before the last '/'
      with its trailing separators dropped ("/" when nothing is left). */
  function Dirname(path: string): (r: string)
    ensures r == "" <==> path == ""
  {
    var t := TrimRight(path, '/');
    var tail := AfterLast(t, '/');
    if path == "" then ""
    else if t == "" then "/"
    else if |tail| < |t| then
      AfterLastIsLastSegment(t, '/');
      var d := TrimRight(BeforeLast(t, '/'), '/');
      if d == "" then "/" else d
    else "."
  }

  /** ltrim drops a run of `ch` in front of text that does not start with
      `ch`, and nothing more. */
  lemma {:induction false} TrimLeftDropsRun(run: string, rest: string, ch: char)
    requires forall i :: 0 <= i < |run| ==> run[i] == ch
    requires rest == [] || rest[0] != ch
    ensures TrimLeft(run + rest, ch) == rest
  {
    if run == [] {
      assert run + rest == rest;
    } else {
      assert (run + rest)[1..] == run[1..] + rest;
      TrimLeftDropsRun(run[1..], rest, ch);
    }
  }

  /** A string made of a prefix `d`, a run of `ch`, one more `ch` and a text
      free of `ch` loses exactly the run and that `ch` to ltrim after `d`. */
  lemma RunBeforeLastSegment(t: string, b: string, d: string, tail: string, ch: char)
    requires t == b + ([ch] + tail)
    requires |d| <= |b| && d == b[..|d|]
    requires forall i :: |d| <= i < |b| ==> b[i] == ch
    requires ch !in tail
    ensures |d| < |t| && d == t[..|d|]
    ensures TrimLeft(t[|d|..], ch) == tail
  {
    var run := b[|d|..] + [ch];
    assert forall i :: 0 <= i < |run| ==> run[i] == ch by {
      forall i | 0 <= i < |run|
        ensures run[i] == ch
      {
        if i < |b| - |d| {
          assert run[i] == b[|d| + i];
        }
      }
    }
    assert b == d + b[|d|..];
    assert t[|d|..] == run + tail;
    assert tail == [] || tail[0] != ch by {
      if tail != [] {
        assert tail[0] in tail;
      }
    }
    TrimLeftDropsRun(run, tail, ch);
  }

  /** In a path with no trailing separator and some '/', the text before the
      last '/' with its own trailing separators dropped is a prefix, a '/'
      follows it when it is not empty, and past it come only separators and
      then the last component. */
  lemma ParentOfTrimmed(t: string)
    requires t != [] && '/' in t
    ensures var d := TrimRight(BeforeLast(t, '/'), '/');
      && |d| < |t| && d == t[..|d|]
      && (d != "" ==> t[|d|] == '/' && d[|d| - 1] != '/')
      && TrimLeft(t[|d|..], '/') == AfterLast(t, '/')
  {
    AfterLastIsLastSegment(t, '/');
    var tail := AfterLast(t, '/');
    BeforeLastIsPrefix(t, '/');
    var b := BeforeLast(t, '/');
    var d := TrimRight(b, '/');
    TrimRightKeepsPrefix(b, '/');
    assert t == b + (['/'] + tail);
    RunBeforeLastSegment(t, b, d, tail, '/');
    if d != "" && |d| < |b| {
      assert b[|d|] == '/';
    }
  }

  /** The directory is "", "/", "." when no '/' precedes the base name, or a
      leading part of the path that a '/' follows; "." for a bare file name. */
  lemma DirnameIsParent(path: string)
    ensures var d := Dirname(path);
      || d == "" || d == "/" || StartsWith(path, d + "/")
      || (d == "." && '/' !in TrimRight(path, '/'))
    ensures path != "" && '/' !in path ==> Dirname(path) == "."
  {
    var t := TrimRight(path, '/');
    if '/' in t {
      DirnameFollowedBySeparator(path);
    } else {
      DirnameCutsAtLastSeparator(path);
    }
    if path != "" && '/' !in path {
      TrimRightKeepsPrefix(path, '/');
      assert '/' !in t;
    }
  }

  /** When a '/' precedes the base name, the directory is "/" or a leading
      part of the path that a '/' follows. */
  lemma DirnameFollowedBySeparator(path: string)
    requires '/' in TrimRight(path, '/')
    ensures Dirname(path) == "/" || StartsWith(path, Dirname(path) + "/")
  {
    var t := TrimRight(path, '/');
    AfterLastIsLastSegment(t, '/');
    assert t != "" && path != "";
    var d := TrimRight(BeforeLast(t, '/'), '/');
    assert Dirname(path) == if d == "" then "/" else d;
    TrimRightKeepsPrefix(path, '/');
    ParentOfTrimmed(t);
    if d != "" {
      assert t[..|d| + 1] == d + "/";
      assert path[..|d| + 1] == t[..|d| + 1];
    }
  }

  /** rtrim drops a run of `ch` behind text that does not end with `ch`, and
      nothing more. */
  lemma {:induction false} TrimRightDropsRun(kept: string, run: string, ch: char)
    requires forall i :: 0 <= i < |run| ==> run[i] == ch
    requires kept == [] || kept[|kept| - 1] != ch
    ensures TrimRight(kept + run, ch) == kept
  {
    if run == [] {
      assert kept + run == kept;
    } else {
      assert (kept + run)[..|kept + run| - 1] == kept + run[..|run| - 1];
      TrimRightDropsRun(kept, run[..|run| - 1], ch);
    }
  }

  /** `d` is where pathinfo cuts `path` when the trimmed path holds a '/': a
      non-empty leading part not ending in '/', after which come only
      separators and then the base name. */
  predicate IsLastSeparatorCut(path: string, d: string) {
    var t := TrimRight(path, '/');
    && d != "" && d[|d| - 1] != '/'
    && |d| < |t| && d == t[..|d|]
    && TrimLeft(t[|d|..], '/') == Basename(path)
  }

  /** The directory, case by case: "" for "", "/" for separators only, "."
      when no '/' precedes the base name; otherwise "/" when only separators
      precede the base name and else the cut before the last run of
      separators. */
  lemma DirnameCutsAtLastSeparator(path: string)
    ensures var t := TrimRight(path, '/');
      '/' !in t ==> Dirname(path) == if path == "" then "" else if t == "" then "/" else "."
    ensures '/' in TrimRight(path, '/') && Dirname(path) != "/" ==> IsLastSeparatorCut(path, Dirname(path))
    ensures Dirname(path) == "/" ==> TrimLeft(TrimRight(path, '/'), '/') == Basename(path)
  {
    var t := TrimRight(path, '/');
    AfterLastIsLastSegment(t, '/');
    assert Basename(path) == AfterLast(t, '/');
    if path != "" && t != "" && '/' in t {
      ParentOfTrimmed(t);
      var d := TrimRight(BeforeLast(t, '/'), '/');
      assert Dirname(path) == if d == "" then "/" else d;
      if d == "" {
        assert t[|d|..] == t;
      }
    } else if path != "" && t != "" {
      assert Dirname(path) == ".";
    }
  }

  /** The cut is the only one: any leading part that meets IsLastSeparatorCut
      is the directory, and when only separators precede the base name the
      directory is "/". */
  lemma DirnameIsTheOnlyCut(path: string, d: string)
    ensures '/' in TrimRight(path, '/') && IsLastSeparatorCut(path, d) ==> Dirname(path) == d
    ensures '/' in TrimRight(path, '/') && TrimLeft(TrimRight(path, '/'), '/') == Basename(path) ==>
      Dirname(path) == "/"
  {
    var t := TrimRight(path, '/');
    if '/' in t && IsLastSeparatorCut(path, d) {
      CutIsDirname(path, d);
    }
    if '/' in t && TrimLeft(t, '/') == Basename(path) {
      DirnameCutsAtLastSeparator(path);
      var dn := Dirname(path);
      if dn != "/" {
        // dn would lie inside the leading run of separators, yet end in a
        // character other than '/'.
        var base := Basename(path);
        TrimLeftKeepsSuffix(t, '/');
        assert false;
      }
    }
  }

  /** A leading part not ending in `ch`, followed in `t` only by `ch` up to the
      `ch` before the last segment, is what rtrim leaves of the text before
      that `ch`. */
  lemma CutBeforeRun(t: string, d: string, last: nat, ch: char)
    requires 0 < |d| <= last < |t| && d == t[..|d|] && d[|d| - 1] != ch
    requires forall i :: |d| <= i <= last ==> t[i] == ch
    ensures TrimRight(t[..last], ch) == d
  {
    var kept := t[|d|..last];
    assert t[..last] == d + kept;
    assert forall i :: 0 <= i < |kept| ==> kept[i] == t[|d| + i];
    TrimRightDropsRun(d, kept, ch);
  }

  /** A cut meeting IsLastSeparatorCut is what Dirname computes. */
  lemma CutIsDirname(path: string, d: string)
    requires '/' in TrimRight(path, '/') && IsLastSeparatorCut(path, d)
    ensures Dirname(path) == d
  {
    var t := TrimRight(path, '/');
    var base := AfterLast(t, '/');
    assert base == Basename(path);
    var rest := t[|d|..];
    AfterLastIsLastSegment(t, '/');
    TrimLeftKeepsSuffix(rest, '/');
    var last := |t| - |base| - 1;
    assert t[|d| - 1] == d[|d| - 1] != '/';
    assert forall i :: |d| <= i <= last ==> t[i] == '/' by {
      forall i | |d| <= i <= last
        ensures t[i] == '/'
      {
        if i < last {
          assert t[i] == rest[i - |d|];
        }
      }
    }
    CutBeforeRun(t, d, last, '/');
    assert BeforeLast(t, '/') == t[..last];
    assert Dirname(path) == TrimRight(BeforeLast(t, '/'), '/');
  }

  /** PHP's empty() on a string: "" and "0" are empty. */
  predicate IsEmpty(s: string) {
    s == "" || s == "0"
  }
}
