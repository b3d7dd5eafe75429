// cmQtAutoGenInitializer: the project-relative file name, the search path
// sanitizer, and the escaped list encoding InfoWriter writes into the info
// files.

module QtInitLists {
  import opened Text

  /* ---------------- FileProjectRelativePath ---------------- */

  /**
   * FileProjectRelativePath: the path relative to the source directory when
   * it is shorter than the one relative to the binary directory; else that
   * one when it is shorter than the file name; else the file name.
   * `relSource` and `relBinary` are what cmSystemTools::RelativePath gives.
   */
  function ProjectRelativePath(fileName: string, relSource: string, relBinary: string): string
  {
    if |relSource| < |relBinary| then relSource
    else if |relBinary| < |fileName| then relBinary
    else fileName
  }

  /**
   * The result is one of the three, never longer than the binary-relative
   * path, and never longer than the file name unless it is the
   * source-relative path: that one is not compared with the file name.
   */
  lemma ProjectRelativePathChoice(fileName: string, relSource: string, relBinary: string)
    ensures var r := ProjectRelativePath(fileName, relSource, relBinary);
      && (r == relSource <== |relSource| < |relBinary|)
      && (r == relBinary <== |relBinary| <= |relSource| && |relBinary| < |fileName|)
      && (r == fileName <== |relBinary| <= |relSource| && |fileName| <= |relBinary|)
      && |r| <= |relBinary|
      && (|r| <= |fileName| || (r == relSource && |relSource| < |relBinary|))
  {
  }

  /** A source-relative path longer than the file name is still chosen when the binary-relative one is longer. */
  lemma ProjectRelativePathNotShortest()
    ensures ProjectRelativePath("/a.h", "../../a.h", "../../../a.h") == "../../a.h"
  {
  }

  /* ---------------- SearchPathSanitizer ---------------- */

  /** The path without its trailing '/' characters. */
  function StripSlashes(s: string): string
  {
    if s != [] && s[|s| - 1] == '/' then StripSlashes(s[..|s| - 1]) else s
  }

  /** What is stripped is all '/', and what remains does not end with one. */
  lemma {:induction false} StripSlashesSpec(s: string)
    ensures var r := StripSlashes(s);
      && |r| <= |s| && s[..|r|] == r
      && (r == [] || r[|r| - 1] != '/')
      && forall i :: |r| <= i < |s| ==> s[i] == '/'
  {
    if s != [] && s[|s| - 1] == '/' {
      StripSlashesSpec(s[..|s| - 1]);
      var r := StripSlashes(s);
      assert s[..|s| - 1][..|r|] == s[..|r|];
    }
  }

  /** Stripping twice strips nothing more. */
  lemma StripSlashesIdempotent(s: string)
    ensures StripSlashes(StripSlashes(s)) == StripSlashes(s)
  {
    StripSlashesSpec(s);
  }

  /** The sanitized search paths: each collapsed, stripped, and kept only when not empty. */
  function Sanitized(paths: seq<string>, collapse: string -> string): seq<string>
  {
    if paths == [] then []
    else
      var path := StripSlashes(collapse(paths[|paths| - 1]));
      Sanitized(paths[..|paths| - 1], collapse) + (if path == [] then [] else [path])
  }

  /**
   * SearchPathSanitizer: `collapse` is cmSystemTools::CollapseFullPath
   * against the current source directory.
   */
  method SanitizeSearchPaths(paths: seq<string>, collapse: string -> string) returns (res: seq<string>)
    ensures res == Sanitized(paths, collapse)
  {
    res := [];
    var i := 0;
    while i < |paths|
      invariant i <= |paths| && res == Sanitized(paths[..i], collapse)
    {
      var path := collapse(paths[i]);
      while |path| > 0 && path[|path| - 1] == '/'
        invariant StripSlashes(path) == StripSlashes(collapse(paths[i]))
      {
        path := path[..|path| - 1];
      }
      if path != [] {
        res := res + [path];
      }
      assert paths[..i + 1][..i] == paths[..i];
      i := i + 1;
    }
    assert paths[..i] == paths;
  }

  /** Sanitizing keeps the order: a list of paths sanitizes part by part. */
  lemma {:induction false} SanitizedConcat(a: seq<string>, b: seq<string>, collapse: string -> string)
    ensures Sanitized(a + b, collapse) == Sanitized(a, collapse) + Sanitized(b, collapse)
  {
    if b == [] {
      assert a + b == a;
    } else {
      var init := b[..|b| - 1];
      assert (a + b)[..|a + b| - 1] == a + init;
      assert (a + b)[|a + b| - 1] == b[|b| - 1];
      SanitizedConcat(a, init, collapse);
    }
  }

  /** Every sanitized path is non-empty and does not end with '/'; there are at most as many as given. */
  lemma {:induction false} SanitizedPaths(paths: seq<string>, collapse: string -> string)
    ensures var r := Sanitized(paths, collapse);
      |r| <= |paths| && forall i :: 0 <= i < |r| ==> r[i] != [] && r[i][|r[i]| - 1] != '/'
  {
    if paths != [] {
      SanitizedPaths(paths[..|paths| - 1], collapse);
      StripSlashesSpec(collapse(paths[|paths| - 1]));
    }
  }

  /* ---------------- InfoWriter::ListJoin ---------------- */

  /** One character as ListJoin writes it: '"', '$', '\\' and ';' get a backslash. */
  function EscapeChar(c: char): string
  {
    if c == '"' || c == '$' || c == '\\' || c == ';' then ['\\', c] else [c]
  }

  /** An item as ListJoin writes it: read as a C string, so it ends at the first NUL. */
  function Escaped(s: string): string
  {
    if s == [] || s[0] == '\0' then "" else EscapeChar(s[0]) + Escaped(s[1..])
  }

  /** The items escaped and joined with ';'. */
  function Joined(items: seq<string>): string
  {
    if items == [] then ""
    else if |items| == 1 then Escaped(items[0])
    else Escaped(items[0]) + ";" + Joined(items[1..])
  }

  lemma {:induction false} EscapedConcat(a: string, b: string)
    requires '\0' !in a
    ensures Escaped(a + b) == Escaped(a) + Escaped(b)
  {
    if a != [] {
      assert (a + b)[0] == a[0] && (a + b)[1..] == a[1..] + b;
      EscapedConcat(a[1..], b);
    } else {
      assert a + b == b;
    }
  }

  lemma {:induction false} JoinedSnoc(items: seq<string>, x: string)
    ensures Joined(items + [x]) == if items == [] then Escaped(x) else Joined(items) + ";" + Escaped(x)
  {
    if |items| > 1 {
      var e := Escaped(items[0]);
      assert (items + [x])[1..] == items[1..] + [x];
      JoinedSnoc(items[1..], x);
      var j := Joined(items[1..]);
      assert Joined(items + [x]) == (e + ";") + ((j + ";") + Escaped(x));
      AppendAssociates(e + ";", j + ";", Escaped(x));
      AppendAssociates(e + ";", j, ";");
    } else if |items| == 1 {
      assert (items + [x])[1..] == [x];
    }
  }

  /** One item as ListJoin writes it: character by character up to its NUL, each escaped. */
  method EscapeItem(item: string) returns (res: string)
    ensures res == Escaped(item)
  {
    res := "";
    var j := 0;
    while j < |item| && item[j] != '\0'
      invariant j <= |item| && '\0' !in item[..j]
      invariant res == Escaped(item[..j])
    {
      var c := item[j];
      assert item[..j + 1] == item[..j] + [c];
      EscapedConcat(item[..j], [c]);
      assert Escaped([c]) == EscapeChar(c);
      if c == '"' || c == '$' || c == '\\' || c == ';' {
        res := res + ['\\', c];
      } else {
        res := res + [c];
      }
      j := j + 1;
    }
    assert item == item[..j] + item[j..];
    EscapedConcat(item[..j], item[j..]);
  }

  /** InfoWriter::ListJoin: the escaped items joined with ';'. */
  method ListJoin(items: seq<string>) returns (res: string)
    ensures res == Joined(items)
  {
    res := "";
    var i := 0;
    while i < |items|
      invariant i <= |items| && res == Joined(items[..i])
    {
      TakeSnoc(items, i);
      JoinedSnoc(items[..i], items[i]);
      if i != 0 {
        res := res + ";";
      }
      var escaped := EscapeItem(items[i]);
      res := res + escaped;
      i := i + 1;
    }
    assert items[..i] == items;
  }

  /** The first item of an encoded list, and what follows its separating ';'. */
  datatype Piece = Piece(head: string, rest: Option<string>)

  /** Reads one item back: a backslash takes the next character literally; an unescaped ';' ends the item. */
  function SplitFirst(t: string): (r: Piece)
    ensures r.rest.Some? ==> |r.rest.value| < |t|
    decreases |t|
  {
    if t == [] then Piece("", None)
    else if t[0] == ';' then Piece("", Some(t[1..]))
    else if t[0] == '\\' && |t| >= 2 then
      var p := SplitFirst(t[2..]);
      Piece([t[1]] + p.head, p.rest)
    else
      var p := SplitFirst(t[1..]);
      Piece([t[0]] + p.head, p.rest)
  }

  /** Reads every item back. */
  function Unjoined(t: string): (r: seq<string>)
    ensures |r| >= 1
    decreases |t|
  {
    var p := SplitFirst(t);
    if p.rest.None? then [p.head] else [p.head] + Unjoined(p.rest.value)
  }

  /** An escaped item reads back as itself, up to the end or to the ';' that follows it. */
  lemma {:induction false} SplitFirstEscaped(a: string, t: string)
    requires '\0' !in a && (t == [] || t[0] == ';')
    ensures SplitFirst(Escaped(a) + t) == Piece(a, if t == [] then None else Some(t[1..]))
  {
    if a == [] {
      assert Escaped(a) + t == t;
    } else {
      var c := a[0];
      var rest := Escaped(a[1..]) + t;
      assert Escaped(a) == EscapeChar(c) + Escaped(a[1..]);
      AppendAssociates(EscapeChar(c), Escaped(a[1..]), t);
      SplitFirstChar(c, rest);
      SplitFirstEscaped(a[1..], t);
      calc {
        SplitFirst(Escaped(a) + t);
        SplitFirst(EscapeChar(c) + rest);
        Piece([c] + a[1..], if t == [] then None else Some(t[1..]));
        { assert [c] + a[1..] == a; }
        Piece(a, if t == [] then None else Some(t[1..]));
      }
    }
  }

  /** Reading one escaped character back. */
  lemma SplitFirstChar(c: char, rest: string)
    ensures var p := SplitFirst(rest);
      SplitFirst(EscapeChar(c) + rest) == Piece([c] + p.head, p.rest)
  {
    var u := EscapeChar(c) + rest;
    if c == '"' || c == '$' || c == '\\' || c == ';' {
      assert u[0] == '\\' && u[1] == c && u[2..] == rest;
    } else {
      assert u[0] == c && u[1..] == rest;
    }
  }

  /** Reading a joined list gives the items back, provided there is at least one and none holds a NUL. */
  lemma {:induction false} JoinedRoundTrip(items: seq<string>)
    requires |items| >= 1 && forall i :: 0 <= i < |items| ==> '\0' !in items[i]
    ensures Unjoined(Joined(items)) == items
  {
    if |items| == 1 {
      SplitFirstEscaped(items[0], "");
      assert Escaped(items[0]) + "" == Escaped(items[0]);
    } else {
      var tail := Joined(items[1..]);
      var rest := ";" + tail;
      AppendAssociates(Escaped(items[0]), ";", tail);
      SplitFirstEscaped(items[0], rest);
      assert rest[1..] == tail;
      JoinedRoundTrip(items[1..]);
      assert Unjoined(Joined(items)) == [items[0]] + items[1..];
    }
  }

  /** The empty list and the list of one empty item are written alike. */
  lemma JoinedEmptyAmbiguous()
    ensures Joined([]) == Joined([""]) == ""
  {
  }

  /** An item is cut at its first NUL. */
  lemma EscapedStopsAtNul(a: string, b: string)
    requires '\0' !in a
    ensures Escaped(a + ['\0'] + b) == Escaped(a)
  {
    EscapedConcat(a, ['\0'] + b);
    assert a + ['\0'] + b == a + (['\0'] + b);
  }

  /* ---------------- InfoWriter::WriteNestedLists ---------------- */

  /**
   * The value WriteNestedLists passes to Write: each list joined and put in
   * braces, the results joined with the list separator `sep`
   * (cmQtAutoGen::ListSep).
   */
  function NestedListsValue(lists: seq<seq<string>>, sep: string): string
  {
    Join(seq(|lists|, i requires 0 <= i < |lists| => "{" + Joined(lists[i]) + "}"), sep)
  }

  /** The first list comes first, in braces, and the separator follows it when more lists come. */
  lemma NestedListsCons(l: seq<string>, rest: seq<seq<string>>, sep: string)
    ensures NestedListsValue([l], sep) == "{" + Joined(l) + "}"
    ensures rest != [] ==>
      NestedListsValue([l] + rest, sep) == "{" + Joined(l) + "}" + sep + NestedListsValue(rest, sep)
  {
    var all := [l] + rest;
    var braced := seq(|all|, i requires 0 <= i < |all| => "{" + Joined(all[i]) + "}");
    var tail := seq(|rest|, i requires 0 <= i < |rest| => "{" + Joined(rest[i]) + "}");
    assert braced[1..] == tail;
  }
}
