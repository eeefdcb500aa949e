/**
  `display_directory`: the HTML page listing a directory, one line per entry
  sorted case-insensitively, preceded by a `..` line everywhere but at the
  root URL.
 */
module Listing {
  import opened Wrappers
  import opened Text
  import opened FileSystem
  import opened PosixPath

  // ---------------------------------------------------------------------
  // sorted(names, key=str.lower)

  function Key(name: string): string
  {
    Lower(name)
  }

  /** a may come before b in the listing. */
  predicate NotAfter(a: string, b: string)
  {
    !Less(Key(b), Key(a))
  }

  predicate SortedByKey(s: seq<string>)
  {
    forall i, j :: 0 <= i < j < |s| ==> NotAfter(s[i], s[j])
  }

  lemma NotAfterTransitive(a: string, b: string, c: string)
    requires NotAfter(a, b) && NotAfter(b, c)
    ensures NotAfter(a, c)
  {
    LessTotal(Key(a), Key(b));
    if Less(Key(c), Key(a)) && Less(Key(a), Key(b)) {
      LessTransitive(Key(c), Key(a), Key(b));
    }
  }

  lemma NotAfterTotal(a: string, b: string)
    ensures NotAfter(a, b) || NotAfter(b, a)
  {
    if Less(Key(a), Key(b)) && Less(Key(b), Key(a)) {
      LessTransitive(Key(a), Key(b), Key(a));
      LessIrreflexive(Key(a));
    }
  }

  /** Puts x before the first name it may precede, so that among equal keys
      the earlier name stays first, as Python's stable sort keeps them. */
  function Insert(x: string, s: seq<string>): (r: seq<string>)
    ensures multiset(r) == multiset(s) + multiset{x}
    ensures |r| == |s| + 1
  {
    if s == [] then [x]
    else if NotAfter(x, s[0]) then [x] + s
    else
      assert s == [s[0]] + s[1..];
      [s[0]] + Insert(x, s[1..])
  }

  lemma {:induction false} InsertSorted(x: string, s: seq<string>)
    requires SortedByKey(s)
    ensures SortedByKey(Insert(x, s))
  {
    if s == [] {
    } else if NotAfter(x, s[0]) {
      var r := [x] + s;
      forall i, j | 0 <= i < j < |r| ensures NotAfter(r[i], r[j]) {
        if i == 0 {
          if j > 1 { NotAfterTransitive(x, s[0], s[j - 1]); }
        } else {
          assert r[i] == s[i - 1] && r[j] == s[j - 1];
        }
      }
    } else {
      NotAfterTotal(x, s[0]);
      InsertSorted(x, s[1..]);
      var t := Insert(x, s[1..]);
      var r := [s[0]] + t;
      forall i, j | 0 <= i < j < |r| ensures NotAfter(r[i], r[j]) {
        if i == 0 {
          var y := r[j];
          assert y == t[j - 1];
          assert y in multiset(t);
          if y != x {
            assert y in multiset(s[1..]);
            var k :| 0 <= k < |s[1..]| && s[1..][k] == y;
            assert s[k + 1] == y;
          }
        } else {
          assert r[i] == t[i - 1] && r[j] == t[j - 1];
        }
      }
    }
  }

  /** `sorted(names, key=str.lower)`. */
  function SortByKey(names: seq<string>): (r: seq<string>)
    ensures multiset(r) == multiset(names)
    ensures SortedByKey(r)
  {
    if names == [] then []
    else
      var rest := SortByKey(names[1..]);
      InsertSorted(names[0], rest);
      assert names == [names[0]] + names[1..];
      Insert(names[0], rest)
  }

  // ---------------------------------------------------------------------
  // The lines of the page

  /** One listing line: size, `dir` or `file`, link target and the text shown. */
  datatype Row = Row(size: nat, kind: string, href: string, name: string)

  /** '{0:>10}  {1:<4}  <a href="{2}">{3}</a>'.format(size, kind, href, name) */
  function FormatRow(row: Row): (line: string)
    ensures EndsWith(line, "<a href=\"" + row.href + "\">" + row.name + "</a>")
  {
    var link := "<a href=\"" + row.href + "\">" + row.name + "</a>";
    var line := PadLeft(IntString(row.size), 10) + "  " + PadRight(row.kind, 4) + "  " + link;
    assert line == (PadLeft(IntString(row.size), 10) + "  " + PadRight(row.kind, 4) + "  ") + link;
    line
  }

  /** The `..` line: it links to the POSIX directory name of the URL path. */
  function ParentRow(urlpath: string): (row: Row)
    ensures row.name == ".." && row.size == 0 && row.kind == "dir"
    ensures row.href == Dirname(urlpath)
  {
    Row(0, "dir", Dirname(urlpath), "..")
  }

  /** For a URL path ending in a slash, the `..` line links to the same
      directory without its slash: the branch that tests for the slash
      computes the same directory name as the line after it. */
  lemma ParentOfTrailingSlash(urlpath: string)
    requires EndsWith(urlpath, "/") && !AllSlashes(urlpath)
    ensures ParentRow(urlpath).href == RStripSlashes(urlpath)
  {
    DirnameOfTrailingSlash(urlpath);
  }

  /** The link of an entry: appended to the URL path, with a slash between
      unless the path already ends with one. */
  function Href(urlpath: string, name: string): (link: string)
    requires urlpath != []
    ensures StartsWith(link, urlpath) && EndsWith(link, name)
    ensures urlpath[|urlpath| - 1] == '/' ==> |link| == |urlpath| + |name|
    ensures urlpath[|urlpath| - 1] != '/' ==> |link| == |urlpath| + 1 + |name| && link[|urlpath|] == '/'
  {
    var link := if urlpath[|urlpath| - 1] == '/' then urlpath + name else urlpath + "/" + name;
    assert link[..|urlpath|] == urlpath;
    link
  }

  /** The line for an entry: its size, whether it is a directory, its link. */
  function EntryRow(fs: FileSystem, syspath: string, urlpath: string, name: string): (row: Row)
    requires urlpath != [] && Join(syspath, name) in fs
    ensures row.name == name && row.href == Href(urlpath, name)
    ensures row.size == fs[Join(syspath, name)].size
    ensures row.kind == (if IsDir(fs, Join(syspath, name)) then "dir" else "file")
  {
    var node := fs[Join(syspath, name)];
    Row(node.size, if node.Dir? then "dir" else "file", Href(urlpath, name), name)
  }

  predicate AllListed(fs: FileSystem, syspath: string, names: seq<string>)
  {
    forall i :: 0 <= i < |names| ==> Join(syspath, names[i]) in fs
  }

  /** The lines of the given entries, in the given order. */
  function EntryRows(fs: FileSystem, syspath: string, urlpath: string, names: seq<string>): (rows: seq<Row>)
    requires urlpath != [] && AllListed(fs, syspath, names)
    ensures |rows| == |names|
    ensures forall i :: 0 <= i < |names| ==> rows[i] == EntryRow(fs, syspath, urlpath, names[i])
  {
    seq(|names|, i requires 0 <= i < |names| => EntryRow(fs, syspath, urlpath, names[i]))
  }

  /** The names shown by a sequence of rows. */
  function RowNames(rows: seq<Row>): (names: seq<string>)
    ensures |names| == |rows| && forall i :: 0 <= i < |rows| ==> names[i] == rows[i].name
  {
    seq(|rows|, i requires 0 <= i < |rows| => rows[i].name)
  }

  /** The lines before the rows. */
  function Header(syspath: string): (lines: seq<string>)
    ensures |lines| == 9 && lines[8] == syspath + "\n"
  {
    ["<!DOCTYPE HTML>", "<html>", "  <head>", "    <meta charset=\"utf-8\">",
     "    <title>Webserver - Directory</title>", "  </head>", "  <body>", "    <pre>",
     syspath + "\n"]
  }

  /** The lines after the rows. */
  const Footer: seq<string> := ["    </pre>", "  </body>", "</html>"]

  function ParentRows(urlpath: string): seq<Row>
  {
    if urlpath != "/" then [ParentRow(urlpath)] else []
  }

  /** The rows of the listing, or None when `display_directory` raises:
      an empty URL path has no last character (IndexError), and an entry
      that vanished has no size (OSError). */
  function ListingRows(fs: FileSystem, syspath: string, urlpath: string): Option<seq<Row>>
    requires IsDir(fs, syspath)
  {
    var names := SortByKey(fs[syspath].entries);
    if urlpath == [] || !AllListed(fs, syspath, names) then None
    else Some(ParentRows(urlpath) + EntryRows(fs, syspath, urlpath, names))
  }

  function FormatRows(rows: seq<Row>): (lines: seq<string>)
    ensures |lines| == |rows| && forall i :: 0 <= i < |rows| ==> lines[i] == FormatRow(rows[i])
  {
    seq(|rows|, i requires 0 <= i < |rows| => FormatRow(rows[i]))
  }

  /** The page `display_directory` sends, as `text/html`. */
  function ListingPage(fs: FileSystem, syspath: string, urlpath: string): (page: Option<string>)
    requires IsDir(fs, syspath)
    ensures page.Some? <==> ListingRows(fs, syspath, urlpath).Some?
  {
    match ListingRows(fs, syspath, urlpath)
    case None => None
    case Some(rows) => Some(JoinWith(Header(syspath) + FormatRows(rows) + Footer, "\n"))
  }

  lemma FormatRowsAppend(a: seq<Row>, b: seq<Row>)
    ensures FormatRows(a + b) == FormatRows(a) + FormatRows(b)
  {
  }

  /** One more listed name adds its line after the lines of the names before it. */
  lemma EntryLinesSnoc(fs: FileSystem, syspath: string, urlpath: string, names: seq<string>, k: nat)
    requires urlpath != [] && k < |names|
    requires AllListed(fs, syspath, names[..k]) && Join(syspath, names[k]) in fs
    ensures AllListed(fs, syspath, names[..k + 1])
    ensures FormatRows(EntryRows(fs, syspath, urlpath, names[..k + 1]))
         == FormatRows(EntryRows(fs, syspath, urlpath, names[..k])) + [FormatRow(EntryRow(fs, syspath, urlpath, names[k]))]
  {
    var before := EntryRows(fs, syspath, urlpath, names[..k]);
    assert names[..k + 1] == names[..k] + [names[k]];
    var after := EntryRows(fs, syspath, urlpath, names[..k + 1]);
    assert after == before + [EntryRow(fs, syspath, urlpath, names[k])];
    FormatRowsAppend(before, [EntryRow(fs, syspath, urlpath, names[k])]);
  }

  /** The row the loop builds for an entry is its `EntryRow`. */
  lemma EntryRowOf(fs: FileSystem, syspath: string, urlpath: string, name: string)
    requires urlpath != [] && Join(syspath, name) in fs
    ensures EntryRow(fs, syspath, urlpath, name)
         == Row(fs[Join(syspath, name)].size,
                if fs[Join(syspath, name)].Dir? then "dir" else "file",
                if urlpath[|urlpath| - 1] == '/' then urlpath + name else urlpath + "/" + name,
                name)
  {
  }

  lemma ListingPageOfLines(fs: FileSystem, syspath: string, urlpath: string)
    requires IsDir(fs, syspath) && urlpath != []
    requires AllListed(fs, syspath, SortByKey(fs[syspath].entries))
    ensures ListingPage(fs, syspath, urlpath)
         == Some(JoinWith(Header(syspath) + FormatRows(ParentRows(urlpath))
                          + FormatRows(EntryRows(fs, syspath, urlpath, SortByKey(fs[syspath].entries))) + Footer, "\n"))
  {
    var entries := EntryRows(fs, syspath, urlpath, SortByKey(fs[syspath].entries));
    assert ListingRows(fs, syspath, urlpath) == Some(ParentRows(urlpath) + entries);
    PageOfRows(Header(syspath), ParentRows(urlpath), entries);
  }

  lemma PageOfRows(head: seq<string>, parents: seq<Row>, entries: seq<Row>)
    ensures head + FormatRows(parents + entries) + Footer == head + FormatRows(parents) + FormatRows(entries) + Footer
  {
    FormatRowsAppend(parents, entries);
  }

  /** The loop of `display_directory`: one line per name, in the order given;
      None when an entry has no size to report. */
  method AppendEntryLines(fs: FileSystem, syspath: string, urlpath: string, names: seq<string>, head: seq<string>)
    returns (lines: Option<seq<string>>)
    requires urlpath != []
    ensures lines.Some? <==> AllListed(fs, syspath, names)
    ensures lines.Some? ==> lines.value == head + FormatRows(EntryRows(fs, syspath, urlpath, names))
  {
    var out := head;
    var k := 0;
    while k < |names|
      invariant 0 <= k <= |names|
      invariant AllListed(fs, syspath, names[..k])
      invariant out == head + FormatRows(EntryRows(fs, syspath, urlpath, names[..k]))
    {
      var sysfile := Join(syspath, names[k]);
      if sysfile !in fs {
        assert !AllListed(fs, syspath, names) by { assert Join(syspath, names[k]) !in fs; }
        return None;
      }
      var node := fs[sysfile];
      var kind := if node.Dir? then "dir" else "file";
      var link := if urlpath[|urlpath| - 1] == '/' then urlpath + names[k] else urlpath + "/" + names[k];
      EntryRowOf(fs, syspath, urlpath, names[k]);
      EntryLinesSnoc(fs, syspath, urlpath, names, k);
      out := out + [FormatRow(Row(node.size, kind, link, names[k]))];
      k := k + 1;
    }
    assert names[..k] == names;
    return Some(out);
  }

  /** `display_directory(syspath, urlpath)`: appends the header, the `..`
      line, one line per sorted entry and the footer, then joins them. */
  method DisplayDirectory(fs: FileSystem, syspath: string, urlpath: string) returns (page: Option<string>)
    requires IsDir(fs, syspath)
    ensures page == ListingPage(fs, syspath, urlpath)
  {
    var lines := Header(syspath);
    if urlpath != "/" {
      if urlpath == [] {
        return None;
      }
      lines := lines + [FormatRow(ParentRow(urlpath))];
    }
    assert lines == Header(syspath) + FormatRows(ParentRows(urlpath));
    var names := SortByKey(fs[syspath].entries);
    var withEntries := AppendEntryLines(fs, syspath, urlpath, names, lines);
    if withEntries.None? {
      return None;
    }
    ListingPageOfLines(fs, syspath, urlpath);
    lines := withEntries.value + Footer;
    page := Some(JoinWith(lines, "\n"));
  }

  // ---------------------------------------------------------------------
  // What the listing promises

  /** The `..` line is there exactly when the URL path is not the root, and
      then it comes first. */
  lemma ParentLineIff(fs: FileSystem, syspath: string, urlpath: string)
    requires IsDir(fs, syspath) && ListingRows(fs, syspath, urlpath).Some?
    ensures |ListingRows(fs, syspath, urlpath).value| == |fs[syspath].entries| + (if urlpath != "/" then 1 else 0)
    ensures urlpath != "/" ==> ListingRows(fs, syspath, urlpath).value[0] == ParentRow(urlpath)
  {
    var names := SortByKey(fs[syspath].entries);
    assert |names| == |multiset(names)| == |multiset(fs[syspath].entries)|;
  }

  /** After the `..` line come the directory's entries, each exactly once,
      ordered by lower-case name, each linking below the URL path. */
  lemma EntryLines(fs: FileSystem, syspath: string, urlpath: string)
    requires IsDir(fs, syspath) && ListingRows(fs, syspath, urlpath).Some?
    ensures var rows := ListingRows(fs, syspath, urlpath).value;
            var skip := if urlpath != "/" then 1 else 0;
            && skip <= |rows|
            && multiset(RowNames(rows[skip..])) == multiset(fs[syspath].entries)
            && SortedByKey(RowNames(rows[skip..]))
            && (forall i :: skip <= i < |rows| ==> rows[i].href == Href(urlpath, rows[i].name))
  {
    var sorted := SortByKey(fs[syspath].entries);
    var rows := ListingRows(fs, syspath, urlpath).value;
    var skip := if urlpath != "/" then 1 else 0;
    assert rows[skip..] == EntryRows(fs, syspath, urlpath, sorted);
    assert RowNames(rows[skip..]) == sorted;
  }

  /** The listing fails only for an empty URL path or an entry that has
      disappeared. */
  lemma ListingFailsIff(fs: FileSystem, syspath: string, urlpath: string)
    requires IsDir(fs, syspath)
    ensures ListingRows(fs, syspath, urlpath).None?
        <==> urlpath == [] || exists name :: name in fs[syspath].entries && Join(syspath, name) !in fs
  {
    var entries := fs[syspath].entries;
    var names := SortByKey(entries);
    if !AllListed(fs, syspath, names) {
      var i :| 0 <= i < |names| && Join(syspath, names[i]) !in fs;
      assert names[i] in multiset(entries);
    }
    if exists name :: name in entries && Join(syspath, name) !in fs {
      var name :| name in entries && Join(syspath, name) !in fs;
      assert name in multiset(names);
    }
  }

  /** The link of an entry is `posixpath.join` of the URL path and the name,
      and for a URL path without a trailing slash its parent is that path. */
  lemma HrefIsJoin(urlpath: string, name: string)
    requires urlpath != [] && name != [] && '/' !in name
    ensures Href(urlpath, name) == Join(urlpath, name)
    ensures urlpath[|urlpath| - 1] != '/' ==> Dirname(Href(urlpath, name)) == urlpath
  {
    assert !StartsWith(name, "/") by { assert name[0] != '/'; }
    assert EndsWith(urlpath, "/") <==> urlpath[|urlpath| - 1] == '/' by {
      assert urlpath[|urlpath| - 1..] == [urlpath[|urlpath| - 1]];
    }
    if urlpath[|urlpath| - 1] != '/' {
      DirnameOfJoin(urlpath, name);
    }
  }
}
