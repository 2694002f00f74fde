/**
 The managed section of a git hook: how `Autogen` finds it, splices the regenerated lines in over a shared backing array
 and loops over the scripts of a hook, and when a splice keeps the lines outside the section.
 */
module Autogen {
  import opened Wrappers
  import opened Strings
  import opened GoSlices

  const HEAD := Marker("++")
  const FOOT := Marker("--")
  const SHEBANG := "#!/bin/bash"
  const COMMENT := "# These lines were added by go run mage.go autogen."

  type Lines = seq<string>

  function Marker(sign: string): string {
    "## " + sign + " BUILD SYSTEM MANAGED - DO NOT EDIT " + sign + " ##"
  }

  /** `strings.TrimPrefix(line, " ")`: at most one space goes. */
  function TrimSpace(line: string): string {
    if line != "" && line[0] == ' ' then line[1..] else line
  }

  /** `strings.TrimRight(line, " \t")`. */
  function TrimRight(line: string): string {
    if line != "" && line[|line| - 1] in {' ', '\t'} then TrimRight(line[..|line| - 1]) else line
  }

  predicate IsHead(line: string) {
    TrimSpace(line) == HEAD
  }

  predicate IsFoot(line: string) {
    TrimSpace(line) == FOOT
  }

  predicate IsShebang(line: string) {
    TrimRight(line) == SHEBANG
  }

  lemma MarkerChars()
    ensures HEAD[0] == '#' && HEAD[1] == '#' && HEAD[3] == '+'
    ensures FOOT[0] == '#' && FOOT[1] == '#' && FOOT[3] == '-'
  {
  }

  lemma CommentPieces()
    ensures COMMENT == "# These lines were added by" + " go run mage.go autogen."
  {
  }

  lemma CommentChars()
    ensures COMMENT[0] == '#' && COMMENT[1] == ' '
  {
    CommentPieces();
  }

  /** No line is both markers, and the shebang line is neither. */
  lemma MarkersApart(line: string)
    ensures !(IsHead(line) && IsFoot(line))
    ensures IsShebang(line) ==> !IsHead(line) && !IsFoot(line)
  {
    MarkerChars();
    if IsShebang(line) {
      TrimRightPrefix(line);
      assert line[0] == '#' && line[1] == '!';
    }
  }

  lemma MarkersAreMarkers()
    ensures IsHead(HEAD) && IsFoot(FOOT)
  {
    MarkerChars();
  }

  lemma {:induction false} TrimRightPrefix(line: string)
    ensures TrimRight(line) <= line
  {
    if line != "" && line[|line| - 1] in {' ', '\t'} {
      TrimRightPrefix(line[..|line| - 1]);
    }
  }

  /** The lines the scan looks for, letter by letter: one leading space at most, and nothing behind. */
  lemma MarkerLines(line: string)
    ensures IsHead(line) <==>
            || line == "## ++ BUILD SYSTEM " + "MANAGED - DO NOT EDIT ++ ##"
            || line == " " + "## ++ BUILD SYSTEM " + "MANAGED - DO NOT EDIT ++ ##"
    ensures IsFoot(line) <==>
            || line == "## -- BUILD SYSTEM " + "MANAGED - DO NOT EDIT -- ##"
            || line == " " + "## -- BUILD SYSTEM " + "MANAGED - DO NOT EDIT -- ##"
  {
    MarkerText();
    MarkerChars();
    hide TrimSpace, Marker;
    Spaced(line, HEAD);
    Spaced(line, FOOT);
  }

  lemma MarkerText()
    ensures HEAD == "## ++ BUILD SYSTEM " + "MANAGED - DO NOT EDIT ++ ##"
    ensures FOOT == "## -- BUILD SYSTEM " + "MANAGED - DO NOT EDIT -- ##"
  {
    MarkerPieces("++");
    MarkerPieces("--");
    hide Marker;
    assert "## " + "++" + " BUILD SYSTEM " == "## ++ BUILD SYSTEM ";
    assert "## " + "--" + " BUILD SYSTEM " == "## -- BUILD SYSTEM ";
    assert "MANAGED - DO NOT EDIT " + "++" + " ##" == "MANAGED - DO NOT EDIT ++ ##";
    assert "MANAGED - DO NOT EDIT " + "--" + " ##" == "MANAGED - DO NOT EDIT -- ##";
  }

  lemma MarkerPieces(sign: string)
    ensures Marker(sign) == ("## " + sign + " BUILD SYSTEM ") + ("MANAGED - DO NOT EDIT " + sign + " ##")
  {
    assert " BUILD SYSTEM MANAGED - DO NOT EDIT " == " BUILD SYSTEM " + "MANAGED - DO NOT EDIT ";
  }

  lemma Spaced(line: string, text: string)
    requires text != "" && text[0] != ' '
    ensures TrimSpace(line) == text <==> line == text || line == " " + text
  {
    if line != "" && line[0] == ' ' { assert line == " " + line[1..]; }
    assert (" " + text)[1..] == text;
  }

  /** The first line of a hook that is accepted: the shebang, and any blanks and tabs behind it. */
  lemma ShebangLines(line: string)
    ensures IsShebang(line) <==>
            "#!/bin/bash" <= line && forall i :: |"#!/bin/bash"| <= i < |line| ==> line[i] in {' ', '\t'}
  {
    TrimRightIs(line, SHEBANG);
  }

  lemma {:induction false} TrimRightIs(line: string, text: string)
    requires text != "" && text[|text| - 1] !in {' ', '\t'}
    ensures TrimRight(line) == text <==>
            text <= line && forall i :: |text| <= i < |line| ==> line[i] in {' ', '\t'}
  {
    if line != "" && line[|line| - 1] in {' ', '\t'} {
      TrimRightIs(line[..|line| - 1], text);
    }
  }

  // ---------- The scan ----------

  /** Two headers or two footers. */
  predicate Duplicated(lines: Lines) {
    exists i, j :: 0 <= i < j < |lines|
      && ((IsHead(lines[i]) && IsHead(lines[j])) || (IsFoot(lines[i]) && IsFoot(lines[j])))
  }

  /** The first line from `i` on that is a header, or a footer. */
  function Next(lines: Lines, head: bool, i: nat): (r: nat)
    requires i <= |lines|
    ensures i <= r <= |lines|
    ensures r < |lines| ==> if head then IsHead(lines[r]) else IsFoot(lines[r])
    ensures forall j :: i <= j < r ==> if head then !IsHead(lines[j]) else !IsFoot(lines[j])
    decreases |lines| - i
  {
    if i == |lines| || (if head then IsHead(lines[i]) else IsFoot(lines[i])) then i else Next(lines, head, i + 1)
  }

  /** Where the section starts: at the header if there is one, else at line 1. */
  function HeadAt(lines: Lines): nat {
    var i := Next(lines, true, 0);
    if i < |lines| then i else 1
  }

  /** Where what follows the section starts: past the footer if there is one, else at the end. */
  function TailAt(lines: Lines): nat {
    var i := Next(lines, false, 0);
    if i < |lines| then i + 1 else |lines|
  }

  /** The scan of the hook's lines: `None` for the multiple-sections error. */
  method FindSection(lines: Lines) returns (section: Option<(nat, nat)>)
    ensures section == None <==> Duplicated(lines)
    ensures section.Some? ==> section.value == (HeadAt(lines), TailAt(lines))
    ensures section.Some? ==> forall i :: 0 <= i < |lines| ==>
              (IsHead(lines[i]) ==> section.value.0 == i) && (IsFoot(lines[i]) ==> section.value.1 == i + 1)
    ensures section.Some? && (forall i :: 0 <= i < |lines| ==> !IsHead(lines[i])) ==> section.value.0 == 1
    ensures section.Some? && (forall i :: 0 <= i < |lines| ==> !IsFoot(lines[i])) ==> section.value.1 == |lines|
  {
    hide IsHead, IsFoot, Next;
    var headAt, tailAt := -1, -1;
    for idx := 0 to |lines|
      invariant -1 <= headAt < idx && (headAt >= 0 ==> IsHead(lines[headAt]))
      invariant forall i :: 0 <= i < idx && IsHead(lines[i]) ==> i == headAt
      invariant tailAt == -1 || (1 <= tailAt <= idx && IsFoot(lines[tailAt - 1]))
      invariant forall i :: 0 <= i < idx && IsFoot(lines[i]) ==> i + 1 == tailAt
    {
      if IsHead(lines[idx]) {
        if headAt != -1 {
          return None;
        }
        MarkersApart(lines[idx]);
        headAt := idx;
      } else if IsFoot(lines[idx]) {
        if tailAt != -1 {
          return None;
        }
        tailAt := idx + 1;
      }
    }
    if headAt == -1 {
      headAt := 1;
    }
    if tailAt == -1 {
      tailAt := |lines|;
    }
    return Some((headAt, tailAt));
  }

  // ---------- The splice ----------

  function ScriptLine(path: string): string {
    "\"./" + path + "\" || exit $?"
  }

  /** The section regenerated for the scripts seen so far. */
  function Package(scripts: seq<string>): (pkg: Lines)
    ensures |pkg| == |scripts| + 5
    ensures pkg[0] == HEAD && pkg[|pkg| - 1] == FOOT
  {
    [HEAD, COMMENT, ""] + seq(|scripts|, i requires 0 <= i < |scripts| => ScriptLine(scripts[i])) + ["", FOOT]
  }

  /** Inside double quotes the shell takes these characters as they are. */
  predicate Literal(word: string) {
    '"' !in word && '$' !in word && '`' !in word && '\\' !in word
  }

  /** The command a line runs, when it is one double-quoted literal word that ends the script on failure. */
  function CommandOf(line: string): Option<string> {
    if line == "" || line[0] != '"' then None
    else
      var rest := line[1..];
      var end := IndexOf(rest, '"');
      if end >= 0 && rest[end + 1..] == " || exit $?" && Literal(rest[..end]) then Some(rest[..end]) else None
  }

  /** The commands of some lines, in the order they run. */
  function Commands(lines: Lines): seq<string> {
    if lines == [] then []
    else
      var first := CommandOf(lines[0]);
      (if first.Some? then [first.value] else []) + Commands(lines[1..])
  }

  lemma {:induction false} CommandsConcat(a: Lines, b: Lines)
    ensures Commands(a + b) == Commands(a) + Commands(b)
  {
    hide CommandOf;
    if a == [] {
      assert a + b == b;
    } else {
      CommandsConcat(a[1..], b);
      assert (a + b)[0] == a[0] && (a + b)[1..] == a[1..] + b;
      var first := CommandOf(a[0]);
      var own := if first.Some? then [first.value] else [];
      assert Commands(a + b) == own + (Commands(a[1..]) + Commands(b)) == own + Commands(a[1..]) + Commands(b);
    }
  }

  /** The line of a script runs it from the top of the repository exactly when its path has no special characters. */
  lemma ScriptLineRuns(path: string)
    ensures CommandOf(ScriptLine(path)) == if Literal(path) then Some("./" + path) else None
  {
    hide IndexOf;
    var word, tail := "./" + path, " || exit $?";
    var rest := ScriptLine(path)[1..];
    assert rest == word + ['"'] + tail;
    if '"' in path {
      var i :| 0 <= i < |path| && path[i] == '"';
      assert rest[i + 2] == '"';
      assert IndexOf(rest, '"') <= i + 2;
    } else {
      IndexAt(word, '"', tail);
    }
  }

  lemma {:induction false} ScriptLinesRun(scripts: seq<string>)
    requires forall path :: path in scripts ==> Literal(path)
    ensures Commands(seq(|scripts|, i requires 0 <= i < |scripts| => ScriptLine(scripts[i])))
            == seq(|scripts|, i requires 0 <= i < |scripts| => "./" + scripts[i])
  {
    hide CommandOf, ScriptLine, Literal;
    if scripts != [] {
      var rest := scripts[1..];
      ScriptLineRuns(scripts[0]);
      ScriptLinesRun(rest);
      var lines := seq(|scripts|, i requires 0 <= i < |scripts| => ScriptLine(scripts[i]));
      assert lines[1..] == seq(|rest|, i requires 0 <= i < |rest| => ScriptLine(rest[i]));
    }
  }

  lemma FixedLinesRunNothing()
    ensures Commands([HEAD, COMMENT, ""]) == [] && Commands(["", FOOT]) == []
  {
    MarkerChars();
    CommentChars();
    assert CommandOf(HEAD) == CommandOf(FOOT) == CommandOf(COMMENT) == CommandOf("") == None;
    hide CommandOf;
    var opening, closing := [HEAD, COMMENT, ""], ["", FOOT];
    assert Commands(opening[3..]) == Commands(opening[2..]) == [];
    assert opening[2..] == opening[1..][1..] && Commands(opening[1..]) == [];
    assert Commands(closing[2..]) == Commands(closing[1..]) == [];
  }

  /** The regenerated section runs exactly the given scripts, in their order, when the shell can read their paths. */
  lemma SectionRunsScripts(scripts: seq<string>)
    requires forall path :: path in scripts ==> Literal(path)
    ensures Commands(Package(scripts)) == seq(|scripts|, i requires 0 <= i < |scripts| => "./" + scripts[i])
  {
    var middle := seq(|scripts|, i requires 0 <= i < |scripts| => ScriptLine(scripts[i]));
    assert Package(scripts) == [HEAD, COMMENT, ""] + middle + ["", FOOT];
    hide Package, Commands, ScriptLine;
    CommandsConcat([HEAD, COMMENT, ""] + middle, ["", FOOT]);
    CommandsConcat([HEAD, COMMENT, ""], middle);
    FixedLinesRunNothing();
    ScriptLinesRun(scripts);
  }

  /** What is meant to be written: the lines around the section, and the new section. */
  function Intended(lines: Lines, headAt: nat, tailAt: nat, pkg: Lines): Lines
    requires headAt <= |lines| && tailAt <= |lines|
  {
    lines[..headAt] + pkg + lines[tailAt..]
  }

  /** What the first append makes of the array of the scanned lines: it writes there whenever the new section fits. */
  function Behind(lines: Lines, headAt: nat, pkg: Lines): (behind: Lines)
    requires headAt <= |lines|
    ensures |behind| == |lines|
  {
    var end := headAt + |pkg|;
    if end <= |lines| then lines[..headAt] + pkg + lines[end..] else lines
  }

  /** What is written: the second append reads what follows the section out of that same array. */
  function Spliced(lines: Lines, headAt: nat, tailAt: nat, pkg: Lines): Lines
    requires headAt <= |lines| && tailAt <= |lines|
  {
    lines[..headAt] + pkg + Behind(lines, headAt, pkg)[tailAt..]
  }

  /** The first append, on slices that share the array `strings.Split` made. */
  method AppendPackage(splitHook: Slice, headAt: nat, scriptPackage: Slice) returns (updatedScript: Slice)
    requires splitHook.Valid() && scriptPackage.Valid() && splitHook.arr != scriptPackage.arr
    requires splitHook.off == 0 && splitHook.len == splitHook.cap == splitHook.arr.Length
    requires headAt <= splitHook.len
    modifies splitHook.arr
    ensures updatedScript.Valid() && (updatedScript.arr == splitHook.arr || fresh(updatedScript.arr))
    ensures updatedScript.Contents() == old(splitHook.arr[..])[..headAt] + old(scriptPackage.Contents())
    ensures splitHook.arr[..] == Behind(old(splitHook.arr[..]), headAt, old(scriptPackage.Contents()))
  {
    ghost var lines := splitHook.arr[..];
    updatedScript := splitHook.Sub(0, headAt);
    assert updatedScript.Contents() == lines[..headAt];
    updatedScript := Append(updatedScript, scriptPackage);
  }

  /** The three slice operations: what precedes the section, the new section, and what follows the old one. */
  method Splice(splitHook: Slice, headAt: nat, tailAt: nat, scriptPackage: Slice) returns (updatedScript: Slice)
    requires splitHook.Valid() && scriptPackage.Valid() && splitHook.arr != scriptPackage.arr
    requires splitHook.off == 0 && splitHook.len == splitHook.cap == splitHook.arr.Length
    requires headAt <= splitHook.len && tailAt <= splitHook.len
    modifies splitHook.arr
    ensures updatedScript.Valid()
    ensures updatedScript.Contents() == Spliced(old(splitHook.arr[..]), headAt, tailAt, old(scriptPackage.Contents()))
  {
    hide Behind;
    updatedScript := AppendPackage(splitHook, headAt, scriptPackage);
    ghost var behind := splitHook.arr[..];
    var rest := splitHook.Sub(tailAt, splitHook.len);
    assert rest.arr == splitHook.arr && rest.off == tailAt && rest.off + rest.len == |behind|;
    assert rest.Contents() == behind[tailAt..|behind|] == behind[tailAt..];
    updatedScript := Append(updatedScript, rest);
  }

  /** What the failing guard does: the new section runs over lines that were to be kept. */
  predicate Overruns(lines: Lines, scripts: seq<string>) {
    TailAt(lines) < HeadAt(lines) + |Package(scripts)| <= |lines|
  }

  lemma IntendedAtEnd(lines: Lines, h: nat, pkg: Lines)
    requires h <= |lines|
    ensures Intended(lines, h, |lines|, pkg) == lines[..h] + pkg
  {
  }

  lemma SectionBounds(lines: Lines)
    requires lines != []
    ensures HeadAt(lines) <= |lines| && TailAt(lines) <= |lines|
  {
  }

  /** No footer comes after the section. */
  lemma NoFootPastTail(lines: Lines, i: nat)
    requires !Duplicated(lines) && TailAt(lines) <= i < |lines|
    ensures !IsFoot(lines[i])
  {
    hide IsHead, IsFoot;
    assert Next(lines, false, 0) < |lines|;
  }

  lemma IntendedPast(lines: Lines, h: nat, t: nat, pkg: Lines, i: nat)
    requires h <= |lines| && t <= |lines| && h + |pkg| <= i < h + |pkg| + |lines| - t
    ensures Intended(lines, h, t, pkg)[i] == lines[t + i - h - |pkg|]
  {
  }

  lemma SplicedIntact(lines: Lines, h: nat, t: nat, pkg: Lines)
    requires h <= |lines| && t <= |lines| && !(t < h + |pkg| <= |lines|)
    ensures Spliced(lines, h, t, pkg) == Intended(lines, h, t, pkg)
  {
    var end := h + |pkg|;
    if end <= |lines| { assert (lines[..h] + pkg + lines[end..])[t..] == lines[t..]; }
  }

  /**
   The splice writes the intended lines if and only if the new section does not run past the old one while still
   fitting in the array of the scanned lines. An overrun never comes out right by accident, since it leaves a second
   footer behind.
   */
  lemma SpliceAsIntended(lines: Lines, scripts: seq<string>)
    requires lines != [] && !Duplicated(lines)
    ensures HeadAt(lines) <= |lines| && TailAt(lines) <= |lines|
    ensures Spliced(lines, HeadAt(lines), TailAt(lines), Package(scripts))
            == Intended(lines, HeadAt(lines), TailAt(lines), Package(scripts))
            <==> !Overruns(lines, scripts)
  {
    SectionBounds(lines);
    MarkersAreMarkers();
    hide Package, HeadAt, TailAt, Spliced, Intended, Duplicated, IsHead, IsFoot;
    var h, t, pkg := HeadAt(lines), TailAt(lines), Package(scripts);
    if Overruns(lines, scripts) {
      OverrunDuplicates(lines, scripts);
      IntendedPast(lines, h, t, pkg, h + |pkg| + h + |pkg| - 1 - t);
      NoFootPastTail(lines, h + |pkg| - 1);
    } else {
      SplicedIntact(lines, h, t, pkg);
    }
  }

  /** Where an overrun leaves the last line of the new section: at its end, and once more over a kept line. */
  lemma OverrunRepeats(lines: Lines, h: nat, t: nat, pkg: Lines)
    requires pkg != [] && t < h + |pkg| <= |lines|
    ensures var written, end := Spliced(lines, h, t, pkg), h + |pkg|;
            end + end - 1 - t < |written| && written[end - 1] == written[end + end - 1 - t] == pkg[|pkg| - 1]
  {
    var end := h + |pkg|;
    var behind := lines[..h] + pkg + lines[end..];
    assert behind[t..][end - 1 - t] == behind[end - 1] == pkg[|pkg| - 1];
  }

  /** After an overrun the written lines hold two footers: the new one and the one written over a kept line. */
  lemma OverrunDuplicates(lines: Lines, scripts: seq<string>)
    requires lines != [] && !Duplicated(lines) && Overruns(lines, scripts)
    ensures HeadAt(lines) <= |lines| && TailAt(lines) <= |lines|
    ensures var written := Spliced(lines, HeadAt(lines), TailAt(lines), Package(scripts));
            var end := HeadAt(lines) + |Package(scripts)|;
            var i := end + end - 1 - TailAt(lines);
            && end <= i < |written| && written[end - 1] == FOOT && written[i] == FOOT && Duplicated(written)
  {
    SectionBounds(lines);
    MarkersAreMarkers();
    hide HeadAt, TailAt, Spliced, IsHead, IsFoot;
    var h, t, pkg := HeadAt(lines), TailAt(lines), Package(scripts);
    OverrunRepeats(lines, h, t, pkg);
    var written, end := Spliced(lines, h, t, pkg), h + |pkg|;
    assert IsFoot(written[end - 1]) && IsFoot(written[end + end - 1 - t]);
  }

  // ---------- What is kept of a hook ----------

  /** A hook that is not refused: a shell script with at most one header and at most one footer. */
  predicate Accepted(lines: Lines) {
    lines != [] && IsShebang(lines[0]) && !Duplicated(lines)
  }

  /** The footer stands before the header. */
  predicate Crossed(lines: Lines) {
    Next(lines, false, 0) < Next(lines, true, 0) < |lines|
  }

  predicate IsMarker(line: string) {
    IsHead(line) || IsFoot(line)
  }

  predicate Unmarked(lines: Lines) {
    forall i :: 0 <= i < |lines| ==> !IsMarker(lines[i])
  }

  /** The lines that are not markers. */
  function Content(lines: Lines): (content: Lines)
    ensures Unmarked(content)
  {
    if lines == [] then [] else (if IsMarker(lines[0]) then [] else [lines[0]]) + Content(lines[1..])
  }

  /**
   The lines that are not managed: those around a header with its footer behind it, and in a hook without such a pair
   all lines but the stray markers.
   */
  function Outside(lines: Lines): Lines {
    var h, f := Next(lines, true, 0), Next(lines, false, 0);
    if h < f < |lines| then lines[..h] + lines[f + 1..] else Content(lines)
  }

  /** The lines outside are all there, in order, with the new section somewhere between them. */
  predicate Keeps(written: Lines, lines: Lines, scripts: seq<string>) {
    exists n :: 0 <= n <= |Outside(lines)|
      && written == Outside(lines)[..n] + Package(scripts) + Outside(lines)[n..]
  }

  /**
   What the scan takes for the section is managed: a header with its footer behind it, a lone header on the last line,
   a lone footer on the line after the first, or nothing, when the hook has just one line.
   */
  predicate TakesOnlyManaged(lines: Lines) {
    var h, f := Next(lines, true, 0), Next(lines, false, 0);
    if h < |lines| then if f < |lines| then h < f else h == |lines| - 1
    else if f < |lines| then f == 1
    else |lines| == 1
  }

  lemma OrdinaryLine(line: string)
    requires line == "" || line[0] == '"' || line == COMMENT
    ensures !IsHead(line) && !IsFoot(line)
  {
    MarkerChars();
    CommentChars();
  }

  lemma PackageMarkers(scripts: seq<string>, i: nat)
    requires i < |Package(scripts)|
    ensures var pkg := Package(scripts);
            (IsHead(pkg[i]) <==> i == 0) && (IsFoot(pkg[i]) <==> i == |pkg| - 1)
  {
    var pkg := Package(scripts);
    MarkersAreMarkers();
    if i == 0 || i == |pkg| - 1 {
      MarkersApart(pkg[i]);
    } else {
      assert pkg[i] == "" || pkg[i] == COMMENT || pkg[i][0] == '"';
      OrdinaryLine(pkg[i]);
    }
  }

  // ---------- How many lines are outside ----------

  lemma {:induction false} ContentConcat(a: Lines, b: Lines)
    ensures Content(a + b) == Content(a) + Content(b)
  {
    hide IsMarker;
    if a == [] {
      assert a + b == b;
    } else {
      ContentConcat(a[1..], b);
      assert (a + b)[0] == a[0] && (a + b)[1..] == a[1..] + b;
      var own := if IsMarker(a[0]) then [] else [a[0]];
      assert Content(a + b) == own + (Content(a[1..]) + Content(b)) == own + Content(a[1..]) + Content(b);
    }
  }

  lemma {:induction false} ContentUnmarked(lines: Lines)
    requires Unmarked(lines)
    ensures Content(lines) == lines
  {
    hide IsMarker;
    if lines != [] {
      ContentUnmarked(lines[1..]);
      assert lines == [lines[0]] + lines[1..];
    }
  }

  lemma ContentOfMarker(line: string)
    requires IsMarker(line)
    ensures Content([line]) == []
  {
    assert [line][1..] == [];
  }

  lemma ContentBetween(a: Lines, marker: string, b: Lines)
    requires Unmarked(a) && IsMarker(marker) && Unmarked(b)
    ensures Content(a + [marker] + b) == a + b
  {
    hide *;
    ContentUnmarked(a);
    ContentUnmarked(b);
    ContentOfMarker(marker);
    ContentConcat(a, [marker]);
    ContentConcat(a + [marker], b);
    assert a + [] == a;
  }

  /** Content around a marker that is the only one. */
  lemma ContentAround(lines: Lines, i: nat)
    requires i < |lines| && forall j :: 0 <= j < |lines| ==> (IsMarker(lines[j]) <==> j == i)
    ensures Content(lines) == lines[..i] + lines[i + 1..]
  {
    hide IsMarker, Content;
    ContentBetween(lines[..i], lines[i], lines[i + 1..]);
    assert lines == lines[..i] + [lines[i]] + lines[i + 1..];
  }

  /** Markers stand only where the scan finds them. */
  lemma MarkersFound(lines: Lines, i: nat)
    requires !Duplicated(lines) && i < |lines|
    ensures IsHead(lines[i]) <==> i == Next(lines, true, 0)
    ensures IsFoot(lines[i]) <==> i == Next(lines, false, 0)
  {
    hide IsHead, IsFoot;
    var h, f := Next(lines, true, 0), Next(lines, false, 0);
    assert IsHead(lines[i]) ==> i >= h && h < |lines|;
    assert IsFoot(lines[i]) ==> i >= f && f < |lines|;
  }

  lemma MarkersDiffer(lines: Lines)
    requires Accepted(lines)
    ensures var h, f := Next(lines, true, 0), Next(lines, false, 0);
            h != 0 && f != 0 && (h == f ==> h == |lines|)
  {
    var h, f := Next(lines, true, 0), Next(lines, false, 0);
    MarkersApart(lines[0]);
    if h < |lines| { MarkersApart(lines[h]); }
  }

  lemma OutsideOneMarker(lines: Lines, i: nat)
    requires !Duplicated(lines) && i < |lines|
    requires var h, f := Next(lines, true, 0), Next(lines, false, 0);
             (h == i && f == |lines|) || (f == i && h == |lines|)
    ensures Outside(lines) == lines[..i] + lines[i + 1..]
  {
    hide IsHead, IsFoot, Next;
    forall j | 0 <= j < |lines|
      ensures IsMarker(lines[j]) <==> j == i
    {
      MarkersFound(lines, j);
    }
    ContentAround(lines, i);
  }

  lemma OutsideNoMarker(lines: Lines)
    requires !Duplicated(lines) && Next(lines, true, 0) == Next(lines, false, 0) == |lines|
    ensures Outside(lines) == lines
  {
    hide IsHead, IsFoot, Next;
    forall j | 0 <= j < |lines|
      ensures !IsMarker(lines[j])
    {
      MarkersFound(lines, j);
    }
    ContentUnmarked(lines);
  }

  lemma OutsideCrossed(lines: Lines)
    requires !Duplicated(lines) && Crossed(lines)
    ensures |Outside(lines)| == |lines| - 2
  {
    hide IsHead, IsFoot, Next, Duplicated;
    var h, f := Next(lines, true, 0), Next(lines, false, 0);
    var a, b := lines[..f + 1], lines[f + 1..];
    forall j | 0 <= j < |lines|
      ensures IsMarker(lines[j]) <==> j == h || j == f
    {
      MarkersFound(lines, j);
    }
    hide IsMarker;
    assert forall j :: 0 <= j < |b| ==> b[j] == lines[f + 1 + j];
    ContentAround(a, f);
    ContentAround(b, h - f - 1);
    assert lines == a + b;
    ContentConcat(a, b);
  }

  /** When only managed lines are taken, the lines outside are those around what was taken. */
  lemma OutsideIsAround(lines: Lines)
    requires Accepted(lines) && TakesOnlyManaged(lines)
    ensures HeadAt(lines) <= |lines| && TailAt(lines) <= |lines|
    ensures Outside(lines) == lines[..HeadAt(lines)] + lines[TailAt(lines)..]
  {
    SectionBounds(lines);
    MarkersDiffer(lines);
    var h, f := Next(lines, true, 0), Next(lines, false, 0);
    if h < |lines| && f == |lines| {
      OutsideOneMarker(lines, h);
    } else if f < |lines| && h == |lines| {
      OutsideOneMarker(lines, f);
    } else if h == |lines| {
      OutsideNoMarker(lines);
    }
  }

  /** Otherwise there are not as many lines outside as around what was taken. */
  lemma OutsideCount(lines: Lines)
    requires Accepted(lines) && !TakesOnlyManaged(lines)
    ensures |Outside(lines)| != HeadAt(lines) + |lines| - TailAt(lines)
  {
    MarkersDiffer(lines);
    var h, f := Next(lines, true, 0), Next(lines, false, 0);
    if h < |lines| && f == |lines| {
      OutsideOneMarker(lines, h);
    } else if f < |lines| && h == |lines| {
      OutsideOneMarker(lines, f);
    } else if h == |lines| {
      OutsideNoMarker(lines);
    } else {
      OutsideCrossed(lines);
    }
  }

  lemma OutsideUnmarked(lines: Lines)
    requires Accepted(lines)
    ensures Unmarked(Outside(lines))
  {
    hide IsHead, IsFoot, Next, Duplicated, Content;
    var h, f := Next(lines, true, 0), Next(lines, false, 0);
    if h < f < |lines| {
      var outside := lines[..h] + lines[f + 1..];
      forall i | 0 <= i < |outside|
        ensures !IsMarker(outside[i])
      {
        MarkersFound(lines, if i < h then i else i - h + f + 1);
      }
    }
  }

  // ---------- When a splice keeps them ----------

  /** Where the markers are when a section stands between lines that are none. */
  lemma SectionBetween(a: Lines, scripts: seq<string>, b: Lines, i: nat)
    requires Unmarked(a) && Unmarked(b) && i < |a| + |Package(scripts)| + |b|
    ensures var lines := a + Package(scripts) + b;
            (IsHead(lines[i]) <==> i == |a|) && (IsFoot(lines[i]) <==> i == |a| + |Package(scripts)| - 1)
  {
    hide IsHead, IsFoot, Package;
    var pkg := Package(scripts);
    var lines := a + pkg + b;
    if i < |a| {
      assert lines[i] == a[i] && !IsMarker(a[i]);
    } else if i < |a| + |pkg| {
      assert lines[i] == pkg[i - |a|];
      PackageMarkers(scripts, i - |a|);
    } else {
      assert lines[i] == b[i - |a| - |pkg|] && !IsMarker(b[i - |a| - |pkg|]);
    }
  }

  /** Lines that keep a hook hold one header and one footer. */
  lemma KeepsNotDuplicated(written: Lines, lines: Lines, scripts: seq<string>)
    requires Accepted(lines) && Keeps(written, lines, scripts)
    ensures !Duplicated(written)
  {
    OutsideUnmarked(lines);
    hide IsHead, IsFoot, IsMarker, Package, Outside, Accepted;
    var n :| 0 <= n <= |Outside(lines)| && written == Outside(lines)[..n] + Package(scripts) + Outside(lines)[n..];
    var a, b := Outside(lines)[..n], Outside(lines)[n..];
    assert Unmarked(a) && Unmarked(b);
    hide Unmarked;
    forall i | 0 <= i < |written|
      ensures (IsHead(written[i]) <==> i == n) && (IsFoot(written[i]) <==> i == n + |Package(scripts)| - 1)
    {
      SectionBetween(a, scripts, b, i);
    }
  }

  lemma SplicedLength(lines: Lines, h: nat, t: nat, pkg: Lines)
    requires h <= |lines| && t <= |lines|
    ensures |Spliced(lines, h, t, pkg)| == |Intended(lines, h, t, pkg)| == h + |pkg| + |lines| - t
  {
  }

  /** The intended lines keep the hook exactly when only managed lines were taken for the section. */
  lemma IntendedKeeps(lines: Lines, scripts: seq<string>)
    requires Accepted(lines)
    ensures HeadAt(lines) <= |lines| && TailAt(lines) <= |lines|
    ensures Keeps(Intended(lines, HeadAt(lines), TailAt(lines), Package(scripts)), lines, scripts) <==>
            TakesOnlyManaged(lines)
  {
    SectionBounds(lines);
    var h, t, pkg, outside := HeadAt(lines), TailAt(lines), Package(scripts), Outside(lines);
    if TakesOnlyManaged(lines) {
      OutsideIsAround(lines);
      hide *;
      assert outside[..h] == lines[..h] && outside[h..] == lines[t..];
      IntendedIs(lines, h, t, pkg);
      KeepsAt(Intended(lines, h, t, pkg), lines, scripts, h);
    } else {
      OutsideCount(lines);
      SplicedLength(lines, h, t, pkg);
      hide Intended, Package, Outside;
    }
  }

  lemma IntendedIs(lines: Lines, h: nat, t: nat, pkg: Lines)
    requires h <= |lines| && t <= |lines|
    ensures Intended(lines, h, t, pkg) == lines[..h] + pkg + lines[t..]
  {
  }

  lemma KeepsAt(written: Lines, lines: Lines, scripts: seq<string>, n: nat)
    requires n <= |Outside(lines)|
    requires written == Outside(lines)[..n] + Package(scripts) + Outside(lines)[n..]
    ensures Keeps(written, lines, scripts)
  {
  }

  /**
   Splice preservation, exactly, for every hook that is not refused: all lines outside the managed section are written
   back, in order and around the new section, if and only if what the scan takes for the section is managed and the
   new section does not run past it while still fitting in the array of the scanned lines.
   */
  lemma SplicePreserves(lines: Lines, scripts: seq<string>)
    requires Accepted(lines)
    ensures HeadAt(lines) <= |lines| && TailAt(lines) <= |lines|
    ensures Keeps(Spliced(lines, HeadAt(lines), TailAt(lines), Package(scripts)), lines, scripts) <==>
            TakesOnlyManaged(lines) && !Overruns(lines, scripts)
  {
    SpliceAsIntended(lines, scripts);
    IntendedKeeps(lines, scripts);
    if Overruns(lines, scripts) {
      OverrunDuplicates(lines, scripts);
      hide Keeps, Spliced, Overruns, Package;
      var written := Spliced(lines, HeadAt(lines), TailAt(lines), Package(scripts));
      if Keeps(written, lines, scripts) { KeepsNotDuplicated(written, lines, scripts); }
    }
  }

  /** A hook with lines of its own and no markers, as one that is not yet managed, loses all of them but the first. */
  lemma UnmarkedLosesLines(lines: Lines, scripts: seq<string>)
    requires Accepted(lines) && Unmarked(lines)
    ensures HeadAt(lines) == 1 && TailAt(lines) == |lines| && Outside(lines) == lines
    ensures Spliced(lines, 1, |lines|, Package(scripts)) == [lines[0]] + Package(scripts)
  {
    assert Next(lines, true, 0) == Next(lines, false, 0) == |lines|;
    OutsideNoMarker(lines);
    hide IsHead, IsFoot, Package, Next;
    SplicedIntact(lines, 1, |lines|, Package(scripts));
    IntendedAtEnd(lines, 1, Package(scripts));
    assert lines[..1] == [lines[0]];
  }

  // ---------- A run over the scripts of one hook ----------

  datatype Error = UnknownFormat | MultipleSections

  /** The hook file, absent at first, and the error that ended the run, if one did. */
  datatype Hook = Hook(file: Option<string>, err: Option<Error>)

  function Text(lines: Lines): string {
    Join(lines, '\n')
  }

  function LinesOf(file: Option<string>): (lines: Lines)
    ensures lines != []
  {
    Split(if file.Some? then file.value else SHEBANG + "\n", '\n')
  }

  /** One round of the loop over the scripts: the file is read, scanned, spliced and written back. */
  function Update(file: Option<string>, scripts: seq<string>): Hook {
    var lines := LinesOf(file);
    if !IsShebang(lines[0]) then Hook(file, Some(UnknownFormat))
    else if Duplicated(lines) then Hook(file, Some(MultipleSections))
    else
      SectionBounds(lines);
      Hook(Some(Text(Spliced(lines, HeadAt(lines), TailAt(lines), Package(scripts)))), None)
  }

  /** The hook after the first `k` scripts; each round adds one more script to the section. */
  function Run(file: Option<string>, names: seq<string>, k: nat): Hook
    requires k <= |names|
  {
    if k == 0 then Hook(file, None)
    else
      var before := Run(file, names, k - 1);
      if before.err.Some? then before else Update(before.file, names[..k])
  }

  /** One round, on slices. */
  method UpdateHook(file: Option<string>, scripts: seq<string>) returns (hook: Hook)
    ensures hook == Update(file, scripts)
    ensures hook.err == Some(UnknownFormat) <==> !IsShebang(LinesOf(file)[0])
    ensures hook.err == Some(MultipleSections) <==> IsShebang(LinesOf(file)[0]) && Duplicated(LinesOf(file))
    ensures if hook.err.Some? then hook.file == file else hook.file.Some?
  {
    var data := if file.Some? then file.value else SHEBANG + "\n";
    var lines := Split(data, '\n');
    if !IsShebang(lines[0]) {
      return Hook(file, Some(UnknownFormat));
    }
    var section := FindSection(lines);
    if section == None {
      return Hook(file, Some(MultipleSections));
    }
    SectionBounds(lines);
    var splitHook := FromLines(lines);
    var scriptPackage := FromLines(Package(scripts));
    var updatedScript := Splice(splitHook, section.value.0, section.value.1, scriptPackage);
    return Hook(Some(Text(updatedScript.arr[updatedScript.off..updatedScript.off + updatedScript.len])), None);
  }

  lemma RunStep(file: Option<string>, names: seq<string>, k: nat)
    requires k < |names| && Run(file, names, k).err == None
    ensures Run(file, names, k + 1) == Update(Run(file, names, k).file, names[..k + 1])
  {
  }

  lemma RunZero(file: Option<string>, names: seq<string>)
    ensures Run(file, names, 0) == Hook(file, None)
  {
  }

  /** The loop of `Autogen` over the scripts of one hook; the file is returned as it is left on disk. */
  method InstallHook(gitHook: Option<string>, names: seq<string>) returns (hook: Hook)
    ensures hook == Run(gitHook, names, |names|)
  {
    hide *;
    hook := Hook(gitHook, None);
    RunZero(gitHook, names);
    var scripts: seq<string> := [];
    for k := 0 to |names|
      invariant scripts == names[..k]
      invariant hook == Run(gitHook, names, k) && hook.err == None
    {
      scripts := scripts + [names[k]];
      assert scripts == names[..k + 1];
      RunStep(gitHook, names, k);
      hook := UpdateHook(hook.file, scripts);
      if hook.err.Some? {
        RunStops(gitHook, names, k + 1, |names|);
        return;
      }
    }
    assert names[..|names|] == names;
  }

  lemma {:induction false} RunStops(file: Option<string>, names: seq<string>, j: nat, k: nat)
    requires j <= k <= |names| && Run(file, names, j).err.Some?
    ensures Run(file, names, k) == Run(file, names, j)
    decreases k
  {
    hide Update;
    if j < k { RunStops(file, names, j, k - 1); }
  }
}
