/**
 Whole runs of `Autogen` over the scripts of one hook: which error a run ends with, when it keeps the lines outside the
 managed section, and when running again changes nothing.
 */
module HookRuns {
  import opened Wrappers
  import opened Strings
  import opened Autogen

  /** No line holds a newline, as is so for the lines of any file, and for file names without one. */
  ghost predicate Clean(lines: Lines) {
    forall line :: line in lines ==> '\n' !in line
  }

  /** A script with exactly one managed section: lines `h` up to `t`, header and footer included. */
  ghost predicate OneSection(lines: Lines, h: nat, t: nat) {
    && 1 <= h < t <= |lines| && IsShebang(lines[0])
    && forall i :: 0 <= i < |lines| ==> (IsHead(lines[i]) <==> i == h) && (IsFoot(lines[i]) <==> i == t - 1)
  }

  lemma OneSectionScans(lines: Lines, h: nat, t: nat)
    requires OneSection(lines, h, t)
    ensures 1 <= h < t <= |lines|
    ensures Accepted(lines) && !Crossed(lines) && TakesOnlyManaged(lines) && HeadAt(lines) == h && TailAt(lines) == t
  {
    assert IsHead(lines[h]) && IsFoot(lines[t - 1]);
    MarkersApart(lines[h]);
    hide IsHead, IsFoot, IsShebang;
  }

  // ---------- Clean lines ----------

  lemma MarkerClean(sign: string)
    requires '\n' !in sign
    ensures '\n' !in Marker(sign)
  {
  }

  lemma FixedLinesClean()
    ensures '\n' !in HEAD && '\n' !in FOOT && '\n' !in COMMENT && '\n' !in SHEBANG
  {
    hide Marker;
    MarkerClean("++");
    MarkerClean("--");
    CommentClean();
  }

  lemma CommentClean()
    ensures '\n' !in COMMENT
  {
    CommentPieces();
  }

  lemma CleanConcat(a: Lines, b: Lines)
    requires Clean(a) && Clean(b)
    ensures Clean(a + b)
  {
  }

  lemma CleanPart(a: Lines, i: nat, j: nat)
    requires Clean(a) && i <= j <= |a|
    ensures Clean(a[i..j])
  {
  }

  lemma PackageClean(scripts: seq<string>)
    requires Clean(scripts)
    ensures Clean(Package(scripts))
  {
    FixedLinesClean();
    var pkg := Package(scripts);
    forall line | line in pkg
      ensures '\n' !in line
    {
      var i :| 0 <= i < |pkg| && pkg[i] == line;
      assert 3 <= i < |scripts| + 3 ==> pkg[i] == ScriptLine(scripts[i - 3]) && scripts[i - 3] in scripts;
    }
  }

  lemma SplicedClean(lines: Lines, h: nat, t: nat, scripts: seq<string>)
    requires Clean(lines) && Clean(scripts) && h <= |lines| && t <= |lines|
    ensures Clean(Spliced(lines, h, t, Package(scripts)))
  {
    PackageClean(scripts);
    hide Clean, Package;
    var pkg := Package(scripts);
    var front, end := lines[..h] + pkg, h + |pkg|;
    CleanPart(lines, 0, h);
    CleanConcat(lines[..h], pkg);
    var behind := lines;
    if end <= |lines| {
      CleanPart(lines, end, |lines|);
      CleanConcat(front, lines[end..]);
      behind := front + lines[end..];
    }
    CleanPart(behind, t, |behind|);
    CleanConcat(front, behind[t..]);
  }

  /** The lines of a file are clean and make up its text again. */
  lemma FileLines(file: Option<string>)
    ensures Clean(LinesOf(file))
    ensures file.Some? ==> Text(LinesOf(file)) == file.value
  {
  }

  /** Reading back what was written gives the lines that were written. */
  lemma Reread(lines: Lines)
    requires Clean(lines) && lines != []
    ensures LinesOf(Some(Text(lines))) == lines
  {
    SplitJoin(lines, '\n');
  }

  // ---------- One round ----------

  /** Lines that are no markers stand around what the scan takes, unless the footer stands before the header. */
  lemma AroundUnmarked(lines: Lines, i: nat)
    requires Accepted(lines) && !Crossed(lines) && i < |lines| && (i < HeadAt(lines) || TailAt(lines) <= i)
    ensures !IsMarker(lines[i])
  {
    MarkersFound(lines, i);
    MarkersDiffer(lines);
    hide IsHead, IsFoot, Duplicated;
  }

  lemma OneSectionBetween(a: Lines, scripts: seq<string>, b: Lines)
    requires a != [] && IsShebang(a[0]) && Unmarked(a) && Unmarked(b)
    ensures OneSection(a + Package(scripts) + b, |a|, |a| + |Package(scripts)|)
  {
    var lines := a + Package(scripts) + b;
    assert lines[0] == a[0];
    hide IsHead, IsFoot, IsMarker, Unmarked, Package;
    forall i | 0 <= i < |lines|
      ensures (IsHead(lines[i]) <==> i == |a|) && (IsFoot(lines[i]) <==> i == |a| + |Package(scripts)| - 1)
    {
      SectionBetween(a, scripts, b, i);
    }
  }

  /** The intended lines are a script with one section again, where the old one was. */
  lemma IntendedOneSection(lines: Lines, scripts: seq<string>)
    requires Accepted(lines) && !Crossed(lines)
    ensures 1 <= HeadAt(lines) <= |lines| && TailAt(lines) <= |lines|
    ensures OneSection(Intended(lines, HeadAt(lines), TailAt(lines), Package(scripts)),
                       HeadAt(lines), HeadAt(lines) + |Package(scripts)|)
  {
    SectionBounds(lines);
    MarkersDiffer(lines);
    var h, t, pkg := HeadAt(lines), TailAt(lines), Package(scripts);
    hide IsHead, IsFoot, IsMarker, Package, Next, Crossed;
    var a, b := lines[..h], lines[t..];
    assert Unmarked(a) by {
      forall i | 0 <= i < |a| ensures !IsMarker(a[i]) { AroundUnmarked(lines, i); }
    }
    assert Unmarked(b) by {
      forall i | 0 <= i < |b| ensures !IsMarker(b[i]) { AroundUnmarked(lines, t + i); }
    }
    assert IsShebang(a[0]);
    hide *;
    IntendedIs(lines, h, t, pkg);
    OneSectionBetween(a, scripts, b);
  }

  /** With the footer before the header it stays in front of the new section, which brings its own. */
  lemma CrossedDuplicates(lines: Lines, scripts: seq<string>)
    requires Accepted(lines) && Crossed(lines)
    ensures HeadAt(lines) <= |lines| && TailAt(lines) <= |lines|
    ensures Duplicated(Spliced(lines, HeadAt(lines), TailAt(lines), Package(scripts)))
  {
    SectionBounds(lines);
    MarkersAreMarkers();
    var h, f, pkg := HeadAt(lines), Next(lines, false, 0), Package(scripts);
    hide IsHead, IsFoot, Package, Behind;
    var written := Spliced(lines, h, TailAt(lines), pkg);
    assert written[f] == lines[f] && written[h + |pkg| - 1] == pkg[|pkg| - 1];
  }

  /** A round that leaves two footers. */
  predicate Doubles(lines: Lines, scripts: seq<string>) {
    Crossed(lines) || Overruns(lines, scripts)
  }

  /** What a round writes for some accepted lines: lines with two footers, or the intended ones, with one section. */
  ghost predicate Writes(lines: Lines, scripts: seq<string>, written: Lines) {
    var h, t, pkg := HeadAt(lines), TailAt(lines), Package(scripts);
    && 1 <= h <= |lines| && t <= |lines| && written == Spliced(lines, h, t, pkg)
    && if Doubles(lines, scripts) then Duplicated(written)
       else written == Intended(lines, h, t, pkg) && OneSection(written, h, h + |pkg|)
  }

  lemma RoundWrites(lines: Lines, scripts: seq<string>) returns (written: Lines)
    requires Accepted(lines)
    ensures HeadAt(lines) <= |lines| && TailAt(lines) <= |lines|
    ensures written == Spliced(lines, HeadAt(lines), TailAt(lines), Package(scripts))
    ensures Writes(lines, scripts, written) && written != [] && written[0] == lines[0]
  {
    SectionBounds(lines);
    MarkersDiffer(lines);
    hide Spliced, Intended, Next, IsHead, IsFoot, Duplicated, Overruns, Crossed, Package, OneSection;
    var h, t := HeadAt(lines), TailAt(lines);
    written := Spliced(lines, h, t, Package(scripts));
    SplicedFirst(lines, h, t, Package(scripts));
    SpliceAsIntended(lines, scripts);
    if Crossed(lines) {
      CrossedDuplicates(lines, scripts);
    } else if Overruns(lines, scripts) {
      OverrunDuplicates(lines, scripts);
    } else {
      IntendedOneSection(lines, scripts);
    }
  }

  lemma UpdateAccepted(file: Option<string>, scripts: seq<string>)
    requires Accepted(LinesOf(file))
    ensures HeadAt(LinesOf(file)) <= |LinesOf(file)| && TailAt(LinesOf(file)) <= |LinesOf(file)|
    ensures var lines := LinesOf(file);
            Update(file, scripts) ==
            Hook(Some(Text(Spliced(lines, HeadAt(lines), TailAt(lines), Package(scripts)))), None)
  {
    SectionBounds(LinesOf(file));
  }

  /** A round on a file that is not refused writes lines that the next one reads. */
  lemma Round(file: Option<string>, scripts: seq<string>) returns (written: Lines)
    requires Accepted(LinesOf(file)) && Clean(scripts)
    ensures Update(file, scripts) == Hook(Some(Text(written)), None) && LinesOf(Some(Text(written))) == written
    ensures written != [] && IsShebang(written[0])
    ensures Writes(LinesOf(file), scripts, written)
  {
    var lines := LinesOf(file);
    assert IsShebang(lines[0]);
    hide *;
    FileLines(file);
    UpdateAccepted(file, scripts);
    written := RoundWrites(lines, scripts);
    SplicedClean(lines, HeadAt(lines), TailAt(lines), scripts);
    Reread(written);
  }

  lemma SplicedFirst(lines: Lines, h: nat, t: nat, pkg: Lines)
    requires h <= |lines| && t <= |lines| && h >= 1
    ensures Spliced(lines, h, t, pkg) != [] && Spliced(lines, h, t, pkg)[0] == lines[0]
  {
  }

  // ---------- Rounds that fail ----------

  /** Once a file has two footers, every later round fails and leaves it as it is. */
  lemma DuplicatedIsStuck(file: Option<string>, names: seq<string>, j: nat, k: nat)
    requires j < k <= |names| && Run(file, names, j).err == None
    requires var lines := LinesOf(Run(file, names, j).file); IsShebang(lines[0]) && Duplicated(lines)
    ensures Run(file, names, k) == Hook(Run(file, names, j).file, Some(MultipleSections))
  {
    hide *;
    var scripts, now := names[..j + 1], Run(file, names, j).file;
    UpdateOutcome(now, scripts);
    RunStep(file, names, j);
    RunStops(file, names, j + 1, k);
  }

  // ---------- What a failed run leaves behind ----------

  /** The first line of a file is the first of the lines it was made of. */
  lemma FirstLine(lines: Lines)
    requires lines != [] && '\n' !in lines[0]
    ensures LinesOf(Some(Text(lines)))[0] == lines[0]
  {
    if |lines| == 1 {
      SplitWord(lines[0], '\n');
    } else {
      SplitFirst(lines[0], Join(lines[1..], '\n'), '\n');
    }
  }

  /** A round that writes keeps the first line, whatever the scripts are called. */
  lemma FirstLineStays(file: Option<string>, scripts: seq<string>)
    requires Accepted(LinesOf(file))
    ensures Update(file, scripts).err == None
    ensures LinesOf(Update(file, scripts).file)[0] == LinesOf(file)[0]
  {
    hide Spliced, Duplicated, IsHead, IsFoot, IsShebang, Package;
    var lines := LinesOf(file);
    UpdateAccepted(file, scripts);
    MarkersDiffer(lines);
    SplicedFirst(lines, HeadAt(lines), TailAt(lines), Package(scripts));
    FirstLine(Spliced(lines, HeadAt(lines), TailAt(lines), Package(scripts)));
  }

  lemma UpdateOutcome(file: Option<string>, scripts: seq<string>)
    ensures Update(file, scripts).err == None <==> Accepted(LinesOf(file))
    ensures Update(file, scripts).err.Some? ==> Update(file, scripts).file == file
    ensures Update(file, scripts).err == Some(UnknownFormat) <==> !IsShebang(LinesOf(file)[0])
    ensures Update(file, scripts).err == Some(MultipleSections) <==>
            IsShebang(LinesOf(file)[0]) && Duplicated(LinesOf(file))
  {
    hide LinesOf, IsShebang, IsHead, IsFoot, Duplicated, Spliced, Text, Package, Next;
  }

  lemma {:induction false} ShebangStays(file: Option<string>, names: seq<string>, k: nat)
    requires k <= |names| && IsShebang(LinesOf(file)[0])
    ensures IsShebang(LinesOf(Run(file, names, k).file)[0]) && Run(file, names, k).err != Some(UnknownFormat)
    decreases k
  {
    hide *;
    RunZero(file, names);
    if k > 0 {
      var before := Run(file, names, k - 1);
      ShebangStays(file, names, k - 1);
      if before.err == None {
        RunStep(file, names, k - 1);
        UpdateOutcome(before.file, names[..k]);
        if Accepted(LinesOf(before.file)) { FirstLineStays(before.file, names[..k]); }
      } else {
        RunStops(file, names, k - 1, k);
      }
    }
  }

  /** A run, with at least one script, that finds an unknown format has written nothing, whatever the scripts. */
  lemma UnknownFormatUntouched(file: Option<string>, names: seq<string>)
    requires names != []
    ensures Run(file, names, |names|).err == Some(UnknownFormat) <==> !IsShebang(LinesOf(file)[0])
    ensures Run(file, names, |names|).err == Some(UnknownFormat) ==> Run(file, names, |names|).file == file
  {
    hide *;
    if IsShebang(LinesOf(file)[0]) {
      ShebangStays(file, names, |names|);
    } else {
      RunZero(file, names);
      RunStep(file, names, 0);
      UpdateOutcome(file, names[..1]);
      RunStops(file, names, 1, |names|);
    }
  }

  /** A hook that has two headers or two footers from the start is refused and left as it is. */
  lemma DuplicatedUntouched(file: Option<string>, names: seq<string>)
    requires names != [] && IsShebang(LinesOf(file)[0]) && Duplicated(LinesOf(file))
    ensures Run(file, names, |names|) == Hook(file, Some(MultipleSections))
  {
    hide *;
    RunZero(file, names);
    DuplicatedIsStuck(file, names, 0, |names|);
  }

  /** In general an error leaves the file of the last round that wrote, and it is that file the next round refused. */
  lemma {:induction false} ErrorLeavesLastWritten(file: Option<string>, names: seq<string>, n: nat)
    requires n <= |names| && Run(file, names, n).err.Some?
    ensures exists k :: 0 <= k < n && Run(file, names, k) == Hook(Run(file, names, n).file, None)
                        && !Accepted(LinesOf(Run(file, names, k).file))
    decreases n
  {
    hide *;
    RunZero(file, names);
    var k := n - 1;
    var before := Run(file, names, k);
    if before.err == None {
      RunStep(file, names, k);
      UpdateOutcome(before.file, names[..n]);
      assert before == Hook(Run(file, names, n).file, None);
    } else {
      RunStops(file, names, k, n);
      ErrorLeavesLastWritten(file, names, k);
    }
  }

  // ---------- Nothing after the section ----------

  /** A round that takes everything from the header on for the section leaves what precedes it, and the new section. */
  lemma EndRound(file: Option<string>, scripts: seq<string>) returns (written: Lines)
    requires Accepted(LinesOf(file)) && TailAt(LinesOf(file)) == |LinesOf(file)| && Clean(scripts)
    ensures Update(file, scripts) == Hook(Some(Text(written)), None) && LinesOf(Some(Text(written))) == written
    ensures HeadAt(LinesOf(file)) <= |LinesOf(file)|
    ensures written == LinesOf(file)[..HeadAt(LinesOf(file))] + Package(scripts)
    ensures OneSection(written, HeadAt(LinesOf(file)), |written|)
  {
    hide *;
    var lines := LinesOf(file);
    EndDoesNotDouble(lines, scripts);
    written := Round(file, scripts);
    WritesOnce(lines, scripts, written);
    IntendedAtEnd(lines, HeadAt(lines), Package(scripts));
  }

  lemma EndDoesNotDouble(lines: Lines, scripts: seq<string>)
    requires TailAt(lines) == |lines|
    ensures !Doubles(lines, scripts)
  {
  }

  lemma WritesOnce(lines: Lines, scripts: seq<string>, written: Lines)
    requires Writes(lines, scripts, written) && !Doubles(lines, scripts)
    ensures var h, t, pkg := HeadAt(lines), TailAt(lines), Package(scripts);
            && 1 <= h <= |lines| && t <= |lines|
            && written == Intended(lines, h, t, pkg) && OneSection(written, h, h + |pkg|)
            && |written| == h + |pkg| + |lines| - t
  {
    SplicedLength(lines, HeadAt(lines), TailAt(lines), Package(scripts));
  }

  lemma WritesTwice(lines: Lines, scripts: seq<string>, written: Lines)
    requires Writes(lines, scripts, written) && Doubles(lines, scripts)
    ensures Duplicated(written)
  {
  }

  /**
   Fixpoint: on a hook with nothing after the section, or with no footer, no round fails; each leaves the lines before
   the section and the section regenerated for the scripts so far, and that is what the next round scans.
   */
  lemma {:induction false} RunToEnd(file: Option<string>, names: seq<string>, k: nat) returns (after: Lines)
    requires Accepted(LinesOf(file)) && TailAt(LinesOf(file)) == |LinesOf(file)|
    requires Clean(names) && 1 <= k <= |names|
    ensures HeadAt(LinesOf(file)) <= |LinesOf(file)|
    ensures after == LinesOf(file)[..HeadAt(LinesOf(file))] + Package(names[..k])
    ensures Run(file, names, k) == Hook(Some(Text(after)), None) && LinesOf(Some(Text(after))) == after
    ensures OneSection(after, HeadAt(LinesOf(file)), |after|)
    decreases k
  {
    hide *;
    CleanPart(names, 0, k);
    if k == 1 {
      RunZero(file, names);
      after := EndRound(file, names[..1]);
    } else {
      var before := RunToEnd(file, names, k - 1);
      OneSectionScans(before, HeadAt(LinesOf(file)), |before|);
      after := EndRound(Some(Text(before)), names[..k]);
      assert before[..HeadAt(LinesOf(file))] == LinesOf(file)[..HeadAt(LinesOf(file))];
    }
    RunStep(file, names, k - 1);
  }

  /** Running again over the same scripts writes the same file. */
  lemma RunTwice(file: Option<string>, names: seq<string>)
    requires Accepted(LinesOf(file)) && TailAt(LinesOf(file)) == |LinesOf(file)| && Clean(names) && names != []
    ensures var once := Run(file, names, |names|);
            once.err == None && Run(once.file, names, |names|) == once
  {
    hide *;
    var h := HeadAt(LinesOf(file));
    var once := RunToEnd(file, names, |names|);
    OneSectionScans(once, h, |once|);
    var twice := RunToEnd(Some(Text(once)), names, |names|);
    assert once[..h] == LinesOf(file)[..h];
  }

  lemma FreshLines()
    ensures LinesOf(None) == [SHEBANG, ""] && Accepted(LinesOf(None)) && Unmarked(LinesOf(None))
  {
    FixedLinesClean();
    SplitFirst(SHEBANG, "", '\n');
    assert SHEBANG + ['\n'] + "" == SHEBANG + "\n";
    MarkersApart(SHEBANG);
    OrdinaryLine("");
  }

  lemma UnmarkedScans(lines: Lines)
    requires Accepted(lines) && Unmarked(lines)
    ensures HeadAt(lines) == 1 && TailAt(lines) == |lines| && Outside(lines) == lines
  {
    UnmarkedLosesLines(lines, []);
  }

  /** A hook file that does not exist yet gets the shebang line and the section, whatever the number of scripts. */
  lemma RunFromNothing(names: seq<string>, k: nat)
    requires Clean(names) && 1 <= k <= |names|
    ensures Run(None, names, k) == Hook(Some(Text([SHEBANG] + Package(names[..k]))), None)
  {
    FreshLines();
    UnmarkedScans(LinesOf(None));
    hide *;
    var after := RunToEnd(None, names, k);
    assert [SHEBANG, ""][..1] == [SHEBANG];
  }

  /** Word for word: the lines that the scripts of a hook leave in a file that was not there. */
  lemma FreshHookLines(names: seq<string>)
    requires Clean(names) && names != []
    ensures LinesOf(Run(None, names, |names|).file)
            == ["#!/bin/bash",
                "## ++ BUILD SYSTEM " + "MANAGED - DO NOT EDIT ++ ##",
                "# These lines were added by" + " go run mage.go autogen.",
                ""]
               + seq(|names|, i requires 0 <= i < |names| => "\"./" + names[i] + "\" || exit $?")
               + ["", "## -- BUILD SYSTEM " + "MANAGED - DO NOT EDIT -- ##"]
  {
    hide *;
    ShebangText();
    MarkerText();
    CommentPieces();
    FreshReads(names);
    PackageIs(names);
    var middle := seq(|names|, i requires 0 <= i < |names| => "\"./" + names[i] + "\" || exit $?");
    Assemble(SHEBANG, HEAD, COMMENT, middle, FOOT);
  }

  lemma ShebangText()
    ensures SHEBANG == "#!/bin/bash"
  {
  }

  lemma Assemble(first: string, head: string, comment: string, middle: Lines, foot: string)
    ensures [first] + ([head, comment, ""] + middle + ["", foot]) == [first, head, comment, ""] + middle + ["", foot]
  {
  }

  lemma FreshReads(names: seq<string>)
    requires Clean(names) && names != []
    ensures LinesOf(Run(None, names, |names|).file) == [SHEBANG] + Package(names)
  {
    hide *;
    assert names[..|names|] == names;
    ShebangClean();
    PackageClean(names);
    var lines := [SHEBANG] + Package(names);
    CleanConcat([SHEBANG], Package(names));
    RunFromNothing(names, |names|);
    Reread(lines);
  }

  lemma ShebangClean()
    ensures Clean([SHEBANG])
  {
    FixedLinesClean();
  }

  lemma PackageIs(names: seq<string>)
    ensures Package(names) == [HEAD, COMMENT, ""]
              + seq(|names|, i requires 0 <= i < |names| => "\"./" + names[i] + "\" || exit $?") + ["", FOOT]
  {
    hide Marker;
  }

  /** A run on a hook without markers, as every hook that is not yet managed, keeps just its first line. */
  lemma RunOnUnmarked(file: Option<string>, names: seq<string>)
    requires var lines := LinesOf(file); Accepted(lines) && Unmarked(lines)
    requires Clean(names) && names != []
    ensures Run(file, names, |names|) == Hook(Some(Text([LinesOf(file)[0]] + Package(names))), None)
  {
    var lines := LinesOf(file);
    UnmarkedScans(lines);
    hide *;
    var after := RunToEnd(file, names, |names|);
    assert lines[..1] == [lines[0]] && names[..|names|] == names;
  }

  // ---------- Lines after the section ----------

  /** With lines after the section and two scripts or more, the file always ends up with two footers. */
  lemma RunWithRest(file: Option<string>, names: seq<string>)
    requires Accepted(LinesOf(file)) && TailAt(LinesOf(file)) < |LinesOf(file)| && Clean(names) && |names| >= 2
    ensures var hook := Run(file, names, |names|);
            && Duplicated(LinesOf(hook.file))
            && hook.err == (if Doubles(LinesOf(file), names[..1]) || |names| >= 3 then Some(MultipleSections) else None)
            && Run(file, names, if Doubles(LinesOf(file), names[..1]) then 1 else 2) == Hook(hook.file, None)
  {
    var lines, n := LinesOf(file), |names|;
    hide *;
    CleanPart(names, 0, 1);
    CleanPart(names, 0, 2);
    RunZero(file, names);
    RunStep(file, names, 0);
    var first := Round(file, names[..1]);
    if Doubles(lines, names[..1]) {
      WritesTwice(lines, names[..1], first);
      DuplicatedIsStuck(file, names, 1, n);
    } else {
      WritesOnce(lines, names[..1], first);
      OneSectionScans(first, HeadAt(lines), HeadAt(lines) + 6);
      RunStep(file, names, 1);
      var second := Round(Some(Text(first)), names[..2]);
      GrowsOver(first, names[..2]);
      WritesTwice(first, names[..2], second);
      if n > 2 { DuplicatedIsStuck(file, names, 2, n); }
    }
  }

  lemma GrowsOver(lines: Lines, scripts: seq<string>)
    requires TailAt(lines) == HeadAt(lines) + |Package(scripts)| - 1 < |lines|
    ensures Doubles(lines, scripts)
  {
  }

  // ---------- Results ----------

  /**
   Which error a run ends with, for every hook file and one script or more. A hook that is not refused at once fails
   exactly when the first of several rounds leaves two footers, or the second of at least three does, as it always does
   with lines after the section.
   */
  lemma RunFailsExactly(file: Option<string>, names: seq<string>)
    requires Clean(names) && names != []
    ensures var lines, err := LinesOf(file), Run(file, names, |names|).err;
            && (err == Some(UnknownFormat) <==> !IsShebang(lines[0]))
            && (err == Some(MultipleSections) <==>
                  IsShebang(lines[0])
                  && (Duplicated(lines)
                      || (|names| >= 2 && Doubles(lines, names[..1]))
                      || (|names| >= 3 && TailAt(lines) < |lines|)))
  {
    var lines, n := LinesOf(file), |names|;
    RunZero(file, names);
    RunStep(file, names, 0);
    if !Accepted(lines) {
      assert Run(file, names, 1).err.Some?;
      RunStops(file, names, 1, n);
    } else {
      AcceptedMeans(lines);
      hide *;
      if TailAt(lines) == |lines| {
        EndDoesNotDouble(lines, names[..1]);
        var after := RunToEnd(file, names, n);
      } else {
        TailInLines(lines);
        if n == 1 {
          CleanPart(names, 0, 1);
          var first := Round(file, names[..1]);
        } else {
          RunWithRest(file, names);
        }
      }
    }
  }

  /** The file a run leaves when it ends with the multiple-sections error: unwritten, written once or twice. */
  lemma FailedRunLeaves(file: Option<string>, names: seq<string>)
    requires Clean(names) && Run(file, names, |names|).err == Some(MultipleSections)
    ensures var lines := LinesOf(file);
            var rounds := if Duplicated(lines) then 0 else if Doubles(lines, names[..1]) then 1 else 2;
            && names != [] && rounds < |names|
            && Run(file, names, rounds) == Hook(Run(file, names, |names|).file, None)
  {
    hide *;
    RunZero(file, names);
    var lines := LinesOf(file);
    RunFailsExactly(file, names);
    if Duplicated(lines) {
      DuplicatedUntouched(file, names);
    } else {
      IsAccepted(lines);
      TailInLines(lines);
      if TailAt(lines) == |lines| { EndDoesNotDouble(lines, names[..1]); }
      RunWithRest(file, names);
    }
  }

  lemma IsAccepted(lines: Lines)
    requires lines != [] && IsShebang(lines[0]) && !Duplicated(lines)
    ensures Accepted(lines)
  {
  }

  lemma AcceptedMeans(lines: Lines)
    requires Accepted(lines)
    ensures lines != [] && IsShebang(lines[0]) && !Duplicated(lines)
  {
  }

  lemma TailInLines(lines: Lines)
    ensures TailAt(lines) <= |lines|
  {
  }

  lemma OneSectionDoubles(lines: Lines, h: nat, t: nat, scripts: seq<string>)
    requires OneSection(lines, h, t)
    ensures Doubles(lines, scripts) <==> t < h + |Package(scripts)| <= |lines|
  {
    OneSectionScans(lines, h, t);
  }

  /** On a hook with one section: with lines after it, three scripts always fail, and two do if the first overruns. */
  lemma SectionRunFails(lines: Lines, h: nat, t: nat, names: seq<string>)
    requires Clean(lines) && OneSection(lines, h, t) && Clean(names) && names != []
    ensures Run(Some(Text(lines)), names, |names|).err == Some(MultipleSections) <==>
            t < |lines| && (|names| >= 3 || (|names| == 2 && t < h + 6 <= |lines|))
    ensures Run(Some(Text(lines)), names, |names|).err != Some(UnknownFormat)
  {
    hide *;
    OneSectionScans(lines, h, t);
    OneSectionDoubles(lines, h, t, names[..1]);
    AcceptedMeans(lines);
    Reread(lines);
    RunFailsExactly(Some(Text(lines)), names);
  }

  lemma IntendedClean(lines: Lines, h: nat, t: nat, scripts: seq<string>)
    requires Clean(lines) && Clean(scripts) && h <= |lines| && t <= |lines|
    ensures Clean(Intended(lines, h, t, Package(scripts)))
  {
    PackageClean(scripts);
    hide Clean, Package;
    CleanPart(lines, 0, h);
    CleanConcat(lines[..h], Package(scripts));
    CleanPart(lines, t, |lines|);
    CleanConcat(lines[..h] + Package(scripts), lines[t..]);
  }

  lemma OneScript(file: Option<string>, names: seq<string>) returns (written: Lines)
    requires Accepted(LinesOf(file)) && Clean(names) && |names| == 1
    ensures Run(file, names, 1) == Hook(Some(Text(written)), None) && LinesOf(Some(Text(written))) == written
    ensures HeadAt(LinesOf(file)) <= |LinesOf(file)| && TailAt(LinesOf(file)) <= |LinesOf(file)|
    ensures written == Spliced(LinesOf(file), HeadAt(LinesOf(file)), TailAt(LinesOf(file)), Package(names))
  {
    hide *;
    assert names[..1] == names;
    RunZero(file, names);
    RunStep(file, names, 0);
    written := Round(file, names);
    WritesSpliced(LinesOf(file), names, written);
  }

  lemma WritesSpliced(lines: Lines, scripts: seq<string>, written: Lines)
    requires Writes(lines, scripts, written)
    ensures HeadAt(lines) <= |lines| && TailAt(lines) <= |lines|
    ensures written == Spliced(lines, HeadAt(lines), TailAt(lines), Package(scripts))
  {
  }

  /** The last lines a run with nothing after the section writes are the intended ones. */
  lemma ToEndAsIntended(file: Option<string>, names: seq<string>) returns (after: Lines)
    requires Accepted(LinesOf(file)) && TailAt(LinesOf(file)) == |LinesOf(file)| && Clean(names) && names != []
    ensures Run(file, names, |names|) == Hook(Some(Text(after)), None) && LinesOf(Some(Text(after))) == after
    ensures HeadAt(LinesOf(file)) <= |LinesOf(file)|
    ensures after == Intended(LinesOf(file), HeadAt(LinesOf(file)), TailAt(LinesOf(file)), Package(names))
  {
    hide *;
    assert names[..|names|] == names;
    after := RunToEnd(file, names, |names|);
    IntendedAtEnd(LinesOf(file), HeadAt(LinesOf(file)), Package(names));
  }

  /**
   The file ends up as intended, the scanned lines around the section and the section for all scripts, if and only if
   nothing follows the section, or there is just one script and its section does not overrun.
   */
  lemma RunAsIntended(file: Option<string>, names: seq<string>)
    requires Accepted(LinesOf(file)) && Clean(names) && names != []
    ensures HeadAt(LinesOf(file)) <= |LinesOf(file)| && TailAt(LinesOf(file)) <= |LinesOf(file)|
    ensures var lines := LinesOf(file);
            Run(file, names, |names|)
            == Hook(Some(Text(Intended(lines, HeadAt(lines), TailAt(lines), Package(names)))), None) <==>
            TailAt(lines) == |lines| || (|names| == 1 && !Overruns(lines, names))
  {
    var lines := LinesOf(file);
    SectionBounds(lines);
    AcceptedMeans(lines);
    FileLines(file);
    hide *;
    var h, t := HeadAt(lines), TailAt(lines);
    var wanted := Intended(lines, h, t, Package(names));
    if t == |lines| {
      var after := ToEndAsIntended(file, names);
    } else {
      IntendedClean(lines, h, t, names);
      SplicedLength(lines, h, t, Package(names));
      Reread(wanted);
      if |names| == 1 {
        var written := OneScript(file, names);
        SpliceAsIntended(lines, names);
      } else {
        RunWithRest(file, names);
        RestNotIntended(lines, names);
      }
    }
  }

  /** Of the lines intended, those with two footers are refused in the second round. */
  lemma RestNotIntended(lines: Lines, names: seq<string>)
    requires Accepted(lines) && |names| >= 2
    ensures HeadAt(lines) <= |lines| && TailAt(lines) <= |lines|
    ensures Duplicated(Intended(lines, HeadAt(lines), TailAt(lines), Package(names))) ==> Doubles(lines, names[..1])
  {
    SectionBounds(lines);
    MarkersDiffer(lines);
    hide IsHead, IsFoot, Package, Duplicated, Intended, Next, OneSection, Accepted, HeadAt, TailAt, Overruns;
    if !Crossed(lines) {
      IntendedOneSection(lines, names);
      var h := HeadAt(lines);
      OneSectionScans(Intended(lines, h, TailAt(lines), Package(names)), h, h + |Package(names)|);
      AcceptedMeans(Intended(lines, h, TailAt(lines), Package(names)));
    }
  }

  /**
   Preservation by whole runs, exactly, for every hook that is not refused: all lines outside the managed section are
   there afterwards, in order and around the section for all scripts, if and only if what the scan takes for the section
   is managed and either nothing follows it or there is just one script and its section does not overrun.
   */
  lemma RunPreserves(file: Option<string>, names: seq<string>)
    requires Accepted(LinesOf(file)) && Clean(names) && names != []
    ensures var lines, hook := LinesOf(file), Run(file, names, |names|);
            && (Keeps(LinesOf(hook.file), lines, names) <==>
                  TakesOnlyManaged(lines)
                  && (TailAt(lines) == |lines| || (|names| == 1 && !Overruns(lines, names))))
            && (Keeps(LinesOf(hook.file), lines, names) ==> hook.err == None)
  {
    var lines := LinesOf(file);
    AcceptedMeans(lines);
    hide *;
    if TailAt(lines) == |lines| {
      var after := ToEndAsIntended(file, names);
      IntendedKeeps(lines, names);
    } else if |names| == 1 {
      var written := OneScript(file, names);
      SplicePreserves(lines, names);
    } else {
      TailInLines(lines);
      RunWithRest(file, names);
      if Keeps(LinesOf(Run(file, names, |names|).file), lines, names) {
        KeepsNotDuplicated(LinesOf(Run(file, names, |names|).file), lines, names);
      }
    }
  }

  /** With lines after the section and three scripts or more, the run ends with the multiple-sections error. */
  lemma LaterScriptsFail(file: Option<string>, names: seq<string>)
    requires Accepted(LinesOf(file)) && TailAt(LinesOf(file)) < |LinesOf(file)| && Clean(names) && |names| >= 3
    ensures Run(file, names, |names|).err == Some(MultipleSections)
  {
    hide *;
    RunWithRest(file, names);
  }

  // ---------- A hook that is damaged ----------

  /** Managed for one script, with one line of the user's own after the section. */
  function OwnLineLast(line: string): Lines {
    [SHEBANG] + Package(["a"]) + [line]
  }

  lemma OwnLineLastIsOneSection(line: string)
    requires !IsMarker(line)
    ensures OneSection(OwnLineLast(line), 1, 7) && |OwnLineLast(line)| == 8
  {
    MarkersApart(SHEBANG);
    assert Unmarked([SHEBANG]) && Unmarked([line]) && IsShebang(SHEBANG);
    hide IsHead, IsFoot, IsMarker, IsShebang, Unmarked, Package, OneSection;
    OneSectionBetween([SHEBANG], ["a"], [line]);
  }

  lemma OwnLineLastReads(line: string)
    requires !IsMarker(line) && '\n' !in line
    ensures var lines := OwnLineLast(line);
            && LinesOf(Some(Text(lines))) == lines && Accepted(lines) && TakesOnlyManaged(lines)
            && TailAt(lines) == 7 && |lines| == 8 && !Overruns(lines, ["a"])
  {
    var lines := OwnLineLast(line);
    FixedLinesClean();
    PackageClean(["a"]);
    assert Clean(lines);
    OwnLineLastIsOneSection(line);
    OneSectionScans(lines, 1, 7);
    OneSectionDoubles(lines, 1, 7, ["a"]);
    hide Clean, OneSection, OwnLineLast, LinesOf, Text;
    Reread(lines);
  }

  /**
   The failures at an input: such a hook is fine with its one script; with a second script the user's line is lost to a
   second footer, and a third script ends the run with the error.
   */
  lemma OwnLineLost(line: string)
    requires !IsMarker(line) && '\n' !in line
    ensures var file := Some(Text(OwnLineLast(line)));
            && Keeps(LinesOf(Run(file, ["a"], 1).file), OwnLineLast(line), ["a"])
            && Run(file, ["a", "b"], 2).err == None
            && Duplicated(LinesOf(Run(file, ["a", "b"], 2).file))
            && !Keeps(LinesOf(Run(file, ["a", "b"], 2).file), OwnLineLast(line), ["a", "b"])
            && Run(file, ["a", "b", "c"], 3).err == Some(MultipleSections)
  {
    assert Clean(["a"]) && Clean(["a", "b"]) && Clean(["a", "b", "c"]);
    hide *;
    var file := Some(Text(OwnLineLast(line)));
    assert ["a", "b"][..1] == ["a"];
    OwnLineLastIsOneSection(line);
    OwnLineLastReads(line);
    OneSectionDoubles(OwnLineLast(line), 1, 7, ["a"]);
    RunPreserves(file, ["a"]);
    RunPreserves(file, ["a", "b"]);
    RunWithRest(file, ["a", "b"]);
    LaterScriptsFail(file, ["a", "b", "c"]);
  }
}
