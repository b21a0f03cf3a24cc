/**
 The scan that every patch passes before it is applied: a loop over its lines that keeps the
 section it is in, against what the patch must look like section by section.

 A line is given as what the scan makes of it; a missing path stands for one that is
 malformed or refused.
 */
module DiffScanner {
  import Conditions
  import opened Wrappers

  type Path = string

  datatype HeaderPath = DevNull | File(path: Path)

  datatype Line =
    | Git(left: Option<Path>, right: Option<Path>)
    | Hunk
    | Minus(path: Option<HeaderPath>)
    | Plus(path: Option<HeaderPath>)
    | Other

  // ----- Section by section -----

  /** The sections of a patch: each begins at a `diff --git` line; what comes before the first is skipped. */
  function Sections(lines: seq<Line>): seq<seq<Line>> {
    if lines == [] then []
    else
      var sections, last := Sections(lines[..|lines| - 1]), lines[|lines| - 1];
      if last.Git? then sections + [[last]]
      else if sections == [] then []
      else sections[..|sections| - 1] + [sections[|sections| - 1] + [last]]
  }

  /** The lines of a section before its first hunk. */
  function BeforeHunks(section: seq<Line>): seq<Line> {
    if section == [] then []
    else
      var before := BeforeHunks(section[..|section| - 1]);
      if |before| == |section| - 1 && section[|section| - 1] != Hunk then section else before
  }

  function Minuses(lines: seq<Line>): seq<Option<HeaderPath>> {
    if lines == [] then []
    else
      var last := lines[|lines| - 1];
      Minuses(lines[..|lines| - 1]) + if last.Minus? then [last.path] else []
  }

  function Pluses(lines: seq<Line>): seq<Option<HeaderPath>> {
    if lines == [] then []
    else
      var last := lines[|lines| - 1];
      Pluses(lines[..|lines| - 1]) + if last.Plus? then [last.path] else []
  }

  /** At most one header, and that one well formed. */
  predicate Single(headers: seq<Option<HeaderPath>>) {
    |headers| <= 1 && forall i | 0 <= i < |headers| :: headers[i].Some?
  }

  function Only(headers: seq<Option<HeaderPath>>): Option<HeaderPath> {
    if |headers| == 1 then headers[0] else None
  }

  /** The section so far: one path, named twice alike, and no header wrong or given again. */
  predicate Begun(section: seq<Line>) {
    && section != [] && section[0].Git? && section[0].left.Some? && section[0].right == section[0].left
    && Single(Minuses(BeforeHunks(section))) && Single(Pluses(BeforeHunks(section)))
  }

  /** The two headers of a section of a file: none, or both, not both null, and about that file. */
  predicate HeadersAgree(path: Path, left: Option<HeaderPath>, right: Option<HeaderPath>) {
    || (left == None && right == None)
    || (&& left.Some? && right.Some?
        && left.value in {File(path), DevNull} && right.value in {File(path), DevNull}
        && !(left.value.DevNull? && right.value.DevNull?))
  }

  predicate Complete(section: seq<Line>) {
    && Begun(section)
    && HeadersAgree(section[0].left.value, Only(Minuses(BeforeHunks(section))), Only(Pluses(BeforeHunks(section))))
  }

  function PathsOf(sections: seq<seq<Line>>): set<Path> {
    set section: seq<Line> | section in sections && section != [] && section[0].Git? && section[0].left.Some? ::
      section[0].left.value
  }

  /** What `validate_patch` is to accept. */
  predicate Acceptable(lines: seq<Line>, maxFiles: nat) {
    && Sections(lines) != []
    && (forall i | 0 <= i < |Sections(lines)| :: Complete(Sections(lines)[i]))
    && |PathsOf(Sections(lines))| <= maxFiles
  }

  /** What the scan is to answer: the declared paths of an acceptable patch. */
  function Verdict(lines: seq<Line>, maxFiles: nat): Option<set<Path>> {
    if Acceptable(lines, maxFiles) then Some(PathsOf(Sections(lines))) else None
  }

  // ----- The scan -----

  datatype Section = Section(path: Path, oldHeader: Option<HeaderPath>, newHeader: Option<HeaderPath>, inHunks: bool)

  /** The state of the scan is what the section so far amounts to. */
  predicate Scanned(section: seq<Line>, state: Section) {
    && Begun(section) && section[0].left == Some(state.path)
    && state.oldHeader == Only(Minuses(BeforeHunks(section)))
    && state.newHeader == Only(Pluses(BeforeHunks(section)))
    && (state.inHunks <==> BeforeHunks(section) != section)
  }

  /** `finish_section`, check by check. */
  method FinishSection(s: Section) returns (ok: bool)
    ensures ok <==> HeadersAgree(s.path, s.oldHeader, s.newHeader)
  {
    if s.oldHeader.Some? != s.newHeader.Some? {
      return false;
    }
    if s.oldHeader.None? {
      return true;
    }
    if s.oldHeader.value == DevNull && s.newHeader.value == DevNull {
      return false;
    }
    if s.oldHeader.value != File(s.path) && s.oldHeader.value != DevNull {
      return false;
    }
    if s.newHeader.value != File(s.path) && s.newHeader.value != DevNull {
      return false;
    }
    return true;
  }

  lemma BeforeHunksMore(section: seq<Line>, line: Line)
    ensures BeforeHunks(section + [line])
         == if BeforeHunks(section) == section && line != Hunk then section + [line] else BeforeHunks(section)
  {
    assert (section + [line])[..|section|] == section;
    BeforeHunksIsPrefix(section);
  }

  lemma {:induction false} BeforeHunksIsPrefix(section: seq<Line>)
    ensures BeforeHunks(section) <= section
    decreases |section|
  {
    if section != [] {
      BeforeHunksIsPrefix(section[..|section| - 1]);
    }
  }

  lemma HeadersMore(lines: seq<Line>, line: Line)
    ensures Minuses(lines + [line]) == if line.Minus? then Minuses(lines) + [line.path] else Minuses(lines)
    ensures Pluses(lines + [line]) == if line.Plus? then Pluses(lines) + [line.path] else Pluses(lines)
  {
    assert (lines + [line])[..|lines|] == lines;
  }

  /** One more line of a section: the new state, or none if the line is wrong there. */
  function Next(s: Section, line: Line): Option<Section> {
    if line == Hunk then Some(s.(inHunks := true))
    else if s.inHunks then Some(s)
    else if line.Minus? then
      if s.oldHeader.Some? || line.path.None? then None else Some(s.(oldHeader := line.path))
    else if line.Plus? then
      if s.newHeader.Some? || line.path.None? then None else Some(s.(newHeader := line.path))
    else Some(s)
  }

  lemma NextScans(section: seq<Line>, s: Section, line: Line)
    requires Scanned(section, s) && !line.Git?
    ensures match Next(s, line)
            case Some(t) => Scanned(section + [line], t)
            case None => !Begun(section + [line])
  {
    BeforeHunksMore(section, line);
    assert (section + [line])[0] == section[0];
    if s.inHunks || line == Hunk {
      BeforeHunksIsPrefix(section);
    } else {
      HeadersScan(section, s, line);
    }
  }

  /** One more line before the first hunk. */
  lemma HeadersScan(section: seq<Line>, s: Section, line: Line)
    requires Scanned(section, s) && !s.inHunks && line != Hunk
    ensures match Next(s, line)
            case Some(t) =>
              && Single(Minuses(section + [line])) && t.oldHeader == Only(Minuses(section + [line]))
              && Single(Pluses(section + [line])) && t.newHeader == Only(Pluses(section + [line]))
              && t.path == s.path && !t.inHunks
            case None => !Single(Minuses(section + [line])) || !Single(Pluses(section + [line]))
  {
    HeadersMore(section, line);
    match line
    case Minus(path) => SingleMore(Minuses(section), path);
    case Plus(path) => SingleMore(Pluses(section), path);
    case _ =>
  }

  /** A further header is all right exactly if it is the first and well formed. */
  lemma SingleMore(headers: seq<Option<HeaderPath>>, header: Option<HeaderPath>)
    ensures Single(headers + [header]) <==> headers == [] && header.Some?
    ensures headers == [] ==> Only(headers) == None && Only(headers + [header]) == header
    ensures Single(headers) && headers != [] ==> Only(headers).Some?
  {
    assert (headers + [header])[|headers|] == header;
  }

  /** A section that is wrong stays wrong, however it goes on. */
  lemma WrongStaysWrong(section: seq<Line>, line: Line)
    requires section != [] && !Begun(section)
    ensures !Begun(section + [line])
  {
    BeforeHunksMore(section, line);
    HeadersMore(BeforeHunks(section), line);
    SingleMore(Minuses(BeforeHunks(section)), if line.Minus? then line.path else None);
    SingleMore(Pluses(BeforeHunks(section)), if line.Plus? then line.path else None);
    assert (section + [line])[0] == section[0];
  }

  /** Some section is finished and not complete, or the last one is already wrong. */
  predicate Hopeless(sections: seq<seq<Line>>) {
    || (exists i | 0 <= i < |sections| - 1 :: !Complete(sections[i]))
    || (sections != [] && sections[|sections| - 1] != [] && !Begun(sections[|sections| - 1]))
  }

  lemma SectionsMore(lines: seq<Line>, line: Line)
    ensures var sections := Sections(lines);
            Sections(lines + [line]) ==
              if line.Git? then sections + [[line]]
              else if sections == [] then []
              else sections[..|sections| - 1] + [sections[|sections| - 1] + [line]]
  {
    assert (lines + [line])[..|lines|] == lines;
  }

  lemma {:induction false} HopelessStays(lines: seq<Line>, i: nat)
    requires i <= |lines| && Hopeless(Sections(lines[..i]))
    ensures Hopeless(Sections(lines))
    decreases |lines|
  {
    if i < |lines| {
      var shorter, line := lines[..|lines| - 1], lines[|lines| - 1];
      assert shorter[..i] == lines[..i];
      HopelessStays(shorter, i);
      HopelessMore(Sections(shorter), line);
    } else {
      assert lines[..i] == lines;
    }
  }

  lemma HopelessMore(sections: seq<seq<Line>>, line: Line)
    requires sections != [] && Hopeless(sections)
    ensures Hopeless(sections + [[line]])
    ensures Hopeless(sections[..|sections| - 1] + [sections[|sections| - 1] + [line]])
  {
    var last := |sections| - 1;
    var wider, longer := sections + [[line]], sections[..last] + [sections[last] + [line]];
    if i :| 0 <= i < last && !Complete(sections[i]) {
      assert wider[i] == sections[i] && longer[i] == sections[i];
    } else {
      WrongStaysWrong(sections[last], line);
      assert wider[last] == sections[last] && longer[last] == sections[last] + [line];
    }
  }

  lemma HopelessIsNotAcceptable(lines: seq<Line>, maxFiles: nat)
    requires Hopeless(Sections(lines))
    ensures !Acceptable(lines, maxFiles)
  {
  }

  /** All finished sections are complete, the last one is begun, and the state tells it. */
  predicate Upto(sections: seq<seq<Line>>, state: Option<Section>, paths: set<Path>) {
    && (state == None <==> sections == [])
    && (forall i | 0 <= i < |sections| - 1 :: Complete(sections[i]))
    && (state.Some? ==> Scanned(sections[|sections| - 1], state.value))
    && paths == PathsOf(sections)
  }

  lemma PathsMore(sections: seq<seq<Line>>, line: Line)
    requires line.Git? && line.left.Some?
    ensures PathsOf(sections + [[line]]) == PathsOf(sections) + {line.left.value}
  {
    assert forall x :: x in sections + [[line]] <==> x in sections || x == [line];
    assert [line][0] == line && [line] in sections + [[line]];
  }

  lemma PathsSame(sections: seq<seq<Line>>, line: Line)
    requires sections != [] && sections[|sections| - 1] != []
    ensures PathsOf(sections[..|sections| - 1] + [sections[|sections| - 1] + [line]]) == PathsOf(sections)
  {
    var before, last := sections[..|sections| - 1], sections[|sections| - 1];
    assert sections == before + [last];
    assert forall x :: x in before + [last + [line]] <==> x in before || x == last + [line];
    assert (last + [line])[0] == last[0];
  }

  lemma NewSectionScans(line: Line)
    requires line.Git? && line.left.Some? && line.right == line.left
    ensures Scanned([line], Section(line.left.value, None, None, false))
  {
    BeforeHunksMore([], line);
    HeadersMore([], line);
    assert [] + [line] == [line];
  }

  lemma OpensSection(sections: seq<seq<Line>>, state: Option<Section>, paths: set<Path>, line: Line)
    requires Upto(sections, state, paths) && line.Git? && line.left.Some? && line.right == line.left
    requires state.Some? ==> Complete(sections[|sections| - 1])
    ensures Upto(sections + [[line]], Some(Section(line.left.value, None, None, false)), paths + {line.left.value})
  {
    PathsMore(sections, line);
    NewSectionScans(line);
    var more := sections + [[line]];
    forall i | 0 <= i < |more| - 1
      ensures Complete(more[i])
    {
      assert more[i] == sections[i];
    }
  }

  lemma GoesOn(sections: seq<seq<Line>>, s: Section, paths: set<Path>, line: Line)
    requires Upto(sections, Some(s), paths) && !line.Git?
    ensures var longer := sections[..|sections| - 1] + [sections[|sections| - 1] + [line]];
            match Next(s, line)
            case Some(t) => Upto(longer, Some(t), paths)
            case None => Hopeless(longer)
  {
    var last := |sections| - 1;
    var longer := sections[..last] + [sections[last] + [line]];
    NextScans(sections[last], s, line);
    PathsSame(sections, line);
    assert longer[last] == sections[last] + [line];
    forall i | 0 <= i < last
      ensures Complete(longer[i])
    {
      assert longer[i] == sections[i];
    }
  }

  lemma WrongSection(sections: seq<seq<Line>>, state: Option<Section>, paths: set<Path>, line: Line)
    requires Upto(sections, state, paths) && line.Git?
    requires (state.Some? && !Complete(sections[|sections| - 1])) || line.left == None || line.right != line.left
    ensures Hopeless(sections + [[line]])
  {
    var more := sections + [[line]];
    if state.Some? && !Complete(sections[|sections| - 1]) {
      assert more[|sections| - 1] == sections[|sections| - 1];
    } else {
      assert more[|more| - 1] == [line];
    }
  }

  /** A `diff --git` line finishes the section before it and opens one of its own. */
  method OpenSection(section: Option<Section>, line: Line, ghost paths: set<Path>, ghost sections: seq<seq<Line>>)
    returns (opening: Option<Section>)
    requires Upto(sections, section, paths) && line.Git?
    ensures match opening
            case Some(s) => Upto(sections + [[line]], opening, paths + {s.path})
            case None => Hopeless(sections + [[line]])
  {
    if section.Some? {
      var ok := FinishSection(section.value);
      if !ok {
        WrongSection(sections, section, paths, line);
        return None;
      }
    }
    if line.left.None? || line.right != line.left {
      WrongSection(sections, section, paths, line);
      return None;
    }
    OpensSection(sections, section, paths, line);
    return Some(Section(line.left.value, None, None, false));
  }

  /** One turn of the loop, after the lines `seen`. */
  method ScanLine(section: Option<Section>, paths: set<Path>, line: Line, ghost seen: seq<Line>)
    returns (next: Option<Section>, more: set<Path>, ok: bool)
    requires Upto(Sections(seen), section, paths)
    ensures if ok then Upto(Sections(seen + [line]), next, more) else Hopeless(Sections(seen + [line]))
  {
    SectionsMore(seen, line);
    if line.Git? {
      next := OpenSection(section, line, paths, Sections(seen));
      ok, more := next.Some?, if next.Some? then paths + {next.value.path} else paths;
    } else if section.Some? {
      GoesOn(Sections(seen), section.value, paths, line);
      next, more := Next(section.value, line), paths;
      ok := next.Some?;
    } else {
      next, more, ok := None, paths, true;
    }
  }

  /** The loop of `validate_patch` over the lines of a patch, and the sorting of what it declares. */
  method ValidatePatch(lines: seq<Line>, maxFiles: nat) returns (declared: Option<seq<Path>>)
    ensures declared.Some? <==> Acceptable(lines, maxFiles)
    ensures declared.Some? ==> Lists(declared.value, PathsOf(Sections(lines)))
  {
    var paths: set<Path>, section: Option<Section>, ok := {}, None, true;
    for i := 0 to |lines|
      invariant Upto(Sections(lines[..i]), section, paths)
    {
      assert lines[..i + 1] == lines[..i] + [lines[i]];
      section, paths, ok := ScanLine(section, paths, lines[i], lines[..i]);
      if !ok {
        Refused(lines, i + 1, maxFiles);
        return None;
      }
    }
    assert lines[..|lines|] == lines;
    AtTheEnd(lines, section, paths, maxFiles);
    if section.Some? {
      ok := FinishSection(section.value);
      if !ok {
        return None;
      }
    }
    if paths == {} || |paths| > maxFiles {
      return None;
    }
    var sorted := Sorted(paths);
    return Some(sorted);
  }

  // ----- The order of the declared paths -----

  /** Each path comes before all that follow it, so none comes twice. */
  predicate Increasing(paths: seq<Path>) {
    paths == []
    || ((forall q | q in paths[1..] :: Conditions.TextBefore(paths[0], q)) && Increasing(paths[1..]))
  }

  /** The list of a set in the order of texts; there is one such list. */
  ghost predicate Lists(listed: seq<Path>, paths: set<Path>) {
    Increasing(listed) && forall p :: p in listed <==> p in paths
  }

  lemma {:induction false} OneBefore(p: Path, q: Path)
    ensures !(Conditions.TextBefore(p, q) && Conditions.TextBefore(q, p))
    ensures p != q ==> Conditions.TextBefore(p, q) || Conditions.TextBefore(q, p)
    decreases |p|
  {
    if p != "" && q != "" {
      OneBefore(p[1..], q[1..]);
      assert p == [p[0]] + p[1..] && q == [q[0]] + q[1..];
    }
  }

  lemma {:induction false} BeforePassesOn(p: Path, q: Path, r: Path)
    requires Conditions.TextBefore(p, q) && Conditions.TextBefore(q, r)
    ensures Conditions.TextBefore(p, r)
    decreases |p|
  {
    if p != "" && p[0] == q[0] == r[0] {
      BeforePassesOn(p[1..], q[1..], r[1..]);
    }
  }

  /** Two lists of one set are the same list. */
  lemma {:induction false} OneList(a: seq<Path>, b: seq<Path>, paths: set<Path>)
    requires Lists(a, paths) && Lists(b, paths)
    ensures a == b
    decreases |a|
  {
    NothingListed(a, paths);
    NothingListed(b, paths);
    if a != [] {
      SameFirst(a, b, paths);
      OneBefore(a[0], a[0]);
      TailLists(a, paths);
      TailLists(b, paths);
      OneList(a[1..], b[1..], paths - {a[0]});
      assert a == [a[0]] + a[1..] && b == [b[0]] + b[1..];
    }
  }

  lemma NothingListed(a: seq<Path>, paths: set<Path>)
    requires Lists(a, paths)
    ensures a == [] <==> paths == {}
  {
    if a != [] {
      assert a[0] in paths;
    }
  }

  lemma SameFirst(a: seq<Path>, b: seq<Path>, paths: set<Path>)
    requires Lists(a, paths) && Lists(b, paths) && a != [] && b != []
    ensures a[0] == b[0]
  {
    assert a[0] in b && b[0] in a;
    if a[0] != b[0] {
      assert a[0] in b[1..] && b[0] in a[1..];
      OneBefore(a[0], b[0]);
    }
  }

  lemma TailLists(a: seq<Path>, paths: set<Path>)
    requires Lists(a, paths) && a != []
    ensures Lists(a[1..], paths - {a[0]})
  {
    OneBefore(a[0], a[0]);
    assert a == [a[0]] + a[1..];
  }

  function Inserted(p: Path, listed: seq<Path>): seq<Path> {
    if listed == [] || Conditions.TextBefore(p, listed[0]) then [p] + listed
    else [listed[0]] + Inserted(p, listed[1..])
  }

  lemma {:induction false} InsertedLists(p: Path, listed: seq<Path>, paths: set<Path>)
    requires Lists(listed, paths) && p !in paths
    ensures Lists(Inserted(p, listed), paths + {p})
    decreases |listed|
  {
    if listed == [] {
    } else if Conditions.TextBefore(p, listed[0]) {
      forall q | q in listed
        ensures Conditions.TextBefore(p, q)
      {
        if q != listed[0] {
          BeforePassesOn(p, listed[0], q);
        }
      }
      assert ([p] + listed)[1..] == listed;
    } else {
      TailLists(listed, paths);
      InsertedLists(p, listed[1..], paths - {listed[0]});
      OneBefore(p, listed[0]);
      assert Inserted(p, listed)[1..] == Inserted(p, listed[1..]);
    }
  }

  method Sorted(paths: set<Path>) returns (sorted: seq<Path>)
    ensures Lists(sorted, paths)
  {
    sorted := [];
    var rest := paths;
    while rest != {}
      invariant rest <= paths && Lists(sorted, paths - rest)
      decreases rest
    {
      var p :| p in rest;
      InsertedLists(p, sorted, paths - rest);
      sorted := Inserted(p, sorted);
      rest := rest - {p};
      assert paths - rest == paths - (rest + {p}) + {p};
    }
    assert paths - {} == paths;
  }

  lemma AtTheEnd(lines: seq<Line>, state: Option<Section>, paths: set<Path>, maxFiles: nat)
    requires Upto(Sections(lines), state, paths)
    ensures paths != {} <==> state.Some?
    ensures Verdict(lines, maxFiles) ==
              if state.Some? && HeadersAgree(state.value.path, state.value.oldHeader, state.value.newHeader)
                  && |paths| <= maxFiles
              then Some(paths) else None
  {
    PathsOfSome(lines, state, paths);
    var sections := Sections(lines);
    if state.Some? {
      assert Complete(sections[|sections| - 1])
        <==> HeadersAgree(state.value.path, state.value.oldHeader, state.value.newHeader);
    }
  }

  lemma Refused(lines: seq<Line>, i: nat, maxFiles: nat)
    requires i <= |lines| && Hopeless(Sections(lines[..i]))
    ensures Verdict(lines, maxFiles) == None
  {
    HopelessStays(lines, i);
    HopelessIsNotAcceptable(lines, maxFiles);
  }

  /** Once a section is begun its path is declared. */
  lemma PathsOfSome(lines: seq<Line>, state: Option<Section>, paths: set<Path>)
    requires Upto(Sections(lines), state, paths)
    ensures paths == {} <==> Sections(lines) == []
  {
    var sections := Sections(lines);
    if sections != [] {
      assert sections[|sections| - 1] in sections;
      assert state.value.path in paths;
    }
  }
}
