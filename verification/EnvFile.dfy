/**
 * The `.env` reader and editor of `dorangctl update --deploy`, and the laws that make
 * the pair a lens: what is written is what is read, nothing else moves, and writing
 * twice is writing once.
 */
module EnvFile {
  import opened Wrappers
  import opened Text

  const IMAGE: string := "DORANG_IMAGE"
  const VERSION: string := "DORANG_VERSION"

  // ---- one line --------------------------------------------------------------

  datatype Binding = Binding(key: string, value: string)

  function Clean(v: string): string { Trim(TrimSpace(v), IsQuote) }

  /** What a line binds; blank lines, comments and lines without `=` bind nothing. */
  function BindingOf(line: string): Option<Binding> {
    var t := TrimSpace(line);
    if t == "" || t[0] == '#' then None
    else
      var c := Cut(t, '=');
      if c.found then Some(Binding(TrimSpace(c.before), Clean(c.after))) else None
  }

  /** A name that reads back as itself: trimmed, no `=`, not a comment. */
  predicate KeyShape(k: string) {
    Trimmed(k, IsSpace) && '=' !in k && (k != "" ==> k[0] != '#')
  }

  /** Only quotes, of either kind. */
  predicate Quotes(s: string) { forall c | c in s :: c == '"' || c == '\'' }

  predicate Spaces(s: string) { forall c | c in s :: IsSpace(c) }

  /**
   * A value is read without the white space around it and, inside that, without the quotes
   * at either end, matching or not; what is left keeps its own white space and quotes.
   */
  lemma CleanExactly(l: string, open: string, x: string, close: string, r: string)
    requires Spaces(l) && Quotes(open) && Quotes(close) && Spaces(r)
    requires Trimmed(open + x + close, IsSpace)
    requires x != "" ==> x[0] !in "\"'" && x[|x| - 1] !in "\"'"
    ensures Clean(l + (open + x + close) + r) == x
  {
    TrimExactly(l, open + x + close, r, IsSpace);
    TrimExactly(open, x, close, IsQuote);
  }

  /** Every value is one of those. */
  lemma CleanParts(v: string) returns (l: string, open: string, close: string, r: string)
    ensures Spaces(l) && Quotes(open) && Quotes(close) && Spaces(r)
    ensures v == l + (open + Clean(v) + close) + r && Trimmed(open + Clean(v) + close, IsSpace)
  {
    l, r := TrimParts(v, IsSpace);
    TrimFacts(v, IsSpace);
    open, close := TrimParts(TrimSpace(v), IsQuote);
  }

  lemma CleanIgnoresTail(v: string)
    ensures Clean(TrimRight(v, IsSpace)) == Clean(v)
  {
    TrimRightThenLeft(v, IsSpace);
    TrimFacts(v, IsSpace);
    assert TrimRight(TrimSpace(v), IsSpace) == TrimSpace(v);
  }

  lemma WrittenReads(k: string, v: string)
    requires KeyShape(k)
    ensures BindingOf(k + "=" + v) == Some(Binding(k, Clean(v)))
  {
    var s := k + "=" + v;
    var a := k + "=";
    assert s == a + v;
    assert TrimLeft(s, IsSpace) == s;
    TrimRightAfter(a, v, IsSpace);
    var w := TrimRight(v, IsSpace);
    var t := k + ['='] + w;
    assert TrimSpace(s) == t;
    assert t[0] != '#';
    CutAt(k, '=', w);
    CleanIgnoresTail(v);
    TrimTrimmed(k, IsSpace);
  }

  lemma BoundKeyShape(line: string)
    requires BindingOf(line).Some?
    ensures KeyShape(BindingOf(line).value.key)
    ensures forall c | c in BindingOf(line).value.key :: c in line
  {
    var t := TrimSpace(line);
    var before := Cut(t, '=').before;
    TrimFacts(line, IsSpace);
    CutFacts(t, '=');
    TrimFacts(before, IsSpace);
    if before != "" {
      assert before[0] == t[0];
      assert TrimLeft(before, IsSpace) == before;
      TrimRightAfter(before[..1], before[1..], IsSpace);
      assert before == before[..1] + before[1..];
    }
  }

  // ---- a text ----------------------------------------------------------------

  function Extend(m: map<string, string>, line: string): map<string, string> {
    match BindingOf(line)
    case None => m
    case Some(b) => m[b.key := b.value]
  }

  function ParseLines(lines: seq<string>): map<string, string> {
    if lines == [] then map[] else Extend(ParseLines(lines[..|lines| - 1]), lines[|lines| - 1])
  }

  function Parse(text: string): map<string, string> { ParseLines(Split(text, '\n')) }

  function EditLine(line: string, updates: map<string, string>): string {
    match BindingOf(line)
    case None => line
    case Some(b) => if b.key in updates then b.key + "=" + updates[b.key] else line
  }

  function EditLines(lines: seq<string>, updates: map<string, string>): (r: seq<string>)
    ensures |r| == |lines| && forall i | 0 <= i < |lines| :: r[i] == EditLine(lines[i], updates)
  {
    if lines == [] then []
    else EditLines(lines[..|lines| - 1], updates) + [EditLine(lines[|lines| - 1], updates)]
  }

  function Terminated(text: string): string {
    if text != "" && text[|text| - 1] != '\n' then text + "\n" else text
  }

  /** The append at the end of the editor, for one of the two names. */
  function Appended(text: string, k: string, updates: map<string, string>, seen: set<string>): string {
    if k in updates && k !in seen then Terminated(text) + k + "=" + updates[k] + "\n" else text
  }

  function Edit(text: string, updates: map<string, string>): string {
    var lines := Split(text, '\n');
    var seen := Seen(lines, updates);
    Appended(Appended(Join(EditLines(lines, updates), '\n'), IMAGE, updates, seen), VERSION, updates, seen)
  }

  // ---- the methods, line by line ---------------------------------------------

  method ParseEnv(text: string) returns (vars: map<string, string>)
    ensures vars == Parse(text)
  {
    vars := map[];
    var lines := Split(text, '\n');
    for i := 0 to |lines|
      invariant vars == ParseLines(lines[..i])
    {
      assert lines[..i + 1][..i] == lines[..i];
      var line := TrimSpace(lines[i]);
      if line != "" && line[0] != '#' {
        var c := Cut(line, '=');
        if c.found {
          vars := vars[TrimSpace(c.before) := Trim(TrimSpace(c.after), IsQuote)];
        }
      }
    }
    assert lines[..|lines|] == lines;
  }

  function Seen(lines: seq<string>, updates: map<string, string>): set<string> {
    set k | k in updates && k in ParseLines(lines)
  }

  lemma SeenStep(lines: seq<string>, i: nat, updates: map<string, string>)
    requires i < |lines|
    ensures Seen(lines[..i + 1], updates) == Seen(lines[..i], updates) +
              match BindingOf(lines[i]) { case None => {} case Some(b) => if b.key in updates then {b.key} else {} }
    ensures EditLines(lines[..i + 1], updates) == EditLines(lines[..i], updates) + [EditLine(lines[i], updates)]
    ensures ParseLines(lines[..i + 1]) == Extend(ParseLines(lines[..i]), lines[i])
  {
    assert lines[..i + 1][..i] == lines[..i];
  }

  /** The part of a line the editor looks at is what the reader binds. */
  method EditOne(line: string, updates: map<string, string>) returns (out: string, named: Option<string>)
    ensures out == EditLine(line, updates)
    ensures named == match BindingOf(line) {
                       case None => None
                       case Some(b) => if b.key in updates then Some(b.key) else None
                     }
  {
    var t := TrimSpace(line);
    var c := Cut(t, '=');
    CutFacts(t, '=');
    if !c.found || t[0] == '#' {
      return line, None;
    }
    var k := TrimSpace(c.before);
    if k in updates {
      return k + "=" + updates[k], Some(k);
    }
    return line, None;
  }

  lemma LinesStep(lines: seq<string>, start: seq<string>, i: nat, updates: map<string, string>, line: string)
    requires i < |start| == |lines| && lines[..i] == EditLines(start[..i], updates) && lines[i..] == start[i..]
    requires line == EditLine(start[i], updates)
    ensures var next := lines[i := line];
            next[..i + 1] == EditLines(start[..i + 1], updates) && next[i + 1..] == start[i + 1..]
  {
    var next := lines[i := line];
    assert next[..i + 1] == lines[..i] + [line];
    assert start[..i + 1][..i] == start[..i];
    assert next[i + 1..] == lines[i..][1..];
  }

  /** The first i lines are edited and the names seen in them collected; the others are as they were. */
  predicate EditedTo(lines: seq<string>, start: seq<string>, i: nat, updates: map<string, string>, seen: set<string>) {
    && i <= |start| == |lines| && lines[..i] == EditLines(start[..i], updates) && lines[i..] == start[i..]
    && seen == Seen(start[..i], updates)
  }

  lemma EditedMore(lines: seq<string>, start: seq<string>, i: nat, updates: map<string, string>, seen: set<string>,
                   line: string, named: set<string>)
    requires i < |start| && EditedTo(lines, start, i, updates, seen) && line == EditLine(start[i], updates)
    requires named == match BindingOf(start[i]) {
                        case None => {}
                        case Some(b) => if b.key in updates then {b.key} else {}
                      }
    ensures EditedTo(lines[i := line], start, i + 1, updates, seen + named)
  {
    SeenStep(start, i, updates);
    LinesStep(lines, start, i, updates, line);
  }

  lemma Unedited(lines: seq<string>, start: seq<string>, i: nat)
    requires i < |start| == |lines| && lines[i..] == start[i..]
    ensures lines[i] == start[i]
  {
    assert lines[i] == lines[i..][0] == start[i..][0] == start[i];
  }

  method EditAll(start: seq<string>, updates: map<string, string>) returns (lines: seq<string>, seen: set<string>)
    ensures lines == EditLines(start, updates) && seen == Seen(start, updates)
  {
    lines, seen := start, {};
    for i := 0 to |start|
      invariant EditedTo(lines, start, i, updates, seen)
    {
      Unedited(lines, start, i);
      var line, named := EditOne(lines[i], updates);
      EditedMore(lines, start, i, updates, seen, line, if named.Some? then {named.value} else {});
      lines := lines[i := line];
      if named.Some? {
        seen := seen + {named.value};
      }
    }
    assert lines[..|start|] == lines && start[..|start|] == start;
  }

  method SetEnv(text: string, updates: map<string, string>) returns (out: string)
    ensures out == Edit(text, updates)
  {
    var lines, seen := EditAll(Split(text, '\n'), updates);
    out := Join(lines, '\n');
    var names := [IMAGE, VERSION];
    for i := 0 to 2
      invariant i == 0 ==> out == Join(lines, '\n')
      invariant i == 1 ==> out == Appended(Join(lines, '\n'), IMAGE, updates, seen)
      invariant i == 2 ==> out == Appended(Appended(Join(lines, '\n'), IMAGE, updates, seen), VERSION, updates, seen)
    {
      if names[i] in updates && names[i] !in seen {
        if out != "" && out[|out| - 1] != '\n' {
          out := out + "\n";
        }
        out := out + names[i] + "=" + updates[names[i]] + "\n";
      }
    }
  }

  // ---- reading an edited text ------------------------------------------------

  /** No value spans a line. */
  predicate OneLine(updates: map<string, string>) {
    forall k | k in updates :: '\n' !in updates[k]
  }

  lemma BlankBindsNothing()
    ensures BindingOf("") == None
  {
  }

  /** Ending the last line changes nothing that is read. */
  lemma ParseTerminated(text: string)
    ensures Parse(Terminated(text)) == Parse(text)
  {
    if Terminated(text) != text {
      assert text + "\n" == text + ['\n'] + "";
      SplitAt(text, '\n', "");
      assert Split("", '\n') == [""];
      ParseSnoc(Split(text, '\n'), "");
      BlankBindsNothing();
    }
  }

  lemma SplitAddedLine(text: string, line: string) returns (head: seq<string>)
    requires Terminated(text) == text && '\n' !in line
    ensures Split(text, '\n') == head + [""]
    ensures Split(text + line + "\n", '\n') == head + [line] + [""]
  {
    SplitWhole(line, '\n');
    assert Split("", '\n') == [""];
    SplitAt(line, '\n', "");
    if text == "" {
      head := [];
      assert text + line + "\n" == line + ['\n'] + "";
    } else {
      var a := text[..|text| - 1];
      head := Split(a, '\n');
      assert text == a + ['\n'] + "";
      SplitAt(a, '\n', "");
      assert text + line + "\n" == a + ['\n'] + (line + ['\n'] + "");
      SplitAt(a, '\n', line + ['\n'] + "");
    }
  }

  lemma ParseSnoc(lines: seq<string>, line: string)
    ensures ParseLines(lines + [line]) == Extend(ParseLines(lines), line)
  {
  }

  lemma ParseAddedLine(text: string, line: string)
    requires Terminated(text) == text && '\n' !in line
    ensures Parse(text + line + "\n") == Extend(Parse(text), line)
  {
    var head := SplitAddedLine(text, line);
    BlankBindsNothing();
    ParseSnoc(head, "");
    ParseSnoc(head, line);
    ParseSnoc(head + [line], "");
  }

  function CleanAll(updates: map<string, string>): map<string, string> {
    map k | k in updates :: Clean(updates[k])
  }

  /** A map with the values it may take: keys already there, or in `extra`. */
  function Overlay(m: map<string, string>, vals: map<string, string>, extra: set<string>): map<string, string> {
    m + map k | k in vals && (k in m || k in extra) :: vals[k]
  }

  lemma OverlayBind(m: map<string, string>, vals: map<string, string>, k: string, v: string)
    ensures Overlay(m[k := v], vals, {}) == Overlay(m, vals, {})[k := if k in vals then vals[k] else v]
  {
  }

  lemma {:induction false} ParseEdited(lines: seq<string>, updates: map<string, string>)
    ensures ParseLines(EditLines(lines, updates)) == Overlay(ParseLines(lines), CleanAll(updates), {})
  {
    if lines != [] {
      var before, last := lines[..|lines| - 1], lines[|lines| - 1];
      ParseEdited(before, updates);
      ParseSnoc(EditLines(before, updates), EditLine(last, updates));
      EditedLineBinds(last, updates);
      if BindingOf(last).Some? {
        OverlayBind(ParseLines(before), CleanAll(updates), BindingOf(last).value.key, BindingOf(last).value.value);
      }
    }
  }

  lemma EditedLineBinds(line: string, updates: map<string, string>)
    ensures BindingOf(EditLine(line, updates)) ==
            match BindingOf(line) {
              case None => None
              case Some(b) => Some(Binding(b.key, if b.key in updates then Clean(updates[b.key]) else b.value))
            }
  {
    if BindingOf(line).Some? {
      BoundKeyShape(line);
      var b := BindingOf(line).value;
      if b.key in updates {
        WrittenReads(b.key, updates[b.key]);
      }
    }
  }

  lemma {:induction false} EditedHasNoBreak(lines: seq<string>, updates: map<string, string>)
    requires OneLine(updates) && forall l | l in lines :: '\n' !in l
    ensures forall l | l in EditLines(lines, updates) :: '\n' !in l
  {
    var r := EditLines(lines, updates);
    forall l | l in r
      ensures '\n' !in l
    {
      var i :| 0 <= i < |r| && r[i] == l;
      assert lines[i] in lines;
      if BindingOf(lines[i]).Some? {
        BoundKeyShape(lines[i]);
      }
    }
  }

  lemma TerminatedTwice(text: string)
    ensures Terminated(Terminated(text)) == Terminated(text)
  {
  }

  lemma LineJoined(text: string, k: string, v: string)
    ensures text + (k + "=" + v) + "\n" == text + k + "=" + v + "\n"
  {
  }

  lemma ParseAppended(text: string, k: string, updates: map<string, string>, seen: set<string>)
    requires KeyShape(k) && '\n' !in k && OneLine(updates)
    ensures Parse(Appended(text, k, updates, seen)) ==
            if k in updates && k !in seen then Parse(text)[k := Clean(updates[k])] else Parse(text)
  {
    if k in updates && k !in seen {
      ParseTerminated(text);
      TerminatedTwice(text);
      ParseAddedLine(Terminated(text), k + "=" + updates[k]);
      LineJoined(Terminated(text), k, updates[k]);
      WrittenReads(k, updates[k]);
    }
  }

  /**
   * PutGet, for every text and every set of one-line values: an edited text reads as the
   * original with each named key it may write, one already bound or one of the two
   * deployment names, bound to the value as the reader cleans it.
   */
  lemma EditReads(text: string, updates: map<string, string>)
    requires OneLine(updates)
    ensures Parse(Edit(text, updates)) == Overlay(Parse(text), CleanAll(updates), {IMAGE, VERSION})
  {
    var lines := Split(text, '\n');
    var seen := Seen(lines, updates);
    var t0 := Join(EditLines(lines, updates), '\n');
    var t1 := Appended(t0, IMAGE, updates, seen);
    EditedReads(text, updates);
    NamesShaped();
    ParseAppended(t0, IMAGE, updates, seen);
    ParseAppended(t1, VERSION, updates, seen);
    OverlayBoth(Parse(text), updates, seen, Parse(t0), Parse(t1), Parse(Edit(text, updates)));
  }

  lemma EditedReads(text: string, updates: map<string, string>)
    requires OneLine(updates)
    ensures Parse(Join(EditLines(Split(text, '\n'), updates), '\n')) == Overlay(Parse(text), CleanAll(updates), {})
  {
    var lines := Split(text, '\n');
    SplitHasNone(text, '\n');
    EditedHasNoBreak(lines, updates);
    SplitJoin(EditLines(lines, updates), '\n');
    ParseEdited(lines, updates);
  }

  /** Binding the two names that are updated and not there yet. */
  lemma OverlayBoth(m: map<string, string>, updates: map<string, string>, seen: set<string>,
                    m0: map<string, string>, m1: map<string, string>, m2: map<string, string>)
    requires m0 == Overlay(m, CleanAll(updates), {}) && seen == set k | k in updates && k in m
    requires m1 == if IMAGE in updates && IMAGE !in seen then m0[IMAGE := Clean(updates[IMAGE])] else m0
    requires m2 == if VERSION in updates && VERSION !in seen then m1[VERSION := Clean(updates[VERSION])] else m1
    ensures m2 == Overlay(m, CleanAll(updates), {IMAGE, VERSION})
  {
    OverlayGrow(m, CleanAll(updates), {}, IMAGE);
    OverlayGrow(m, CleanAll(updates), {IMAGE}, VERSION);
    assert {} + {IMAGE} == {IMAGE} && {IMAGE} + {VERSION} == {IMAGE, VERSION};
  }

  lemma NamesShaped()
    ensures KeyShape(IMAGE) && '\n' !in IMAGE && KeyShape(VERSION) && '\n' !in VERSION
  {
  }

  lemma OverlayGrow(m: map<string, string>, vals: map<string, string>, extra: set<string>, k: string)
    ensures Overlay(m, vals, extra + {k}) ==
            if k in vals && k !in m then Overlay(m, vals, extra)[k := vals[k]] else Overlay(m, vals, extra)
  {
  }

  /** For the two deployment keys it reads as written exactly when the values are clean. */
  lemma EditReadsExactly(text: string, image: string, version: string)
    requires '\n' !in image && '\n' !in version
    ensures var updates := map[IMAGE := image, VERSION := version];
            Parse(Edit(text, updates)) == Parse(text) + updates <==> Clean(image) == image && Clean(version) == version
  {
    var updates := map[IMAGE := image, VERSION := version];
    EditReads(text, updates);
    CleanPair(image, version);
    OverlayPair(Parse(text), updates, map[IMAGE := Clean(image), VERSION := Clean(version)]);
  }

  lemma CleanPair(image: string, version: string)
    ensures CleanAll(map[IMAGE := image, VERSION := version]) == map[IMAGE := Clean(image), VERSION := Clean(version)]
  {
  }

  lemma OverlayPair(m: map<string, string>, updates: map<string, string>, vals: map<string, string>)
    requires updates.Keys == vals.Keys == {IMAGE, VERSION}
    ensures Overlay(m, vals, {IMAGE, VERSION}) == m + updates
       <==> vals[IMAGE] == updates[IMAGE] && vals[VERSION] == updates[VERSION]
  {
  }

  predicate Names(line: string, updates: map<string, string>) {
    BindingOf(line).Some? && BindingOf(line).value.key in updates
  }

  lemma UnnamedKept(line: string, updates: map<string, string>)
    ensures !Names(line, updates) ==> EditLine(line, updates) == line
  {
  }

  /** The lines added for the names the text does not bind. */
  function Added(bound: map<string, string>, updates: map<string, string>): string {
    (if IMAGE in updates && IMAGE !in bound then IMAGE + "=" + updates[IMAGE] + "\n" else "")
    + (if VERSION in updates && VERSION !in bound then VERSION + "=" + updates[VERSION] + "\n" else "")
  }

  lemma AppendedLine(text: string, k: string, updates: map<string, string>, seen: set<string>)
    ensures Appended(text, k, updates, seen) ==
            if k in updates && k !in seen then Terminated(text) + (k + "=" + updates[k] + "\n") else text
    ensures k in updates && k !in seen ==>
              Terminated(Appended(text, k, updates, seen)) == Appended(text, k, updates, seen)
  {
    if k in updates && k !in seen {
      assert Terminated(text) + k + "=" + updates[k] + "\n" == Terminated(text) + (k + "=" + updates[k] + "\n");
    }
  }

  lemma AddedLines(text: string, updates: map<string, string>, seen: set<string>, bound: map<string, string>)
    requires forall k | k in updates :: k in seen <==> k in bound
    ensures var added := Added(bound, updates);
            Appended(Appended(text, IMAGE, updates, seen), VERSION, updates, seen) ==
            if added == "" then text else Terminated(text) + added
  {
    AppendedLine(text, IMAGE, updates, seen);
    AppendedLine(Appended(text, IMAGE, updates, seen), VERSION, updates, seen);
  }

  lemma KeptLines(lines: seq<string>, updates: map<string, string>)
    ensures var kept := EditLines(lines, updates);
            |kept| == |lines| && forall i | 0 <= i < |lines| :: !Names(lines[i], updates) ==> kept[i] == lines[i]
  {
    forall i | 0 <= i < |lines|
      ensures !Names(lines[i], updates) ==> EditLines(lines, updates)[i] == lines[i]
    {
      UnnamedKept(lines[i], updates);
    }
  }

  /**
   * Nothing else moves: the edited text is the original's lines in order, each one that
   * names no key of the set byte for byte, and after them one line for each of the two
   * names that is wanted and not yet bound.
   */
  lemma OthersKept(text: string, updates: map<string, string>)
    ensures var lines := Split(text, '\n');
            var kept := EditLines(lines, updates);
            var added := Added(Parse(text), updates);
            && Edit(text, updates) == (if added == "" then Join(kept, '\n') else Terminated(Join(kept, '\n')) + added)
            && |kept| == |lines| && (forall i | 0 <= i < |lines| :: !Names(lines[i], updates) ==> kept[i] == lines[i])
  {
    var lines := Split(text, '\n');
    KeptLines(lines, updates);
    AddedLines(Join(EditLines(lines, updates), '\n'), updates, Seen(lines, updates), Parse(text));
  }

  lemma EditLineTwice(line: string, updates: map<string, string>)
    ensures EditLine(EditLine(line, updates), updates) == EditLine(line, updates)
  {
    if BindingOf(line).Some? {
      var b := BindingOf(line).value;
      BoundKeyShape(line);
      if b.key in updates {
        WrittenReads(b.key, updates[b.key]);
      }
    }
  }

  /** Every line already says what the edit would make it say. */
  predicate Settled(lines: seq<string>, updates: map<string, string>) {
    forall l | l in lines :: EditLine(l, updates) == l
  }

  lemma SettledAppended(text: string, k: string, updates: map<string, string>, seen: set<string>)
    requires KeyShape(k) && '\n' !in k && OneLine(updates) && Settled(Split(text, '\n'), updates)
    ensures Settled(Split(Appended(text, k, updates, seen), '\n'), updates)
  {
    if k in updates && k !in seen {
      var line := k + "=" + updates[k];
      var t := Terminated(text);
      BlankBindsNothing();
      if t != text {
        assert t == text + ['\n'] + "";
        SplitAt(text, '\n', "");
        assert Split("", '\n') == [""];
      }
      assert Settled(Split(t, '\n'), updates);
      var head := SplitAddedLine(t, line);
      assert t + line + "\n" == t + k + "=" + updates[k] + "\n";
      WrittenReads(k, updates[k]);
      assert forall l | l in head :: l in Split(t, '\n');
    }
  }

  lemma SettledLines(lines: seq<string>, updates: map<string, string>)
    requires Settled(lines, updates)
    ensures EditLines(lines, updates) == lines
  {
    assert forall i | 0 <= i < |lines| :: lines[i] in lines;
  }

  lemma EditedSettled(lines: seq<string>, updates: map<string, string>)
    ensures Settled(EditLines(lines, updates), updates)
  {
    var edited := EditLines(lines, updates);
    forall l | l in edited
      ensures EditLine(l, updates) == l
    {
      var i :| 0 <= i < |edited| && edited[i] == l;
      EditLineTwice(lines[i], updates);
    }
  }

  lemma EditSettles(text: string, updates: map<string, string>)
    requires OneLine(updates)
    ensures Settled(Split(Edit(text, updates), '\n'), updates)
  {
    var lines := Split(text, '\n');
    var seen := Seen(lines, updates);
    var edited := EditLines(lines, updates);
    SplitHasNone(text, '\n');
    EditedHasNoBreak(lines, updates);
    SplitJoin(edited, '\n');
    EditedSettled(lines, updates);
    NamesShaped();
    SettledAppended(Join(edited, '\n'), IMAGE, updates, seen);
    SettledAppended(Appended(Join(edited, '\n'), IMAGE, updates, seen), VERSION, updates, seen);
  }

  /** After an edit both names are bound, so a second one adds nothing. */
  lemma NothingAdded(text: string, updates: map<string, string>)
    requires OneLine(updates)
    ensures Added(Parse(Edit(text, updates)), updates) == ""
  {
    EditReads(text, updates);
  }

  /** PutPut: editing twice is editing once. */
  lemma EditTwice(text: string, updates: map<string, string>)
    requires OneLine(updates)
    ensures Edit(Edit(text, updates), updates) == Edit(text, updates)
  {
    var out := Edit(text, updates);
    EditSettles(text, updates);
    SettledLines(Split(out, '\n'), updates);
    NothingAdded(text, updates);
    OthersKept(out, updates);
    JoinSplit(out, '\n');
  }
}
